# Lane-dodge game: gameplay core in Dafny

A model of the gameplay simulation of a three-lane synthwave driving game. The
car dodges obstacles that scroll towards it.

- **Run controller** (`Controller`): the started / game-over state machine, the score and the
  difficulty curve the score drives, the collision check that ends a run, and reset.
- **Vehicle** (`Cars`): guarded lane changes and the 300 ms cubic-eased lateral animation.
- **Obstacle field** (`ObstacleField`): the spawn scheduler with its minimum interval,
  spawning into a random lane at 150 ahead, and the per-frame scroll that evicts obstacles
  behind the car.
- **Road** (`RoadTrack`): the throttled, time-based speed ramp capped at 1.2, the start/reset of a run,
  and the lane centres.
- **Scenery conveyors** (`Conveyor`, `StreetLights`, `Palms`): fixed pools of streetlights
  and palm trees that scroll with the road. An item that passes z = -20 is recycled to the farthest item
  plus the spacing. The streetlights also have a clamped glow fade-in.
- **Sun ripples** (`Sun`): a pool of at most five rings, created at most once per 1.5 s and
  removed at the end of their lifetime, with quadratic easings.
- **Frame** (`Frame`): the per-frame tick that composes all of the above in the host's order.

Each class whose fields the program updates in place is a Dafny `class`.
It keeps the fields that gameplay reads. Values a closure captures become
fields too: the car's animation start, target and start time. Fields that
gameplay does not read (the car's `speed` and `animationId`) are dropped. The
per-instance constants (the road's width and lane count, the lights' spacing)
are module constants. Each class's methods mirror the program's statements and
loops, and are proved against pure functions on the state. Those functions
carry the properties the game relies on as lemmas:

- lanes stay in range, and the speed never exceeds its cap;
- the ripple pool never exceeds five rings;
- the conveyor pools keep their size;
- a run reports its end exactly once;
- the difficulty bounds only fall as the score grows.

Time is a parameter: integer milliseconds `now` for the wall clock, and a real
for the animation clock. Every `Math.random()` draw is a parameter in [0,1).
The two callbacks the controller fires (`onScoreUpdate`, `onGameOver`) are
modelled as an event log, with both callbacks registered. Positions, speeds,
score and time are exact reals; IEEE rounding is not modelled.

Where the game's written design and its code differ, the model follows the code:

- the difficulty factor is `Math.min(score / 1000, 1)` and is not clamped from below;
- an accepted lane change sets `currentLane` at once, not when the animation completes;
- `reset` does not cancel a running lane-change animation or a pending spawn timer;
- the obstacle sizes are full depths: rock 1.1, police officer 1.2, barrier 0.4, car 1.2. They are halved in the overlap test.

Other behaviours of the code that the model keeps:

- The obstacle manager starts with the intervals 1000/3000 ms until a run sets 3000/5000.
- The spawn scheduler runs independently of whether a run is in progress.
- The car starts with the literal lane centres -2.67, 0 and 2.67, not the road's -8/3, 0 and 8/3, until they are handed to it.
- The default obstacle size 0.2 cannot occur, because every spawned kind has its own size.
- `startGame` leaves `collisionDetected` as it was.
- The sun's random initial phase of the ripple clock is overwritten by the constructor.
- `checkCollisions` returns no value outside a running game, which is modelled as `false`.

## Model

| member | source | states |
|---|---|---|
| RoadTrack.LanePositions | components/three/objects/Road.js:252-263 | `laneCount` centres: the first is half a lane width in from the left edge, consecutive centres are one lane width apart, and centre i and centre n-1-i cancel out (symmetric about 0) |
| RoadTrack.LanePositionsIncreasing | components/three/objects/Road.js:252-263 | on a road of positive width the lane centres are strictly increasing |
| RoadTrack.DefaultLanePositions | components/three/objects/Road.js:9-22 | the default 8-wide road with 3 lanes has centres -8/3, 0 and 8/3 |
| RoadTrack.Road.GetLanePositions | components/three/objects/Road.js:252-263 | the lane-by-lane loop builds exactly `LanePositions(8, 3)`, which is [-8/3, 0, 8/3] |
| RoadTrack.RampedSpeed | components/three/objects/Road.js:185-191 | a running update raises the speed by 0.00005 per elapsed ms unless it is already at the cap, never goes above the cap 1.2, never lowers the speed, and leaves a speed at or over the cap unchanged |
| RoadTrack.RampComposes | components/three/objects/Road.js:182-191 | ramping for a ms and then b ms equals ramping once for a+b ms, so the speed depends only on the accumulated running time |
| RoadTrack.FullSpeedAfter18Seconds | components/three/objects/Road.js:12-15 | from the base speed 0.3 the road is at the cap 1.2 after 18000 ms of running time |
| RoadTrack.Road.constructor | components/three/objects/Road.js:12-22 | base speed, no running time, not started |
| RoadTrack.Road.StartGame | components/three/objects/Road.js:162-166 | started, running time 0, speed back to base; the last-update time is untouched |
| RoadTrack.Road.ResetGame | components/three/objects/Road.js:168-172 | the same as StartGame except that the road is not started |
| RoadTrack.Road.Update | components/three/objects/Road.js:174-192 | under 16 ms since the last accepted update nothing changes; otherwise the update time advances, and only a started road accumulates running time and ramps its speed (non-decreasing, capped at 1.2); the speed always equals the base speed ramped over the running time |
| Cars.EaseInOutCubic | components/three/objects/Cars.js:286-288 | the ease maps [0,1] into [0,1] |
| Cars.EaseInOutCubicShape | components/three/objects/Cars.js:286-288 | the ease is 0 at 0 and 1 at 1, and its two branches both give 1/2 at 1/2 |
| Cars.EaseInOutCubicMonotone | components/three/objects/Cars.js:286-288 | the ease is non-decreasing on [0,1] |
| Cars.Progress | components/three/objects/Cars.js:283-284 | the progress is at most 1, is non-negative for a non-negative elapsed time, and equals 1 exactly once 300 ms have elapsed |
| Cars.AnimatedX | components/three/objects/Cars.js:282-299 | the shown position starts at the start x, lies between start and target throughout, and is exactly the target x from 300 ms on |
| Cars.Car.constructor | components/three/objects/Cars.js:5-20 | centre lane, not moving, last move at 0, lane centres -2.67/0/2.67, mesh at the centre lane's x |
| Cars.Car.SetLanePositions | components/three/objects/Cars.js:254-260 | adopts the new lane centres and puts the car at its unchanged lane's new centre; nothing else changes |
| Cars.Car.MoveLeft | components/three/objects/Cars.js:262-312 | a request within 200 ms of the last accepted one, in lane 0, or while animating changes nothing (not even the last-move time); otherwise the lane drops by exactly one at once, the car is moving, the last-move time is now, and the animation runs from the current x to the new lane's centre |
| Cars.Car.MoveRight | components/three/objects/Cars.js:314-367 | the mirror image of MoveLeft at lane 2 |
| Cars.Car.Animate | components/three/objects/Cars.js:282-305 | one animation frame; with no animation pending nothing changes, otherwise x is the eased position for the elapsed time and the animation ends exactly when 300 ms have elapsed, with x snapped to the target |
| RandomDraws.PickIndex | components/three/objects/Obstacle.js:121-123 | `floor(r * n)` for r in [0,1) is an index below n |
| RandomDraws.Scaled | components/three/objects/Obstacle.js:107 | `r * range` for r in [0,1) lies in [0, range) for a positive range |
| ObstacleField.Decide | components/three/objects/Obstacle.js:102-117 | a spawn is scheduled exactly when at least the minimum interval has passed since the last scheduled spawn, after a delay in [0, max - min); otherwise only a retry in 100 ms |
| ObstacleField.ObstacleManager.ScheduleNextObstacle | components/three/objects/Obstacle.js:102-117 | the poll makes the decision `Decide` describes; an accepted spawn records now as the last-spawn time (at scheduling time), and a retry leaves it as it was; since the manager's invariant keeps the minimum interval at most the maximum, a scheduled delay lies between 0 and their difference |
| ObstacleField.NewObstacle | components/three/objects/Obstacle.js:119-124 | a spawned entry is in a lane 0..2, of a kind from the three-entry table, at its lane's centre, at z = 150, active |
| ObstacleField.ObstacleManager.SpawnObstacle | components/three/objects/Obstacle.js:119-196 | appends exactly that one new entry and leaves the existing entries untouched |
| ObstacleField.Scroll | components/three/objects/Obstacle.js:203-205 | an active entry moves exactly the speed closer and an inactive one stays put; kind, lane, x and the active flag are kept |
| ObstacleField.AdvanceLeavesNoneBehind | components/three/objects/Obstacle.js:239-242 | after a frame no active entry is beyond the eviction line z = -10 |
| ObstacleField.Advance | components/three/objects/Obstacle.js:198-245 | the list one frame leaves: the result is no longer than the input; what it holds is stated by AdvanceMembers, AdvanceAppend, AdvanceKeepsLanes, AdvanceLeavesNoneBehind and AdvanceNoneEvicted, and ObstacleManager.Update is proved equal to it |
| ObstacleField.AdvanceMembers | components/three/objects/Obstacle.js:198-245 | an entry is in the advanced list exactly when it is the scrolled form of an original entry that this frame did not evict |
| ObstacleField.AdvanceAppend | components/three/objects/Obstacle.js:198-245 | advancing a concatenation advances the parts, so kept entries stay in their original relative order |
| ObstacleField.AdvanceKeepsLanes | components/three/objects/Obstacle.js:198-245 | a frame keeps every entry active and in a lane |
| ObstacleField.AdvanceNoneEvicted | components/three/objects/Obstacle.js:198-245 | when nothing crosses the eviction line, every entry is kept and only its z moves |
| ObstacleField.ObstacleManager.Update | components/three/objects/Obstacle.js:198-245 | the backward scroll-and-splice walk leaves exactly the list `Advance` describes, at the road's current speed |
| ObstacleField.ObstacleManager.AdvanceEntry | components/three/objects/Obstacle.js:200-243 | one iteration of that walk extends the processed suffix by one entry |
| ObstacleField.ActiveOf | components/three/objects/Obstacle.js:247-249 | the active filter: the result is no longer than the input; what it keeps is stated by ActiveOfMembers and ActiveOfAllActive |
| ObstacleField.ObstacleManager.GetActiveObstacles | components/three/objects/Obstacle.js:247-249 | an entry is returned exactly when it is in the list and active |
| ObstacleField.ActiveOfMembers | components/three/objects/Obstacle.js:247-249 | the filter keeps exactly the active entries |
| ObstacleField.ActiveOfAllActive | components/three/objects/Obstacle.js:247-249 | when every entry is active, the filter returns the whole list |
| ObstacleField.ObstacleManager.RemoveObstacle | components/three/objects/Obstacle.js:251-257 | removes exactly the entry at an existing index and does nothing for any other index |
| ObstacleField.ObstacleManager.UpdateLanePositions | components/three/objects/Obstacle.js:259-261 | the manager adopts the new lane centres |
| ObstacleField.ObstacleManager.constructor | components/three/objects/Obstacle.js:5-25 | no obstacles, the road's lane centres, intervals 1000/3000 ms, last spawn at 0 |
| Controller.ZSize | components/three/controllers/GameController.js:71-79 | every obstacle kind has a positive depth of at most the car's 1.2 |
| Controller.AnyCollision | components/three/controllers/GameController.js:63-91 | some obstacle of the scanned list hits the car in its lane; CheckCollisions is proved to return exactly this over the active obstacles |
| Controller.Collides | components/three/controllers/GameController.js:61-83 | a collision holds exactly when the lanes are equal and the obstacle's z is strictly within half the summed depths of the car's z |
| Controller.NoCollisionFarAway | components/three/controllers/GameController.js:81-83 | an obstacle in another lane, or at least 1.2 away in depth, is never hit, whatever its kind |
| Controller.SpawnedObstacleIsClear | components/three/controllers/GameController.js:81-83 | a freshly spawned obstacle at z = 150 cannot hit the car at z = 0 |
| Controller.Difficulty | components/three/controllers/GameController.js:112-127 | at score 0 the bounds are 3000/5000, at score 1000 and above exactly 800/1200, in between they fall linearly (3000 - 2.2s, 5000 - 3.8s); the minimum is always at least 800, the maximum at least 1200, and the gap at least 400 |
| Controller.DifficultyMonotone | components/three/controllers/GameController.js:112-127 | a higher score never lengthens either bound |
| Controller.Reports | components/three/controllers/GameController.js:49-55 | the number of end-of-run reports in an event log, at most its length; ReportsAppend states how it grows, and the controller's invariant keeps it at one after a run ends and zero during one |
| Controller.ReportsAppend | components/three/controllers/GameController.js:49-55 | logging one more event adds an end-of-run report exactly when that event is one |
| Controller.GameController.constructor | components/three/controllers/GameController.js:4-27 | score 0, all three flags cleared, nothing reported |
| Controller.GameController.StartGame | components/three/controllers/GameController.js:29-47 | started, score 0, not over; the road started at the base speed with no running time; intervals 3000/5000; a score report of 0; collisionDetected left as it was |
| Controller.GameController.EndGame | components/three/controllers/GameController.js:49-55 | the run is over, and its unfloored score is reported |
| Controller.GameController.CheckCollisions | components/three/controllers/GameController.js:58-96 | outside a running game nothing happens and the result is false; otherwise it is true exactly when some active obstacle hits the car, in which case the run ends with collisionDetected set and one end-of-run report, and on a miss nothing changes |
| Controller.GameController.UpdateDifficulty | components/three/controllers/GameController.js:112-127 | the manager's intervals become the difficulty curve at the current score |
| Controller.GameController.Update | components/three/controllers/GameController.js:98-110 | outside a running game nothing changes and nothing is reported; in a running one the score grows by exactly 10 per second, the intervals follow the curve, the floored score is reported on every tick, and the run ends (reported once) exactly when an active obstacle hits the car; a run reports its end once at most |
| Controller.GameController.AdvanceScore | components/three/controllers/GameController.js:101-107 | the score part of a running update: score, intervals and the floored score report |
| Controller.GameController.Reset | components/three/controllers/GameController.js:129-153 | score 0, all flags cleared, the car in lane 1 at lane 1's centre, no obstacles, the road reset to base speed and not started, intervals 3000/5000; nothing is reported; the car's move clock and animation fields and the road's last update time are left as they were |
| Controller.GameController.CentreCar | components/three/controllers/GameController.js:135-138 | the car is in lane 1 at lane 1's centre |
| Controller.GameController.RestoreBaseIntervals | components/three/controllers/GameController.js:38-41 | the manager's intervals are back at 3000/5000 |
| Controller.GameController.ClearObstacles | components/three/controllers/GameController.js:140-143 | the backward removal loop over the active entries, all of which are active, empties the list |
| Controller.GameController.AutoStart | components/three/controllers/GameController.js:18-22 | when no run has been started meanwhile, the deferred start does all that StartGame does: started, score 0, not over, the road started at the base speed with no running time, intervals 3000/5000, one score report of 0, collisionDetected as it was; otherwise nothing changes |
| Conveyor.Ceil | components/three/objects/StreetLight.js:22 | `Math.ceil`: the least integer not below x |
| Conveyor.MaxOf | components/three/objects/StreetLight.js:122 | `Math.max` over the pool's z values (also PalmTrees.js:97); MaxOfIsMax states that it is one of them and no z exceeds it |
| Conveyor.MaxOfIsMax | components/three/objects/StreetLight.js:122 | the farthest z is one of the pool's z values and no z exceeds it |
| Conveyor.Step | components/three/objects/StreetLight.js:105-130 | one item's turn of the recycle loop (also PalmTrees.js:88-101): the pool keeps its size; StepEffect states the item's new z and that no other z changes |
| Conveyor.StepEffect | components/three/objects/StreetLight.js:104-131 | an item's turn moves only that item: by exactly the speed when it stays in front of -20, and otherwise to exactly the spacing beyond the farthest z of the pool with its own scrolled z, hence at least the spacing beyond every other item and beyond its own scrolled z |
| Conveyor.Pass | components/three/objects/StreetLight.js:104-131 | the first n turns of the recycle loop in index order (also PalmTrees.js:87-103): the pool keeps its size; what it computes is stated by PassUntouched, PassSettled, ItemAfterPass and PassWithoutRecycling |
| Conveyor.PassUntouched | components/three/objects/StreetLight.js:104 | items that have not had their turn in the loop yet are where they started |
| Conveyor.PassSettled | components/three/objects/StreetLight.js:104 | later turns of the loop leave an item that has had its turn alone |
| Conveyor.ItemAfterPass | components/three/objects/StreetLight.js:104-131 | after a whole update an item that stays in front of -20 has moved exactly the speed closer; a recycled one is exactly the spacing beyond the farthest z of the pool at its turn, and so at least the spacing beyond every item already updated and every item still waiting |
| Conveyor.PassWithoutRecycling | components/three/objects/StreetLight.js:104-131 | when no item crosses the recycle line, an update only scrolls the pool |
| StreetLights.LightCount | components/three/objects/StreetLight.js:21-22 | one more light position than the number of spacings needed to cover the road |
| StreetLights.DefaultLightCount | components/three/objects/StreetLight.js:21-22 | the default road of six 50-long segments gives nine light positions |
| StreetLights.InitialLight | components/three/objects/StreetLight.js:24-28 | the k-th initial light: magenta one unit right of the road edge for even k, cyan one unit left of it for odd k, both of the pair at z = (k - k mod 2) * 40, all elements at that z |
| StreetLights.InitialLayout | components/three/objects/StreetLight.js:24-28 | the initial lights stand in facing pairs across the road, 80 apart along z |
| StreetLights.Streetlight.constructor | components/three/objects/StreetLight.js:4-28 | the init loop creates ten lights, exactly the initial layout; glow off at intensity 0 |
| StreetLights.Streetlight.ActivateGlow | components/three/objects/StreetLight.js:30-32 | the delayed switch-on only sets the glow active |
| StreetLights.GlowStep | components/three/objects/StreetLight.js:97-102 | the glow grows by 0.005 only while active and below 1.5, is clamped at 1.5, never falls, and stays in [0, 1.5] |
| StreetLights.GlowReachesMax | components/three/objects/StreetLight.js:97-102 | once switched on, the glow gains 0.005 per frame until it is at 1.5, which it is after 300 frames at the latest |
| StreetLights.GlowAfterBounded | components/three/objects/StreetLight.js:97-102 | the glow stays in [start, 1.5] over any number of active frames |
| StreetLights.Streetlight.FadeInGlow | components/three/objects/StreetLight.js:97-102 | one fade-in step as GlowStep states |
| StreetLights.MoveBy | components/three/objects/StreetLight.js:107-109 | moving a light moves its tracked z and all its elements by the same amount, keeps side and colour, and keeps it drawn where it is tracked |
| StreetLights.Streetlight.Update | components/three/objects/StreetLight.js:95-133 | one glow step, and the pool's z values are the conveyor pass at the road's speed with spacing 40; the pool keeps its size, every light its side and colour, and every light's elements stay at its tracked z |
| StreetLights.Streetlight.MoveLight | components/three/objects/StreetLight.js:105-131 | light i's turn is exactly the conveyor step for its z, keeping every light's side, colour and alignment |
| StreetLights.Streetlight.ScrollLight | components/three/objects/StreetLight.js:107-118 | light i and all its elements move back by the speed |
| StreetLights.Streetlight.RecycleLight | components/three/objects/StreetLight.js:120-131 | light i and all its elements move to 40 beyond the farthest current z |
| Palms.TreesPerSide | components/three/objects/PalmTrees.js:24 | enough spacings to cover the maximum distance |
| Palms.DefaultTreesPerSide | components/three/objects/PalmTrees.js:11-24 | 200 over spacing 90 gives three trees per side |
| Palms.InitialPalm | components/three/objects/PalmTrees.js:26-35 | the k-th initial tree: left trees at z = i*90, right trees a third of a spacing further, drawn where tracked |
| Palms.InitialPalmOffRoad | components/three/objects/PalmTrees.js:28-32 | every initial tree stands between 2 and 3.5 beyond its road edge, left for even and right for odd entries |
| Palms.PalmTrees.constructor | components/three/objects/PalmTrees.js:5-36 | without a loaded model no trees; otherwise six trees, exactly the initial layout |
| Palms.PalmTrees.Update | components/three/objects/PalmTrees.js:85-104 | the pool's z values are the conveyor pass at the road's speed with spacing 90; the pool keeps its size, every tree its x, and every mesh z equals its tracked z |
| Palms.PalmTrees.MoveTree | components/three/objects/PalmTrees.js:88-102 | tree i's turn is exactly the conveyor step for its z, with mesh and tracked z kept equal and no other tree touched |
| Sun.NewRipple | components/three/objects/SynthwaveSun.js:154-197 | a new ring starts now, with a lifetime in [3,5), an end radius in [45,70), a colour from the four-colour table, the start radius 25, thickness 0.5 and opacity 0.6 |
| Sun.Progress | components/three/objects/SynthwaveSun.js:354-355 | a ring's normalised age is at most 1, non-negative from its start on, and 1 exactly once its lifetime is over |
| Sun.EaseInOutQuad | components/three/objects/SynthwaveSun.js:399-401 | maps [0,1] into [0,1] |
| Sun.EaseOutQuad | components/three/objects/SynthwaveSun.js:408-410 | maps [0,1] into [0,1] |
| Sun.EasingEndpoints | components/three/objects/SynthwaveSun.js:399-410 | both easings give 0 at 0 and 1 at 1, and both branches of the ease-in-out give 1/2 at 1/2 |
| Sun.EasingsMonotone | components/three/objects/SynthwaveSun.js:399-410 | both easings are non-decreasing on [0,1] |
| Sun.OpacityFactor | components/three/objects/SynthwaveSun.js:380-387 | the envelope rises linearly over the first fifth of the life and falls linearly over the rest, within [0,1] |
| Sun.OpacityEnvelope | components/three/objects/SynthwaveSun.js:380-387 | the envelope is 0 at birth and at the end, 1 exactly at 0.2, rising before and falling after |
| Sun.RadiusAt | components/three/objects/SynthwaveSun.js:365-366 | the radius grows linearly from 25 to the end radius, and is the end radius at the end of the life |
| Sun.ThicknessAt | components/three/objects/SynthwaveSun.js:368-370 | the thickness stays between 0.5 and 3 |
| Sun.OpacityAt | components/three/objects/SynthwaveSun.js:389 | the opacity stays between 0 and 0.6, and is 0 at the end of the life |
| Sun.Animated | components/three/objects/SynthwaveSun.js:365-389 | a redrawn ring keeps its creation parameters, lies between 25 and its end radius with a thickness between 0.5 and 3 and an opacity between 0 and 0.6, and at the end of its life is at its end radius and invisible |
| Sun.Expire | components/three/objects/SynthwaveSun.js:352-391 | one expiry pass: the pool never grows; what it keeps is stated by ExpireMembers, ExpireAppend, ExpireSurvivorsAlive and ExpireWellFormed, and ExpireRipples is proved equal to it |
| Sun.ExpireSurvivorsAlive | components/three/objects/SynthwaveSun.js:352-362 | every ring that survives the expiry pass is still within its lifetime |
| Sun.ExpireMembers | components/three/objects/SynthwaveSun.js:352-391 | a ring is in the pool after the pass exactly when it is the redrawn form of a ring whose life was not over |
| Sun.ExpireAppend | components/three/objects/SynthwaveSun.js:352-391 | expiring a concatenation expires the parts, so survivors keep their order |
| Sun.ExpireWellFormed | components/three/objects/SynthwaveSun.js:352-391 | survivors keep creation parameters in the ranges a new ring has |
| Sun.ExpireStep | components/three/objects/SynthwaveSun.js:352-391 | one step of the backward walk: the ring at i is still the original one, and handling it in place extends the processed suffix |
| Sun.SynthwaveSun.constructor | components/three/objects/SynthwaveSun.js:5-13 | the random phase set by the ripple set-up is overwritten: both clocks are 0 and the pool is empty |
| Sun.SynthwaveSun.Animate | components/three/objects/SynthwaveSun.js:314-337 | records the clock and updates the ripples as UpdateRipples states |
| Sun.SynthwaveSun.UpdateRipples | components/three/objects/SynthwaveSun.js:343-392 | a ring is created exactly when 1.5 s have passed since the last creation and fewer than five exist, which also records the creation time; then the pool is the expiry pass over it (the new ring included); the pool never exceeds five and grows by at most one |
| Sun.SynthwaveSun.ExpireRipples | components/three/objects/SynthwaveSun.js:352-391 | the backward remove-or-redraw walk leaves exactly the expiry pass, and at most five well-formed rings |
| Sun.SynthwaveSun.ExpireEntry | components/three/objects/SynthwaveSun.js:353-390 | one iteration of that walk: a ring whose life is over is spliced out, any other is redrawn in place |
| Frame.GameLoop.constructor | hooks/useThree.js:115 | the loop starts with last time 0 and all parts wired to the one road |
| Frame.GameLoop.Tick | hooks/useThree.js:116-137 | one animation frame in the host's order. The road takes its throttled update: within 16 ms nothing changes; otherwise it records the time and, while a run is going, adds the elapsed time and ramps its speed (at most 1.2). The obstacles are the scroll-and-evict at the speed the road has just computed. The streetlights take one glow step and their z values are one conveyor pass at that speed, and so do the palm trees when present. A running controller adds 10 points per elapsed second, sets its intervals to the difficulty at the new score, reports the floored score, and ends the run (reported once) exactly when an active obstacle after this frame's scroll hits the car. A stopped controller changes neither score, flags, intervals nor reports. The sun's ripples are created and expired at the frame time in seconds |
| Frame.GameLoop.ScrollWorld | hooks/useThree.js:123-127 | the road's throttled update, then the obstacles, streetlights and palm trees scroll at the road's new speed, as Tick states |
| Frame.GameLoop.RunAndAnimate | hooks/useThree.js:130-136 | the controller's update over the elapsed seconds, then the sun's ripples, as Tick states |

## Left out

- Three.js scene construction: meshes, materials, geometries, textures, scene add/remove, shaders, post-processing, camera, renderer and lights. These are foreign-library calls with no gameplay rule.
- Asset loading (OBJ and FBX models) is left out; the car and the obstacles are the default boxes. The palm model's presence is the constructor flag `hasModel`.
- The React and UI layers and the keyboard wiring (including the deliberate left/right swap of the keys) are left out; `MoveLeft` and `MoveRight` are as the car defines them.
- Real timers (`setTimeout`, `requestAnimationFrame`, `Date.now`): clock readings are parameters. The five-second glow timer is `ActivateGlow`, and the auto-start timers are `AutoStart`. The spawn timer is the `Schedule` value that `ScheduleNextObstacle` returns. The car's animation frame loop is `Animate`, which a caller keeps calling while the car is moving.
- `Math.random` draws are parameters in [0,1); their distribution is not modelled.
- The sine-based visuals are left out. These are the car's roll (`Car.update`), the obstacles' bobbing, rotation and edge colour, the streetlights' pulse, the palms' sway, the sun's float and bloom, and the mountains. None of them affects gameplay state.
- The palm trees' random rotation and neon colour are left out, because they are visual only.
- The custom shader clock is left out of `Frame.GameLoop.Tick`.
- IEEE floating point is left out: the model computes with exact reals.
- Logging is left out.
- The five scene elements of a streetlight are modelled as a sequence of their z values; their x and y are not modelled.
- The car's z is the constant 0: the car is never moved along z.
- Frame.GameLoop.Tick: `car.update()`, which only copies the mesh position and sets the roll, and the mountains' update are not part of the tick.
- Controller.GameController.EndGame: its contract keeps the controller's invariant only when the run was not over before, which is the only way the controller calls it.
- ObstacleField.Advance, ObstacleField.ActiveOf and Sun.Expire: their own contracts only bound the length; what they compute is stated by the lemmas listed beside them.
