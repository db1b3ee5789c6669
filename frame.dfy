/** The per-frame tick of the game loop (hooks/useThree.js): one animation
    frame advances, in order, the road, the obstacles, the streetlights, the
    palm trees, the run controller with the seconds since the last frame, and
    the sun's ripples. */
module Frame {
  import RoadTrack
  import ObstacleField
  import StreetLights
  import Palms
  import Conveyor
  import Sun
  import Controller

  class GameLoop {
    const road: RoadTrack.Road
    const obstacles: ObstacleField.ObstacleManager
    const lights: StreetLights.Streetlight
    /** Absent when the tree model did not load. */
    const palms: Palms.PalmTrees?
    const sun: Sun.SynthwaveSun
    const controller: Controller.GameController
    /** The animation clock reading of the previous frame, in milliseconds. */
    var lastTime: real

    /** Every part scrolls with the one road, and the controller drives the
        obstacle manager the loop advances. */
    ghost predicate Wired()
      reads this, obstacles, lights, palms, controller
    {
      && controller.road == road && controller.obstacles == obstacles
      && obstacles.road == road && lights.road == road
      && (palms != null ==> palms.road == road)
    }

    ghost predicate Valid()
      reads this, road, obstacles, lights, palms, sun, controller, controller.car
    {
      && Wired()
      && controller.Valid() && lights.Valid() && sun.Valid()
      && (palms != null ==> palms.Valid())
    }

    constructor (controller: Controller.GameController, lights: StreetLights.Streetlight,
                 palms: Palms.PalmTrees?, sun: Sun.SynthwaveSun)
      requires controller.Valid() && lights.Valid() && sun.Valid() && (palms != null ==> palms.Valid())
      requires controller.obstacles.road == controller.road && lights.road == controller.road
      requires palms != null ==> palms.road == controller.road
      ensures Valid()
      ensures this.controller == controller && this.lights == lights && this.palms == palms && this.sun == sun
      ensures road == controller.road && obstacles == controller.obstacles && lastTime == 0.0
    {
      this.road := controller.road;
      this.obstacles := controller.obstacles;
      this.lights := lights;
      this.palms := palms;
      this.sun := sun;
      this.controller := controller;
      lastTime := 0.0;
    }

    /** One animation frame at clock reading `time` (milliseconds); `now` is
        the wall clock the road reads, and the random values are those a ripple
        created in this frame draws. Every part that scrolls does so at the
        speed the road has just computed, and the collision check sees the
        obstacles after this frame's scroll. */
    method Tick(time: real, now: int, rColor: real, rLifetime: real, rRadius: real)
      requires Valid()
      requires 0.0 <= rColor < 1.0 && 0.0 <= rLifetime < 1.0 && 0.0 <= rRadius < 1.0
      modifies this`lastTime, road, obstacles`obstacles, obstacles`minSpawnInterval, obstacles`maxSpawnInterval
      modifies lights, palms, sun, controller
      ensures Valid() && lastTime == time
      // the road: throttled, then ramped while a run is going
      ensures road.roadSpeed <= RoadTrack.MaxSpeed && road.gameStarted == old(road.gameStarted)
      ensures now - old(road.lastUpdateTime) < RoadTrack.UpdateThrottle ==>
                road.lastUpdateTime == old(road.lastUpdateTime) && road.gameTime == old(road.gameTime) &&
                road.roadSpeed == old(road.roadSpeed)
      ensures now - old(road.lastUpdateTime) >= RoadTrack.UpdateThrottle && !old(road.gameStarted) ==>
                road.lastUpdateTime == now && road.gameTime == old(road.gameTime) && road.roadSpeed == old(road.roadSpeed)
      ensures now - old(road.lastUpdateTime) >= RoadTrack.UpdateThrottle && old(road.gameStarted) ==>
                road.lastUpdateTime == now && road.gameTime == old(road.gameTime) + (now - old(road.lastUpdateTime)) &&
                road.roadSpeed == RoadTrack.RampedSpeed(old(road.roadSpeed), now - old(road.lastUpdateTime))
      // everything that scrolls does so at the speed the road has just computed
      ensures obstacles.obstacles == ObstacleField.Advance(old(obstacles.obstacles), road.roadSpeed)
      ensures lights.glowIntensity == StreetLights.GlowStep(old(lights.glowIntensity), lights.glowActive)
      ensures lights.glowActive == old(lights.glowActive)
      ensures StreetLights.Zs(lights.streetlights) ==
                Conveyor.Pass(StreetLights.Zs(old(lights.streetlights)), |old(lights.streetlights)|,
                              road.roadSpeed, StreetLights.Spacing)
      ensures palms != null ==>
                Palms.Zs(palms.palmTrees) ==
                Conveyor.Pass(Palms.Zs(old(palms.palmTrees)), |old(palms.palmTrees)|, road.roadSpeed, Palms.Spacing)
      // the controller, with the seconds since the previous frame
      ensures old(controller.gameStarted) && !old(controller.gameOver) ==>
                && controller.gameStarted
                && controller.score == old(controller.score) + (time - old(lastTime)) / 1000.0 * Controller.ScoreRate
                && Controller.SpawnIntervals(obstacles.minSpawnInterval, obstacles.maxSpawnInterval) ==
                   Controller.Difficulty(controller.score)
                && var hit := Controller.AnyCollision(controller.car.currentLane, ObstacleField.ActiveOf(obstacles.obstacles));
                   && controller.gameOver == hit
                   && controller.collisionDetected == (old(controller.collisionDetected) || hit)
                   && controller.events == old(controller.events) + [Controller.ScoreUpdate(controller.score.Floor)] +
                                           (if hit then [Controller.GameOverReported(controller.score)] else [])
      ensures !old(controller.gameStarted) || old(controller.gameOver) ==>
                && controller.score == old(controller.score) && controller.events == old(controller.events)
                && controller.gameStarted == old(controller.gameStarted) && controller.gameOver == old(controller.gameOver)
                && obstacles.minSpawnInterval == old(obstacles.minSpawnInterval)
                && obstacles.maxSpawnInterval == old(obstacles.maxSpawnInterval)
      // the sun's ripples, at the frame time in seconds
      ensures sun.rippleTime == time * 0.001
      ensures Sun.Creates(time * 0.001, old(sun.lastRippleTime), |old(sun.ripples)|) ==>
                sun.lastRippleTime == time * 0.001 &&
                sun.ripples == Sun.Expire(old(sun.ripples) + [Sun.NewRipple(time * 0.001, rColor, rLifetime, rRadius)], time * 0.001)
      ensures !Sun.Creates(time * 0.001, old(sun.lastRippleTime), |old(sun.ripples)|) ==>
                sun.lastRippleTime == old(sun.lastRippleTime) && sun.ripples == Sun.Expire(old(sun.ripples), time * 0.001)
    {
      var deltaTime := (time - lastTime) / 1000.0;
      lastTime := time;
      ScrollWorld(now);
      RunAndAnimate(deltaTime, time * 0.001, rColor, rLifetime, rRadius);
    }

    /** The first half of a frame: the road updates, then the obstacles, the
        streetlights and the palm trees scroll at the road's new speed. */
    method ScrollWorld(now: int)
      requires Valid()
      modifies road, obstacles`obstacles, lights, palms
      ensures Valid()
      ensures road.roadSpeed <= RoadTrack.MaxSpeed && road.gameStarted == old(road.gameStarted)
      ensures now - old(road.lastUpdateTime) < RoadTrack.UpdateThrottle ==>
                road.lastUpdateTime == old(road.lastUpdateTime) && road.gameTime == old(road.gameTime) &&
                road.roadSpeed == old(road.roadSpeed)
      ensures now - old(road.lastUpdateTime) >= RoadTrack.UpdateThrottle && !old(road.gameStarted) ==>
                road.lastUpdateTime == now && road.gameTime == old(road.gameTime) && road.roadSpeed == old(road.roadSpeed)
      ensures now - old(road.lastUpdateTime) >= RoadTrack.UpdateThrottle && old(road.gameStarted) ==>
                road.lastUpdateTime == now && road.gameTime == old(road.gameTime) + (now - old(road.lastUpdateTime)) &&
                road.roadSpeed == RoadTrack.RampedSpeed(old(road.roadSpeed), now - old(road.lastUpdateTime))
      ensures obstacles.obstacles == ObstacleField.Advance(old(obstacles.obstacles), road.roadSpeed)
      ensures lights.glowIntensity == StreetLights.GlowStep(old(lights.glowIntensity), lights.glowActive)
      ensures lights.glowActive == old(lights.glowActive)
      ensures StreetLights.Zs(lights.streetlights) ==
                Conveyor.Pass(StreetLights.Zs(old(lights.streetlights)), |old(lights.streetlights)|,
                              road.roadSpeed, StreetLights.Spacing)
      ensures palms != null ==>
                Palms.Zs(palms.palmTrees) ==
                Conveyor.Pass(Palms.Zs(old(palms.palmTrees)), |old(palms.palmTrees)|, road.roadSpeed, Palms.Spacing)
    {
      road.Update(now);
      obstacles.Update();
      lights.Update();
      if palms != null {
        palms.Update();
      }
    }

    /** The second half of a frame: the controller advances by `deltaTime`
        seconds against the obstacles as they now stand, then the sun animates
        at `t` seconds. */
    method RunAndAnimate(deltaTime: real, t: real, rColor: real, rLifetime: real, rRadius: real)
      requires Valid()
      requires 0.0 <= rColor < 1.0 && 0.0 <= rLifetime < 1.0 && 0.0 <= rRadius < 1.0
      modifies controller, obstacles`minSpawnInterval, obstacles`maxSpawnInterval, sun
      ensures Valid()
      ensures old(controller.gameStarted) && !old(controller.gameOver) ==>
                && controller.gameStarted
                && controller.score == old(controller.score) + deltaTime * Controller.ScoreRate
                && Controller.SpawnIntervals(obstacles.minSpawnInterval, obstacles.maxSpawnInterval) ==
                   Controller.Difficulty(controller.score)
                && var hit := Controller.AnyCollision(controller.car.currentLane, ObstacleField.ActiveOf(obstacles.obstacles));
                   && controller.gameOver == hit
                   && controller.collisionDetected == (old(controller.collisionDetected) || hit)
                   && controller.events == old(controller.events) + [Controller.ScoreUpdate(controller.score.Floor)] +
                                           (if hit then [Controller.GameOverReported(controller.score)] else [])
      ensures !old(controller.gameStarted) || old(controller.gameOver) ==>
                && controller.score == old(controller.score) && controller.events == old(controller.events)
                && controller.gameStarted == old(controller.gameStarted) && controller.gameOver == old(controller.gameOver)
                && obstacles.minSpawnInterval == old(obstacles.minSpawnInterval)
                && obstacles.maxSpawnInterval == old(obstacles.maxSpawnInterval)
      ensures sun.rippleTime == t
      ensures Sun.Creates(t, old(sun.lastRippleTime), |old(sun.ripples)|) ==>
                sun.lastRippleTime == t &&
                sun.ripples == Sun.Expire(old(sun.ripples) + [Sun.NewRipple(t, rColor, rLifetime, rRadius)], t)
      ensures !Sun.Creates(t, old(sun.lastRippleTime), |old(sun.ripples)|) ==>
                sun.lastRippleTime == old(sun.lastRippleTime) && sun.ripples == Sun.Expire(old(sun.ripples), t)
    {
      controller.Update(deltaTime);
      sun.Animate(t, rColor, rLifetime, rRadius);
    }
  }
}
