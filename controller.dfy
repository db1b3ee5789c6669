/** The run controller (components/three/controllers/GameController.js): the
    started / game-over state machine, the score and the difficulty curve it
    drives, collision detection, and reset. The two callbacks the host
    registers are modelled as an event log. */
module Controller {
  import RoadTrack
  import Cars
  import ObstacleField

  /** Spawn intervals (milliseconds) at the start of a run. */
  const BaseMinInterval: real := 3000.0
  const BaseMaxInterval: real := 5000.0
  /** The floor of the minimum spawn interval; the maximum's floor is 1.5 times it. */
  const MinSpawnRateLimit: real := 800.0
  /** Score points per second of running time. */
  const ScoreRate: real := 10.0
  /** Score at which the difficulty stops growing. */
  const FullDifficultyScore: real := 1000.0
  /** The car's depth along z. */
  const CarZSize: real := 1.2

  /** What the controller reports to its host: the shown score, or the end of a
      run with its final (unfloored) score. */
  datatype Event = ScoreUpdate(shown: int) | GameOverReported(finalScore: real)

  /** The obstacle manager's spawn interval bounds. */
  datatype SpawnIntervals = SpawnIntervals(min: real, max: real)

  /** The depth of an obstacle of each kind. */
  function ZSize(kind: ObstacleField.Kind): (size: real)
    ensures 0.0 < size <= CarZSize
  {
    match kind
    case Rock => 1.1
    case PoliceOfficer => 1.2
    case Barrier => 0.4
  }

  function Abs(x: real): (a: real)
    ensures a >= 0.0 && (a == x || a == -x)
  {
    if x < 0.0 then -x else x
  }

  /** Whether the car in `carLane` at depth `carZ` hits obstacle `o`: same lane,
      and the two depth intervals overlap, strictly. */
  function Collides(carLane: int, carZ: real, o: ObstacleField.Obstacle): (hit: bool)
    ensures hit <==>
              carLane == o.lane &&
              carZ - (CarZSize + ZSize(o.kind)) / 2.0 < o.z < carZ + (CarZSize + ZSize(o.kind)) / 2.0
  {
    var zDistance := Abs(carZ - o.z);
    var zOverlap := CarZSize / 2.0 + ZSize(o.kind) / 2.0 > zDistance;
    carLane == o.lane && zOverlap
  }

  /** An obstacle at least 1.2 away from the car in depth, or in another lane,
      cannot be hit, whatever its kind; in particular a freshly spawned one. */
  lemma NoCollisionFarAway(carLane: int, carZ: real, o: ObstacleField.Obstacle)
    requires carLane != o.lane || Abs(o.z - carZ) >= CarZSize
    ensures !Collides(carLane, carZ, o)
  {
  }

  lemma SpawnedObstacleIsClear(carLane: int, o: ObstacleField.Obstacle)
    requires o.z == ObstacleField.SpawnDistance
    ensures !Collides(carLane, Cars.CarZ, o)
  {
    NoCollisionFarAway(carLane, Cars.CarZ, o);
  }

  /** Whether any of the obstacles `s` hits the car in `carLane`. */
  predicate AnyCollision(carLane: int, s: seq<ObstacleField.Obstacle>)
  {
    exists i :: 0 <= i < |s| && Collides(carLane, Cars.CarZ, s[i])
  }

  /** The difficulty curve: as the score goes from 0 to 1000 both spawn interval
      bounds fall linearly, from 3000/5000 to 800/1200 ms, and stay there. */
  function Difficulty(score: real): (iv: SpawnIntervals)
    ensures iv.min >= MinSpawnRateLimit && iv.max >= MinSpawnRateLimit * 1.5
    ensures iv.max - iv.min >= 400.0
    ensures score == 0.0 ==> iv == SpawnIntervals(BaseMinInterval, BaseMaxInterval)
    ensures score >= FullDifficultyScore ==> iv == SpawnIntervals(800.0, 1200.0)
    ensures 0.0 <= score <= FullDifficultyScore ==>
              iv.min == 3000.0 - 2.2 * score && iv.max == 5000.0 - 3.8 * score
  {
    var ratio := score / FullDifficultyScore;
    var difficultyFactor := if ratio < 1.0 then ratio else 1.0;
    var newMin := BaseMinInterval - (BaseMinInterval - MinSpawnRateLimit) * difficultyFactor;
    var newMax := BaseMaxInterval - (BaseMaxInterval - MinSpawnRateLimit * 1.5) * difficultyFactor;
    SpawnIntervals(if newMin > MinSpawnRateLimit then newMin else MinSpawnRateLimit,
                   if newMax > MinSpawnRateLimit * 1.5 then newMax else MinSpawnRateLimit * 1.5)
  }

  /** A higher score never lengthens either spawn interval bound. */
  lemma DifficultyMonotone(a: real, b: real)
    requires a <= b
    ensures Difficulty(b).min <= Difficulty(a).min
    ensures Difficulty(b).max <= Difficulty(a).max
  {
  }

  /** How many end-of-run reports an event log holds. */
  function Reports(events: seq<Event>): (n: nat)
    ensures n <= |events|
  {
    if events == [] then 0
    else Reports(events[..|events| - 1]) + (if events[|events| - 1].GameOverReported? then 1 else 0)
  }

  /** Logging one more event adds one report exactly when it is an end-of-run report. */
  lemma ReportsAppend(events: seq<Event>, e: Event)
    ensures Reports(events + [e]) == Reports(events) + (if e.GameOverReported? then 1 else 0)
  {
    assert (events + [e])[..|events + [e]| - 1] == events;
  }

  class GameController {
    const car: Cars.Car
    const road: RoadTrack.Road
    const obstacles: ObstacleField.ObstacleManager
    var score: real
    var gameOver: bool
    var gameStarted: bool
    var collisionDetected: bool
    /** The callbacks fired so far, oldest first. */
    var events: seq<Event>
    /** The event log split where the current run began. */
    ghost var priorEvents: seq<Event>
    ghost var runEvents: seq<Event>

    /** The parts are consistent, and the current run has reported its end
        exactly when it is over: once at most. */
    ghost predicate Valid()
      reads this, car, road, obstacles
    {
      && car.Valid() && road.Valid() && obstacles.Valid()
      && events == priorEvents + runEvents
      && Reports(runEvents) == (if gameOver then 1 else 0)
    }

    /** A controller over the given parts, before any run. The one-second
        auto-start timer it arms is AutoStart. */
    constructor (car: Cars.Car, road: RoadTrack.Road, obstacles: ObstacleField.ObstacleManager)
      requires car.Valid() && road.Valid() && obstacles.Valid()
      ensures Valid()
      ensures this.car == car && this.road == road && this.obstacles == obstacles
      ensures score == 0.0 && !gameOver && !gameStarted && !collisionDetected && events == []
    {
      this.car := car;
      this.road := road;
      this.obstacles := obstacles;
      score := 0.0;
      gameOver := false;
      gameStarted := false;
      collisionDetected := false;
      events := [];
      priorEvents := [];
      runEvents := [];
    }

    /** Starts a run: score 0, the road at base speed, the base spawn intervals,
        and a score report of 0. The collision flag is left as it was. */
    method StartGame()
      requires Valid()
      modifies this, road, obstacles`minSpawnInterval, obstacles`maxSpawnInterval
      ensures Valid()
      ensures gameStarted && score == 0.0 && !gameOver && collisionDetected == old(collisionDetected)
      ensures road.gameStarted && road.roadSpeed == RoadTrack.BaseSpeed && road.gameTime == 0
      ensures road.lastUpdateTime == old(road.lastUpdateTime)
      ensures obstacles.minSpawnInterval == BaseMinInterval && obstacles.maxSpawnInterval == BaseMaxInterval
      ensures events == old(events) + [ScoreUpdate(0)]
    {
      gameStarted := true;
      score := 0.0;
      gameOver := false;
      road.StartGame();
      RestoreBaseIntervals();
      var shown := score.Floor;
      assert shown == 0;
      assert Reports([ScoreUpdate(shown)]) == 0 by {
        assert [ScoreUpdate(shown)][..0] == [];
      }
      priorEvents := events;
      runEvents := [ScoreUpdate(shown)];
      events := events + [ScoreUpdate(shown)];
    }

    /** Ends the run and reports the final score. */
    method EndGame()
      requires Valid()
      modifies this`gameOver, this`events, this`runEvents
      ensures gameOver && events == old(events) + [GameOverReported(score)]
      ensures !old(gameOver) ==> Valid()
    {
      ReportsAppend(runEvents, GameOverReported(score));
      gameOver := true;
      events := events + [GameOverReported(score)];
      runEvents := runEvents + [GameOverReported(score)];
    }

    /** Looks for an active obstacle that hits the car; the first one found ends
        the run. Outside a running game nothing is checked (the program then
        returns no value, modelled as false). */
    method CheckCollisions() returns (hit: bool)
      requires Valid()
      modifies this`gameOver, this`events, this`runEvents, this`collisionDetected
      ensures Valid()
      ensures !gameStarted || old(gameOver) ==> !hit && unchanged(this)
      ensures gameStarted && !old(gameOver) ==>
                hit == AnyCollision(car.currentLane, obstacles.GetActiveObstacles())
      ensures gameStarted && !old(gameOver) && hit ==>
                gameOver && collisionDetected && events == old(events) + [GameOverReported(score)]
      ensures gameStarted && !old(gameOver) && !hit ==> unchanged(this)
    {
      if !gameStarted || gameOver {
        return false;
      }
      var carLane := car.currentLane;
      var active := obstacles.GetActiveObstacles();
      var i := 0;
      while i < |active|
        invariant 0 <= i <= |active|
        invariant forall k :: 0 <= k < i ==> !Collides(carLane, Cars.CarZ, active[k])
      {
        var obstacle := active[i];
        var zDistance := Abs(Cars.CarZ - obstacle.z);
        var obstacleZSize := ZSize(obstacle.kind);
        var zOverlap := CarZSize / 2.0 + obstacleZSize / 2.0 > zDistance;
        if carLane == obstacle.lane && zOverlap {
          collisionDetected := true;
          EndGame();
          return true;
        }
        i := i + 1;
      }
      return false;
    }

    /** Gives the obstacle manager the spawn intervals of the start of a run. */
    method RestoreBaseIntervals()
      requires obstacles.Valid()
      modifies obstacles`minSpawnInterval, obstacles`maxSpawnInterval
      ensures obstacles.Valid()
      ensures obstacles.minSpawnInterval == BaseMinInterval && obstacles.maxSpawnInterval == BaseMaxInterval
    {
      obstacles.minSpawnInterval := BaseMinInterval;
      obstacles.maxSpawnInterval := BaseMaxInterval;
    }

    /** Sets the spawn intervals from the current score. */
    method UpdateDifficulty()
      requires obstacles.Valid()
      modifies obstacles`minSpawnInterval, obstacles`maxSpawnInterval
      ensures obstacles.Valid()
      ensures SpawnIntervals(obstacles.minSpawnInterval, obstacles.maxSpawnInterval) == Difficulty(score)
    {
      var ratio := score / FullDifficultyScore;
      var difficultyFactor := if ratio < 1.0 then ratio else 1.0;
      var newMinSpawnRate := BaseMinInterval - (BaseMinInterval - MinSpawnRateLimit) * difficultyFactor;
      var newMaxSpawnRate := BaseMaxInterval - (BaseMaxInterval - MinSpawnRateLimit * 1.5) * difficultyFactor;
      obstacles.minSpawnInterval := if newMinSpawnRate > MinSpawnRateLimit then newMinSpawnRate else MinSpawnRateLimit;
      obstacles.maxSpawnInterval := if newMaxSpawnRate > MinSpawnRateLimit * 1.5 then newMaxSpawnRate else MinSpawnRateLimit * 1.5;
    }

    /** One frame of `deltaTime` seconds. Outside a running game nothing
        happens; otherwise the score grows, the difficulty follows it, the
        floored score is reported, and collisions are checked. */
    method Update(deltaTime: real)
      requires Valid()
      modifies this, obstacles`minSpawnInterval, obstacles`maxSpawnInterval
      ensures Valid()
      ensures !old(gameStarted) || old(gameOver) ==> unchanged(this) && unchanged(obstacles)
      ensures old(gameStarted) && !old(gameOver) ==>
                && gameStarted
                && score == old(score) + deltaTime * ScoreRate
                && SpawnIntervals(obstacles.minSpawnInterval, obstacles.maxSpawnInterval) == Difficulty(score)
                && var hit := AnyCollision(car.currentLane, obstacles.GetActiveObstacles());
                   && gameOver == hit
                   && collisionDetected == (old(collisionDetected) || hit)
                   && events == old(events) + [ScoreUpdate(score.Floor)] +
                                (if hit then [GameOverReported(score)] else [])
    {
      if !gameStarted || gameOver {
        return;
      }
      AdvanceScore(deltaTime);
      var hit := CheckCollisions();
    }

    /** The score part of a running frame: the score grows by `deltaTime`
        seconds' worth, the difficulty follows it, and the floored score is reported. */
    method AdvanceScore(deltaTime: real)
      requires Valid() && gameStarted && !gameOver
      modifies this`score, this`events, this`runEvents, obstacles`minSpawnInterval, obstacles`maxSpawnInterval
      ensures Valid() && gameStarted && !gameOver
      ensures score == old(score) + deltaTime * ScoreRate
      ensures SpawnIntervals(obstacles.minSpawnInterval, obstacles.maxSpawnInterval) == Difficulty(score)
      ensures events == old(events) + [ScoreUpdate(score.Floor)]
    {
      score := score + deltaTime * ScoreRate;
      UpdateDifficulty();
      ReportsAppend(runEvents, ScoreUpdate(score.Floor));
      events := events + [ScoreUpdate(score.Floor)];
      runEvents := runEvents + [ScoreUpdate(score.Floor)];
    }

    /** Back to the state before a run: score and flags cleared, the car in the
        centre lane, no obstacles, the road reset and the base spawn intervals.
        The half-second auto-start timer it arms is AutoStart. */
    method Reset()
      requires Valid()
      modifies this, car`currentLane, car`x, road, obstacles`obstacles, obstacles`minSpawnInterval, obstacles`maxSpawnInterval
      ensures Valid()
      ensures score == 0.0 && !gameOver && !gameStarted && !collisionDetected && events == old(events)
      ensures car.currentLane == 1 && car.x == car.lanePositions[1]
      ensures car.lanePositions == old(car.lanePositions) && car.isMoving == old(car.isMoving)
      ensures car.lastMoveTime == old(car.lastMoveTime)
      ensures car.animStartX == old(car.animStartX) && car.animTargetX == old(car.animTargetX)
      ensures car.animStartTime == old(car.animStartTime)
      ensures obstacles.obstacles == []
      ensures obstacles.minSpawnInterval == BaseMinInterval && obstacles.maxSpawnInterval == BaseMaxInterval
      ensures obstacles.lanePositions == old(obstacles.lanePositions) && obstacles.lastSpawnTime == old(obstacles.lastSpawnTime)
      ensures !road.gameStarted && road.roadSpeed == RoadTrack.BaseSpeed && road.gameTime == 0
      ensures road.lastUpdateTime == old(road.lastUpdateTime)
    {
      score := 0.0;
      gameOver := false;
      gameStarted := false;
      collisionDetected := false;
      priorEvents := events;
      runEvents := [];

      CentreCar();
      ClearObstacles();
      road.ResetGame();
      RestoreBaseIntervals();
    }

    /** Puts the car back in the centre lane, at that lane's centre. */
    method CentreCar()
      requires car.Valid()
      modifies car`currentLane, car`x
      ensures car.Valid() && car.currentLane == 1 && car.x == car.lanePositions[1]
    {
      car.currentLane := 1;
      car.x := car.lanePositions[1];
    }

    /** Removes every obstacle, back to front. */
    method ClearObstacles()
      requires obstacles.Valid()
      modifies obstacles`obstacles
      ensures obstacles.Valid() && obstacles.obstacles == []
    {
      var active := obstacles.GetActiveObstacles();
      ghost var s0 := obstacles.obstacles;
      ObstacleField.ActiveOfAllActive(s0);
      assert active == s0;
      var i := |active| - 1;
      while i >= 0
        invariant -1 <= i < |s0| && obstacles.Valid()
        invariant obstacles.obstacles == s0[..i + 1]
        modifies obstacles`obstacles
      {
        obstacles.RemoveObstacle(i);
        i := i - 1;
      }
    }

    /** The deferred start armed by the constructor and by Reset: it starts a run
        only when none has been started meanwhile. */
    method AutoStart()
      requires Valid()
      modifies this, road, obstacles`minSpawnInterval, obstacles`maxSpawnInterval
      ensures Valid()
      ensures old(gameStarted) ==> unchanged(this) && unchanged(road) && unchanged(obstacles)
      ensures !old(gameStarted) ==>
                && gameStarted && score == 0.0 && !gameOver && collisionDetected == old(collisionDetected)
                && road.gameStarted && road.roadSpeed == RoadTrack.BaseSpeed && road.gameTime == 0
                && road.lastUpdateTime == old(road.lastUpdateTime)
                && obstacles.minSpawnInterval == BaseMinInterval && obstacles.maxSpawnInterval == BaseMaxInterval
                && events == old(events) + [ScoreUpdate(0)]
    {
      if !gameStarted {
        StartGame();
      }
    }
  }
}
