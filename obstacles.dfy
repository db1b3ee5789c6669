/** The obstacle field (components/three/objects/Obstacle.js): the spawn
    scheduler with its minimum interval, spawning into a random lane, and the
    per-frame scroll that evicts obstacles once they are behind the car. */
module ObstacleField {
  import RoadTrack
  import RandomDraws

  datatype Kind = PoliceOfficer | Barrier | Rock

  /** The obstacle type table, in the order a random index picks from. */
  const KindTable: seq<Kind> := [PoliceOfficer, Barrier, Rock]
  const LaneCount: nat := 3
  /** Obstacles appear this far ahead of the car. */
  const SpawnDistance: real := 150.0
  /** An obstacle scrolled below this z is removed. */
  const EvictionZ: real := -10.0
  /** Milliseconds until the scheduler polls again when the interval has not elapsed. */
  const RetryDelay: real := 100.0

  /** One entry of the obstacle list: its kind, lane, and mesh position. */
  datatype Obstacle = Obstacle(kind: Kind, lane: int, x: real, z: real, active: bool)

  /** What one scheduling poll arranges: a spawn after `delay` milliseconds
      (followed by another poll), or only another poll after `delay`. */
  datatype Schedule = SpawnAfter(delay: real) | RetryAfter(delay: real)

  /** The scheduling decision at clock reading `now`, for a random value `r` in [0,1). */
  function Decide(now: int, lastSpawnTime: int, minInterval: real, maxInterval: real, r: real): (s: Schedule)
    requires 0.0 <= r < 1.0
    ensures s.SpawnAfter? <==> (now - lastSpawnTime) as real >= minInterval
    ensures s.SpawnAfter? && minInterval < maxInterval ==> 0.0 <= s.delay < maxInterval - minInterval
    ensures s.SpawnAfter? && minInterval == maxInterval ==> s.delay == 0.0
    ensures s.RetryAfter? ==> s.delay == RetryDelay
  {
    if (now - lastSpawnTime) as real >= minInterval then
      SpawnAfter(RandomDraws.Scaled(r, maxInterval - minInterval))
    else RetryAfter(RetryDelay)
  }

  /** The entry spawned for random values `rKind` and `rLane` in [0,1). */
  function NewObstacle(lanePositions: seq<real>, rKind: real, rLane: real): (o: Obstacle)
    requires |lanePositions| == LaneCount && 0.0 <= rKind < 1.0 && 0.0 <= rLane < 1.0
    ensures 0 <= o.lane < LaneCount && o.kind in KindTable
    ensures o.x == lanePositions[o.lane] && o.z == SpawnDistance && o.active
  {
    var lane := RandomDraws.PickIndex(rLane, LaneCount);
    Obstacle(KindTable[RandomDraws.PickIndex(rKind, |KindTable|)], lane, lanePositions[lane], SpawnDistance, true)
  }

  /** An entry after one frame's scroll at `speed`; inactive entries are not moved. */
  function Scroll(o: Obstacle, speed: real): (o': Obstacle)
    ensures o'.kind == o.kind && o'.lane == o.lane && o'.x == o.x && o'.active == o.active
    ensures o'.z == if o.active then o.z - speed else o.z
  {
    if o.active then o.(z := o.z - speed) else o
  }

  /** Whether the frame's scroll at `speed` takes the entry out of the field. */
  predicate Evicted(o: Obstacle, speed: real)
  {
    o.active && o.z - speed < EvictionZ
  }

  /** The obstacle list after one frame at `speed`: every active entry scrolled,
      those beyond the eviction line dropped, the rest kept in order. */
  function Advance(s: seq<Obstacle>, speed: real): (r: seq<Obstacle>)
    ensures |r| <= |s|
  {
    if s == [] then []
    else (if Evicted(s[0], speed) then [] else [Scroll(s[0], speed)]) + Advance(s[1..], speed)
  }

  /** An entry that is in the field: not active beyond the eviction line. */
  predicate InField(o: Obstacle)
  {
    !(o.active && o.z < EvictionZ)
  }

  /** After a frame, no active entry is left beyond the eviction line. */
  lemma {:induction false} AdvanceLeavesNoneBehind(s: seq<Obstacle>, speed: real)
    ensures forall o :: o in Advance(s, speed) ==> InField(o)
  {
    if s != [] {
      AdvanceLeavesNoneBehind(s[1..], speed);
      if !Evicted(s[0], speed) {
        var head := Scroll(s[0], speed);
        assert InField(head);
        assert Advance(s, speed) == [head] + Advance(s[1..], speed);
      }
    }
  }

  /** Advancing a list is advancing its parts: the relative order of what is kept
      is the original order. */
  lemma {:induction false} AdvanceAppend(a: seq<Obstacle>, b: seq<Obstacle>, speed: real)
    ensures Advance(a + b, speed) == Advance(a, speed) + Advance(b, speed)
  {
    if a == [] {
      assert a + b == b;
    } else {
      assert (a + b)[0] == a[0];
      assert (a + b)[1..] == a[1..] + b;
      AdvanceAppend(a[1..], b, speed);
    }
  }

  /** An entry is in the advanced list exactly when it is the scrolled form of an
      original entry that was not evicted. */
  lemma {:induction false} AdvanceMembers(s: seq<Obstacle>, speed: real, o: Obstacle)
    ensures o in Advance(s, speed) <==>
              exists i :: 0 <= i < |s| && !Evicted(s[i], speed) && o == Scroll(s[i], speed)
  {
    if s != [] {
      AdvanceMembers(s[1..], speed, o);
      if o in Advance(s[1..], speed) {
        var i :| 0 <= i < |s[1..]| && !Evicted(s[1..][i], speed) && o == Scroll(s[1..][i], speed);
        assert s[i + 1] == s[1..][i];
      }
      if exists i :: 0 <= i < |s| && !Evicted(s[i], speed) && o == Scroll(s[i], speed) {
        var i :| 0 <= i < |s| && !Evicted(s[i], speed) && o == Scroll(s[i], speed);
        if i > 0 {
          assert s[1..][i - 1] == s[i];
        }
      }
    }
  }

  lemma AdvanceFrom(s: seq<Obstacle>, i: nat, speed: real)
    requires i < |s|
    ensures Advance(s[i..], speed) ==
              (if Evicted(s[i], speed) then [] else [Scroll(s[i], speed)]) + Advance(s[i + 1..], speed)
  {
    assert s[i..][0] == s[i];
    assert s[i..][1..] == s[i + 1..];
  }

  /** An entry that is active and in one of the lanes. */
  predicate Placed(o: Obstacle)
  {
    o.active && 0 <= o.lane < LaneCount
  }

  /** Advancing keeps every entry active and in its lane. */
  lemma {:induction false} AdvanceKeepsLanes(s: seq<Obstacle>, speed: real)
    requires forall o :: o in s ==> Placed(o)
    ensures forall o :: o in Advance(s, speed) ==> Placed(o)
  {
    if s != [] {
      assert s[0] in s;
      assert forall o :: o in s[1..] ==> o in s;
      AdvanceKeepsLanes(s[1..], speed);
      if !Evicted(s[0], speed) {
        var head := Scroll(s[0], speed);
        assert Placed(head);
        assert Advance(s, speed) == [head] + Advance(s[1..], speed);
      }
    }
  }

  /** When nothing crosses the eviction line, every entry is kept and only its z moves. */
  lemma {:induction false} AdvanceNoneEvicted(s: seq<Obstacle>, speed: real)
    requires forall i :: 0 <= i < |s| ==> !Evicted(s[i], speed)
    ensures Advance(s, speed) == seq(|s|, i requires 0 <= i < |s| => Scroll(s[i], speed))
  {
    if s != [] {
      AdvanceNoneEvicted(s[1..], speed);
    }
  }

  /** The entries whose `active` flag is set, in order. */
  function ActiveOf(s: seq<Obstacle>): (r: seq<Obstacle>)
    ensures |r| <= |s|
  {
    if s == [] then []
    else (if s[0].active then [s[0]] else []) + ActiveOf(s[1..])
  }

  /** The filter keeps exactly the active entries. */
  lemma {:induction false} ActiveOfMembers(s: seq<Obstacle>)
    ensures forall o :: o in ActiveOf(s) <==> o in s && o.active
  {
    if s != [] {
      ActiveOfMembers(s[1..]);
      assert s == [s[0]] + s[1..];
    }
  }

  /** When every entry is active, the filter keeps the whole list. */
  lemma {:induction false} ActiveOfAllActive(s: seq<Obstacle>)
    requires forall o :: o in s ==> o.active
    ensures ActiveOf(s) == s
  {
    if s != [] {
      assert s[0] in s;
      assert forall o :: o in s[1..] ==> o in s;
      ActiveOfAllActive(s[1..]);
      assert s == [s[0]] + s[1..];
    }
  }

  class ObstacleManager {
    const road: RoadTrack.Road
    var obstacles: seq<Obstacle>
    var lanePositions: seq<real>
    var minSpawnInterval: real
    var maxSpawnInterval: real
    var lastSpawnTime: int

    /** Every entry is active (nothing clears the flag) and in a lane. */
    ghost predicate Valid()
      reads this
    {
      && |lanePositions| == LaneCount
      && minSpawnInterval <= maxSpawnInterval
      && forall o :: o in obstacles ==> Placed(o)
    }

    constructor (road: RoadTrack.Road)
      ensures Valid()
      ensures this.road == road && obstacles == [] && lanePositions == RoadTrack.LanePositions(RoadTrack.RoadWidth, RoadTrack.LaneCount)
      ensures minSpawnInterval == 1000.0 && maxSpawnInterval == 3000.0 && lastSpawnTime == 0
    {
      this.road := road;
      obstacles := [];
      var lanes := road.GetLanePositions();
      lanePositions := lanes;
      minSpawnInterval := 1000.0;
      maxSpawnInterval := 3000.0;
      lastSpawnTime := 0;
    }

    /** One scheduling poll at clock reading `now` with random value `r`. The
        last-spawn time is taken when the spawn is scheduled, not when it happens. */
    method ScheduleNextObstacle(now: int, r: real) returns (s: Schedule)
      requires 0.0 <= r < 1.0
      modifies this`lastSpawnTime
      ensures s == Decide(now, old(lastSpawnTime), minSpawnInterval, maxSpawnInterval, r)
      ensures s.SpawnAfter? ==> lastSpawnTime == now && (now - old(lastSpawnTime)) as real >= minSpawnInterval
      ensures s.RetryAfter? ==> lastSpawnTime == old(lastSpawnTime)
      ensures Valid() && s.SpawnAfter? ==> 0.0 <= s.delay <= maxSpawnInterval - minSpawnInterval
    {
      var timeSinceLastSpawn := now - lastSpawnTime;
      if timeSinceLastSpawn as real >= minSpawnInterval {
        var randomDelay := RandomDraws.Scaled(r, maxSpawnInterval - minSpawnInterval);
        s := SpawnAfter(randomDelay);
        lastSpawnTime := now;
      } else {
        s := RetryAfter(RetryDelay);
      }
    }

    /** Appends one obstacle of a random kind in a random lane at the spawn distance. */
    method SpawnObstacle(rKind: real, rLane: real)
      requires Valid() && 0.0 <= rKind < 1.0 && 0.0 <= rLane < 1.0
      modifies this`obstacles
      ensures Valid()
      ensures obstacles == old(obstacles) + [NewObstacle(lanePositions, rKind, rLane)]
    {
      var obstacleType := KindTable[RandomDraws.PickIndex(rKind, |KindTable|)];
      var lane := RandomDraws.PickIndex(rLane, LaneCount);
      var xPosition := lanePositions[lane];
      obstacles := obstacles + [Obstacle(obstacleType, lane, xPosition, SpawnDistance, true)];
    }

    /** One frame: scroll every active entry by the road's speed, walking the
        list from the back and removing entries that pass the eviction line. */
    method Update()
      requires Valid()
      modifies this`obstacles
      ensures Valid()
      ensures obstacles == Advance(old(obstacles), road.roadSpeed)
    {
      var speed := road.roadSpeed;
      ghost var s0 := obstacles;
      var i := |obstacles|;
      assert s0[i..] == [];
      while i > 0
        invariant 0 <= i <= |s0|
        invariant obstacles == s0[..i] + Advance(s0[i..], speed)
      {
        i := i - 1;
        AdvanceEntry(i, speed, s0);
      }
      assert s0[0..] == s0;
      AdvanceKeepsLanes(s0, speed);
    }

    /** Entry `i`'s turn in a frame, when the entries after it have had theirs:
        an active entry scrolls by `speed` and is removed when that takes it
        past the eviction line. */
    method AdvanceEntry(i: nat, speed: real, ghost s0: seq<Obstacle>)
      requires i < |s0| && obstacles == s0[..i + 1] + Advance(s0[i + 1..], speed)
      modifies this`obstacles
      ensures obstacles == s0[..i] + Advance(s0[i..], speed)
    {
      ghost var rest := Advance(s0[i + 1..], speed);
      assert s0[..i + 1] == s0[..i] + [s0[i]];
      AdvanceFrom(s0, i, speed);
      assert obstacles[..i] == s0[..i] && obstacles[i] == s0[i] && obstacles[i + 1..] == rest;
      var obstacle := obstacles[i];
      if obstacle.active {
        obstacle := obstacle.(z := obstacle.z - speed);
        obstacles := obstacles[i := obstacle];
        if obstacle.z < EvictionZ {
          obstacles := obstacles[..i] + obstacles[i + 1..];
        }
      }
    }

    /** The active entries, in order. */
    function GetActiveObstacles(): (r: seq<Obstacle>)
      reads this
      ensures forall o :: o in r <==> o in obstacles && o.active
    {
      ActiveOfMembers(obstacles);
      ActiveOf(obstacles)
    }

    /** Removes the entry at `index` if there is one. */
    method RemoveObstacle(index: int)
      requires Valid()
      modifies this`obstacles
      ensures Valid()
      ensures 0 <= index < |old(obstacles)| ==> obstacles == old(obstacles)[..index] + old(obstacles)[index + 1..]
      ensures !(0 <= index < |old(obstacles)|) ==> obstacles == old(obstacles)
    {
      if 0 <= index < |obstacles| {
        obstacles := obstacles[..index] + obstacles[index + 1..];
      }
    }

    method UpdateLanePositions(positions: seq<real>)
      requires Valid() && |positions| == LaneCount
      modifies this`lanePositions
      ensures Valid() && lanePositions == positions
    {
      lanePositions := positions;
    }
  }
}
