/** The road (components/three/objects/Road.js): the time-based speed ramp with
    its update throttle, the start/reset of a run, and the lane geometry. */
module RoadTrack {

  const BaseSpeed: real := 0.3
  const MaxSpeed: real := 1.2
  /** Speed gained per millisecond of running time. */
  const SpeedIncrement: real := 0.00005
  const RoadWidth: real := 8.0
  const LaneCount: nat := 3
  const SegmentLength: real := 50.0
  const TotalSegments: nat := 6
  /** An update less than this many milliseconds after the previous one is skipped. */
  const UpdateThrottle: int := 16

  /** The centres of `laneCount` lanes of equal width across a road of width
      `roadWidth` centred on x = 0, from left to right. */
  function LanePositions(roadWidth: real, laneCount: nat): (r: seq<real>)
    ensures |r| == laneCount
    ensures laneCount > 0 ==> r[0] == -roadWidth / 2.0 + (roadWidth / laneCount as real) / 2.0
    ensures forall i :: 0 <= i < |r| - 1 ==> r[i + 1] - r[i] == roadWidth / laneCount as real
    ensures forall i :: 0 <= i < |r| ==> r[i] + r[|r| - 1 - i] == 0.0
  {
    if laneCount == 0 then []
    else
      var laneWidth := roadWidth / laneCount as real;
      CentresEvenAndSymmetric(roadWidth, laneCount, laneWidth);
      seq(laneCount, i => LaneCentre(roadWidth, laneWidth, i))
  }

  /** The centre of lane `i` when lanes are `laneWidth` wide. */
  function LaneCentre(roadWidth: real, laneWidth: real, i: int): real
  {
    -roadWidth / 2.0 + laneWidth / 2.0 + i as real * laneWidth
  }

  lemma CentresEvenAndSymmetric(roadWidth: real, laneCount: nat, laneWidth: real)
    requires laneCount > 0 && laneWidth == roadWidth / laneCount as real
    ensures forall i :: 0 <= i < laneCount - 1 ==>
              LaneCentre(roadWidth, laneWidth, i + 1) - LaneCentre(roadWidth, laneWidth, i) == laneWidth
    ensures forall i :: 0 <= i < laneCount ==>
              LaneCentre(roadWidth, laneWidth, i) + LaneCentre(roadWidth, laneWidth, laneCount - 1 - i) == 0.0
  {
    var n := laneCount as real;
    assert n * laneWidth == roadWidth;
    forall i | 0 <= i < laneCount - 1
      ensures LaneCentre(roadWidth, laneWidth, i + 1) - LaneCentre(roadWidth, laneWidth, i) == laneWidth
    {
      assert (i + 1) as real * laneWidth == i as real * laneWidth + laneWidth;
    }
    forall i | 0 <= i < laneCount
      ensures LaneCentre(roadWidth, laneWidth, i) + LaneCentre(roadWidth, laneWidth, laneCount - 1 - i) == 0.0
    {
      var j := laneCount - 1 - i;
      assert i as real * laneWidth + j as real * laneWidth == (n - 1.0) * laneWidth;
      assert (n - 1.0) * laneWidth == n * laneWidth - laneWidth;
    }
  }

  /** On a road of positive width the lane centres are strictly increasing. */
  lemma {:induction false} LanePositionsIncreasing(roadWidth: real, laneCount: nat, i: nat, j: nat)
    requires roadWidth > 0.0 && i < j < laneCount
    ensures LanePositions(roadWidth, laneCount)[i] < LanePositions(roadWidth, laneCount)[j]
    decreases j - i
  {
    var r := LanePositions(roadWidth, laneCount);
    var w := roadWidth / laneCount as real;
    assert w > 0.0;
    assert r[j] - r[j - 1] == w;
    if i < j - 1 {
      LanePositionsIncreasing(roadWidth, laneCount, i, j - 1);
    }
  }

  /** The default road gives the three lanes -8/3, 0 and 8/3. */
  lemma DefaultLanePositions()
    ensures LanePositions(RoadWidth, LaneCount) == [-8.0 / 3.0, 0.0, 8.0 / 3.0]
  {
    var r := LanePositions(RoadWidth, LaneCount);
    assert r[0] == -4.0 + 4.0 / 3.0;
    assert r[1] == r[0] + 8.0 / 3.0;
    assert r[2] == r[1] + 8.0 / 3.0;
  }

  /** One accepted update of a running road: the speed grows by
      `SpeedIncrement * elapsed` unless it has reached the cap, and is clamped there. */
  function RampedSpeed(speed: real, elapsed: int): (r: real)
    ensures speed >= MaxSpeed ==> r == speed
    ensures speed < MaxSpeed ==> r <= MaxSpeed
    ensures elapsed >= 0 ==> r >= speed
    ensures speed < MaxSpeed && speed + SpeedIncrement * elapsed as real <= MaxSpeed ==>
              r == speed + SpeedIncrement * elapsed as real
    ensures speed < MaxSpeed && speed + SpeedIncrement * elapsed as real > MaxSpeed ==> r == MaxSpeed
  {
    if speed < MaxSpeed then
      var s := speed + SpeedIncrement * elapsed as real;
      if s > MaxSpeed then MaxSpeed else s
    else speed
  }

  /** Ramping for `a` and then for `b` milliseconds equals ramping once for `a + b`:
      the speed depends only on the accumulated running time. */
  lemma RampComposes(speed: real, a: int, b: int)
    requires a >= 0 && b >= 0
    ensures RampedSpeed(RampedSpeed(speed, a), b) == RampedSpeed(speed, a + b)
  {
    if speed < MaxSpeed {
      var s1 := speed + SpeedIncrement * a as real;
      assert s1 + SpeedIncrement * b as real == speed + SpeedIncrement * (a + b) as real;
      if s1 > MaxSpeed {
        assert speed + SpeedIncrement * (a + b) as real > MaxSpeed;
      }
    }
  }

  /** After 18 seconds of running time the road is at full speed. */
  lemma FullSpeedAfter18Seconds(gameTime: int)
    requires gameTime >= 18000
    ensures RampedSpeed(BaseSpeed, gameTime) == MaxSpeed
  {
    assert SpeedIncrement * gameTime as real >= SpeedIncrement * 18000.0;
  }

  class Road {
    var roadSpeed: real
    /** Milliseconds of running time since the run started. */
    var gameTime: int
    var lastUpdateTime: int
    var gameStarted: bool

    /** The speed is always the base speed ramped over the running time. */
    ghost predicate Valid()
      reads this
    {
      gameTime >= 0 && roadSpeed == RampedSpeed(BaseSpeed, gameTime)
    }

    constructor ()
      ensures Valid()
      ensures roadSpeed == BaseSpeed && gameTime == 0 && lastUpdateTime == 0 && !gameStarted
    {
      roadSpeed := BaseSpeed;
      gameTime := 0;
      lastUpdateTime := 0;
      gameStarted := false;
    }

    method StartGame()
      modifies this
      ensures Valid()
      ensures gameStarted && gameTime == 0 && roadSpeed == BaseSpeed
      ensures lastUpdateTime == old(lastUpdateTime)
    {
      gameStarted := true;
      gameTime := 0;
      roadSpeed := BaseSpeed;
    }

    method ResetGame()
      modifies this
      ensures Valid()
      ensures !gameStarted && gameTime == 0 && roadSpeed == BaseSpeed
      ensures lastUpdateTime == old(lastUpdateTime)
    {
      gameStarted := false;
      gameTime := 0;
      roadSpeed := BaseSpeed;
    }

    /** One frame at clock reading `now` (milliseconds). */
    method Update(now: int)
      requires Valid()
      modifies this
      ensures Valid()
      ensures roadSpeed <= MaxSpeed
      ensures gameStarted == old(gameStarted)
      ensures now - old(lastUpdateTime) < UpdateThrottle ==>
                lastUpdateTime == old(lastUpdateTime) && gameTime == old(gameTime) && roadSpeed == old(roadSpeed)
      ensures now - old(lastUpdateTime) >= UpdateThrottle && !old(gameStarted) ==>
                lastUpdateTime == now && gameTime == old(gameTime) && roadSpeed == old(roadSpeed)
      ensures now - old(lastUpdateTime) >= UpdateThrottle && old(gameStarted) ==>
                lastUpdateTime == now && gameTime == old(gameTime) + (now - old(lastUpdateTime)) &&
                roadSpeed == RampedSpeed(old(roadSpeed), now - old(lastUpdateTime)) &&
                roadSpeed >= old(roadSpeed)
    {
      var elapsed := now - lastUpdateTime;
      if elapsed < UpdateThrottle {
        return;
      }
      lastUpdateTime := now;
      if gameStarted {
        RampComposes(BaseSpeed, gameTime, elapsed);
        gameTime := gameTime + elapsed;
        if roadSpeed < MaxSpeed {
          roadSpeed := roadSpeed + SpeedIncrement * elapsed as real;
          if roadSpeed > MaxSpeed {
            roadSpeed := MaxSpeed;
          }
        }
      }
    }

    /** The lane centres of this road, left to right, built lane by lane. */
    method GetLanePositions() returns (positions: seq<real>)
      ensures positions == LanePositions(RoadWidth, LaneCount)
      ensures positions == [-8.0 / 3.0, 0.0, 8.0 / 3.0]
    {
      var halfWidth := RoadWidth / 2.0;
      var laneWidth := RoadWidth / LaneCount as real;
      positions := [];
      var i := 0;
      while i < LaneCount
        invariant 0 <= i <= LaneCount
        invariant positions == LanePositions(RoadWidth, LaneCount)[..i]
      {
        positions := positions + [-halfWidth + laneWidth / 2.0 + i as real * laneWidth];
        i := i + 1;
      }
      DefaultLanePositions();
    }
  }
}
