/** The player's vehicle (components/three/objects/Cars.js): guarded lane
    changes and the eased lateral animation that follows an accepted one. */
module Cars {
  import RealFacts

  /** Lanes are numbered 0 (left) to LastLane (right). */
  const LastLane: int := 2
  /** Minimum milliseconds between two accepted lane-change requests. */
  const MoveDelay: int := 200
  /** Length of the lateral animation in milliseconds. */
  const AnimationDuration: int := 300
  /** Lane centres the car starts with, before the road's are handed to it. */
  const InitialLanePositions: seq<real> := [-2.67, 0.0, 2.67]
  /** The car's mesh is placed at z = 0 and never moved along z. */
  const CarZ: real := 0.0

  /** The symmetric cubic ease-in-out applied to the animation progress. */
  function EaseInOutCubic(p: real): (e: real)
    ensures 0.0 <= p <= 1.0 ==> 0.0 <= e <= 1.0
  {
    if p < 0.5 then 4.0 * p * p * p
    else
      var u := -2.0 * p + 2.0;
      assert 0.0 <= p <= 1.0 ==> 0.0 <= u * u * u <= 1.0 by {
        if 0.0 <= p <= 1.0 {
          RealFacts.CubeMonotone(0.0, u);
          RealFacts.CubeMonotone(u, 1.0);
        }
      }
      1.0 - u * u * u / 2.0
  }

  /** The ease starts at 0, ends at 1, and its two branches meet at 1/2. */
  lemma EaseInOutCubicShape()
    ensures EaseInOutCubic(0.0) == 0.0 && EaseInOutCubic(1.0) == 1.0
    ensures EaseInOutCubic(0.5) == 0.5 && 4.0 * 0.5 * 0.5 * 0.5 == 0.5
  {
  }

  /** The ease never moves backwards on [0,1]. */
  lemma EaseInOutCubicMonotone(p: real, q: real)
    requires 0.0 <= p <= q <= 1.0
    ensures EaseInOutCubic(p) <= EaseInOutCubic(q)
  {
    if q < 0.5 {
      RealFacts.CubeMonotone(p, q);
    } else if p < 0.5 {
      RealFacts.CubeMonotone(p, 0.5);
      assert EaseInOutCubic(p) == 4.0 * (p * p * p) <= 0.5;
      var v := -2.0 * q + 2.0;
      RealFacts.CubeMonotone(v, 1.0);
      assert EaseInOutCubic(q) == 1.0 - (v * v * v) / 2.0 >= 0.5;
    } else {
      var u := -2.0 * p + 2.0;
      var v := -2.0 * q + 2.0;
      RealFacts.CubeMonotone(v, u);
    }
  }

  /** Scaling a value of either sign by a factor in [0,1] keeps it between
      zero and itself. */
  lemma ScaleWithin(d: real, e: real)
    requires 0.0 <= e <= 1.0
    ensures d >= 0.0 ==> 0.0 <= d * e <= d
    ensures d <= 0.0 ==> d <= d * e <= 0.0
  {
    if d >= 0.0 {
      RealFacts.ScaleWithin(d, e);
    } else {
      RealFacts.ScaleWithin(-d, e);
      assert d * e == -((-d) * e);
    }
  }

  /** Normalised animation progress after `elapsed` milliseconds. */
  function Progress(elapsed: int): (p: real)
    ensures p <= 1.0
    ensures elapsed >= 0 ==> p >= 0.0
    ensures p == 1.0 <==> elapsed >= AnimationDuration
  {
    var ratio := elapsed as real / AnimationDuration as real;
    if ratio < 1.0 then ratio else 1.0
  }

  /** The lateral position shown `elapsed` milliseconds into an animation from
      `startX` to `targetX`. */
  function AnimatedX(startX: real, targetX: real, elapsed: int): (x: real)
    ensures elapsed >= AnimationDuration ==> x == targetX
    ensures elapsed == 0 ==> x == startX
    ensures elapsed >= 0 && startX <= targetX ==> startX <= x <= targetX
    ensures elapsed >= 0 && targetX <= startX ==> targetX <= x <= startX
  {
    var e := EaseInOutCubic(Progress(elapsed));
    if elapsed >= 0 then
      ScaleWithin(targetX - startX, e);
      startX + (targetX - startX) * e
    else
      startX + (targetX - startX) * e
  }

  class Car {
    var currentLane: int
    /** The mesh's lateral position. */
    var x: real
    var lanePositions: seq<real>
    /** True exactly while a lateral animation is pending. */
    var isMoving: bool
    var lastMoveTime: int
    /** What the pending animation step captured: where it started, where it
        goes, and when. */
    var animStartX: real
    var animTargetX: real
    var animStartTime: int

    ghost predicate Valid()
      reads this
    {
      0 <= currentLane <= LastLane && |lanePositions| == LastLane + 1
    }

    /** A new car in the centre lane, not moving, with the default box mesh at
        the centre lane's position. */
    constructor ()
      ensures Valid()
      ensures currentLane == 1 && !isMoving && lastMoveTime == 0
      ensures lanePositions == InitialLanePositions && x == lanePositions[1]
    {
      currentLane := 1;
      lanePositions := InitialLanePositions;
      isMoving := false;
      lastMoveTime := 0;
      x := InitialLanePositions[1];
      animStartX, animTargetX, animStartTime := 0.0, 0.0, 0;
    }

    /** Adopts new lane centres and snaps the car to its (unchanged) lane's. */
    method SetLanePositions(positions: seq<real>)
      requires Valid() && |positions| == LastLane + 1
      modifies this
      ensures Valid()
      ensures lanePositions == positions && x == positions[currentLane]
      ensures currentLane == old(currentLane) && isMoving == old(isMoving) && lastMoveTime == old(lastMoveTime)
      ensures animStartX == old(animStartX) && animTargetX == old(animTargetX) && animStartTime == old(animStartTime)
    {
      lanePositions := positions;
      x := lanePositions[currentLane];
    }

    /** A request, at clock reading `now`, to move one lane to the left. */
    method MoveLeft(now: int)
      requires Valid()
      modifies this
      ensures Valid()
      ensures now - old(lastMoveTime) < MoveDelay || old(currentLane) == 0 || old(isMoving) ==>
                unchanged(this)
      ensures now - old(lastMoveTime) >= MoveDelay && old(currentLane) > 0 && !old(isMoving) ==>
                currentLane == old(currentLane) - 1 && isMoving && lastMoveTime == now &&
                x == old(x) && lanePositions == old(lanePositions) &&
                animStartX == old(x) && animTargetX == lanePositions[currentLane] && animStartTime == now
    {
      if now - lastMoveTime < MoveDelay {
        return;
      }
      if currentLane > 0 && !isMoving {
        isMoving := true;
        currentLane := currentLane - 1;
        animStartX := x;
        animTargetX := lanePositions[currentLane];
        animStartTime := now;
        lastMoveTime := now;
      }
    }

    /** A request, at clock reading `now`, to move one lane to the right. */
    method MoveRight(now: int)
      requires Valid()
      modifies this
      ensures Valid()
      ensures now - old(lastMoveTime) < MoveDelay || old(currentLane) == LastLane || old(isMoving) ==>
                unchanged(this)
      ensures now - old(lastMoveTime) >= MoveDelay && old(currentLane) < LastLane && !old(isMoving) ==>
                currentLane == old(currentLane) + 1 && isMoving && lastMoveTime == now &&
                x == old(x) && lanePositions == old(lanePositions) &&
                animStartX == old(x) && animTargetX == lanePositions[currentLane] && animStartTime == now
    {
      if now - lastMoveTime < MoveDelay {
        return;
      }
      if currentLane < LastLane && !isMoving {
        isMoving := true;
        currentLane := currentLane + 1;
        animStartX := x;
        animTargetX := lanePositions[currentLane];
        animStartTime := now;
        lastMoveTime := now;
      }
    }

    /** One frame of the pending lateral animation at clock reading `now`; with
        no animation pending nothing happens. */
    method Animate(now: int)
      requires Valid()
      modifies this
      ensures Valid()
      ensures !old(isMoving) ==> unchanged(this)
      ensures old(isMoving) ==>
                x == AnimatedX(animStartX, animTargetX, now - animStartTime) &&
                isMoving == (now - animStartTime < AnimationDuration)
      ensures currentLane == old(currentLane) && lanePositions == old(lanePositions) && lastMoveTime == old(lastMoveTime)
      ensures animStartX == old(animStartX) && animTargetX == old(animTargetX) && animStartTime == old(animStartTime)
    {
      if !isMoving {
        return;
      }
      var progress := Progress(now - animStartTime);
      x := animStartX + (animTargetX - animStartX) * EaseInOutCubic(progress);
      if progress >= 1.0 {
        x := animTargetX;
        isMoving := false;
      }
    }
  }
}
