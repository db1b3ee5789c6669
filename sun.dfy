/** The sun's ripple rings (components/three/objects/SynthwaveSun.js): a pool of
    at most five expanding rings, created at most once per interval and removed
    when their lifetime is over, with eased radius, thickness and opacity. */
module Sun {
  import RandomDraws
  import RealFacts

  const MaxRipples: nat := 5
  /** Seconds between two ripple creations, at least. */
  const Interval: real := 1.5
  const MinLifetime: real := 3.0
  const MaxLifetime: real := 5.0
  const StartRadius: real := 25.0
  const EndRadiusMin: real := 45.0
  const EndRadiusMax: real := 70.0
  const StartThickness: real := 0.5
  const EndThickness: real := 3.0
  const StartOpacity: real := 0.6
  const Colors: seq<int> := [0xffcc00, 0xffaa00, 0xff8800, 0xff6600]
  /** The share of a ripple's life over which its opacity fades in. */
  const FadeIn: real := 0.2

  /** One ring: the parameters drawn at creation (start time in seconds,
      lifetime, final radius, colour) and what is drawn (inner and outer radius,
      opacity). */
  datatype Ripple = Ripple(startTime: real, lifetime: real, endRadius: real, color: int,
                           innerRadius: real, outerRadius: real, opacity: real)

  /** The parameters a new ring is created with. */
  predicate WellFormed(p: Ripple)
  {
    MinLifetime <= p.lifetime < MaxLifetime && EndRadiusMin <= p.endRadius < EndRadiusMax && p.color in Colors
  }

  /** The ring created at `now` for random values `rColor`, `rLifetime` and
      `rRadius` in [0,1); it starts as the thinnest ring at the start radius,
      fully at its start opacity. */
  function NewRipple(now: real, rColor: real, rLifetime: real, rRadius: real): (p: Ripple)
    requires 0.0 <= rColor < 1.0 && 0.0 <= rLifetime < 1.0 && 0.0 <= rRadius < 1.0
    ensures WellFormed(p) && p.startTime == now
    ensures p.innerRadius == StartRadius && p.outerRadius == StartRadius + StartThickness
    ensures p.opacity == StartOpacity
  {
    var colorIndex := RandomDraws.PickIndex(rColor, |Colors|);
    var lifetime := MinLifetime + RandomDraws.Scaled(rLifetime, MaxLifetime - MinLifetime);
    var endRadius := EndRadiusMin + RandomDraws.Scaled(rRadius, EndRadiusMax - EndRadiusMin);
    Ripple(now, lifetime, endRadius, Colors[colorIndex], StartRadius, StartRadius + StartThickness, StartOpacity)
  }

  /** A ring's normalised age, capped at 1. */
  function Progress(elapsed: real, lifetime: real): (p: real)
    requires lifetime > 0.0
    ensures p <= 1.0
    ensures elapsed >= 0.0 ==> p >= 0.0
    ensures p == 1.0 <==> elapsed >= lifetime
  {
    var ratio := elapsed / lifetime;
    assert ratio >= 1.0 <==> elapsed >= lifetime by {
      assert ratio * lifetime == elapsed;
    }
    if ratio < 1.0 then ratio else 1.0
  }

  /** The quadratic ease-in-out used for the ring's thickness. */
  function EaseInOutQuad(t: real): (e: real)
    ensures 0.0 <= t <= 1.0 ==> 0.0 <= e <= 1.0
  {
    if t < 0.5 then
      assert 0.0 <= t ==> 2.0 * t * t <= 0.5 by {
        if 0.0 <= t {
          RealFacts.SquareMonotone(t, 0.5);
        }
      }
      2.0 * t * t
    else
      var u := -2.0 * t + 2.0;
      assert 0.0 <= t <= 1.0 ==> 0.0 <= u * u <= 1.0 by {
        if 0.0 <= t <= 1.0 {
          RealFacts.SquareMonotone(u, 1.0);
        }
      }
      1.0 - u * u / 2.0
  }

  /** The quadratic ease-out used for the ring's opacity. */
  function EaseOutQuad(t: real): (e: real)
    ensures 0.0 <= t <= 1.0 ==> 0.0 <= e <= 1.0
  {
    var u := 1.0 - t;
    assert 0.0 <= t <= 1.0 ==> 0.0 <= u * u <= 1.0 by {
      if 0.0 <= t <= 1.0 {
        RealFacts.SquareMonotone(u, 1.0);
      }
    }
    1.0 - u * u
  }

  /** Both easings run from 0 to 1, and the two branches of the ease-in-out meet
      at one half. */
  lemma EasingEndpoints()
    ensures EaseInOutQuad(0.0) == 0.0 && EaseInOutQuad(1.0) == 1.0
    ensures EaseInOutQuad(0.5) == 0.5 && 2.0 * 0.5 * 0.5 == 0.5
    ensures EaseOutQuad(0.0) == 0.0 && EaseOutQuad(1.0) == 1.0
  {
  }

  /** On [0,1] both easings only grow. */
  lemma EasingsMonotone(s: real, t: real)
    requires 0.0 <= s <= t <= 1.0
    ensures EaseInOutQuad(s) <= EaseInOutQuad(t)
    ensures EaseOutQuad(s) <= EaseOutQuad(t)
  {
    RealFacts.SquareMonotone(1.0 - t, 1.0 - s);
    if t < 0.5 {
      RealFacts.SquareMonotone(s, t);
    } else if s < 0.5 {
      RealFacts.SquareMonotone(s, 0.5);
      assert EaseInOutQuad(s) == 2.0 * (s * s) <= 0.5;
      var v := -2.0 * t + 2.0;
      RealFacts.SquareMonotone(v, 1.0);
      assert EaseInOutQuad(t) == 1.0 - (v * v) / 2.0 >= 0.5;
    } else {
      RealFacts.SquareMonotone(-2.0 * t + 2.0, -2.0 * s + 2.0);
    }
  }

  /** The opacity envelope over a ring's life: a linear rise over the first
      fifth, a linear fall over the rest. */
  function OpacityFactor(progress: real): (f: real)
    ensures 0.0 <= progress <= 1.0 ==> 0.0 <= f <= 1.0
    ensures progress < FadeIn ==> f == progress / FadeIn
    ensures progress >= FadeIn ==> f == 1.0 - (progress - FadeIn) / (1.0 - FadeIn)
  {
    if progress < FadeIn then progress / FadeIn
    else 1.0 - (progress - FadeIn) / (1.0 - FadeIn)
  }

  /** The envelope is 0 at birth and at the end of life and peaks at 1 exactly
      at the end of the fade-in; it rises before and falls after. */
  lemma OpacityEnvelope(p: real, q: real)
    requires 0.0 <= p <= q <= 1.0
    ensures OpacityFactor(0.0) == 0.0 && OpacityFactor(1.0) == 0.0 && OpacityFactor(FadeIn) == 1.0
    ensures OpacityFactor(p) == 1.0 <==> p == FadeIn
    ensures q < FadeIn ==> OpacityFactor(p) <= OpacityFactor(q)
    ensures FadeIn <= p ==> OpacityFactor(q) <= OpacityFactor(p)
  {
  }

  /** The ring's radius at normalised age `progress`: linear from the start
      radius to its end radius. */
  function RadiusAt(endRadius: real, progress: real): (r: real)
    ensures endRadius >= StartRadius && 0.0 <= progress <= 1.0 ==> StartRadius <= r <= endRadius
    ensures progress == 1.0 ==> r == endRadius
  {
    var d := endRadius - StartRadius;
    if endRadius >= StartRadius && 0.0 <= progress <= 1.0 then
      RealFacts.ScaleWithin(d, progress);
      StartRadius + d * progress
    else
      StartRadius + d * progress
  }

  /** The ring's thickness at normalised age `progress`: eased in and out from
      the start to the end thickness. */
  function ThicknessAt(progress: real): (t: real)
    ensures 0.0 <= progress <= 1.0 ==> StartThickness <= t <= EndThickness
  {
    var ease := EaseInOutQuad(progress);
    if 0.0 <= progress <= 1.0 then
      RealFacts.ScaleWithin(EndThickness - StartThickness, ease);
      StartThickness + (EndThickness - StartThickness) * ease
    else
      StartThickness + (EndThickness - StartThickness) * ease
  }

  /** The ring's opacity at normalised age `progress`: the start opacity scaled
      by the eased envelope, so zero at the end of its life. */
  function OpacityAt(progress: real): (o: real)
    ensures 0.0 <= progress <= 1.0 ==> 0.0 <= o <= StartOpacity
    ensures progress == 1.0 ==> o == 0.0
  {
    var fade := EaseOutQuad(OpacityFactor(progress));
    if 0.0 <= progress <= 1.0 then
      RealFacts.ScaleWithin(StartOpacity, fade);
      StartOpacity * fade
    else
      StartOpacity * fade
  }

  /** A ring as drawn `now`: from its creation on, a ring whose end radius lies
      beyond the start radius is drawn between the two radii, no thinner than
      the start thickness and no thicker than the end thickness, never more
      opaque than at its start; once its life is over it has reached its end
      radius and faded out. */
  function Animated(p: Ripple, now: real): (a: Ripple)
    requires p.lifetime > 0.0
    ensures a.startTime == p.startTime && a.lifetime == p.lifetime && a.endRadius == p.endRadius && a.color == p.color
    ensures now >= p.startTime && p.endRadius >= StartRadius ==>
              && StartRadius <= a.innerRadius <= p.endRadius
              && a.innerRadius + StartThickness <= a.outerRadius <= a.innerRadius + EndThickness
              && 0.0 <= a.opacity <= StartOpacity
    ensures now - p.startTime >= p.lifetime ==> a.innerRadius == p.endRadius && a.opacity == 0.0
  {
    var progress := Progress(now - p.startTime, p.lifetime);
    var radius := RadiusAt(p.endRadius, progress);
    p.(innerRadius := radius, outerRadius := radius + ThicknessAt(progress), opacity := OpacityAt(progress))
  }

  /** Every ring has a positive lifetime. */
  predicate Living(s: seq<Ripple>)
  {
    forall i :: 0 <= i < |s| ==> s[i].lifetime > 0.0
  }

  /** Every ring carries parameters a new ring is created with. */
  predicate AllWellFormed(s: seq<Ripple>)
    ensures AllWellFormed(s) ==> Living(s)
  {
    forall i :: 0 <= i < |s| ==> WellFormed(s[i])
  }

  /** Whether a ring has reached the end of its life at `now`. */
  predicate Expired(p: Ripple, now: real)
    requires p.lifetime > 0.0
  {
    Progress(now - p.startTime, p.lifetime) >= 1.0
  }

  /** The rings after one expiry pass at `now`: rings whose life is over are
      dropped; the others are kept in order and redrawn. */
  function Expire(s: seq<Ripple>, now: real): (r: seq<Ripple>)
    requires Living(s)
    ensures |r| <= |s|
  {
    if s == [] then []
    else (if Expired(s[0], now) then [] else [Animated(s[0], now)]) + Expire(s[1..], now)
  }

  /** A ring that is still within its lifetime at `now`. */
  predicate Alive(p: Ripple, now: real)
  {
    p.lifetime > 0.0 && now - p.startTime < p.lifetime
  }

  /** Every ring that survives a pass at `now` is still within its lifetime. */
  lemma {:induction false} ExpireSurvivorsAlive(s: seq<Ripple>, now: real)
    requires Living(s)
    ensures forall p :: p in Expire(s, now) ==> Alive(p, now)
  {
    if s != [] {
      ExpireSurvivorsAlive(s[1..], now);
      if !Expired(s[0], now) {
        var head := Animated(s[0], now);
        assert Alive(head, now);
        assert Expire(s, now) == [head] + Expire(s[1..], now);
      }
    }
  }

  /** Expiring a list is expiring its parts. */
  lemma {:induction false} ExpireAppend(a: seq<Ripple>, b: seq<Ripple>, now: real)
    requires Living(a) && Living(b)
    ensures Expire(a + b, now) == Expire(a, now) + Expire(b, now)
  {
    if a == [] {
      assert a + b == b;
    } else {
      assert (a + b)[0] == a[0];
      assert (a + b)[1..] == a[1..] + b;
      ExpireAppend(a[1..], b, now);
    }
  }

  /** A ring survives the pass exactly when it was alive; survivors keep their
      creation parameters. */
  lemma {:induction false} ExpireMembers(s: seq<Ripple>, now: real, p: Ripple)
    requires Living(s)
    ensures p in Expire(s, now) <==>
              exists i :: 0 <= i < |s| && !Expired(s[i], now) && p == Animated(s[i], now)
  {
    if s != [] {
      ExpireMembers(s[1..], now, p);
      if p in Expire(s[1..], now) {
        var i :| 0 <= i < |s[1..]| && !Expired(s[1..][i], now) && p == Animated(s[1..][i], now);
        assert s[i + 1] == s[1..][i];
      }
      if exists i :: 0 <= i < |s| && !Expired(s[i], now) && p == Animated(s[i], now) {
        var i :| 0 <= i < |s| && !Expired(s[i], now) && p == Animated(s[i], now);
        if i > 0 {
          assert s[1..][i - 1] == s[i];
        }
      }
    }
  }

  /** Expiry keeps the creation parameters of every survivor well formed. */
  lemma {:induction false} ExpireWellFormed(s: seq<Ripple>, now: real)
    requires AllWellFormed(s)
    ensures AllWellFormed(Expire(s, now))
  {
    if s != [] {
      ExpireWellFormed(s[1..], now);
      var head := if Expired(s[0], now) then [] else [Animated(s[0], now)];
      assert Expire(s, now) == head + Expire(s[1..], now);
    }
  }

  lemma ExpireFrom(s: seq<Ripple>, i: nat, now: real)
    requires i < |s| && Living(s)
    ensures Expire(s[i..], now) ==
              (if Expired(s[i], now) then [] else [Animated(s[i], now)]) + Expire(s[i + 1..], now)
  {
    assert s[i..][0] == s[i];
    assert s[i..][1..] == s[i + 1..];
  }

  /** One step of the backward expiry walk: with the rings after `i` done, doing
      ring `i` in place gives the rings from `i` on done. */
  lemma ExpireStep(s0: seq<Ripple>, i: nat, now: real, cur: seq<Ripple>)
    requires i < |s0| && Living(s0) && cur == s0[..i + 1] + Expire(s0[i + 1..], now)
    ensures i < |cur| && cur[i] == s0[i]
    ensures s0[..i] + Expire(s0[i..], now) ==
              cur[..i] + (if Expired(cur[i], now) then [] else [Animated(cur[i], now)]) + cur[i + 1..]
  {
    assert s0[..i + 1] == s0[..i] + [s0[i]];
    ExpireFrom(s0, i, now);
    assert cur[..i] == s0[..i] && cur[i] == s0[i] && cur[i + 1..] == Expire(s0[i + 1..], now);
  }

  /** Whether an update at `rippleTime` creates a ring. */
  predicate Creates(rippleTime: real, lastRippleTime: real, count: nat)
  {
    rippleTime - lastRippleTime >= Interval && count < MaxRipples
  }

  class SynthwaveSun {
    /** The animation clock in seconds, as last passed to Animate. */
    var rippleTime: real
    var lastRippleTime: real
    var ripples: seq<Ripple>

    ghost predicate Valid()
      reads this
    {
      |ripples| <= MaxRipples && AllWellFormed(ripples)
    }

    /** The ripple set-up gives the creation clock a random phase `rPhase`
        within one interval, but the constructor then sets both clocks back to 0. */
    constructor (rPhase: real)
      requires 0.0 <= rPhase < 1.0
      ensures Valid()
      ensures rippleTime == 0.0 && lastRippleTime == 0.0 && ripples == []
    {
      ripples := [];
      lastRippleTime := -RandomDraws.Scaled(rPhase, Interval);
      rippleTime := 0.0;
      lastRippleTime := 0.0;
      ripples := [];
    }

    /** One animation frame at clock reading `time` (seconds); the random values
        are those a ring created in this frame draws. */
    method Animate(time: real, rColor: real, rLifetime: real, rRadius: real)
      requires Valid() && 0.0 <= rColor < 1.0 && 0.0 <= rLifetime < 1.0 && 0.0 <= rRadius < 1.0
      modifies this
      ensures Valid()
      ensures rippleTime == time
      ensures Creates(time, old(lastRippleTime), |old(ripples)|) ==>
                lastRippleTime == time &&
                ripples == Expire(old(ripples) + [NewRipple(time, rColor, rLifetime, rRadius)], time)
      ensures !Creates(time, old(lastRippleTime), |old(ripples)|) ==>
                lastRippleTime == old(lastRippleTime) && ripples == Expire(old(ripples), time)
    {
      rippleTime := time;
      UpdateRipples(rColor, rLifetime, rRadius);
    }

    /** Creates at most one ring, when an interval has passed since the last one
        and the pool is not full, then walks the pool from the back, removing
        rings whose life is over and redrawing the others. */
    method UpdateRipples(rColor: real, rLifetime: real, rRadius: real)
      requires Valid() && 0.0 <= rColor < 1.0 && 0.0 <= rLifetime < 1.0 && 0.0 <= rRadius < 1.0
      modifies this
      ensures Valid()
      ensures rippleTime == old(rippleTime)
      ensures |ripples| <= |old(ripples)| + 1
      ensures Creates(rippleTime, old(lastRippleTime), |old(ripples)|) ==>
                lastRippleTime == rippleTime &&
                ripples == Expire(old(ripples) + [NewRipple(rippleTime, rColor, rLifetime, rRadius)], rippleTime)
      ensures !Creates(rippleTime, old(lastRippleTime), |old(ripples)|) ==>
                lastRippleTime == old(lastRippleTime) && ripples == Expire(old(ripples), rippleTime)
    {
      var timeSinceLastRipple := rippleTime - lastRippleTime;
      if timeSinceLastRipple >= Interval && |ripples| < MaxRipples {
        ripples := ripples + [NewRipple(rippleTime, rColor, rLifetime, rRadius)];
        lastRippleTime := rippleTime;
      }
      ExpireRipples();
    }

    /** The backward expiry walk over the pool at the current clock. */
    method ExpireRipples()
      requires |ripples| <= MaxRipples && AllWellFormed(ripples)
      modifies this`ripples
      ensures Valid()
      ensures ripples == Expire(old(ripples), rippleTime)
    {
      ghost var s0 := ripples;
      var i := |ripples|;
      assert s0[i..] == [];
      while i > 0
        invariant 0 <= i <= |s0|
        invariant ripples == s0[..i] + Expire(s0[i..], rippleTime)
      {
        i := i - 1;
        ExpireEntry(i, s0);
      }
      assert s0[0..] == s0;
      ExpireWellFormed(s0, rippleTime);
    }

    /** Ring `i`'s turn in the expiry walk, when the rings after it have had
        theirs: a ring whose life is over is removed, any other is redrawn
        where it stands. */
    method ExpireEntry(i: nat, ghost s0: seq<Ripple>)
      requires i < |s0| && Living(s0) && ripples == s0[..i + 1] + Expire(s0[i + 1..], rippleTime)
      modifies this`ripples
      ensures ripples == s0[..i] + Expire(s0[i..], rippleTime)
    {
      ExpireStep(s0, i, rippleTime, ripples);
      var ripple := ripples[i];
      var elapsedTime := rippleTime - ripple.startTime;
      var progress := Progress(elapsedTime, ripple.lifetime);
      if progress >= 1.0 {
        ripples := ripples[..i] + ripples[i + 1..];
      } else {
        // the ring at index i is redrawn where it stands
        ripples := ripples[..i] + [Animated(ripple, rippleTime)] + ripples[i + 1..];
      }
    }
  }
}
