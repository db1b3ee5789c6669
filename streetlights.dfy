/** The roadside streetlights (components/three/objects/StreetLight.js): a fixed
    pool of lights on both sides of the road that scroll with the road and are
    recycled to the far end, and a glow that fades in once switched on. */
module StreetLights {
  import RoadTrack
  import Conveyor

  const Spacing: real := 40.0
  const MaxGlowIntensity: real := 1.5
  const GlowFadeInSpeed: real := 0.005
  /** Every light is drawn by five scene elements: pole, arm, lamp, halo and point light. */
  const ElementCount: nat := 5
  const Magenta: int := 0xff00ff
  const Cyan: int := 0x00ffff

  /** One light: its side's x, its colour, the z it is tracked at, and the z of
      each of its five scene elements. */
  datatype Light = Light(x: real, color: int, zPosition: real, elementZ: seq<real>)

  /** A light is drawn where it is tracked: all its elements sit at its z. */
  predicate Aligned(l: Light)
  {
    |l.elementZ| == ElementCount &&
    forall k :: 0 <= k < |l.elementZ| ==> l.elementZ[k] == l.zPosition
  }

  function NewLight(x: real, z: real, color: int): (l: Light)
    ensures Aligned(l) && l.x == x && l.zPosition == z && l.color == color
  {
    Light(x, color, z, seq(ElementCount, _ => z))
  }

  /** Moves every element of a light by `dz` along z. */
  function ShiftElements(e: seq<real>, dz: real): (r: seq<real>)
    ensures |r| == |e|
    ensures forall k :: 0 <= k < |e| ==> r[k] == e[k] + dz
  {
    seq(|e|, k requires 0 <= k < |e| => e[k] + dz)
  }

  /** A light with all its elements and its tracked z moved by `dz`: still
      drawn where it is tracked, on the same side and in the same colour. */
  function MoveBy(l: Light, dz: real): (r: Light)
    ensures r.zPosition == l.zPosition + dz && r.x == l.x && r.color == l.color
    ensures Aligned(l) ==> Aligned(r)
  {
    l.(elementZ := ShiftElements(l.elementZ, dz), zPosition := l.zPosition + dz)
  }

  /** The tracked z of every light, in pool order. */
  function Zs(ls: seq<Light>): (r: seq<real>)
    ensures |r| == |ls|
    ensures forall k :: 0 <= k < |ls| ==> r[k] == ls[k].zPosition
  {
    seq(|ls|, k requires 0 <= k < |ls| => ls[k].zPosition)
  }

  /** Every light of `ls` is drawn where it is tracked and stands on the side
      and in the colour of the light at the same index of `s0`. */
  ghost predicate SameLayout(ls: seq<Light>, s0: seq<Light>)
  {
    |ls| == |s0| &&
    forall k :: 0 <= k < |ls| ==> Aligned(ls[k]) && ls[k].x == s0[k].x && ls[k].color == s0[k].color
  }

  lemma LayoutUpdate(ls: seq<Light>, s0: seq<Light>, i: nat, l: Light)
    requires i < |ls| && SameLayout(ls, s0)
    requires Aligned(l) && l.x == ls[i].x && l.color == ls[i].color
    ensures SameLayout(ls[i := l], s0)
  {
  }

  lemma ZsUpdate(ls: seq<Light>, i: nat, l: Light)
    requires i < |ls|
    ensures Zs(ls[i := l]) == Zs(ls)[i := l.zPosition]
  {
  }

  /** How many light positions are laid out over `totalDistance`: one more than
      the number of spacings needed to cover it. */
  function LightCount(totalDistance: real, spacing: real): (n: int)
    requires spacing > 0.0
    ensures (n - 2) as real < totalDistance / spacing <= (n - 1) as real
  {
    Conveyor.Ceil(totalDistance / spacing) + 1
  }

  /** The default road (six segments of 50) has nine light positions. */
  lemma DefaultLightCount()
    ensures LightCount(RoadTrack.TotalSegments as real * RoadTrack.SegmentLength, Spacing) == 9
  {
    var n := LightCount(RoadTrack.TotalSegments as real * RoadTrack.SegmentLength, Spacing);
    assert 300.0 / 40.0 == 7.5;
    assert (n - 2) as real < 7.5 <= (n - 1) as real;
  }

  /** The `k`-th light of the initial pool: every other position gets a pair,
      magenta one unit right of the road edge, cyan one unit left of it. */
  function InitialLight(k: nat): (l: Light)
    ensures Aligned(l)
    ensures l.zPosition == (k - k % 2) as real * Spacing
    ensures l.x == if k % 2 == 0 then RoadTrack.RoadWidth / 2.0 + 1.0 else -RoadTrack.RoadWidth / 2.0 - 1.0
    ensures l.color == if k % 2 == 0 then Magenta else Cyan
  {
    var z := (k - k % 2) as real * Spacing;
    if k % 2 == 0 then NewLight(RoadTrack.RoadWidth / 2.0 + 1.0, z, Magenta)
    else NewLight(-RoadTrack.RoadWidth / 2.0 - 1.0, z, Cyan)
  }

  /** The initial lights stand in pairs facing each other across the road, one
      unit beyond its edges, with a distance of two spacings between pairs. */
  lemma InitialLayout(k: nat)
    ensures InitialLight(2 * k).zPosition == InitialLight(2 * k + 1).zPosition == (2 * k) as real * Spacing
    ensures InitialLight(2 * k + 2).zPosition - InitialLight(2 * k).zPosition == 2.0 * Spacing
    ensures InitialLight(2 * k).x == -InitialLight(2 * k + 1).x == RoadTrack.RoadWidth / 2.0 + 1.0
  {
    assert (2 * k) % 2 == 0 && (2 * k + 1) % 2 == 1 && (2 * k + 2) % 2 == 0;
  }

  /** One frame of the glow fade-in: while switched on and below the maximum it
      grows by the fade-in step, clamped at the maximum. */
  function GlowStep(glow: real, active: bool): (g: real)
    ensures !active ==> g == glow
    ensures glow >= MaxGlowIntensity ==> g == glow
    ensures active && glow + GlowFadeInSpeed <= MaxGlowIntensity ==> g == glow + GlowFadeInSpeed
    ensures active && glow < MaxGlowIntensity && glow + GlowFadeInSpeed > MaxGlowIntensity ==> g == MaxGlowIntensity
    ensures glow <= g
    ensures 0.0 <= glow <= MaxGlowIntensity ==> 0.0 <= g <= MaxGlowIntensity
  {
    if active && glow < MaxGlowIntensity then
      var next := glow + GlowFadeInSpeed;
      if next > MaxGlowIntensity then MaxGlowIntensity else next
    else glow
  }

  /** Once switched on, the glow is at its maximum after 300 frames, whatever
      it started from. */
  lemma {:induction false} GlowReachesMax(glow: real, frames: nat)
    requires 0.0 <= glow <= MaxGlowIntensity
    ensures GlowAfter(glow, frames) >= glow + frames as real * GlowFadeInSpeed ||
            GlowAfter(glow, frames) == MaxGlowIntensity
    ensures frames >= 300 ==> GlowAfter(glow, frames) == MaxGlowIntensity
    decreases frames
  {
    GlowAfterBounded(glow, frames);
    if frames > 0 {
      GlowReachesMax(glow, frames - 1);
      var prev := GlowAfter(glow, frames - 1);
      assert 0.0 <= prev <= MaxGlowIntensity by {
        GlowAfterBounded(glow, frames - 1);
      }
    }
  }

  /** The glow after `frames` frames with the glow switched on. */
  function GlowAfter(glow: real, frames: nat): (g: real)
    decreases frames
  {
    if frames == 0 then glow else GlowStep(GlowAfter(glow, frames - 1), true)
  }

  lemma {:induction false} GlowAfterBounded(glow: real, frames: nat)
    requires 0.0 <= glow <= MaxGlowIntensity
    ensures glow <= GlowAfter(glow, frames) <= MaxGlowIntensity
    decreases frames
  {
    if frames > 0 {
      GlowAfterBounded(glow, frames - 1);
    }
  }

  class Streetlight {
    const road: RoadTrack.Road
    var streetlights: seq<Light>
    var glowIntensity: real
    var glowActive: bool

    ghost predicate Valid()
      reads this
    {
      (forall k :: 0 <= k < |streetlights| ==> Aligned(streetlights[k])) &&
      0.0 <= glowIntensity <= MaxGlowIntensity
    }

    /** Lays out the initial pool along the default road, glow off. */
    constructor (road: RoadTrack.Road)
      ensures Valid()
      ensures this.road == road
      ensures |streetlights| == 10
      ensures forall k :: 0 <= k < |streetlights| ==> streetlights[k] == InitialLight(k)
      ensures glowIntensity == 0.0 && !glowActive
    {
      var totalDistance := RoadTrack.TotalSegments as real * RoadTrack.SegmentLength;
      var numLights := LightCount(totalDistance, Spacing);
      DefaultLightCount();
      var lights: seq<Light> := [];
      var i := 0;
      while i < numLights
        invariant 0 <= i <= numLights + 1 && i % 2 == 0 && |lights| == i
        invariant forall k :: 0 <= k < i ==> lights[k] == InitialLight(k)
      {
        lights := lights + [NewLight(RoadTrack.RoadWidth / 2.0 + 1.0, i as real * Spacing, Magenta),
                            NewLight(-RoadTrack.RoadWidth / 2.0 - 1.0, i as real * Spacing, Cyan)];
        assert (i + 1) % 2 == 1;
        i := i + 2;
      }
      this.road := road;
      streetlights := lights;
      glowIntensity := 0.0;
      glowActive := false;
    }

    /** The delayed switch-on of the glow (a five-second timer in the program). */
    method ActivateGlow()
      modifies this
      ensures glowActive
      ensures streetlights == old(streetlights) && glowIntensity == old(glowIntensity)
    {
      glowActive := true;
    }

    /** One frame: the glow fades in one step, and every light, in pool order,
        scrolls by the road's speed and is recycled when it passes behind the camera. */
    method Update()
      requires Valid()
      modifies this
      ensures Valid()
      ensures glowIntensity == GlowStep(old(glowIntensity), glowActive) && glowActive == old(glowActive)
      ensures |streetlights| == |old(streetlights)|
      ensures Zs(streetlights) ==
              Conveyor.Pass(Zs(old(streetlights)), |old(streetlights)|, road.roadSpeed, Spacing)
      ensures forall k :: 0 <= k < |streetlights| ==>
                streetlights[k].x == old(streetlights)[k].x && streetlights[k].color == old(streetlights)[k].color
    {
      FadeInGlow();
      var speed := road.roadSpeed;
      ghost var s0 := streetlights;
      var i := 0;
      while i < |streetlights|
        invariant 0 <= i <= |streetlights| == |s0|
        invariant Zs(streetlights) == Conveyor.Pass(Zs(s0), i, speed, Spacing)
        invariant SameLayout(streetlights, s0)
        invariant glowIntensity == GlowStep(old(glowIntensity), glowActive) && glowActive == old(glowActive)
        invariant 0.0 <= glowIntensity <= MaxGlowIntensity
      {
        MoveLight(i, speed, s0);
        i := i + 1;
      }
    }

    /** The glow's fade-in step at the start of a frame. */
    method FadeInGlow()
      requires 0.0 <= glowIntensity <= MaxGlowIntensity
      modifies this`glowIntensity
      ensures glowIntensity == GlowStep(old(glowIntensity), glowActive)
      ensures 0.0 <= glowIntensity <= MaxGlowIntensity
    {
      if glowActive && glowIntensity < MaxGlowIntensity {
        glowIntensity := glowIntensity + GlowFadeInSpeed;
        if glowIntensity > MaxGlowIntensity {
          glowIntensity := MaxGlowIntensity;
        }
      }
    }

    /** Light `i`'s turn in an update: all its elements and its tracked z move
        back by `speed`; past the recycle line, it is moved to the farthest light
        plus one spacing. Every light stays on its side, in its colour and drawn
        where it is tracked. */
    method MoveLight(i: nat, speed: real, ghost s0: seq<Light>)
      requires i < |streetlights| && SameLayout(streetlights, s0)
      modifies this`streetlights
      ensures Zs(streetlights) == Conveyor.Step(Zs(old(streetlights)), i, speed, Spacing)
      ensures SameLayout(streetlights, s0)
    {
      ScrollLight(i, speed, s0);
      if streetlights[i].zPosition < Conveyor.RecycleZ {
        RecycleLight(i, s0);
      }
    }

    /** Moves light `i` and all its elements back by `speed`. */
    method ScrollLight(i: nat, speed: real, ghost s0: seq<Light>)
      requires i < |streetlights| && SameLayout(streetlights, s0)
      modifies this`streetlights
      ensures SameLayout(streetlights, s0)
      ensures Zs(streetlights) == Zs(old(streetlights))[i := Zs(old(streetlights))[i] - speed]
    {
      var light := MoveBy(streetlights[i], -speed);
      LayoutUpdate(streetlights, s0, i, light);
      ZsUpdate(streetlights, i, light);
      streetlights := streetlights[i := light];
    }

    /** Moves light `i` and all its elements to one spacing beyond the farthest light. */
    method RecycleLight(i: nat, ghost s0: seq<Light>)
      requires i < |streetlights| && SameLayout(streetlights, s0)
      modifies this`streetlights
      ensures SameLayout(streetlights, s0)
      ensures Zs(streetlights) == Zs(old(streetlights))[i := Conveyor.MaxOf(Zs(old(streetlights))) + Spacing]
    {
      var light := streetlights[i];
      var farthestZ := Conveyor.MaxOf(Zs(streetlights));
      var newZ := farthestZ + Spacing;
      var offsetZ := newZ - light.zPosition;
      var moved := MoveBy(light, offsetZ);
      assert moved.zPosition == newZ;
      LayoutUpdate(streetlights, s0, i, moved);
      ZsUpdate(streetlights, i, moved);
      streetlights := streetlights[i := moved];
    }
  }
}
