/** The roadside palm trees (components/three/objects/PalmTrees.js): a pool of
    trees, staggered between the two sides of the road, that scrolls with the
    road and is recycled to the far end exactly like the streetlights. */
module Palms {
  import RoadTrack
  import Conveyor

  const Spacing: real := 90.0
  const MaxDistance: real := 200.0
  /** Trees stand this far beyond the road edge, plus up to JitterWidth more. */
  const EdgeGap: real := 2.0
  const JitterWidth: real := 1.5

  /** One tree: the lateral position it was planted at, the z it is tracked at,
      and the z of its mesh. */
  datatype Palm = Palm(xPosition: real, zPosition: real, meshZ: real)

  /** A tree is drawn where it is tracked. */
  predicate Aligned(t: Palm)
  {
    t.meshZ == t.zPosition
  }

  /** The tracked z of every tree, in pool order. */
  function Zs(ts: seq<Palm>): (r: seq<real>)
    ensures |r| == |ts|
    ensures forall k :: 0 <= k < |ts| ==> r[k] == ts[k].zPosition
  {
    seq(|ts|, k requires 0 <= k < |ts| => ts[k].zPosition)
  }

  lemma ZsUpdate(ts: seq<Palm>, i: nat, t: Palm)
    requires i < |ts|
    ensures Zs(ts[i := t]) == Zs(ts)[i := t.zPosition]
  {
  }

  /** Trees per side: enough spacings to cover `maxDistance`. */
  function TreesPerSide(maxDistance: real, spacing: real): (n: int)
    requires spacing > 0.0
    ensures (n - 1) as real < maxDistance / spacing <= n as real
  {
    Conveyor.Ceil(maxDistance / spacing)
  }

  lemma DefaultTreesPerSide()
    ensures TreesPerSide(MaxDistance, Spacing) == 3
  {
    var n := TreesPerSide(MaxDistance, Spacing);
    assert 2.0 < MaxDistance / Spacing < 3.0;
  }

  /** The `k`-th tree of the initial pool, given the random draw `jitter` (in
      [0,1)) that pushes it further from the road: even entries on the left at
      multiples of the spacing, odd entries on the right a third of a spacing further. */
  function InitialPalm(k: nat, jitter: real): (t: Palm)
    ensures Aligned(t)
    ensures t.zPosition == (k / 2) as real * Spacing + (if k % 2 == 0 then 0.0 else Spacing / 3.0)
  {
    var row := (k / 2) as real * Spacing;
    if k % 2 == 0 then
      var x := -RoadTrack.RoadWidth / 2.0 - EdgeGap - jitter * JitterWidth;
      Palm(x, row, row)
    else
      var x := RoadTrack.RoadWidth / 2.0 + EdgeGap + jitter * JitterWidth;
      Palm(x, row + Spacing / 3.0, row + Spacing / 3.0)
  }

  /** Every initial tree stands off the road: between EdgeGap and
      EdgeGap + JitterWidth beyond its edge, left for even entries and right for odd ones. */
  lemma InitialPalmOffRoad(k: nat, jitter: real)
    requires 0.0 <= jitter < 1.0
    ensures k % 2 == 0 ==>
              -RoadTrack.RoadWidth / 2.0 - EdgeGap - JitterWidth < InitialPalm(k, jitter).xPosition <= -RoadTrack.RoadWidth / 2.0 - EdgeGap
    ensures k % 2 == 1 ==>
              RoadTrack.RoadWidth / 2.0 + EdgeGap <= InitialPalm(k, jitter).xPosition < RoadTrack.RoadWidth / 2.0 + EdgeGap + JitterWidth
  {
  }

  class PalmTrees {
    const road: RoadTrack.Road
    /** Whether the tree model had been loaded when the pool was built. */
    const hasModel: bool
    var palmTrees: seq<Palm>

    ghost predicate Valid()
      reads this
    {
      forall k :: 0 <= k < |palmTrees| ==> Aligned(palmTrees[k])
    }

    /** Builds the pool: nothing without a loaded model, otherwise a left and a
        right tree per row; `jitter` holds the random draws for the trees'
        lateral offsets, one per tree. */
    constructor (road: RoadTrack.Road, hasModel: bool, jitter: seq<real>)
      requires hasModel ==> |jitter| == 2 * TreesPerSide(MaxDistance, Spacing)
      ensures Valid()
      ensures this.road == road && this.hasModel == hasModel
      ensures !hasModel ==> palmTrees == []
      ensures hasModel ==>
                |palmTrees| == 6 &&
                forall k :: 0 <= k < |palmTrees| ==> palmTrees[k] == InitialPalm(k, jitter[k])
    {
      this.road := road;
      this.hasModel := hasModel;
      var trees: seq<Palm> := [];
      if hasModel {
        var treesPerSide := TreesPerSide(MaxDistance, Spacing);
        DefaultTreesPerSide();
        var i := 0;
        while i < treesPerSide
          invariant 0 <= i <= treesPerSide && |trees| == 2 * i
          invariant forall k :: 0 <= k < 2 * i ==> trees[k] == InitialPalm(k, jitter[k])
        {
          var leftX := -RoadTrack.RoadWidth / 2.0 - EdgeGap - jitter[2 * i] * JitterWidth;
          var leftZ := i as real * Spacing;
          var rightX := RoadTrack.RoadWidth / 2.0 + EdgeGap + jitter[2 * i + 1] * JitterWidth;
          var rightZ := i as real * Spacing + Spacing / 3.0;
          assert (2 * i) / 2 == i && (2 * i) % 2 == 0;
          assert (2 * i + 1) / 2 == i && (2 * i + 1) % 2 == 1;
          trees := trees + [Palm(leftX, leftZ, leftZ), Palm(rightX, rightZ, rightZ)];
          i := i + 1;
        }
      }
      palmTrees := trees;
    }

    /** One frame: every tree, in pool order, scrolls by the road's speed and is
        recycled when it passes behind the camera. */
    method Update()
      requires Valid()
      modifies this
      ensures Valid()
      ensures |palmTrees| == |old(palmTrees)|
      ensures Zs(palmTrees) == Conveyor.Pass(Zs(old(palmTrees)), |old(palmTrees)|, road.roadSpeed, Spacing)
      ensures forall k :: 0 <= k < |palmTrees| ==> palmTrees[k].xPosition == old(palmTrees)[k].xPosition
    {
      var speed := road.roadSpeed;
      ghost var s0 := palmTrees;
      var i := 0;
      while i < |palmTrees|
        invariant 0 <= i <= |palmTrees| == |s0|
        invariant Zs(palmTrees) == Conveyor.Pass(Zs(s0), i, speed, Spacing)
        invariant forall k :: 0 <= k < |palmTrees| ==>
                    Aligned(palmTrees[k]) && palmTrees[k].xPosition == s0[k].xPosition
      {
        ghost var before := palmTrees;
        MoveTree(i, speed);
        assert Conveyor.Pass(Zs(s0), i + 1, speed, Spacing) == Conveyor.Step(Zs(before), i, speed, Spacing);
        i := i + 1;
      }
    }

    /** Tree `i`'s turn in an update: mesh and tracked z move back by `speed`;
        past the recycle line, both are set to the farthest tree plus one spacing. */
    method MoveTree(i: nat, speed: real)
      requires i < |palmTrees| && Aligned(palmTrees[i])
      modifies this`palmTrees
      ensures |palmTrees| == |old(palmTrees)|
      ensures Zs(palmTrees) == Conveyor.Step(Zs(old(palmTrees)), i, speed, Spacing)
      ensures Aligned(palmTrees[i]) && palmTrees[i].xPosition == old(palmTrees)[i].xPosition
      ensures forall k :: 0 <= k < |palmTrees| && k != i ==> palmTrees[k] == old(palmTrees)[k]
    {
      ghost var zs := Zs(palmTrees);
      var tree := palmTrees[i];
      tree := tree.(meshZ := tree.meshZ - speed, zPosition := tree.zPosition - speed);
      ZsUpdate(palmTrees, i, tree);
      palmTrees := palmTrees[i := tree];
      ghost var scrolled := Zs(palmTrees);
      if tree.zPosition < Conveyor.RecycleZ {
        var farthestZ := Conveyor.MaxOf(Zs(palmTrees));
        var newZ := farthestZ + Spacing;
        tree := tree.(meshZ := newZ, zPosition := newZ);
        ZsUpdate(palmTrees, i, tree);
        palmTrees := palmTrees[i := tree];
      }
      Conveyor.StepIs(zs, i, speed, Spacing, scrolled, Zs(palmTrees));
    }
  }
}
