/** The scenery conveyor shared by the streetlights
    (components/three/objects/StreetLight.js) and the palm trees
    (components/three/objects/PalmTrees.js): a fixed pool of items scrolls
    toward the camera, and an item that passes behind it is moved to the far
    end of the pool. Modelled on the items' z positions alone. */
module Conveyor {

  /** An item scrolled below this z is recycled. */
  const RecycleZ: real := -20.0

  /** The smallest integer not below `x` (Math.ceil). */
  function Ceil(x: real): (c: int)
    ensures c as real - 1.0 < x <= c as real
  {
    -((-x).Floor)
  }

  /** The largest element of a non-empty sequence (Math.max over the pool). */
  function MaxOf(s: seq<real>): real
    requires |s| > 0
  {
    if |s| == 1 then s[0]
    else
      var rest := MaxOf(s[1..]);
      if s[0] >= rest then s[0] else rest
  }

  /** `MaxOf` is an element of the sequence and no element exceeds it. */
  lemma {:induction false} MaxOfIsMax(s: seq<real>)
    requires |s| > 0
    ensures MaxOf(s) in s
    ensures forall i :: 0 <= i < |s| ==> s[i] <= MaxOf(s)
  {
    if |s| > 1 {
      MaxOfIsMax(s[1..]);
      assert forall i :: 1 <= i < |s| ==> s[i] == s[1..][i - 1];
    }
  }

  /** Item `i`'s turn in one update: it scrolls by `speed`, and if it is then
      behind the recycle line it moves to the farthest z in the pool (with its
      own new z included) plus `spacing`. */
  function Step(zs: seq<real>, i: nat, speed: real, spacing: real): (r: seq<real>)
    requires i < |zs|
    ensures |r| == |zs|
  {
    var scrolled := zs[i := zs[i] - speed];
    if scrolled[i] < RecycleZ then scrolled[i := MaxOf(scrolled) + spacing] else scrolled
  }

  /** An item's turn moves only that item: by exactly `speed` when it stays in
      front of the recycle line, and otherwise to at least `spacing` beyond every
      item, itself scrolled included. */
  lemma StepEffect(zs: seq<real>, i: nat, speed: real, spacing: real)
    requires i < |zs|
    ensures var r := Step(zs, i, speed, spacing);
      && (forall k :: 0 <= k < |zs| && k != i ==> r[k] == zs[k])
      && (zs[i] - speed >= RecycleZ ==> r[i] == zs[i] - speed)
      && (zs[i] - speed < RecycleZ ==>
            && r[i] == MaxOf(zs[i := zs[i] - speed]) + spacing
            && r[i] >= zs[i] - speed + spacing
            && forall k :: 0 <= k < |zs| && k != i ==> r[i] >= zs[k] + spacing)
  {
    var scrolled := zs[i := zs[i] - speed];
    if scrolled[i] < RecycleZ {
      var farthest := MaxOf(scrolled);
      MaxOfIsMax(scrolled);
      assert scrolled[i] <= farthest;
      assert forall k :: 0 <= k < |zs| && k != i ==> zs[k] == scrolled[k] <= farthest;
    }
  }

  /** Recognises an item's turn from its two cases. */
  lemma StepIs(zs: seq<real>, i: nat, speed: real, spacing: real, scrolled: seq<real>, r: seq<real>)
    requires i < |zs| && scrolled == zs[i := zs[i] - speed]
    requires scrolled[i] < RecycleZ ==> r == scrolled[i := MaxOf(scrolled) + spacing]
    requires scrolled[i] >= RecycleZ ==> r == scrolled
    ensures r == Step(zs, i, speed, spacing)
  {
  }

  /** The pool after the first `n` items have had their turn, in index order. */
  function Pass(zs: seq<real>, n: nat, speed: real, spacing: real): (r: seq<real>)
    requires n <= |zs|
    ensures |r| == |zs|
    decreases n
  {
    if n == 0 then zs else Step(Pass(zs, n - 1, speed, spacing), n - 1, speed, spacing)
  }

  /** Items that have not had their turn yet are where they started. */
  lemma {:induction false} PassUntouched(zs: seq<real>, n: nat, speed: real, spacing: real, k: nat)
    requires n <= k < |zs|
    ensures Pass(zs, n, speed, spacing)[k] == zs[k]
    decreases n
  {
    if n > 0 {
      PassUntouched(zs, n - 1, speed, spacing, k);
      StepEffect(Pass(zs, n - 1, speed, spacing), n - 1, speed, spacing);
    }
  }

  /** Once an item has had its turn, later turns leave it alone. */
  lemma {:induction false} PassSettled(zs: seq<real>, n: nat, m: nat, speed: real, spacing: real, k: nat)
    requires k < n <= m <= |zs|
    ensures Pass(zs, m, speed, spacing)[k] == Pass(zs, n, speed, spacing)[k]
    decreases m
  {
    if m > n {
      PassSettled(zs, n, m - 1, speed, spacing, k);
      StepEffect(Pass(zs, m - 1, speed, spacing), m - 1, speed, spacing);
    }
  }

  /** What a whole update does to item `j`: an item that stays in front of the
      recycle line has moved exactly `speed` closer; a recycled one lands at least
      `spacing` beyond every other item as they stood at its turn (the items
      already updated, and the items still waiting), exactly `spacing` beyond
      the farthest of the pool at that turn, itself scrolled included. */
  lemma ItemAfterPass(zs: seq<real>, speed: real, spacing: real, j: nat)
    requires j < |zs|
    ensures var f := Pass(zs, |zs|, speed, spacing);
      && (zs[j] - speed >= RecycleZ ==> f[j] == zs[j] - speed)
      && (zs[j] - speed < RecycleZ ==>
            && f[j] == MaxOf(Pass(zs, j, speed, spacing)[j := zs[j] - speed]) + spacing
            && (forall k :: 0 <= k < j ==> f[j] >= f[k] + spacing)
            && (forall k :: j < k < |zs| ==> f[j] >= zs[k] + spacing))
  {
    var f := Pass(zs, |zs|, speed, spacing);
    var before := Pass(zs, j, speed, spacing);
    var after := Step(before, j, speed, spacing);
    assert Pass(zs, j + 1, speed, spacing) == after;
    StepEffect(before, j, speed, spacing);
    PassUntouched(zs, j, speed, spacing, j);
    PassSettled(zs, j + 1, |zs|, speed, spacing, j);
    if zs[j] - speed < RecycleZ {
      forall k | 0 <= k < j
        ensures f[j] >= f[k] + spacing
      {
        PassSettled(zs, k + 1, j, speed, spacing, k);
        PassSettled(zs, k + 1, |zs|, speed, spacing, k);
        assert f[k] == before[k];
      }
      forall k | j < k < |zs|
        ensures f[j] >= zs[k] + spacing
      {
        PassUntouched(zs, j, speed, spacing, k);
      }
    }
  }

  /** When no item crosses the recycle line, the update only scrolls the pool. */
  lemma PassWithoutRecycling(zs: seq<real>, speed: real, spacing: real)
    requires forall j :: 0 <= j < |zs| ==> zs[j] - speed >= RecycleZ
    ensures Pass(zs, |zs|, speed, spacing) == seq(|zs|, j requires 0 <= j < |zs| => zs[j] - speed)
  {
    var f := Pass(zs, |zs|, speed, spacing);
    forall j | 0 <= j < |zs|
      ensures f[j] == zs[j] - speed
    {
      ItemAfterPass(zs, speed, spacing, j);
    }
  }
}
