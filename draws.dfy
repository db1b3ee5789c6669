/** How the program turns a random value r in [0,1) into a choice: an index
    among n choices (the floor of r * n), or a fraction of a range (r * range).
    The random values themselves are parameters everywhere in this model. */
module RandomDraws {

  /** The index that a random value in [0,1) picks from `n` choices. */
  function PickIndex(r: real, n: nat): (i: nat)
    requires 0.0 <= r < 1.0 && n > 0
    ensures i < n
    ensures i as real <= r * n as real < i as real + 1.0
  {
    var x := r * n as real;
    FractionBelow(r, n as real);
    FloorWithin(x, n);
    x.Floor
  }

  lemma FloorWithin(x: real, n: nat)
    requires 0.0 <= x < n as real
    ensures 0 <= x.Floor < n
    ensures x.Floor as real <= x < x.Floor as real + 1.0
  {
  }

  /** The fraction `r` in [0,1) of `range`: it lies in [0, range) for a positive range. */
  function Scaled(r: real, range: real): (d: real)
    requires 0.0 <= r < 1.0
    ensures range > 0.0 ==> 0.0 <= d < range
    ensures range == 0.0 ==> d == 0.0
  {
    if range > 0.0 then
      FractionBelow(r, range);
      r * range
    else r * range
  }

  lemma FractionBelow(r: real, d: real)
    requires 0.0 <= r < 1.0 && d > 0.0
    ensures 0.0 <= r * d < d
  {
    assert d - r * d == (1.0 - r) * d;
  }
}
