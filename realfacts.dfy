/** Facts about real arithmetic that the easing curves of the car and the
    sun rely on. */
module RealFacts {

  /** Squaring is non-decreasing on the non-negative reals. */
  lemma SquareMonotone(a: real, b: real)
    requires 0.0 <= a <= b
    ensures a * a <= b * b
  {
    assert a * a <= a * b by {
      assert a * (b - a) >= 0.0;
    }
    assert a * b <= b * b by {
      assert b * (b - a) >= 0.0;
    }
  }

  /** Cubing is non-decreasing on the non-negative reals. */
  lemma CubeMonotone(a: real, b: real)
    requires 0.0 <= a <= b
    ensures a * a * a <= b * b * b
  {
    assert a * a <= a * b by {
      assert a * (b - a) >= 0.0;
    }
    assert a * b <= b * b by {
      assert b * (b - a) >= 0.0;
    }
    assert a * a * a <= a * a * b by {
      assert (a * a) * (b - a) >= 0.0;
    }
    assert a * a * b <= b * b * b by {
      assert (b * b - a * a) * b >= 0.0;
    }
  }

  /** Scaling a non-negative value by a factor in [0,1] keeps it between zero
      and itself. */
  lemma ScaleWithin(d: real, e: real)
    requires d >= 0.0 && 0.0 <= e <= 1.0
    ensures 0.0 <= d * e <= d
  {
    assert d - d * e == d * (1.0 - e);
  }
}
