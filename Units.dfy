/** `to_million(x) = round(x / 1_000_000, 2)` (app.py lines 53-54). */
module Units {

  /**
   * Round to the nearest integer, ties to even (Python's `round` on the
   * exact value).
   */
  function RoundHalfEven(y: real): (n: int)
    ensures -0.5 <= y - n as real <= 0.5
  {
    var f := y.Floor;
    var frac := y - f as real;
    if frac < 0.5 then f
    else if frac > 0.5 then f + 1
    else if f % 2 == 0 then f
    else f + 1
  }

  /** `r` is `x` in millions, rounded to two decimals. */
  ghost predicate InMillions(r: real, x: real) {
    && -0.005 <= r - x / 1_000_000.0 <= 0.005
    && (r * 100.0).Floor as real == r * 100.0
  }

  function ToMillion(x: real): (r: real)
    ensures InMillions(r, x)
  {
    var y := x / 10_000.0;
    var n := RoundHalfEven(y);
    var r := n as real / 100.0;
    assert r * 100.0 == n as real;
    assert (n as real).Floor == n;
    assert x / 1_000_000.0 == y / 100.0;
    assert r - x / 1_000_000.0 == (n as real - y) / 100.0;
    r
  }

  /** Rounding is symmetric around zero, so a negative change reads as the negated positive one. */
  lemma {:induction false} RoundHalfEvenOdd(y: real)
    ensures RoundHalfEven(-y) == -RoundHalfEven(y)
  {
    var f := y.Floor;
    var frac := y - f as real;
    if frac == 0.0 {
      assert (-y).Floor == -f;
    } else {
      assert (-y).Floor == -f - 1;
      var g := -f - 1;
      assert -y - g as real == 1.0 - frac;
      if f % 2 == 0 {
        assert g % 2 == 1;
      } else {
        assert g % 2 == 0;
      }
    }
  }

  lemma ToMillionOdd(x: real)
    ensures ToMillion(-x) == -ToMillion(x)
  {
    assert -x / 10_000.0 == -(x / 10_000.0);
    RoundHalfEvenOdd(x / 10_000.0);
  }

  /** Rounding never reverses the order of two amounts. */
  lemma {:induction false} RoundHalfEvenMonotone(y: real, z: real)
    requires y <= z
    ensures RoundHalfEven(y) <= RoundHalfEven(z)
  {
    var fy, fz := y.Floor, z.Floor;
    assert fy <= fz;
    if fy == fz {
    } else {
      assert fy + 1 <= fz;
    }
  }

  lemma ToMillionMonotone(x: real, y: real)
    requires x <= y
    ensures ToMillion(x) <= ToMillion(y)
  {
    RoundHalfEvenMonotone(x / 10_000.0, y / 10_000.0);
  }

  /** Two sample conversions, one negative, and zero. */
  lemma ToMillionExamples()
    ensures ToMillion(2_500_000.0) == 2.5
    ensures ToMillion(-1_250_000.0) == -1.25
    ensures ToMillion(0.0) == 0.0
  {
    assert (250.0).Floor == 250;
    assert (-125.0).Floor == -125;
    assert (0.0).Floor == 0;
  }
}
