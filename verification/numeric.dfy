/** Python's numeric conversions, stated over exact reals. */
module Numeric {

  /** An exact real that is a whole number. */
  predicate IsInt(x: real) {
    x.Floor as real == x
  }

  /** Python's `int(x)` on a float: truncation toward zero. */
  function Trunc(x: real): (r: int)
    ensures 0.0 <= x ==> r as real <= x < r as real + 1.0
    ensures x < 0.0 ==> r as real - 1.0 < x <= r as real
  {
    if x >= 0.0 then x.Floor else -((-x).Floor)
  }

  lemma {:induction false} TruncOfInt(x: real)
    requires IsInt(x)
    ensures Trunc(x) as real == x
  {
    if x < 0.0 {
      assert (-x).Floor == -(x.Floor);
    }
  }

  /** Python's `math.ceil`. */
  function Ceil(x: real): (r: int)
    ensures r as real - 1.0 < x <= r as real
  {
    -((-x).Floor)
  }

  function Min(a: int, b: int): int { if a <= b then a else b }

  function Max(a: int, b: int): int { if a >= b then a else b }

  function MinR(a: real, b: real): real { if a <= b then a else b }

  function MaxR(a: real, b: real): real { if a >= b then a else b }

  function Abs(x: real): real { if x < 0.0 then -x else x }

  /** The clamped overlap `max(0, min(hi1, hi2) - max(lo1, lo2) + eps)` of two
      intervals, the one-axis factor of a box intersection area. */
  function Overlap(lo1: real, hi1: real, lo2: real, hi2: real, eps: real): (r: real)
    ensures r >= 0.0
    ensures lo2 <= lo1 && hi1 <= hi2 ==> r == MaxR(0.0, hi1 - lo1 + eps)
  {
    MaxR(0.0, MinR(hi1, hi2) - MaxR(lo1, lo2) + eps)
  }

  /** Whole numbers stay whole under min and max. */
  lemma MinMaxInt(a: real, b: real)
    requires IsInt(a) && IsInt(b)
    ensures IsInt(MinR(a, b)) && IsInt(MaxR(a, b))
  {
  }

  /** Whole numbers stay whole under addition and subtraction. */
  lemma {:induction false} AddInt(a: real, b: real)
    requires IsInt(a) && IsInt(b)
    ensures IsInt(a + b) && IsInt(a - b)
  {
    var s, d := a.Floor + b.Floor, a.Floor - b.Floor;
    assert a + b == s as real;
    assert (s as real).Floor == s;
    assert a - b == d as real;
    assert (d as real).Floor == d;
  }

  /** One absolute coordinate as a fraction of the image extent s. */
  function ToFraction(x: real, s: real): (r: real)
    requires s != 0.0
    ensures r * s == x
  {
    x / s
  }

  /** One fractional coordinate in whole pixels, `int(x * s)`. */
  function ToPixels(x: real, s: real): (r: real)
    ensures IsInt(r) && -1.0 < r - x * s < 1.0
  {
    Trunc(x * s) as real
  }

  /** One coordinate: dividing a whole number by s, then multiplying back and truncating. */
  lemma {:induction false} AxisRoundTrip(x: real, s: real)
    requires IsInt(x) && s != 0.0
    ensures ToPixels(ToFraction(x, s), s) == x
  {
    var f := ToFraction(x, s);
    PixelsOfProduct(f, s);
    TruncOfInt(x);
  }

  lemma PixelsOfProduct(x: real, s: real)
    ensures ToPixels(x, s) == Trunc(x * s) as real
  {
  }

  lemma {:induction false} ScaledTruncClose(x: real, s: real)
    requires s > 0.0
    ensures Abs(ToFraction(ToPixels(x, s), s) - x) < 1.0 / s
  {
    var t := ToPixels(x, s);
    var d := ToFraction(t, s) - x;
    assert d * s == t - x * s;
    if d >= 0.0 {
      assert d < 1.0 / s by { BelowReciprocal(d, s); }
    } else {
      var e := -d;
      assert e * s == x * s - t;
      assert t - x * s > -1.0;
      BelowReciprocal(e, s);
    }
  }

  lemma BelowReciprocal(d: real, s: real)
    requires s > 0.0 && d * s < 1.0
    ensures d < 1.0 / s
  {
    var q := (1.0 - d * s) / s;
    assert q > 0.0;
    assert q == 1.0 / s - d;
  }

  lemma {:induction false} TruncLowerSide(x: real, d: real)
    requires IsInt(x) && d >= 0.0
    ensures Trunc(x - d) as real <= x
  {
    if x - d < 0.0 {
      var c := Trunc(x - d);
      assert c as real - 1.0 < x - d;
      assert x.Floor as real == x;
      assert c < x.Floor + 1;
    }
  }

  lemma {:induction false} TruncUpperSide(x: real, d: real)
    requires IsInt(x) && d >= 0.0
    ensures x <= Trunc(x + d) as real
  {
    if x + d >= 0.0 {
      var c := Trunc(x + d);
      assert x + d < c as real + 1.0;
      assert x.Floor as real == x;
      assert x.Floor < c + 1;
    }
  }

}
