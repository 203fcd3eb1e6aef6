/**
  Output sizes: a captured picture is scaled down into the client's limits and
  into 3840 x 2160, never up, keeping its aspect ratio.  The source computes in
  f64; here the scale factor is an exact real.
*/
module Scaling {
  import opened Prelude

  datatype Size = Size(w: nat, h: nat)

  const MAX_OUTPUT := Size(3840, 2160)

  /** `limit / length`, or nothing where the division gives no finite bound. */
  function Ratio(limit: nat, length: nat): (r: Option<real>)
    ensures r.Some? <==> length > 0
    ensures r.Some? ==> r.value * length as real == limit as real
    ensures r.Some? ==> 0.0 <= r.value && (r.value < 1.0 <==> limit < length)
  {
    if length == 0 then None
    else
      var q, x := limit as real / length as real, length as real;
      Quotient(limit, length);
      Some(q)
  }

  lemma {:induction false} Quotient(limit: nat, length: nat)
    requires length > 0
    ensures var q, x := limit as real / length as real, length as real;
      q * x == limit as real && 0.0 <= q && (q < 1.0 <==> limit < length)
  {
    var q, x := limit as real / length as real, length as real;
    assert q * x == limit as real;
    if q < 0.0 {
      Positive(-q, x);
    } else if q < 1.0 {
      Positive(1.0 - q, x);
    } else if q > 1.0 {
      Positive(q - 1.0, x);
    }
  }

  lemma {:induction false} Positive(a: real, b: real)
    requires a > 0.0 && b > 0.0
    ensures a * b > 0.0
  {
  }

  /** The smaller bound. */
  function Least(a: Option<real>, b: Option<real>): Option<real> {
    if a.None? then b else if b.None? then a else if a.value <= b.value then a else b
  }

  function Scale(max: Size, s: Size): Option<real> {
    Least(Least(Ratio(max.w, s.w), Ratio(max.h, s.h)),
          Least(Ratio(MAX_OUTPUT.w, s.w), Ratio(MAX_OUTPUT.h, s.h)))
  }

  /** A scaled length, at least 1. */
  function Scaled(length: nat, k: real): nat {
    Max((length as real * k).Floor, 1)
  }

  function OutputSize(max: Size, s: Size): Size {
    var scale := Scale(max, s);
    if scale.Some? && scale.value < 1.0
    then Size(Scaled(s.w, scale.value), Scaled(s.h, scale.value))
    else s
  }

  lemma {:induction false} ScaledBelow(limit: nat, length: nat, k: real)
    requires length > 0 && 0.0 <= k < 1.0 && k <= Ratio(limit, length).value
    ensures 1 <= Scaled(length, k) <= length
    ensures Scaled(length, k) <= Max(limit, 1)
  {
    var q, x := Ratio(limit, length).value, length as real;
    assert (q - k) * x >= 0.0;
    assert (1.0 - k) * x >= 0.0;
    assert x * k == k * x && (q - k) * x == q * x - k * x && (1.0 - k) * x == x - k * x;
  }

  lemma {:induction false} ScaleIsLeast(max: Size, s: Size)
    requires s.w > 0 && s.h > 0
    ensures Scale(max, s).Some? && 0.0 <= Scale(max, s).value
    ensures Scale(max, s).value <= Ratio(max.w, s.w).value && Scale(max, s).value <= Ratio(max.h, s.h).value
    ensures Scale(max, s).value <= Ratio(MAX_OUTPUT.w, s.w).value && Scale(max, s).value <= Ratio(MAX_OUTPUT.h, s.h).value
    ensures Scale(max, s).value < 1.0 <==> !(s.w <= Min(max.w, MAX_OUTPUT.w) && s.h <= Min(max.h, MAX_OUTPUT.h))
  {
  }

  lemma {:induction false} BothBelow(limit: nat, cap: nat, length: nat, k: real)
    requires length > 0 && 0.0 <= k < 1.0
    requires k <= Ratio(limit, length).value && k <= Ratio(cap, length).value
    ensures 1 <= Scaled(length, k) <= length && Scaled(length, k) <= Max(Min(limit, cap), 1)
  {
    ScaledBelow(limit, length, k);
    ScaledBelow(cap, length, k);
  }

  /** The output never exceeds the capture or the limits, never vanishes, and is the capture if that fits. */
  lemma {:induction false} OutputFits(max: Size, s: Size)
    requires s.w > 0 && s.h > 0
    ensures var o := OutputSize(max, s);
      && 1 <= o.w <= s.w && 1 <= o.h <= s.h
      && o.w <= Max(Min(max.w, MAX_OUTPUT.w), 1)
      && o.h <= Max(Min(max.h, MAX_OUTPUT.h), 1)
      && (s.w <= Min(max.w, MAX_OUTPUT.w) && s.h <= Min(max.h, MAX_OUTPUT.h) ==> o == s)
  {
    ScaleIsLeast(max, s);
    var k := Scale(max, s).value;
    if k < 1.0 {
      BothBelow(max.w, MAX_OUTPUT.w, s.w, k);
      BothBelow(max.h, MAX_OUTPUT.h, s.h, k);
    }
  }

  // -------------------------------------------------------------------------
  // The same in whole numbers
  // -------------------------------------------------------------------------

  /** The client's limits within the largest output. */
  function Limits(max: Size): Size {
    Size(Min(max.w, MAX_OUTPUT.w), Min(max.h, MAX_OUTPUT.h))
  }

  /** Along the side that its limit cuts most, that limit; along the other, what keeps the ratio, rounded down. */
  function Exactly(l: Size, s: Size): Size
    requires s.w > 0 && s.h > 0
  {
    if s.w <= l.w && s.h <= l.h then s
    else if l.w * s.h <= l.h * s.w then Size(Max(l.w, 1), Max(l.w * s.h / s.w, 1))
    else Size(Max(l.h * s.w / s.h, 1), Max(l.h, 1))
  }

  lemma {:induction false} Difference(a: real, b: real, x: real)
    ensures (a - b) * x == a * x - b * x
  {
  }

  lemma {:induction false} OrderBy(a: real, b: real, x: real)
    requires x > 0.0
    ensures a <= b <==> a * x <= b * x
    ensures a < b <==> a * x < b * x
  {
    Difference(a, b, x);
    Difference(b, a, x);
    if a > b {
      Positive(a - b, x);
    } else if a < b {
      Positive(b - a, x);
    }
  }

  lemma {:induction false} FloorOfQuotient(n: nat, d: nat, r: real)
    requires d > 0 && r * d as real == n as real
    ensures r.Floor == n / d
  {
    var q, x := n / d, d as real;
    EuclidReal(n, d);
    OrderBy(q as real, r, x);
    OrderBy(r, q as real + 1.0, x);
    assert q as real * x <= r * x < (q as real + 1.0) * x;
    FloorBetween(q, r);
  }

  lemma {:induction false} FloorBetween(q: int, r: real)
    requires q as real <= r < q as real + 1.0
    ensures r.Floor == q
  {
  }

  lemma {:induction false} EuclidReal(n: nat, d: nat)
    requires d > 0
    ensures var q, x := (n / d) as real, d as real; q * x <= n as real < (q + 1.0) * x
  {
    var q := n / d;
    assert q * d <= n < q * d + d;
    RealProduct(q, d);
    RealProduct(q + 1, d);
    assert (q + 1) * d == q * d + d;
  }

  lemma {:induction false} RealProduct(a: nat, b: nat)
    ensures (a * b) as real == a as real * b as real
  {
  }

  /** A length scaled by `limit / side`. */
  lemma {:induction false} ScaledByRatio(limit: nat, side: nat, length: nat)
    requires side > 0
    ensures Scaled(length, Ratio(limit, side).value) == Max(limit * length / side, 1)
  {
    var k := Ratio(limit, side).value;
    var r := length as real * k;
    assert r * side as real == length as real * (k * side as real) == length as real * limit as real;
    RealProduct(limit, length);
    FloorOfQuotient(limit * length, side, r);
  }

  lemma {:induction false} ScaledToLimit(limit: nat, length: nat)
    requires length > 0
    ensures Scaled(length, Ratio(limit, length).value) == Max(limit, 1)
  {
    ScaledByRatio(limit, length, length);
    assert limit * length / length == limit;
  }

  lemma {:induction false} RatioOfLess(a: nat, b: nat, length: nat)
    requires length > 0 && a <= b
    ensures Ratio(a, length).value <= Ratio(b, length).value
  {
    var p, q, x := Ratio(a, length).value, Ratio(b, length).value, length as real;
    assert p * x == a as real && q * x == b as real;
    OrderBy(p, q, x);
  }

  lemma {:induction false} Regroup(p: real, x: real, y: real)
    ensures p * (x * y) == (p * x) * y && x * y == y * x
  {
  }

  /** Which side is cut most. */
  lemma {:induction false} RatioOrder(a: nat, w: nat, b: nat, h: nat)
    requires w > 0 && h > 0
    ensures Ratio(a, w).value <= Ratio(b, h).value <==> a * h <= b * w
  {
    var p, q, x, y := Ratio(a, w).value, Ratio(b, h).value, w as real, h as real;
    Positive(x, y);
    OrderBy(p, q, x * y);
    Regroup(p, x, y);
    Regroup(q, y, x);
    RealProduct(a, h);
    RealProduct(b, w);
  }

  lemma {:induction false} ScaleOfLimits(max: Size, s: Size)
    requires s.w > 0 && s.h > 0
    ensures var l := Limits(max);
      Scale(max, s) == Least(Ratio(l.w, s.w), Ratio(l.h, s.h))
  {
    RatioOfLess(Limits(max).w, Max(max.w, MAX_OUTPUT.w), s.w);
    RatioOfLess(Limits(max).h, Max(max.h, MAX_OUTPUT.h), s.h);
  }

  /** The output of every capture, under all limits, without reals. */
  lemma {:induction false} OutputIsExact(max: Size, s: Size)
    requires s.w > 0 && s.h > 0
    ensures OutputSize(max, s) == Exactly(Limits(max), s)
  {
    var l := Limits(max);
    ScaleIsLeast(max, s);
    ScaleOfLimits(max, s);
    RatioOrder(l.w, s.w, l.h, s.h);
    ScaledToLimit(l.w, s.w);
    ScaledToLimit(l.h, s.h);
    ScaledByRatio(l.w, s.w, s.h);
    ScaledByRatio(l.h, s.h, s.w);
  }

  lemma {:induction false} RoundedRatio(n: nat, d: nat)
    requires n > 0 && d > 0
    ensures var q := Max(n / d, 1); n < q * d + d && q * d < n + d
  {
    assert n / d * d <= n < n / d * d + d;
  }

  lemma {:induction false} AspectOfExact(l: Size, s: Size)
    requires s.w > 0 && s.h > 0 && l.w > 0 && l.h > 0
    ensures var o := Exactly(l, s); var a, b := o.w * s.h, o.h * s.w;
      a < b + s.w + s.h && b < a + s.w + s.h
  {
    if s.w <= l.w && s.h <= l.h {
      assert s.w * s.h == s.h * s.w;
    } else if l.w * s.h <= l.h * s.w {
      Positive(l.w as real, s.h as real);
      RoundedRatio(l.w * s.h, s.w);
    } else {
      RoundedRatio(l.h * s.w, s.h);
    }
  }

  /** With positive limits, a capture that does not fit reaches one of them, and keeps its aspect ratio. */
  lemma {:induction false} OutputReachesLimit(max: Size, s: Size)
    requires s.w > 0 && s.h > 0 && max.w > 0 && max.h > 0
    ensures var o, l := OutputSize(max, s), Limits(max);
      (s.w <= l.w && s.h <= l.h) || o.w == l.w || o.h == l.h
    ensures var o := OutputSize(max, s); var a, b := o.w * s.h, o.h * s.w;
      a < b + s.w + s.h && b < a + s.w + s.h
  {
    OutputIsExact(max, s);
    AspectOfExact(Limits(max), s);
  }

  // -------------------------------------------------------------------------
  // Zero widths, which the capture thread also uses as a mark
  // -------------------------------------------------------------------------

  /** A capture that cannot be mistaken for the encoder's remembered size. */
  predicate SafeCapture(max: Size, s: Size) {
    s.w > 0 || (0 < s.h <= Min(max.h, MAX_OUTPUT.h))
  }

  lemma {:induction false} OutputWidth(max: Size, s: Size)
    ensures s.w > 0 ==> OutputSize(max, s).w > 0
    ensures s.w == 0 && SafeCapture(max, s) ==> OutputSize(max, s) == s
  {
  }

  /** Under limits that cut its height, a capture of width 1 and one of width 0 get the same output. */
  lemma {:induction false} SameOutput(max: Size, h: nat)
    requires h > Min(max.h, MAX_OUTPUT.h)
    ensures OutputSize(Size(3840, max.h), Size(1, h)) == OutputSize(max, Size(0, h))
    ensures OutputSize(max, Size(0, h)).w == 1
  {
    var k := Least(Ratio(max.h, h), Ratio(MAX_OUTPUT.h, h));
    assert Ratio(3840, 1).value == 3840.0;
    assert Scale(Size(3840, max.h), Size(1, h)) == k;
    assert Scale(max, Size(0, h)) == k;
    assert (1 as real * k.value).Floor == 0 && (0 as real * k.value).Floor == 0;
  }
}
