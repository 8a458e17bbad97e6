/**
 * The corner-radius arithmetic of the image-rounding routine: from an image's
 * width and height, a requested radius value and a unit token, the radius in
 * pixels of the rounded-rectangle mask. Corners round at most to the point
 * where opposite corners meet (half the smaller dimension) and never by a
 * negative amount. Python floats are modelled as exact reals.
 */
module Radius {

  /** The unit token that makes the requested value a percentage. */
  const Percent: string := "percent"

  /** The smaller of the two image dimensions (`min(w, h)`). */
  function BaseDimension(w: nat, h: nat): (b: nat)
    ensures b <= w && b <= h
    ensures b == w || b == h
  {
    if w <= h then w else h
  }

  /** The largest radius a corner may have: half the smaller dimension. */
  function MaxRadius(w: nat, h: nat): (m: real)
    ensures 0.0 <= m
    ensures 2.0 * m <= w as real && 2.0 * m <= h as real
    ensures 2.0 * m == w as real || 2.0 * m == h as real
  {
    BaseDimension(w, h) as real / 2.0
  }

  /** The radius asked for, in pixels, before any clamping: a percentage of
      the smaller dimension for the unit `percent`, the value itself for any
      other unit. */
  function RequestedRadius(w: nat, h: nat, radiusValue: real, unit: string): real
  {
    if unit == Percent then (radiusValue / 100.0) * BaseDimension(w, h) as real
    else radiusValue
  }

  /** Every unit other than `percent`, `px` among them, takes the value as pixels. */
  lemma RequestedPixelIsValue(w: nat, h: nat, radiusValue: real, unit: string)
    requires unit != Percent
    ensures RequestedRadius(w, h, radiusValue, unit) == radiusValue
  {
  }

  /** With the unit `percent`, a hundred times the request is the value times
      the smaller dimension. */
  lemma RequestedPercentScales(w: nat, h: nat, radiusValue: real)
    ensures 100.0 * RequestedRadius(w, h, radiusValue, Percent)
         == radiusValue * BaseDimension(w, h) as real
  {
    var b := BaseDimension(w, h) as real;
    assert 100.0 * ((radiusValue / 100.0) * b) == (100.0 * (radiusValue / 100.0)) * b;
  }

  /** Python's `min(a, b)`: the smaller argument, the first one on a tie. */
  function Min(a: real, b: real): (m: real)
    ensures m <= a && m <= b
    ensures m == a || m == b
    ensures a <= b ==> m == a
  {
    if b < a then b else a
  }

  /** Python's `max(a, b)`: the larger argument, the first one on a tie. */
  function Max(a: real, b: real): (m: real)
    ensures a <= m && b <= m
    ensures m == a || m == b
    ensures b <= a ==> m == a
  {
    if b > a then b else a
  }

  /** Scaling by a non-negative factor keeps the order. */
  lemma ScaleLe(p: real, q: real, b: real)
    requires p <= q && 0.0 <= b
    ensures p * b <= q * b
  {
    assert q * b - p * b == (q - p) * b;
  }

  /** Before clamping, a larger value asks for a larger radius. */
  lemma RequestedMonotone(w: nat, h: nat, v1: real, v2: real, unit: string)
    requires v1 <= v2
    ensures RequestedRadius(w, h, v1, unit) <= RequestedRadius(w, h, v2, unit)
  {
    if unit == Percent {
      ScaleLe(v1 / 100.0, v2 / 100.0, BaseDimension(w, h) as real);
    }
  }

  /** The pixel radius handed to the mask, before it is made an integer. */
  function ComputeRadius(w: nat, h: nat, radiusValue: real, unit: string): (r: real)
    ensures 0.0 <= r <= MaxRadius(w, h)
    ensures
      var req := RequestedRadius(w, h, radiusValue, unit);
      && (0.0 <= req <= MaxRadius(w, h) ==> r == req)
      && (req > MaxRadius(w, h) ==> r == MaxRadius(w, h))
      && (req < 0.0 ==> r == 0.0)
  {
    var radiusPx := RequestedRadius(w, h, radiusValue, unit);
    var capped := Min(radiusPx, MaxRadius(w, h));
    Max(0.0, capped)
  }

  /** Python's `int()` on a float: truncation toward zero. */
  function TruncateTowardZero(x: real): (n: int)
    ensures 0.0 <= x ==> 0 <= n && n as real <= x < n as real + 1.0
    ensures x < 0.0 ==> n <= 0 && x <= n as real && (n as real) - 1.0 < x
  {
    if x >= 0.0 then x.Floor else -((-x).Floor)
  }

  /** The integer radius drawn on the mask (`int(radius_px)`). */
  function RadiusInt(w: nat, h: nat, radiusValue: real, unit: string): (ri: int)
    ensures 0 <= ri <= BaseDimension(w, h) / 2
    ensures ri as real <= ComputeRadius(w, h, radiusValue, unit) < ri as real + 1.0
    ensures ri == ComputeRadius(w, h, radiusValue, unit).Floor
  {
    TruncateTowardZero(ComputeRadius(w, h, radiusValue, unit))
  }

  /** The radius depends on the two dimensions only through the smaller one,
      so it is symmetric in width and height. */
  lemma RadiusSymmetric(w: nat, h: nat, radiusValue: real, unit: string)
    ensures ComputeRadius(w, h, radiusValue, unit) == ComputeRadius(h, w, radiusValue, unit)
  {
  }

  /** Fifty percent is exactly half the smaller dimension, and anything above
      fifty percent is clamped to it. */
  lemma PercentAtLeastHalfIsMax(w: nat, h: nat, radiusValue: real)
    requires radiusValue >= 50.0
    ensures ComputeRadius(w, h, radiusValue, Percent) == MaxRadius(w, h)
  {
    RequestedMonotone(w, h, 50.0, radiusValue, Percent);
  }

  /** A percentage between zero and fifty is not clamped. */
  lemma PercentInRangeUnclamped(w: nat, h: nat, radiusValue: real)
    requires 0.0 <= radiusValue <= 50.0
    ensures ComputeRadius(w, h, radiusValue, Percent)
         == (radiusValue / 100.0) * BaseDimension(w, h) as real
  {
    RequestedMonotone(w, h, 0.0, radiusValue, Percent);
    RequestedMonotone(w, h, radiusValue, 50.0, Percent);
  }

  /** Any unit other than `percent` is pixels: a pixel value already between
      zero and half the smaller dimension is used unchanged. */
  lemma PixelInRangeUnchanged(w: nat, h: nat, radiusValue: real, unit: string)
    requires unit != Percent
    requires 0.0 <= radiusValue <= MaxRadius(w, h)
    ensures ComputeRadius(w, h, radiusValue, unit) == radiusValue
  {
  }

  /** A percentage is the same request as the corresponding pixel value. */
  lemma PercentIsScaledPixels(w: nat, h: nat, radiusValue: real, pixelUnit: string)
    requires pixelUnit != Percent
    ensures ComputeRadius(w, h, radiusValue, Percent)
         == ComputeRadius(w, h, (radiusValue / 100.0) * BaseDimension(w, h) as real, pixelUnit)
  {
  }

  /** A negative request, in either unit, yields a zero radius. */
  lemma NegativeYieldsZero(w: nat, h: nat, radiusValue: real, unit: string)
    requires radiusValue < 0.0
    ensures ComputeRadius(w, h, radiusValue, unit) == 0.0
  {
    RequestedMonotone(w, h, radiusValue, 0.0, unit);
  }

  /** Clamping is idempotent: the clamped radius, fed back as a pixel value,
      comes back unchanged. */
  lemma ClampIdempotent(w: nat, h: nat, radiusValue: real, unit: string, pixelUnit: string)
    requires pixelUnit != Percent
    ensures
      var r := ComputeRadius(w, h, radiusValue, unit);
      ComputeRadius(w, h, r, pixelUnit) == r
  {
  }

  /** A larger request never gives a smaller radius. */
  lemma RadiusMonotone(w: nat, h: nat, v1: real, v2: real, unit: string)
    requires v1 <= v2
    ensures ComputeRadius(w, h, v1, unit) <= ComputeRadius(w, h, v2, unit)
  {
    RequestedMonotone(w, h, v1, v2, unit);
  }
}
