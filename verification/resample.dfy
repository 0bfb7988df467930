/**
 The working resolution chosen by `renderCombined`: the source is scaled by
 `min(1, MAX_WIDTH / width)` and both sides are floored. Arithmetic is exact
 (real numbers), not IEEE doubles.
 */
module Resample {
  import opened Pixels

  const MaxWidth: nat := 1200

  datatype Size = Size(width: nat, height: nat)

  /** `Math.min(1, MAX_WIDTH / width)`. A zero width makes the quotient
      Infinity in JavaScript, and the minimum is then 1. */
  function Scale(width: nat): (s: real)
    ensures 0.0 < s <= 1.0
    ensures width <= MaxWidth ==> s == 1.0
    ensures width > MaxWidth ==> s * width as real == MaxWidth as real
  {
    if width == 0 then 1.0
    else
      var q := MaxWidth as real / width as real;
      if 1.0 <= q then 1.0 else q
  }

  /** `Math.floor(v * scale)` for a non-negative v and a scale in (0, 1]. */
  function ScaledSide(v: nat, s: real): (n: nat)
    requires 0.0 < s <= 1.0
    ensures n <= v
    ensures n as real <= v as real * s < n as real + 1.0
  {
    (v as real * s).Floor
  }

  /** The working width and height. */
  function ResampledSize(source: Size): (r: Size)
    ensures r.width <= source.width && r.height <= source.height
    ensures r.width <= MaxWidth
  {
    var s := Scale(source.width);
    Size(ScaledSide(source.width, s), ScaledSide(source.height, s))
  }

  /** A source at most MaxWidth wide (including a zero-width one) is kept at
      its own size; a wider one is brought to exactly MaxWidth, and its
      height is the floor of height * MaxWidth / width, which preserves the
      aspect ratio up to that rounding. */
  lemma ResampledSizeCases(source: Size)
    ensures source.width <= MaxWidth ==> ResampledSize(source) == source
    ensures source.width > MaxWidth ==>
              && ResampledSize(source).width == MaxWidth
              && ResampledSize(source).height * source.width <= source.height * MaxWidth
              && source.height * MaxWidth < (ResampledSize(source).height + 1) * source.width
  {
    var s := Scale(source.width);
    var r := ResampledSize(source);
    if source.width > MaxWidth {
      var W, H, h := source.width as real, source.height as real, r.height as real;
      assert h <= H * s < h + 1.0;
      assert s * W == MaxWidth as real;
      assert h * W <= H * s * W < (h + 1.0) * W by {
        RealMulLe(h, H * s, W);
        RealMulLt(H * s, h + 1.0, W);
      }
      assert (r.height * source.width) as real == h * W;
      assert (source.height * MaxWidth) as real == H * s * W;
      assert ((r.height + 1) * source.width) as real == (h + 1.0) * W;
    }
  }

  /** A size with no pixels: a zero width or a zero height. */
  predicate ZeroArea(z: Size)
  {
    z.width == 0 || z.height == 0
  }

  /** The working size has no pixels exactly when the source has none, or
      when the source is wider than MaxWidth and so flat that its scaled
      height floors to 0 (height * MaxWidth < width, e.g. 2400 x 1). */
  lemma ResampledZeroArea(source: Size)
    ensures ZeroArea(ResampledSize(source)) <==>
              || ZeroArea(source)
              || (source.width > MaxWidth && source.height * MaxWidth < source.width)
  {
    ResampledSizeCases(source);
    var r := ResampledSize(source);
    if source.width > MaxWidth && r.height >= 1 {
      MulAtLeast(r.height, source.width);
    }
  }

  lemma RealMulLe(a: real, b: real, k: real)
    requires a <= b && k >= 0.0
    ensures a * k <= b * k
  {
  }

  lemma RealMulLt(a: real, b: real, k: real)
    requires a < b && k > 0.0
    ensures a * k < b * k
  {
  }
}
