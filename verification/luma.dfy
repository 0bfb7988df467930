/**
 The brightness signal every later stage reads: BT.601 luma of the
 sharpened pixel (the luma coefficients of item 2.5.1 of ITU-R BT.601),
 then the gamma remap `pow(luma / 255, 1.2) * 255`. Real powers are not
 available, so the remap is a parameter constrained by `IsGammaCurve`.
 */
module Luma {
  import opened Pixels

  /** The BT.601 weighted sum 0.299 R + 0.587 G + 0.114 B, over any real
      channel values. */
  function Bt601(r: real, g: real, b: real): real
  {
    0.299 * r + 0.587 * g + 0.114 * b
  }

  /** The luma of a sampled pixel's byte channels. */
  function Luma(r: Byte, g: Byte, b: Byte): (l: real)
    ensures 0.0 <= l <= 255.0
    ensures r == g == b ==> l == r as real
  {
    Bt601(r as real, g as real, b as real)
  }

  /** Luma never decreases when any channel increases. */
  lemma LumaMonotone(r: Byte, g: Byte, b: Byte, r': Byte, g': Byte, b': Byte)
    requires r <= r' && g <= g' && b <= b'
    ensures Luma(r, g, b) <= Luma(r', g', b')
  {
  }

  /** What `v -> pow(v / 255, 1.2) * 255` guarantees on [0, 255]: it stays in
      [0, 255], fixes both ends, never increases its input (an exponent above
      1 darkens) and is monotone. */
  ghost predicate IsGammaCurve(curve: real -> real)
  {
    && curve(0.0) == 0.0
    && curve(255.0) == 255.0
    && (forall v :: 0.0 <= v <= 255.0 ==> 0.0 <= curve(v) <= v)
    && (forall u, v :: 0.0 <= u <= v <= 255.0 ==> curve(u) <= curve(v))
  }

  /** A curve of the same shape with exponent 2, showing the constraint can
      be met. */
  function SquareCurve(v: real): real
  {
    v * v / 255.0
  }

  lemma SquareCurveIsGammaCurve()
    ensures IsGammaCurve(SquareCurve)
  {
    forall v | 0.0 <= v <= 255.0
      ensures 0.0 <= SquareCurve(v) <= v
    {
      assert v * v <= v * 255.0;
    }
    forall u, v | 0.0 <= u <= v <= 255.0
      ensures SquareCurve(u) <= SquareCurve(v)
    {
      assert u * u <= u * v <= v * v;
      assert u * u / 255.0 <= v * v / 255.0;
    }
  }

  /** The remapped brightness of one pixel. */
  function Brightness(r: Byte, g: Byte, b: Byte, curve: real -> real): (v: real)
    requires IsGammaCurve(curve)
    ensures 0.0 <= v <= 255.0
    ensures v <= Luma(r, g, b)
    ensures r == g == b == 255 ==> v == 255.0
    ensures r == g == b == 0 ==> v == 0.0
  {
    curve(Luma(r, g, b))
  }
}
