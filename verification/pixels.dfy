/**
 Bytes and flat RGBA buffers, as the canvas `ImageData.data` array
 (a `Uint8ClampedArray`) lays them out: pixel (x, y) of a w-wide image
 occupies the four entries starting at (y * w + x) * 4, in the order
 red, green, blue, alpha.
 */
module Pixels {

  /** One entry of a `Uint8ClampedArray`. */
  type Byte = x: int | 0 <= x < 256

  /** The value a `Uint8ClampedArray` stores when an integer is assigned to it:
      saturation, never wrap-around. */
  function ClampByte(v: int): (b: Byte)
    ensures forall c: Byte :: Dist(b, v) <= Dist(c, v)
    ensures 0 <= v < 256 ==> b == v
  {
    if v < 0 then 0 else if v > 255 then 255 else v
  }

  function Dist(a: int, b: int): nat
  {
    if a <= b then b - a else a - b
  }

  /** Flat index of channel c of pixel (x, y) in a w-wide RGBA buffer. */
  function Idx(w: nat, x: nat, y: nat, c: nat): nat
  {
    (y * w + x) * 4 + c
  }

  function ChannelOf(i: nat): nat
  {
    i % 4
  }

  function ColumnOf(i: nat, w: nat): nat
    requires w > 0
  {
    (i / 4) % w
  }

  function RowOf(i: nat, w: nat): nat
    requires w > 0
  {
    (i / 4) / w
  }

  lemma DivModUnique(a: int, d: int, q: int, r: int)
    requires d > 0 && 0 <= r < d && a == q * d + r
    ensures a / d == q && a % d == r
  {
    var q', r' := a / d, a % d;
    assert a == q' * d + r';
    if q' < q {
      assert (q - q') * d >= d by { MulAtLeast(q - q', d); }
      assert false;
    } else if q' > q {
      assert (q' - q) * d >= d by { MulAtLeast(q' - q, d); }
      assert false;
    }
  }

  lemma MulAtLeast(k: int, d: int)
    requires k >= 1 && d > 0
    ensures k * d >= d
  {
  }

  /** Decoding an index built by `Idx` gives back its pixel and channel. */
  lemma IdxCoordinates(w: nat, x: nat, y: nat, c: nat)
    requires x < w && c < 4
    ensures ChannelOf(Idx(w, x, y, c)) == c
    ensures ColumnOf(Idx(w, x, y, c), w) == x
    ensures RowOf(Idx(w, x, y, c), w) == y
  {
    var i := Idx(w, x, y, c);
    DivModUnique(i, 4, y * w + x, c);
    DivModUnique(y * w + x, w, y, x);
  }

  /** Every index is the `Idx` of its own coordinates. */
  lemma IdxOfCoordinates(i: nat, w: nat)
    requires w > 0
    ensures ChannelOf(i) < 4 && ColumnOf(i, w) < w
    ensures i == Idx(w, ColumnOf(i, w), RowOf(i, w), ChannelOf(i))
  {
  }

  /** A pixel inside a w x h image has all four channels inside the buffer. */
  lemma IdxInBounds(w: nat, h: nat, x: nat, y: nat, c: nat)
    requires x < w && y < h && c < 4
    ensures Idx(w, x, y, c) < w * h * 4
  {
    assert y * w + x < (y + 1) * w;
    assert (y + 1) * w <= h * w by { MulMonotone(y + 1, h, w); }
  }

  lemma MulMonotone(a: nat, b: nat, k: nat)
    requires a <= b
    ensures a * k <= b * k
  {
  }
}
