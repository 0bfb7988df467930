/**
 The 3x3 sharpen pass `applySharpenFilter`: kernel
     0 -1  0
    -1  5 -1
     0 -1  0
 applied to the red, green and blue channels of every interior pixel,
 reading neighbours from a snapshot of the buffer and storing through
 a `Uint8ClampedArray` (so results saturate to [0, 255]).
 */
module Sharpen {
  import opened Pixels

  /** Entry i is written by the pass: a red, green or blue channel of a
      pixel that is not on the one-pixel border. */
  predicate IsInterior(w: nat, h: nat, i: nat)
  {
    && w > 0
    && ChannelOf(i) < 3
    && 1 <= ColumnOf(i, w) < w - 1
    && 1 <= RowOf(i, w) < h - 1
  }

  /** 5 * centre - top - bottom - left - right, before clamping. */
  function KernelSum(buff: seq<Byte>, w: nat, h: nat, i: nat): int
    requires |buff| == w * h * 4
    requires IsInterior(w, h, i)
  {
    var x, y, c := ColumnOf(i, w), RowOf(i, w), ChannelOf(i);
    IdxOfCoordinates(i, w);
    IdxInBounds(w, h, x, y - 1, c);
    IdxInBounds(w, h, x, y + 1, c);
    IdxInBounds(w, h, x - 1, y, c);
    IdxInBounds(w, h, x + 1, y, c);
    5 * buff[i] as int
    - buff[Idx(w, x, y - 1, c)] as int
    - buff[Idx(w, x, y + 1, c)] as int
    - buff[Idx(w, x - 1, y, c)] as int
    - buff[Idx(w, x + 1, y, c)] as int
  }

  /** What the pass leaves at entry i of a buffer whose snapshot is buff. */
  function SharpenedAt(buff: seq<Byte>, w: nat, h: nat, i: nat): Byte
    requires |buff| == w * h * 4
    requires i < |buff|
  {
    if IsInterior(w, h, i) then ClampByte(KernelSum(buff, w, h, i)) else buff[i]
  }

  function Sharpened(buff: seq<Byte>, w: nat, h: nat): (out: seq<Byte>)
    requires |buff| == w * h * 4
    ensures |out| == |buff|
  {
    seq(|buff|, i requires 0 <= i < |buff| => SharpenedAt(buff, w, h, i))
  }

  /** Entry i lies before the cursor (row y, column x, channel c) in the
      order the three nested loops visit entries. */
  predicate Visited(w: nat, i: nat, y: nat, x: nat, c: nat)
    requires w > 0
  {
    || RowOf(i, w) < y
    || (RowOf(i, w) == y && ColumnOf(i, w) < x)
    || (RowOf(i, w) == y && ColumnOf(i, w) == x && ChannelOf(i) < c)
  }

  /** Loop invariant of the pass: the entries visited so far hold their
      sharpened value, every other entry still holds its original value. */
  ghost predicate Progress(out: seq<Byte>, data: seq<Byte>, w: nat, h: nat, y: nat, x: nat, c: nat)
    requires |data| == w * h * 4
  {
    && |out| == |data|
    && forall i :: 0 <= i < |data| ==>
         out[i] == (if IsInterior(w, h, i) && Visited(w, i, y, x, c)
                    then SharpenedAt(data, w, h, i) else data[i])
  }

  /** The pass as the source writes it: three nested loops over a copy of
      the buffer, writing only interior R, G and B entries. */
  method ApplySharpenFilter(data: seq<Byte>, w: nat, h: nat) returns (out: seq<Byte>)
    requires |data| == w * h * 4
    ensures |out| == |data|
    ensures forall i :: 0 <= i < |data| && !IsInterior(w, h, i) ==> out[i] == data[i]
    ensures forall i :: 0 <= i < |data| && IsInterior(w, h, i) ==>
              out[i] == ClampByte(KernelSum(data, w, h, i))
    ensures out == Sharpened(data, w, h)
  {
    out := data;
    var w4 := w * 4;
    var y := 1;
    while y < h - 1
      invariant 1 <= y
      invariant Progress(out, data, w, h, y, 0, 0)
    {
      out := SharpenRow(data, out, w, h, y, w4);
      y := y + 1;
    }
    Finish(out, data, w, h, y);
  }

  /** The middle loop `for (x = 1; x < w - 1; x++)` of row y. */
  method SharpenRow(buff: seq<Byte>, out: seq<Byte>, w: nat, h: nat, y: nat, w4: nat)
    returns (out': seq<Byte>)
    requires |buff| == w * h * 4
    requires 1 <= y < h - 1 && w4 == w * 4
    requires Progress(out, buff, w, h, y, 0, 0)
    ensures Progress(out', buff, w, h, y + 1, 0, 0)
  {
    out' := out;
    var rowOffset := y * w4;
    var prevRowOffset := (y - 1) * w4;
    var nextRowOffset := (y + 1) * w4;
    var x := 1;
    StartRow(out', buff, w, h, y);
    while x < w - 1
      invariant 1 <= x && (x <= w - 1 || w < 2)
      invariant Progress(out', buff, w, h, y, x, 0)
    {
      var pixelOffset := rowOffset + x * 4;
      out' := SharpenPixel(buff, out', w, h, x, y, w4, rowOffset, prevRowOffset, nextRowOffset, pixelOffset);
      NextPixel(out', buff, w, h, y, x);
      x := x + 1;
    }
    NextRow(out', buff, w, h, y, x);
  }

  /** The innermost loop `for (c = 0; c < 3; c++)` at pixel (x, y): one
      kernel per colour channel, read from the untouched input buffer. */
  method SharpenPixel(buff: seq<Byte>, out: seq<Byte>, w: nat, h: nat, x: nat, y: nat,
                      w4: nat, rowOffset: nat, prevRowOffset: nat, nextRowOffset: nat, pixelOffset: nat)
    returns (out': seq<Byte>)
    requires |buff| == w * h * 4
    requires 1 <= x < w - 1 && 1 <= y < h - 1
    requires w4 == w * 4 && rowOffset == y * w4
    requires prevRowOffset == (y - 1) * w4 && nextRowOffset == (y + 1) * w4
    requires pixelOffset == rowOffset + x * 4
    requires Progress(out, buff, w, h, y, x, 0)
    ensures Progress(out', buff, w, h, y, x, 3)
  {
    out' := out;
    var c := 0;
    while c < 3
      invariant 0 <= c <= 3
      invariant Progress(out', buff, w, h, y, x, c)
    {
      var centerIdx := pixelOffset + c;
      CursorKernel(buff, w, h, x, y, c, w4, rowOffset, prevRowOffset, nextRowOffset);
      var val := (5 * buff[centerIdx] as int)
                 - buff[prevRowOffset + (x * 4) + c] as int
                 - buff[nextRowOffset + (x * 4) + c] as int
                 - buff[rowOffset + ((x - 1) * 4) + c] as int
                 - buff[rowOffset + ((x + 1) * 4) + c] as int;
      CursorStep(out', buff, w, h, x, y, c);
      out' := out'[centerIdx := ClampByte(val)];
      c := c + 1;
    }
  }

  /** At the loop cursor, the offsets the source computes from `w4 = w * 4`
      address the entry (x, y, c) and its four neighbours, and the kernel
      read through them is the entry's sharpened value. */
  lemma CursorKernel(data: seq<Byte>, w: nat, h: nat, x: nat, y: nat, c: nat, w4: nat,
                     rowOffset: nat, prevRowOffset: nat, nextRowOffset: nat)
    requires |data| == w * h * 4
    requires 1 <= x < w - 1 && 1 <= y < h - 1 && c < 3
    requires w4 == w * 4 && rowOffset == y * w4
    requires prevRowOffset == (y - 1) * w4 && nextRowOffset == (y + 1) * w4
    ensures rowOffset + x * 4 + c == Idx(w, x, y, c)
    ensures Idx(w, x, y, c) < |data|
    ensures prevRowOffset + (x * 4) + c < |data| && nextRowOffset + (x * 4) + c < |data|
    ensures rowOffset + ((x - 1) * 4) + c < |data| && rowOffset + ((x + 1) * 4) + c < |data|
    ensures SharpenedAt(data, w, h, Idx(w, x, y, c)) == ClampByte(
              5 * data[Idx(w, x, y, c)] as int
              - data[prevRowOffset + (x * 4) + c] as int
              - data[nextRowOffset + (x * 4) + c] as int
              - data[rowOffset + ((x - 1) * 4) + c] as int
              - data[rowOffset + ((x + 1) * 4) + c] as int)
  {
    KernelAtCursor(data, w, h, x, y, c);
    RowOffset(w, x, y, c);
    RowOffset(w, x, y - 1, c);
    RowOffset(w, x, y + 1, c);
    RowOffset(w, x - 1, y, c);
    RowOffset(w, x + 1, y, c);
  }

  lemma StartRow(out: seq<Byte>, data: seq<Byte>, w: nat, h: nat, y: nat)
    requires |data| == w * h * 4
    requires Progress(out, data, w, h, y, 0, 0)
    ensures Progress(out, data, w, h, y, 1, 0)
  {
    forall i | 0 <= i < |data| && IsInterior(w, h, i)
      ensures Visited(w, i, y, 0, 0) <==> Visited(w, i, y, 1, 0)
    {
    }
  }

  /** The entry under the loop cursor is interior, its neighbours are inside
      the buffer, and its sharpened value is the kernel the loop computes. */
  lemma KernelAtCursor(data: seq<Byte>, w: nat, h: nat, x: nat, y: nat, c: nat)
    requires |data| == w * h * 4
    requires 1 <= x < w - 1 && 1 <= y < h - 1 && c < 3
    ensures Idx(w, x, y, c) < |data|
    ensures Idx(w, x, y - 1, c) < |data| && Idx(w, x, y + 1, c) < |data|
    ensures Idx(w, x - 1, y, c) < |data| && Idx(w, x + 1, y, c) < |data|
    ensures IsInterior(w, h, Idx(w, x, y, c))
    ensures SharpenedAt(data, w, h, Idx(w, x, y, c)) == ClampByte(
              5 * data[Idx(w, x, y, c)] as int
              - data[Idx(w, x, y - 1, c)] as int - data[Idx(w, x, y + 1, c)] as int
              - data[Idx(w, x - 1, y, c)] as int - data[Idx(w, x + 1, y, c)] as int)
  {
    IdxCoordinates(w, x, y, c);
    IdxInBounds(w, h, x, y, c);
    IdxInBounds(w, h, x, y - 1, c);
    IdxInBounds(w, h, x, y + 1, c);
    IdxInBounds(w, h, x - 1, y, c);
    IdxInBounds(w, h, x + 1, y, c);
  }

  /** Writing the sharpened value under the cursor advances the channel. */
  lemma CursorStep(out: seq<Byte>, data: seq<Byte>, w: nat, h: nat, x: nat, y: nat, c: nat)
    requires |data| == w * h * 4
    requires 1 <= x < w - 1 && 1 <= y < h - 1 && c < 3
    requires Idx(w, x, y, c) < |data|
    requires Progress(out, data, w, h, y, x, c)
    ensures Progress(out[Idx(w, x, y, c) := SharpenedAt(data, w, h, Idx(w, x, y, c))],
                     data, w, h, y, x, c + 1)
  {
    var k := Idx(w, x, y, c);
    IdxCoordinates(w, x, y, c);
    forall i | 0 <= i < |data| && i != k
      ensures Visited(w, i, y, x, c + 1) <==> Visited(w, i, y, x, c)
    {
      if RowOf(i, w) == y && ColumnOf(i, w) == x && ChannelOf(i) == c {
        IdxOfCoordinates(i, w);
        assert false;
      }
    }
  }

  /** The byte offsets the source computes from `w4 = w * 4`. */
  lemma RowOffset(w: nat, x: nat, y: nat, c: nat)
    ensures y * (w * 4) + x * 4 + c == Idx(w, x, y, c)
  {
    assert y * (w * 4) == (y * w) * 4;
  }

  lemma NextPixel(out: seq<Byte>, data: seq<Byte>, w: nat, h: nat, y: nat, x: nat)
    requires |data| == w * h * 4
    requires Progress(out, data, w, h, y, x, 3)
    ensures Progress(out, data, w, h, y, x + 1, 0)
  {
    forall i | 0 <= i < |data| && IsInterior(w, h, i)
      ensures Visited(w, i, y, x, 3) <==> Visited(w, i, y, x + 1, 0)
    {
    }
  }

  lemma NextRow(out: seq<Byte>, data: seq<Byte>, w: nat, h: nat, y: nat, x: nat)
    requires |data| == w * h * 4
    requires x >= w - 1
    requires Progress(out, data, w, h, y, x, 0)
    ensures Progress(out, data, w, h, y + 1, 0, 0)
  {
    forall i | 0 <= i < |data| && IsInterior(w, h, i)
      ensures Visited(w, i, y, x, 0) <==> Visited(w, i, y + 1, 0, 0)
    {
    }
  }

  lemma Finish(out: seq<Byte>, data: seq<Byte>, w: nat, h: nat, y: nat)
    requires |data| == w * h * 4
    requires y >= h - 1
    requires Progress(out, data, w, h, y, 0, 0)
    ensures out == Sharpened(data, w, h)
  {
    forall i | 0 <= i < |data| && IsInterior(w, h, i)
      ensures Visited(w, i, y, 0, 0)
    {
    }
  }

  /** Pixels on the one-pixel border, and every alpha entry, come out of the
      pass exactly as they went in. */
  lemma BorderUnchanged(data: seq<Byte>, w: nat, h: nat, x: nat, y: nat, c: nat)
    requires |data| == w * h * 4
    requires x < w && y < h && c < 4
    requires x == 0 || y == 0 || x == w - 1 || y == h - 1 || c == 3
    ensures Idx(w, x, y, c) < |data|
    ensures Sharpened(data, w, h)[Idx(w, x, y, c)] == data[Idx(w, x, y, c)]
  {
    IdxCoordinates(w, x, y, c);
    IdxInBounds(w, h, x, y, c);
  }

  /** A uniform-colour image is a fixed point of the pass: the kernel's
      weights sum to 1, so 5v - 4v = v, and v is already a byte. */
  lemma UniformIsFixedPoint(data: seq<Byte>, w: nat, h: nat, rgb: seq<Byte>)
    requires |data| == w * h * 4 && |rgb| == 3
    requires forall i :: 0 <= i < |data| && ChannelOf(i) < 3 ==> data[i] == rgb[ChannelOf(i)]
    ensures Sharpened(data, w, h) == data
  {
    forall i | 0 <= i < |data| && IsInterior(w, h, i)
      ensures SharpenedAt(data, w, h, i) == data[i]
    {
      var x, y, c := ColumnOf(i, w), RowOf(i, w), ChannelOf(i);
      IdxOfCoordinates(i, w);
      NeighbourChannel(data, w, h, x, y - 1, c);
      NeighbourChannel(data, w, h, x, y + 1, c);
      NeighbourChannel(data, w, h, x - 1, y, c);
      NeighbourChannel(data, w, h, x + 1, y, c);
    }
  }

  lemma NeighbourChannel(data: seq<Byte>, w: nat, h: nat, x: nat, y: nat, c: nat)
    requires |data| == w * h * 4
    requires x < w && y < h && c < 4
    ensures Idx(w, x, y, c) < |data| && ChannelOf(Idx(w, x, y, c)) == c
  {
    IdxCoordinates(w, x, y, c);
    IdxInBounds(w, h, x, y, c);
  }
}
