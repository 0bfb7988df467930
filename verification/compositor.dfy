/**
 The per-cell body of `renderCombined` and the render pass around it.
 Canvas calls become an emitted list of draw commands: a glowing disc
 (`arc` + `fill` with `shadowBlur = 10`) or a glyph (`fillText`).
 */
module Compositor {
  import opened Pixels
  import opened Settings
  import opened Resample
  import opened Sharpen
  import opened Luma
  import opened Glyph
  import opened ColorEngine
  import opened Particle
  import opened Grid

  /** Above this brightness a drawn particle replaces the glyph. */
  const GlyphSuppressionLevel: real := 230.0

  /** `shadowBlur` while a particle is filled. */
  const GlowBlur: nat := 10

  datatype DrawCommand =
    | Disc(x: nat, y: nat, radius: real, fill: Rgb, glow: Rgb, blur: nat)
    | Text(x: nat, y: nat, ch: char, fill: Rgb)

  predicate HasDisc(cmds: seq<DrawCommand>)
  {
    exists k :: 0 <= k < |cmds| && cmds[k].Disc?
  }

  predicate HasText(cmds: seq<DrawCommand>)
  {
    exists k :: 0 <= k < |cmds| && cmds[k].Text?
  }

  /** What one grid cell at (x, y) with channels (r, g, b), remapped
      brightness v and random draw u puts on the canvas, in drawing order. */
  function CellCommands(s: ProcessSettings, step: nat, x: nat, y: nat,
                        r: Byte, g: Byte, b: Byte, v: real, u: real): seq<DrawCommand>
    requires step >= 1 && 0.0 <= v <= 255.0
  {
    if v < s.brightnessThreshold then []
    else
      var fill := Grade(s.colorMode, r, g, b, v);
      var drawn := ParticleDrawn(v, s.particleThreshold, s.particleDensity / 100.0, u);
      var discs :=
        if drawn then
          var particleFill := if s.colorMode == Mono then White else fill;
          [Disc(x, y, Radius(step, BrightnessFactor(v, s.particleThreshold)), particleFill, fill, GlowBlur)]
        else [];
      if drawn && v > GlyphSuppressionLevel then discs
      else
        var ch := MapBrightnessToChar(v, s.palette);
        if IsBlank(ch) then discs else discs + [Text(x, y, ch, fill)]
  }

  /** The commands of one cell: none below the cutoff, at most a particle
      and a glyph, all at the cell and painted in the graded colour (a mono
      particle's forced white is that colour too); the glyph is the mapped
      glyph and comes last, on top; a particle comes first, only above the
      particle threshold, and glows in its own colour with blur 10 and the
      radius `Radius(step, BrightnessFactor(v, t))`, in (0.8 step/3,
      1.8 step/3]. */
  lemma CellCommandsShape(s: ProcessSettings, step: nat, x: nat, y: nat,
                          r: Byte, g: Byte, b: Byte, v: real, u: real)
    requires step >= 1 && 0.0 <= v <= 255.0
    ensures var cmds := CellCommands(s, step, x, y, r, g, b, v, u);
            && (v < s.brightnessThreshold ==> cmds == [])
            && |cmds| <= 2
            && (forall k :: 0 <= k < |cmds| ==>
                  cmds[k].x == x && cmds[k].y == y && cmds[k].fill == Grade(s.colorMode, r, g, b, v))
            && (forall k :: 0 <= k < |cmds| && cmds[k].Text? ==>
                  k == |cmds| - 1 && cmds[k].ch == MapBrightnessToChar(v, s.palette))
            && (forall k :: 0 <= k < |cmds| && cmds[k].Disc? ==>
                  && k == 0 && v > s.particleThreshold
                  && cmds[k].radius == Radius(step, BrightnessFactor(v, s.particleThreshold))
                  && cmds[k].glow == cmds[k].fill && cmds[k].blur == GlowBlur
                  && 0.8 * step as real / 3.0 < cmds[k].radius <= 1.8 * step as real / 3.0)
  {
  }

  /** The priority rule between the two layers: a particle exactly when the
      cell survives the cutoff and the draw succeeds; a glyph unless the cell
      is cut off, a particle was drawn above 230, or the glyph is blank. */
  lemma CellLayers(s: ProcessSettings, step: nat, x: nat, y: nat,
                   r: Byte, g: Byte, b: Byte, v: real, u: real)
    requires step >= 1 && 0.0 <= v <= 255.0
    ensures var cmds := CellCommands(s, step, x, y, r, g, b, v, u);
            var drawn := ParticleDrawn(v, s.particleThreshold, s.particleDensity / 100.0, u);
            && (HasDisc(cmds) <==> v >= s.brightnessThreshold && drawn)
            && (HasText(cmds) <==>
                  && v >= s.brightnessThreshold
                  && !(drawn && v > GlyphSuppressionLevel)
                  && !IsBlank(MapBrightnessToChar(v, s.palette)))
  {
    var cmds := CellCommands(s, step, x, y, r, g, b, v, u);
    var drawn := ParticleDrawn(v, s.particleThreshold, s.particleDensity / 100.0, u);
    if v >= s.brightnessThreshold {
      if drawn {
        assert cmds[0].Disc?;
      }
      if !(drawn && v > GlyphSuppressionLevel) && !IsBlank(MapBrightnessToChar(v, s.palette)) {
        assert cmds[|cmds| - 1].Text?;
      }
    }
  }

  /** Brightness of the sampled pixel at cell p of a w x h buffer. */
  function CellBrightness(p: (nat, nat), pixels: seq<Byte>, w: nat, h: nat, curve: real -> real): (v: real)
    requires |pixels| == w * h * 4 && p.0 < w && p.1 < h
    requires IsGammaCurve(curve)
    ensures 0.0 <= v <= 255.0
  {
    var i := Idx(w, p.0, p.1, 0);
    IdxInBounds(w, h, p.0, p.1, 2);
    Brightness(pixels[i], pixels[i + 1], pixels[i + 2], curve)
  }

  /** The commands of cell p: `i = (y * w + x) * 4`, channels i, i+1, i+2. */
  function CellAt(p: (nat, nat), pixels: seq<Byte>, w: nat, h: nat, s: ProcessSettings,
                  step: nat, curve: real -> real, draw: (nat, nat) -> real): seq<DrawCommand>
    requires |pixels| == w * h * 4 && p.0 < w && p.1 < h
    requires step >= 1 && IsGammaCurve(curve)
  {
    var i := Idx(w, p.0, p.1, 0);
    IdxInBounds(w, h, p.0, p.1, 2);
    CellCommands(s, step, p.0, p.1, pixels[i], pixels[i + 1], pixels[i + 2],
                 CellBrightness(p, pixels, w, h, curve), draw(p.0, p.1))
  }

  predicate InImage(cells: seq<(nat, nat)>, w: nat, h: nat)
  {
    forall i :: 0 <= i < |cells| ==> cells[i].0 < w && cells[i].1 < h
  }

  /** The commands of a sequence of cells, cell after cell. */
  function Compose(cells: seq<(nat, nat)>, pixels: seq<Byte>, w: nat, h: nat, s: ProcessSettings,
                   step: nat, curve: real -> real, draw: (nat, nat) -> real): seq<DrawCommand>
    requires |pixels| == w * h * 4 && InImage(cells, w, h)
    requires step >= 1 && IsGammaCurve(curve)
  {
    if |cells| == 0 then []
    else CellAt(cells[0], pixels, w, h, s, step, curve, draw) + Compose(cells[1..], pixels, w, h, s, step, curve, draw)
  }

  lemma {:induction false} ComposeAppend(a: seq<(nat, nat)>, b: seq<(nat, nat)>, pixels: seq<Byte>, w: nat, h: nat,
                                         s: ProcessSettings, step: nat, curve: real -> real, draw: (nat, nat) -> real)
    requires |pixels| == w * h * 4 && InImage(a, w, h) && InImage(b, w, h)
    requires step >= 1 && IsGammaCurve(curve)
    ensures InImage(a + b, w, h)
    ensures Compose(a + b, pixels, w, h, s, step, curve, draw)
            == Compose(a, pixels, w, h, s, step, curve, draw) + Compose(b, pixels, w, h, s, step, curve, draw)
    decreases |a|
  {
    assert InImage(a + b, w, h) by {
      forall i | 0 <= i < |a + b|
        ensures (a + b)[i].0 < w && (a + b)[i].1 < h
      {
        if i < |a| { assert (a + b)[i] == a[i]; } else { assert (a + b)[i] == b[i - |a|]; }
      }
    }
    if |a| > 0 {
      assert (a + b)[1..] == a[1..] + b;
      assert (a + b)[0] == a[0];
      assert InImage(a[1..], w, h);
      ComposeAppend(a[1..], b, pixels, w, h, s, step, curve, draw);
    } else {
      assert a + b == b;
    }
  }

  /** Every emitted command sits on one of the cells, and that cell's
      brightness reached the cutoff: a cell below the cutoff draws nothing. */
  lemma {:induction false} ComposeCommandsAtBrightCells(cells: seq<(nat, nat)>, pixels: seq<Byte>, w: nat, h: nat,
                                                        s: ProcessSettings, step: nat, curve: real -> real,
                                                        draw: (nat, nat) -> real)
    requires |pixels| == w * h * 4 && InImage(cells, w, h)
    requires step >= 1 && IsGammaCurve(curve)
    ensures forall c :: c in Compose(cells, pixels, w, h, s, step, curve, draw) ==>
              && (c.x, c.y) in cells
              && c.x < w && c.y < h
              && CellBrightness((c.x, c.y), pixels, w, h, curve) >= s.brightnessThreshold
    decreases |cells|
  {
    if |cells| > 0 {
      ComposeCommandsAtBrightCells(cells[1..], pixels, w, h, s, step, curve, draw);
      var head := CellAt(cells[0], pixels, w, h, s, step, curve, draw);
      forall c | c in head
        ensures (c.x, c.y) == cells[0]
        ensures CellBrightness(cells[0], pixels, w, h, curve) >= s.brightnessThreshold
      {
      }
      assert forall c :: c in Compose(cells, pixels, w, h, s, step, curve, draw) ==>
               c in head || c in Compose(cells[1..], pixels, w, h, s, step, curve, draw);
    }
  }

  lemma RowInImage(xs: seq<nat>, y: nat, w: nat, h: nat)
    requires forall i :: 0 <= i < |xs| ==> xs[i] < w
    requires y < h
    ensures InImage(Row(xs, y), w, h)
  {
  }

  /** `renderCombined` as written: choose the working size, draw the source
      into it (`drawImage`, the oracle `resize`), sharpen that buffer, then
      sweep the lattice with the per-cell body. When the working size has a
      zero side, the sharpen pass's `getImageData(0, 0, w, h)` throws an
      `IndexSizeError` and the render stops with nothing drawn: `ok` is
      false. */
  method RenderCombined(source: Size, resize: Size -> seq<Byte>, s: ProcessSettings,
                        curve: real -> real, draw: (nat, nat) -> real)
    returns (size: Size, ok: bool, cmds: seq<DrawCommand>)
    requires IsGammaCurve(curve)
    requires forall z: Size :: |resize(z)| == z.width * z.height * 4
    ensures size == ResampledSize(source)
    ensures ok <==> !ZeroArea(size)
    ensures !ok ==> cmds == []
    ensures ok ==> cmds == Compose(GridCells(size.width, size.height, Step(s.asciiDensity)),
                                   Sharpened(resize(size), size.width, size.height),
                                   size.width, size.height, s, Step(s.asciiDensity), curve, draw)
  {
    size := ResampledSize(source);
    if ZeroArea(size) {
      return size, false, [];
    }
    size, cmds := RenderGuarded(source, resize, s, curve, draw);
    ok := true;
  }

  /** A source whose area is positive can still abort the render: 2400 x 1
      is scaled to 1200 x 0. */
  lemma ThinSourceAborts()
    ensures !ZeroArea(Size(2400, 1)) && ResampledSize(Size(2400, 1)) == Size(1200, 0)
    ensures ZeroArea(ResampledSize(Size(2400, 1)))
  {
  }

  /** The render with the zero-area case handled: it always completes, and
      an image with no pixels yields no commands. */
  method RenderGuarded(source: Size, resize: Size -> seq<Byte>, s: ProcessSettings,
                       curve: real -> real, draw: (nat, nat) -> real)
    returns (size: Size, cmds: seq<DrawCommand>)
    requires IsGammaCurve(curve)
    requires forall z: Size :: |resize(z)| == z.width * z.height * 4
    ensures size == ResampledSize(source)
    ensures InImage(GridCells(size.width, size.height, Step(s.asciiDensity)), size.width, size.height)
    ensures cmds == Compose(GridCells(size.width, size.height, Step(s.asciiDensity)),
                            Sharpened(resize(size), size.width, size.height),
                            size.width, size.height, s, Step(s.asciiDensity), curve, draw)
    ensures ZeroArea(size) ==> cmds == []
  {
    size := ResampledSize(source);
    var w, h := size.width, size.height;
    var pixels := ApplySharpenFilter(resize(size), w, h);
    var step := Step(s.asciiDensity);
    var cell := (p: (nat, nat)) requires p.0 < w && p.1 < h =>
                  CellAt(p, pixels, w, h, s, step, curve, draw);
    cmds := SweepGrid(w, h, step, cell);
    SweepIsCompose(GridCells(w, h, step), cell, pixels, w, h, s, step, curve, draw);
    if ZeroArea(size) {
      GridCellsEmpty(w, h, step);
    }
  }

  /** The body of the sweep's inner loop: the commands one cell emits. */
  type CellBody = ((nat, nat)) --> seq<DrawCommand>

  /** The commands of a sequence of cells laid end to end, for any per-cell
      body `cell`. */
  function Concat(cells: seq<(nat, nat)>, cell: CellBody): seq<DrawCommand>
    requires forall i :: 0 <= i < |cells| ==> cell.requires(cells[i])
  {
    if |cells| == 0 then [] else cell(cells[0]) + Concat(cells[1..], cell)
  }

  lemma {:induction false} ConcatAppend(a: seq<(nat, nat)>, b: seq<(nat, nat)>, cell: CellBody)
    requires forall i :: 0 <= i < |a| ==> cell.requires(a[i])
    requires forall i :: 0 <= i < |b| ==> cell.requires(b[i])
    ensures forall i :: 0 <= i < |a + b| ==> cell.requires((a + b)[i])
    ensures Concat(a + b, cell) == Concat(a, cell) + Concat(b, cell)
    decreases |a|
  {
    assert forall i :: 0 <= i < |a + b| ==> cell.requires((a + b)[i]) by {
      forall i | 0 <= i < |a + b|
        ensures cell.requires((a + b)[i])
      {
        if i < |a| { assert (a + b)[i] == a[i]; } else { assert (a + b)[i] == b[i - |a|]; }
      }
    }
    if |a| > 0 {
      assert (a + b)[1..] == a[1..] + b;
      assert (a + b)[0] == a[0];
      ConcatAppend(a[1..], b, cell);
    } else {
      assert a + b == b;
    }
  }

  /** Run with the render's own per-cell body, the sweep emits exactly the
      render's commands. */
  lemma {:induction false} SweepIsCompose(cells: seq<(nat, nat)>, cell: CellBody,
                                          pixels: seq<Byte>, w: nat, h: nat, s: ProcessSettings,
                                          step: nat, curve: real -> real, draw: (nat, nat) -> real)
    requires |pixels| == w * h * 4 && InImage(cells, w, h)
    requires step >= 1 && IsGammaCurve(curve)
    requires forall p: (nat, nat) :: p.0 < w && p.1 < h ==>
               cell.requires(p) && cell(p) == CellAt(p, pixels, w, h, s, step, curve, draw)
    ensures Concat(cells, cell) == Compose(cells, pixels, w, h, s, step, curve, draw)
    decreases |cells|
  {
    if |cells| > 0 {
      assert InImage(cells[1..], w, h);
      SweepIsCompose(cells[1..], cell, pixels, w, h, s, step, curve, draw);
    }
  }

  /** With `step = max(1, floor(asciiDensity))`, the two loops
      `for (y = 0; y < h; y += step)` and `for (x = 0; x < w; x += step)`,
      running the per-cell body at each visited cell, in visiting order. */
  method SweepGrid(w: nat, h: nat, step: nat, cell: CellBody)
    returns (cmds: seq<DrawCommand>)
    requires step >= 1
    requires forall p: (nat, nat) :: p.0 < w && p.1 < h ==> cell.requires(p)
    ensures InImage(GridCells(w, h, step), w, h)
    ensures cmds == Concat(GridCells(w, h, step), cell)
  {
    assert Axis(h, step) == [] + AxisFrom(0, h, step);
    ghost var xs := Axis(w, step);
    ghost var ys := Axis(h, step);
    cmds := [];
    var y: nat := 0;
    ghost var rowsDone: seq<nat> := [];
    while y < h
      invariant ys == rowsDone + AxisFrom(y, h, step)
      invariant InImage(Rows(rowsDone, xs), w, h)
      invariant cmds == Concat(Rows(rowsDone, xs), cell)
      decreases h - y
    {
      var row := SweepRow(w, y, step, cell);
      var next: nat := y + step;
      ghost var rows := rowsDone + [y];
      AxisFromUnfold(y, h, step, rowsDone);
      assert ys == rows + AxisFrom(next, h, step);
      ConcatRowsSnoc(rowsDone, y, xs, w, h, cell);
      cmds := cmds + row;
      rowsDone := rows;
      y := next;
    }
    assert rowsDone == ys;
  }

  /** One more row at the bottom appends that row's commands. */
  lemma ConcatRowsSnoc(rows: seq<nat>, y: nat, xs: seq<nat>, w: nat, h: nat, cell: CellBody)
    requires InImage(Rows(rows, xs), w, h) && y < h
    requires forall i :: 0 <= i < |xs| ==> xs[i] < w
    requires forall p: (nat, nat) :: p.0 < w && p.1 < h ==> cell.requires(p)
    ensures InImage(Rows(rows + [y], xs), w, h)
    ensures forall i :: 0 <= i < |Rows(rows, xs)| ==> cell.requires(Rows(rows, xs)[i])
    ensures forall i :: 0 <= i < |Row(xs, y)| ==> cell.requires(Row(xs, y)[i])
    ensures Concat(Rows(rows + [y], xs), cell) == Concat(Rows(rows, xs), cell) + Concat(Row(xs, y), cell)
  {
    RowsSnoc(rows, y, xs);
    RowInImage(xs, y, w, h);
    ConcatAppend(Rows(rows, xs), Row(xs, y), cell);
  }

  /** The inner loop `for (x = 0; x < w; x += step)` of row y. */
  method SweepRow(w: nat, y: nat, step: nat, cell: CellBody)
    returns (cmds: seq<DrawCommand>)
    requires step >= 1
    requires forall x: nat :: x < w ==> cell.requires((x, y))
    ensures forall i :: 0 <= i < |Axis(w, step)| ==> cell.requires(Row(Axis(w, step), y)[i])
    ensures cmds == Concat(Row(Axis(w, step), y), cell)
  {
    assert Axis(w, step) == [] + AxisFrom(0, w, step);
    ghost var xs := Axis(w, step);
    cmds := [];
    var x: nat := 0;
    ghost var colsDone: seq<nat> := [];
    while x < w
      invariant xs == colsDone + AxisFrom(x, w, step)
      invariant forall i :: 0 <= i < |colsDone| ==> colsDone[i] < w
      invariant cmds == Concat(Row(colsDone, y), cell)
      decreases w - x
    {
      var next: nat := x + step;
      ghost var cols := colsDone + [x];
      AxisFromUnfold(x, w, step, colsDone);
      assert xs == cols + AxisFrom(next, w, step);
      RowSnoc(colsDone, x, y);
      ConcatAppend(Row(colsDone, y), [(x, y)], cell);
      cmds := cmds + cell((x, y));
      colsDone := cols;
      x := next;
    }
    assert colsDone == xs;
  }
}
