# neuroglitch pixel synthesis, modelled in Dafny

neuroglitch turns an image into a glowing "ASCII + particles" picture. The
render pass `renderCombined` does the following:

- scales the source to at most 1200 px wide;
- sharpens it with a 3x3 kernel;
- walks a square lattice of cells with stride `max(1, floor(asciiDensity))`.

At every cell it reads the sampled pixel and does five things:

- computes its BT.601 luma, the weights of item 2.5.1 of ITU-R BT.601;
- gamma-remaps it;
- drops the cell if it is darker than `brightnessThreshold`;
- grades a colour in one of four modes;
- may spawn a glowing particle, then draws a glyph from the selected ramp
  unless a particle covered a very bright cell.

This project models that core as pure functions over integers and reals. The
sharpen pass and the lattice walk are imperative methods whose loops mirror
the source's loops. The modules:

| module | file | models |
|---|---|---|
| `Pixels` | pixels.dfy | bytes of a `Uint8ClampedArray`, flat RGBA indexing |
| `Settings` | settings.dfy | `ProcessSettings`, `CHAR_PALETTES`, `DEFAULT_SETTINGS` |
| `Resample` | resample.dfy | the working size (1200 px cap, never upscale) |
| `Sharpen` | sharpen.dfy | `applySharpenFilter` |
| `Luma` | luma.dfy | luma and the gamma remap |
| `Glyph` | glyph.dfy | `mapBrightnessToChar` |
| `ColorEngine` | color_engine.dfy | the four colour modes |
| `Particle` | particle.dfy | particle eligibility, factor and radius |
| `Grid` | grid.dfy | grid step and the row-major lattice |
| `Compositor` | compositor.dfy | per-cell draw commands and the render pass |

Canvas calls become values: the render emits a sequence of `DrawCommand`s.
There are two kinds:

- a glowing `Disc`, from `arc` + `fill` with `shadowBlur = 10`;
- a `Text`, from `fillText`.

The parts the model cannot compute come in as parameters:

- `drawImage` is an oracle `resize` from a target size to an RGBA buffer of
  that size.
- `Math.random()` is an oracle `draw(x, y)`, one draw per cell.
- `Math.pow(v / 255, 1.2) * 255` is a curve parameter. It is constrained by
  `Luma.IsGammaCurve`: it fixes 0 and 255, stays within [0, v] and is monotone.

Facts about the code that the model makes explicit:

- **No parameter validation.** No setting is checked before use, so no
  operation here rejects any.
- **`particleThreshold >= 255` needs no special case.** Brightness never
  exceeds 255, so such a threshold never admits a particle, and the division
  by `255 - particleThreshold` is never reached. `Particle.DrawProbability`
  proves this.
- **The spectral fill is not monotone in brightness.** The comment at
  utils/imageProcessing.ts:150 calls it a gradient. Yet at the 180
  breakpoint the colour jumps from (80, 255, 130) to (255, 121, 80), and
  the BT.601 luma of the latter is lower. `ColorEngine.SpectralDimsAcross180`
  proves this.
  - Each band on its own is monotone.
  - The cyber fill's luma never drops, across its breakpoints included.
- **A render can abort.** A working size with a zero side makes the sharpen
  pass throw (see "## Findings").

## Model

| member | source | states |
|---|---|---|
| `Pixels.ClampByte` | utils/imageProcessing.ts:72 | storing an integer into the clamped pixel array yields the byte nearest to it, and in-range values unchanged (saturation, never wrap-around) |
| `Pixels.IdxCoordinates` | utils/imageProcessing.ts:129 | the flat offset `(y*w + x)*4 + c` decodes back to channel c, column x and row y |
| `Pixels.IdxInBounds` | utils/imageProcessing.ts:129-132 | for a pixel inside a w x h image, every channel offset lies inside the `w*h*4` buffer |
| `Sharpen.ApplySharpenFilter` | utils/imageProcessing.ts:44-78 | the three nested loops leave every border pixel and every alpha byte as they were; each interior R, G, B entry becomes clamp(5c - top - bottom - left - right), all read from the untouched snapshot |
| `Sharpen.SharpenRow` | utils/imageProcessing.ts:53-75 | one pass of the row loop extends the finished region by one whole row |
| `Sharpen.SharpenPixel` | utils/imageProcessing.ts:58-74 | the channel loop finishes R, G and B of one pixel and nothing else |
| `Sharpen.CursorKernel` | utils/imageProcessing.ts:54-70 | the offsets built from `w4`, `rowOffset`, `prevRowOffset` and `nextRowOffset` address the centre and its four neighbours in the buffer, and the kernel read through them is the entry's sharpened value |
| `Sharpen.BorderUnchanged` | utils/imageProcessing.ts:53-62 | pixels with x = 0, y = 0, x = w-1 or y = h-1, and every alpha channel, come out of the pass unchanged |
| `Sharpen.UniformIsFixedPoint` | utils/imageProcessing.ts:62-72 | a uniform-colour image is a fixed point of the pass, since the kernel weights sum to 1 |
| `Resample.Scale` | utils/imageProcessing.ts:92-93 | the scale lies in (0, 1]: 1 for widths up to 1200 (a zero width included), exactly 1200/width above |
| `Resample.ScaledSide` | utils/imageProcessing.ts:94-95 | a floored scaled side never exceeds the original side and is the floor of side * scale |
| `Resample.ResampledSize` | utils/imageProcessing.ts:92-95 | the working size never exceeds the source on either side and is at most 1200 wide |
| `Resample.ResampledSizeCases` | utils/imageProcessing.ts:92-95 | a source at most 1200 wide keeps its size; a wider one becomes exactly 1200 wide with height floor(H * 1200 / W) |
| `Luma.Luma` | utils/imageProcessing.ts:135 | the luma of byte channels lies in [0, 255] and a grey pixel's luma is its grey level |
| `Luma.LumaMonotone` | utils/imageProcessing.ts:135 | brightening any channel never lowers the luma |
| `Luma.SquareCurveIsGammaCurve` | utils/imageProcessing.ts:138 | the constraints placed on the gamma curve can be met by a curve of the same shape |
| `Luma.Brightness` | utils/imageProcessing.ts:135-138 | the remapped brightness lies in [0, 255], never exceeds the luma, is 255 for white and 0 for black |
| `Glyph.Ramp` | utils/imageProcessing.ts:27 | the ramp is the named palette when it exists and the `standard` ramp otherwise, and it always ends with a space |
| `Glyph.GlyphIndex` | utils/imageProcessing.ts:30-33 | the clamped index lies in [0, len-1]: 0 at brightness 255 or more, len-1 at brightness 0 or less |
| `Glyph.GlyphIndexBucket` | utils/imageProcessing.ts:30-33 | on [0, 255] the index is the band k with k <= (1 - b/255)(len-1) < k+1: the ramp cuts brightness into equal bands, brightest first |
| `Glyph.GlyphIndexAntitone` | utils/imageProcessing.ts:30-33 | a brighter cell never gets a larger index, that is a sparser glyph |
| `Glyph.MapBrightnessToChar` | utils/imageProcessing.ts:26-34 | the glyph comes from the selected ramp, or from `standard` for an unknown name; brightness 255 gives the ramp's first glyph and 0 gives the space |
| `Glyph.RampEnds` | utils/imageProcessing.ts:26-34 | for each registered palette, full brightness draws its dense first glyph, which is not blank, and zero brightness draws the blank space |
| `ColorEngine.BandIndex` | utils/imageProcessing.ts:151-159 | the band of v is the number of breakpoints strictly below v |
| `ColorEngine.Boost` | utils/imageProcessing.ts:148 | the boosted channel is the smaller of 255 and c*1.3: it is one of the two and at most both, and it is never below c |
| `ColorEngine.Grade` | utils/imageProcessing.ts:143-160 | for brightness in [0, 255], every channel of the graded colour lies in [0, 255] |
| `ColorEngine.GradeDependencies` | utils/imageProcessing.ts:143-160 | mono is always white; original ignores brightness and is monotone per channel (a larger sampled channel never gives a smaller boosted channel); spectral and cyber ignore the sampled channels |
| `ColorEngine.SpectralColor` | utils/imageProcessing.ts:151-155 | for brightness in [0, 255] every channel of the spectral fill lies in [0, 255]; its bands are characterised by `ColorEngine.SpectralPicksBand` |
| `ColorEngine.CyberColor` | utils/imageProcessing.ts:157-159 | for brightness in [0, 255] every channel of the cyber fill lies in [0, 255]; its bands are characterised by `ColorEngine.CyberPicksBand` |
| `ColorEngine.SpectralPicksBand` | utils/imageProcessing.ts:151-155 | the spectral if-chain selects exactly the band the breakpoints 80/130/180/235 assign to v |
| `ColorEngine.CyberPicksBand` | utils/imageProcessing.ts:157-159 | the cyber if-chain selects exactly the band the breakpoints 100/180 assign to v |
| `ColorEngine.SpectralMonotoneWithinBand` | utils/imageProcessing.ts:151-155 | within one spectral band a brighter cell never gets a smaller channel |
| `ColorEngine.CyberMonotoneWithinBand` | utils/imageProcessing.ts:157-159 | within one cyber band a brighter cell never gets a smaller channel |
| `ColorEngine.SpectralDimsAcross180` | utils/imageProcessing.ts:152-153 | crossing 180 the spectral colour changes from (80, 255, 130) to (255, 121, 80), whose luma is lower |
| `ColorEngine.CyberLumaMonotone` | utils/imageProcessing.ts:157-159 | the cyber colour's luma never drops as brightness grows, across breakpoints included |
| `Particle.BrightnessFactor` | utils/imageProcessing.ts:165-166 | for an eligible cell the factor lies in (0, 1] and equals 1 at full brightness |
| `Particle.BrightnessFactorMonotone` | utils/imageProcessing.ts:166 | a brighter eligible cell never gets a smaller factor |
| `Particle.ParticleDrawn` | utils/imageProcessing.ts:165-168 | the spawn condition: above the threshold and a draw below chance + factor/2; its contract is stated by `Particle.DrawProbability` and `Particle.DrawMonotone` |
| `Particle.Radius` | utils/imageProcessing.ts:170 | the particle radius lies in (0.8 step/3, 1.8 step/3] |
| `Particle.RadiusMonotone` | utils/imageProcessing.ts:166-170 | a larger brightness factor never gives a smaller disc, so with `Particle.BrightnessFactorMonotone` the radius grows with how far brightness exceeds the threshold |
| `Particle.DrawProbability` | utils/imageProcessing.ts:165-168 | a cell at or below the threshold never spawns, so no cell spawns when the threshold is 255 or more; a full-brightness cell spawns exactly when the draw is below chance + 0.5; a cell whose chance + factor/2 reaches 1 always spawns |
| `Particle.DrawMonotone` | utils/imageProcessing.ts:165-168 | a draw that spawns a particle at some brightness also spawns one at any higher brightness |
| `Grid.Step` | utils/imageProcessing.ts:124 | the step is at least 1 and is floor(density) when density >= 1 |
| `Grid.DefaultStep` | types.ts:20 | the default density of 8 gives a step of 8 |
| `Grid.AxisFrom` | utils/imageProcessing.ts:127-128 | the values a stride loop from start takes all lie in [start, n); `Grid.AxisFromMembers` and `Grid.AxisFromLength` say which and how many |
| `Grid.GridCells` | utils/imageProcessing.ts:127-128 | the cells the two loops visit, in order; characterised by `Grid.GridCellsShape` |
| `Grid.AxisFromIncreasing` | utils/imageProcessing.ts:127-128 | a stride loop visits strictly increasing values |
| `Grid.AxisFromLength` | utils/imageProcessing.ts:127-128 | a stride loop over [start, n) runs ceil((n - start)/step) times |
| `Grid.AxisFromMembers` | utils/imageProcessing.ts:127-128 | a stride loop visits exactly the values of [start, n) that are a whole number of strides from start |
| `Grid.AxisShape` | utils/imageProcessing.ts:127-128 | one axis is visited ceil(n/step) times, at exactly the multiples of step below n |
| `Grid.GridCellsShape` | utils/imageProcessing.ts:127-128 | the two loops visit exactly ceil(w/step) * ceil(h/step) cells, namely the in-image cells whose coordinates are multiples of step, each once and in row-major order |
| `Settings.PalettesEndWithSpace` | types.ts:12-17 | every ramp is non-empty and ends with the empty glyph, a space |
| `Settings.PaletteNames` | types.ts:13-25 | the palette names are exactly encryption, standard and complex, and both the fallback and the default palette are among them |
| `Settings.DefaultsWithinControlRanges` | types.ts:19-27 | every default lies in its control-panel slider range, and the default particle threshold is below 255 |
| `Compositor.CellCommands` | utils/imageProcessing.ts:140-194 | the per-cell body; its contract is stated by `Compositor.CellCommandsShape` and `Compositor.CellLayers` |
| `Compositor.CellAt` | utils/imageProcessing.ts:129-132 | the cell's channels are read at `(y*w + x)*4`, +1 and +2, inside the buffer (`Pixels.IdxInBounds`), and passed with the cell's brightness (`Compositor.CellBrightness`) to the per-cell body |
| `Compositor.CellCommandsShape` | utils/imageProcessing.ts:140-194 | a cell below the cutoff draws nothing; otherwise at most a particle then a glyph, both at the cell, filled with the graded colour; the glyph is the mapped glyph and comes last; a particle comes first, only above the particle threshold, and glows in its colour with blur 10 and radius `Radius(step, BrightnessFactor(v, threshold))` |
| `Compositor.CellLayers` | utils/imageProcessing.ts:163-194 | a cell draws a particle exactly when it passes the cutoff and the draw succeeds, and a glyph exactly when it passes the cutoff, was not covered by a particle above 230, and its glyph is not blank |
| `Compositor.CellBrightness` | utils/imageProcessing.ts:129-138 | the brightness sampled at a cell lies in [0, 255] |
| `Compositor.ComposeAppend` | utils/imageProcessing.ts:127-196 | the commands of two runs of cells are the commands of the first followed by those of the second |
| `Compositor.ComposeCommandsAtBrightCells` | utils/imageProcessing.ts:140 | every emitted command sits on a visited cell inside the image whose brightness reached the cutoff |
| `Compositor.SweepIsCompose` | utils/imageProcessing.ts:129-194 | running the sweep with the render's own per-cell body yields exactly the render's commands |
| `Compositor.SweepRow` | utils/imageProcessing.ts:128-195 | the inner loop emits, left to right, the commands of the cells of row y at x = 0, step, 2 step, ... below w |
| `Compositor.SweepGrid` | utils/imageProcessing.ts:127-196 | the two loops emit the commands of the lattice cells in row-major order, and every visited cell lies inside the image |
| `Compositor.RenderCombined` | utils/imageProcessing.ts:83-197 | the render picks the resampled size; it fails with no commands exactly when that size has a zero side (where `getImageData` throws), and otherwise draws and sharpens the source at that size and emits the commands of that buffer's lattice cells in row-major order |
| `Compositor.ThinSourceAborts` | utils/imageProcessing.ts:92-95 | a 2400 x 1 source, whose area is positive, gets the working size 1200 x 0, so the render fails |
| `Compositor.RenderGuarded` | utils/imageProcessing.ts:83-197 | the render with a zero-area guard always completes; its commands are those of the sharpened buffer's lattice cells, and none when the working size has a zero side |
| `Resample.ResampledZeroArea` | utils/imageProcessing.ts:92-95 | the working size has a zero side exactly when the source does, or when the source is wider than 1200 and height * 1200 < width |
| `Grid.GridCellsEmpty` | utils/imageProcessing.ts:127-128 | with no columns or no rows the two loops visit no cell |

## Left out

- `loadImage` and the drop zone: asynchronous browser file and image decoding.
- Canvas state and side effects. These include `getContext` (and the early
  return when it yields null), `canvas.width`/`height`, the black `fillRect`
  background, the font settings (so `fontSize` has no effect here),
  `getImageData`/`putImageData` (except that `getImageData` fails on a zero
  side, which `Compositor.RenderCombined` models as a failed render), and the
  `shadowBlur` reset. The model emits commands instead of drawing.
- `drawImage`'s resampling filter is unspecified. `RenderCombined` takes it
  as the oracle `resize`, constrained only by the buffer length it returns.
- `Compositor.RenderCombined`: the sharpened buffer is written back with
  `putImageData` and read again with `getImageData` on a context that has an
  alpha channel. The model treats that round trip as lossless. A browser
  that stores premultiplied alpha can change the RGB of semi-transparent
  pixels on the way.
- `Math.random()` is a caller-supplied oracle, one draw per cell. The source
  only draws for cells above the particle threshold.
- IEEE double arithmetic is modelled as exact reals, and `Math.pow(…, 1.2)` as
  the constrained curve parameter.
- `Resample.ResampledSizeCases`: the exact width 1200 above 1200 px holds in
  reals only. In doubles `width * (1200 / width)` can round just below 1200
  (2191 * (1200 / 2191) is 1199.9999999999998), so the source's working
  width for such widths is 1199. Many widths above 1200 behave this way.
- CSS `rgb(...)` strings and the browser's clamping of them: colours are
  triples of reals.
- `Glyph.Ramp`: names that are properties of every JavaScript object
  (`toString`, `constructor`, …) are treated as unknown and fall back to
  `standard`. In the source they select a non-string, whose index yields no
  glyph.
- `Glyph.IsBlank` covers the whitespace characters a ramp or text can
  contain, not every character `String.prototype.trim` removes.
- The React app (`App.tsx`), the controls panel (only its slider ranges are
  used) and the AI service client (`services/gemini.ts`): UI, scheduling and
  network code outside the renderer.

## Findings

| source | as written | input that shows it | evidently intended | confidence | as-written member | corrected member |
|---|---|---|---|---|---|---|
| utils/imageProcessing.ts:45 | `applySharpenFilter` calls `getImageData(0, 0, w, h)` on the working size even when w or h is 0. That call throws `IndexSizeError`, so the render stops, and the caller at App.tsx:24 never clears its processing flag | a 2400 x 1 image, working size 1200 x 0 (also any zero-width or zero-height image) | a degenerate image renders as an empty picture and the render completes | medium, not executed | `Compositor.RenderCombined` with `Compositor.ThinSourceAborts` | `Compositor.RenderGuarded` |
