/**
 The colour engine of `renderCombined`: the fill colour of a cell as a
 function of the colour mode, the sampled channels and the remapped
 brightness. Colours are triples of numbers; the CSS `rgb(...)` strings the
 source builds from them are not modelled.
 */
module ColorEngine {
  import opened Pixels
  import opened Settings
  import opened Luma

  datatype Rgb = Rgb(red: real, green: real, blue: real)

  const White: Rgb := Rgb(255.0, 255.0, 255.0)

  predicate InGamut(c: Rgb)
  {
    0.0 <= c.red <= 255.0 && 0.0 <= c.green <= 255.0 && 0.0 <= c.blue <= 255.0
  }

  /** Channel-wise order: every channel of a is at most that of b. */
  predicate ChannelsLe(a: Rgb, b: Rgb)
  {
    a.red <= b.red && a.green <= b.green && a.blue <= b.blue
  }

  /** `Math.floor(v)` as a real. */
  function FloorR(v: real): real
  {
    v.Floor as real
  }

  /** Ascending breakpoints of the spectral and cyber gradients. */
  const SpectralBreaks: seq<real> := [80.0, 130.0, 180.0, 235.0]
  const CyberBreaks: seq<real> := [100.0, 180.0]

  predicate Ascending(breaks: seq<real>)
  {
    forall i, j :: 0 <= i < j < |breaks| ==> breaks[i] < breaks[j]
  }

  /** The band brightness v falls in: the number of breakpoints strictly
      below v. Band 0 is the darkest. */
  function BandIndex(breaks: seq<real>, v: real): (k: nat)
    requires Ascending(breaks)
    ensures k <= |breaks|
    ensures forall i :: 0 <= i < |breaks| ==> (i < k <==> breaks[i] < v)
  {
    if |breaks| == 0 || v <= breaks[0] then 0
    else 1 + BandIndex(breaks[1..], v)
  }

  /** Spectral gradient: deep blue -> cyan -> green -> orange -> white. Every
      band stays inside the 0..255 channel range for v in [0, 255]. */
  function SpectralColor(v: real): (c: Rgb)
    ensures 0.0 <= v <= 255.0 ==> InGamut(c)
  {
    if v > 235.0 then White
    else if v > 180.0 then Rgb(255.0, FloorR((v - 100.0) * 1.5), 80.0)
    else if v > 130.0 then Rgb(80.0, 255.0, FloorR(v - 50.0))
    else if v > 80.0 then Rgb(0.0, FloorR(v + 50.0), 220.0)
    else Rgb(0.0, 40.0, FloorR(v * 1.2 + 40.0))
  }

  /** Cyber gradient: magenta -> teal -> bluish white; every channel is v,
      0 or 255. */
  function CyberColor(v: real): (c: Rgb)
    ensures 0.0 <= v <= 255.0 ==> InGamut(c)
  {
    if v > 180.0 then Rgb(v, v, 255.0)
    else if v > 100.0 then Rgb(0.0, v, v)
    else Rgb(v, 0.0, v)
  }

  /** `min(255, c * 1.3)`, a fixed saturation boost. */
  function Boost(c: Byte): (b: real)
    ensures 0.0 <= b <= 255.0
    ensures c as real <= b
    ensures b == 255.0 || b == c as real * 1.3
    ensures b <= 255.0 && b <= c as real * 1.3
  {
    var scaled := c as real * 1.3;
    if scaled < 255.0 then scaled else 255.0
  }

  /** The fill colour of a cell. */
  function Grade(mode: ColorMode, r: Byte, g: Byte, b: Byte, v: real): (c: Rgb)
    ensures 0.0 <= v <= 255.0 ==> InGamut(c)
  {
    match mode
    case Mono => White
    case Original => Rgb(Boost(r), Boost(g), Boost(b))
    case Spectral => SpectralColor(v)
    case Cyber => CyberColor(v)
  }

  /** Mono ignores everything; Original ignores brightness and is monotone
      channel by channel (a larger sampled channel never gives a smaller
      boosted channel); the two gradients ignore the sampled channels. */
  lemma GradeDependencies(mode: ColorMode, r: Byte, g: Byte, b: Byte, v: real,
                          r': Byte, g': Byte, b': Byte, v': real)
    ensures mode == Mono ==> Grade(mode, r, g, b, v) == White
    ensures mode == Original ==> Grade(mode, r, g, b, v) == Grade(mode, r, g, b, v')
    ensures mode == Original && r <= r' && g <= g' && b <= b' ==>
              ChannelsLe(Grade(mode, r, g, b, v), Grade(mode, r', g', b', v))
    ensures mode in {Spectral, Cyber} ==> Grade(mode, r, g, b, v) == Grade(mode, r', g', b', v)
  {
  }

  /** Each band of the spectral gradient as its own formula, indexed by
      band (0 = darkest). */
  function SpectralBandColor(band: nat, v: real): Rgb
    requires band <= 4
  {
    match band
    case 4 => White
    case 3 => Rgb(255.0, FloorR((v - 100.0) * 1.5), 80.0)
    case 2 => Rgb(80.0, 255.0, FloorR(v - 50.0))
    case 1 => Rgb(0.0, FloorR(v + 50.0), 220.0)
    case 0 => Rgb(0.0, 40.0, FloorR(v * 1.2 + 40.0))
  }

  function CyberBandColor(band: nat, v: real): Rgb
    requires band <= 2
  {
    match band
    case 2 => Rgb(v, v, 255.0)
    case 1 => Rgb(0.0, v, v)
    case 0 => Rgb(v, 0.0, v)
  }

  /** The spectral if-chain picks exactly the band the breakpoints
      80/130/180/235 assign to v. */
  lemma SpectralPicksBand(v: real)
    ensures Ascending(SpectralBreaks)
    ensures SpectralColor(v) == SpectralBandColor(BandIndex(SpectralBreaks, v), v)
  {
    var k := BandIndex(SpectralBreaks, v);
    assert SpectralBreaks[0] == 80.0 && SpectralBreaks[1] == 130.0;
    assert SpectralBreaks[2] == 180.0 && SpectralBreaks[3] == 235.0;
    assert 0 < k <==> SpectralBreaks[0] < v;
    assert 1 < k <==> SpectralBreaks[1] < v;
    assert 2 < k <==> SpectralBreaks[2] < v;
    assert 3 < k <==> SpectralBreaks[3] < v;
  }

  /** The cyber if-chain picks exactly the band the breakpoints 100/180
      assign to v. */
  lemma CyberPicksBand(v: real)
    ensures Ascending(CyberBreaks)
    ensures CyberColor(v) == CyberBandColor(BandIndex(CyberBreaks, v), v)
  {
    var k := BandIndex(CyberBreaks, v);
    assert CyberBreaks[0] == 100.0 && CyberBreaks[1] == 180.0;
    assert 0 < k <==> CyberBreaks[0] < v;
    assert 1 < k <==> CyberBreaks[1] < v;
  }

  /** Inside one band, a brighter cell never gets a smaller channel. */
  lemma SpectralMonotoneWithinBand(u: real, v: real)
    requires u <= v
    requires BandIndex(SpectralBreaks, u) == BandIndex(SpectralBreaks, v)
    ensures ChannelsLe(SpectralColor(u), SpectralColor(v))
  {
    SpectralPicksBand(u);
    SpectralPicksBand(v);
    FloorMonotone((u - 100.0) * 1.5, (v - 100.0) * 1.5);
    FloorMonotone(u - 50.0, v - 50.0);
    FloorMonotone(u + 50.0, v + 50.0);
    FloorMonotone(u * 1.2 + 40.0, v * 1.2 + 40.0);
  }

  lemma FloorMonotone(a: real, b: real)
    requires a <= b
    ensures FloorR(a) <= FloorR(b)
  {
    assert a.Floor as real <= a && b < b.Floor as real + 1.0;
    assert a.Floor < b.Floor + 1;
  }

  lemma CyberMonotoneWithinBand(u: real, v: real)
    requires 0.0 <= u <= v
    requires BandIndex(CyberBreaks, u) == BandIndex(CyberBreaks, v)
    ensures ChannelsLe(CyberColor(u), CyberColor(v))
  {
    CyberPicksBand(u);
    CyberPicksBand(v);
  }

  /** Across the 180 breakpoint the spectral colour gets darker: the green
      band's top, (80, 255, 130), has a higher BT.601 luma than the orange
      band's colour just above it, (255, 121, 80). Brightness is monotone
      within bands only. */
  lemma SpectralDimsAcross180()
    ensures SpectralColor(180.0) == Rgb(80.0, 255.0, 130.0)
    ensures SpectralColor(181.0) == Rgb(255.0, 121.0, 80.0)
    ensures ColorLuma(SpectralColor(181.0)) < ColorLuma(SpectralColor(180.0))
  {
  }

  /** The cyber gradient, unlike the spectral one, never gets darker as
      brightness grows, across its breakpoints included. */
  lemma CyberLumaMonotone(u: real, v: real)
    requires 0.0 <= u <= v
    ensures ColorLuma(CyberColor(u)) <= ColorLuma(CyberColor(v))
  {
  }

  /** The BT.601 luma of a graded colour. */
  function ColorLuma(c: Rgb): real
  {
    Bt601(c.red, c.green, c.blue)
  }
}
