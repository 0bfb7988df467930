/**
 The glyph mapper `mapBrightnessToChar`: brightness is quantised to an index
 into a dense -> sparse -> empty ramp, bright cells taking dense glyphs.
 */
module Glyph {
  import opened Settings

  /** `CHAR_PALETTES[key] || CHAR_PALETTES.standard`. */
  function Ramp(key: string): (chars: string)
    ensures |chars| >= 1 && chars[|chars| - 1] == ' '
    ensures key in CharPalettes ==> chars == CharPalettes[key]
    ensures key !in CharPalettes ==> chars == CharPalettes[FallbackPalette]
  {
    PalettesEndWithSpace();
    PaletteNames();
    if key in CharPalettes && CharPalettes[key] != "" then CharPalettes[key]
    else CharPalettes[FallbackPalette]
  }

  /** `floor((1 - brightness / 255) * (len - 1))`, clamped to [0, len - 1]. */
  function GlyphIndex(brightness: real, len: nat): (k: nat)
    requires len >= 1
    ensures k < len
    ensures brightness >= 255.0 ==> k == 0
    ensures brightness <= 0.0 ==> k == len - 1
  {
    var index := ((1.0 - brightness / 255.0) * (len - 1) as real).Floor;
    if index < 0 then 0 else if index > len - 1 then len - 1 else index
  }

  /** On [0, 255] no clamping happens: the index is the bucket k with
      k <= (1 - brightness / 255) * (len - 1) < k + 1, i.e. the ramp is cut
      into len - 1 equal brightness bands, brightest first. */
  lemma GlyphIndexBucket(brightness: real, len: nat)
    requires len >= 1 && 0.0 <= brightness <= 255.0
    ensures var k := GlyphIndex(brightness, len) as real;
            k * 255.0 <= (255.0 - brightness) * (len - 1) as real < (k + 1.0) * 255.0
  {
    var x := (1.0 - brightness / 255.0) * (len - 1) as real;
    var a := 1.0 - brightness / 255.0;
    assert 0.0 <= a <= 1.0;
    assert a * (len - 1) as real <= 1.0 * (len - 1) as real;
    assert 0.0 <= a * (len - 1) as real by { NonNegProduct(a, (len - 1) as real); }
    assert 0.0 <= x <= (len - 1) as real;
    assert x * 255.0 == (255.0 - brightness) * (len - 1) as real;
  }

  /** A brighter cell never gets a sparser glyph. */
  lemma GlyphIndexAntitone(b1: real, b2: real, len: nat)
    requires len >= 1 && b1 <= b2
    ensures GlyphIndex(b2, len) <= GlyphIndex(b1, len)
  {
    var x1 := (1.0 - b1 / 255.0) * (len - 1) as real;
    var x2 := (1.0 - b2 / 255.0) * (len - 1) as real;
    assert x2 <= x1;
  }

  /** The glyph of the selected ramp (the fallback ramp for unknown names). */
  function MapBrightnessToChar(brightness: real, key: string): (ch: char)
    ensures ch in Ramp(key)
    ensures key !in CharPalettes ==> ch in CharPalettes[FallbackPalette]
    ensures brightness >= 255.0 ==> ch == Ramp(key)[0]
    ensures brightness <= 0.0 ==> ch == ' '
  {
    var chars := Ramp(key);
    chars[GlyphIndex(brightness, |chars|)]
  }

  /** Whitespace as `String.prototype.trim` removes it, restricted to the
      characters that can appear in a ramp or a common text file. */
  predicate IsBlank(ch: char)
  {
    ch in {' ', '\t', '\n', '\r', '\U{000B}', '\U{000C}', '\U{00A0}', '\U{FEFF}'}
  }

  /** For every registered palette, full brightness draws the densest glyph
      and zero brightness the empty one, which is never drawn. */
  lemma RampEnds(key: string)
    requires key in CharPalettes
    ensures MapBrightnessToChar(255.0, key) == CharPalettes[key][0]
    ensures MapBrightnessToChar(0.0, key) == ' ' && IsBlank(MapBrightnessToChar(0.0, key))
    ensures !IsBlank(MapBrightnessToChar(255.0, key))
  {
    PaletteNames();
    var first := CharPalettes[key][0];
    if key == "encryption" {
      assert first == '0';
    } else if key == "standard" {
      assert first == '@';
    } else {
      assert key == "complex";
      assert first == '$';
    }
  }

  lemma NonNegProduct(a: real, b: real)
    requires 0.0 <= a && 0.0 <= b
    ensures 0.0 <= a * b
  {
  }
}
