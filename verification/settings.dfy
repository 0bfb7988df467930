/**
 The parameter record `ProcessSettings`, the glyph ramps `CHAR_PALETTES`
 and the defaults `DEFAULT_SETTINGS`. Numeric fields are JavaScript
 numbers, modelled as `real`; the renderer never re-validates them.
 */
module Settings {

  datatype ColorMode = Mono | Cyber | Spectral | Original

  datatype ProcessSettings = ProcessSettings(
    asciiDensity: real,         // grid step in pixels (lower = denser)
    particleDensity: real,      // base particle chance, in percent
    brightnessThreshold: real,  // cells darker than this are skipped
    particleThreshold: real,    // cells brighter than this may spawn a particle
    fontSize: real,
    palette: string,
    colorMode: ColorMode)

  /** Each ramp runs dense -> sparse -> empty. */
  const CharPalettes: map<string, string> := map[
    "encryption" := "081LCGftli;:., ",
    "standard" := "@%#*+=-:. ",
    // the 70-glyph ramp, written ten glyphs per piece
    "complex" := "$@B%8&WM#*" + "oahkbdpqwm" + "ZO0QLCJUYX" + "zcvunxrjft"
                 + "/\\|()1{}[]" + "?-_+~<>i!l" + "I;:,\"^`'. "
  ]

  /** The ramp the glyph mapper falls back to for an unknown palette name. */
  const FallbackPalette: string := "standard"

  const DefaultSettings: ProcessSettings := ProcessSettings(
    asciiDensity := 8.0,
    particleDensity := 25.0,
    brightnessThreshold := 15.0,
    particleThreshold := 180.0,
    fontSize := 12.0,
    palette := "encryption",
    colorMode := Spectral)

  /** The slider ranges of the control panel (components/Controls.tsx). */
  predicate WithinControlRanges(s: ProcessSettings)
  {
    && 4.0 <= s.asciiDensity <= 20.0
    && 0.0 <= s.particleDensity <= 100.0
    && 0.0 <= s.brightnessThreshold <= 100.0
    && 50.0 <= s.particleThreshold <= 250.0
    && 6.0 <= s.fontSize <= 24.0
  }

  /** Every ramp is non-empty and ends with the empty glyph, a space. */
  lemma PalettesEndWithSpace()
    ensures forall key :: key in CharPalettes ==>
              |CharPalettes[key]| >= 1 && CharPalettes[key][|CharPalettes[key]| - 1] == ' '
  {
  }

  /** The registered names are exactly these three; the fallback and the
      default palette are among them. */
  lemma PaletteNames()
    ensures CharPalettes.Keys == {"encryption", "standard", "complex"}
    ensures FallbackPalette in CharPalettes
    ensures DefaultSettings.palette in CharPalettes
  {
  }

  /** The defaults lie inside the control ranges, and the highlight cutoff
      stays below 255, so the particle factor's denominator is positive. */
  lemma DefaultsWithinControlRanges()
    ensures WithinControlRanges(DefaultSettings)
    ensures DefaultSettings.particleThreshold < 255.0
  {
  }
}
