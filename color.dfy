/** The color stage of `write_image` (src/main.cpp): a cell's accumulated
    intensity becomes an integer level, and the level a 24-bit color under
    one of two palettes. */
module Color {
  import opened Clamping

  datatype ColorMode = Bw | Heat

  /** A pixel as FreeImage's RGBQUAD holds it: three bytes. */
  datatype Rgb = Rgb(red: int, green: int, blue: int)

  predicate IsByteColor(c: Rgb) {
    0 <= c.red < 256 && 0 <= c.green < 256 && 0 <= c.blue < 256
  }

  /** The top level of each palette: 255 for grayscale, 511 for heat. */
  function TopLevel(mode: ColorMode): int {
    match mode
    case Bw => 255
    case Heat => 511
  }

  /** The integer level of a cell: with adaptive brightness the cell is first
      scaled so that the frame's maximum reaches the top level; the result is
      clamped to `[0, top]` and truncated. When the maximum is 0 the source
      divides 0 by 0 and casts the NaN to int, which C++ leaves undefined; the
      model gives level 0 there. */
  function Level(cell: real, peak: real, adaptive: bool, mode: ColorMode): (v: int)
    ensures 0 <= v <= TopLevel(mode)
    ensures !adaptive && 0.0 <= cell ==> v == if cell <= TopLevel(mode) as real then cell.Floor else TopLevel(mode)
    ensures adaptive && peak > 0.0 && cell >= peak ==> v == TopLevel(mode)
    ensures cell <= 0.0 && peak >= 0.0 ==> v == 0
  {
    var top := TopLevel(mode) as real;
    ScaleReachesTop(cell, top, peak);
    var scaled := if !adaptive then cell else if peak == 0.0 then 0.0 else cell * top / peak;
    Clamp(0.0, scaled, top).Floor
  }

  /** Scaling a cell at or above the maximum reaches the top level. */
  lemma ScaleReachesTop(cell: real, top: real, peak: real)
    ensures top >= 0.0 && peak > 0.0 && cell >= peak ==> cell * top / peak >= top
  {
    if top >= 0.0 && peak > 0.0 && cell >= peak {
      assert cell * top >= peak * top;
    }
  }

  lemma ScaleMonotone(c1: real, c2: real, top: real, peak: real)
    requires c1 <= c2 && top >= 0.0 && peak > 0.0
    ensures c1 * top / peak <= c2 * top / peak
  {
    assert c1 * top <= c2 * top;
  }

  /** A brighter cell never gets a lower level in the same frame. */
  lemma LevelMonotone(c1: real, c2: real, peak: real, adaptive: bool, mode: ColorMode)
    requires c1 <= c2 && peak >= 0.0
    ensures Level(c1, peak, adaptive, mode) <= Level(c2, peak, adaptive, mode)
  {
    var top := TopLevel(mode) as real;
    if adaptive && peak > 0.0 {
      ScaleMonotone(c1, c2, top, peak);
      ClampMonotone(0.0, c1 * top / peak, c2 * top / peak, top);
    } else {
      ClampMonotone(0.0, c1, c2, top);
    }
  }

  /** `clamp(0, x, 255)` stored into a byte. */
  function Channel(x: int): (c: int)
    ensures 0 <= c < 256
    ensures 0 <= x < 256 ==> c == x
  {
    Clamp(0.0, x as real, 255.0).Floor
  }

  /** An int stored into a byte: the value modulo 256. */
  function Byte(x: int): (b: int)
    ensures 0 <= b < 256
    ensures 0 <= x < 256 ==> b == x
  {
    x % 256
  }

  /** The color of a level. Grayscale stores the level in all three
      channels; heat runs from blue through green (levels 0 to 255) to red
      (levels 256 to 511). */
  function Shade(mode: ColorMode, v: int): (c: Rgb)
    ensures IsByteColor(c)
    ensures mode == Bw && 0 <= v < 256 ==> c == Rgb(v, v, v)
    ensures mode == Heat && 0 <= v < 256 ==> c == Rgb(0, v, 255 - v)
    ensures mode == Heat && 256 <= v <= 511 ==> c == Rgb(v - 256, 511 - v, 0)
  {
    match mode
    case Bw => Rgb(Byte(v), Byte(v), Byte(v))
    case Heat =>
      if v < 256 then Rgb(0, Channel(v), Channel(255 - v))
      else
        var w := v - 256;
        Rgb(Channel(w), Channel(255 - w), 0)
  }

  /** Along the heat ramp the three channels always add up to 255, and two
      levels share a color only at the joint of the two segments, where 255
      and 256 both give pure green. */
  lemma HeatRamp(v1: int, v2: int)
    requires 0 <= v1 <= 511 && 0 <= v2 <= 511
    ensures Shade(Heat, v1).red + Shade(Heat, v1).green + Shade(Heat, v1).blue == 255
    ensures Shade(Heat, v1) == Shade(Heat, v2) <==> v1 == v2 || (v1 in {255, 256} && v2 in {255, 256})
  {
  }

  /** The color of a cell: its level under the palette. */
  function PixelColor(cell: real, peak: real, adaptive: bool, mode: ColorMode): Rgb {
    Shade(mode, Level(cell, peak, adaptive, mode))
  }

  /** With adaptive brightness the cell holding the frame's maximum gets the
      brightest color of the palette: white, or pure red for heat. */
  lemma BrightestAtPeak(peak: real, mode: ColorMode)
    requires peak > 0.0
    ensures PixelColor(peak, peak, true, mode) == if mode == Bw then Rgb(255, 255, 255) else Rgb(255, 0, 0)
  {
  }

  /** An empty cell is black in grayscale but pure blue under heat. */
  lemma EmptyCellColor(peak: real, adaptive: bool)
    ensures PixelColor(0.0, peak, adaptive, Bw) == Rgb(0, 0, 0)
    ensures PixelColor(0.0, peak, adaptive, Heat) == Rgb(0, 0, 255)
  {
  }
}
