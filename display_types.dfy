/**
 * The value types and presets of the display API (include/display.h).
 */
module DisplayTypes {

  /** `int16_t`, the type of the border thicknesses. */
  type Int16 = x: int | -0x8000 <= x < 0x8000

  /** `int32_t`, the type of the resolution's width and height. */
  type Int32 = x: int | -0x8000_0000 <= x < 0x8000_0000

  /** `interlace_mode_t` */
  datatype InterlaceMode =
    | InterlaceOff   // not interlaced
    | InterlaceHalf  // interlaced, buffer swapped on odd and even fields
    | InterlaceFull  // interlaced, buffer swapped only on even fields

  /** `vi_borders_t`: border thickness in dots of the 640x480 virtual output; may be negative. */
  datatype ViBorders = ViBorders(left: Int16, right: Int16, up: Int16, down: Int16)

  /** `resolution_t` */
  datatype Resolution = Resolution(
    width: Int32,
    height: Int32,
    interlaced: InterlaceMode,
    pal60: bool,
    borders: ViBorders)

  /** `bitdepth_t` */
  datatype BitDepth = Depth16Bpp | Depth32Bpp

  /** `gamma_t` */
  datatype Gamma = GammaNone | GammaCorrect | GammaCorrectDither

  /** `filter_options_t` */
  datatype FilterOptions =
    | FiltersDisabled
    | FiltersResample
    | FiltersDedither
    | FiltersResampleAntialias
    | FiltersResampleAntialiasDedither

  /** Deprecated `antialias_t` names, each an alias of one filter option. */
  const ANTIALIAS_OFF: FilterOptions := FiltersDisabled
  const ANTIALIAS_RESAMPLE: FilterOptions := FiltersResample
  const ANTIALIAS_RESAMPLE_FETCH_NEEDED: FilterOptions := FiltersResampleAntialias
  const ANTIALIAS_RESAMPLE_FETCH_ALWAYS: FilterOptions := FiltersResampleAntialiasDedither

  /** No borders: the full 640x480 virtual output. */
  const VI_BORDERS_NONE := ViBorders(0, 0, 0, 0)

  /** CRT overscan compensation, a 5% margin on each side. */
  const VI_BORDERS_CRT := ViBorders(32, 32, 24, 24)

  /** The resolution presets; `pal60` is left false, as C zero-initialises it. */
  const RESOLUTION_256x240 := Resolution(256, 240, InterlaceOff, false, VI_BORDERS_NONE)
  const RESOLUTION_320x240 := Resolution(320, 240, InterlaceOff, false, VI_BORDERS_NONE)
  const RESOLUTION_512x240 := Resolution(512, 240, InterlaceOff, false, VI_BORDERS_NONE)
  const RESOLUTION_640x240 := Resolution(640, 240, InterlaceOff, false, VI_BORDERS_NONE)
  const RESOLUTION_512x480 := Resolution(512, 480, InterlaceHalf, false, VI_BORDERS_NONE)
  const RESOLUTION_640x480 := Resolution(640, 480, InterlaceHalf, false, VI_BORDERS_NONE)

  const Presets: seq<Resolution> := [
    RESOLUTION_256x240, RESOLUTION_320x240, RESOLUTION_512x240,
    RESOLUTION_640x240, RESOLUTION_512x480, RESOLUTION_640x480
  ]

  /** The documented range of a resolution: width 2..800, height 1..720. */
  predicate DocumentedRange(res: Resolution)
  {
    2 <= res.width <= 800 && 1 <= res.height <= 720
  }

  /** `display_get_bitdepth` reports bytes per pixel. */
  function BytesPerPixel(bit: BitDepth): (r: nat)
    ensures r * 8 == (if bit == Depth16Bpp then 16 else 32)
  {
    if bit == Depth16Bpp then 2 else 4
  }

  /**
   * Every preset lies in the documented range, has no borders, and is
   * interlaced (INTERLACE_HALF) exactly when it is 480 lines high.
   */
  lemma PresetsShape()
    ensures forall p :: p in Presets ==>
              DocumentedRange(p) && p.borders == VI_BORDERS_NONE &&
              (p.interlaced == InterlaceHalf <==> p.height == 480) &&
              (p.interlaced == InterlaceOff <==> p.height == 240)
  {
  }
}
