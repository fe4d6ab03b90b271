/**
 * The pure part of `display_init` (src/display.c): the clamp of the buffer
 * count, the assertions on the requested mode, and the VI control value
 * built from bit depth, gamma and filter options.
 *
 * The VI register bit values are defined in vi.h, which is not part of this
 * model: each control bit is an abstract flag and `control |= X` adds the
 * flags of X to a set.
 */
module DisplayConfig {
  import opened Wrappers
  import opened DisplayTypes
  import FramebufferRing

  /** `MAX(1, MIN(NUM_BUFFERS, num_buffers))` */
  function ClampBuffers(numBuffers: nat): (r: nat)
    ensures 1 <= r <= FramebufferRing.NUM_BUFFERS
    ensures 1 <= numBuffers <= FramebufferRing.NUM_BUFFERS ==> r == numBuffers
    ensures numBuffers == 0 ==> r == 1
    ensures numBuffers > FramebufferRing.NUM_BUFFERS ==> r == FramebufferRing.NUM_BUFFERS
  {
    var capped := if numBuffers < FramebufferRing.NUM_BUFFERS then numBuffers else FramebufferRing.NUM_BUFFERS;
    if capped < 1 then 1 else capped
  }

  /** The flags of the VI control register that `display_init` may set. */
  datatype ViCtrlFlag =
    | PixelAdvanceDefault
    | PixelAdvanceBBPlayer
    | CtrlSerrate
    | CtrlType16Bpp
    | CtrlType32Bpp
    | GammaEnable
    | GammaDitherEnable
    | AaModeNone
    | AaModeResample
    | AaModeResampleFetchNeeded
    | AaModeResampleFetchAlways
    | DeditherFilterEnable
    | DivotEnable

  /** The `switch (bit)` of `display_init`. */
  function DepthFlags(bit: BitDepth): set<ViCtrlFlag>
  {
    match bit
    case Depth16Bpp => {CtrlType16Bpp}
    case Depth32Bpp => {CtrlType32Bpp}
  }

  /** The `switch (gamma)` of `display_init`. */
  function GammaFlags(gamma: Gamma): set<ViCtrlFlag>
  {
    match gamma
    case GammaNone => {}
    case GammaCorrect => {GammaEnable}
    case GammaCorrectDither => {GammaEnable, GammaDitherEnable}
  }

  /** The `switch (filters)` of `display_init`. */
  function FilterFlags(bit: BitDepth, filters: FilterOptions): set<ViCtrlFlag>
  {
    match filters
    case FiltersDisabled => {AaModeNone}
    case FiltersResample => {AaModeResample}
    case FiltersDedither =>
      if bit == Depth16Bpp then {AaModeNone, DeditherFilterEnable} else {AaModeNone}
    case FiltersResampleAntialias =>
      if bit == Depth16Bpp then {AaModeResampleFetchAlways, DivotEnable}
      else {AaModeResampleFetchNeeded, DivotEnable}
    case FiltersResampleAntialiasDedither =>
      if bit == Depth16Bpp then {AaModeResampleFetchAlways, DeditherFilterEnable, DivotEnable}
      else {AaModeResampleFetchNeeded, DivotEnable}
  }

  /**
   * The value `display_init` writes to the VI control register. `bbPlayer`
   * is the result of `sys_bbplayer()`; `serrate` is whether the resolution
   * is interlaced.
   */
  function ViControl(serrate: bool, bit: BitDepth, gamma: Gamma, filters: FilterOptions, bbPlayer: bool): (c: set<ViCtrlFlag>)
    ensures (PixelAdvanceBBPlayer in c) == bbPlayer && (PixelAdvanceDefault in c) == !bbPlayer
    ensures (CtrlSerrate in c) == serrate
    ensures (CtrlType16Bpp in c) == (bit == Depth16Bpp) && (CtrlType32Bpp in c) == (bit == Depth32Bpp)
    ensures (GammaEnable in c) == (gamma != GammaNone)
    ensures (GammaDitherEnable in c) == (gamma == GammaCorrectDither)
    ensures (AaModeNone in c) == (filters == FiltersDisabled || filters == FiltersDedither)
    ensures (AaModeResample in c) == (filters == FiltersResample)
    ensures (AaModeResampleFetchAlways in c) ==
              (bit == Depth16Bpp && (filters == FiltersResampleAntialias || filters == FiltersResampleAntialiasDedither))
    ensures (AaModeResampleFetchNeeded in c) ==
              (bit == Depth32Bpp && (filters == FiltersResampleAntialias || filters == FiltersResampleAntialiasDedither))
    ensures (DivotEnable in c) == (filters == FiltersResampleAntialias || filters == FiltersResampleAntialiasDedither)
    ensures (DeditherFilterEnable in c) ==
              (bit == Depth16Bpp && (filters == FiltersDedither || filters == FiltersResampleAntialiasDedither))
  {
    var control := if bbPlayer then {PixelAdvanceBBPlayer} else {PixelAdvanceDefault};
    var control := if serrate then control + {CtrlSerrate} else control;
    control + DepthFlags(bit) + GammaFlags(gamma) + FilterFlags(bit, filters)
  }

  /** The assertion of `display_init` that fails first. */
  datatype InitError =
    | FiltersNeedWidthAbove320  // FILTERS_DISABLED or FILTERS_DEDITHER at 16 bpp with width <= 320
    | NonPositiveWidth
    | NonPositiveHeight
    | WidthTooLarge             // width > 800
    | HeightTooLarge            // height > 720
    | WidthNotMultipleOf4       // at 16 bpp
    | WidthNotMultipleOf2       // at 32 bpp

  /** The requests `display_init` accepts, stated as one condition. */
  predicate AcceptedMode(res: Resolution, bit: BitDepth, filters: FilterOptions)
  {
    && 0 < res.width <= 800
    && 0 < res.height <= 720
    && (bit == Depth16Bpp ==> res.width % 4 == 0)
    && (bit == Depth32Bpp ==> res.width % 2 == 0)
    && (bit == Depth16Bpp && (filters == FiltersDisabled || filters == FiltersDedither) ==> res.width > 320)
  }

  /**
   * The assertions of `display_init`, checked in the order the C code
   * reaches them: the width check inside the filter switch first, then the
   * bounds, then the alignment for the bit depth.
   */
  function InitFailure(res: Resolution, bit: BitDepth, filters: FilterOptions): (r: Option<InitError>)
    ensures r.None? <==> AcceptedMode(res, bit, filters)
  {
    if bit == Depth16Bpp && (filters == FiltersDisabled || filters == FiltersDedither) && res.width <= 320 then
      Some(FiltersNeedWidthAbove320)
    else if res.width <= 0 then Some(NonPositiveWidth)
    else if res.height <= 0 then Some(NonPositiveHeight)
    else if res.width > 800 then Some(WidthTooLarge)
    else if res.height > 720 then Some(HeightTooLarge)
    else if bit == Depth16Bpp && res.width % 4 != 0 then Some(WidthNotMultipleOf4)
    else if bit == Depth32Bpp && res.width % 2 != 0 then Some(WidthNotMultipleOf2)
    else None
  }

  /** Whatever `display_init` accepts lies in the range the resolution type documents. */
  lemma AcceptedModeInDocumentedRange(res: Resolution, bit: BitDepth, filters: FilterOptions)
    requires AcceptedMode(res, bit, filters)
    ensures DocumentedRange(res)
    ensures BytesPerPixel(bit) * res.width % 8 == 0
  {
  }

  /** At 32 bpp, FILTERS_DEDITHER acts as FILTERS_DISABLED. */
  lemma Dedither32IsDisabled(serrate: bool, gamma: Gamma, bbPlayer: bool)
    ensures ViControl(serrate, Depth32Bpp, gamma, FiltersDedither, bbPlayer)
         == ViControl(serrate, Depth32Bpp, gamma, FiltersDisabled, bbPlayer)
  {
  }

  /** At 32 bpp, FILTERS_RESAMPLE_ANTIALIAS_DEDITHER acts as FILTERS_RESAMPLE_ANTIALIAS. */
  lemma AntialiasDedither32IsAntialias(serrate: bool, gamma: Gamma, bbPlayer: bool)
    ensures ViControl(serrate, Depth32Bpp, gamma, FiltersResampleAntialiasDedither, bbPlayer)
         == ViControl(serrate, Depth32Bpp, gamma, FiltersResampleAntialias, bbPlayer)
  {
  }

  /**
   * The presets pass every check with FILTERS_RESAMPLE at both depths; the
   * two presets 320 wide or narrower are refused FILTERS_DISABLED at 16 bpp.
   */
  lemma PresetsAccepted()
    ensures forall p, bit :: p in Presets ==> InitFailure(p, bit, FiltersResample).None?
    ensures InitFailure(RESOLUTION_256x240, Depth16Bpp, FiltersDisabled) == Some(FiltersNeedWidthAbove320)
    ensures InitFailure(RESOLUTION_320x240, Depth16Bpp, FiltersDisabled) == Some(FiltersNeedWidthAbove320)
    ensures InitFailure(RESOLUTION_640x480, Depth16Bpp, FiltersDisabled).None?
  {
  }
}
