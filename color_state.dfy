/// The HDR status of a display and its bit depth, resolved from one of the two
/// generations of the advanced-colour query (src/display.c:61-68, 144-188).
module ColorState {
  import opened DisplayConfig

  datatype HdrStatus = Unsupported | Off | On

  /// The bit depth reported when the colour query fails.
  const FallbackBitDepth: nat := 8

  datatype ColorCapability = ColorCapability(status: HdrStatus, bitDepth: nat)

  /// hdr_status_to_str: the three states render as three distinct words.
  function HdrStatusToStr(s: HdrStatus): (r: string)
    ensures r == "off" || r == "on" || r == "unsupported"
    ensures r == "on" <==> s == On
    ensures r == "off" <==> s == Off
    ensures r == "unsupported" <==> s == Unsupported
  {
    match s
    case Off => "off"
    case On => "on"
    case Unsupported => "unsupported"
  }

  /// The hdr_supported field and the hdr-supported property.
  function HdrSupported(s: HdrStatus): (b: bool)
    ensures b <==> s != Unsupported
    ensures s == On ==> b
  {
    s != Unsupported
  }

  /// The Windows 11 24H2 branch: HDR is on exactly when the active colour mode is HDR.
  function ResolveV2(q: Option<AdvancedColorInfo2>): (r: ColorCapability)
    ensures q.None? ==> r == ColorCapability(Unsupported, FallbackBitDepth)
    ensures q.Some? ==> r.bitDepth == q.value.bitsPerColorChannel
    ensures r.status == Unsupported <==> q.None? || !q.value.highDynamicRangeSupported
    ensures r.status == On <==>
              q.Some? && q.value.highDynamicRangeSupported && q.value.activeColorMode == Hdr
  {
    match q
    case None => ColorCapability(Unsupported, FallbackBitDepth)
    case Some(info) =>
      if !info.highDynamicRangeSupported then ColorCapability(Unsupported, info.bitsPerColorChannel)
      else if info.activeColorMode == Hdr then ColorCapability(On, info.bitsPerColorChannel)
      else ColorCapability(Off, info.bitsPerColorChannel)
  }

  /// The older branch: HDR is on exactly when advanced colour is enabled and
  /// wide colour is not enforced.
  function ResolveV1(q: Option<AdvancedColorInfo>): (r: ColorCapability)
    ensures q.None? ==> r == ColorCapability(Unsupported, FallbackBitDepth)
    ensures q.Some? ==> r.bitDepth == q.value.bitsPerColorChannel
    ensures r.status == Unsupported <==> q.None? || !q.value.advancedColorSupported
    ensures r.status == On <==>
              q.Some? && q.value.advancedColorSupported &&
              q.value.advancedColorEnabled && !q.value.wideColorEnforced
  {
    match q
    case None => ColorCapability(Unsupported, FallbackBitDepth)
    case Some(info) =>
      if !info.advancedColorSupported then ColorCapability(Unsupported, info.bitsPerColorChannel)
      else if info.advancedColorEnabled && !info.wideColorEnforced then ColorCapability(On, info.bitsPerColorChannel)
      else ColorCapability(Off, info.bitsPerColorChannel)
  }

  /// GetDisplayHDRStatusAndBitDepth: query the target mode's (adapterId, id)
  /// with the generation the OS version selects.
  function GetHdrStatusAndBitDepth(os: OsState, isWin11_24H2: bool, mode: ModeInfo): (r: ColorCapability)
    ensures isWin11_24H2 && ModeKey(mode) !in os.colorInfo2 ==> r == ColorCapability(Unsupported, FallbackBitDepth)
    ensures !isWin11_24H2 && ModeKey(mode) !in os.colorInfo ==> r == ColorCapability(Unsupported, FallbackBitDepth)
    ensures isWin11_24H2 && ModeKey(mode) in os.colorInfo2 ==>
              r.bitDepth == os.colorInfo2[ModeKey(mode)].bitsPerColorChannel
    ensures !isWin11_24H2 && ModeKey(mode) in os.colorInfo ==>
              r.bitDepth == os.colorInfo[ModeKey(mode)].bitsPerColorChannel
    ensures r.status != Unsupported ==>
              if isWin11_24H2 then ModeKey(mode) in os.colorInfo2 && os.colorInfo2[ModeKey(mode)].highDynamicRangeSupported
              else ModeKey(mode) in os.colorInfo && os.colorInfo[ModeKey(mode)].advancedColorSupported
  {
    if isWin11_24H2 then ResolveV2(Query(os.colorInfo2, ModeKey(mode)))
    else ResolveV1(Query(os.colorInfo, ModeKey(mode)))
  }

  /// The two generations disagree on the same display: a display with
  /// advanced colour enabled under enforced wide colour reads as off through
  /// the old query, while the new query reports the HDR mode as on.
  lemma GenerationsDisagree()
    ensures ResolveV1(Some(AdvancedColorInfo(true, true, true, 10))).status == Off
    ensures ResolveV2(Some(AdvancedColorInfo2(true, Hdr, 10))).status == On
    ensures ResolveV1(Some(AdvancedColorInfo(true, true, false, 10))).status == On
    ensures ResolveV2(Some(AdvancedColorInfo2(true, Wcg, 10))).status == Off
  {
  }
}
