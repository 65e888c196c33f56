/// The snapshot of what the Windows display-configuration APIs report to the
/// plugin during one pass: the active paths and mode records returned by
/// QueryDisplayConfig, and the answers DisplayConfigGetDeviceInfo gives for
/// each (adapter id, id) pair. Every OS call of src/display.c is an input here.
module DisplayConfig {

  datatype Option<+T> = None | Some(value: T)

  /// A LUID adapter identifier; the source compares its two halves separately
  /// (HighPart is a signed LONG, LowPart an unsigned DWORD).
  datatype AdapterId = AdapterId(highPart: int, lowPart: nat)

  /// The (adapterId, id) pair that names a path source or a path target, and
  /// the header of every DisplayConfigGetDeviceInfo request.
  datatype DeviceKey = DeviceKey(adapterId: AdapterId, id: nat)

  /// DISPLAYCONFIG_RATIONAL: an unsigned numerator over an unsigned denominator.
  datatype Rational = Rational(numerator: nat, denominator: nat)

  /// DISPLAYCONFIG_VIDEO_OUTPUT_TECHNOLOGY: the five values the plugin names,
  /// and every other value of the enumeration.
  datatype OutputTechnology =
    | Hdmi
    | DisplayPortExternal
    | DisplayPortEmbedded
    | Dvi
    | Internal
    | OtherTechnology(code: int)  // any value outside the five named ones

  /// DISPLAYCONFIG_PATH_INFO, reduced to the fields the plugin reads.
  datatype PathInfo = PathInfo(
    sourceInfo: DeviceKey,
    targetInfo: DeviceKey,
    refreshRate: Rational,
    outputTechnology: OutputTechnology)

  /// DISPLAYCONFIG_MODE_INFO: a record tagged by infoType; only a SOURCE
  /// record carries the source-mode width and height.
  datatype ModeInfo =
    | SourceMode(adapterId: AdapterId, id: nat, width: nat, height: nat)
    | TargetMode(adapterId: AdapterId, id: nat)
    | DesktopImageMode(adapterId: AdapterId, id: nat)

  /// The arrays filled by a successful QueryDisplayConfig(QDC_ONLY_ACTIVE_PATHS).
  datatype ActiveConfig = ActiveConfig(paths: seq<PathInfo>, modes: seq<ModeInfo>)

  /// DISPLAYCONFIG_ADVANCED_COLOR_MODE.
  datatype AdvancedColorMode = Sdr | Wcg | Hdr

  /// DISPLAYCONFIG_GET_ADVANCED_COLOR_INFO (the query before Windows 11 24H2).
  datatype AdvancedColorInfo = AdvancedColorInfo(
    advancedColorSupported: bool,
    advancedColorEnabled: bool,
    wideColorEnforced: bool,
    bitsPerColorChannel: nat)

  /// DISPLAYCONFIG_GET_ADVANCED_COLOR_INFO_2 (Windows 11 24H2 and later).
  datatype AdvancedColorInfo2 = AdvancedColorInfo2(
    highDynamicRangeSupported: bool,
    activeColorMode: AdvancedColorMode,
    bitsPerColorChannel: nat)

  /// What the OS answers during one pass. A key missing from one of the maps
  /// means that DisplayConfigGetDeviceInfo failed for that request.
  datatype OsState = OsState(
    monitorDevice: Option<string>,                   // GetMonitorInfo: szDevice of the window's monitor
    activeConfig: Option<ActiveConfig>,              // GetDisplayConfigBufferSizes + QueryDisplayConfig
    sourceNames: map<DeviceKey, string>,             // GET_SOURCE_NAME: viewGdiDeviceName
    targetNames: map<DeviceKey, string>,             // GET_TARGET_NAME: monitorFriendlyDeviceName
    colorInfo: map<DeviceKey, AdvancedColorInfo>,    // GET_ADVANCED_COLOR_INFO
    colorInfo2: map<DeviceKey, AdvancedColorInfo2>)  // GET_ADVANCED_COLOR_INFO_2

  /// One DisplayConfigGetDeviceInfo request: the answer, or None on failure.
  function Query<V>(answers: map<DeviceKey, V>, key: DeviceKey): Option<V>
  {
    if key in answers then Some(answers[key]) else None
  }

  /// The request header a mode record produces (mode->adapterId, mode->id).
  function ModeKey(m: ModeInfo): DeviceKey
  {
    DeviceKey(m.adapterId, m.id)
  }
}
