/// Concrete OS snapshots worked through by proof: two monitors, clone mode, and
/// a set call the OS accepts without changing the state.
module Scenarios {
  import opened DisplayConfig
  import opened ColorState
  import opened Correlator
  import opened DisplayRecords
  import opened DisplayList
  import opened HdrToggle

  const Adapter := AdapterId(0, 0x1234)
  const PrimarySource := DeviceKey(Adapter, 0)
  const SecondarySource := DeviceKey(Adapter, 1)
  const PrimaryTarget := DeviceKey(Adapter, 4352)
  const SecondaryTarget := DeviceKey(Adapter, 4353)

  /// A DisplayPort monitor at 3840x2160@120 and an HDMI monitor at 1920x1080@60.
  const TwoPaths := [
    PathInfo(PrimarySource, PrimaryTarget, Rational(120000, 1000), DisplayPortExternal),
    PathInfo(SecondarySource, SecondaryTarget, Rational(60, 1), Hdmi)]

  const TwoModes := [
    SourceMode(Adapter, 0, 3840, 2160), TargetMode(Adapter, 4352),
    SourceMode(Adapter, 1, 1920, 1080), TargetMode(Adapter, 4353)]

  /// The window is on the first monitor, which is HDR-capable, on and 10-bit;
  /// the second one is not HDR-capable and 8-bit.
  const TwoMonitors := OsState(
    Some("DISPLAY1"),
    Some(ActiveConfig(TwoPaths, TwoModes)),
    map[PrimarySource := "DISPLAY1", SecondarySource := "DISPLAY2"],
    map[PrimaryTarget := "Studio HDR", SecondaryTarget := "Office"],
    map[],
    map[PrimaryTarget := AdvancedColorInfo2(true, Hdr, 10),
        SecondaryTarget := AdvancedColorInfo2(false, Sdr, 8)])

  /// Two records in path order, the first one current and on at 10 bits, the
  /// second one unsupported at 8 bits; the display-info record is the first.
  lemma TwoMonitorList()
    ensures var rs := Records(TwoMonitors, true, TwoModes, TwoPaths);
            |rs| == 2 &&
            rs[0].current && rs[0].hdrStatus == On && rs[0].hdrSupported && rs[0].bitDepth == 10 &&
            rs[0].width == 3840 && rs[0].height == 2160 && rs[0].technology == "DisplayPort" &&
            rs[0].name == "Studio HDR" && rs[0].uid == "4352" &&
            !rs[1].current && rs[1].hdrStatus == Unsupported && !rs[1].hdrSupported && rs[1].bitDepth == 8 &&
            rs[1].technology == "HDMI" && rs[1].uid == "4353" &&
            LastCurrent(rs) == Some(rs[0])
    ensures Correlate(TwoMonitors) == Some(TargetMode(Adapter, 4352))
  {
    var p0 := TwoPaths[0];
    var p1 := TwoPaths[1];
    assert FirstMode(TwoModes, TargetKind, p0.targetInfo) == Some(1);
    assert FirstMode(TwoModes, SourceKind, p0.sourceInfo) == Some(0);
    assert TwoModes[1..][1..] == TwoModes[2..];
    assert FirstMode(TwoModes[2..], TargetKind, p1.targetInfo) == Some(1);
    assert FirstMode(TwoModes, TargetKind, p1.targetInfo) == Some(3);
    assert FirstMode(TwoModes, SourceKind, p1.sourceInfo) == Some(2);
    assert TwoPaths[..1] == [p0] && TwoPaths[..1][..0] == [];
    assert DecimalString(4352) == "4352";
    assert DecimalString(4353) == "4353";
    assert CorrelatePaths(TwoPaths, TwoModes, "DISPLAY1", TwoMonitors.sourceNames) == Some(TwoModes[1]);
  }

  /// In clone mode two paths share one source: both records are current,
  /// while the toggle acts on the first path's target and the display-info
  /// properties describe the last one.
  const ClonePaths := [
    PathInfo(PrimarySource, PrimaryTarget, Rational(60, 1), Hdmi),
    PathInfo(PrimarySource, SecondaryTarget, Rational(60, 1), Hdmi)]

  const CloneModes := [SourceMode(Adapter, 0, 1920, 1080), TargetMode(Adapter, 4352), TargetMode(Adapter, 4353)]

  const CloneMode := OsState(
    Some("DISPLAY1"),
    Some(ActiveConfig(ClonePaths, CloneModes)),
    map[PrimarySource := "DISPLAY1"],
    map[],
    map[],
    map[])

  /// The first clone path yields a current record.
  lemma ClonePrimaryRecord()
    ensures var r := PathRecord(CloneMode, true, CloneModes, ClonePaths[0]);
            r.Some? && r.value.current
  {
    assert FirstMode(CloneModes, TargetKind, ClonePaths[0].targetInfo) == Some(1);
  }

  /// The second clone path yields a current record for target 4353.
  lemma CloneSecondaryRecord()
    ensures var r := PathRecord(CloneMode, true, CloneModes, ClonePaths[1]);
            r.Some? && r.value.current && r.value.uid == "4353"
  {
    assert FirstMode(CloneModes[1..], TargetKind, ClonePaths[1].targetInfo) == Some(1);
    assert FirstMode(CloneModes, TargetKind, ClonePaths[1].targetInfo) == Some(2);
    assert DecimalString(4353) == "4353";
  }

  /// Both clone paths yield a current record, the second one for target 4353.
  lemma CloneModeRecords()
    ensures var rs := Records(CloneMode, true, CloneModes, ClonePaths);
            |rs| == 2 && rs[0].current && rs[1].current && rs[1].uid == "4353"
  {
    ClonePrimaryRecord();
    CloneSecondaryRecord();
    assert ClonePaths[..1] == [ClonePaths[0]] && ClonePaths[..1][..0] == [];
  }

  lemma CloneModeHasTwoCurrentRecords()
    ensures var rs := Records(CloneMode, true, CloneModes, ClonePaths);
            CountCurrent(rs) == 2 && LastCurrent(rs).Some? && LastCurrent(rs).value.uid == "4353"
    ensures Correlate(CloneMode) == Some(TargetMode(Adapter, 4352))
  {
    CloneModeRecords();
    var rs := Records(CloneMode, true, CloneModes, ClonePaths);
    assert rs[..1] == [rs[0]] && rs[..1][..0] == [];
    assert CountCurrent(rs[..1]) == 1;
    assert LastCurrent(rs) == Some(rs[1]);
    assert FirstMode(CloneModes, TargetKind, ClonePaths[0].targetInfo) == Some(1);
    assert CorrelatePaths(ClonePaths, CloneModes, "DISPLAY1", CloneMode.sourceNames) == Some(CloneModes[1]);
  }

  /// A set call the OS accepts without switching HDR on: the outcome reports
  /// the re-queried "off", not the requested "on".
  const HdrOffMonitor := OsState(
    Some("DISPLAY1"),
    Some(ActiveConfig(TwoPaths[..1], TwoModes[..2])),
    map[PrimarySource := "DISPLAY1"],
    map[],
    map[],
    map[PrimaryTarget := AdvancedColorInfo2(true, Sdr, 10)])

  lemma AcceptedSetIsReQueried(render: DisplayRecord -> string)
    ensures var r := ToggleSpec([ToggleCommand, "on"], HdrOffMonitor, true, Some(HdrOffMonitor), render);
            r.Changed? && r.request == SetHdrState(PrimaryTarget, true) && r.status == Off &&
            ToggleMessage(r) == Some("HDR disabled")
  {
    assert FirstMode(TwoModes[..2], TargetKind, PrimaryTarget) == Some(1);
    assert Correlate(HdrOffMonitor) == Some(TargetMode(Adapter, 4352));
  }
}
