/// The per-path display record of update_display_list: its uid, name,
/// colour state, geometry, refresh rate, technology and current flag
/// (src/display.c:229-241, 272-363).
module DisplayRecords {
  import opened DisplayConfig
  import opened ColorState
  import opened Correlator

  const UnknownName := "Unknown"

  /// A refresh rate of zero, the value the record keeps when no source mode
  /// matches or the path's denominator is zero.
  const ZeroRate := Rational(0, 1)

  /// One element of the display list (and the current-display record).
  datatype DisplayRecord = DisplayRecord(
    name: string,
    uid: string,
    hdrSupported: bool,
    hdrStatus: HdrStatus,
    width: nat,
    height: nat,
    refreshRate: Rational,
    bitDepth: nat,
    technology: string,
    current: bool)

  function DigitChar(d: nat): char
    requires d < 10
  {
    ('0' as int + d) as char
  }

  function DigitValue(c: char): nat
  {
    if '0' <= c <= '9' then c as int - '0' as int else 0
  }

  /// The "%u" rendering of an unsigned integer.
  function DecimalString(n: nat): (s: string)
    ensures |s| > 0
    ensures |s| == 1 <==> n < 10
    ensures forall k :: 0 <= k < |s| ==> '0' <= s[k] <= '9'
    ensures |s| > 1 ==> s[0] != '0'
    decreases n
  {
    if n < 10 then [DigitChar(n)]
    else DecimalString(n / 10) + [DigitChar(n % 10)]
  }

  /// Reading a string of decimal digits back as a number.
  function DecimalValue(s: string): nat
  {
    if |s| == 0 then 0 else DecimalValue(s[..|s| - 1]) * 10 + DigitValue(s[|s| - 1])
  }

  /// The uid string determines the mode id it was printed from.
  lemma {:induction false} DecimalRoundTrip(n: nat)
    ensures DecimalValue(DecimalString(n)) == n
    decreases n
  {
    if n >= 10 {
      var s := DecimalString(n);
      DecimalRoundTrip(n / 10);
      assert s[..|s| - 1] == DecimalString(n / 10);
    }
  }

  /// GetMonitorName followed by the empty-name check: the friendly name when
  /// the query succeeds with a non-empty name, "Unknown" otherwise.
  function DisplayName(friendly: Option<string>): (r: string)
    ensures r != []
    ensures friendly.Some? && friendly.value != [] ==> r == friendly.value
    ensures friendly.None? || friendly.value == [] ==> r == UnknownName
  {
    match friendly
    case Some(name) => if name == [] then UnknownName else name
    case None => UnknownName
  }

  /// The output-technology switch.
  function TechnologyName(t: OutputTechnology): (r: string)
    ensures r in ["HDMI", "DisplayPort", "eDP", "DVI", "Internal", "Unknown"]
    ensures r == "Unknown" <==> t.OtherTechnology?
    ensures r == "HDMI" <==> t == Hdmi
    ensures r == "DisplayPort" <==> t == DisplayPortExternal
    ensures r == "eDP" <==> t == DisplayPortEmbedded
    ensures r == "DVI" <==> t == Dvi
    ensures r == "Internal" <==> t == Internal
  {
    match t
    case Hdmi => "HDMI"
    case DisplayPortExternal => "DisplayPort"
    case DisplayPortEmbedded => "eDP"
    case Dvi => "DVI"
    case Internal => "Internal"
    case OtherTechnology(_) => "Unknown"
  }

  /// The path's source is the window's monitor: GetMonitorInfo succeeded, the
  /// source-name query succeeded and the two device names are equal.
  predicate IsCurrent(os: OsState, p: PathInfo)
  {
    os.monitorDevice.Some? && SourceNameIs(os.sourceNames, p, os.monitorDevice.value)
  }

  /// The fields of one record, given the path, its target mode and the source
  /// mode the inner search found (if any).
  function MakeRecord(os: OsState, isWin11_24H2: bool, p: PathInfo, target: ModeInfo,
                      source: Option<ModeInfo>): DisplayRecord
  {
    var color := GetHdrStatusAndBitDepth(os, isWin11_24H2, target);
    var hasSource := source.Some? && source.value.SourceMode?;
    DisplayRecord(
      DisplayName(Query(os.targetNames, ModeKey(target))),
      DecimalString(target.id),
      HdrSupported(color.status),
      color.status,
      if hasSource then source.value.width else 0,
      if hasSource then source.value.height else 0,
      if hasSource && p.refreshRate.denominator != 0 then p.refreshRate else ZeroRate,
      color.bitDepth,
      TechnologyName(p.outputTechnology),
      IsCurrent(os, p))
  }

  /// The record update_display_list emits for one path: none when no TARGET
  /// mode matches the path's target.
  function PathRecord(os: OsState, isWin11_24H2: bool, modes: seq<ModeInfo>, p: PathInfo): (r: Option<DisplayRecord>)
    ensures r.Some? <==> FirstMode(modes, TargetKind, p.targetInfo).Some?
    ensures r.Some? ==>
              var target := modes[FirstMode(modes, TargetKind, p.targetInfo).value];
              r.value.uid == DecimalString(target.id) && DecimalValue(r.value.uid) == target.id &&
              r.value.name == DisplayName(Query(os.targetNames, ModeKey(target))) &&
              r.value.hdrStatus == GetHdrStatusAndBitDepth(os, isWin11_24H2, target).status &&
              r.value.bitDepth == GetHdrStatusAndBitDepth(os, isWin11_24H2, target).bitDepth
    ensures r.Some? ==> r.value.name != []
    ensures r.Some? ==> (r.value.hdrSupported <==> r.value.hdrStatus != Unsupported)
    ensures r.Some? ==> r.value.refreshRate.denominator > 0
    ensures r.Some? ==> r.value.technology == TechnologyName(p.outputTechnology)
    ensures r.Some? ==> (r.value.current <==> IsCurrent(os, p))
    ensures r.Some? && FirstMode(modes, SourceKind, p.sourceInfo).None? ==>
              r.value.width == 0 && r.value.height == 0 && r.value.refreshRate == ZeroRate
    ensures r.Some? && p.refreshRate.denominator == 0 ==> r.value.refreshRate == ZeroRate
    ensures r.Some? && FirstMode(modes, SourceKind, p.sourceInfo).Some? ==>
              var source := modes[FirstMode(modes, SourceKind, p.sourceInfo).value];
              source.SourceMode? && r.value.width == source.width && r.value.height == source.height &&
              (p.refreshRate.denominator != 0 ==> r.value.refreshRate == p.refreshRate)
  {
    match FirstMode(modes, TargetKind, p.targetInfo)
    case None => None
    case Some(j) =>
      DecimalRoundTrip(modes[j].id);
      var s := FirstMode(modes, SourceKind, p.sourceInfo);
      Some(MakeRecord(os, isWin11_24H2, p, modes[j], if s.Some? then Some(modes[s.value]) else None))
  }

  /// The records of a sequence of paths, in path order.
  function Records(os: OsState, isWin11_24H2: bool, modes: seq<ModeInfo>, paths: seq<PathInfo>): (rs: seq<DisplayRecord>)
    ensures |rs| <= |paths|
    ensures forall k :: 0 <= k < |rs| ==> (rs[k].hdrSupported <==> rs[k].hdrStatus != Unsupported)
    ensures forall k :: 0 <= k < |rs| ==> rs[k].name != [] && rs[k].refreshRate.denominator > 0
  {
    if |paths| == 0 then []
    else
      var prefix := Records(os, isWin11_24H2, modes, paths[..|paths| - 1]);
      match PathRecord(os, isWin11_24H2, modes, paths[|paths| - 1])
      case None => prefix
      case Some(r) => prefix + [r]
  }

  /// The last record flagged current: snprintf into current_json and the
  /// display-info properties are overwritten by every current record.
  function LastCurrent(rs: seq<DisplayRecord>): (c: Option<DisplayRecord>)
    ensures c.Some? ==> c.value in rs && c.value.current
    ensures c.None? ==> forall k :: 0 <= k < |rs| ==> !rs[k].current
    ensures c.Some? ==> exists k :: 0 <= k < |rs| && rs[k] == c.value && forall h :: k < h < |rs| ==> !rs[h].current
  {
    if |rs| == 0 then None
    else if rs[|rs| - 1].current then Some(rs[|rs| - 1])
    else
      var c := LastCurrent(rs[..|rs| - 1]);
      assert forall k :: 0 <= k < |rs| - 1 ==> rs[k] == rs[..|rs| - 1][k];
      c
  }

  /// The number of records flagged current.
  function CountCurrent(rs: seq<DisplayRecord>): nat
  {
    if |rs| == 0 then 0
    else CountCurrent(rs[..|rs| - 1]) + (if rs[|rs| - 1].current then 1 else 0)
  }

  /// No record is current when no path's source is the window's monitor.
  lemma {:induction false} NoCurrentWithoutMatch(os: OsState, isWin11_24H2: bool, modes: seq<ModeInfo>, paths: seq<PathInfo>)
    requires forall k :: 0 <= k < |paths| ==> !IsCurrent(os, paths[k])
    ensures CountCurrent(Records(os, isWin11_24H2, modes, paths)) == 0
    ensures LastCurrent(Records(os, isWin11_24H2, modes, paths)).None?
    decreases |paths|
  {
    if |paths| > 0 {
      var prefix := paths[..|paths| - 1];
      assert forall k :: 0 <= k < |prefix| ==> prefix[k] == paths[k];
      NoCurrentWithoutMatch(os, isWin11_24H2, modes, prefix);
      var rs := Records(os, isWin11_24H2, modes, paths);
      var ps := Records(os, isWin11_24H2, modes, prefix);
      if rs != ps {
        assert rs[..|rs| - 1] == ps;
      }
    }
  }

  /// At most one record is current when at most one path's source is the
  /// window's monitor (in clone mode two paths share a source and both are).
  lemma {:induction false} AtMostOneCurrent(os: OsState, isWin11_24H2: bool, modes: seq<ModeInfo>, paths: seq<PathInfo>)
    requires forall a, b :: 0 <= a < b < |paths| && IsCurrent(os, paths[a]) ==> !IsCurrent(os, paths[b])
    ensures CountCurrent(Records(os, isWin11_24H2, modes, paths)) <= 1
    decreases |paths|
  {
    if |paths| > 0 {
      var prefix := paths[..|paths| - 1];
      assert forall k :: 0 <= k < |prefix| ==> prefix[k] == paths[k];
      AtMostOneCurrent(os, isWin11_24H2, modes, prefix);
      var rs := Records(os, isWin11_24H2, modes, paths);
      var ps := Records(os, isWin11_24H2, modes, prefix);
      if rs != ps {
        assert rs[..|rs| - 1] == ps;
        if rs[|rs| - 1].current {
          NoCurrentWithoutMatch(os, isWin11_24H2, modes, prefix);
        }
      }
    }
  }

  /// A path that correlates with the window's monitor yields a current record.
  lemma {:induction false} CorrelatedPathGivesCurrent(os: OsState, isWin11_24H2: bool, modes: seq<ModeInfo>,
                                                      paths: seq<PathInfo>, i: nat)
    requires i < |paths| && os.monitorDevice.Some?
    requires Correlates(paths[i], modes, os.monitorDevice.value, os.sourceNames)
    ensures LastCurrent(Records(os, isWin11_24H2, modes, paths)).Some?
    decreases |paths|
  {
    var rs := Records(os, isWin11_24H2, modes, paths);
    var last := paths[|paths| - 1];
    if i == |paths| - 1 {
      var r := PathRecord(os, isWin11_24H2, modes, last);
      assert r.Some? && r.value.current;
      assert rs[|rs| - 1] == r.value;
    } else {
      var prefix := paths[..|paths| - 1];
      assert prefix[i] == paths[i];
      CorrelatedPathGivesCurrent(os, isWin11_24H2, modes, prefix, i);
      var ps := Records(os, isWin11_24H2, modes, prefix);
      if rs != ps {
        assert rs[..|rs| - 1] == ps;
      }
    }
  }
}
