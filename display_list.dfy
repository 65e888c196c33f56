/// The display list of update_display_list: the records written one after
/// another into a fixed 8192-byte buffer with a write cursor, the
/// current-display record, and update_mpv_properties around it
/// (src/display.c:243-419).
module DisplayList {
  import opened DisplayConfig
  import opened ColorState
  import opened Correlator
  import opened DisplayRecords

  /// sizeof(json): the last usable cursor position is JsonCapacity - 1.
  const JsonCapacity: nat := 8192
  /// sizeof(current_json).
  const CurrentCapacity: nat := 1024

  /// What one pass publishes: display-list/full, display-list/current and the
  /// record behind the display-info properties.
  datatype Published = Published(full: string, current: string, info: Option<DisplayRecord>)

  /// The buffer after the ',' that is committed before a record is attempted.
  function WithSeparator(acc: string): string
  {
    if |acc| > 1 then acc + [','] else acc
  }

  /// One record attempt: while the cursor is below JsonCapacity - 1, the
  /// separator is committed, then the record only if its whole length is
  /// positive and below the remaining room; a full buffer is left alone.
  function AppendStep(acc: string, part: string): (r: string)
    requires 1 <= |acc| < JsonCapacity
    ensures |acc| <= |r| < JsonCapacity
    ensures r[..|acc|] == acc
    ensures |acc| == JsonCapacity - 1 ==> r == acc
    ensures |acc| < JsonCapacity - 1 && 0 < |part| < JsonCapacity - |WithSeparator(acc)| ==>
              r == WithSeparator(acc) + part
    ensures |acc| < JsonCapacity - 1 && !(0 < |part| < JsonCapacity - |WithSeparator(acc)|) ==>
              r == WithSeparator(acc)
  {
    if |acc| < JsonCapacity - 1 then
      var a := WithSeparator(acc);
      if 0 < |part| < JsonCapacity - |a| then a + part else a
    else acc
  }

  /// The committed bytes json[..json_len] after the given record strings.
  function ListBody(parts: seq<string>): (r: string)
    ensures 1 <= |r| < JsonCapacity
    ensures r[0] == '['
  {
    if |parts| == 0 then "["
    else
      var prefix := ListBody(parts[..|parts| - 1]);
      var r := AppendStep(prefix, parts[|parts| - 1]);
      assert r[0] == r[..|prefix|][0];
      r
  }

  /// The closing bracket: appended when there is room, otherwise written over
  /// the last committed byte.
  function CloseList(body: string): (r: string)
    requires 1 <= |body| < JsonCapacity
    ensures 2 <= |r| < JsonCapacity
    ensures r[0] == body[0] && r[|r| - 1] == ']'
    ensures |body| < JsonCapacity - 1 ==> r == body + "]"
    ensures |body| == JsonCapacity - 1 ==> r == body[..|body| - 1] + "]"
  {
    if |body| < JsonCapacity - 1 then body + "]"
    else body[..|body| - 1] + "]"
  }

  /// The record strings, in record order.
  function Rendered(rs: seq<DisplayRecord>, render: DisplayRecord -> string): (parts: seq<string>)
    ensures |parts| == |rs|
    ensures forall k :: 0 <= k < |rs| ==> parts[k] == render(rs[k])
  {
    if |rs| == 0 then []
    else Rendered(rs[..|rs| - 1], render) + [render(rs[|rs| - 1])]
  }

  /// snprintf into a buffer of the given capacity keeps at most capacity - 1 characters.
  function Truncate(s: string, capacity: nat): (r: string)
    requires capacity > 0
    ensures |r| < capacity
    ensures |s| < capacity ==> r == s
    ensures r == s[..|r|]
  {
    if |s| < capacity then s else s[..capacity - 1]
  }

  /// current_json: "{}" unless a current record was formatted into it.
  function CurrentJson(info: Option<DisplayRecord>, render: DisplayRecord -> string): (r: string)
    ensures info.None? ==> r == "{}"
    ensures info.Some? ==> |r| < CurrentCapacity && |r| <= |render(info.value)| && r == render(info.value)[..|r|]
    ensures info.Some? && |render(info.value)| < CurrentCapacity ==> r == render(info.value)
    ensures info.Some? ==>
              |r| == if |render(info.value)| < CurrentCapacity then |render(info.value)| else CurrentCapacity - 1
  {
    match info
    case None => "{}"
    case Some(rec) => Truncate(render(rec), CurrentCapacity)
  }

  /// What update_display_list publishes: nothing when the active configuration
  /// cannot be read.
  function DisplayListSpec(os: OsState, isWin11_24H2: bool, render: DisplayRecord -> string): (r: Option<Published>)
    ensures r.None? <==> os.activeConfig.None?
    ensures r.Some? ==> 2 <= |r.value.full| < JsonCapacity
    ensures r.Some? ==> r.value.full[0] == '[' && r.value.full[|r.value.full| - 1] == ']'
    ensures r.Some? && r.value.info.None? ==> r.value.current == "{}"
    ensures r.Some? && r.value.info.Some? ==> r.value.info.value.current
  {
    match os.activeConfig
    case None => None
    case Some(cfg) =>
      var rs := Records(os, isWin11_24H2, cfg.modes, cfg.paths);
      var info := LastCurrent(rs);
      Some(Published(CloseList(ListBody(Rendered(rs, render))), CurrentJson(info, render), info))
  }

  /// update_mpv_properties: the list is rebuilt only when the window's monitor
  /// correlates with an active path.
  function MpvProperties(os: OsState, isWin11_24H2: bool, render: DisplayRecord -> string): (r: Option<Published>)
    ensures r.Some? <==> Correlate(os).Some?
    ensures Correlate(os).Some? ==> r == DisplayListSpec(os, isWin11_24H2, render)
    ensures r.Some? ==> r.value.info.Some? && r.value.info.value.current
    ensures r.Some? ==> r.value.current == CurrentJson(r.value.info, render)
  {
    if Correlate(os).None? then None
    else
      var cfg := os.activeConfig.value;
      CorrelatePathsIsFirstPair(cfg.paths, cfg.modes, os.monitorDevice.value, os.sourceNames);
      var i :| 0 <= i < |cfg.paths| && Correlates(cfg.paths[i], cfg.modes, os.monitorDevice.value, os.sourceNames);
      CorrelatedPathGivesCurrent(os, isWin11_24H2, cfg.modes, cfg.paths, i);
      DisplayListSpec(os, isWin11_24H2, render)
  }

  /// The record strings separated by commas.
  function Join(parts: seq<string>): (r: string)
    ensures |parts| > 0 ==> |r| >= |parts[|parts| - 1]|
  {
    if |parts| == 0 then ""
    else if |parts| == 1 then parts[0]
    else Join(parts[..|parts| - 1]) + "," + parts[|parts| - 1]
  }

  /// While every record fits, the committed bytes are '[' followed by the
  /// records separated by commas.
  lemma {:induction false} BodyIsJoinWhenItFits(parts: seq<string>)
    requires forall k :: 0 <= k < |parts| ==> parts[k] != []
    requires 1 + |Join(parts)| < JsonCapacity
    ensures ListBody(parts) == "[" + Join(parts)
    decreases |parts|
  {
    if |parts| > 0 {
      var prefix := parts[..|parts| - 1];
      var last := parts[|parts| - 1];
      assert forall k :: 0 <= k < |prefix| ==> prefix[k] == parts[k];
      if |prefix| > 0 {
        assert prefix[|prefix| - 1] != [];
        assert |Join(parts)| == |Join(prefix)| + 1 + |last|;
      }
      BodyIsJoinWhenItFits(prefix);
      var acc := "[" + Join(prefix);
      assert ListBody(parts) == AppendStep(acc, last);
      assert WithSeparator(acc) + last == "[" + Join(parts);
    }
  }

  /// When nothing is truncated the list is well-formed: the records separated
  /// by commas between brackets.
  lemma WellFormedWhenItFits(parts: seq<string>)
    requires forall k :: 0 <= k < |parts| ==> parts[k] != []
    requires 2 + |Join(parts)| < JsonCapacity
    ensures CloseList(ListBody(parts)) == "[" + Join(parts) + "]"
  {
    BodyIsJoinWhenItFits(parts);
  }

  /// The separator is committed before the record is attempted, so a record
  /// too long for the remaining room leaves a dangling ',' before the bracket
  /// (an instance of AppendStep's last ensures).
  lemma RejectedRecordLeavesSeparator()
    ensures var big := seq(8188, _ => 'x');
            CloseList(ListBody(["{}", big])) == "[{},]"
  {
    var big := seq(8188, _ => 'x');
    assert ["{}", big][..1] == ["{}"];
    assert ListBody(["{}"]) == "[{}";
  }

  /// The overflow leaves only the mode loop: records of later paths are still
  /// attempted, each after one more separator (AppendStep applied once per path).
  lemma OverflowDoesNotStopLaterPaths()
    ensures var big := seq(8188, _ => 'x');
            CloseList(ListBody(["{}", big, "{}"])) == "[{},,{}]"
  {
    var big := seq(8188, _ => 'x');
    assert ["{}", big, "{}"][..2] == ["{}", big];
    assert ["{}", big][..1] == ["{}"];
    assert ListBody(["{}"]) == "[{}";
    assert ListBody(["{}", big]) == "[{},";
  }

  /// A record that fills the buffer to its last byte loses its final
  /// character to the closing bracket.
  lemma FullBufferCutsLastRecord(part: string)
    requires |part| == JsonCapacity - 2
    ensures CloseList(ListBody([part])) == "[" + part[..|part| - 1] + "]"
  {
    assert [part][..0] == [];
    assert ListBody([part]) == "[" + part;
  }

  /// current_json stays "{}" and no display-info record is published unless
  /// some path's source is the window's monitor.
  lemma CurrentStaysEmptyWithoutMatch(os: OsState, isWin11_24H2: bool, render: DisplayRecord -> string)
    requires os.activeConfig.Some?
    requires forall k :: 0 <= k < |os.activeConfig.value.paths| ==> !IsCurrent(os, os.activeConfig.value.paths[k])
    ensures DisplayListSpec(os, isWin11_24H2, render).Some?
    ensures DisplayListSpec(os, isWin11_24H2, render).value.current == "{}"
    ensures DisplayListSpec(os, isWin11_24H2, render).value.info.None?
  {
    NoCurrentWithoutMatch(os, isWin11_24H2, os.activeConfig.value.modes, os.activeConfig.value.paths);
  }

  /// snprintf(buf + at, buf.Length - at, "%s", s): writes as much of s as fits
  /// before a terminating NUL and returns the full length of s.
  method BoundedWrite(buf: array<char>, at: nat, s: string) returns (written: nat)
    requires at < buf.Length
    modifies buf
    ensures written == |s|
    ensures buf[..at] == old(buf[..at])
    ensures var n := if |s| < buf.Length - at then |s| else buf.Length - at - 1;
            buf[at..at + n] == s[..n] && buf[at + n] == '\0'
  {
    var n := if |s| < buf.Length - at then |s| else buf.Length - at - 1;
    var k := 0;
    while k < n
      invariant 0 <= k <= n
      invariant buf[..at] == old(buf[..at])
      invariant buf[at..at + k] == s[..k]
    {
      buf[at + k] := s[k];
      k := k + 1;
    }
    buf[at + n] := '\0';
    written := |s|;
  }

  /// src/display.c:365-386: commit the separator, format the record in place, and
  /// advance the cursor only when the record was written whole.
  method AppendRecord(json: array<char>, jsonLen: nat, part: string) returns (newLen: nat)
    requires json.Length == JsonCapacity && 1 <= jsonLen < JsonCapacity
    requires jsonLen == JsonCapacity - 1 ==> json[JsonCapacity - 1] == '\0'
    modifies json
    ensures 1 <= newLen < JsonCapacity
    ensures json[..newLen] == AppendStep(old(json[..jsonLen]), part)
    ensures newLen == JsonCapacity - 1 ==> json[JsonCapacity - 1] == '\0'
  {
    ghost var acc := json[..jsonLen];
    newLen := jsonLen;
    if newLen < JsonCapacity - 1 {
      if newLen > 1 {
        json[newLen] := ',';
        newLen := newLen + 1;
        json[newLen] := '\0';
      }
      assert json[..newLen] == WithSeparator(acc);
      var written := BoundedWrite(json, newLen, part);
      if written > 0 && written < JsonCapacity - newLen {
        assert json[newLen..newLen + written] == part;
        assert json[..newLen + written] == json[..newLen] + json[newLen..newLen + written];
        newLen := newLen + written;
      } else {
        // json buffer overflow: the record is not committed
      }
    }
  }

  /// src/display.c:393-400: the closing bracket, and the NUL that ends the string.
  method CloseBuffer(json: array<char>, jsonLen: nat) returns (fullLen: nat)
    requires json.Length == JsonCapacity && 1 <= jsonLen < JsonCapacity
    requires jsonLen == JsonCapacity - 1 ==> json[JsonCapacity - 1] == '\0'
    modifies json
    ensures fullLen < JsonCapacity && json[fullLen] == '\0'
    ensures json[..fullLen] == CloseList(old(json[..jsonLen]))
  {
    fullLen := jsonLen;
    if fullLen < JsonCapacity - 1 {
      json[fullLen] := ']';
      fullLen := fullLen + 1;
      json[fullLen] := '\0';
    } else {
      // json buffer full: the closing bracket replaces the last byte
      if fullLen > 0 {
        json[fullLen - 1] := ']';
      }
    }
  }

  /// The state the path loop carries: the committed bytes json[..json_len],
  /// the record behind the display-info properties, and current_json.
  datatype ListState = ListState(body: string, info: Option<DisplayRecord>, currentJson: string)

  /// One iteration of the path loop, given the path's record (None when the
  /// path has no TARGET mode): the display-info record and current_json are
  /// replaced by a current record, and the record is attempted in the buffer.
  function StepPath(st: ListState, next: Option<DisplayRecord>, render: DisplayRecord -> string): (r: ListState)
    requires 1 <= |st.body| < JsonCapacity
    ensures 1 <= |r.body| < JsonCapacity
  {
    match next
    case None => st
    case Some(rec) =>
      ListState(AppendStep(st.body, render(rec)),
                if rec.current then Some(rec) else st.info,
                if rec.current then CurrentJson(Some(rec), render) else st.currentJson)
  }

  /// The loop state after the given paths, starting from "[" and "{}".
  function RunPaths(os: OsState, isWin11_24H2: bool, modes: seq<ModeInfo>, paths: seq<PathInfo>,
                    render: DisplayRecord -> string): (st: ListState)
    ensures 1 <= |st.body| < JsonCapacity
  {
    if |paths| == 0 then ListState("[", None, "{}")
    else StepPath(RunPaths(os, isWin11_24H2, modes, paths[..|paths| - 1], render),
                  PathRecord(os, isWin11_24H2, modes, paths[|paths| - 1]), render)
  }

  /// The loop computes the list body of the records in path order, the last
  /// current record and its current_json.
  lemma {:induction false} RunPathsIsSpec(os: OsState, isWin11_24H2: bool, modes: seq<ModeInfo>,
                                          paths: seq<PathInfo>, render: DisplayRecord -> string)
    ensures var rs := Records(os, isWin11_24H2, modes, paths);
            RunPaths(os, isWin11_24H2, modes, paths, render) ==
            ListState(ListBody(Rendered(rs, render)), LastCurrent(rs), CurrentJson(LastCurrent(rs), render))
    decreases |paths|
  {
    if |paths| > 0 {
      var prefix := paths[..|paths| - 1];
      RunPathsIsSpec(os, isWin11_24H2, modes, prefix, render);
      var next := PathRecord(os, isWin11_24H2, modes, paths[|paths| - 1]);
      if next.Some? {
        SnocRecord(Records(os, isWin11_24H2, modes, prefix), next.value, render);
      }
    }
  }

  lemma SnocRecord(rs: seq<DisplayRecord>, rec: DisplayRecord, render: DisplayRecord -> string)
    ensures ListBody(Rendered(rs + [rec], render)) == AppendStep(ListBody(Rendered(rs, render)), render(rec))
    ensures LastCurrent(rs + [rec]) == if rec.current then Some(rec) else LastCurrent(rs)
  {
    assert (rs + [rec])[..|rs|] == rs;
    assert Rendered(rs + [rec], render) == Rendered(rs, render) + [render(rec)];
    assert (Rendered(rs, render) + [render(rec)])[..|rs|] == Rendered(rs, render);
  }

  /// The body of the path loop (src/display.c:275-390): the first TARGET mode of the
  /// path, its source mode and record, the current-display record, and one
  /// record attempt in the buffer.
  method EmitPath(os: OsState, isWin11_24H2: bool, modes: seq<ModeInfo>, path: PathInfo,
                  render: DisplayRecord -> string, json: array<char>, jsonLen: nat,
                  info: Option<DisplayRecord>, currentJson: string)
    returns (newLen: nat, newInfo: Option<DisplayRecord>, newCurrentJson: string)
    requires json.Length == JsonCapacity && 1 <= jsonLen < JsonCapacity
    requires jsonLen == JsonCapacity - 1 ==> json[JsonCapacity - 1] == '\0'
    modifies json
    ensures 1 <= newLen < JsonCapacity
    ensures newLen == JsonCapacity - 1 ==> json[JsonCapacity - 1] == '\0'
    ensures ListState(json[..newLen], newInfo, newCurrentJson) ==
            StepPath(ListState(old(json[..jsonLen]), info, currentJson),
                     PathRecord(os, isWin11_24H2, modes, path), render)
  {
    newLen, newInfo, newCurrentJson := jsonLen, info, currentJson;
    var j := FindMode(modes, TargetKind, path.targetInfo);
    if j.Some? {
      var k := FindMode(modes, SourceKind, path.sourceInfo);
      var rec := MakeRecord(os, isWin11_24H2, path, modes[j.value], if k.Some? then Some(modes[k.value]) else None);
      if rec.current {
        newCurrentJson := Truncate(render(rec), CurrentCapacity);
        newInfo := Some(rec);
      }
      newLen := AppendRecord(json, jsonLen, render(rec));
    }
  }

  /// The path loop of update_display_list (src/display.c:272-391).
  method EmitPaths(os: OsState, isWin11_24H2: bool, modes: seq<ModeInfo>, paths: seq<PathInfo>,
                   render: DisplayRecord -> string, json: array<char>)
    returns (jsonLen: nat, info: Option<DisplayRecord>, currentJson: string)
    requires json.Length == JsonCapacity && json[0] == '['
    modifies json
    ensures 1 <= jsonLen < JsonCapacity
    ensures jsonLen == JsonCapacity - 1 ==> json[JsonCapacity - 1] == '\0'
    ensures ListState(json[..jsonLen], info, currentJson) == RunPaths(os, isWin11_24H2, modes, paths, render)
  {
    jsonLen := 1;
    currentJson := "{}";
    info := None;
    var i := 0;
    while i < |paths|
      invariant 0 <= i <= |paths|
      invariant 1 <= jsonLen < JsonCapacity
      invariant jsonLen == JsonCapacity - 1 ==> json[JsonCapacity - 1] == '\0'
      invariant ListState(json[..jsonLen], info, currentJson) == RunPaths(os, isWin11_24H2, modes, paths[..i], render)
    {
      assert paths[..i + 1][..i] == paths[..i];
      jsonLen, info, currentJson := EmitPath(os, isWin11_24H2, modes, paths[i], render, json, jsonLen, info, currentJson);
      i := i + 1;
    }
    assert paths[..i] == paths;
  }

  /// update_display_list: nothing is published when the active configuration
  /// cannot be read; otherwise the buffer starts with '[', current_json with
  /// "{}", and the list is closed after the path loop.
  method UpdateDisplayList(os: OsState, isWin11_24H2: bool, render: DisplayRecord -> string) returns (out: Option<Published>)
    ensures out == DisplayListSpec(os, isWin11_24H2, render)
  {
    if os.activeConfig.None? {
      return None;
    }
    var json := new char[JsonCapacity];
    json[0] := '[';
    var jsonLen, info, currentJson :=
      EmitPaths(os, isWin11_24H2, os.activeConfig.value.modes, os.activeConfig.value.paths, render, json);
    RunPathsIsSpec(os, isWin11_24H2, os.activeConfig.value.modes, os.activeConfig.value.paths, render);
    var fullLen := CloseBuffer(json, jsonLen);
    out := Some(Published(json[..fullLen], currentJson, info));
  }

  /// update_mpv_properties.
  method UpdateMpvProperties(os: OsState, isWin11_24H2: bool, render: DisplayRecord -> string) returns (out: Option<Published>)
    ensures out == MpvProperties(os, isWin11_24H2, render)
  {
    var mode := GetDisplayConfigForMonitor(os);
    if mode.None? {
      return None;  // Failed to get display mode
    }
    out := UpdateDisplayList(os, isWin11_24H2, render);
  }
}
