/// Matching a monitor's device name and a path's endpoints to mode records
/// (GetDisplayConfigForMonitor and the mode searches of update_display_list,
/// src/display.c:74-142, 275-308).
module Correlator {
  import opened DisplayConfig

  datatype ModeKind = SourceKind | TargetKind

  /// A mode record of the given kind whose id and both adapter-id halves equal
  /// the endpoint's.
  predicate Matches(m: ModeInfo, kind: ModeKind, key: DeviceKey)
  {
    (if kind == SourceKind then m.SourceMode? else m.TargetMode?) &&
    m.id == key.id &&
    m.adapterId.highPart == key.adapterId.highPart &&
    m.adapterId.lowPart == key.adapterId.lowPart
  }

  /// The index of the first mode record matching the endpoint, if any.
  function FirstMode(modes: seq<ModeInfo>, kind: ModeKind, key: DeviceKey): (r: Option<nat>)
    ensures r.Some? ==> r.value < |modes| && Matches(modes[r.value], kind, key)
    ensures r.Some? ==> forall k :: 0 <= k < r.value ==> !Matches(modes[k], kind, key)
    ensures r.None? ==> forall k :: 0 <= k < |modes| ==> !Matches(modes[k], kind, key)
  {
    if |modes| == 0 then None
    else if Matches(modes[0], kind, key) then Some(0)
    else
      match FirstMode(modes[1..], kind, key)
      case None => None
      case Some(j) => Some(j + 1)
  }

  /// The index loop over the mode array that stops at the first match.
  method FindMode(modes: seq<ModeInfo>, kind: ModeKind, key: DeviceKey) returns (r: Option<nat>)
    ensures r.Some? ==> r.value < |modes| && Matches(modes[r.value], kind, key)
    ensures r.Some? ==> forall k :: 0 <= k < r.value ==> !Matches(modes[k], kind, key)
    ensures r.None? ==> forall k :: 0 <= k < |modes| ==> !Matches(modes[k], kind, key)
    ensures r == FirstMode(modes, kind, key)
  {
    var j := 0;
    while j < |modes|
      invariant 0 <= j <= |modes|
      invariant forall k :: 0 <= k < j ==> !Matches(modes[k], kind, key)
    {
      if Matches(modes[j], kind, key) {
        return Some(j);
      }
      j := j + 1;
    }
    return None;
  }

  /// The source-name query for the path succeeded and equals the device name.
  predicate SourceNameIs(names: map<DeviceKey, string>, p: PathInfo, device: string)
  {
    p.sourceInfo in names && names[p.sourceInfo] == device
  }

  /// A path that ends the search: its source name matches and it has a target mode.
  predicate Correlates(p: PathInfo, modes: seq<ModeInfo>, device: string, names: map<DeviceKey, string>)
  {
    SourceNameIs(names, p, device) && FirstMode(modes, TargetKind, p.targetInfo).Some?
  }

  /// The outer path loop: the target mode of the first path that correlates.
  function CorrelatePaths(paths: seq<PathInfo>, modes: seq<ModeInfo>, device: string,
                          names: map<DeviceKey, string>): (r: Option<ModeInfo>)
    ensures r.Some? <==> exists i :: 0 <= i < |paths| && Correlates(paths[i], modes, device, names)
  {
    if |paths| == 0 then None
    else if SourceNameIs(names, paths[0], device) && FirstMode(modes, TargetKind, paths[0].targetInfo).Some? then
      Some(modes[FirstMode(modes, TargetKind, paths[0].targetInfo).value])
    else
      var r := CorrelatePaths(paths[1..], modes, device, names);
      assert forall i :: 1 <= i < |paths| ==> paths[i] == paths[1..][i - 1];
      r
  }

  /// GetDisplayConfigForMonitor as a value: nothing is found when the monitor
  /// information or the active configuration cannot be obtained.
  function Correlate(os: OsState): (r: Option<ModeInfo>)
    ensures os.monitorDevice.None? || os.activeConfig.None? ==> r.None?
    ensures r.Some? ==> r.value.TargetMode?
  {
    if os.monitorDevice.None? || os.activeConfig.None? then None
    else
      var r := CorrelatePaths(os.activeConfig.value.paths, os.activeConfig.value.modes,
                              os.monitorDevice.value, os.sourceNames);
      CorrelatePathsIsFirstPair(os.activeConfig.value.paths, os.activeConfig.value.modes,
                                os.monitorDevice.value, os.sourceNames);
      r
  }

  /// Path i and mode j are the pair the search stops at: path i is the first
  /// path that correlates and mode j is its first target mode.
  ghost predicate FirstPair(paths: seq<PathInfo>, modes: seq<ModeInfo>, device: string,
                            names: map<DeviceKey, string>, i: nat, j: nat)
  {
    i < |paths| && j < |modes| &&
    SourceNameIs(names, paths[i], device) &&
    Matches(modes[j], TargetKind, paths[i].targetInfo) &&
    (forall k :: 0 <= k < j ==> !Matches(modes[k], TargetKind, paths[i].targetInfo)) &&
    (forall h :: 0 <= h < i ==> !Correlates(paths[h], modes, device, names))
  }

  /// The search result is the first (path, target mode) pair in enumeration
  /// order, and nothing is found exactly when no name-matching path has a
  /// target mode.
  lemma {:induction false} CorrelatePathsIsFirstPair(paths: seq<PathInfo>, modes: seq<ModeInfo>,
                                                      device: string, names: map<DeviceKey, string>)
    ensures CorrelatePaths(paths, modes, device, names).Some? ==>
              exists i: nat, j: nat :: FirstPair(paths, modes, device, names, i, j) &&
                CorrelatePaths(paths, modes, device, names) == Some(modes[j])
    ensures CorrelatePaths(paths, modes, device, names).None? ==>
              forall i, j :: 0 <= i < |paths| && 0 <= j < |modes| && SourceNameIs(names, paths[i], device) ==>
                !Matches(modes[j], TargetKind, paths[i].targetInfo)
    decreases |paths|
  {
    var r := CorrelatePaths(paths, modes, device, names);
    if |paths| == 0 {
    } else if SourceNameIs(names, paths[0], device) && FirstMode(modes, TargetKind, paths[0].targetInfo).Some? {
      var j := FirstMode(modes, TargetKind, paths[0].targetInfo).value;
      assert FirstPair(paths, modes, device, names, 0, j);
    } else {
      var tail := paths[1..];
      CorrelatePathsIsFirstPair(tail, modes, device, names);
      assert r == CorrelatePaths(tail, modes, device, names);
      if r.Some? {
        var i: nat, j: nat :| FirstPair(tail, modes, device, names, i, j) && r == Some(modes[j]);
        assert paths[i + 1] == tail[i];
        forall h | 0 <= h < i + 1
          ensures !Correlates(paths[h], modes, device, names)
        {
          if h > 0 {
            assert paths[h] == tail[h - 1];
          }
        }
        assert FirstPair(paths, modes, device, names, i + 1, j);
      } else {
        forall i, j | 0 <= i < |paths| && 0 <= j < |modes| && SourceNameIs(names, paths[i], device)
          ensures !Matches(modes[j], TargetKind, paths[i].targetInfo)
        {
          if i > 0 {
            assert paths[i] == tail[i - 1];
          }
        }
      }
    }
  }

  /// GetDisplayConfigForMonitor: the path loop with a found flag that breaks
  /// at the first path whose source name matches and that has a target mode.
  method GetDisplayConfigForMonitor(os: OsState) returns (r: Option<ModeInfo>)
    ensures r == Correlate(os)
  {
    if os.monitorDevice.None? {
      return None;  // GetMonitorInfo failed
    }
    if os.activeConfig.None? {
      return None;  // GetDisplayConfigBufferSizes or QueryDisplayConfig failed
    }
    var device := os.monitorDevice.value;
    var paths := os.activeConfig.value.paths;
    var modes := os.activeConfig.value.modes;
    var found := false;
    r := None;
    var i := 0;
    while i < |paths|
      invariant 0 <= i <= |paths|
      invariant !found && r.None?
      invariant CorrelatePaths(paths, modes, device, os.sourceNames) ==
                CorrelatePaths(paths[i..], modes, device, os.sourceNames)
    {
      var path := paths[i];
      var viewName := Query(os.sourceNames, path.sourceInfo);
      if viewName.Some? && viewName.value == device {
        var j := FindMode(modes, TargetKind, path.targetInfo);
        if j.Some? {
          r := Some(modes[j.value]);
          found := true;
        }
      }
      if found {
        assert r == CorrelatePaths(paths[i..], modes, device, os.sourceNames);
        break;
      }
      assert paths[i..][1..] == paths[i + 1..];
      i := i + 1;
    }
  }
}
