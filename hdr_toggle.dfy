/// The toggle-hdr-display client message: argument parsing, the refusal of
/// displays without HDR, the target state, the set call in the generation the
/// OS selects, and the re-query after a successful set
/// (src/display.c:190-227, 442-490).
module HdrToggle {
  import opened DisplayConfig
  import opened ColorState
  import opened Correlator
  import opened DisplayRecords
  import opened DisplayList

  const ToggleCommand := "toggle-hdr-display"

  /// set_status: -1 toggles, 0 forces off, 1 forces on.
  datatype Request = Toggle | TurnOff | TurnOn

  datatype Command = NotToggleCommand | InvalidArgument | HdrRequest(request: Request)

  /// The two generations of DisplayConfigSetDeviceInfo request, addressed to
  /// the target mode's (adapterId, id).
  datatype SetRequest =
    | SetHdrState(target: DeviceKey, enableHdr: bool)
    | SetAdvancedColorState(target: DeviceKey, enableAdvancedColor: bool)

  /// The result of SetDisplayHDRStatus: the request sent and, when the call
  /// succeeded, the status read back afterwards.
  datatype SetResult = SetResult(request: SetRequest, status: Option<HdrStatus>)

  datatype ToggleOutcome =
    | Ignored                                      // not a toggle-hdr-display message
    | BadArgument                                  // second argument neither "on" nor "off"
    | NoDisplayMode                                // GetDisplayConfigForMonitor failed
    | HdrUnsupported                               // current status unsupported
    | SetFailed(request: SetRequest)               // the set call failed
    | Changed(request: SetRequest, status: HdrStatus, refreshed: Option<Published>)

  /// The message's arguments: the first names the command, the optional
  /// second one forces a state, any further ones are ignored.
  function ParseClientMessage(args: seq<string>): (c: Command)
    ensures c.NotToggleCommand? <==> |args| < 1 || args[0] != ToggleCommand
    ensures c == HdrRequest(Toggle) <==> |args| == 1 && args[0] == ToggleCommand
    ensures c == HdrRequest(TurnOn) <==> |args| >= 2 && args[0] == ToggleCommand && args[1] == "on"
    ensures c == HdrRequest(TurnOff) <==> |args| >= 2 && args[0] == ToggleCommand && args[1] == "off"
    ensures c == InvalidArgument <==>
              |args| >= 2 && args[0] == ToggleCommand && args[1] != "on" && args[1] != "off"
  {
    if |args| < 1 || args[0] != ToggleCommand then NotToggleCommand
    else if |args| < 2 then HdrRequest(Toggle)
    else if args[1] == "on" then HdrRequest(TurnOn)
    else if args[1] == "off" then HdrRequest(TurnOff)
    else InvalidArgument
  }

  /// target_on: a toggle turns HDR on exactly when it is not on now; the
  /// forcing arguments ignore the current status.
  function TargetOn(request: Request, current: HdrStatus): (on: bool)
    ensures request == Toggle ==> (on <==> current != On)
    ensures request == TurnOn ==> on
    ensures request == TurnOff ==> !on
  {
    match request
    case Toggle => current != On
    case TurnOn => true
    case TurnOff => false
  }

  /// The enable flag a set request carries, whichever generation it is.
  function RequestEnables(request: SetRequest): bool
  {
    if request.SetHdrState? then request.enableHdr else request.enableAdvancedColor
  }

  /// SetDisplayHDRStatus. `after` is the OS state once DisplayConfigSetDeviceInfo
  /// returned, None when it failed; on success the status is queried again
  /// rather than taken from the request.
  function SetDisplayHdrStatus(isWin11_24H2: bool, mode: ModeInfo, enable: bool, after: Option<OsState>): (r: SetResult)
    ensures r.request.target == ModeKey(mode)
    ensures r.request.SetHdrState? <==> isWin11_24H2
    ensures RequestEnables(r.request) == enable
    ensures r.status.None? <==> after.None?
    ensures after.Some? ==> r.status == Some(GetHdrStatusAndBitDepth(after.value, isWin11_24H2, mode).status)
  {
    var request := if isWin11_24H2 then SetHdrState(ModeKey(mode), enable)
                   else SetAdvancedColorState(ModeKey(mode), enable);
    match after
    case None => SetResult(request, None)
    case Some(os) => SetResult(request, Some(GetHdrStatusAndBitDepth(os, isWin11_24H2, mode).status))
  }

  /// handle_client_message as a value. `after` is the outcome of the set call
  /// (None: it failed); the refresh runs update_mpv_properties on that state.
  function ToggleSpec(args: seq<string>, os: OsState, isWin11_24H2: bool, after: Option<OsState>,
                      render: DisplayRecord -> string): (r: ToggleOutcome)
    ensures r == Ignored <==> ParseClientMessage(args) == NotToggleCommand
    ensures r == BadArgument <==> ParseClientMessage(args) == InvalidArgument
    ensures r == NoDisplayMode <==> ParseClientMessage(args).HdrRequest? && Correlate(os).None?
    ensures r == HdrUnsupported <==>
              ParseClientMessage(args).HdrRequest? && Correlate(os).Some? &&
              GetHdrStatusAndBitDepth(os, isWin11_24H2, Correlate(os).value).status == Unsupported
    ensures ParseClientMessage(args).HdrRequest? && Correlate(os).Some? &&
            GetHdrStatusAndBitDepth(os, isWin11_24H2, Correlate(os).value).status != Unsupported ==>
              (r.SetFailed? <==> after.None?) && (r.Changed? <==> after.Some?)
    ensures r.SetFailed? || r.Changed? ==>
              ParseClientMessage(args).HdrRequest? && Correlate(os).Some? &&
              GetHdrStatusAndBitDepth(os, isWin11_24H2, Correlate(os).value).status != Unsupported
    ensures r.Changed? ==>
              after.Some? &&
              r.status == GetHdrStatusAndBitDepth(after.value, isWin11_24H2, Correlate(os).value).status &&
              r.refreshed == MpvProperties(after.value, isWin11_24H2, render)
    ensures r.SetFailed? || r.Changed? ==>
              r.request.target == ModeKey(Correlate(os).value) &&
              (r.request.SetHdrState? <==> isWin11_24H2) &&
              RequestEnables(r.request) ==
                TargetOn(ParseClientMessage(args).request, GetHdrStatusAndBitDepth(os, isWin11_24H2, Correlate(os).value).status)
  {
    match ParseClientMessage(args)
    case NotToggleCommand => Ignored
    case InvalidArgument => BadArgument
    case HdrRequest(request) =>
      match Correlate(os)
      case None => NoDisplayMode
      case Some(mode) =>
        var current := GetHdrStatusAndBitDepth(os, isWin11_24H2, mode).status;
        if current == Unsupported then HdrUnsupported
        else
          var result := SetDisplayHdrStatus(isWin11_24H2, mode, TargetOn(request, current), after);
          match result.status
          case None => SetFailed(result.request)
          case Some(status) => Changed(result.request, status, MpvProperties(after.value, isWin11_24H2, render))
  }

  /// The text shown to the user for each outcome; none for a foreign message.
  function ToggleMessage(outcome: ToggleOutcome): (m: Option<string>)
    ensures m.None? <==> outcome == Ignored
    ensures outcome.Changed? ==> m == Some(if outcome.status == On then "HDR enabled" else "HDR disabled")
    ensures m == Some("HDR enabled") <==> outcome.Changed? && outcome.status == On
    ensures m == Some("HDR disabled") <==> outcome.Changed? && outcome.status != On
    ensures m == Some("Invalid argument. Use: toggle-hdr-display [on|off]") <==> outcome == BadArgument
    ensures m == Some("Failed to get display mode for toggle") <==> outcome == NoDisplayMode
    ensures m == Some("HDR unsupported, cannot toggle") <==> outcome == HdrUnsupported
    ensures m == Some("Failed to change HDR status") <==> outcome.SetFailed?
  {
    match outcome
    case Ignored => None
    case BadArgument => Some("Invalid argument. Use: toggle-hdr-display [on|off]")
    case NoDisplayMode => Some("Failed to get display mode for toggle")
    case HdrUnsupported => Some("HDR unsupported, cannot toggle")
    case SetFailed(_) => Some("Failed to change HDR status")
    case Changed(_, status, _) => Some(if status == On then "HDR enabled" else "HDR disabled")
  }

  /// handle_client_message.
  method HandleClientMessage(args: seq<string>, os: OsState, isWin11_24H2: bool, after: Option<OsState>,
                             render: DisplayRecord -> string) returns (outcome: ToggleOutcome)
    ensures outcome == ToggleSpec(args, os, isWin11_24H2, after, render)
  {
    var command := ParseClientMessage(args);
    if command.NotToggleCommand? {
      return Ignored;
    }
    if command.InvalidArgument? {
      return BadArgument;
    }
    var mode := GetDisplayConfigForMonitor(os);
    if mode.None? {
      return NoDisplayMode;
    }
    var current := GetHdrStatusAndBitDepth(os, isWin11_24H2, mode.value).status;
    if current == Unsupported {
      return HdrUnsupported;
    }
    var targetOn := TargetOn(command.request, current);
    var result := SetDisplayHdrStatus(isWin11_24H2, mode.value, targetOn, after);
    if result.status.Some? {
      var refreshed := UpdateMpvProperties(after.value, isWin11_24H2, render);
      outcome := Changed(result.request, result.status.value, refreshed);
    } else {
      outcome := SetFailed(result.request);
    }
  }

  /// A forced "on" on a display that is already on still issues the set call,
  /// so a second "on" is not a no-op: the outcome is decided by the set call
  /// and the re-query, never by the status before it.
  lemma {:induction false} ForcedOnAlwaysSets(args: seq<string>, os: OsState, isWin11_24H2: bool,
                                              after: Option<OsState>, render: DisplayRecord -> string)
    requires |args| >= 2 && args[0] == ToggleCommand && args[1] == "on"
    requires Correlate(os).Some?
    requires GetHdrStatusAndBitDepth(os, isWin11_24H2, Correlate(os).value).status == On
    ensures ToggleSpec(args, os, isWin11_24H2, after, render).SetFailed? ||
            ToggleSpec(args, os, isWin11_24H2, after, render).Changed?
    ensures RequestEnables(ToggleSpec(args, os, isWin11_24H2, after, render).request)
  {
    assert ParseClientMessage(args) == HdrRequest(TurnOn);
  }

  /// The OS carried out a set request with the given enable flag: the display
  /// stays HDR-capable and is on exactly when the flag was set.
  predicate Honours(os: OsState, isWin11_24H2: bool, mode: ModeInfo, enable: bool)
  {
    var s := GetHdrStatusAndBitDepth(os, isWin11_24H2, mode).status;
    s != Unsupported && (s == On <==> enable)
  }

  /// Two toggles whose set calls the OS carries out: the first asks for the
  /// opposite of the first status, the second for the opposite of the status
  /// the first one left, so the display returns to its first status.
  lemma {:induction false} ToggleTwiceRestores(os: OsState, isWin11_24H2: bool, mid: OsState, last: OsState,
                                               render: DisplayRecord -> string)
    requires Correlate(os).Some? && Correlate(mid) == Correlate(os)
    requires GetHdrStatusAndBitDepth(os, isWin11_24H2, Correlate(os).value).status != Unsupported
    requires Honours(mid, isWin11_24H2, Correlate(os).value,
                     TargetOn(Toggle, GetHdrStatusAndBitDepth(os, isWin11_24H2, Correlate(os).value).status))
    requires Honours(last, isWin11_24H2, Correlate(os).value,
                     TargetOn(Toggle, GetHdrStatusAndBitDepth(mid, isWin11_24H2, Correlate(os).value).status))
    ensures var mode := Correlate(os).value;
            var r1 := ToggleSpec([ToggleCommand], os, isWin11_24H2, Some(mid), render);
            r1.Changed? &&
            RequestEnables(r1.request) == (GetHdrStatusAndBitDepth(os, isWin11_24H2, mode).status != On) &&
            Honours(mid, isWin11_24H2, mode, RequestEnables(r1.request))
    ensures var mode := Correlate(os).value;
            var r2 := ToggleSpec([ToggleCommand], mid, isWin11_24H2, Some(last), render);
            r2.Changed? &&
            RequestEnables(r2.request) == (GetHdrStatusAndBitDepth(mid, isWin11_24H2, mode).status != On) &&
            Honours(last, isWin11_24H2, mode, RequestEnables(r2.request))
    ensures ToggleSpec([ToggleCommand], mid, isWin11_24H2, Some(last), render).status ==
            GetHdrStatusAndBitDepth(os, isWin11_24H2, Correlate(os).value).status
  {
    assert ParseClientMessage([ToggleCommand]) == HdrRequest(Toggle);
  }
}
