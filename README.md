# mpv display plugin: display correlation, HDR state and the display list

This project models, in Dafny, the logic of the mpv C plugin `src/display.c`. The plugin
reports the HDR state of the monitor that the mpv window is on, and toggles it. It also
publishes a JSON list of every active display. The model covers four parts:

- **Path/mode correlation.** These are the index loops that match the window's monitor
  device name to an active path's source name, and a path's target or source identity
  (mode id plus both LUID halves) to the first TARGET or SOURCE mode record.
- **HDR status resolver.** This is `GetDisplayHDRStatusAndBitDepth` with its two OS
  generations (advanced-colour info v1 before Windows 11 24H2, v2 from then on), the
  fallback when the query fails, and `hdr_status_to_str`.
- **Toggle.** This is the `toggle-hdr-display [on|off]` message: parsing, refusal of
  unsupported displays, the target state, the two generations of set request, and the
  re-query and refresh after a successful set.
- **Display list.** This is the 8192-byte `json` buffer with its `json_len` cursor, filled
  in place, plus `current_json` (1024 bytes) and the `update_mpv_properties` guard.

Every Win32 call is an input. One pass of the OS is a value `OsState`, which holds:

- the window monitor's device name, or nothing if `GetMonitorInfo` fails;
- the active paths and modes, or nothing if the buffer-size query or `QueryDisplayConfig`
  fails;
- one map per `DisplayConfigGetDeviceInfo` request kind, keyed by (adapter id, id). A
  missing key means the call failed.

The Windows 11 24H2 check is a boolean parameter. The outcome of a set call is given as
`Option<OsState>`: `None` means the call failed, `Some(after)` is the OS state once it
succeeded. Formatting a record with `snprintf` is a function parameter
`render: DisplayRecord -> string`.

The imperative parts stay imperative:

- `FindMode` and `GetDisplayConfigForMonitor` keep their index loops, found flag and breaks.
- The list is built by methods that write into a `char` array at the cursor:
  - `BoundedWrite` for `snprintf`, which writes a truncated prefix and a NUL even when the
    record is not committed;
  - `AppendRecord`, `EmitPath`, `EmitPaths` and `CloseBuffer`, each proved against a
    specification function.

Places where the code does not do what a reader might expect (well-formed JSON, at most
one current record, a repeated `on` being a no-op), and where the model follows the code:

- Truncation can leave malformed JSON. Lemmas show the cases:
  - The ',' is committed before a record is tried, so a rejected record leaves `[{},]`
    (`RejectedRecordLeavesSeparator`).
  - The overflow `break` leaves only the mode loop, so later paths still add records after
    an extra ',', giving `[{},,{}]` (`OverflowDoesNotStopLaterPaths`).
  - A buffer filled to byte 8191 loses the record's last character to `]`
    (`FullBufferCutsLastRecord`).
  - The list is well-formed when everything fits (`WellFormedWhenItFits`).
- At most one record is current when at most one path's source is the window's monitor
  (`AtMostOneCurrent`). In clone mode two such paths that both have a TARGET mode give two
  current records. `current_json` and
  the display-info record then describe the last one, while the toggle acts on the first
  (`CloneModeHasTwoCurrentRecords`).
- A forced `on` on a display that is already on still calls the set API. It is not a no-op
  (`ForcedOnAlwaysSets`).
- Correlation skips a path whose source name matches but that has no TARGET mode, and goes
  on to later paths. The `found` flag stays false in that case.
- The display list is published only when `GetDisplayConfigForMonitor` finds the window's
  monitor (`update_mpv_properties`). So a published pass always carries a current record
  (`MpvProperties`).

## Model

| member | source | states |
|---|---|---|
| `ColorState.HdrStatusToStr` | src/display.c:61-68 | the three statuses render as "off", "on", "unsupported", each word exactly for its status |
| `ColorState.HdrSupported` | src/display.c:375 | hdr_supported is false exactly when the status is unsupported, so "on" implies supported |
| `ColorState.ResolveV2` | src/display.c:148-166 | failed query: unsupported with bit depth 8; otherwise the query's bit depth; unsupported iff HDR not supported; on iff supported and the active colour mode is HDR |
| `ColorState.ResolveV1` | src/display.c:168-187 | failed query: unsupported with bit depth 8; otherwise the query's bit depth; unsupported iff advanced colour not supported; on iff supported, enabled and wide colour not enforced |
| `ColorState.GetHdrStatusAndBitDepth` | src/display.c:144-188 | the OS flag picks the query; a missing answer gives (unsupported, 8); bit depth is the answer's; any status but unsupported needs the chosen generation's capability flag |
| `ColorState.GenerationsDisagree` | src/display.c:163-186 | the two generations' "on" rules differ: enabled with wide colour enforced is off in v1, the HDR mode is on in v2 |
| `Correlator.FirstMode` | src/display.c:118-128 | the index of the first mode of the given kind whose id and both adapter-id halves equal the endpoint, or none when no mode matches |
| `Correlator.FindMode` | src/display.c:275-308 | the mode loop returns the first matching index, with no match before it, or none when no mode matches |
| `Correlator.CorrelatePaths` | src/display.c:99-132 | a mode is found iff some path's source name equals the device name and that path has a TARGET mode |
| `Correlator.CorrelatePathsIsFirstPair` | src/display.c:99-141 | the result is the first TARGET mode of the first path that has a name match and a target mode; none means no name-matching path has a target mode |
| `Correlator.Correlate` | src/display.c:74-98 | nothing is found when the monitor info or the active configuration is unavailable; a found mode is a TARGET mode |
| `Correlator.GetDisplayConfigForMonitor` | src/display.c:74-142 | the path loop with found flag and break returns the correlation result |
| `DisplayRecords.DecimalString` | src/display.c:283-284 | uid is a non-empty string of decimal digits with no leading zero |
| `DisplayRecords.DecimalRoundTrip` | src/display.c:284 | reading the uid back gives the target mode id |
| `DisplayRecords.DisplayName` | src/display.c:286-289 | the name is never empty: the friendly name when the query succeeds with a non-empty name, "Unknown" otherwise |
| `DisplayRecords.TechnologyName` | src/display.c:310-318 | the name is one of HDMI, DisplayPort, eDP, DVI, Internal, Unknown; each of the five names exactly for its technology, "Unknown" exactly for an unlisted one |
| `DisplayRecords.PathRecord` | src/display.c:276-318 | a record exists iff the path has a TARGET mode. Its uid is that mode's id in decimal and reads back as it; the technology is the path's technology name; name, status and bit depth come from the queries; supported iff not unsupported. Width, height and refresh stay 0 without a SOURCE mode, and refresh stays 0 for a zero denominator. Current iff the source is the window's monitor. The fields are computed by `MakeRecord`, which `EmitPath` also calls |
| `DisplayRecords.Records` | src/display.c:272-391 | at most one record per path; every record has a non-empty name, a non-zero refresh denominator, and hdr_supported consistent with the status |
| `DisplayRecords.LastCurrent` | src/display.c:334-361 | the display-info record is the last current record of the list (no later record is current), and there is none when no record is current |
| `DisplayRecords.NoCurrentWithoutMatch` | src/display.c:320-336 | no record is current when no path's source name is the window monitor's device name |
| `DisplayRecords.AtMostOneCurrent` | src/display.c:320-336 | at most one record is current when at most one path's source is the window's monitor |
| `DisplayRecords.CorrelatedPathGivesCurrent` | src/display.c:320-336 | a path that correlates with the window's monitor yields a current record |
| `DisplayList.AppendStep` | src/display.c:365-386 | the cursor stays in 1..8191 and committed bytes are never changed; with the cursor at 8191 nothing changes; otherwise the ',' is committed, then the whole record iff it is non-empty and shorter than the room left |
| `DisplayList.ListBody` | src/display.c:264-391 | the committed bytes start with '[' and their length stays in 1..8191 |
| `DisplayList.CloseList` | src/display.c:393-400 | the string is 2..8191 bytes long, keeps its first byte and ends with ']': appended below 8191, written over the last byte at 8191 |
| `DisplayList.Truncate` | src/display.c:337 | snprintf into n bytes keeps a prefix of fewer than n characters, and the whole string when it fits |
| `DisplayList.CurrentJson` | src/display.c:269-345 | "{}" unless a current record was formatted; otherwise that record whole when it is shorter than 1024, else its first 1023 characters |
| `DisplayList.DisplayListSpec` | src/display.c:243-403 | nothing is published iff the configuration query fails; the full list is 2..8191 bytes, starts with '[' and ends with ']'; without a current record current_json is "{}" |
| `DisplayList.MpvProperties` | src/display.c:409-419 | a list is published iff the window's monitor correlates, and then it is exactly DisplayListSpec's publication and carries a current record |
| `DisplayList.BodyIsJoinWhenItFits` | src/display.c:365-386 | while every record fits, the committed bytes are '[' and the records separated by commas |
| `DisplayList.WellFormedWhenItFits` | src/display.c:365-400 | when nothing is truncated the list is exactly the records separated by commas between brackets |
| `DisplayList.RejectedRecordLeavesSeparator` | src/display.c:365-386 | a record too long for the room left leaves a dangling ',' |
| `DisplayList.OverflowDoesNotStopLaterPaths` | src/display.c:380-388 | after an overflow, a later path's record is still committed, after one more ',' |
| `DisplayList.FullBufferCutsLastRecord` | src/display.c:396-400 | a record that fills the buffer to byte 8191 loses its last character to ']' |
| `DisplayList.CurrentStaysEmptyWithoutMatch` | src/display.c:269-337 | current_json stays "{}" and no display-info record is published unless some path's source is the window's monitor |
| `DisplayList.BoundedWrite` | src/display.c:370 | snprintf returns the full length and writes the prefix that fits, then a NUL; bytes before the cursor are untouched |
| `DisplayList.AppendRecord` | src/display.c:365-386 | the buffer prefix up to the new cursor is one AppendStep of the old prefix; a cursor of 8191 has a NUL at byte 8191 |
| `DisplayList.CloseBuffer` | src/display.c:393-400 | the closed string is the CloseList of the committed bytes and is followed by a NUL inside the buffer |
| `DisplayList.StepPath` | src/display.c:275-390 | one path iteration keeps the cursor in 1..8191 |
| `DisplayList.RunPaths` | src/display.c:272-391 | the loop state after any number of paths keeps the cursor in 1..8191 |
| `DisplayList.RunPathsIsSpec` | src/display.c:272-391 | the path loop yields the list body of the records in path order, the last current record and its current_json |
| `DisplayList.EmitPath` | src/display.c:275-390 | one iteration updates the buffer, the display-info record and current_json as StepPath says |
| `DisplayList.EmitPaths` | src/display.c:272-391 | the path loop over the array leaves the state RunPaths gives |
| `DisplayList.UpdateDisplayList` | src/display.c:243-407 | the published strings are exactly DisplayListSpec's |
| `DisplayList.UpdateMpvProperties` | src/display.c:409-419 | publishes exactly what MpvProperties gives: nothing when the monitor does not correlate |
| `HdrToggle.ParseClientMessage` | src/display.c:442-462 | foreign messages are ignored; no argument means toggle; "on"/"off" force; any other second argument is invalid |
| `HdrToggle.TargetOn` | src/display.c:477 | a toggle targets on iff the current status is not on; "on" and "off" force the target |
| `HdrToggle.SetDisplayHdrStatus` | src/display.c:190-227 | the request addresses the mode's target in the OS-selected generation with the requested flag; on success the status is a fresh query of the state after the call |
| `HdrToggle.ToggleSpec` | src/display.c:442-490 | ignored iff not the toggle command; rejected iff the argument is invalid; no display mode iff the lookup fails; refused iff the status is unsupported; otherwise the set call is issued for the target TargetOn gives, in the OS generation, and the outcome is a failure iff the call failed, else the re-queried status with the refreshed properties |
| `HdrToggle.ToggleMessage` | src/display.c:459-489 | every handled outcome prints its own fixed text and a foreign message prints nothing: the invalid-argument, no-display-mode, unsupported and set-failure texts each exactly for their outcome; "HDR enabled" exactly when the re-queried status is on, "HDR disabled" exactly for any other re-queried status |
| `HdrToggle.HandleClientMessage` | src/display.c:442-490 | the handler's outcome is ToggleSpec's |
| `HdrToggle.ForcedOnAlwaysSets` | src/display.c:477-480 | "on" on a display that is already on still issues the set call with enable set |
| `HdrToggle.ToggleTwiceRestores` | src/display.c:471-480 | the first toggle asks for the opposite of the first status and the second for the opposite of the status left by the first; when the OS carries out both requests the display returns to its first status |
| `Scenarios.TwoMonitorList` | src/display.c:272-391 | two monitors give two records in path order: the current one on at 10 bits, the other unsupported at 8 bits |
| `Scenarios.CloneModeHasTwoCurrentRecords` | src/display.c:320-337 | two paths sharing a source give two current records; the display-info record is the last, the correlated mode the first |
| `Scenarios.AcceptedSetIsReQueried` | src/display.c:479-486 | a set call accepted without effect reports the re-queried "off" and prints "HDR disabled" |

## Left out

- The mpv event loop, property observation, `plugin_init`, `handle_property_change` and the `mpv_set_property_string` / `mpv_command_string` calls are host plumbing. The model returns the published strings and the toggle outcome as values instead.
- The message-window thread and its `WM_DISPLAYCHANGE` pump are left out, because their point is concurrency and OS messaging. The data race on the window handle is not modelled.
- HdrToggle.ToggleMessage: the texts are those that follow the `[display-info] ` prefix inside the `print-text` command; the prefix and the command string are not modelled.
- `mpv_print` and debug logging are left out. They have no effect on state.
- `IsWindows11_24H2OrGreater` (`VerifyVersionInfoW`) is an input boolean.
- `MonitorFromWindow` is not modelled; it never fails. The monitor's `GetMonitorInfo` result is the `monitorDevice` input.
- Wide/multibyte conversion and `wcscmp` are not modelled. Device names are abstract strings compared for equality.
- DisplayName: the UTF-8 conversion of the friendly name into 128 bytes, and its truncation, are not modelled.
- The refresh rate is kept as the path's rational, or 0/1. The float division and `%.2f` formatting are not modelled.
- The record format string is the `render` parameter, so field order and number formatting are not modelled. Record strings are taken as free of NUL characters; `%s` never emits one. `render` returns the record's UTF-8 bytes, one `char` per byte, so the 8192- and 1024-byte limits apply to its length exactly.
- The `%d` printing of a bit depth of 2^31 or more as a negative number is not modelled.
- `calloc`/`free` failures are not modelled. Buffer-size and `QueryDisplayConfig` failures count as "configuration unavailable".
- `GetDisplayConfigForMonitor` and `update_display_list` each query the configuration. The model reads both from one `OsState`.
- The `"unknown"` default of `hdr_status_to_str` is not modelled. The status type has exactly three values, so that default cannot be reached.
