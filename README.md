# Meeting Guard: the detection and reconciliation pipeline in Dafny

Meeting Guard is a desktop overlay. It warns a user in a video meeting that they are muted, still sharing their screen, have people waiting in the lobby, or have the camera off. Its core is a pipeline in three parts.

1. **Detectors.** A detector asks the operating system's automation tool about Zoom (and, on macOS, Google Chrome), then turns the text it gets back into one state record:
   - `detector/macos.js` uses AppleScript through `osascript`;
   - `detector/windows.js` uses PowerShell and UI Automation;
   - `detector/index.js` picks the detector once, from the platform string.
2. **The poller** (`main.js`). It polls the chosen detector and keeps `lastState`. A state is forwarded to the overlay window and to the tray menu only when its JSON text differs from the last one.
3. **The renderer** (`overlay.js`). It turns a state into a border colour and a set of banners, and keeps a `shown` set so that each render adds and removes only what changed.

The model has one module per part of the system:

| file | module | form |
|---|---|---|
| `text.dfy` | `Text`, `Wrappers` | `toLowerCase`, `trim` and `includes` on `seq<char>`, and their laws |
| `automation.dfy` | `Automation` | running a script, as an oracle |
| `state.dfy` | `State` | the state record and its `JSON.stringify` text |
| `macos.dfy` | `MacDetector` | pure functions over the oracle |
| `windows.dfy` | `WinDetector` | pure functions over the oracle |
| `router.dfy` | `Router` | the detector choice |
| `poller.dfy` | `Poller` | class `MainProcess`, plus functions over runs of polls |
| `overlay.dfy` | `Overlay` | class `Renderer` with loops, plus the alert table as functions |

**Running a script.** Running a script is an *oracle*, a function from the script asked (a `Query`) to what the process did (an `Outcome`). There are three outcomes:
- an error: a non-zero exit or a refused permission, and on Windows also the 3-second timeout of `runPS` (`detector/windows.js:19`); `runScript` on macOS has no timeout;
- a normal exit with some standard output;
- `exec` throwing synchronously, which rejects the promise.

`runScript` and `runPS` resolve to `''` on an error and to the trimmed output otherwise. Every detector function returns a `Traced` value: how its promise settled, together with the scripts it ran, in order. This is what lets the proofs say which scripts a detection runs, for example that Chrome is never asked about while Zoom is in a meeting.

**State.** The state record is the datatype `MeetingState`. It has one constructor per object shape the program builds:
- `{}`, the initial `lastState`;
- `{platform: null}`;
- the Zoom record with its five flags;
- the browser-only Meet record.

`State.SerializeInjective` proves that two states have the same `JSON.stringify` text exactly when they are equal. So the poller's string comparison is modelled faithfully by comparing states.

**Imperative parts.** `main.js` and `overlay.js` change module state in place, and are modelled as classes:
- `Poller.MainProcess` holds `lastState`, whether the tray exists, and the logs of what was sent to the overlay and shown in the tray.
- `Overlay.Renderer` holds `shown`, the border class and the log of banner operations. `render`'s two loops are the methods `AddBanners` and `RemoveBanners`, each with its loop invariants.

## Behaviour of the code worth noting

- **Both mute buttons at once.** The comments at `detector/macos.js:38-43` read a "Mute Audio" button as a live microphone and an "Unmute Audio" button as a muted one. The code has no rule that prefers one button over the other. In `detector/macos.js:70-76`, any text containing "unmute audio" gives `muted: true`, because `unmuted` requires "unmute audio" to be absent. `detector/windows.js:63` reads the same way. So `"Unmute Audio~|Mute Audio~"` gives `muted: true`; see `MacDetector.ScenarioConflictingMute` and `WinDetector.ConflictingMute`.
- **Flags outside a meeting.**
  - On macOS, `screenSharing` (`detector/macos.js:77`) and `camOff` (`detector/macos.js:78`) do not depend on "audio", the word `inMeeting` tests at line 69. So a toolbar with only "Stop Share" gives `inMeeting: false, screenSharing: true` (`MacDetector.ScenarioSharingWithoutAudio`).
  - On Windows, `lobbyWaiting` (`detector/windows.js:66`) does not depend on `inMeeting` (`WinDetector.LobbyWithoutMeeting`).
  - The overlay never shows any of these, because `render` clears everything outside a meeting.
- **Zoom running without a meeting.** On Windows, a running Zoom without meeting controls is reported as `platform: 'zoom'` with `inMeeting: false` (`detector/windows.js:60-67`), not as `{platform: null}` (`WinDetector.RunningWithoutControls`).

## Model

| member | source | states |
|---|---|---|
| Text.Trim | detector/macos.js:18 | `trim` leaves a text that neither starts nor ends with ECMAScript white space |
| Text.TrimSlice | detector/macos.js:18 | what `trim` keeps is one contiguous slice of its input, and everything cut on either side of that slice is white space |
| Text.TrimOfPadded | detector/windows.js:20 | the converse: a trimmed text padded with white space on both sides trims back to itself |
| Text.TrimIdempotent | detector/windows.js:20 | trimming twice is trimming once |
| Text.Lower | detector/macos.js:65 | `toLowerCase` keeps the length and maps every ASCII capital to its lower-case letter, leaving every other character alone |
| Automation.Reply | detector/macos.js:15-21 | a script's promise rejects only when `exec` throws; an error resolves to `''`; any resolved value is trimmed |
| Automation.Ask | detector/windows.js:14-23 | one `await runPS(...)` runs exactly the one script it was given |
| Automation.ReplyOfPaddedOutput | detector/macos.js:18 | a process printing a text with white space around it resolves to exactly that text |
| State.SerializeInjective | main.js:67-68 | two states have equal `JSON.stringify` text if and only if they are equal |
| MacDetector.OsascriptArgumentRoundTrip | detector/macos.js:17 | the shell hands `osascript -e` exactly the script, whatever single quotes it contains: quote removal undoes the `'\''` escaping |
| MacDetector.EscapeWithoutQuotes | detector/macos.js:17 | a script without single quotes is passed through the escaping unchanged |
| MacDetector.IsRunning | detector/macos.js:24-31 | issues exactly the process-list query; reports true exactly on the reply "true" and false on any other resolved reply |
| MacDetector.ZoomSignals | detector/macos.js:65-80 | `lobbyWaiting` is false; `muted` holds iff "unmute audio" occurs, or "audio muted" occurs without "mute audio" |
| MacDetector.MutedOnlyInMeeting | detector/macos.js:69-76 | `muted` implies `inMeeting`, because both mute markers contain "audio" |
| MacDetector.SafeDefault | detector/macos.js:65-80 | text with none of "audio", "share" and "video", including the `''` of a failed query, gives every flag false |
| MacDetector.ScenarioSharingCameraOff | detector/macos.js:69-78 | "Mute Audio~\|Stop Share~\|Start Video~" gives in meeting, not muted, sharing, camera off |
| MacDetector.ScenarioConflictingMute | detector/macos.js:70-76 | "Unmute Audio~\|Mute Audio~" gives `muted: true`: there is no tie-break in favour of "mute audio" |
| MacDetector.ScenarioSharingWithoutAudio | detector/macos.js:69-78 | "Stop Share~" alone gives `screenSharing` without `inMeeting` |
| MacDetector.GetZoomState | detector/macos.js:34-81 | the scripts run are the process check, then the toolbar query iff that check replied "true"; the result is `{platform: null}` iff the check resolved to anything else; once the check replied "true" and the toolbar query resolved, the result is the toolbar rules (`ZoomSignals`) applied to the toolbar text; it rejects iff the check rejects, or the check replied "true" and the toolbar query rejects |
| MacDetector.GetZoomLobby | detector/macos.js:84-101 | the waiting-room check runs exactly the one window-names query; it rejects iff that query's `exec` throws, and otherwise resolves to whether the lower-cased window names contain "waiting" |
| MacDetector.GetMeetState | detector/macos.js:107-138 | the result is Meet iff Chrome's check replied "true" and the lower-cased active-tab title contains "meet"; it is `{platform: null}` iff Chrome's check resolved to anything other than "true", or it replied "true" and the title resolved without "meet"; it rejects iff Chrome's check rejects, or it replied "true" and the title query rejects; the title is asked iff Chrome is running; only Chrome queries are issued |
| MacDetector.WithLobby | detector/macos.js:144 | `zoom.lobbyWaiting = ...` replaces that one flag of a Zoom record and keeps the other four |
| MacDetector.Detect | detector/macos.js:141-152 | a resolved detection is `{platform: null}` or a state that is in a meeting |
| MacDetector.ZoomNotRunning | detector/macos.js:30-36 | a process check that is not exactly "true" gives `{platform: null}` after one query, and neither the toolbar nor the lobby is ever asked |
| MacDetector.ZoomTakesPrecedence | detector/macos.js:142-145 | with Zoom in a meeting, detection returns Zoom's record with `lobbyWaiting` set to whether the lower-cased window names contain "waiting" |
| MacDetector.ZoomMeetingQueries | detector/macos.js:141-145 | with Zoom in a meeting, detection runs exactly the process, toolbar and window-names queries, so Chrome is never asked |
| MacDetector.LobbyQueriedOnlyInMeeting | detector/macos.js:143-144 | the window-names query is issued if and only if Zoom's record says it is in a meeting |
| MacDetector.MeetWhenNoZoomMeeting | detector/macos.js:148-151 | without a Zoom meeting, detection settles as the Meet check does, after the Zoom queries and then the Meet queries |
| MacDetector.NoMeetingAnywhere | detector/macos.js:141-152 | with every query settled, no Zoom meeting and no Meet tab, detection resolves to `{platform: null}` rather than rejecting |
| WinDetector.CommandArgumentRoundTrip | detector/windows.js:18 | under PowerShell's own argument parsing (a double-quoted word in which `\"` stands for `"`), the argument after `-Command` is exactly the script, for a script without backslashes |
| WinDetector.EscapeLength | detector/windows.js:18 | the escaping adds exactly one character per double quote |
| WinDetector.IsZoomRunning | detector/windows.js:26-29 | issues exactly the process query; rejects only when `exec` throws; resolves to true iff the reply is "true" in any mix of cases (`TrueAnyCase`, defined letter by letter), and to false iff it is any other text |
| WinDetector.LowerIsTrue | detector/windows.js:28 | `toLowerCase()` of a text is "true" if and only if the text is one of the sixteen case variants of "true" |
| WinDetector.RunningIgnoresCase | detector/windows.js:26-29 | PowerShell's "True", with white space around it, counts as running |
| WinDetector.GetZoomState | detector/windows.js:32-68 | the process query comes first; the button query is issued iff Zoom is running; the result is `{platform: null}` iff Zoom is not running; once Zoom is running and the button query resolved, the result is the rule table (`ZoomSignals`) applied to the button names; it rejects iff the process query's `exec` throws, or Zoom is running and the button query's `exec` throws |
| WinDetector.SafeDefault | detector/windows.js:56-67 | button names mentioning none of "mute", "video", "share", "waiting room" and "admit" (the `''` of a failed query among them) give every flag false |
| WinDetector.Detect | detector/windows.js:70-72 | `detect` returns `getZoomState`'s result unchanged |
| WinDetector.FlagsOnlyInMeeting | detector/windows.js:56-65 | `muted`, `screenSharing` and `camOff` each imply `inMeeting` |
| WinDetector.LobbyWithoutMeeting | detector/windows.js:58-66 | a lone "Admit" button gives `lobbyWaiting` while `inMeeting` is false |
| WinDetector.ConflictingMute | detector/windows.js:63 | "Unmute Audio,Mute Audio" gives `muted` and `inMeeting` |
| WinDetector.RunningWithoutControls | detector/windows.js:56-67 | a running Zoom whose button query fails is reported as Zoom with every flag false, not as `{platform: null}` |
| WinDetector.NotRunning | detector/windows.js:33 | when Zoom is not running the result is `{platform: null}` after the process query alone |
| Router.Select | detector/index.js:7-17 | "darwin" selects macOS, "win32" selects Windows, and every other platform the no-op detector |
| Router.Detect | detector/index.js:14-17 | the no-op detector resolves to `{platform: null}` without running a script; no detector ever resolves to `{}` |
| Router.OtherPlatformsReportNoMeeting | detector/index.js:14-17 | on other platforms detection is `{platform: null}` whatever the OS would answer |
| Router.WindowsQueriesOnly | detector/index.js:12-13 | the Windows detector issues Windows queries only |
| Poller.TrayLabel | main.js:89-93 | the tray label is "No active meeting" iff the state has no platform, "Zoom" iff it is Zoom's, and "Google Meet" iff it is Meet's |
| Poller.Reconcile | main.js:62-78 | a poll publishes iff detection resolved to a state different from `lastState`, and then publishes that state |
| Poller.NotificationsNeverRepeat | main.js:66-69 | over any run of polls, no published state equals the one published before it, and the first differs from the initial state |
| Poller.LastNotificationIsLastState | main.js:68-69 | after any run of polls, `lastState` is the last published state, or the initial one if nothing was published |
| Poller.RepeatedDetectionNotifiesOnce | main.js:66-69 | the same detection repeated any number of times is published once if it differs from `lastState`, never otherwise |
| Poller.SteadyStateIsSilent | main.js:68 | detections equal to `lastState` publish nothing |
| Poller.RejectionsAreSilent | main.js:63-77 | failed detections publish nothing and leave `lastState` unchanged |
| Poller.FirstNullIsPublishedOnce | main.js:18 | from the initial `{}`, two `{platform: null}` detections publish exactly one state |
| Poller.MainProcess.constructor | main.js:11-18 | the detector is chosen at load and `lastState` starts as `{}` |
| Poller.MainProcess.UpdateTray | main.js:89-101 | a label is added iff the tray exists; nothing else changes |
| Poller.MainProcess.CreateTray | main.js:81-87 | the tray then exists and shows "No active meeting" |
| Poller.MainProcess.Poll | main.js:62-78 | `lastState` becomes what `Reconcile` lets through, or stays; the window receives that state iff it is open, the tray shows its label iff the tray exists; a rejected or unchanged detection changes nothing |
| Poller.MainProcess.Publish | main.js:67-74 | the change test and its updates, given how detection settled, stated through `Reconcile` |
| Poller.PublishStep | main.js:62-78 | a run of polls publishes what its first poll publishes and then what the rest publish from the new `lastState` |
| Poller.MainProcess.PublishAll | main.js:62-78 | polling over a run of detections sends the window exactly the states `Notifications` lists (when it is open), shows their labels in the tray, and leaves `lastState` as `LastAfter` says, so the properties proved of those functions hold of the class |
| Poller.MainProcess.GetState | main.js:125 | `get-state` answers `lastState` |
| Poller.StartupWithoutDetector | main.js:104-113 | on a platform without a detector, start-up and two polls send `{platform: null}` once; the tray shows "No active meeting" twice |
| Overlay.AlertsTableOrder | overlay.js:6-59 | `ALERTS` is in severity order and lists each id once |
| Overlay.SortOfSorted | overlay.js:82 | a stable sort by rank leaves a list already in rank order unchanged |
| Overlay.ActiveIsRaised | overlay.js:76-82 | the active alerts are exactly those whose field is set, in table order: the sort in `render` never reorders them |
| Overlay.Entry | overlay.js:6-56 | each alert id has an entry in the table |
| Overlay.ActiveIds | overlay.js:76-87 | an id is among the active ids iff its alert's check holds, and no id repeats |
| Overlay.BorderPrecedence | overlay.js:59-84 | border class: muted gives "critical"; otherwise sharing gives "warning"; otherwise lobby or camera gives "info"; otherwise `''` |
| Overlay.BrowserOnlyShowsNothing | overlay.js:76-84 | a browser-only Meet state is in a meeting yet has no alerts and an empty border |
| Overlay.NextShown | overlay.js:87-102 | after `render`, `shown` holds exactly the active ids, with no duplicates |
| Overlay.RenderAgainIsQuiet | overlay.js:89-102 | rendering the same alerts again adds and removes nothing |
| Overlay.RenderOutcome | overlay.js:89-102 | running the add loop and then the remove loop leaves `NextShown` and removes exactly `Removals` |
| Overlay.Renderer.constructor | overlay.js:61-65 | nothing is shown at start |
| Overlay.Renderer.AddBanners | overlay.js:89-94 | each active id not yet shown is added to `shown`, in order, with one banner each; nothing else changes |
| Overlay.Renderer.RemoveBanners | overlay.js:96-102 | each shown id no longer active is deleted and its banner removed, in `shown`'s order; nothing else changes |
| Overlay.Renderer.Render | overlay.js:67-103 | outside a meeting: `shown` empty, border `''`, banners cleared. In a meeting: the border takes the top alert's class, `shown` becomes `NextShown`, banners are added for the additions and then removed for the removals |

## Left out

- Process spawning (`exec`), `osascript` and PowerShell themselves, and the 3-second timeout of `runPS`: these are the oracle, and on Windows a timeout is one of its error outcomes.
- Automation.Reply: on macOS a script that never exits leaves detection pending, since `runScript` sets no timeout; the model lets every script settle. A pending poll changes nothing, as a rejected one does.
- The AppleScript and PowerShell script bodies: each is one `Query` constructor, and what it prints is the oracle's business.
- The Electron window, tray icon and menu construction, `preload.js`, the app lifecycle and the `setInterval` timer itself; a run of polls is `Poller.MainProcess.PublishAll` over the detections they settle to. The tray is modelled only through its label, and the overlay window only through whether it is open.
- Overlapping poll ticks: each `poll` is one atomic step.
- The DOM work of `addBanner` and `removeBanner` (markup, SVG icons, `requestAnimationFrame`, the 350 ms removal): banners are a log of `Added`, `Removed` and `Cleared` operations.
- Text.Lower: `toLowerCase` is modelled on the ASCII letters only. Every token the detectors search for is ASCII, but a non-ASCII letter in Zoom's text is not lower-cased in the model.
- WinDetector.CommandArgumentRoundTrip: models PowerShell's parsing of its command line only; Node's `exec` first hands the line to `cmd.exe /d /s /c` on Windows, and that quoting layer is not modelled. It also covers only scripts without backslashes. The escaping leaves `\` alone, so a script ending in a backslash would not survive; the fixed scripts in `detector/windows.js` contain none.
- Overlay.SortByRank: `Array.prototype.sort` is modelled as a stable insertion sort by rank. Because the table is already in rank order, the sort is proved to be the identity on every filtered list, so the comparator's behaviour on ties does not matter.
- The JavaScript `Set` values `shown` and `activeIds` are duplicate-free sequences in insertion order, which is the order a `Set` iterates in.
- Overlay.Renderer.RemoveBanners: the loop iterates over a snapshot of `shown` rather than the live `Set`. These are the same because the only element ever deleted is the one being visited.
- Text.Trim: its contract states `Trimmed` only; the full characterisation (a slice of the input with white space on both sides) is the separate lemma `Text.TrimSlice`.
- MacDetector.ZoomSignals: the rules for `inMeeting`, `screenSharing` and `camOff` are stated through the scenario lemmas and `MacDetector.SafeDefault`, not as if-and-only-if clauses in its contract.
- WinDetector.ZoomSignals: has no contract of its own; its rules are stated through `WinDetector.FlagsOnlyInMeeting`, `WinDetector.SafeDefault`, the scenario lemmas `WinDetector.LobbyWithoutMeeting` and `WinDetector.ConflictingMute`, and `WinDetector.GetZoomState`, which ties a detection to it.
