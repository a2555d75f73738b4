/**
 * The macOS detector (`detector/macos.js`): Zoom's toolbar read through
 * AppleScript, Zoom's waiting-room window, and a Chrome tab-title check for Meet.
 */
module MacDetector {
  import opened Wrappers
  import opened Text
  import opened State
  import opened Automation

  const ZoomApp: string := "zoom.us"
  const ChromeApp: string := "Google Chrome"

  // ── runScript: quoting the script for `osascript -e '…'` ──────────────────

  /** `script.replace(/'/g, "'\\''")`: close the quote, emit an escaped quote, reopen. */
  function EscapeSingleQuotes(script: string): string
  {
    if script == [] then []
    else (if script[0] == '\'' then "'\\''" else [script[0]]) + EscapeSingleQuotes(script[1..])
  }

  /** The shell command `runScript` hands to `exec`. */
  function OsascriptCommand(script: string): string
  {
    "osascript -e '" + EscapeSingleQuotes(script) + "'"
  }

  /**
   * POSIX shell quote removal for one word, restricted to single quotes and
   * backslash: inside single quotes every character is literal up to the next
   * quote; outside, a backslash makes the next character literal. `None` when
   * the word ends inside a quote or on a lone backslash.
   */
  function ShellUnquote(w: string, quoted: bool): Option<string>
    decreases |w|
  {
    if w == [] then (if quoted then None else Some([]))
    else if quoted then
      (if w[0] == '\'' then ShellUnquote(w[1..], false) else Prepend(w[0], ShellUnquote(w[1..], true)))
    else if w[0] == '\'' then ShellUnquote(w[1..], true)
    else if w[0] == '\\' then
      (if |w| == 1 then None else Prepend(w[1], ShellUnquote(w[2..], false)))
    else Prepend(w[0], ShellUnquote(w[1..], false))
  }

  lemma {:induction false} EscapeThenCloseQuote(script: string)
    ensures ShellUnquote(EscapeSingleQuotes(script) + "'", true) == Some(script)
    decreases |script|
  {
    if script == [] {
      assert EscapeSingleQuotes(script) + "'" == "'";
    } else {
      var rest := EscapeSingleQuotes(script[1..]) + "'";
      EscapeThenCloseQuote(script[1..]);
      if script[0] == '\'' {
        var w := "'\\''" + rest;
        assert EscapeSingleQuotes(script) + "'" == w;
        assert w[0] == '\'' && w[1..][0] == '\\' && w[1..][1] == '\'' && w[3..][0] == '\'';
        assert w[1..][2..] == w[3..] && w[3..][1..] == rest;
        assert ShellUnquote(w, true) == ShellUnquote(w[1..], false);
        assert ShellUnquote(w[1..], false) == Prepend('\'', ShellUnquote(w[3..], false));
        assert ShellUnquote(w[3..], false) == ShellUnquote(rest, true);
      } else {
        var w := [script[0]] + rest;
        assert EscapeSingleQuotes(script) + "'" == w;
        assert w[0] == script[0] && w[1..] == rest;
        assert ShellUnquote(w, true) == Prepend(script[0], ShellUnquote(rest, true));
      }
      assert script == [script[0]] + script[1..];
    }
  }

  /**
   * The argument the shell passes to `osascript -e` is exactly the script:
   * the escaping survives any number of single quotes in it.
   */
  lemma OsascriptArgumentRoundTrip(script: string)
    ensures OsascriptCommand(script) == "osascript -e " + ("'" + EscapeSingleQuotes(script) + "'")
    ensures ShellUnquote("'" + EscapeSingleQuotes(script) + "'", false) == Some(script)
  {
    var w := "'" + EscapeSingleQuotes(script) + "'";
    assert w[1..] == EscapeSingleQuotes(script) + "'";
    EscapeThenCloseQuote(script);
  }

  /** A script without single quotes goes through the escaping unchanged. */
  lemma {:induction false} EscapeWithoutQuotes(script: string)
    requires '\'' !in script
    ensures EscapeSingleQuotes(script) == script
    decreases |script|
  {
    if script != [] {
      assert '\'' !in script[1..];
      EscapeWithoutQuotes(script[1..]);
      assert script == [script[0]] + script[1..];
    }
  }

  // ── isRunning ──────────────────────────────────────────────────────────────

  /** `isRunning(app)`: the process list check, true only on the exact reply "true". */
  function IsRunning(ask: Oracle, app: string): (r: Traced<bool>)
    ensures r.issued == [ProcessListed(app)]
    ensures r.result == Resolved(true) <==> Reply(ask(ProcessListed(app))) == Resolved("true")
    ensures r.result == Resolved(false) <==> Reply(ask(ProcessListed(app))).Resolved? && Reply(ask(ProcessListed(app))) != Resolved("true")
  {
    var reply := Ask(ask, ProcessListed(app));
    match reply.result
    case Rejected => Traced(Rejected, reply.issued)
    case Resolved(out) => Traced(Resolved(out == "true"), reply.issued)
  }

  // ── getZoomState ───────────────────────────────────────────────────────────

  /**
   * The toolbar rules over `"|name~description"` text. `muted` needs an
   * "unmute audio" button, or an "audio muted" description with no
   * "mute audio" anywhere; there is no rule by which "mute audio" overrides
   * "unmute audio".
   */
  function ZoomSignals(raw: string): (r: MeetingState)
    ensures r.Zoom? && !r.lobbyWaiting
    ensures var l := Lower(raw);
      r.muted <==> Includes(l, "unmute audio") || (Includes(l, "audio muted") && !Includes(l, "mute audio"))
  {
    var lower := Lower(raw);
    var hasMuteControls := Includes(lower, "audio");
    var muted := Includes(lower, "audio muted") || Includes(lower, "unmute audio");
    var unmuted := Includes(lower, "mute audio") && !Includes(lower, "unmute audio");
    Zoom(
      hasMuteControls,
      muted && !unmuted,
      Includes(lower, "stop share") || Includes(lower, "stop screen share"),
      Includes(lower, "start video") || Includes(lower, "video muted"),
      false)
  }

  /** `getZoomState()`: no toolbar query unless the process check said "true". */
  function GetZoomState(ask: Oracle): (r: Traced<MeetingState>)
    ensures |r.issued| >= 1 && r.issued[0] == ProcessListed(ZoomApp)
    ensures ZoomButtonText in r.issued <==> Reply(ask(ProcessListed(ZoomApp))) == Resolved("true")
    ensures r.result.Resolved? ==> r.result.value == NoMeeting || r.result.value.Zoom?
    ensures r.result == Resolved(NoMeeting) <==> Reply(ask(ProcessListed(ZoomApp))).Resolved? && Reply(ask(ProcessListed(ZoomApp))) != Resolved("true")
    ensures r.issued ==
      [ProcessListed(ZoomApp)] + (if Reply(ask(ProcessListed(ZoomApp))) == Resolved("true") then [ZoomButtonText] else [])
    ensures Reply(ask(ProcessListed(ZoomApp))) == Resolved("true") && Reply(ask(ZoomButtonText)).Resolved? ==>
      r.result == Resolved(ZoomSignals(Reply(ask(ZoomButtonText)).value))
    ensures r.result.Rejected? <==>
      || Reply(ask(ProcessListed(ZoomApp))).Rejected?
      || (Reply(ask(ProcessListed(ZoomApp))) == Resolved("true") && Reply(ask(ZoomButtonText)).Rejected?)
  {
    var running := IsRunning(ask, ZoomApp);
    match running.result
    case Rejected => Traced(Rejected, running.issued)
    case Resolved(false) => Traced(Resolved(NoMeeting), running.issued)
    case Resolved(true) =>
      var raw := Ask(ask, ZoomButtonText);
      var zoom := match raw.result
        case Rejected => Rejected
        case Resolved(text) => Resolved(ZoomSignals(text));
      Traced(zoom, running.issued + raw.issued)
  }

  // ── getZoomLobby ───────────────────────────────────────────────────────────

  /** The waiting-room rule over the window names. */
  function ZoomLobby(windowNames: string): bool
  {
    Includes(Lower(windowNames), "waiting")
  }

  /** `getZoomLobby()`: one query for the window names. */
  function GetZoomLobby(ask: Oracle): (r: Traced<bool>)
    ensures r.issued == [ZoomWindowNames]
    ensures r.result.Rejected? <==> Reply(ask(ZoomWindowNames)).Rejected?
    ensures Reply(ask(ZoomWindowNames)).Resolved? ==>
      r.result == Resolved(Includes(Lower(Reply(ask(ZoomWindowNames)).value), "waiting"))
  {
    var raw := Ask(ask, ZoomWindowNames);
    var lobby := match raw.result
      case Rejected => Rejected
      case Resolved(names) => Resolved(ZoomLobby(names));
    Traced(lobby, raw.issued)
  }

  // ── getMeetState ───────────────────────────────────────────────────────────

  /**
   * `getMeetState()`: Meet in the browser only when Chrome is running and the
   * active tab's title contains "meet" in any case; the tab title is not asked
   * for unless Chrome is running.
   */
  function GetMeetState(ask: Oracle): (r: Traced<MeetingState>)
    ensures r.result.Resolved? ==> r.result.value == NoMeeting || r.result.value == MeetBrowser
    ensures r.result == Resolved(MeetBrowser) <==>
      && Reply(ask(ProcessListed(ChromeApp))) == Resolved("true")
      && Reply(ask(ChromeActiveTabTitle)).Resolved?
      && Includes(Lower(Reply(ask(ChromeActiveTabTitle)).value), "meet")
    ensures r.result == Resolved(NoMeeting) <==>
      || (Reply(ask(ProcessListed(ChromeApp))).Resolved? && Reply(ask(ProcessListed(ChromeApp))) != Resolved("true"))
      || (&& Reply(ask(ProcessListed(ChromeApp))) == Resolved("true")
          && Reply(ask(ChromeActiveTabTitle)).Resolved?
          && !Includes(Lower(Reply(ask(ChromeActiveTabTitle)).value), "meet"))
    ensures r.result.Rejected? <==>
      || Reply(ask(ProcessListed(ChromeApp))).Rejected?
      || (Reply(ask(ProcessListed(ChromeApp))) == Resolved("true") && Reply(ask(ChromeActiveTabTitle)).Rejected?)
    ensures ChromeActiveTabTitle in r.issued <==> Reply(ask(ProcessListed(ChromeApp))) == Resolved("true")
    ensures forall q :: q in r.issued ==> q == ProcessListed(ChromeApp) || q == ChromeActiveTabTitle
  {
    var chrome := IsRunning(ask, ChromeApp);
    match chrome.result
    case Rejected => Traced(Rejected, chrome.issued)
    case Resolved(false) => Traced(Resolved(NoMeeting), chrome.issued)
    case Resolved(true) =>
      var title := Ask(ask, ChromeActiveTabTitle);
      var meet := match title.result
        case Rejected => Rejected
        case Resolved(t) => Resolved(if Includes(Lower(t), "meet") then MeetBrowser else NoMeeting);
      Traced(meet, chrome.issued + title.issued)
  }

  // ── detect ─────────────────────────────────────────────────────────────────

  /**
   * `zoom.lobbyWaiting = …` on Zoom's record: that one flag replaced, the other
   * four kept; any other state is left as it is.
   */
  function WithLobby(s: MeetingState, waiting: bool): (r: MeetingState)
    ensures s.Zoom? ==>
      && r.Zoom? && r.lobbyWaiting == waiting
      && r.inMeeting == s.inMeeting && r.muted == s.muted
      && r.screenSharing == s.screenSharing && r.camOff == s.camOff
    ensures !s.Zoom? ==> r == s
  {
    match s
    case Zoom(m, mu, sh, cam, _) => Zoom(m, mu, sh, cam, waiting)
    case _ => s
  }

  /**
   * `detect()`: Zoom first; the lobby query only once Zoom reports a meeting,
   * its answer written into Zoom's record; otherwise Meet; otherwise no meeting.
   * A rejected query rejects the whole detection.
   */
  function Detect(ask: Oracle): (r: Traced<MeetingState>)
    ensures r.result.Resolved? ==> r.result.value == NoMeeting || InMeeting(r.result.value)
  {
    var zoom := GetZoomState(ask);
    match zoom.result
    case Rejected => zoom
    case Resolved(z) =>
      if InMeeting(z) then
        var lobby := GetZoomLobby(ask);
        var withLobby := match lobby.result
          case Rejected => Rejected
          case Resolved(waiting) => Resolved(WithLobby(z, waiting));
        Traced(withLobby, zoom.issued + lobby.issued)
      else
        var meet := GetMeetState(ask);
        var fallback := match meet.result
          case Rejected => Rejected
          case Resolved(m) => Resolved(if InMeeting(m) then m else NoMeeting);
        Traced(fallback, zoom.issued + meet.issued)
  }

  // ── Properties ─────────────────────────────────────────────────────────────

  /** Both mute markers mention "audio", so `muted` never holds outside a meeting. */
  lemma MutedOnlyInMeeting(raw: string)
    ensures ZoomSignals(raw).muted ==> ZoomSignals(raw).inMeeting
  {
    var l := Lower(raw);
    assert Includes("audio muted", "audio") by { IncludesInfix("audio muted", "", "audio", " muted"); }
    assert Includes("unmute audio", "audio") by { IncludesInfix("unmute audio", "unmute ", "audio", ""); }
    IncludesPart(l, "audio muted", "audio");
    IncludesPart(l, "unmute audio", "audio");
  }

  /**
   * Text with none of "audio", "share" and "video" (the empty reply of a failed
   * query among them) gives every flag false.
   */
  lemma SafeDefault(raw: string)
    requires var l := Lower(raw); !Includes(l, "audio") && !Includes(l, "share") && !Includes(l, "video")
    ensures ZoomSignals(raw) == Zoom(false, false, false, false, false)
  {
    var l := Lower(raw);
    MutedOnlyInMeeting(raw);
    assert Includes("stop share", "share") by { IncludesInfix("stop share", "stop ", "share", ""); }
    assert Includes("stop screen share", "share") by { IncludesInfix("stop screen share", "stop screen ", "share", ""); }
    assert Includes("start video", "video") by { IncludesInfix("start video", "start ", "video", ""); }
    assert Includes("video muted", "video") by { IncludesInfix("video muted", "", "video", " muted"); }
    IncludesPart(l, "stop share", "share");
    IncludesPart(l, "stop screen share", "share");
    IncludesPart(l, "start video", "video");
    IncludesPart(l, "video muted", "video");
  }

  // The scenarios below take the toolbar text item by item (`name~description`
  // joined by `|`) and lower-case and search each item on its own.

  lemma SharingCameraOffLower(mute: string, share: string, video: string)
    requires mute == "Mute Audio~" && share == "|Stop Share~" && video == "|Start Video~"
    ensures Lower(mute + share + video) == "mute audio~" + "|stop share~" + "|start video~"
  {
    assert Lower(mute) == "mute audio~";
    assert Lower(share) == "|stop share~";
    assert Lower(video) == "|start video~";
    LowerConcat(mute + share, video);
    LowerConcat(mute, share);
  }

  lemma SharingCameraOffAudio(la: string, lb: string, lc: string)
    requires la == "mute audio~" && lb == "|stop share~" && lc == "|start video~"
    ensures Includes(la + lb + lc, "audio") && Includes(la + lb + lc, "mute audio")
  {
    IncludesInfix(la + lb + lc, "mute ", "audio", "~" + lb + lc);
    IncludesInfix(la + lb + lc, "", "mute audio", "~" + lb + lc);
  }

  lemma SharingCameraOffNoUnmute(la: string, lb: string, lc: string)
    requires la == "mute audio~" && lb == "|stop share~" && lc == "|start video~"
    ensures !Includes(la + lb + lc, "unmute audio")
  {
    assert 'n' !in la && 'n' !in lb && 'n' !in lc;
    ExcludedByMissingChar(la + lb + lc, "unmute audio", 'n');
  }

  lemma SharingCameraOffShareVideo(la: string, lb: string, lc: string)
    requires la == "mute audio~" && lb == "|stop share~" && lc == "|start video~"
    ensures Includes(la + lb + lc, "stop share") && Includes(la + lb + lc, "start video")
  {
    IncludesInfix(la + lb + lc, la + "|", "stop share", "~" + lc);
    IncludesInfix(la + lb + lc, la + lb + "|", "start video", "~");
  }

  /** The toolbar of an unmuted, sharing user with the camera off. */
  lemma ScenarioSharingCameraOff()
    ensures ZoomSignals("Mute Audio~|Stop Share~|Start Video~") == Zoom(true, false, true, true, false)
  {
    var mute, share, video := "Mute Audio~", "|Stop Share~", "|Start Video~";
    assert mute + share + video == "Mute Audio~|Stop Share~|Start Video~";
    SharingCameraOffLower(mute, share, video);
    SharingCameraOffAudio("mute audio~", "|stop share~", "|start video~");
    SharingCameraOffNoUnmute("mute audio~", "|stop share~", "|start video~");
    SharingCameraOffShareVideo("mute audio~", "|stop share~", "|start video~");
  }

  lemma ConflictingMuteLower(unmute: string, mute: string)
    requires unmute == "Unmute Audio~" && mute == "|Mute Audio~"
    ensures Lower(unmute + mute) == "unmute audio~" + "|mute audio~"
  {
    assert Lower(unmute) == "unmute audio~";
    assert Lower(mute) == "|mute audio~";
    LowerConcat(unmute, mute);
  }

  lemma ConflictingMuteAudio(la: string, lb: string)
    requires la == "unmute audio~" && lb == "|mute audio~"
    ensures Includes(la + lb, "audio") && Includes(la + lb, "unmute audio")
  {
    IncludesInfix(la + lb, "unmute ", "audio", "~" + lb);
    IncludesInfix(la + lb, "", "unmute audio", "~" + lb);
  }

  lemma ConflictingMuteNoShareVideo(la: string, lb: string)
    requires la == "unmute audio~" && lb == "|mute audio~"
    ensures !Includes(la + lb, "stop share") && !Includes(la + lb, "stop screen share")
    ensures !Includes(la + lb, "start video") && !Includes(la + lb, "video muted")
  {
    assert 's' !in la && 's' !in lb && 'v' !in la && 'v' !in lb;
    ExcludedByMissingChar(la + lb, "stop share", 's');
    ExcludedByMissingChar(la + lb, "stop screen share", 's');
    ExcludedByMissingChar(la + lb, "start video", 's');
    ExcludedByMissingChar(la + lb, "video muted", 'v');
  }

  /**
   * With both "Unmute Audio" and "Mute Audio" buttons present, `muted` is true:
   * the "unmute audio" marker decides.
   */
  lemma ScenarioConflictingMute()
    ensures ZoomSignals("Unmute Audio~|Mute Audio~") == Zoom(true, true, false, false, false)
  {
    var unmute, mute := "Unmute Audio~", "|Mute Audio~";
    assert unmute + mute == "Unmute Audio~|Mute Audio~";
    ConflictingMuteLower(unmute, mute);
    ConflictingMuteAudio("unmute audio~", "|mute audio~");
    ConflictingMuteNoShareVideo("unmute audio~", "|mute audio~");
  }

  lemma SharingWithoutAudioTokens(l: string)
    requires l == "stop share~"
    ensures !Includes(l, "audio") && !Includes(l, "audio muted") && !Includes(l, "unmute audio")
    ensures Includes(l, "stop share") && !Includes(l, "start video") && !Includes(l, "video muted")
  {
    assert 'u' !in l && 'v' !in l;
    ExcludedByMissingChar(l, "audio", 'u');
    ExcludedByMissingChar(l, "audio muted", 'u');
    ExcludedByMissingChar(l, "unmute audio", 'u');
    IncludesInfix(l, "", "stop share", "~");
    ExcludedByMissingChar(l, "start video", 'v');
    ExcludedByMissingChar(l, "video muted", 'v');
  }

  /** A sharing toolbar without audio controls: not in a meeting, yet `screenSharing`. */
  lemma ScenarioSharingWithoutAudio()
    ensures ZoomSignals("Stop Share~") == Zoom(false, false, true, false, false)
  {
    assert Lower("Stop Share~") == "stop share~";
    SharingWithoutAudioTokens("stop share~");
  }

  /** A process check that is not exactly "true" ends detection's Zoom branch at once. */
  lemma ZoomNotRunning(ask: Oracle)
    requires Reply(ask(ProcessListed(ZoomApp))).Resolved?
    requires Reply(ask(ProcessListed(ZoomApp))) != Resolved("true")
    ensures GetZoomState(ask) == Traced(Resolved(NoMeeting), [ProcessListed(ZoomApp)])
    ensures ZoomButtonText !in Detect(ask).issued && ZoomWindowNames !in Detect(ask).issued
  {
    assert GetZoomState(ask) == Traced(Resolved(NoMeeting), [ProcessListed(ZoomApp)]) by {
      assert IsRunning(ask, ZoomApp).result == Resolved(false);
    }
    MeetWhenNoZoomMeeting(ask);
    var meet := GetMeetState(ask);
    assert ZoomButtonText !in meet.issued && ZoomWindowNames !in meet.issued;
  }

  /**
   * A Zoom meeting wins: the result is Zoom's record with `lobbyWaiting` taken
   * from the window names, and Chrome is never asked.
   */
  lemma ZoomTakesPrecedence(ask: Oracle, z: MeetingState, names: string)
    requires GetZoomState(ask).result == Resolved(z) && InMeeting(z)
    requires Reply(ask(ZoomWindowNames)) == Resolved(names)
    ensures Detect(ask).result == Resolved(WithLobby(z, ZoomLobby(names)))
  {
    assert GetZoomLobby(ask).result == Resolved(ZoomLobby(names));
  }

  /** In a Zoom meeting detection runs exactly three scripts: process, toolbar, window names. */
  lemma ZoomMeetingQueries(ask: Oracle)
    requires GetZoomState(ask).result.Resolved? && InMeeting(GetZoomState(ask).result.value)
    ensures Detect(ask).issued == [ProcessListed(ZoomApp), ZoomButtonText, ZoomWindowNames]
  {
    assert GetZoomState(ask).issued == [ProcessListed(ZoomApp), ZoomButtonText];
    assert GetZoomLobby(ask).issued == [ZoomWindowNames];
  }

  /** The lobby query is issued exactly when Zoom's toolbar reported a meeting. */
  lemma LobbyQueriedOnlyInMeeting(ask: Oracle)
    ensures ZoomWindowNames in Detect(ask).issued <==>
      GetZoomState(ask).result.Resolved? && InMeeting(GetZoomState(ask).result.value)
  {
    var zoom := GetZoomState(ask);
    if zoom.result.Rejected? {
      NoLobbyQueryOnRejection(ask);
    } else if InMeeting(zoom.result.value) {
      ZoomMeetingQueries(ask);
      assert Detect(ask).issued[2] == ZoomWindowNames;
    } else {
      NoLobbyQueryWithoutMeeting(ask);
    }
  }

  /** A rejected Zoom check ends detection before the window names are asked for. */
  lemma NoLobbyQueryOnRejection(ask: Oracle)
    requires GetZoomState(ask).result.Rejected?
    ensures ZoomWindowNames !in Detect(ask).issued
  {
    ZoomQueriesOnly(ask);
    ZoomRejectionEndsDetection(ask);
  }

  /** Without a Zoom meeting detection turns to Chrome, never to Zoom's windows. */
  lemma NoLobbyQueryWithoutMeeting(ask: Oracle)
    requires GetZoomState(ask).result.Resolved? && !InMeeting(GetZoomState(ask).result.value)
    ensures ZoomWindowNames !in Detect(ask).issued
  {
    var zoom, meet := GetZoomState(ask).issued, GetMeetState(ask).issued;
    assert ZoomWindowNames !in zoom by { ZoomQueriesOnly(ask); }
    assert ZoomWindowNames !in meet;
    assert Detect(ask).issued == zoom + meet by { MeetWhenNoZoomMeeting(ask); }
  }

  /** `getZoomState` runs no script but the process check and the toolbar read. */
  lemma ZoomQueriesOnly(ask: Oracle)
    ensures forall q :: q in GetZoomState(ask).issued ==> q == ProcessListed(ZoomApp) || q == ZoomButtonText
  {
  }

  /** A rejected Zoom check rejects detection with nothing run after it. */
  lemma ZoomRejectionEndsDetection(ask: Oracle)
    requires GetZoomState(ask).result.Rejected?
    ensures Detect(ask) == GetZoomState(ask)
  {
  }

  /** Without a Zoom meeting, detection reports Meet exactly when Meet's check does. */
  lemma MeetWhenNoZoomMeeting(ask: Oracle)
    requires GetZoomState(ask).result.Resolved? && !InMeeting(GetZoomState(ask).result.value)
    ensures Detect(ask).result == GetMeetState(ask).result
    ensures Detect(ask).issued == GetZoomState(ask).issued + GetMeetState(ask).issued
  {
  }

  /**
   * No Zoom meeting (Zoom not running, or its toolbar without "audio") and no
   * Meet tab: detection resolves to `{platform: null}`, which `poll` publishes,
   * rather than rejecting, which `poll` would swallow.
   */
  lemma NoMeetingAnywhere(ask: Oracle)
    requires Reply(ask(ProcessListed(ZoomApp))).Resolved?
    requires Reply(ask(ProcessListed(ZoomApp))) == Resolved("true") ==>
      Reply(ask(ZoomButtonText)).Resolved? && !ZoomSignals(Reply(ask(ZoomButtonText)).value).inMeeting
    requires Reply(ask(ProcessListed(ChromeApp))).Resolved?
    requires Reply(ask(ProcessListed(ChromeApp))) == Resolved("true") ==>
      Reply(ask(ChromeActiveTabTitle)).Resolved? && !Includes(Lower(Reply(ask(ChromeActiveTabTitle)).value), "meet")
    ensures Detect(ask).result == Resolved(NoMeeting)
  {
    MeetWhenNoZoomMeeting(ask);
  }
}
