/**
 * The Windows detector (`detector/windows.js`): Zoom's button names read through
 * PowerShell and UI Automation, joined by commas, and matched against a rule
 * table of its own.
 */
module WinDetector {
  import opened Wrappers
  import opened Text
  import opened State
  import opened Automation

  // ── runPS: quoting the script for `-Command "…"` ──────────────────────────

  /** `script.replace(/"/g, '\\"')`: a backslash before every double quote. */
  function EscapeDoubleQuotes(script: string): string
  {
    if script == [] then []
    else (if script[0] == '"' then "\\\"" else [script[0]]) + EscapeDoubleQuotes(script[1..])
  }

  /** The command line `runPS` hands to `exec`. */
  function PowerShellCommand(script: string): string
  {
    "powershell -NonInteractive -NoProfile -Command \"" + EscapeDoubleQuotes(script) + "\""
  }

  /**
   * Reading a double-quoted argument from just after its opening quote: `\"`
   * stands for a quote, any other character for itself, and the argument ends
   * at the first bare quote, which must be the last character. `None` when no
   * bare quote closes it or text follows the closing quote.
   */
  function ArgumentBody(w: string): Option<string>
    decreases |w|
  {
    if w == [] then None
    else if w[0] == '"' then (if |w| == 1 then Some([]) else None)
    else if w[0] == '\\' && |w| >= 2 && w[1] == '"' then Prepend('"', ArgumentBody(w[2..]))
    else Prepend(w[0], ArgumentBody(w[1..]))
  }

  lemma {:induction false} EscapeThenCloseQuote(script: string)
    requires '\\' !in script
    ensures ArgumentBody(EscapeDoubleQuotes(script) + "\"") == Some(script)
    decreases |script|
  {
    if script == [] {
      assert EscapeDoubleQuotes(script) + "\"" == "\"";
    } else {
      var rest := EscapeDoubleQuotes(script[1..]) + "\"";
      assert '\\' !in script[1..];
      EscapeThenCloseQuote(script[1..]);
      if script[0] == '"' {
        var w := "\\\"" + rest;
        assert EscapeDoubleQuotes(script) + "\"" == w;
        assert w[0] == '\\' && w[1] == '"' && w[2..] == rest;
      } else {
        var w := [script[0]] + rest;
        assert EscapeDoubleQuotes(script) + "\"" == w;
        assert w[0] == script[0] && w[1..] == rest;
      }
      assert script == [script[0]] + script[1..];
    }
  }

  /**
   * The argument PowerShell reads after `-Command`, by its own quoting rules,
   * is exactly the script, however many double quotes it holds.
   */
  lemma CommandArgumentRoundTrip(script: string)
    requires '\\' !in script
    ensures PowerShellCommand(script) == "powershell -NonInteractive -NoProfile -Command \"" + (EscapeDoubleQuotes(script) + "\"")
    ensures ArgumentBody(EscapeDoubleQuotes(script) + "\"") == Some(script)
  {
    EscapeThenCloseQuote(script);
  }

  /** The escaping adds one backslash per double quote and changes nothing else. */
  lemma {:induction false} EscapeLength(script: string)
    ensures |EscapeDoubleQuotes(script)| == |script| + multiset(script)['"']
    decreases |script|
  {
    if script != [] {
      EscapeLength(script[1..]);
      assert script == [script[0]] + script[1..];
      assert multiset(script) == multiset([script[0]]) + multiset(script[1..]);
    }
  }

  // ── isZoomRunning ──────────────────────────────────────────────────────────

  /** The four letters of "true", each in either case. */
  predicate TrueAnyCase(s: string)
  {
    && |s| == 4
    && (s[0] == 't' || s[0] == 'T') && (s[1] == 'r' || s[1] == 'R')
    && (s[2] == 'u' || s[2] == 'U') && (s[3] == 'e' || s[3] == 'E')
  }

  /** A lower-case letter comes from itself or from its capital, and from nothing else. */
  lemma LowerCharLetter(c: char, lo: char)
    requires 'a' <= lo <= 'z'
    ensures LowerChar(c) == lo <==> c == lo || c as int == lo as int - 32
  {
  }

  /** `s.toLowerCase() === 'true'` holds exactly for the case variants of "true". */
  lemma LowerIsTrue(s: string)
    ensures Lower(s) == "true" <==> TrueAnyCase(s)
  {
    if |s| == 4 {
      var l := Lower(s);
      LowerCharLetter(s[0], 't');
      LowerCharLetter(s[1], 'r');
      LowerCharLetter(s[2], 'u');
      LowerCharLetter(s[3], 'e');
      assert l == "true" <==> l[0] == 't' && l[1] == 'r' && l[2] == 'u' && l[3] == 'e';
    }
  }

  /** `isZoomRunning()`: the reply compared with "true" ignoring case. */
  function IsZoomRunning(ask: Oracle): (r: Traced<bool>)
    ensures r.issued == [WinZoomProcess]
    ensures r.result.Rejected? <==> ask(WinZoomProcess).SpawnThrew?
    ensures r.result == Resolved(true) <==>
      Reply(ask(WinZoomProcess)).Resolved? && TrueAnyCase(Reply(ask(WinZoomProcess)).value)
    ensures r.result == Resolved(false) <==>
      Reply(ask(WinZoomProcess)).Resolved? && !TrueAnyCase(Reply(ask(WinZoomProcess)).value)
  {
    var reply := Ask(ask, WinZoomProcess);
    match reply.result
    case Rejected => Traced(Rejected, reply.issued)
    case Resolved(out) =>
      LowerIsTrue(out);
      Traced(Resolved(Lower(out) == "true"), reply.issued)
  }

  // ── getZoomState ───────────────────────────────────────────────────────────

  /** The rule table over the comma-joined button names. */
  function ZoomSignals(raw: string): (r: MeetingState)
  {
    var names := Lower(raw);
    Zoom(
      Includes(names, "mute") || Includes(names, "video") || Includes(names, "share"),
      Includes(names, "unmute audio"),
      Includes(names, "stop share"),
      Includes(names, "start video"),
      Includes(names, "waiting room") || Includes(names, "admit"))
  }

  /** `getZoomState()`: no button query unless Zoom is running. */
  function GetZoomState(ask: Oracle): (r: Traced<MeetingState>)
    ensures |r.issued| >= 1 && r.issued[0] == WinZoomProcess
    ensures WinZoomButtonNames in r.issued <==> IsZoomRunning(ask).result == Resolved(true)
    ensures r.issued == [WinZoomProcess] + (if IsZoomRunning(ask).result == Resolved(true) then [WinZoomButtonNames] else [])
    ensures r.result.Resolved? ==> r.result.value == NoMeeting || r.result.value.Zoom?
    ensures r.result == Resolved(NoMeeting) <==> IsZoomRunning(ask).result == Resolved(false)
    ensures IsZoomRunning(ask).result == Resolved(true) && Reply(ask(WinZoomButtonNames)).Resolved? ==>
      r.result == Resolved(ZoomSignals(Reply(ask(WinZoomButtonNames)).value))
    ensures r.result.Rejected? <==>
      || ask(WinZoomProcess).SpawnThrew?
      || (IsZoomRunning(ask).result == Resolved(true) && ask(WinZoomButtonNames).SpawnThrew?)
  {
    var running := IsZoomRunning(ask);
    match running.result
    case Rejected => Traced(Rejected, running.issued)
    case Resolved(false) => Traced(Resolved(NoMeeting), running.issued)
    case Resolved(true) =>
      var raw := Ask(ask, WinZoomButtonNames);
      var zoom := match raw.result
        case Rejected => Rejected
        case Resolved(text) => Resolved(ZoomSignals(text));
      Traced(zoom, running.issued + raw.issued)
  }

  /** `detect()`: Zoom's state passed through unchanged. */
  function Detect(ask: Oracle): (r: Traced<MeetingState>)
    ensures r == GetZoomState(ask)
  {
    GetZoomState(ask)
  }

  // ── Properties ─────────────────────────────────────────────────────────────

  /**
   * Every marker of `muted`, `screenSharing` and `camOff` contains one of the
   * meeting words, so those flags only ever come with `inMeeting`.
   */
  lemma FlagsOnlyInMeeting(raw: string)
    ensures var r := ZoomSignals(raw); r.muted || r.screenSharing || r.camOff ==> r.inMeeting
  {
    var names := Lower(raw);
    assert Includes("unmute audio", "mute") by { IncludesInfix("unmute audio", "un", "mute", " audio"); }
    assert Includes("stop share", "share") by { IncludesInfix("stop share", "stop ", "share", ""); }
    assert Includes("start video", "video") by { IncludesInfix("start video", "start ", "video", ""); }
    IncludesPart(names, "unmute audio", "mute");
    IncludesPart(names, "stop share", "share");
    IncludesPart(names, "start video", "video");
  }

  /**
   * Button names mentioning none of the five rule words (the empty reply of a
   * failed query among them) give every flag false.
   */
  lemma SafeDefault(raw: string)
    requires var names := Lower(raw);
      && !Includes(names, "mute") && !Includes(names, "video") && !Includes(names, "share")
      && !Includes(names, "waiting room") && !Includes(names, "admit")
    ensures ZoomSignals(raw) == Zoom(false, false, false, false, false)
  {
    FlagsOnlyInMeeting(raw);
  }

  /** A lone "Admit" button: waiting-room flag set while `inMeeting` is false. */
  lemma LobbyWithoutMeeting()
    ensures ZoomSignals("Admit") == Zoom(false, false, false, false, true)
  {
    var names := Lower("Admit");
    assert names == "admit";
    assert 'u' !in names && 'v' !in names && 's' !in names && 'w' !in names;
    ExcludedByMissingChar(names, "mute", 'u');
    ExcludedByMissingChar(names, "unmute audio", 'u');
    ExcludedByMissingChar(names, "video", 'v');
    ExcludedByMissingChar(names, "start video", 'v');
    ExcludedByMissingChar(names, "share", 's');
    ExcludedByMissingChar(names, "stop share", 's');
    ExcludedByMissingChar(names, "waiting room", 'w');
    IncludesInfix(names, "", "admit", "");
  }

  /** Both "Unmute Audio" and "Mute Audio" present: `muted`, with no tie-break. */
  lemma ConflictingMute()
    ensures ZoomSignals("Unmute Audio,Mute Audio").muted && ZoomSignals("Unmute Audio,Mute Audio").inMeeting
  {
    var unmute, mute := "Unmute Audio", ",Mute Audio";
    assert unmute + mute == "Unmute Audio,Mute Audio";
    assert Lower(unmute) == "unmute audio";
    assert Lower(mute) == ",mute audio";
    LowerConcat(unmute, mute);
    IncludesInfix("unmute audio" + ",mute audio", "", "unmute audio", ",mute audio");
    FlagsOnlyInMeeting(unmute + mute);
  }

  /**
   * A running Zoom whose button query yields nothing (an error, a timeout, no
   * window) is reported as Zoom with every flag false, not as `{platform: null}`.
   */
  lemma RunningWithoutControls(ask: Oracle)
    requires IsZoomRunning(ask).result == Resolved(true)
    requires ask(WinZoomButtonNames) == ExecFailed
    ensures Detect(ask) == Traced(Resolved(Zoom(false, false, false, false, false)), [WinZoomProcess, WinZoomButtonNames])
  {
    assert Lower("") == "";
    assert !Includes("", "mute") && !Includes("", "video") && !Includes("", "share");
    assert !Includes("", "unmute audio") && !Includes("", "stop share") && !Includes("", "start video");
    assert !Includes("", "waiting room") && !Includes("", "admit");
  }

  /**
   * The process check is case-insensitive and ignores the line break around the
   * answer: "True" (how PowerShell prints it) counts as running.
   */
  lemma RunningIgnoresCase(ask: Oracle, p: string, q: string)
    requires ask(WinZoomProcess) == Exited(p + "True" + q) && AllSpace(p) && AllSpace(q)
    ensures IsZoomRunning(ask).result == Resolved(true)
  {
    assert Trimmed("True");
    ReplyOfPaddedOutput(ask, WinZoomProcess, p, "True", q);
  }

  /** When Zoom is not running: `{platform: null}` and no button query. */
  lemma NotRunning(ask: Oracle)
    requires IsZoomRunning(ask).result == Resolved(false)
    ensures Detect(ask) == Traced(Resolved(NoMeeting), [WinZoomProcess])
  {
  }
}
