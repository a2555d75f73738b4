/**
 * The state record the detectors build and `main.js` compares, and the JSON text
 * `JSON.stringify` makes of it.
 */
module State {
  import opened Wrappers

  /**
   * Every object that can stand in `lastState`. Each producer builds its object
   * with a fixed key order, so one constructor per shape is enough.
   */
  datatype MeetingState =
    | Unset   // `{}`, the value of `lastState` before the first change
    | NoMeeting   // `{platform: null}`
    | Zoom(inMeeting: bool, muted: bool, screenSharing: bool, camOff: bool, lobbyWaiting: bool)
        // `{platform: 'zoom', inMeeting, muted, screenSharing, camOff, lobbyWaiting}`
    | MeetBrowser   // `{platform: 'meet_browser', inMeeting: true, browserOnly: true}`

  /** `state.platform`, `None` when the key is missing or null. */
  function Platform(s: MeetingState): Option<string>
  {
    match s
    case Zoom(_, _, _, _, _) => Some("zoom")
    case MeetBrowser => Some("meet_browser")
    case _ => None
  }

  /** Truthiness of `state.inMeeting` (a missing key reads as `undefined`). */
  predicate InMeeting(s: MeetingState)
  {
    match s
    case Zoom(m, _, _, _, _) => m
    case MeetBrowser => true
    case _ => false
  }

  predicate Muted(s: MeetingState) { s.Zoom? && s.muted }
  predicate ScreenSharing(s: MeetingState) { s.Zoom? && s.screenSharing }
  predicate CamOff(s: MeetingState) { s.Zoom? && s.camOff }
  predicate LobbyWaiting(s: MeetingState) { s.Zoom? && s.lobbyWaiting }

  function JsonBool(b: bool): string
  {
    if b then "true" else "false"
  }

  /** The boolean members of an object after `platform`, and the closing brace. */
  function JsonMembers(keys: seq<string>, vals: seq<bool>): string
    requires |keys| == |vals|
  {
    if keys == [] then "}"
    else ",\"" + keys[0] + "\":" + JsonBool(vals[0]) + JsonMembers(keys[1..], vals[1..])
  }

  const ZoomKeys: seq<string> := ["inMeeting", "muted", "screenSharing", "camOff", "lobbyWaiting"]

  /** `JSON.stringify(state)`. */
  function Serialize(s: MeetingState): string
  {
    match s
    case Unset => "{}"
    case NoMeeting => "{\"platform\":null}"
    case Zoom(m, mu, sh, cam, lobby) =>
      "{\"platform\":\"zoom\"" + JsonMembers(ZoomKeys, [m, mu, sh, cam, lobby])
    case MeetBrowser =>
      "{\"platform\":\"meet_browser\"" + JsonMembers(["inMeeting", "browserOnly"], [true, true])
  }

  /** After a common prefix, a JSON boolean and what follows it are determined by the text. */
  lemma JsonBoolCancel(p: string, a: bool, b: bool, r1: string, r2: string)
    requires p + JsonBool(a) + r1 == p + JsonBool(b) + r2
    ensures a == b && r1 == r2
  {
    var x := p + JsonBool(a) + r1;
    var y := p + JsonBool(b) + r2;
    assert x[|p| + 1] == JsonBool(a)[1];
    assert y[|p| + 1] == JsonBool(b)[1];
    if a == b {
      assert r1 == x[|p| + |JsonBool(a)|..];
      assert r2 == y[|p| + |JsonBool(b)|..];
    }
  }

  lemma {:induction false} JsonMembersInjective(keys: seq<string>, v: seq<bool>, w: seq<bool>)
    requires |keys| == |v| == |w|
    requires JsonMembers(keys, v) == JsonMembers(keys, w)
    ensures v == w
    decreases |keys|
  {
    if keys != [] {
      var p := ",\"" + keys[0] + "\":";
      JsonBoolCancel(p, v[0], w[0], JsonMembers(keys[1..], v[1..]), JsonMembers(keys[1..], w[1..]));
      JsonMembersInjective(keys[1..], v[1..], w[1..]);
      assert v == [v[0]] + v[1..];
      assert w == [w[0]] + w[1..];
    }
  }

  lemma PrefixCancel(p: string, r1: string, r2: string)
    requires p + r1 == p + r2
    ensures r1 == r2
  {
    assert r1 == (p + r1)[|p|..];
    assert r2 == (p + r2)[|p|..];
  }

  /** The characters at indices 1, 12 and 13 tell the four shapes apart. */
  lemma SerializeShape(s: MeetingState)
    ensures |Serialize(s)| >= 2 && Serialize(s)[1] == (if s.Unset? then '}' else '"')
    ensures !s.Unset? ==> |Serialize(s)| >= 14 && Serialize(s)[12] == (if s.NoMeeting? then 'n' else '"')
    ensures s.Zoom? ==> Serialize(s)[13] == 'z'
    ensures s.MeetBrowser? ==> Serialize(s)[13] == 'm'
  {
    match s
    case Unset =>
    case NoMeeting =>
    case Zoom(m, mu, sh, cam, lobby) =>
      var head := "{\"platform\":\"zoom\"";
      assert Serialize(s) == head + JsonMembers(ZoomKeys, [m, mu, sh, cam, lobby]);
      assert head[1] == '"' && head[12] == '"' && head[13] == 'z';
    case MeetBrowser =>
      var head := "{\"platform\":\"meet_browser\"";
      assert Serialize(s) == head + JsonMembers(["inMeeting", "browserOnly"], [true, true]);
      assert head[1] == '"' && head[12] == '"' && head[13] == 'm';
  }

  /**
   * Two states serialize to the same JSON text exactly when they are the same
   * state, so comparing `JSON.stringify` outputs is comparing states.
   */
  lemma SerializeInjective(s: MeetingState, t: MeetingState)
    ensures Serialize(s) == Serialize(t) <==> s == t
  {
    if Serialize(s) == Serialize(t) {
      SerializeShape(s);
      SerializeShape(t);
      if s.Zoom? && t.Zoom? {
        var v := [s.inMeeting, s.muted, s.screenSharing, s.camOff, s.lobbyWaiting];
        var w := [t.inMeeting, t.muted, t.screenSharing, t.camOff, t.lobbyWaiting];
        PrefixCancel("{\"platform\":\"zoom\"", JsonMembers(ZoomKeys, v), JsonMembers(ZoomKeys, w));
        JsonMembersInjective(ZoomKeys, v, w);
        assert v[0] == w[0] && v[1] == w[1] && v[2] == w[2] && v[3] == w[3] && v[4] == w[4];
      }
    }
  }
}
