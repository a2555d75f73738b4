/**
 * The main process's polling side (`main.js`): `poll` keeps the last detected
 * state and forwards a state only when its JSON text differs from the last
 * one; `updateTray` turns a state into the tray menu's label; `get-state`
 * answers with the last state.
 */
module Poller {
  import opened Wrappers
  import opened State
  import opened Automation
  import opened Router

  // ── updateTray's label ─────────────────────────────────────────────────────

  /**
   * The disabled first entry of the tray menu: the product name, an em dash,
   * and the meeting's platform, or "No active meeting" when `platform` is
   * missing or null.
   */
  function TrayLabel(s: MeetingState): (text: string)
    ensures text == "Meeting Guard — No active meeting" <==> Platform(s).None?
    ensures text == "Meeting Guard — Zoom" <==> s.Zoom?
    ensures text == "Meeting Guard — Google Meet" <==> s.MeetBrowser?
  {
    match Platform(s)
    case None => "Meeting Guard — No active meeting"
    case Some(p) => "Meeting Guard — " + (if p == "zoom" then "Zoom" else "Google Meet")
  }

  // ── poll's change test ─────────────────────────────────────────────────────

  /**
   * What one `poll` publishes, given the last state and how detection settled:
   * the new state when its JSON text differs from the last one's, nothing
   * otherwise, and nothing when detection rejected (the error is swallowed).
   * Since serialization is injective, the test is plain inequality of states.
   */
  function Reconcile(last: MeetingState, detected: Settled<MeetingState>): (r: Option<MeetingState>)
    ensures r.Some? <==> detected.Resolved? && detected.value != last
    ensures r.Some? ==> r.value == detected.value
  {
    match detected
    case Rejected => None
    case Resolved(s) =>
      SerializeInjective(s, last);
      if Serialize(s) != Serialize(last) then Some(s) else None
  }

  /** The states `poll` publishes, in order, over a run of detections. */
  function Notifications(last: MeetingState, ticks: seq<Settled<MeetingState>>): seq<MeetingState>
    decreases |ticks|
  {
    if ticks == [] then []
    else match Reconcile(last, ticks[0])
      case None => Notifications(last, ticks[1..])
      case Some(s) => [s] + Notifications(s, ticks[1..])
  }

  /** `lastState` after a run of detections. */
  function LastAfter(last: MeetingState, ticks: seq<Settled<MeetingState>>): MeetingState
    decreases |ticks|
  {
    if ticks == [] then last
    else match Reconcile(last, ticks[0])
      case None => LastAfter(last, ticks[1..])
      case Some(s) => LastAfter(s, ticks[1..])
  }

  /** The tray labels shown for a sequence of published states. */
  function Labels(states: seq<MeetingState>): (labels: seq<string>)
    ensures |labels| == |states|
    ensures forall k :: 0 <= k < |states| ==> labels[k] == TrayLabel(states[k])
  {
    if states == [] then [] else [TrayLabel(states[0])] + Labels(states[1..])
  }

  lemma {:induction false} LabelsConcat(p: seq<MeetingState>, n: seq<MeetingState>)
    ensures Labels(p + n) == Labels(p) + Labels(n)
    decreases |p|
  {
    if p != [] {
      assert (p + n)[1..] == p[1..] + n;
      LabelsConcat(p[1..], n);
    }
  }

  /** What one detection publishes: the state, when `Reconcile` lets it through. */
  function Published(last: MeetingState, detected: Settled<MeetingState>): seq<MeetingState>
  {
    match Reconcile(last, detected)
    case None => []
    case Some(s) => [s]
  }

  /** `lastState` after one detection. */
  function Next(last: MeetingState, detected: Settled<MeetingState>): MeetingState
  {
    match Reconcile(last, detected)
    case None => last
    case Some(s) => s
  }

  /** One detection off the front of a run: what it publishes, then the rest. */
  lemma PublishStep(last: MeetingState, ticks: seq<Settled<MeetingState>>)
    requires ticks != []
    ensures Notifications(last, ticks) == Published(last, ticks[0]) + Notifications(Next(last, ticks[0]), ticks[1..])
    ensures Labels(Notifications(last, ticks)) == Labels(Published(last, ticks[0])) + Labels(Notifications(Next(last, ticks[0]), ticks[1..]))
    ensures LastAfter(last, ticks) == LastAfter(Next(last, ticks[0]), ticks[1..])
  {
    LabelsConcat(Published(last, ticks[0]), Notifications(Next(last, ticks[0]), ticks[1..]));
  }

  /**
   * One `Publish` along a run: if the window and the tray had received what
   * the first `i` detections published, they have after detection `i` too.
   */
  lemma PublishAdvance(ticks: seq<Settled<MeetingState>>, i: nat, windowOpen: bool, trayReady: bool,
                       published: seq<MeetingState>, total: seq<MeetingState>, final: MeetingState,
                       sent0: seq<MeetingState>, labels0: seq<string>,
                       last: MeetingState, sent: seq<MeetingState>, labels: seq<string>,
                       last': MeetingState, sent': seq<MeetingState>, labels': seq<string>)
    requires i < |ticks|
    requires LastAfter(last, ticks[i..]) == final
    requires published + Notifications(last, ticks[i..]) == total
    requires sent == sent0 + (if windowOpen then published else [])
    requires labels == labels0 + (if trayReady then Labels(published) else [])
    requires last' == Next(last, ticks[i])
    requires sent' == sent + (if windowOpen then Published(last, ticks[i]) else [])
    requires labels' == labels + (if trayReady then Labels(Published(last, ticks[i])) else [])
    ensures LastAfter(last', ticks[i + 1..]) == final
    ensures (published + Published(last, ticks[i])) + Notifications(last', ticks[i + 1..]) == total
    ensures sent' == sent0 + (if windowOpen then published + Published(last, ticks[i]) else [])
    ensures labels' == labels0 + (if trayReady then Labels(published + Published(last, ticks[i])) else [])
  {
    var rest, step := ticks[i..], Published(last, ticks[i]);
    assert rest[0] == ticks[i] && rest[1..] == ticks[i + 1..];
    PublishStep(last, rest);
    ConcatAssoc(published, step, Notifications(last', ticks[i + 1..]));
    LabelsConcat(published, step);
    ConcatAssoc(sent0, if windowOpen then published else [], if windowOpen then step else []);
    ConcatAssoc(labels0, if trayReady then Labels(published) else [], if trayReady then Labels(step) else []);
  }

  /** Concatenation regroups. */
  lemma ConcatAssoc<T>(a: seq<T>, b: seq<T>, c: seq<T>)
    ensures a + (b + c) == (a + b) + c
  {
  }

  /**
   * A published state always differs from the one before it: the first from
   * the initial `lastState`, each later one from its predecessor.
   */
  lemma {:induction false} NotificationsNeverRepeat(last: MeetingState, ticks: seq<Settled<MeetingState>>)
    ensures var n := Notifications(last, ticks);
      (|n| > 0 ==> n[0] != last) && forall i :: 0 <= i < |n| - 1 ==> n[i] != n[i + 1]
    decreases |ticks|
  {
    if ticks != [] {
      NotificationsNeverRepeat(last, ticks[1..]);
      match Reconcile(last, ticks[0])
      case None =>
      case Some(s) =>
        NotificationsNeverRepeat(s, ticks[1..]);
    }
  }

  /** The last state published is `lastState` at the end of the run. */
  lemma {:induction false} LastNotificationIsLastState(last: MeetingState, ticks: seq<Settled<MeetingState>>)
    ensures var n := Notifications(last, ticks);
      LastAfter(last, ticks) == if |n| == 0 then last else n[|n| - 1]
    decreases |ticks|
  {
    if ticks != [] {
      match Reconcile(last, ticks[0])
      case None =>
        assert Notifications(last, ticks) == Notifications(last, ticks[1..]);
        assert LastAfter(last, ticks) == LastAfter(last, ticks[1..]);
        LastNotificationIsLastState(last, ticks[1..]);
      case Some(s) =>
        var rest := Notifications(s, ticks[1..]);
        var n := [s] + rest;
        assert Notifications(last, ticks) == n;
        assert LastAfter(last, ticks) == LastAfter(s, ticks[1..]);
        LastNotificationIsLastState(s, ticks[1..]);
        assert |n| > 0 && n[|n| - 1] == if |rest| == 0 then s else rest[|rest| - 1];
    }
  }

  /**
   * The same detection, any number of times: published once if it differs
   * from the initial state, never otherwise.
   */
  lemma {:induction false} RepeatedDetectionNotifiesOnce(last: MeetingState, s: MeetingState, k: nat)
    requires k >= 1
    ensures Notifications(last, seq(k, _ => Resolved(s))) == if s == last then [] else [s]
    decreases k
  {
    var ticks := seq(k, _ => Resolved(s));
    assert ticks[0] == Resolved(s);
    assert ticks[1..] == seq(k - 1, _ => Resolved(s));
    if s != last {
      SteadyStateIsSilent(s, k - 1);
    } else {
      SteadyStateIsSilent(last, k);
    }
  }

  /** Detections equal to `lastState` publish nothing. */
  lemma {:induction false} SteadyStateIsSilent(s: MeetingState, k: nat)
    ensures Notifications(s, seq(k, _ => Resolved(s))) == []
    decreases k
  {
    if k > 0 {
      var ticks := seq(k, _ => Resolved(s));
      assert ticks[0] == Resolved(s);
      assert ticks[1..] == seq(k - 1, _ => Resolved(s));
      SteadyStateIsSilent(s, k - 1);
    }
  }

  /** Failed detections publish nothing and leave `lastState` as it was. */
  lemma {:induction false} RejectionsAreSilent(last: MeetingState, k: nat)
    ensures Notifications(last, seq(k, _ => Rejected)) == []
    ensures LastAfter(last, seq(k, _ => Rejected)) == last
    decreases k
  {
    if k > 0 {
      var ticks: seq<Settled<MeetingState>> := seq(k, _ => Rejected);
      assert ticks[1..] == seq(k - 1, _ => Rejected);
      RejectionsAreSilent(last, k - 1);
    }
  }

  /**
   * The first `{platform: null}` differs from the initial `{}` and is
   * published; the second is not.
   */
  lemma FirstNullIsPublishedOnce()
    ensures Notifications(Unset, [Resolved(NoMeeting), Resolved(NoMeeting)]) == [NoMeeting]
  {
    RepeatedDetectionNotifiesOnce(Unset, NoMeeting, 2);
    assert seq(2, _ => Resolved(NoMeeting)) == [Resolved(NoMeeting), Resolved(NoMeeting)];
  }

  // ── The main process's state ───────────────────────────────────────────────

  /**
   * The main process's module state: the chosen detector, `lastState`, whether
   * the tray exists, and what was sent to the overlay window and shown as the
   * tray label, in order.
   */
  class MainProcess {
    const detector: Detector
    var lastState: MeetingState
    var trayReady: bool
    var sent: seq<MeetingState>
    var trayLabels: seq<string>

    /** Module load: the detector is chosen and `lastState` is `{}`. */
    constructor(platform: string)
      ensures detector == Select(platform)
      ensures lastState == Unset && !trayReady && sent == [] && trayLabels == []
    {
      detector := Select(platform);
      lastState := Unset;
      trayReady := false;
      sent := [];
      trayLabels := [];
    }

    /** `updateTray(state)`: nothing until the tray exists. */
    method UpdateTray(state: MeetingState)
      modifies this
      ensures trayLabels == old(trayLabels) + (if trayReady then [TrayLabel(state)] else [])
      ensures lastState == old(lastState) && trayReady == old(trayReady) && sent == old(sent)
    {
      if trayReady {
        trayLabels := trayLabels + [TrayLabel(state)];
      }
    }

    /** `createTray()`: the tray appears showing "No active meeting". */
    method CreateTray()
      modifies this
      ensures trayReady
      ensures trayLabels == old(trayLabels) + [TrayLabel(NoMeeting)]
      ensures lastState == old(lastState) && sent == old(sent)
    {
      trayReady := true;
      UpdateTray(NoMeeting);
    }

    /**
     * `poll()`: one detection; on a change, `lastState` is replaced, the state
     * is sent when the overlay window is open, and the tray is updated. A
     * rejected detection changes nothing.
     */
    method Poll(ask: Oracle, windowOpen: bool)
      modifies this
      ensures var detected := Router.Detect(detector, ask).result;
        && lastState == Next(old(lastState), detected)
        && sent == old(sent) + (if windowOpen then Published(old(lastState), detected) else [])
        && trayLabels == old(trayLabels) + (if trayReady then Labels(Published(old(lastState), detected)) else [])
      ensures trayReady == old(trayReady)
    {
      var detected := Router.Detect(detector, ask);
      Publish(detected.result, windowOpen);
    }

    /** The part of `poll()` after `await detector.detect()` settled. */
    method Publish(detected: Settled<MeetingState>, windowOpen: bool)
      modifies this
      ensures lastState == Next(old(lastState), detected)
      ensures sent == old(sent) + (if windowOpen then Published(old(lastState), detected) else [])
      ensures trayLabels == old(trayLabels) + (if trayReady then Labels(Published(old(lastState), detected)) else [])
      ensures trayReady == old(trayReady)
    {
      match detected
      case Rejected =>
      case Resolved(state) =>
        var stateKey := Serialize(state);
        if stateKey != Serialize(lastState) {
          SerializeInjective(state, lastState);
          lastState := state;
          if windowOpen {
            sent := sent + [state];
          }
          UpdateTray(state);
        }
    }

    /**
     * `setInterval(poll, 1000)` over a run of settled detections: the window
     * receives exactly the states `Notifications` lists, the tray shows their
     * labels, and `lastState` ends as `LastAfter` says.
     */
    method PublishAll(detections: seq<Settled<MeetingState>>, windowOpen: bool)
      modifies this
      ensures lastState == LastAfter(old(lastState), detections)
      ensures sent == old(sent) + (if windowOpen then Notifications(old(lastState), detections) else [])
      ensures trayLabels == old(trayLabels) + (if trayReady then Labels(Notifications(old(lastState), detections)) else [])
      ensures trayReady == old(trayReady)
    {
      var i := 0;
      ghost var published: seq<MeetingState> := [];
      ghost var sent0, labels0 := sent, trayLabels;
      ghost var total, final := Notifications(lastState, detections), LastAfter(lastState, detections);
      while i < |detections|
        invariant 0 <= i <= |detections|
        invariant trayReady == old(trayReady)
        invariant LastAfter(lastState, detections[i..]) == final
        invariant published + Notifications(lastState, detections[i..]) == total
        invariant sent == sent0 + (if windowOpen then published else [])
        invariant trayLabels == labels0 + (if trayReady then Labels(published) else [])
      {
        ghost var last, sentBefore, labelsBefore := lastState, sent, trayLabels;
        Publish(detections[i], windowOpen);
        PublishAdvance(detections, i, windowOpen, trayReady, published, total, final, sent0, labels0,
                       last, sentBefore, labelsBefore, lastState, sent, trayLabels);
        published := published + Published(last, detections[i]);
        i := i + 1;
      }
      assert detections[i..] == [];
    }

    /** The `get-state` handler. */
    method GetState() returns (s: MeetingState)
      ensures s == lastState
    {
      s := lastState;
    }
  }

  /**
   * Start-up on a platform without a desktop detector: the tray, then two
   * polls. The overlay receives `{platform: null}` once; the tray shows
   * "No active meeting" twice, once from `createTray` and once from the first
   * poll's change.
   */
  method StartupWithoutDetector(platform: string, ask1: Oracle, ask2: Oracle) returns (sent: seq<MeetingState>, labels: seq<string>, last: MeetingState)
    requires platform != "darwin" && platform != "win32"
    ensures sent == [NoMeeting]
    ensures labels == [TrayLabel(NoMeeting), TrayLabel(NoMeeting)]
    ensures last == NoMeeting
  {
    var main := new MainProcess(platform);
    main.CreateTray();
    main.Poll(ask1, true);
    main.Poll(ask2, true);
    sent := main.sent;
    labels := main.trayLabels;
    last := main.GetState();
  }
}
