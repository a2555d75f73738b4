/**
 * The overlay renderer (`overlay.js`): the alert table, the border class chosen
 * by the most severe active alert, and the `shown` set of banner ids that
 * `render` brings in line with the active alerts.
 */
module Overlay {
  import opened Wrappers
  import opened State

  // ── Order-preserving filters ───────────────────────────────────────────────

  /** `R` holds of the elements at positions `i` and `j`. */
  predicate Related<T>(s: seq<T>, R: (T, T) -> bool, i: nat, j: nat)
    requires i < |s| && j < |s|
  {
    R(s[i], s[j])
  }

  /**
   * `R` holds of every pair of elements, taken in sequence order. The
   * quantifier is triggered only by `Related`, so that a sequence with many
   * indexed elements in scope does not instantiate it for every pair.
   */
  predicate Pairwise<T>(s: seq<T>, R: (T, T) -> bool)
  {
    forall i: nat, j: nat :: i < j < |s| ==> Related(s, R, i, j)
  }

  function Differ<T(==)>(a: T, b: T): bool { a != b }

  predicate NoDups<T(==)>(s: seq<T>)
  {
    Pairwise(s, Differ)
  }

  /** `Array.prototype.filter`: the elements satisfying `p`, in order. */
  function Filter<T>(s: seq<T>, p: T -> bool): seq<T>
    decreases |s|
  {
    if s == [] then []
    else if p(s[|s| - 1]) then Filter(s[..|s| - 1], p) + [s[|s| - 1]]
    else Filter(s[..|s| - 1], p)
  }

  /** The kept elements are exactly those of `s` satisfying `p`. */
  lemma {:induction false} FilterMembers<T(!new)>(s: seq<T>, p: T -> bool)
    ensures forall x :: x in Filter(s, p) <==> x in s && p(x)
    decreases |s|
  {
    if s != [] {
      var init := s[..|s| - 1];
      assert s == init + [s[|s| - 1]];
      FilterMembers(init, p);
    }
  }

  lemma {:induction false} FilterAppend<T(!new)>(a: seq<T>, b: seq<T>, p: T -> bool)
    ensures Filter(a + b, p) == Filter(a, p) + Filter(b, p)
    decreases |b|
  {
    if b == [] {
      assert a + b == a;
    } else {
      var init := b[..|b| - 1];
      assert (a + b)[..|a + b| - 1] == a + init;
      assert (a + b)[|a + b| - 1] == b[|b| - 1];
      FilterAppend(a, init, p);
    }
  }

  /** Filtering keeps everything when every element passes. */
  lemma {:induction false} FilterAll<T(!new)>(s: seq<T>, p: T -> bool)
    requires forall x :: x in s ==> p(x)
    ensures Filter(s, p) == s
    decreases |s|
  {
    if s != [] {
      var init := s[..|s| - 1];
      assert s == init + [s[|s| - 1]];
      FilterAll(init, p);
    }
  }

  /** Filtering keeps every relation that held pairwise: order, distinctness. */
  lemma {:induction false} FilterPairwise<T(!new)>(s: seq<T>, p: T -> bool, R: (T, T) -> bool)
    requires Pairwise(s, R)
    ensures Pairwise(Filter(s, p), R)
    decreases |s|
  {
    if s != [] {
      var init := s[..|s| - 1];
      var last := s[|s| - 1];
      assert Pairwise(init, R) by {
        forall i: nat, j: nat | i < j < |init| ensures Related(init, R, i, j) {
          assert init[i] == s[i] && init[j] == s[j] && Related(s, R, i, j);
        }
      }
      FilterPairwise(init, p, R);
      if p(last) {
        var r := Filter(init, p);
        FilterMembers(init, p);
        forall x | x in r ensures R(x, last) {
          var k :| 0 <= k < |init| && init[k] == x;
          assert s[k] == x && Related(s, R, k, |s| - 1);
        }
        var r' := r + [last];
        forall i: nat, j: nat | i < j < |r'| ensures Related(r', R, i, j) {
          assert r'[i] == r[i] && r[i] in r;
          if j < |r| {
            assert r'[j] == r[j] && Related(r, R, i, j);
          }
        }
      }
    }
  }

  /** The test `shown.has(x)` / `activeIds.has(x)` as a filter predicate. */
  function Present<T(==)>(xs: seq<T>): T -> bool
  {
    (x: T) => x in xs
  }

  function Absent<T(==)>(xs: seq<T>): T -> bool
  {
    (x: T) => x !in xs
  }

  // ── Alerts ─────────────────────────────────────────────────────────────────

  datatype AlertId = MutedId | ScreenSharingId | LobbyWaitingId | CamOffId

  datatype Severity = Critical | Warning | Info

  datatype Alert = Alert(id: AlertId, severity: Severity, heading: string, sublabel: string)

  /** `ALERTS`, in table order (the SVG icons are not modelled). */
  const Alerts: seq<Alert> := [
    Alert(MutedId, Critical, "YOU ARE MUTED", "Nobody can hear you"),
    Alert(ScreenSharingId, Warning, "STILL SHARING YOUR SCREEN", "Everything on screen is visible"),
    Alert(LobbyWaitingId, Info, "PEOPLE WAITING IN YOUR LOBBY", "Admit them when ready"),
    Alert(CamOffId, Info, "YOUR CAMERA IS OFF", "You are not visible to others")
  ]

  /** `SEVERITY_RANK`: lower is more severe. */
  function SeverityRank(sev: Severity): nat
  {
    match sev
    case Critical => 0
    case Warning => 1
    case Info => 2
  }

  /** The severity as the class name the border and banners take. */
  function SeverityClass(sev: Severity): string
  {
    match sev
    case Critical => "critical"
    case Warning => "warning"
    case Info => "info"
  }

  function RankLe(a: Alert, b: Alert): bool
  {
    SeverityRank(a.severity) <= SeverityRank(b.severity)
  }

  function IdDiffer(a: Alert, b: Alert): bool
  {
    a.id != b.id
  }

  /** Each alert's `check`: the truthiness of one field of the state. */
  predicate Check(id: AlertId, s: MeetingState)
  {
    match id
    case MutedId => Muted(s)
    case ScreenSharingId => ScreenSharing(s)
    case LobbyWaitingId => LobbyWaiting(s)
    case CamOffId => CamOff(s)
  }

  function Fires(s: MeetingState): Alert -> bool
  {
    (a: Alert) => Check(a.id, s)
  }

  /** The table lists its alerts most severe first, each id once. */
  lemma AlertsTableOrder()
    ensures Pairwise(Alerts, RankLe) && Pairwise(Alerts, IdDiffer)
  {
  }

  // ── active.sort(...) ───────────────────────────────────────────────────────

  /** Insert `a` after every element of `sorted` whose rank is not greater. */
  function Insert(sorted: seq<Alert>, a: Alert): seq<Alert>
    decreases |sorted|
  {
    if sorted == [] || RankLe(sorted[|sorted| - 1], a) then sorted + [a]
    else Insert(sorted[..|sorted| - 1], a) + [sorted[|sorted| - 1]]
  }

  /** A stable sort by severity rank, as `Array.prototype.sort` is. */
  function SortByRank(alerts: seq<Alert>): seq<Alert>
    decreases |alerts|
  {
    if alerts == [] then []
    else Insert(SortByRank(alerts[..|alerts| - 1]), alerts[|alerts| - 1])
  }

  /** Sorting a list already in rank order changes nothing. */
  lemma {:induction false} SortOfSorted(alerts: seq<Alert>)
    requires Pairwise(alerts, RankLe)
    ensures SortByRank(alerts) == alerts
    decreases |alerts|
  {
    if alerts != [] {
      var n := |alerts|;
      var init := alerts[..n - 1];
      assert Pairwise(init, RankLe) by {
        forall i: nat, j: nat | i < j < |init| ensures Related(init, RankLe, i, j) {
          assert init[i] == alerts[i] && init[j] == alerts[j] && Related(alerts, RankLe, i, j);
        }
      }
      SortOfSorted(init);
      if init != [] {
        assert init[n - 2] == alerts[n - 2];
        assert Related(alerts, RankLe, n - 2, n - 1);
      }
      assert alerts == init + [alerts[n - 1]];
    }
  }

  /** The active alerts as `render` sees them: filtered, then sorted. */
  function Active(s: MeetingState): seq<Alert>
  {
    SortByRank(Filter(Alerts, Fires(s)))
  }

  /** An independent reading of the table: each alert whose field is set, in table order. */
  function Raised(s: MeetingState): seq<Alert>
  {
    (if Muted(s) then [Alerts[0]] else [])
    + (if ScreenSharing(s) then [Alerts[1]] else [])
    + (if LobbyWaiting(s) then [Alerts[2]] else [])
    + (if CamOff(s) then [Alerts[3]] else [])
  }

  lemma FilterAlerts(s: MeetingState)
    ensures Filter(Alerts, Fires(s)) == Raised(s)
  {
    var p := Fires(s);
    assert Alerts[..0] == [];
    FilterSnoc(Alerts, 0, p);
    FilterSnoc(Alerts, 1, p);
    FilterSnoc(Alerts, 2, p);
    FilterSnoc(Alerts, 3, p);
    assert Alerts[..4] == Alerts;
  }

  /**
   * The sort in `render` never reorders: the active alerts are exactly those
   * whose field is set, in table order, which is already severity order.
   */
  lemma ActiveIsRaised(s: MeetingState)
    ensures Active(s) == Filter(Alerts, Fires(s)) == Raised(s)
    ensures Pairwise(Active(s), RankLe) && Pairwise(Active(s), IdDiffer)
  {
    AlertsTableOrder();
    FilterPairwise(Alerts, Fires(s), RankLe);
    FilterPairwise(Alerts, Fires(s), IdDiffer);
    SortOfSorted(Filter(Alerts, Fires(s)));
    FilterAlerts(s);
  }

  /** The table's entry for an id. */
  function Entry(id: AlertId): (a: Alert)
    ensures a in Alerts && a.id == id
  {
    match id
    case MutedId => Alerts[0]
    case ScreenSharingId => Alerts[1]
    case LobbyWaitingId => Alerts[2]
    case CamOffId => Alerts[3]
  }

  /** `alerts.map(a => a.id)`. */
  function Ids(alerts: seq<Alert>): seq<AlertId>
  {
    seq(|alerts|, i requires 0 <= i < |alerts| => alerts[i].id)
  }

  lemma IdsDistinct(alerts: seq<Alert>)
    requires Pairwise(alerts, IdDiffer)
    ensures NoDups(Ids(alerts))
  {
    var ids := Ids(alerts);
    forall i: nat, j: nat | i < j < |ids| ensures Related(ids, Differ, i, j) {
      assert Related(alerts, IdDiffer, i, j);
    }
  }

  /** An id is visited by `render` exactly when its alert's check holds. */
  lemma IdsOfActive(s: MeetingState)
    ensures forall id :: id in Ids(Active(s)) <==> Check(id, s)
  {
    forall id | id in Ids(Active(s)) ensures Check(id, s) {
      VisitedIdFires(s, id);
    }
    forall id | Check(id, s) ensures id in Ids(Active(s)) {
      FiringIdVisited(s, id);
    }
  }

  lemma VisitedIdFires(s: MeetingState, id: AlertId)
    requires id in Ids(Active(s))
    ensures Check(id, s)
  {
    var active := Active(s);
    assert active == Filter(Alerts, Fires(s)) by { ActiveIsRaised(s); }
    FilterMembers(Alerts, Fires(s));
    var ids := Ids(active);
    var k :| 0 <= k < |ids| && ids[k] == id;
    assert active[k] in active;
  }

  lemma FiringIdVisited(s: MeetingState, id: AlertId)
    requires Check(id, s)
    ensures id in Ids(Active(s))
  {
    var active := Active(s);
    assert active == Filter(Alerts, Fires(s)) by { ActiveIsRaised(s); }
    var a := Entry(id);
    assert a in active by {
      assert Fires(s)(a);
      FilterMembers(Alerts, Fires(s));
    }
    var k :| 0 <= k < |active| && active[k] == a;
    assert Ids(active)[k] == id;
  }

  /** The ids of the active alerts, in the order `render` visits them. */
  function ActiveIds(s: MeetingState): (ids: seq<AlertId>)
    ensures forall id :: id in ids <==> Check(id, s)
    ensures NoDups(ids)
  {
    ActiveIsRaised(s);
    IdsDistinct(Active(s));
    IdsOfActive(s);
    Ids(Active(s))
  }

  /** `border.className` for an in-meeting state: the top alert's severity, or `''`. */
  function BorderClass(s: MeetingState): string
  {
    var active := Active(s);
    if |active| == 0 then "" else SeverityClass(active[0].severity)
  }

  /** The border shows the most severe active alert. */
  lemma BorderPrecedence(s: MeetingState)
    ensures Muted(s) ==> BorderClass(s) == "critical"
    ensures !Muted(s) && ScreenSharing(s) ==> BorderClass(s) == "warning"
    ensures !Muted(s) && !ScreenSharing(s) && (LobbyWaiting(s) || CamOff(s)) ==> BorderClass(s) == "info"
    ensures !Muted(s) && !ScreenSharing(s) && !LobbyWaiting(s) && !CamOff(s) ==> BorderClass(s) == ""
  {
    ActiveIsRaised(s);
  }

  /**
   * A browser-only meeting has none of the checked fields: no alerts and a
   * plain border, although it counts as a meeting.
   */
  lemma BrowserOnlyShowsNothing()
    ensures InMeeting(MeetBrowser)
    ensures ActiveIds(MeetBrowser) == [] && BorderClass(MeetBrowser) == ""
  {
    ActiveIsRaised(MeetBrowser);
  }

  // ── Keeping `shown` in line ────────────────────────────────────────────────

  /** Filtering a prefix one element longer. */
  lemma FilterSnoc<T(!new)>(s: seq<T>, j: nat, p: T -> bool)
    requires j < |s|
    ensures Filter(s[..j + 1], p) == Filter(s[..j], p) + (if p(s[j]) then [s[j]] else [])
  {
    assert s[..j + 1][..j] == s[..j];
  }

  /** Filtering yields nothing when no element passes. */
  lemma {:induction false} FilterNone<T(!new)>(s: seq<T>, p: T -> bool)
    requires forall x :: x in s ==> !p(x)
    ensures Filter(s, p) == []
    decreases |s|
  {
    if s != [] {
      var init := s[..|s| - 1];
      assert s == init + [s[|s| - 1]];
      FilterNone(init, p);
    }
  }

  /** In a sequence without duplicates, an element occurs neither before nor after its index. */
  lemma NoDupsAt<T>(s: seq<T>, j: nat)
    requires NoDups(s) && j < |s|
    ensures s[j] !in s[..j] && s[j] !in s[j + 1..]
  {
    forall k | 0 <= k < j ensures s[..j][k] != s[j] {
      assert Related(s, Differ, k, j);
    }
    var rest := s[j + 1..];
    forall k | 0 <= k < |rest| ensures rest[k] != s[j] {
      assert rest[k] == s[j + 1 + k];
      assert Related(s, Differ, j, j + 1 + k);
    }
  }

  lemma NoDupsAppend<T>(a: seq<T>, b: seq<T>)
    requires NoDups(a) && NoDups(b) && forall x :: x in a ==> x !in b
    ensures NoDups(a + b)
  {
    var ab := a + b;
    forall i: nat, j: nat | i < j < |ab| ensures Related(ab, Differ, i, j) {
      if j < |a| {
        assert ab[i] == a[i] && ab[j] == a[j] && Related(a, Differ, i, j);
      } else if i >= |a| {
        assert ab[i] == b[i - |a|] && ab[j] == b[j - |a|] && Related(b, Differ, i - |a|, j - |a|);
      } else {
        assert ab[i] in a && ab[j] == b[j - |a|];
      }
    }
  }

  lemma NoDupsFilter<T(!new)>(s: seq<T>, p: T -> bool)
    requires NoDups(s)
    ensures NoDups(Filter(s, p))
  {
    FilterPairwise(s, p, Differ);
  }

  /** `shown.delete(x)` where `x` occurs once. */
  lemma DeleteOnce<T(!new)>(a: seq<T>, x: T, b: seq<T>)
    requires x !in a && x !in b
    ensures Filter(a + [x] + b, Absent([x])) == a + b
  {
    FilterAppend(a + [x], b, Absent([x]));
    FilterAppend(a, [x], Absent([x]));
    FilterAll(a, Absent([x]));
    FilterAll(b, Absent([x]));
    FilterNone([x], Absent([x]));
  }

  /**
   * Where `render`'s second loop stands after visiting `snapshot[..j]`: the
   * visited ids still active are kept, the rest of the snapshot is untouched,
   * and `removed` lists the visited ids no longer active.
   */
  predicate Removing(snapshot: seq<AlertId>, active: seq<AlertId>, j: nat, ids: seq<AlertId>, removed: seq<AlertId>)
  {
    && j <= |snapshot|
    && ids == Filter(snapshot[..j], Present(active)) + snapshot[j..]
    && removed == Filter(snapshot[..j], Absent(active))
  }

  /** One step of the second loop: the visited id stays when still active and is deleted otherwise. */
  lemma RemoveStep(snapshot: seq<AlertId>, active: seq<AlertId>, j: nat, ids: seq<AlertId>, removed: seq<AlertId>)
    requires NoDups(snapshot) && j < |snapshot| && Removing(snapshot, active, j, ids, removed)
    ensures snapshot[j] in active ==> Removing(snapshot, active, j + 1, ids, removed)
    ensures snapshot[j] !in active ==>
      Removing(snapshot, active, j + 1, Filter(ids, Absent([snapshot[j]])), removed + [snapshot[j]])
  {
    FilterSnoc(snapshot, j, Present(active));
    FilterSnoc(snapshot, j, Absent(active));
    assert snapshot[j..] == [snapshot[j]] + snapshot[j + 1..];
    if snapshot[j] !in active {
      RemoveStepDeletes(snapshot, active, j, ids, removed);
    } else {
      assert removed + [] == removed;
    }
  }

  /** `RemoveStep` for an id no longer active: deleting it from `ids` removes exactly that one occurrence. */
  lemma RemoveStepDeletes(snapshot: seq<AlertId>, active: seq<AlertId>, j: nat, ids: seq<AlertId>, removed: seq<AlertId>)
    requires NoDups(snapshot) && j < |snapshot| && Removing(snapshot, active, j, ids, removed)
    requires snapshot[j] !in active
    requires Filter(snapshot[..j + 1], Present(active)) == Filter(snapshot[..j], Present(active))
    requires Filter(snapshot[..j + 1], Absent(active)) == Filter(snapshot[..j], Absent(active)) + [snapshot[j]]
    requires snapshot[j..] == [snapshot[j]] + snapshot[j + 1..]
    ensures Removing(snapshot, active, j + 1, Filter(ids, Absent([snapshot[j]])), removed + [snapshot[j]])
  {
    var kept := Filter(snapshot[..j], Present(active));
    var id := snapshot[j];
    FilterMembers(snapshot[..j], Present(active));
    NoDupsAt(snapshot, j);
    DeleteOnce(kept, id, snapshot[j + 1..]);
    assert kept + snapshot[j..] == kept + [id] + snapshot[j + 1..];
  }

  /** The ids the first loop adds: active ids not shown before, in the order visited. */
  function Additions(shown: seq<AlertId>, active: seq<AlertId>): seq<AlertId>
  {
    Filter(active, Absent(shown))
  }

  /** The ids the second loop removes: shown ids no longer active, in insertion order. */
  function Removals(shown: seq<AlertId>, active: seq<AlertId>): seq<AlertId>
  {
    Filter(shown, Absent(active))
  }

  /**
   * `shown` after `render`: the still-active ids in their old order, then the
   * newly active ones; exactly the active ids, each once.
   */
  function NextShown(shown: seq<AlertId>, active: seq<AlertId>): (r: seq<AlertId>)
    ensures forall id :: id in r <==> id in active
    ensures NoDups(shown) && NoDups(active) ==> NoDups(r)
  {
    var kept := Filter(shown, Present(active));
    var added := Filter(active, Absent(shown));
    FilterMembers(shown, Present(active));
    FilterMembers(active, Absent(shown));
    if NoDups(shown) && NoDups(active) then
      NoDupsFilter(shown, Present(active));
      NoDupsFilter(active, Absent(shown));
      NoDupsAppend(kept, added);
      kept + added
    else
      kept + added
  }

  /** A second render of the same alerts adds and removes nothing. */
  lemma RenderAgainIsQuiet(shown: seq<AlertId>, active: seq<AlertId>)
    ensures Additions(NextShown(shown, active), active) == []
    ensures Removals(NextShown(shown, active), active) == []
  {
    var next := NextShown(shown, active);
    FilterNone(active, Absent(next));
    FilterNone(next, Absent(active));
  }

  /** After both loops: `shown` is `NextShown` and the removals are `Removals`. */
  lemma RenderOutcome(shown0: seq<AlertId>, active: seq<AlertId>)
    requires NoDups(shown0) && NoDups(active)
    ensures NoDups(shown0 + Additions(shown0, active))
    ensures Filter(shown0 + Additions(shown0, active), Present(active)) == NextShown(shown0, active)
    ensures Filter(shown0 + Additions(shown0, active), Absent(active)) == Removals(shown0, active)
  {
    var added := Additions(shown0, active);
    FilterMembers(active, Absent(shown0));
    NoDupsFilter(active, Absent(shown0));
    NoDupsAppend(shown0, added);
    FilterAppend(shown0, added, Present(active));
    FilterAppend(shown0, added, Absent(active));
    FilterAll(added, Present(active));
    FilterNone(added, Absent(active));
  }

  // ── The renderer ───────────────────────────────────────────────────────────

  /** What `render` did to the banner container, in order. */
  datatype BannerOp = Added(id: AlertId) | Removed(id: AlertId) | Cleared

  function AddOps(ids: seq<AlertId>): seq<BannerOp>
  {
    seq(|ids|, i requires 0 <= i < |ids| => Added(ids[i]))
  }

  function RemoveOps(ids: seq<AlertId>): seq<BannerOp>
  {
    seq(|ids|, i requires 0 <= i < |ids| => Removed(ids[i]))
  }

  /**
   * The renderer's module state: the `shown` set (in insertion order, as a
   * JavaScript Set iterates), the border's class name, and the log of banner
   * operations.
   */
  class Renderer {
    var shown: seq<AlertId>
    var border: string
    var banners: seq<BannerOp>

    predicate Valid()
      reads this
    {
      NoDups(shown)
    }

    constructor()
      ensures Valid() && shown == [] && border == "" && banners == []
    {
      shown := [];
      border := "";
      banners := [];
    }

    /** `render`'s first loop: a banner for each active id not yet shown. */
    method AddBanners(activeIds: seq<AlertId>)
      requires NoDups(activeIds)
      modifies this
      ensures shown == old(shown) + Additions(old(shown), activeIds)
      ensures banners == old(banners) + AddOps(Additions(old(shown), activeIds))
      ensures border == old(border)
    {
      var shown0, ids, ops := shown, shown, banners;
      var i := 0;
      while i < |activeIds|
        invariant 0 <= i <= |activeIds|
        invariant ids == shown0 + Filter(activeIds[..i], Absent(shown0))
        invariant ops == old(banners) + AddOps(Filter(activeIds[..i], Absent(shown0)))
      {
        var id := activeIds[i];
        ghost var before := Filter(activeIds[..i], Absent(shown0));
        assert Filter(activeIds[..i + 1], Absent(shown0)) == before + (if id in shown0 then [] else [id]) by {
          FilterSnoc(activeIds, i, Absent(shown0));
        }
        assert id in ids <==> id in shown0 by {
          FilterMembers(activeIds[..i], Absent(shown0));
          NoDupsAt(activeIds, i);
        }
        if id !in ids {
          ids := ids + [id];
          ops := ops + [Added(id)];
          assert AddOps(before + [id]) == AddOps(before) + [Added(id)];
        } else {
          assert before + [] == before;
        }
        i := i + 1;
      }
      assert activeIds[..i] == activeIds;
      shown, banners := ids, ops;
    }

    /**
     * `render`'s second loop: every shown id no longer active is deleted and
     * its banner removed. Iterating a snapshot is the same as iterating the
     * live Set, because only the id being visited is ever deleted.
     */
    method RemoveBanners(activeIds: seq<AlertId>)
      requires NoDups(shown)
      modifies this
      ensures shown == Filter(old(shown), Present(activeIds))
      ensures banners == old(banners) + RemoveOps(Removals(old(shown), activeIds))
      ensures border == old(border)
    {
      var snapshot, ids, ops := shown, shown, banners;
      ghost var removed: seq<AlertId> := [];
      var j := 0;
      assert snapshot[..0] == [] && snapshot[0..] == snapshot;
      while j < |snapshot|
        invariant 0 <= j <= |snapshot|
        invariant border == old(border)
        invariant Removing(snapshot, activeIds, j, ids, removed)
        invariant ops == old(banners) + RemoveOps(removed)
      {
        var id := snapshot[j];
        RemoveStep(snapshot, activeIds, j, ids, removed);
        if id !in activeIds {
          ids := Filter(ids, Absent([id]));
          ops := ops + [Removed(id)];
          assert RemoveOps(removed + [id]) == RemoveOps(removed) + [Removed(id)];
          removed := removed + [id];
        }
        j := j + 1;
      }
      assert snapshot[..j] == snapshot;
      assert snapshot[j..] == [];
      shown, banners := ids, ops;
    }

    /**
     * `render(state)`; `None` stands for a null or undefined state. Outside a
     * meeting everything is cleared; in a meeting the border takes the top
     * alert's class, each newly active alert gets a banner and each banner
     * whose alert cleared is removed.
     */
    method Render(state: Option<MeetingState>)
      requires Valid()
      modifies this
      ensures Valid()
      ensures state.None? || !InMeeting(state.value) ==>
        shown == [] && border == "" && banners == old(banners) + [Cleared]
      ensures state.Some? && InMeeting(state.value) ==>
        var active := ActiveIds(state.value);
        && shown == NextShown(old(shown), active)
        && border == BorderClass(state.value)
        && banners == old(banners) + AddOps(Additions(old(shown), active)) + RemoveOps(Removals(old(shown), active))
    {
      if state.None? || !InMeeting(state.value) {
        border := "";
        banners := banners + [Cleared];
        shown := [];
        return;
      }
      var active := Active(state.value);
      if |active| == 0 {
        border := "";
      } else {
        border := SeverityClass(active[0].severity);
      }
      var activeIds := ActiveIds(state.value);
      RenderOutcome(shown, activeIds);
      AddBanners(activeIds);
      RemoveBanners(activeIds);
    }
  }
}
