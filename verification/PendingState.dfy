/** The one place where the phone merges its pending approvals and prompts: frames
    bring them one by one, a fetched snapshot replaces them, and the two race. */
module PendingState {
  import opened RemoteLink
  import opened Sequences
  import opened Wrappers

  /** In milliseconds. */
  type Time = nat

  const RESOLUTION_RETENTION: nat := 120_000

  datatype Request = Request(id: RequestID, content: string)

  /** `resolved` and `upserted` are the journals: when the user resolved a request
      here, and when a frame delivered it. */
  datatype Reconciler = Reconciler(
    approvals: seq<Request>, prompts: seq<string>,
    resolved: map<RequestID, Time>, upserted: map<RequestID, Time>,
    fetchStartedAt: Option<Time>, epoch: Option<string>, version: nat, lastPromptListAt: Option<Time>)

  const NEW_RECONCILER := Reconciler([], [], map[], map[], None, None, 0, None)

  function IDs(list: seq<Request>): (r: set<RequestID>)
    ensures forall id :: id in r <==> exists i | 0 <= i < |list| :: list[i].id == id
  {
    set i | 0 <= i < |list| :: list[i].id
  }

  /** No request is listed twice. */
  ghost predicate EachOnce(list: seq<Request>) {
    forall i, j | 0 <= i < j < |list| :: list[i].id != list[j].id
  }

  function IndexOf(list: seq<Request>, id: RequestID): (r: Option<nat>)
    ensures r.None? <==> id !in IDs(list)
    ensures r.Some? ==> r.value < |list| && list[r.value].id == id
  {
    if list == [] then None
    else if list[0].id == id then Some(0)
    else
      assert forall i | 0 < i < |list| :: list[i] == list[1..][i - 1];
      match IndexOf(list[1..], id) case None => None case Some(i) => Some(i + 1)
  }

  function Upsert(r: Reconciler, a: Request, now: Time): Reconciler {
    var i := IndexOf(r.approvals, a.id);
    r.(upserted := r.upserted[a.id := now], resolved := r.resolved - {a.id},
       approvals := if i.Some? then r.approvals[i.value := a] else r.approvals + [a])
  }

  function ResolveLocally(r: Reconciler, id: RequestID, now: Time): Reconciler {
    var i := IndexOf(r.approvals, id);
    r.(resolved := r.resolved[id := now], upserted := r.upserted - {id},
       approvals := if i.Some? then r.approvals[..i.value] + r.approvals[i.value + 1..] else r.approvals)
  }

  function Prune(resolved: map<RequestID, Time>, now: Time): map<RequestID, Time> {
    map id | id in resolved && now - resolved[id] < RESOLUTION_RETENTION :: resolved[id]
  }

  function BeginFetch(r: Reconciler, now: Time): Reconciler {
    r.(fetchStartedAt := Some(now), resolved := Prune(r.resolved, now))
  }

  /** Without coordinates, or of another epoch, a snapshot is always admitted. */
  function Admits(r: Reconciler, epoch: Option<string>, version: Option<nat>): bool {
    epoch.None? || version.None? || epoch != r.epoch || version.value > r.version
  }

  function Admitted(r: Reconciler, epoch: Option<string>, version: Option<nat>): Reconciler {
    if epoch.None? || version.None? || !Admits(r, epoch, version) then r else r.(epoch := epoch, version := version.value)
  }

  function Selected(list: seq<Request>, wanted: set<RequestID>): (r: seq<Request>)
    ensures IDs(r) == IDs(list) * wanted
  {
    if list == [] then []
    else
      var later := Selected(list[1..], wanted);
      assert forall i | 0 < i < |list| :: list[i] == list[1..][i - 1];
      assert IDs(list) == {list[0].id} + IDs(list[1..]);
      if list[0].id in wanted then
        assert IDs([list[0]] + later) == {list[0].id} + IDs(later) by { HeadAndTail(list[0], later); }
        [list[0]] + later
      else later
  }

  lemma HeadAndTail(a: Request, rest: seq<Request>)
    ensures IDs([a] + rest) == {a.id} + IDs(rest)
  {
    var all := [a] + rest;
    assert forall i | 0 < i < |all| :: all[i] == rest[i - 1];
    assert forall i | 0 <= i < |rest| :: rest[i] == all[i + 1];
    assert all[0] == a;
  }

  /** Delivered by a frame since the fetch began, or being answered. */
  function Protected(r: Reconciler, busy: set<RequestID>, now: Time): set<RequestID> {
    var start := if r.fetchStartedAt.Some? then r.fetchStartedAt.value else now;
    (set id | id in r.upserted && r.upserted[id] >= start) + busy
  }

  /** The snapshot without what was resolved here, then what it may not remove. */
  function ApplySnapshot(r: Reconciler, payloads: seq<Request>, busy: set<RequestID>, now: Time): Reconciler {
    var resolved := Prune(r.resolved, now);
    var entries := Selected(payloads, IDs(payloads) - resolved.Keys);
    var carried := Selected(r.approvals, (IDs(r.approvals) - IDs(entries)) * Protected(r, busy, now));
    r.(approvals := entries + carried, resolved := resolved, fetchStartedAt := None)
  }

  function ReplacePrompts(r: Reconciler, prompts: seq<string>, now: Time): Reconciler {
    r.(prompts := prompts, lastPromptListAt := Some(now))
  }

  predicate Outranked(r: Reconciler, now: Time) {
    var start := if r.fetchStartedAt.Some? then r.fetchStartedAt.value else now;
    r.lastPromptListAt.Some? && r.lastPromptListAt.value >= start
  }

  function ApplySnapshotPrompts(r: Reconciler, prompts: seq<string>, now: Time): Reconciler {
    if Outranked(r, now) then r else r.(prompts := prompts)
  }

  // ----- What the merges keep -----

  lemma {:induction false} SelectedOnce(list: seq<Request>, wanted: set<RequestID>)
    requires EachOnce(list)
    ensures EachOnce(Selected(list, wanted))
  {
    if list != [] {
      var rest := list[1..];
      assert forall i | 0 <= i < |rest| :: rest[i] == list[i + 1];
      SelectedOnce(rest, wanted);
      var later := Selected(rest, wanted);
      if list[0].id in wanted {
        var all := [list[0]] + later;
        assert list[0].id !in IDs(rest);
        forall i, j | 0 <= i < j < |all|
          ensures all[i].id != all[j].id
        {
          assert all[j] == later[j - 1] && later[j - 1].id in IDs(later);
          if i > 0 {
            assert all[i] == later[i - 1];
          }
        }
      }
    }
  }

  lemma ConcatIDs(a: seq<Request>, b: seq<Request>)
    ensures IDs(a + b) == IDs(a) + IDs(b)
    ensures EachOnce(a) && EachOnce(b) && IDs(a) !! IDs(b) ==> EachOnce(a + b)
  {
    var all := a + b;
    assert forall i | 0 <= i < |a| :: all[i] == a[i] && a[i].id in IDs(a);
    assert forall i | 0 <= i < |b| :: all[|a| + i] == b[i] && b[i].id in IDs(b);
    assert forall i | 0 <= i < |all| :: if i < |a| then all[i] == a[i] else all[i] == b[i - |a|];
    hide IDs;
    if EachOnce(a) && EachOnce(b) && IDs(a) !! IDs(b) {
      forall i, j | 0 <= i < j < |all|
        ensures all[i].id != all[j].id
      {
        if i < |a| <= j {
          assert all[i].id in IDs(a) && all[j].id in IDs(b);
        } else if j < |a| {
          assert a[i].id != a[j].id;
        } else {
          assert b[i - |a|].id != b[j - |a|].id;
        }
      }
    }
  }

  predicate ResolvedLately(r: Reconciler, id: RequestID, now: Time) {
    id in r.resolved && now - r.resolved[id] < RESOLUTION_RETENTION
  }

  /** A request is pending after a snapshot exactly when the snapshot lists it and it
      was not resolved here lately, or it was pending and a frame has delivered it
      since the fetch began or it is being answered. */
  lemma SnapshotKeepsExactly(r: Reconciler, payloads: seq<Request>, busy: set<RequestID>, now: Time, id: RequestID)
    ensures id in IDs(ApplySnapshot(r, payloads, busy, now).approvals) <==>
            || (id in IDs(payloads) && !ResolvedLately(r, id, now))
            || (id in IDs(r.approvals) && id in Protected(r, busy, now))
  {
    var resolved := Prune(r.resolved, now);
    var entries := Selected(payloads, IDs(payloads) - resolved.Keys);
    var carried := Selected(r.approvals, (IDs(r.approvals) - IDs(entries)) * Protected(r, busy, now));
    ConcatIDs(entries, carried);
    hide IDs, Selected, Protected;
  }

  lemma SnapshotOnce(r: Reconciler, payloads: seq<Request>, busy: set<RequestID>, now: Time)
    requires EachOnce(r.approvals) && EachOnce(payloads)
    ensures EachOnce(ApplySnapshot(r, payloads, busy, now).approvals)
  {
    var resolved := Prune(r.resolved, now);
    var entries := Selected(payloads, IDs(payloads) - resolved.Keys);
    var kept := (IDs(r.approvals) - IDs(entries)) * Protected(r, busy, now);
    SelectedOnce(payloads, IDs(payloads) - resolved.Keys);
    SelectedOnce(r.approvals, kept);
    ConcatIDs(entries, Selected(r.approvals, kept));
    hide IDs, Selected, EachOnce, Protected;
  }

  lemma UpsertKeeps(r: Reconciler, a: Request, now: Time)
    requires EachOnce(r.approvals)
    ensures var n := Upsert(r, a, now); EachOnce(n.approvals) && IDs(n.approvals) == IDs(r.approvals) + {a.id}
  {
    var i := IndexOf(r.approvals, a.id);
    if i.Some? {
      var n := r.approvals[i.value := a];
      assert forall k | 0 <= k < |n| :: n[k].id == r.approvals[k].id;
    } else {
      assert IDs([a]) == {a.id} by {
        assert [a][0] == a;
      }
      ConcatIDs(r.approvals, [a]);
    }
  }

  lemma ResolutionRemoves(r: Reconciler, id: RequestID, now: Time)
    requires EachOnce(r.approvals)
    ensures var n := ResolveLocally(r, id, now); EachOnce(n.approvals) && IDs(n.approvals) == IDs(r.approvals) - {id}
  {
    var i := IndexOf(r.approvals, id);
    if i.Some? {
      var left, right := r.approvals[..i.value], r.approvals[i.value + 1..];
      assert forall k | 0 <= k < |left| :: left[k] == r.approvals[k];
      assert forall k | 0 <= k < |right| :: right[k] == r.approvals[i.value + 1 + k];
      assert EachOnce(left) && EachOnce(right);
      CutOut(r.approvals, i.value);
      hide IDs;
      ConcatIDs(left, right);
    }
  }

  lemma CutOut(list: seq<Request>, i: nat)
    requires EachOnce(list) && i < |list|
    ensures var left, right := IDs(list[..i]), IDs(list[i + 1..]);
            left !! right && list[i].id !in left + right && IDs(list) == left + {list[i].id} + right
  {
    var left, right := list[..i], list[i + 1..];
    assert forall k | 0 <= k < |left| :: left[k] == list[k];
    assert forall k | 0 <= k < |right| :: right[k] == list[i + 1 + k];
    forall x | x in IDs(list)
      ensures x in IDs(left) || x == list[i].id || x in IDs(right)
    {
      var k :| 0 <= k < |list| && list[k].id == x;
      assert k < i ==> left[k].id == x;
      assert k > i ==> right[k - i - 1].id == x;
    }
  }

  // ----- What the lists hold -----

  lemma {:induction false} IndexOfFirst(list: seq<Request>, id: RequestID)
    requires id in IDs(list)
    ensures var i := IndexOf(list, id).value; forall k | 0 <= k < i :: list[k].id != id
  {
    if list[0].id != id {
      assert forall i | 0 < i < |list| :: list[i] == list[1..][i - 1];
      IndexOfFirst(list[1..], id);
    }
  }

  /** A request delivered again takes its old place with its new content, a new one
      goes last; the others stay as and where they are. The delivery is noted, and a
      resolution of that request is forgotten. */
  lemma UpsertLists(r: Reconciler, a: Request, now: Time)
    requires EachOnce(r.approvals)
    ensures var n := Upsert(r, a, now);
            && (a.id !in IDs(r.approvals) ==> n.approvals == r.approvals + [a])
            && (a.id in IDs(r.approvals) ==>
                  && |n.approvals| == |r.approvals|
                  && forall k | 0 <= k < |r.approvals| ::
                       n.approvals[k] == if r.approvals[k].id == a.id then a else r.approvals[k])
            && a.id in n.upserted && n.upserted[a.id] == now && a.id !in n.resolved
            && (forall id | id != a.id ::
                  && (id in n.upserted <==> id in r.upserted) && (id in r.upserted ==> n.upserted[id] == r.upserted[id])
                  && (id in n.resolved <==> id in r.resolved) && (id in r.resolved ==> n.resolved[id] == r.resolved[id]))
            && n == r.(approvals := n.approvals, upserted := n.upserted, resolved := n.resolved)
  {
    hide IDs;
  }

  /** A request resolved here goes, and the others keep their order and content. The
      resolution is noted, and a delivery of that request is forgotten. */
  lemma ResolutionLists(r: Reconciler, id: RequestID, now: Time)
    requires EachOnce(r.approvals)
    ensures var n := ResolveLocally(r, id, now);
            && n.approvals == Selected(r.approvals, IDs(r.approvals) - {id})
            && id in n.resolved && n.resolved[id] == now && id !in n.upserted
            && (forall o | o != id ::
                  && (o in n.upserted <==> o in r.upserted) && (o in r.upserted ==> n.upserted[o] == r.upserted[o])
                  && (o in n.resolved <==> o in r.resolved) && (o in r.resolved ==> n.resolved[o] == r.resolved[o]))
            && n == r.(approvals := n.approvals, upserted := n.upserted, resolved := n.resolved)
  {
    WithoutOne(r.approvals, id, IDs(r.approvals) - {id});
    hide IDs, Selected, EachOnce;
  }

  lemma {:induction false} SelectedAll(list: seq<Request>, wanted: set<RequestID>)
    requires forall a <- list :: a.id in wanted
    ensures Selected(list, wanted) == list
  {
    if list != [] {
      SelectedAll(list[1..], wanted);
    }
  }

  lemma {:induction false} SelectedConcat(a: seq<Request>, b: seq<Request>, wanted: set<RequestID>)
    ensures Selected(a + b, wanted) == Selected(a, wanted) + Selected(b, wanted)
  {
    if a == [] {
      assert a + b == b;
    } else {
      assert (a + b)[1..] == a[1..] + b;
      SelectedConcat(a[1..], b, wanted);
      hide IDs;
    }
  }

  lemma OthersAround(list: seq<Request>, i: nat)
    requires EachOnce(list) && i < |list|
    ensures forall a <- list[..i] :: a in list && a.id != list[i].id
    ensures forall a <- list[i + 1..] :: a in list && a.id != list[i].id
  {
  }

  lemma {:induction false} WithoutOne(list: seq<Request>, id: RequestID, wanted: set<RequestID>)
    requires EachOnce(list) && id !in wanted && forall a <- list :: a.id != id ==> a.id in wanted
    ensures var i := IndexOf(list, id);
            Selected(list, wanted) == if i.Some? then list[..i.value] + list[i.value + 1..] else list
  {
    var i := IndexOf(list, id);
    if i.Some? {
      var left, right := list[..i.value], list[i.value + 1..];
      OthersAround(list, i.value);
      assert Selected([list[i.value]], wanted) == [];
      hide IDs, EachOnce, Selected, IndexOf;
      SplitAt(list, i.value);
      SelectedConcat(left, [list[i.value]] + right, wanted);
      SelectedConcat([list[i.value]], right, wanted);
      SelectedAll(left, wanted);
      SelectedAll(right, wanted);
      assert [] + right == right;
    } else {
      ListedOnly(list, id);
      SelectedAll(list, wanted);
    }
  }

  lemma ListedOnly(list: seq<Request>, id: RequestID)
    requires id !in IDs(list)
    ensures forall a <- list :: a.id != id
  {
  }

  /** Selecting keeps the requests asked for as they are, in the order they had. */
  lemma {:induction false} SelectedKeeps(list: seq<Request>, wanted: set<RequestID>)
    ensures var r := Selected(list, wanted);
            && (forall a :: a in r <==> a in list && a.id in wanted)
            && (forall k | 0 <= k <= |list| :: Selected(list[..k], wanted) <= r)
  {
    if list != [] {
      var rest := list[1..];
      SelectedKeeps(rest, wanted);
      forall k | 0 <= k <= |list|
        ensures Selected(list[..k], wanted) <= Selected(list, wanted)
      {
        if k > 0 {
          assert list[..k][1..] == rest[..k - 1];
        }
      }
    }
  }

  /** What is pending after a snapshot, with its content: the snapshot's version of
      what it lists and was not resolved here lately, and then the version that was
      pending of what it does not bring and may not remove. */
  lemma SnapshotListsExactly(r: Reconciler, payloads: seq<Request>, busy: set<RequestID>, now: Time, a: Request)
    ensures var n := ApplySnapshot(r, payloads, busy, now);
            var brought := set id | id in IDs(payloads) && !ResolvedLately(r, id, now);
            && (a in n.approvals <==>
                  || (a in payloads && !ResolvedLately(r, a.id, now))
                  || (a in r.approvals && a.id !in brought && a.id in Protected(r, busy, now)))
            && n.approvals == Selected(payloads, brought) + Selected(r.approvals, Protected(r, busy, now) - brought)
  {
    var resolved := Prune(r.resolved, now);
    var brought := set id | id in IDs(payloads) && !ResolvedLately(r, id, now);
    assert IDs(payloads) - resolved.Keys == brought;
    var entries := Selected(payloads, brought);
    var kept := (IDs(r.approvals) - IDs(entries)) * Protected(r, busy, now);
    SelectedKeeps(payloads, brought);
    SelectedKeeps(r.approvals, kept);
    SelectedReads(r.approvals, kept, Protected(r, busy, now) - brought);
    ListedByID(payloads, a);
    ListedByID(r.approvals, a);
    hide IDs, Selected, Protected;
  }

  lemma ListedByID(list: seq<Request>, a: Request)
    ensures a in list ==> a.id in IDs(list)
  {
  }

  lemma {:induction false} SelectedReads(list: seq<Request>, a: set<RequestID>, b: set<RequestID>)
    requires forall id <- IDs(list) :: id in a <==> id in b
    ensures Selected(list, a) == Selected(list, b)
  {
    if list != [] {
      assert forall i | 0 < i < |list| :: list[i] == list[1..][i - 1];
      assert list[0].id in IDs(list);
      SelectedReads(list[1..], a, b);
    }
  }

  // ----- Which snapshots are admitted -----

  datatype Coordinates = Coordinates(epoch: Option<string>, version: Option<nat>) {
    predicate Known() { epoch.Some? && version.Some? }
  }

  /** The snapshots of a run that were admitted, by their coordinates. */
  function AdmittedOf(r: Reconciler, asked: seq<Coordinates>): seq<Coordinates>
    decreases |asked|
  {
    if asked == [] then []
    else
      var c := asked[0];
      (if Admits(r, c.epoch, c.version) then [c] else []) + AdmittedOf(Admitted(r, c.epoch, c.version), asked[1..])
  }

  /** The newest of them that had coordinates, if any had. */
  function LastKnown(admitted: seq<Coordinates>): (r: Option<Coordinates>)
    ensures r.Some? ==> r.value.Known()
  {
    if admitted == [] then None
    else if admitted[|admitted| - 1].Known() then Some(admitted[|admitted| - 1])
    else LastKnown(admitted[..|admitted| - 1])
  }

  lemma {:induction false} LastKnownConcat(a: seq<Coordinates>, b: seq<Coordinates>)
    ensures LastKnown(a + b) == if LastKnown(b).Some? then LastKnown(b) else LastKnown(a)
  {
    if b == [] {
      assert a + b == a;
    } else {
      assert (a + b)[..|a + b| - 1] == a + b[..|b| - 1];
      LastKnownConcat(a, b[..|b| - 1]);
    }
  }

  /** The run leaves the coordinates of the newest admitted snapshot that had any. */
  function AfterAll(r: Reconciler, asked: seq<Coordinates>): Reconciler
    decreases |asked|
  {
    if asked == [] then r else AfterAll(Admitted(r, asked[0].epoch, asked[0].version), asked[1..])
  }

  lemma {:induction false} CoordinatesKept(r: Reconciler, asked: seq<Coordinates>)
    ensures var last, n := LastKnown(AdmittedOf(r, asked)), AfterAll(r, asked);
            n == match last case Some(c) => r.(epoch := c.epoch, version := c.version.value) case None => r
    decreases |asked|
  {
    if asked != [] {
      var c := asked[0];
      var first := if Admits(r, c.epoch, c.version) then [c] else [];
      CoordinatesKept(Admitted(r, c.epoch, c.version), asked[1..]);
      LastKnownConcat(first, AdmittedOf(Admitted(r, c.epoch, c.version), asked[1..]));
    }
  }

  /** After any run of snapshots: the next one is admitted exactly when it lacks
      coordinates, is the first to have them, is of another epoch than the newest
      admitted one that had them, or has a higher version than that one. */
  lemma NextIsAdmittedExactlyWhen(asked: seq<Coordinates>, next: Coordinates)
    ensures var r, last := AfterAll(NEW_RECONCILER, asked), LastKnown(AdmittedOf(NEW_RECONCILER, asked));
            Admits(r, next.epoch, next.version) <==>
              || !next.Known() || last.None? || next.epoch != last.value.epoch
              || next.version.value > last.value.version.value
  {
    CoordinatesKept(NEW_RECONCILER, asked);
  }

  // ----- The prompts -----

  /** The client merges a snapshot's approvals first and its prompts next. */
  function ClientApplies(r: Reconciler, payloads: seq<Request>, busy: set<RequestID>, prompts: seq<string>,
                         now: Time, promptsNow: Time): Reconciler {
    ApplySnapshotPrompts(ApplySnapshot(r, payloads, busy, now), prompts, promptsNow)
  }

  /** A prompt list that came by frame after the fetch began is to outrank the
      snapshot's. By then the start of the fetch is forgotten: it does exactly when it
      came no earlier than the very moment the snapshot's prompts are applied. */
  lemma PromptsOutrankedExactlyWhen(r: Reconciler, payloads: seq<Request>, busy: set<RequestID>, prompts: seq<string>,
                                    now: Time, promptsNow: Time)
    requires r.fetchStartedAt.Some? && r.fetchStartedAt.value <= promptsNow
    ensures var applied := ApplySnapshot(r, payloads, busy, now);
            && (Outranked(applied, promptsNow) <==> r.lastPromptListAt.Some? && r.lastPromptListAt.value >= promptsNow)
            && ((Outranked(applied, promptsNow) <==> Outranked(r, promptsNow)) <==>
                  !(r.lastPromptListAt.Some? && r.fetchStartedAt.value <= r.lastPromptListAt.value < promptsNow))
  {
  }

  /** A list that came between the fetch and its answer is overwritten by the answer. */
  lemma NewerPromptsAreOverwritten()
    ensures var r := ReplacePrompts(BeginFetch(NEW_RECONCILER, 10), ["new"], 20);
            && Outranked(r, 30)
            && ClientApplies(r, [], {}, ["old"], 30, 30).prompts == ["old"]
  {
    assert Prune(map[], 10) == map[];
  }

  // ----- As the phone keeps it -----

  class PendingStateReconciler {
    var approvals: seq<Request>
    var prompts: seq<string>
    var locallyResolvedApprovals: map<RequestID, Time>
    var wsUpsertTimes: map<RequestID, Time>
    var snapshotFetchStartedAt: Option<Time>
    var lastSnapshotEpoch: Option<string>
    var lastSnapshotVersion: nat
    var lastWSPromptListAt: Option<Time>

    function State(): Reconciler
      reads this
    {
      Reconciler(approvals, prompts, locallyResolvedApprovals, wsUpsertTimes, snapshotFetchStartedAt,
                 lastSnapshotEpoch, lastSnapshotVersion, lastWSPromptListAt)
    }

    constructor ()
      ensures State() == NEW_RECONCILER
    {
      approvals, prompts, locallyResolvedApprovals, wsUpsertTimes := [], [], map[], map[];
      snapshotFetchStartedAt, lastSnapshotEpoch, lastSnapshotVersion, lastWSPromptListAt := None, None, 0, None;
    }

    method ApplyWSApprovalUpsert(payload: Request, now: Time) returns (added: bool)
      modifies this
      ensures State() == Upsert(old(State()), payload, now)
      ensures added <==> payload.id !in IDs(old(approvals))
    {
      wsUpsertTimes := wsUpsertTimes[payload.id := now];
      locallyResolvedApprovals := locallyResolvedApprovals - {payload.id};
      var index := IndexOf(approvals, payload.id);
      if index.Some? {
        approvals := approvals[index.value := payload];
        return false;
      }
      approvals := approvals + [payload];
      added := true;
    }

    method ApplyLocalApprovalResolution(id: RequestID, now: Time) returns (removed: bool)
      modifies this
      ensures State() == ResolveLocally(old(State()), id, now)
      ensures removed <==> id in IDs(old(approvals))
    {
      locallyResolvedApprovals := locallyResolvedApprovals[id := now];
      wsUpsertTimes := wsUpsertTimes - {id};
      var index := IndexOf(approvals, id);
      if index.None? {
        return false;
      }
      approvals := approvals[..index.value] + approvals[index.value + 1..];
      removed := true;
    }

    method PruneResolutionJournal(now: Time)
      modifies this`locallyResolvedApprovals
      ensures State() == old(State()).(resolved := Prune(old(locallyResolvedApprovals), now))
    {
      locallyResolvedApprovals :=
        map id | id in locallyResolvedApprovals && now - locallyResolvedApprovals[id] < RESOLUTION_RETENTION
            :: locallyResolvedApprovals[id];
    }

    method BeginSnapshotFetch(now: Time)
      modifies this
      ensures State() == BeginFetch(old(State()), now)
    {
      snapshotFetchStartedAt := Some(now);
      PruneResolutionJournal(now);
    }

    method AdmitSnapshot(epoch: Option<string>, version: Option<nat>) returns (admitted: bool)
      modifies this
      ensures State() == Admitted(old(State()), epoch, version) && admitted == Admits(old(State()), epoch, version)
    {
      if epoch.None? || version.None? {
        return true;
      }
      if epoch != lastSnapshotEpoch {
        lastSnapshotEpoch, lastSnapshotVersion := epoch, version.value;
        return true;
      }
      if version.value <= lastSnapshotVersion {
        return false;
      }
      lastSnapshotVersion := version.value;
      admitted := true;
    }

    method DropResolved(payloads: seq<Request>) returns (entries: seq<Request>)
      ensures entries == Selected(payloads, IDs(payloads) - locallyResolvedApprovals.Keys)
    {
      entries := [];
      ghost var wanted := IDs(payloads) - locallyResolvedApprovals.Keys;
      assert payloads[0..] == payloads;
      for i := 0 to |payloads|
        invariant entries + Selected(payloads[i..], wanted) == Selected(payloads, wanted)
      {
        assert payloads[i..][1..] == payloads[i + 1..];
        assert payloads[i].id in IDs(payloads);
        var later := Selected(payloads[i + 1..], wanted);
        if payloads[i].id !in locallyResolvedApprovals {
          Regroup(entries, [payloads[i]], later);
          entries := entries + [payloads[i]];
        }
      }
    }

    /** What the snapshot does not know about and may not remove. */
    method CarryProtected(entries: seq<Request>, busy: set<RequestID>, now: Time) returns (merged: seq<Request>)
      ensures merged == entries + Selected(approvals, (IDs(approvals) - IDs(entries)) * Protected(State(), busy, now))
    {
      merged := entries;
      var snapshotIDs := IDs(entries);
      var fetchStart := if snapshotFetchStartedAt.Some? then snapshotFetchStartedAt.value else now;
      ghost var kept := (IDs(approvals) - snapshotIDs) * Protected(State(), busy, now);
      assert approvals[0..] == approvals;
      for i := 0 to |approvals|
        invariant merged + Selected(approvals[i..], kept) == entries + Selected(approvals, kept)
      {
        assert approvals[i..][1..] == approvals[i + 1..];
        var id := approvals[i].id;
        assert id in IDs(approvals);
        var later := Selected(approvals[i + 1..], kept);
        if id !in snapshotIDs && ((id in wsUpsertTimes && wsUpsertTimes[id] >= fetchStart) || id in busy) {
          Regroup(merged, [approvals[i]], later);
          merged := merged + [approvals[i]];
        }
      }
    }

    method ApplySnapshotApprovals(payloads: seq<Request>, busy: set<RequestID>, now: Time) returns (removedIDs: set<RequestID>)
      modifies this
      ensures State() == ApplySnapshot(old(State()), payloads, busy, now)
      ensures removedIDs == IDs(old(approvals)) - IDs(approvals)
    {
      hide IDs, Selected;
      PruneResolutionJournal(now);
      var snapshotEntries := DropResolved(payloads);
      var merged := CarryProtected(snapshotEntries, busy, now);
      removedIDs := IDs(approvals) - IDs(merged);
      approvals := merged;
      snapshotFetchStartedAt := None;
    }

    method ApplyWSPromptList(nextPrompts: seq<string>, now: Time)
      modifies this
      ensures State() == ReplacePrompts(old(State()), nextPrompts, now)
    {
      lastWSPromptListAt := Some(now);
      prompts := nextPrompts;
    }

    method ApplySnapshotPromptList(nextPrompts: seq<string>, now: Time) returns (applied: bool)
      modifies this`prompts
      ensures State() == ApplySnapshotPrompts(old(State()), nextPrompts, now)
      ensures applied <==> !Outranked(old(State()), now)
    {
      var fetchStart := if snapshotFetchStartedAt.Some? then snapshotFetchStartedAt.value else now;
      if lastWSPromptListAt.Some? && lastWSPromptListAt.value >= fetchStart {
        return false;
      }
      prompts := nextPrompts;
      applied := true;
    }
  }
}
