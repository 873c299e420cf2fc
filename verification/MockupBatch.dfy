/** Analytics events on their way out: sent in batches, put back when a batch fails,
    with sends interleaved between the two locked regions of a flush. */
module MockupBatch {
  import opened Wrappers

  const BATCH_SIZE: nat := 100
  const MAX_RETAINED: nat := 10 * BATCH_SIZE

  /** An event is known by its place among the events sent. */
  type EventID = nat

  /** `inFlight` is the batch that one flush has taken and not settled; `delivered`
      and `dropped` record what became of the others. */
  datatype Client = Client(batch: seq<EventID>, inFlight: Option<seq<EventID>>, sent: nat,
                           delivered: seq<EventID>, dropped: seq<EventID>)

  const NEW_CLIENT := Client([], None, 0, [], [])

  datatype Event = SendEvent | FlushTakes | FlushSettles(succeeded: bool)

  /** A failed batch goes back in front, as far as there is room. */
  function Retry(failed: seq<EventID>, queued: seq<EventID>): seq<EventID> {
    if |queued| + |failed| > MAX_RETAINED then
      var keep := MAX_RETAINED - |queued|;
      if keep > 0 then failed[|failed| - keep..] + queued else queued
    else failed + queued
  }

  function Outstanding(c: Client): seq<EventID> {
    (if c.inFlight.Some? then c.inFlight.value else []) + c.batch
  }

  function Step(c: Client, e: Event): Client {
    match e
    case SendEvent => c.(batch := c.batch + [c.sent], sent := c.sent + 1)
    case FlushTakes =>
      if c.batch == [] || c.inFlight.Some? then c else c.(inFlight := Some(c.batch), batch := [])
    case FlushSettles(succeeded) =>
      if c.inFlight.None? then c
      else if succeeded then c.(inFlight := None, delivered := c.delivered + c.inFlight.value)
      else
        var kept := Retry(c.inFlight.value, c.batch);
        c.(inFlight := None, batch := kept, dropped := c.dropped + Outstanding(c)[..|Outstanding(c)| - |kept|])
  }

  function Run(events: seq<Event>): Client {
    if events == [] then NEW_CLIENT else Step(Run(events[..|events| - 1]), events[|events| - 1])
  }

  function MaxOf(a: int, b: int): int {
    if a > b then a else b
  }

  function MinOf(a: int, b: int): int {
    if a < b then a else b
  }

  /** After a failed flush the queue is the newest part of the failed batch followed
      by what was sent meanwhile, and none of the latter is lost. */
  lemma RetryIsNewestSuffix(failed: seq<EventID>, queued: seq<EventID>)
    ensures var kept, all := Retry(failed, queued), failed + queued;
            && |kept| == MaxOf(|queued|, MinOf(|all|, MAX_RETAINED))
            && kept == all[|all| - |kept|..]
  {
    var all := failed + queued;
    assert all[0..] == all && all[|failed|..] == queued;
    if |all| > MAX_RETAINED && MAX_RETAINED > |queued| {
      var cut := |failed| - (MAX_RETAINED - |queued|);
      assert all[cut..] == failed[cut..] + queued;
    }
  }

  // ----- Over whole runs -----

  predicate Increasing(ids: seq<EventID>) {
    forall i, j | 0 <= i < j < |ids| :: ids[i] < ids[j]
  }

  /** The events from `lo` up to the last one sent. */
  predicate Contiguous(ids: seq<EventID>, lo: nat, sent: nat) {
    lo + |ids| == sent && forall i | 0 <= i < |ids| :: ids[i] == lo + i
  }

  predicate AllBelow(ids: seq<EventID>, lo: nat) {
    forall id <- ids :: id < lo
  }

  /** Nothing is in two places, and nothing below the outstanding events is missing. */
  ghost predicate Inv(c: Client, lo: nat) {
    && Contiguous(Outstanding(c), lo, c.sent)
    && Increasing(c.delivered) && Increasing(c.dropped)
    && AllBelow(c.delivered, lo) && AllBelow(c.dropped, lo)
    && (forall id: nat | id < lo :: id in c.delivered || id in c.dropped)
    && (forall id: nat :: !(id in c.delivered && id in c.dropped))
  }

  /** Taking the oldest `n` outstanding events, in order, to a list of older ones. */
  lemma AppendOldest(older: seq<EventID>, all: seq<EventID>, n: nat, lo: nat, sent: nat)
    requires Increasing(older) && AllBelow(older, lo) && Contiguous(all, lo, sent) && n <= |all|
    ensures var r := older + all[..n];
            && Increasing(r) && AllBelow(r, lo + n) && Contiguous(all[n..], lo + n, sent)
            && forall id: nat :: id in r <==> id in older || lo <= id < lo + n
  {
    var r := older + all[..n];
    assert forall i | |older| <= i < |r| :: r[i] == lo + (i - |older|);
    forall id: nat
      ensures id in r <==> id in older || lo <= id < lo + n
    {
      if lo <= id < lo + n {
        assert r[|older| + (id - lo)] == id;
      }
    }
    forall i | 0 <= i < |older|
      ensures r[i] < lo
    {
      assert older[i] in older;
    }
  }

  lemma SettleKeeps(c: Client, succeeded: bool, lo: nat) returns (next: nat)
    requires Inv(c, lo)
    ensures Inv(Step(c, FlushSettles(succeeded)), next) && next >= lo
  {
    next := lo;
    if c.inFlight.Some? {
      var all, r := Outstanding(c), Step(c, FlushSettles(succeeded));
      if succeeded {
        var n := |c.inFlight.value|;
        assert all[..n] == c.inFlight.value && all[n..] == c.batch == Outstanding(r);
        AppendOldest(c.delivered, all, n, lo, c.sent);
        next := lo + n;
      } else {
        RetryIsNewestSuffix(c.inFlight.value, c.batch);
        var n := |all| - |r.batch|;
        assert all[n..] == r.batch == Outstanding(r);
        AppendOldest(c.dropped, all, n, lo, c.sent);
        next := lo + n;
      }
      hide Retry;
    }
  }

  lemma StepKeeps(c: Client, e: Event, lo: nat) returns (next: nat)
    requires Inv(c, lo)
    ensures Inv(Step(c, e), next) && next >= lo
  {
    next := lo;
    match e {
      case SendEvent =>
        assert Outstanding(Step(c, e)) == Outstanding(c) + [c.sent];
      case FlushTakes =>
        assert Outstanding(Step(c, e)) == Outstanding(c);
      case FlushSettles(succeeded) =>
        next := SettleKeeps(c, succeeded, lo);
    }
    hide Step;
  }

  lemma {:induction false} RunKeeps(events: seq<Event>) returns (lo: nat)
    ensures Inv(Run(events), lo)
  {
    if events == [] {
      lo := 0;
    } else {
      lo := RunKeeps(events[..|events| - 1]);
      hide Inv, Step;
      lo := StepKeeps(Run(events[..|events| - 1]), events[|events| - 1], lo);
    }
  }

  /** Over every run: what was delivered was delivered in order and once; every event
      sent is delivered, dropped, or still outstanding; and whatever is outstanding is
      newer than all that was delivered or dropped. */
  lemma DeliveredInOrderOldestDropped(events: seq<Event>)
    ensures var c := Run(events);
            && Increasing(c.delivered)
            && (forall id: nat | id < c.sent :: id in c.delivered || id in c.dropped || id in Outstanding(c))
            && (forall id <- Outstanding(c) :: id < c.sent && AllBelow(c.delivered, id) && AllBelow(c.dropped, id))
            && (forall id: nat :: !(id in c.delivered && id in c.dropped))
  {
    var lo := RunKeeps(events);
    var c := Run(events);
    var all := Outstanding(c);
    hide Run, Outstanding;
    forall id: nat | id < c.sent
      ensures id in c.delivered || id in c.dropped || id in all
    {
      if id >= lo {
        assert all[id - lo] == id;
      }
    }
    assert forall id <- all :: lo <= id < c.sent;
  }

  /** An event is dropped only by a failed flush that finds the queue over its limit,
      and then only the oldest of those not delivered yet. */
  lemma OnlyOldestUndeliveredAreDropped(c: Client, e: Event)
    ensures var r, all := Step(c, e), Outstanding(c);
            && |c.dropped| <= |r.dropped|
            && r.dropped == c.dropped + all[..|r.dropped| - |c.dropped|]
            && (|r.dropped| > |c.dropped| ==>
                  e == FlushSettles(false) && |all| > MAX_RETAINED && r.batch == all[|r.dropped| - |c.dropped|..])
  {
    if e == FlushSettles(false) && c.inFlight.Some? {
      RetryIsNewestSuffix(c.inFlight.value, c.batch);
    } else {
      assert Outstanding(c)[..0] == [] && c.dropped + [] == c.dropped;
    }
    hide Retry;
  }

  // ----- Where an event is -----

  function Sends(events: seq<Event>): nat {
    if events == [] then 0 else Sends(events[..|events| - 1]) + (if events[|events| - 1].SendEvent? then 1 else 0)
  }

  lemma {:induction false} SentIsCounted(events: seq<Event>)
    ensures Run(events).sent == Sends(events)
  {
    if events != [] {
      SentIsCounted(events[..|events| - 1]);
      hide Retry;
    }
  }

  predicate OnItsWay(c: Client, id: EventID) {
    c.inFlight.Some? && id in c.inFlight.value
  }

  /** Over every run: a send queues the next event; a flush takes the whole queue if no
      other is under way; a flush that succeeds delivers what it took, one that fails
      puts it back, except for events with too many newer ones, which are dropped. */
  lemma EventMovesExactly(events: seq<Event>, e: Event, id: EventID)
    ensures var c, r := Run(events), Run(events + [e]);
            && (id in r.batch <==>
                  || (id in c.batch && !(e.FlushTakes? && c.inFlight.None?))
                  || (e.SendEvent? && id == Sends(events))
                  || (e == FlushSettles(false) && OnItsWay(c, id) && Sends(events) - id <= MAX_RETAINED))
            && (OnItsWay(r, id) <==>
                  || (OnItsWay(c, id) && !e.FlushSettles?)
                  || (e.FlushTakes? && c.inFlight.None? && id in c.batch))
            && (id in r.delivered <==> id in c.delivered || (e == FlushSettles(true) && OnItsWay(c, id)))
            && (id in r.dropped <==>
                  id in c.dropped || (e == FlushSettles(false) && OnItsWay(c, id) && Sends(events) - id > MAX_RETAINED))
  {
    var c, all := Run(events), events + [e];
    assert all[..|all| - 1] == events;
    SentIsCounted(events);
    assert Run(all) == Step(c, e);
    if e == FlushSettles(false) && c.inFlight.Some? {
      var lo := RunKeeps(events);
      hide Run;
      FailureMoves(c, lo, id);
    }
    hide Run, Retry;
  }

  lemma FailureMoves(c: Client, lo: nat, id: EventID)
    requires Inv(c, lo) && c.inFlight.Some?
    ensures var r := Step(c, FlushSettles(false));
            && (id in r.batch <==> id in c.batch || (OnItsWay(c, id) && c.sent - id <= MAX_RETAINED))
            && (id in r.dropped <==> id in c.dropped || (OnItsWay(c, id) && c.sent - id > MAX_RETAINED))
  {
    var failed, all := c.inFlight.value, Outstanding(c);
    var r := Step(c, FlushSettles(false));
    RetryIsNewestSuffix(failed, c.batch);
    var n := |all| - |r.batch|;
    assert n <= |failed| && all[n..] == r.batch && r.dropped == c.dropped + all[..n];
    assert n == MaxOf(0, MinOf(|failed|, |all| - MAX_RETAINED));
    hide Retry, Step, Increasing, AllBelow;
    Among(all, lo, c.sent, 0, |failed|, id);
    Among(all, lo, c.sent, |failed|, |all|, id);
    Among(all, lo, c.sent, n, |all|, id);
    Among(all, lo, c.sent, 0, n, id);
    assert all[0..|failed|] == failed && all[|failed|..|all|] == c.batch;
    assert all[n..|all|] == r.batch && all[0..n] == all[..n];
  }

  lemma Among(all: seq<EventID>, lo: nat, sent: nat, from: nat, to: nat, id: EventID)
    requires Contiguous(all, lo, sent) && from <= to <= |all|
    ensures id in all[from..to] <==> lo + from <= id < lo + to
  {
    if lo + from <= id < lo + to {
      assert all[from..to][id - lo - from] == id;
    }
  }

  // ----- As the proxy keeps it: each method is one locked region -----

  class MockupClient {
    var batch: seq<EventID>
    ghost var inFlight: Option<seq<EventID>>
    var sent: nat
    ghost var delivered: seq<EventID>
    ghost var dropped: seq<EventID>

    ghost function State(): Client
      reads this
    {
      Client(batch, inFlight, sent, delivered, dropped)
    }

    constructor ()
      ensures State() == NEW_CLIENT
    {
      batch, inFlight, sent, delivered, dropped := [], None, 0, [], [];
    }

    method Send() returns (shouldFlush: bool)
      modifies this
      ensures State() == Step(old(State()), SendEvent)
      ensures shouldFlush == (|batch| >= BATCH_SIZE)
    {
      batch := batch + [sent];
      sent := sent + 1;
      shouldFlush := |batch| >= BATCH_SIZE;
    }

    /** The first region of a flush; there is one flusher at a time. */
    method TakeBatch() returns (events: seq<EventID>)
      requires inFlight.None?
      modifies this
      ensures State() == Step(old(State()), FlushTakes) && events == old(batch)
    {
      events := batch;
      if events != [] {
        batch := [];
        inFlight := Some(events);
      }
    }

    /** The second region, with the outcome of sending `events`. */
    method SettleBatch(events: seq<EventID>, succeeded: bool)
      requires inFlight == Some(events)
      modifies this
      ensures State() == Step(old(State()), FlushSettles(succeeded))
    {
      ghost var all := events + batch;
      if !succeeded {
        RetryIsNewestSuffix(events, batch);
        var maxRetainedEvents := BATCH_SIZE * 10;
        if |batch| + |events| > maxRetainedEvents {
          var keepFromFailed := maxRetainedEvents - |batch|;
          if keepFromFailed > 0 {
            batch := events[|events| - keepFromFailed..] + batch;
          }
        } else {
          batch := events + batch;
        }
        dropped := dropped + all[..|all| - |batch|];
      } else {
        delivered := delivered + events;
      }
      inFlight := None;
    }
  }
}
