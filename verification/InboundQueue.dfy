/** The bounded receive queue of the phone's transport and the drain that feeds
    frames to the client one at a time.

    This is one socket generation; SocketGenerations shows that every generation
    is such a run. */
module InboundQueue {
  import opened Wrappers
  import opened Utf8
  import Sequences

  const TERMINAL_GRID_SNAPSHOT: Byte := 0x23
  const OUTPUT: Byte := 0x20

  datatype Kind = Grid | Output | Control

  /** A received frame; its second byte is the frame type. */
  datatype Data = Data(bytes: Bytes) {
    function Count(): nat { |bytes| }
  }

  function KindOf(data: Data): Kind {
    if |data.bytes| > 1 && data.bytes[1] == TERMINAL_GRID_SNAPSHOT then Grid
    else if |data.bytes| > 1 && data.bytes[1] == OUTPUT then Output
    else Control
  }

  /** `arrival` stands for the time of receipt: the position in the received stream. */
  datatype Message = Message(data: Data, arrival: nat, suppressed: bool) {
    predicate IsGrid() { KindOf(data) == Grid }
    predicate IsOutput() { KindOf(data) == Output }
    /** Only output whose visual application was already abandoned may be dropped. */
    predicate IsEvictable() { IsOutput() && suppressed }
  }

  datatype Queue = Queue(messages: seq<Message>, bufferedBytes: int,
                         supersededGrids: nat, evictedOutput: nat, recoveryPending: bool)

  const EMPTY_QUEUE := Queue([], 0, 0, 0, false)

  // ----- Shedding, in one shot -----

  function TotalBytes(ms: seq<Message>): nat {
    if ms == [] then 0 else ms[0].data.Count() + TotalBytes(ms[1..])
  }

  function RemoveAt(ms: seq<Message>, i: nat): (r: seq<Message>)
    requires i < |ms|
    ensures |r| == |ms| - 1
  {
    ms[..i] + ms[i + 1..]
  }

  function FirstIndex(ms: seq<Message>, p: Message -> bool): (r: Option<nat>)
    ensures r.None? ==> forall m <- ms :: !p(m)
    ensures r.Some? ==> r.value < |ms| && p(ms[r.value]) && forall j | 0 <= j < r.value :: !p(ms[j])
  {
    if ms == [] then None
    else if p(ms[0]) then Some(0)
    else match FirstIndex(ms[1..], p)
         case None => None
         case Some(i) => Some(i + 1)
  }

  /** Removes the oldest messages satisfying `p` for as long as more than `budget` bytes are held. */
  function ShedWhileOver(ms: seq<Message>, budget: int, p: Message -> bool): (r: seq<Message>)
    ensures |r| <= |ms|
    decreases |ms|
  {
    var i := FirstIndex(ms, p);
    if TotalBytes(ms) > budget && i.Some? then ShedWhileOver(RemoveAt(ms, i.value), budget, p) else ms
  }

  function SuppressOutputs(ms: seq<Message>): (r: seq<Message>)
    ensures |r| == |ms|
    ensures forall i | 0 <= i < |ms| :: r[i] == if ms[i].IsOutput() then ms[i].(suppressed := true) else ms[i]
  {
    seq(|ms|, i requires 0 <= i < |ms| => if ms[i].IsOutput() then ms[i].(suppressed := true) else ms[i])
  }

  const IS_GRID: Message -> bool := (m: Message) => m.IsGrid()
  const IS_EVICTABLE: Message -> bool := (m: Message) => m.IsEvictable()
  const IS_OUTPUT: Message -> bool := (m: Message) => m.IsOutput()

  /** A newer grid replaces every queued one; a negative budget is never met. */
  function Superseded(ms: seq<Message>, data: Data): (r: seq<Message>)
    ensures |r| <= |ms|
  {
    if KindOf(data) == Grid then ShedWhileOver(ms, -1, IS_GRID) else ms
  }

  predicate Abandons(ms: seq<Message>, budget: nat) {
    TotalBytes(ms) > budget && FirstIndex(ms, IS_OUTPUT).Some?
  }

  /** Past the budget, the queued output will not be applied and may be dropped. */
  function Marked(ms: seq<Message>, budget: nat): (r: seq<Message>)
    ensures |r| == |ms|
  {
    if Abandons(ms, budget) then SuppressOutputs(ms) else ms
  }

  function Enqueue(q: Queue, data: Data, arrival: nat, budget: nat): Queue {
    var kept := Superseded(q.messages, data);
    var grown := kept + [Message(data, arrival, q.recoveryPending && KindOf(data) == Output)];
    var slim := ShedWhileOver(grown, budget, IS_GRID);
    var final := ShedWhileOver(Marked(slim, budget), budget, IS_EVICTABLE);
    Queue(final, TotalBytes(final),
          q.supersededGrids + (|q.messages| - |kept|) + (|grown| - |slim|),
          q.evictedOutput + (|slim| - |final|),
          q.recoveryPending || Abandons(slim, budget))
  }

  // ----- The queue at work: frames arrive, the drain takes them out -----

  /** The queue and the drain, with the history that the properties speak of. */
  datatype Pump = Pump(
    queue: Queue,
    draining: bool,
    enqueued: seq<Data>,    // every frame received
    popped: seq<Message>,    // every frame handed to the client
    takenGrids: nat,         // shed counts already reported
    takenOutput: nat,
    segment: nat,            // how many frames had been received at the last recovery signal
    applied: seq<Data>,     // output handed over for application since then
    signals: nat)

  const EMPTY_PUMP := Pump(EMPTY_QUEUE, false, [], [], 0, 0, 0, [], 0)

  datatype Event = Receive(data: Data) | DrainTurn

  function Step(s: Pump, e: Event, budget: nat): Pump {
    match e
    case Receive(data) =>
      var q := Enqueue(s.queue, data, |s.enqueued|, budget);
      s.(queue := q, draining := s.draining || q.messages != [], enqueued := s.enqueued + [data])
    case DrainTurn =>
      if !s.draining then s
      else if s.queue.messages == [] then
        // drained: the recovery signal is taken before the drain can start again
        if s.queue.recoveryPending
        then s.(queue := s.queue.(recoveryPending := false), draining := false,
                segment := |s.enqueued|, applied := [], signals := s.signals + 1)
        else s.(draining := false)
      else
        var m := s.queue.messages[0];
        s.(queue := Queue(s.queue.messages[1..], s.queue.bufferedBytes - m.data.Count(), 0, 0, s.queue.recoveryPending),
           popped := s.popped + [m],
           takenGrids := s.takenGrids + s.queue.supersededGrids,
           takenOutput := s.takenOutput + s.queue.evictedOutput,
           applied := if m.IsOutput() && !m.suppressed then s.applied + [m.data] else s.applied)
  }

  function Run(events: seq<Event>, budget: nat): Pump {
    if events == [] then EMPTY_PUMP
    else Step(Run(events[..|events| - 1], budget), events[|events| - 1], budget)
  }

  // ----- Vocabulary of the invariant -----

  function OfKind(k: Kind, frames: seq<Data>): seq<Data> {
    if frames == [] then []
    else (if KindOf(frames[0]) == k then [frames[0]] else []) + OfKind(k, frames[1..])
  }

  function Frames(ms: seq<Message>): (r: seq<Data>)
    ensures |r| == |ms|
    ensures forall i | 0 <= i < |ms| :: r[i] == ms[i].data
  {
    seq(|ms|, i requires 0 <= i < |ms| => ms[i].data)
  }

  /** The messages are received frames, in the order of receipt. */
  predicate InOrder(ms: seq<Message>, received: seq<Data>) {
    && (forall i | 0 <= i < |ms| :: ms[i].arrival < |received| && received[ms[i].arrival] == ms[i].data)
    && (forall i, j | 0 <= i < j < |ms| :: ms[i].arrival < ms[j].arrival)
  }

  predicate WithinBudget(ms: seq<Message>, budget: nat) {
    TotalBytes(ms) <= budget || forall m <- ms :: KindOf(m.data) == Control
  }

  /** Popped and queued frames together are what was received, less what was
      counted as shed; every control frame is among them. */
  ghost predicate Accounted(s: Pump) {
    var seen := s.popped + s.queue.messages;
    && InOrder(seen, s.enqueued)
    && OfKind(Control, Frames(seen)) == OfKind(Control, s.enqueued)
    && |OfKind(Grid, Frames(seen))| + s.takenGrids + s.queue.supersededGrids == |OfKind(Grid, s.enqueued)|
    && |OfKind(Output, Frames(seen))| + s.takenOutput + s.queue.evictedOutput == |OfKind(Output, s.enqueued)|
  }

  ghost predicate Bounded(s: Pump, budget: nat) {
    && s.queue.bufferedBytes == TotalBytes(s.queue.messages)
    && WithinBudget(s.queue.messages, budget)
    && |OfKind(Grid, Frames(s.queue.messages))| <= 1
  }

  /** Output received since the last recovery signal. */
  function OutputSince(s: Pump): seq<Data>
    requires s.segment <= |s.enqueued|
  {
    OfKind(Output, s.enqueued[s.segment..])
  }

  /** Without a pending recovery nothing has been given up; with one, nothing
      queued will be applied any more and something is missing. */
  ghost predicate GapFree(s: Pump) {
    && s.segment <= |s.enqueued|
    && if s.queue.recoveryPending
       then && (forall m <- s.queue.messages :: m.IsOutput() ==> m.suppressed)
            && s.applied < OutputSince(s)
       else && (forall m <- s.queue.messages :: m.IsOutput() ==> !m.suppressed)
            && s.applied + OfKind(Output, Frames(s.queue.messages)) == OutputSince(s)
  }

  ghost predicate Inv(s: Pump, budget: nat) {
    Accounted(s) && Bounded(s, budget) && GapFree(s)
  }

  // ----- Lemmas about shedding -----

  lemma {:induction false} OfKindConcat(k: Kind, a: seq<Data>, b: seq<Data>)
    ensures OfKind(k, a + b) == OfKind(k, a) + OfKind(k, b)
  {
    if a == [] {
      assert a + b == b;
      assert OfKind(k, a) == [];
      hide *;
    } else {
      var head := if KindOf(a[0]) == k then [a[0]] else [];
      assert (a + b)[0] == a[0] && (a + b)[1..] == a[1..] + b;
      assert OfKind(k, a + b) == head + OfKind(k, a[1..] + b);
      assert OfKind(k, a) == head + OfKind(k, a[1..]);
      hide *;
      OfKindConcat(k, a[1..], b);
      Sequences.Regroup(head, OfKind(k, a[1..]), OfKind(k, b));
    }
  }

  lemma OfKindSingle(data: Data)
    ensures forall k: Kind :: OfKind(k, [data]) == if k == KindOf(data) then [data] else []
  {
    assert forall k: Kind :: OfKind(k, [data][1..]) == [];
  }

  lemma FramesConcat(a: seq<Message>, b: seq<Message>)
    ensures Frames(a + b) == Frames(a) + Frames(b)
  {
  }

  lemma {:induction false} TotalBytesConcat(a: seq<Message>, b: seq<Message>)
    ensures TotalBytes(a + b) == TotalBytes(a) + TotalBytes(b)
  {
    if a == [] {
      assert a + b == b;
    } else {
      TotalBytesConcat(a[1..], b);
      assert (a + b)[1..] == a[1..] + b;
    }
  }

  lemma TotalBytesSingle(m: Message)
    ensures TotalBytes([m]) == m.data.Count()
  {
    assert TotalBytes([m][1..]) == 0;
  }

  lemma TotalBytesRemoveAt(ms: seq<Message>, i: nat)
    requires i < |ms|
    ensures TotalBytes(RemoveAt(ms, i)) == TotalBytes(ms) - ms[i].data.Count()
  {
    var left, here, right := ms[..i], [ms[i]], ms[i + 1..];
    TotalBytesSingle(ms[i]);
    Sequences.SplitAt(ms, i);
    assert RemoveAt(ms, i) == left + right;
    hide *;
    TotalBytesConcat(left, here + right);
    TotalBytesConcat(here, right);
    TotalBytesConcat(left, right);
  }

  /** `r` is `ms` without some messages of kind `k`. */
  ghost predicate Sheds(ms: seq<Message>, r: seq<Message>, k: Kind) {
    && |r| <= |ms|
    && |OfKind(k, Frames(ms))| == |OfKind(k, Frames(r))| + |ms| - |r|
    && (forall other: Kind :: other != k ==> OfKind(other, Frames(r)) == OfKind(other, Frames(ms)))
    && (forall m <- r :: m in ms)
  }

  lemma RemoveAtSheds(ms: seq<Message>, i: nat)
    requires i < |ms|
    ensures Sheds(ms, RemoveAt(ms, i), KindOf(ms[i].data))
  {
    var left, right := ms[..i], ms[i + 1..];
    Sequences.SplitAt(ms, i);
    assert Frames([ms[i]]) == [ms[i].data];
    FramesConcat(left, [ms[i]] + right);
    FramesConcat([ms[i]], right);
    FramesConcat(left, right);
    OfKindSingle(ms[i].data);
    assert RemoveAt(ms, i) == left + right;
    assert |OfKind(KindOf(ms[i].data), [ms[i].data])| == 1;
    hide OfKind, Frames, RemoveAt, KindOf;
    forall k: Kind
      ensures OfKind(k, Frames(ms)) == OfKind(k, Frames(left)) + (OfKind(k, [ms[i].data]) + OfKind(k, Frames(right)))
      ensures OfKind(k, Frames(RemoveAt(ms, i))) == OfKind(k, Frames(left)) + OfKind(k, Frames(right))
    {
      OfKindConcat(k, Frames(left), Frames([ms[i]]) + Frames(right));
      OfKindConcat(k, Frames([ms[i]]), Frames(right));
      OfKindConcat(k, Frames(left), Frames(right));
    }
  }

  lemma {:induction false} ShedWhileOverSheds(ms: seq<Message>, budget: int, p: Message -> bool, k: Kind)
    requires forall m: Message :: p(m) ==> KindOf(m.data) == k
    ensures var r := ShedWhileOver(ms, budget, p);
            Sheds(ms, r, k) && (TotalBytes(r) <= budget || forall m <- r :: !p(m))
    decreases |ms|
  {
    var i := FirstIndex(ms, p);
    if TotalBytes(ms) > budget && i.Some? {
      RemoveAtSheds(ms, i.value);
      ShedWhileOverSheds(RemoveAt(ms, i.value), budget, p, k);
    }
  }

  /** Removing queued messages keeps the order of those popped and those left. */
  lemma {:induction false} ShedWhileOverInOrder(
    popped: seq<Message>, ms: seq<Message>, budget: int, p: Message -> bool, received: seq<Data>)
    requires InOrder(popped + ms, received)
    ensures InOrder(popped + ShedWhileOver(ms, budget, p), received)
    decreases |ms|
  {
    var i := FirstIndex(ms, p);
    if TotalBytes(ms) > budget && i.Some? {
      var at := |popped| + i.value;
      assert popped + RemoveAt(ms, i.value) == RemoveAt(popped + ms, at);
      ShedWhileOverInOrder(popped, RemoveAt(ms, i.value), budget, p, received);
    }
  }

  // ----- Receiving a frame -----

  lemma SupersededSheds(ms: seq<Message>, data: Data)
    ensures Sheds(ms, Superseded(ms, data), Grid)
    ensures KindOf(data) == Grid ==> forall m <- Superseded(ms, data) :: !m.IsGrid()
  {
    ShedWhileOverSheds(ms, -1, IS_GRID, Grid);
  }

  lemma MarkedKeepsFrames(ms: seq<Message>, budget: nat)
    ensures Frames(Marked(ms, budget)) == Frames(ms)
  {
  }

  lemma AppendedKinds(ms: seq<Message>, m: Message)
    ensures forall k: Kind :: OfKind(k, Frames(ms + [m])) == OfKind(k, Frames(ms)) + OfKind(k, [m.data])
  {
    assert Frames([m]) == [m.data];
    FramesConcat(ms, [m]);
    hide OfKind, Frames;
    forall k: Kind
      ensures OfKind(k, Frames(ms + [m])) == OfKind(k, Frames(ms)) + OfKind(k, [m.data])
    {
      OfKindConcat(k, Frames(ms), [m.data]);
    }
  }

  /** What one frame does to the queue, kind by kind. */
  lemma EnqueueSheds(q: Queue, data: Data, arrival: nat, budget: nat)
    ensures var r := Enqueue(q, data, arrival, budget);
            var before, after := Frames(q.messages), Frames(r.messages);
            && OfKind(Control, after) == OfKind(Control, before) + OfKind(Control, [data])
            && |OfKind(Grid, after)| + r.supersededGrids
               == |OfKind(Grid, before)| + |OfKind(Grid, [data])| + q.supersededGrids
            && |OfKind(Output, after)| + r.evictedOutput
               == |OfKind(Output, before)| + |OfKind(Output, [data])| + q.evictedOutput
  {
    var kept := Superseded(q.messages, data);
    var m := Message(data, arrival, q.recoveryPending && KindOf(data) == Output);
    var slim := ShedWhileOver(kept + [m], budget, IS_GRID);
    SupersededSheds(q.messages, data);
    AppendedKinds(kept, m);
    ShedWhileOverSheds(kept + [m], budget, IS_GRID, Grid);
    MarkedKeepsFrames(slim, budget);
    ShedWhileOverSheds(Marked(slim, budget), budget, IS_EVICTABLE, Output);
    hide OfKind, Frames, ShedWhileOver, Marked, Superseded, KindOf;
  }

  lemma EnqueueInOrder(popped: seq<Message>, q: Queue, data: Data, received: seq<Data>, budget: nat)
    requires InOrder(popped + q.messages, received)
    ensures InOrder(popped + Enqueue(q, data, |received|, budget).messages, received + [data])
  {
    var kept := Superseded(q.messages, data);
    var m := Message(data, |received|, q.recoveryPending && KindOf(data) == Output);
    var slim := ShedWhileOver(kept + [m], budget, IS_GRID);
    ShedWhileOverInOrder(popped, q.messages, -1, IS_GRID, received);
    AppendInOrder(popped + kept, m, received);
    assert (popped + kept) + [m] == popped + (kept + [m]);
    ShedWhileOverInOrder(popped, kept + [m], budget, IS_GRID, received + [data]);
    MarkedInOrder(popped, slim, budget, received + [data]);
    ShedWhileOverInOrder(popped, Marked(slim, budget), budget, IS_EVICTABLE, received + [data]);
  }

  lemma AppendInOrder(ms: seq<Message>, m: Message, received: seq<Data>)
    requires InOrder(ms, received) && m.arrival == |received|
    ensures InOrder(ms + [m], received + [m.data])
  {
  }

  lemma MarkedInOrder(popped: seq<Message>, ms: seq<Message>, budget: nat, received: seq<Data>)
    requires InOrder(popped + ms, received)
    ensures InOrder(popped + Marked(ms, budget), received)
  {
    var a, b := popped + ms, popped + Marked(ms, budget);
    assert forall i | 0 <= i < |b| :: b[i].arrival == a[i].arrival && b[i].data == a[i].data;
  }

  lemma {:induction false} ShedWhileOverLightens(ms: seq<Message>, budget: int, p: Message -> bool)
    ensures TotalBytes(ShedWhileOver(ms, budget, p)) <= TotalBytes(ms)
    decreases |ms|
  {
    var i := FirstIndex(ms, p);
    if TotalBytes(ms) > budget && i.Some? {
      TotalBytesRemoveAt(ms, i.value);
      ShedWhileOverLightens(RemoveAt(ms, i.value), budget, p);
    }
  }

  lemma {:induction false} MarkedKeepsBytes(a: seq<Message>, b: seq<Message>)
    requires |a| == |b| && forall i | 0 <= i < |a| :: a[i].data == b[i].data
    ensures TotalBytes(a) == TotalBytes(b)
  {
    if a != [] {
      MarkedKeepsBytes(a[1..], b[1..]);
    }
  }

  lemma MarkedOverBudget(ms: seq<Message>, budget: nat)
    ensures var marked := Marked(ms, budget);
            && TotalBytes(marked) == TotalBytes(ms)
            && (TotalBytes(ms) > budget ==> forall m <- marked :: m.IsOutput() ==> m.suppressed)
            && ((forall m <- ms :: !m.IsGrid()) ==> forall m <- marked :: !m.IsGrid())
  {
    var marked := Marked(ms, budget);
    assert forall i | 0 <= i < |ms| :: ms[i].data == marked[i].data;
    MarkedKeepsBytes(ms, marked);
    hide TotalBytes;
    if forall m <- ms :: !m.IsGrid() {
      forall m <- marked
        ensures !m.IsGrid()
      {
        var i :| 0 <= i < |marked| && marked[i] == m;
        assert ms[i] in ms;
      }
    }
  }

  /** Once the budget is passed, grids go first, then every output is given up
      and goes too; only control frames can hold more than the budget. */
  lemma EnqueueWithinBudget(q: Queue, data: Data, arrival: nat, budget: nat)
    ensures WithinBudget(Enqueue(q, data, arrival, budget).messages, budget)
  {
    var m := Message(data, arrival, q.recoveryPending && KindOf(data) == Output);
    var grown := Superseded(q.messages, data) + [m];
    var slim := ShedWhileOver(grown, budget, IS_GRID);
    var marked := Marked(slim, budget);
    var final := ShedWhileOver(marked, budget, IS_EVICTABLE);
    ShedWhileOverSheds(grown, budget, IS_GRID, Grid);
    ShedWhileOverSheds(marked, budget, IS_EVICTABLE, Output);
    ShedWhileOverLightens(marked, budget, IS_EVICTABLE);
    MarkedOverBudget(slim, budget);
    hide ShedWhileOver, OfKind, Frames, TotalBytes, Superseded, Marked;
  }

  lemma {:induction false} NoneOfKind(k: Kind, ms: seq<Message>)
    requires forall m <- ms :: KindOf(m.data) != k
    ensures OfKind(k, Frames(ms)) == []
  {
    if ms != [] {
      assert Frames(ms)[1..] == Frames(ms[1..]);
      NoneOfKind(k, ms[1..]);
    }
  }

  lemma {:induction false} SomeOfKind(k: Kind, ms: seq<Message>, i: nat)
    requires i < |ms| && KindOf(ms[i].data) == k
    ensures OfKind(k, Frames(ms)) != []
  {
    if i > 0 {
      assert Frames(ms)[1..] == Frames(ms[1..]);
      SomeOfKind(k, ms[1..], i - 1);
    }
  }

  lemma EnqueueKeepsOneGrid(q: Queue, data: Data, arrival: nat, budget: nat)
    requires |OfKind(Grid, Frames(q.messages))| <= 1
    ensures |OfKind(Grid, Frames(Enqueue(q, data, arrival, budget).messages))| <= 1
  {
    var kept := Superseded(q.messages, data);
    var m := Message(data, arrival, q.recoveryPending && KindOf(data) == Output);
    var slim := ShedWhileOver(kept + [m], budget, IS_GRID);
    SupersededSheds(q.messages, data);
    if KindOf(data) == Grid {
      NoneOfKind(Grid, kept);
    }
    OfKindSingle(data);
    AppendedKinds(kept, m);
    ShedWhileOverSheds(kept + [m], budget, IS_GRID, Grid);
    MarkedKeepsFrames(slim, budget);
    ShedWhileOverSheds(Marked(slim, budget), budget, IS_EVICTABLE, Output);
    hide OfKind, Frames, ShedWhileOver, Marked, Superseded, KindOf;
  }

  /** Output that is still going to be applied is not touched: either every queued
      output is given up together, or the queue holds all it held and the new one. */
  lemma EnqueueGivesUpAllOrNothing(q: Queue, data: Data, arrival: nat, budget: nat)
    requires forall m <- q.messages :: m.IsOutput() ==> m.suppressed == q.recoveryPending
    ensures var r := Enqueue(q, data, arrival, budget);
            && (forall m <- r.messages :: m.IsOutput() ==> m.suppressed == r.recoveryPending)
            && (q.recoveryPending ==> r.recoveryPending)
            && var output := OfKind(Output, Frames(q.messages)) + OfKind(Output, [data]);
               if r.recoveryPending then q.recoveryPending || output != []
               else OfKind(Output, Frames(r.messages)) == output
  {
    var kept := Superseded(q.messages, data);
    var m := Message(data, arrival, q.recoveryPending && KindOf(data) == Output);
    var slim := ShedWhileOver(kept + [m], budget, IS_GRID);
    var marked := Marked(slim, budget);
    SupersededSheds(q.messages, data);
    AppendedKinds(kept, m);
    ShedWhileOverSheds(kept + [m], budget, IS_GRID, Grid);
    MarkedKeepsFrames(slim, budget);
    ShedWhileOverSheds(marked, budget, IS_EVICTABLE, Output);
    if Abandons(slim, budget) {
      SomeOfKind(Output, slim, FirstIndex(slim, IS_OUTPUT).value);
      assert forall x <- marked :: x.IsOutput() ==> x.suppressed;
    } else {
      assert marked == slim;
      if !q.recoveryPending {
        NothingToEvict(slim, budget);
      }
    }
    hide OfKind, Frames, ShedWhileOver, Superseded, KindOf, Marked, Abandons;
  }

  lemma NothingToEvict(ms: seq<Message>, budget: nat)
    requires forall m <- ms :: m.IsOutput() ==> !m.suppressed
    ensures ShedWhileOver(ms, budget, IS_EVICTABLE) == ms
  {
  }

  // ----- Every step keeps the invariant -----

  lemma KindsSplit(k: Kind, s: Pump, q: Queue, data: Data)
    ensures OfKind(k, Frames(s.popped + s.queue.messages))
            == OfKind(k, Frames(s.popped)) + OfKind(k, Frames(s.queue.messages))
    ensures OfKind(k, Frames(s.popped + q.messages)) == OfKind(k, Frames(s.popped)) + OfKind(k, Frames(q.messages))
    ensures OfKind(k, s.enqueued + [data]) == OfKind(k, s.enqueued) + OfKind(k, [data])
  {
    FramesConcat(s.popped, s.queue.messages);
    FramesConcat(s.popped, q.messages);
    OfKindConcat(k, Frames(s.popped), Frames(s.queue.messages));
    OfKindConcat(k, Frames(s.popped), Frames(q.messages));
    OfKindConcat(k, s.enqueued, [data]);
    hide *;
  }

  /** One frame of one kind in, as many of them out as are counted. */
  lemma KindStillCounted(k: Kind, s: Pump, q: Queue, data: Data, shed: int, seen: int, more: int)
    requires |OfKind(k, Frames(q.messages))| + more == |OfKind(k, Frames(s.queue.messages))| + |OfKind(k, [data])| + shed
    requires |OfKind(k, Frames(s.popped + s.queue.messages))| + seen + shed == |OfKind(k, s.enqueued)|
    ensures |OfKind(k, Frames(s.popped + q.messages))| + seen + more == |OfKind(k, s.enqueued + [data])|
  {
    KindsSplit(k, s, q, data);
    hide *;
  }

  lemma ControlStillKept(s: Pump, q: Queue, data: Data)
    requires OfKind(Control, Frames(q.messages)) == OfKind(Control, Frames(s.queue.messages)) + OfKind(Control, [data])
    requires OfKind(Control, Frames(s.popped + s.queue.messages)) == OfKind(Control, s.enqueued)
    ensures OfKind(Control, Frames(s.popped + q.messages)) == OfKind(Control, s.enqueued + [data])
  {
    KindsSplit(Control, s, q, data);
    hide *;
    Sequences.Regroup(OfKind(Control, Frames(s.popped)), OfKind(Control, Frames(s.queue.messages)), OfKind(Control, [data]));
  }

  lemma ReceiveIsAccounted(s: Pump, data: Data, budget: nat)
    requires Accounted(s)
    ensures Accounted(Step(s, Receive(data), budget))
  {
    hide OfKind, Frames, Enqueue, InOrder, KindOf;
    var q := Enqueue(s.queue, data, |s.enqueued|, budget);
    EnqueueSheds(s.queue, data, |s.enqueued|, budget);
    EnqueueInOrder(s.popped, s.queue, data, s.enqueued, budget);
    ControlStillKept(s, q, data);
    KindStillCounted(Grid, s, q, data, s.queue.supersededGrids, s.takenGrids, q.supersededGrids);
    KindStillCounted(Output, s, q, data, s.queue.evictedOutput, s.takenOutput, q.evictedOutput);
  }

  lemma ReceiveIsBounded(s: Pump, data: Data, budget: nat)
    requires Bounded(s, budget)
    ensures Bounded(Step(s, Receive(data), budget), budget)
  {
    EnqueueWithinBudget(s.queue, data, |s.enqueued|, budget);
    EnqueueKeepsOneGrid(s.queue, data, |s.enqueued|, budget);
    hide WithinBudget, Superseded, Marked, ShedWhileOver, OfKind, Frames;
  }

  lemma OutputSinceGrows(s: Pump, data: Data)
    requires s.segment <= |s.enqueued|
    ensures OutputSince(s.(enqueued := s.enqueued + [data])) == OutputSince(s) + OfKind(Output, [data])
  {
    assert (s.enqueued + [data])[s.segment..] == s.enqueued[s.segment..] + [data];
    OfKindConcat(Output, s.enqueued[s.segment..], [data]);
  }

  lemma OutputSinceReads(a: Pump, b: Pump)
    requires a.segment == b.segment <= |a.enqueued| && a.enqueued == b.enqueued
    ensures OutputSince(a) == OutputSince(b)
  {
  }

  lemma AppendOrExtend(applied: seq<Data>, waiting: seq<Data>, extra: seq<Data>, all: seq<Data>)
    ensures applied < all ==> applied < all + extra
    ensures applied + waiting == all ==>
              applied + (waiting + extra) == all + extra && (waiting + extra != [] ==> applied < all + extra)
  {
    assert (applied + waiting) + extra == applied + (waiting + extra);
  }

  lemma ReceiveIsGapFree(s: Pump, data: Data, budget: nat)
    requires GapFree(s)
    ensures GapFree(Step(s, Receive(data), budget))
  {
    EnqueueGivesUpAllOrNothing(s.queue, data, |s.enqueued|, budget);
    OutputSinceGrows(s, data);
    hide OfKind, Frames, Enqueue, KindOf, OutputSince;
    var n := Step(s, Receive(data), budget);
    assert n.queue == Enqueue(s.queue, data, |s.enqueued|, budget) && n.segment == s.segment && n.applied == s.applied;
    assert OutputSince(n) == OutputSince(s.(enqueued := s.enqueued + [data])) by {
      assert n.enqueued == s.enqueued + [data];
      OutputSinceReads(n, s.(enqueued := s.enqueued + [data]));
    }
    hide Step;
    var waiting, extra := OfKind(Output, Frames(s.queue.messages)), OfKind(Output, [data]);
    AppendOrExtend(s.applied, waiting, extra, OutputSince(s));
  }

  lemma DrainTurnIsAccounted(s: Pump, budget: nat)
    requires Accounted(s)
    ensures Accounted(Step(s, DrainTurn, budget))
  {
    if s.draining && s.queue.messages != [] {
      var m, rest := s.queue.messages[0], s.queue.messages[1..];
      assert (s.popped + [m]) + rest == s.popped + s.queue.messages;
    }
  }

  lemma DrainTurnIsBounded(s: Pump, budget: nat)
    requires Bounded(s, budget)
    ensures Bounded(Step(s, DrainTurn, budget), budget)
  {
    if s.draining && s.queue.messages != [] {
      assert Frames(s.queue.messages)[1..] == Frames(s.queue.messages[1..]);
      assert forall m <- s.queue.messages[1..] :: m in s.queue.messages;
    }
  }

  lemma OfKindHead(ms: seq<Message>)
    requires ms != []
    ensures OfKind(Output, Frames(ms))
            == (if ms[0].IsOutput() then [ms[0].data] else []) + OfKind(Output, Frames(ms[1..]))
  {
    assert Frames(ms)[1..] == Frames(ms[1..]);
  }

  lemma DrainTurnIsGapFree(s: Pump, budget: nat)
    requires GapFree(s)
    ensures GapFree(Step(s, DrainTurn, budget))
  {
    if s.draining {
      if s.queue.messages == [] {
        assert s.enqueued[|s.enqueued|..] == [];
      } else {
        var m, rest := s.queue.messages[0], s.queue.messages[1..];
        assert m in s.queue.messages && forall x <- rest :: x in s.queue.messages;
        OfKindHead(s.queue.messages);
        hide OfKind, Frames, KindOf;
        Sequences.Regroup(s.applied, [m.data], OfKind(Output, Frames(rest)));
        OutputSinceReads(s, Step(s, DrainTurn, budget));
      }
    }
  }

  /** Over every run. */
  lemma {:induction false} RunKeepsInvariant(events: seq<Event>, budget: nat)
    ensures Inv(Run(events, budget), budget)
  {
    if events == [] {
      assert EMPTY_PUMP.popped + EMPTY_PUMP.queue.messages == [];
    } else {
      var s, e := Run(events[..|events| - 1], budget), events[|events| - 1];
      RunKeepsInvariant(events[..|events| - 1], budget);
      hide Accounted, Bounded, GapFree, Step;
      match e {
        case Receive(data) =>
          ReceiveIsAccounted(s, data, budget);
          ReceiveIsBounded(s, data, budget);
          ReceiveIsGapFree(s, data, budget);
        case DrainTurn =>
          DrainTurnIsAccounted(s, budget);
          DrainTurnIsBounded(s, budget);
          DrainTurnIsGapFree(s, budget);
      }
    }
  }

  /** Output handed over for application since a recovery signal is a gap-free
      prefix of the output received since then. */
  lemma AppliedOutputHasNoGap(events: seq<Event>, budget: nat)
    ensures var s := Run(events, budget);
            s.segment <= |s.enqueued| && s.applied <= OutputSince(s)
  {
    RunKeepsInvariant(events, budget);
  }

  /** A recovery is pending exactly when some output received since the last signal
      neither was applied nor is still going to be; and while it is pending no
      output is applied. */
  lemma RecoveryPendingMeansOutputLost(events: seq<Event>, budget: nat)
    ensures var s := Run(events, budget);
            var waiting := if s.queue.recoveryPending then [] else OfKind(Output, Frames(s.queue.messages));
            && s.segment <= |s.enqueued|
            && (s.queue.recoveryPending <==> s.applied + waiting != OutputSince(s))
            && (s.queue.recoveryPending ==>
                  Step(s, DrainTurn, budget).applied == s.applied || Step(s, DrainTurn, budget).signals == s.signals + 1)
  {
    RunKeepsInvariant(events, budget);
    var s := Run(events, budget);
    if s.queue.recoveryPending {
      assert s.applied + [] == s.applied;
      assert s.queue.messages != [] ==> s.queue.messages[0] in s.queue.messages;
    }
  }

  // ----- No message and no signal is stranded -----

  /** Whatever waits, a drain is under way that will get to it. */
  predicate Served(s: Pump) {
    (s.queue.messages != [] || s.queue.recoveryPending) ==> s.draining
  }

  lemma {:induction false} LoneFrame(data: Data, arrival: nat, suppressed: bool, budget: nat)
    ensures var q := Enqueue(Queue([], 0, 0, 0, suppressed), data, arrival, budget);
            && (q.messages == [] <==> KindOf(data) != Control && data.Count() > budget)
            && (q.recoveryPending <==> suppressed || (KindOf(data) == Output && data.Count() > budget))
  {
    var m := Message(data, arrival, suppressed && KindOf(data) == Output);
    assert Superseded([], data) == [] && [] + [m] == [m];
    ShedOne(m, budget, IS_GRID);
    var slim := ShedWhileOver([m], budget, IS_GRID);
    if slim == [m] {
      var marked := Marked(slim, budget);
      assert marked == [marked[0]];
      ShedOne(marked[0], budget, IS_EVICTABLE);
    }
  }

  lemma ShedOne(m: Message, budget: nat, p: Message -> bool)
    ensures ShedWhileOver([m], budget, p) == if m.data.Count() > budget && p(m) then [] else [m]
    ensures TotalBytes([m]) == m.data.Count()
  {
    assert TotalBytes([m][1..]) == 0;
    if m.data.Count() > budget && p(m) {
      assert FirstIndex([m], p) == Some(0);
      assert RemoveAt([m], 0) == [];
    } else if m.data.Count() > budget {
      assert m in [m];
    }
  }

  /** A served pump stays served, with one exception: an output frame larger than
      the whole budget reaches an idle pump. It is evicted at once, the queue is
      empty, no drain starts, and the recovery signal waits for the next frame. */
  lemma {:induction false} OnlyOversizeOutputStrandsRecovery(s: Pump, e: Event, budget: nat)
    requires Served(s)
    ensures Served(Step(s, e, budget))
            <==> !(e.Receive? && !s.draining && KindOf(e.data) == Output && e.data.Count() > budget)
  {
    if e.Receive? && !s.draining {
      LoneFrame(e.data, |s.enqueued|, false, budget);
      EnqueueIgnoresCounts(s.queue, e.data, |s.enqueued|, budget);
    }
  }

  lemma EnqueueIgnoresCounts(q: Queue, data: Data, arrival: nat, budget: nat)
    requires q.messages == [] && !q.recoveryPending
    ensures var a, b := Enqueue(q, data, arrival, budget), Enqueue(EMPTY_QUEUE, data, arrival, budget);
            a.messages == b.messages && a.recoveryPending == b.recoveryPending
  {
  }

  predicate Fits(e: Event, budget: nat) {
    e.Receive? && KindOf(e.data) == Output ==> e.data.Count() <= budget
  }

  /** With output frames that fit the budget, nothing is ever stranded. */
  lemma {:induction false} FittingRunsAreServed(events: seq<Event>, budget: nat)
    requires forall e <- events :: Fits(e, budget)
    ensures Served(Run(events, budget))
  {
    if events != [] {
      FittingRunsAreServed(events[..|events| - 1], budget);
      assert events[|events| - 1] in events;
      OnlyOversizeOutputStrandsRecovery(Run(events[..|events| - 1], budget), events[|events| - 1], budget);
    }
  }

  /** The relay lets no larger frame through, and the phone's budget is twice that. */
  const RELAY_MAX_FRAME_BYTES: nat := 1_048_576
  const PHONE_BUDGET: nat := 2_097_152

  lemma RelayedFramesAreServed(events: seq<Event>)
    requires forall e <- events :: e.Receive? ==> e.data.Count() <= RELAY_MAX_FRAME_BYTES
    ensures Served(Run(events, PHONE_BUDGET))
  {
    FittingRunsAreServed(events, PHONE_BUDGET);
  }

  /** With a budget of one byte, an output frame of two leaves the signal waiting. */
  lemma TinyBudgetStrandsRecovery()
    ensures var s := Run([Receive(Data([1, OUTPUT]))], 1);
            s.queue.messages == [] && s.queue.recoveryPending && !s.draining
  {
    var e := Receive(Data([1, OUTPUT]));
    assert [e][..0] == [] && Run([], 1) == EMPTY_PUMP;
    LoneFrame(e.data, 0, false, 1);
  }

  function Turns(s: Pump, n: nat, budget: nat): Pump
    decreases n
  {
    if n == 0 then s else Turns(Step(s, DrainTurn, budget), n - 1, budget)
  }

  lemma DrainTakesOne(s: Pump, budget: nat)
    requires s.draining && GapFree(s) && s.queue.messages != []
    ensures var n := Step(s, DrainTurn, budget);
            && n.draining && n.signals == s.signals && n.queue.recoveryPending == s.queue.recoveryPending
            && n.queue.messages == s.queue.messages[1..] && n.popped == s.popped + [s.queue.messages[0]]
            && (s.queue.recoveryPending ==> n.applied == s.applied)
  {
    assert s.queue.messages[0] in s.queue.messages;
  }

  lemma DrainEnds(s: Pump, budget: nat)
    requires s.draining && s.queue.messages == []
    ensures var n := Step(s, DrainTurn, budget);
            && n.queue.messages == [] && !n.queue.recoveryPending && !n.draining && n.popped == s.popped
            && n.signals == s.signals + (if s.queue.recoveryPending then 1 else 0)
  {
  }

  /** A drain that is not interrupted empties the queue and then raises the
      signal, exactly once, if one is pending; nothing is applied in between. */
  lemma {:induction false} DrainRaisesPendingSignal(s: Pump, budget: nat)
    requires s.draining && GapFree(s)
    ensures var waiting := s.queue.messages;
            var r := Turns(s, |waiting| + 1, budget);
            && r.queue.messages == [] && !r.queue.recoveryPending && !r.draining
            && r.popped == s.popped + waiting
            && r.signals == s.signals + (if s.queue.recoveryPending then 1 else 0)
            && (s.queue.recoveryPending ==> Turns(s, |waiting|, budget).applied == s.applied)
    decreases |s.queue.messages|
  {
    hide Step, GapFree;
    var n, waiting := Step(s, DrainTurn, budget), s.queue.messages;
    assert Turns(s, |waiting| + 1, budget) == Turns(n, |waiting|, budget);
    if waiting == [] {
      DrainEnds(s, budget);
      assert Turns(n, 0, budget) == n && Turns(s, 0, budget) == s;
      assert s.popped + [] == s.popped;
    } else {
      assert Turns(s, |waiting|, budget) == Turns(n, |waiting| - 1, budget);
      hide Turns;
      DrainTakesOne(s, budget);
      DrainTurnIsGapFree(s, budget);
      DrainRaisesPendingSignal(n, budget);
      assert (s.popped + [waiting[0]]) + waiting[1..] == s.popped + waiting;
    }
  }

  // ----- The queue and the drain as the phone runs them -----

  class RemoteInboundMessageQueue {
    var messages: seq<Message>
    var bufferedBytes: int
    var supersededGridFrames: nat
    var outputRecoveryPending: bool
    var evictedOutputFrames: nat
    const maxBufferedBytes: nat

    function State(): Queue
      reads this
    {
      Queue(messages, bufferedBytes, supersededGridFrames, evictedOutputFrames, outputRecoveryPending)
    }

    predicate Valid()
      reads this
    {
      bufferedBytes == TotalBytes(messages)
    }

    constructor (maxBufferedBytes: nat)
      ensures Valid() && State() == EMPTY_QUEUE && this.maxBufferedBytes == maxBufferedBytes
    {
      this.maxBufferedBytes := maxBufferedBytes;
      messages, bufferedBytes, supersededGridFrames, outputRecoveryPending, evictedOutputFrames := [], 0, 0, false, 0;
    }

    /** A new grid makes every queued one obsolete. */
    method RemoveGrids()
      requires Valid()
      modifies this`messages, this`bufferedBytes, this`supersededGridFrames
      ensures Valid() && messages == ShedWhileOver(old(messages), -1, IS_GRID)
      ensures supersededGridFrames + |messages| == old(supersededGridFrames + |messages|)
    {
      var index := FirstIndex(messages, IS_GRID);
      while index.Some?
        invariant Valid() && index == FirstIndex(messages, IS_GRID)
        invariant ShedWhileOver(messages, -1, IS_GRID) == ShedWhileOver(old(messages), -1, IS_GRID)
        invariant supersededGridFrames + |messages| == old(supersededGridFrames + |messages|)
        decreases |messages|
      {
        TotalBytesRemoveAt(messages, index.value);
        bufferedBytes := bufferedBytes - messages[index.value].data.Count();
        messages := RemoveAt(messages, index.value);
        supersededGridFrames := supersededGridFrames + 1;
        index := FirstIndex(messages, IS_GRID);
      }
    }

    method ShedGrids()
      requires Valid()
      modifies this`messages, this`bufferedBytes, this`supersededGridFrames
      ensures Valid() && messages == ShedWhileOver(old(messages), maxBufferedBytes, IS_GRID)
      ensures supersededGridFrames + |messages| == old(supersededGridFrames + |messages|)
    {
      var gridIndex := FirstIndex(messages, IS_GRID);
      while bufferedBytes > maxBufferedBytes && gridIndex.Some?
        invariant Valid() && gridIndex == FirstIndex(messages, IS_GRID)
        invariant ShedWhileOver(messages, maxBufferedBytes, IS_GRID)
               == ShedWhileOver(old(messages), maxBufferedBytes, IS_GRID)
        invariant supersededGridFrames + |messages| == old(supersededGridFrames + |messages|)
        decreases |messages|
      {
        TotalBytesRemoveAt(messages, gridIndex.value);
        bufferedBytes := bufferedBytes - messages[gridIndex.value].data.Count();
        messages := RemoveAt(messages, gridIndex.value);
        supersededGridFrames := supersededGridFrames + 1;
        gridIndex := FirstIndex(messages, IS_GRID);
      }
    }

    /** Queued output will not be applied any more; a recovery follows the drain. */
    method SuppressQueuedOutput()
      requires Valid()
      modifies this`messages, this`outputRecoveryPending
      ensures Valid() && messages == SuppressOutputs(old(messages)) && outputRecoveryPending
    {
      outputRecoveryPending := true;
      for index := 0 to |messages|
        invariant outputRecoveryPending && |messages| == |old(messages)|
        invariant messages[..index] == SuppressOutputs(old(messages))[..index]
        invariant messages[index..] == old(messages)[index..]
      {
        if messages[index].IsOutput() {
          messages := messages[index := messages[index].(suppressed := true)];
        }
      }
      assert forall i | 0 <= i < |messages| :: messages[i].data == old(messages)[i].data;
      MarkedKeepsBytes(messages, old(messages));
    }

    method EvictSuppressedOutput()
      requires Valid()
      modifies this`messages, this`bufferedBytes, this`evictedOutputFrames
      ensures Valid() && messages == ShedWhileOver(old(messages), maxBufferedBytes, IS_EVICTABLE)
      ensures evictedOutputFrames + |messages| == old(evictedOutputFrames + |messages|)
    {
      var index := FirstIndex(messages, IS_EVICTABLE);
      while bufferedBytes > maxBufferedBytes && index.Some?
        invariant Valid() && index == FirstIndex(messages, IS_EVICTABLE)
        invariant ShedWhileOver(messages, maxBufferedBytes, IS_EVICTABLE)
               == ShedWhileOver(old(messages), maxBufferedBytes, IS_EVICTABLE)
        invariant evictedOutputFrames + |messages| == old(evictedOutputFrames + |messages|)
        decreases |messages|
      {
        TotalBytesRemoveAt(messages, index.value);
        bufferedBytes := bufferedBytes - messages[index.value].data.Count();
        messages := RemoveAt(messages, index.value);
        evictedOutputFrames := evictedOutputFrames + 1;
        index := FirstIndex(messages, IS_EVICTABLE);
      }
    }

    method Append(m: Message)
      requires Valid()
      modifies this`messages, this`bufferedBytes
      ensures Valid() && messages == old(messages) + [m]
    {
      TotalBytesConcat(messages, [m]);
      TotalBytesSingle(m);
      messages := messages + [m];
      bufferedBytes := bufferedBytes + m.data.Count();
    }

    method EnqueueFrame(data: Data, arrival: nat)
      requires Valid()
      modifies this
      ensures Valid() && State() == Enqueue(old(State()), data, arrival, maxBufferedBytes)
    {
      hide ShedWhileOver, SuppressOutputs, KindOf, TotalBytes;
      if KindOf(data) == Grid {
        RemoveGrids();
      }
      assert messages == Superseded(old(messages), data);
      Append(Message(data, arrival, outputRecoveryPending && KindOf(data) == Output));
      ShedGrids();
      if bufferedBytes > maxBufferedBytes && FirstIndex(messages, IS_OUTPUT).Some? {
        SuppressQueuedOutput();
      }
      EvictSuppressedOutput();
    }

    method PopFirst() returns (m: Option<Message>)
      requires Valid()
      modifies this`messages, this`bufferedBytes
      ensures Valid()
      ensures old(messages) == [] ==> m == None && messages == [] && bufferedBytes == old(bufferedBytes)
      ensures old(messages) != [] ==>
                && m == Some(old(messages)[0]) && messages == old(messages)[1..]
                && bufferedBytes == old(bufferedBytes) - m.value.data.Count()
    {
      if messages == [] {
        return None;
      }
      m := Some(messages[0]);
      messages := messages[1..];
      bufferedBytes := bufferedBytes - m.value.data.Count();
    }

    method TakeShedCounts() returns (supersededGrids: nat, evictedOutput: nat)
      modifies this`supersededGridFrames, this`evictedOutputFrames
      ensures supersededGrids == old(supersededGridFrames) && evictedOutput == old(evictedOutputFrames)
      ensures supersededGridFrames == 0 && evictedOutputFrames == 0
    {
      supersededGrids, evictedOutput := supersededGridFrames, evictedOutputFrames;
      supersededGridFrames, evictedOutputFrames := 0, 0;
    }

    method TakeOutputRecoverySignalIfDrained() returns (raised: bool)
      modifies this`outputRecoveryPending
      ensures raised == (old(messages) == [] && old(outputRecoveryPending))
      ensures outputRecoveryPending == (old(outputRecoveryPending) && !raised)
    {
      if messages != [] || !outputRecoveryPending {
        return false;
      }
      outputRecoveryPending := false;
      raised := true;
    }

    method RemoveAll()
      modifies this
      ensures Valid() && State() == EMPTY_QUEUE
    {
      messages, bufferedBytes, supersededGridFrames, outputRecoveryPending, evictedOutputFrames := [], 0, 0, false, 0;
    }
  }
}
