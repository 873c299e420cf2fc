/** The receive queue gives up no more than it must: frames go oldest first and only
    for as long as the budget is exceeded, grids before any output. */
module LeastShedding {
  import opened InboundQueue

  function HowMany(ms: seq<Message>, p: Message -> bool): (n: nat)
    ensures n <= |ms|
  {
    if ms == [] then 0 else (if p(ms[0]) then 1 else 0) + HowMany(ms[1..], p)
  }

  /** Without the `n` oldest that satisfy `p`; the others keep their order. */
  function WithoutOldest(ms: seq<Message>, p: Message -> bool, n: nat): seq<Message> {
    if ms == [] || n == 0 then ms
    else if p(ms[0]) then WithoutOldest(ms[1..], p, n - 1)
    else [ms[0]] + WithoutOldest(ms[1..], p, n)
  }

  /** The smallest number whose removal meets the budget, or all there are. */
  ghost predicate Least(ms: seq<Message>, p: Message -> bool, budget: int, n: nat) {
    && n <= HowMany(ms, p)
    && (n < HowMany(ms, p) ==> TotalBytes(WithoutOldest(ms, p, n)) <= budget)
    && forall k: nat | k < n :: TotalBytes(WithoutOldest(ms, p, k)) > budget
  }

  lemma SkipsOther(first: Message, rest: seq<Message>, p: Message -> bool, n: nat)
    requires !p(first)
    ensures WithoutOldest([first] + rest, p, n) == [first] + WithoutOldest(rest, p, n)
    ensures HowMany([first] + rest, p) == HowMany(rest, p)
  {
    assert ([first] + rest)[1..] == rest;
  }

  lemma {:induction false} OldestFirst(ms: seq<Message>, p: Message -> bool, n: nat)
    requires FirstIndex(ms, p).Some?
    ensures WithoutOldest(RemoveAt(ms, FirstIndex(ms, p).value), p, n) == WithoutOldest(ms, p, n + 1)
    ensures HowMany(RemoveAt(ms, FirstIndex(ms, p).value), p) + 1 == HowMany(ms, p)
  {
    var i, rest := FirstIndex(ms, p).value, ms[1..];
    if i == 0 {
      assert RemoveAt(ms, 0) == rest;
    } else {
      assert FirstIndex(rest, p).value == i - 1 && !p(ms[0]);
      assert RemoveAt(ms, i) == [ms[0]] + RemoveAt(rest, i - 1) && ms == [ms[0]] + rest;
      hide *;
      OldestFirst(rest, p, n);
      SkipsOther(ms[0], rest, p, n + 1);
      SkipsOther(ms[0], RemoveAt(rest, i - 1), p, n);
    }
  }

  lemma {:induction false} NoneToRemove(ms: seq<Message>, p: Message -> bool)
    requires FirstIndex(ms, p).None?
    ensures HowMany(ms, p) == 0
  {
    if ms != [] {
      NoneToRemove(ms[1..], p);
    }
  }

  lemma OneMore(ms: seq<Message>, p: Message -> bool, budget: int, n: nat)
    requires FirstIndex(ms, p).Some? && TotalBytes(ms) > budget
    requires Least(RemoveAt(ms, FirstIndex(ms, p).value), p, budget, n)
    ensures Least(ms, p, budget, n + 1)
  {
    assert WithoutOldest(ms, p, 0) == ms;
    OldestFirst(ms, p, n);
    hide FirstIndex, RemoveAt, WithoutOldest, HowMany, TotalBytes;
    forall k: nat | k < n + 1
      ensures TotalBytes(WithoutOldest(ms, p, k)) > budget
    {
      if k > 0 {
        OldestFirst(ms, p, k - 1);
        assert WithoutOldest(ms, p, k) == WithoutOldest(RemoveAt(ms, FirstIndex(ms, p).value), p, k - 1);
      }
    }
  }

  lemma {:induction false} ShedIsLeast(ms: seq<Message>, budget: int, p: Message -> bool) returns (n: nat)
    ensures ShedWhileOver(ms, budget, p) == WithoutOldest(ms, p, n) && Least(ms, p, budget, n)
    decreases |ms|
  {
    var i := FirstIndex(ms, p);
    n := 0;
    if i.None? {
      NoneToRemove(ms, p);
    } else if TotalBytes(ms) > budget {
      var before := RemoveAt(ms, i.value);
      n := ShedIsLeast(before, budget, p);
      assert ShedWhileOver(ms, budget, p) == ShedWhileOver(before, budget, p);
      OldestFirst(ms, p, n);
      hide ShedWhileOver, Least;
      OneMore(ms, p, budget, n);
      n := n + 1;
    }
  }

  lemma OneLeast(ms: seq<Message>, p: Message -> bool, budget: int, n: nat, k: nat)
    requires Least(ms, p, budget, n) && Least(ms, p, budget, k)
    ensures n == k
  {
    hide WithoutOldest, HowMany;
  }

  lemma {:induction false} AllRemoved(ms: seq<Message>, budget: int, p: Message -> bool)
    requires budget < 0
    ensures Least(ms, p, budget, HowMany(ms, p))
  {
    var n := ShedIsLeast(ms, budget, p);
    hide WithoutOldest, HowMany;
  }

  lemma {:induction false} RemovedCount(ms: seq<Message>, p: Message -> bool, n: nat)
    requires n <= HowMany(ms, p)
    ensures |WithoutOldest(ms, p, n)| == |ms| - n
  {
    if ms != [] && n > 0 {
      RemovedCount(ms[1..], p, if p(ms[0]) then n - 1 else n);
    }
  }

  /** Without any grid. */
  function NoGrids(ms: seq<Message>): seq<Message> {
    WithoutOldest(ms, IS_GRID, HowMany(ms, IS_GRID))
  }

  /** What is queued next, before anything is shed for the budget: a new grid replaces
      every queued one, and output is given up from the start while recovery is due. */
  function Joined(q: Queue, data: Data, arrival: nat): seq<Message> {
    (if KindOf(data) == Grid then NoGrids(q.messages) else q.messages)
    + [Message(data, arrival, q.recoveryPending && KindOf(data) == Output)]
  }

  predicate HasOutput(ms: seq<Message>) {
    exists m <- ms :: KindOf(m.data) == Output
  }

  predicate GivesUp(slim: seq<Message>, budget: nat) {
    TotalBytes(slim) > budget && HasOutput(slim)
  }

  /** One frame: the least number of the oldest grids goes; if that is not enough the
      queued output is given up, and then the least number of the oldest of that. */
  lemma EnqueueIsLeast(q: Queue, data: Data, arrival: nat, budget: nat) returns (grids: nat, outputs: nat)
    ensures var r, joined := Enqueue(q, data, arrival, budget), Joined(q, data, arrival);
            var slim := WithoutOldest(joined, IS_GRID, grids);
            var given := if GivesUp(slim, budget) then SuppressOutputs(slim) else slim;
            && Least(joined, IS_GRID, budget, grids) && Least(given, IS_EVICTABLE, budget, outputs)
            && r.messages == WithoutOldest(given, IS_EVICTABLE, outputs)
            && r.recoveryPending == (q.recoveryPending || GivesUp(slim, budget))
            && r.supersededGrids == q.supersededGrids + (|q.messages| + 1 - |joined|) + grids
            && r.evictedOutput == q.evictedOutput + outputs
  {
    var n := ShedIsLeast(q.messages, -1, IS_GRID);
    AllRemoved(q.messages, -1, IS_GRID);
    OneLeast(q.messages, IS_GRID, -1, n, HowMany(q.messages, IS_GRID));
    var joined := Joined(q, data, arrival);
    grids := ShedIsLeast(joined, budget, IS_GRID);
    RemovedCount(joined, IS_GRID, grids);
    var slim := WithoutOldest(joined, IS_GRID, grids);
    GivenUp(slim, budget);
    outputs := ShedIsLeast(Marked(slim, budget), budget, IS_EVICTABLE);
    RemovedCount(Marked(slim, budget), IS_EVICTABLE, outputs);
    hide ShedWhileOver, WithoutOldest, HowMany, TotalBytes, Least, GivesUp, Abandons, SuppressOutputs;
  }

  lemma GivenUp(slim: seq<Message>, budget: nat)
    ensures Abandons(slim, budget) <==> GivesUp(slim, budget)
  {
    var i := FirstIndex(slim, IS_OUTPUT);
    if i.Some? {
      assert slim[i.value] in slim;
    }
  }

  lemma LeastOfNone(ms: seq<Message>, p: Message -> bool, budget: int, n: nat)
    requires Least(ms, p, budget, n) && TotalBytes(ms) <= budget
    ensures n == 0 && WithoutOldest(ms, p, n) == ms
  {
    assert WithoutOldest(ms, p, 0) == ms;
  }

  /** While it fits, nothing is shed and nothing given up. */
  lemma NothingIsShedWhileItFits(q: Queue, data: Data, arrival: nat, budget: nat)
    requires TotalBytes(Joined(q, data, arrival)) <= budget
    ensures var r := Enqueue(q, data, arrival, budget);
            && r.messages == Joined(q, data, arrival) && r.recoveryPending == q.recoveryPending
            && r.evictedOutput == q.evictedOutput
            && r.supersededGrids == q.supersededGrids + (|q.messages| + 1 - |r.messages|)
  {
    var grids, outputs := EnqueueIsLeast(q, data, arrival, budget);
    var joined := Joined(q, data, arrival);
    LeastOfNone(joined, IS_GRID, budget, grids);
    LeastOfNone(joined, IS_EVICTABLE, budget, outputs);
    hide Enqueue, Joined, Least, TotalBytes, WithoutOldest;
  }

  lemma {:induction false} FewerWeighLess(ms: seq<Message>, p: Message -> bool, n: nat)
    requires n <= HowMany(ms, p)
    ensures TotalBytes(WithoutOldest(ms, p, HowMany(ms, p))) <= TotalBytes(WithoutOldest(ms, p, n))
  {
    if ms != [] && HowMany(ms, p) > 0 {
      var rest := ms[1..];
      if p(ms[0]) {
        if n > 0 {
          FewerWeighLess(rest, p, n - 1);
        } else {
          FewerWeighLess(rest, p, 0);
          assert WithoutOldest(rest, p, 0) == rest;
        }
      } else {
        FewerWeighLess(rest, p, n);
        var a, b := WithoutOldest(rest, p, HowMany(rest, p)), WithoutOldest(rest, p, n);
        assert ([ms[0]] + a)[1..] == a && ([ms[0]] + b)[1..] == b;
        assert n == 0 ==> b == rest;
      }
    }
  }

  lemma {:induction false} OutputsStay(ms: seq<Message>, n: nat)
    ensures HasOutput(WithoutOldest(ms, IS_GRID, n)) <==> HasOutput(ms)
  {
    if ms != [] && n > 0 {
      var rest := ms[1..];
      var k := if IS_GRID(ms[0]) then n - 1 else n;
      OutputsStay(rest, k);
      OutputFirst(ms[0], rest);
      OutputFirst(ms[0], WithoutOldest(rest, IS_GRID, k));
      assert ms == [ms[0]] + rest;
      hide HasOutput;
    }
  }

  lemma OutputFirst(m: Message, rest: seq<Message>)
    ensures HasOutput([m] + rest) <==> KindOf(m.data) == Output || HasOutput(rest)
  {
    assert forall x :: x in [m] + rest <==> x == m || x in rest;
  }

  /** Output is given up exactly when what is queued would not fit without any grid. */
  lemma OutputIsGivenUpExactlyWhen(q: Queue, data: Data, arrival: nat, budget: nat)
    requires !q.recoveryPending
    ensures Enqueue(q, data, arrival, budget).recoveryPending <==>
              TotalBytes(NoGrids(Joined(q, data, arrival))) > budget && HasOutput(Joined(q, data, arrival))
  {
    var grids, outputs := EnqueueIsLeast(q, data, arrival, budget);
    hide *;
    OverWithoutAny(Joined(q, data, arrival), budget, grids);
  }

  lemma OverWithoutAny(joined: seq<Message>, budget: nat, grids: nat)
    requires Least(joined, IS_GRID, budget, grids)
    ensures GivesUp(WithoutOldest(joined, IS_GRID, grids), budget) <==>
              TotalBytes(NoGrids(joined)) > budget && HasOutput(joined)
  {
    FewerWeighLess(joined, IS_GRID, grids);
    OutputsStay(joined, grids);
    hide TotalBytes, WithoutOldest, HowMany, HasOutput;
  }
}
