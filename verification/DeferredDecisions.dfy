/** Answers given before their request is known: a bounded ledger that keeps the
    newest decision per request and gives up the oldest request first. */
module DeferredDecisions {
  import opened Wrappers
  import opened RemoteLink
  import opened Sequences

  datatype Ledger = Ledger(decisions: map<RequestID, bool>, order: seq<RequestID>)

  function Chosen(order: seq<RequestID>, ids: set<RequestID>, wanted: bool): (r: seq<RequestID>)
    ensures forall id :: id in r <==> id in order && (id in ids) == wanted
  {
    if order == [] then []
    else (if (order[0] in ids) == wanted then [order[0]] else []) + Chosen(order[1..], ids, wanted)
  }

  function Answers(decisions: map<RequestID, bool>, order: seq<RequestID>): (r: seq<Answer>)
    requires forall id <- order :: id in decisions
    ensures |r| == |order| && forall i | 0 <= i < |r| :: r[i] == Answer(order[i], decisions[order[i]])
  {
    seq(|order|, i requires 0 <= i < |order| => Answer(order[i], decisions[order[i]]))
  }

  predicate NoDuplicates(order: seq<RequestID>) {
    forall i, j | 0 <= i < j < |order| :: order[i] != order[j]
  }

  /** The order lists each decision's request once, and there are not too many. */
  ghost predicate Inv(l: Ledger, capacity: nat) {
    && NoDuplicates(l.order) && |l.order| <= capacity
    && (forall id :: id in l.order <==> id in l.decisions)
  }

  lemma {:induction false} ChosenKeepsDistinct(order: seq<RequestID>, ids: set<RequestID>, wanted: bool)
    requires NoDuplicates(order)
    ensures NoDuplicates(Chosen(order, ids, wanted)) && |Chosen(order, ids, wanted)| <= |order|
  {
    if order != [] {
      ChosenKeepsDistinct(order[1..], ids, wanted);
      assert order[0] !in order[1..];
    }
  }

  /** What is taken and what is left are in the order of recording, and together
      are everything. */
  lemma {:induction false} ChosenSplitsOrder(order: seq<RequestID>, ids: set<RequestID>)
    ensures |Chosen(order, ids, true)| + |Chosen(order, ids, false)| == |order|
    ensures multiset(Chosen(order, ids, true)) + multiset(Chosen(order, ids, false)) == multiset(order)
  {
    if order != [] {
      ChosenSplitsOrder(order[1..], ids);
      assert order == [order[0]] + order[1..];
    }
  }

  method RemoveAll(order: seq<RequestID>, id: RequestID) returns (r: seq<RequestID>)
    ensures r == Chosen(order, {id}, false)
  {
    r := [];
    assert order[0..] == order;
    for i := 0 to |order|
      invariant r + Chosen(order[i..], {id}, false) == Chosen(order, {id}, false)
    {
      assert order[i..][1..] == order[i + 1..];
      var later := Chosen(order[i + 1..], {id}, false);
      if order[i] != id {
        assert r + ([order[i]] + later) == (r + [order[i]]) + later;
        r := r + [order[i]];
      } else {
        assert [] + later == later;
      }
    }
  }

  method RemoveEach(order: seq<RequestID>, ids: seq<RequestID>) returns (r: seq<RequestID>)
    ensures r == Chosen(order, Elements(ids), false)
  {
    r := order;
    ghost var gone: set<RequestID> := {};
    ChosenNone(order);
    for i := 0 to |ids|
      invariant r == Chosen(order, gone, false)
      invariant gone + Elements(ids[i..]) == Elements(ids)
    {
      hide Chosen;
      assert ids[i..] == [ids[i]] + ids[i + 1..];
      ChosenTwice(order, gone, {ids[i]});
      gone := gone + {ids[i]};
      r := RemoveAll(r, ids[i]);
    }
    assert gone == Elements(ids);
  }

  /** Removing the chosen ones leaves the others. */
  lemma TakingChosen(order: seq<RequestID>, known: set<RequestID>)
    ensures Chosen(order, Elements(Chosen(order, known, true)), false) == Chosen(order, known, false)
  {
    ChosenReads(order, Elements(Chosen(order, known, true)), known);
  }

  lemma TakingKeeps(l: Ledger, known: set<RequestID>, capacity: nat)
    requires Inv(l, capacity)
    ensures Inv(Ledger(l.decisions - known, Chosen(l.order, known, false)), capacity)
  {
    ChosenKeepsDistinct(l.order, known, false);
  }

  lemma {:induction false} ChosenTwice(order: seq<RequestID>, a: set<RequestID>, b: set<RequestID>)
    ensures Chosen(Chosen(order, a, false), b, false) == Chosen(order, a + b, false)
  {
    if order != [] {
      var later := Chosen(order[1..], a, false);
      ChosenTwice(order[1..], a, b);
      if order[0] !in a {
        assert ([order[0]] + later)[1..] == later;
      } else {
        assert [] + later == later;
      }
    }
  }

  lemma AddingKeeps(l: Ledger, request: RequestID, approved: bool, capacity: nat)
    requires Inv(l, capacity)
    ensures var order := if request in l.decisions then l.order else l.order + [request];
            Inv(Ledger(l.decisions[request := approved], order), capacity + 1) && |l.order| <= capacity
  {
    assert request in l.order <==> request in l.decisions;
  }

  lemma DroppingKeeps(l: Ledger, capacity: nat)
    requires Inv(l, capacity + 1) && l.order != []
    ensures l.order[0] in l.decisions && l.order[0] !in l.order[1..]
    ensures Inv(Ledger(l.decisions - {l.order[0]}, l.order[1..]), capacity) && |l.order| <= capacity + 1
  {
    assert forall id :: id in l.order <==> id == l.order[0] || id in l.order[1..];
  }

  lemma FittingKeeps(l: Ledger, capacity: nat)
    requires Inv(l, capacity + 1) && |l.order| <= capacity
    ensures Inv(l, capacity)
  {
  }

  class DeferredDecisionLedger {
    var decisions: map<RequestID, bool>
    var order: seq<RequestID>
    const capacity: nat

    function State(): Ledger
      reads this
    {
      Ledger(decisions, order)
    }

    ghost predicate Valid()
      reads this
    {
      capacity >= 1 && Inv(State(), capacity)
    }

    /** A capacity below one counts as one. */
    constructor (capacity: int)
      ensures Valid() && decisions == map[] && this.capacity == if capacity < 1 then 1 else capacity
    {
      this.capacity := if capacity < 1 then 1 else capacity;
      decisions, order := map[], [];
    }

    /** The newest decision wins and keeps the request's place; a request too many
        costs the oldest one, and that one only. */
    method Record(request: RequestID, approved: bool) returns (evicted: Option<RequestID>)
      requires Valid()
      modifies this
      ensures Valid() && request in decisions && decisions[request] == approved
      ensures evicted.Some? <==> request !in old(decisions) && |old(order)| == capacity
      ensures evicted.Some? ==> evicted.value == old(order)[0]
      ensures evicted.None? ==> decisions == old(decisions)[request := approved]
      ensures evicted.Some? ==> decisions == old(decisions)[request := approved] - {evicted.value}
      ensures order == if request in old(decisions) then old(order)
                       else if evicted.Some? then old(order)[1..] + [request] else old(order) + [request]
    {
      AddingKeeps(State(), request, approved, capacity);
      hide Inv, NoDuplicates;
      if request !in decisions {
        order := order + [request];
      }
      decisions := decisions[request := approved];
      if |order| <= capacity {
        FittingKeeps(State(), capacity);
        return None;
      }
      DroppingKeeps(State(), capacity);
      assert request !in old(decisions) && |old(order)| == capacity;
      assert order[1..] == old(order)[1..] + [request] && order[0] == old(order)[0];
      assert request in order[1..];
      evicted := Some(order[0]);
      order := order[1..];
      decisions := decisions - {evicted.value};
    }

    /** Hands over the decisions whose requests are known now, in the order they were
        recorded, and leaves the others exactly as they were. */
    method TakeReady(known: set<RequestID>) returns (ready: seq<Answer>)
      requires Valid()
      modifies this
      ensures Valid()
      ensures (forall id <- Chosen(old(order), known, true) :: id in old(decisions))
              && ready == Answers(old(decisions), Chosen(old(order), known, true))
      ensures order == Chosen(old(order), known, false)
      ensures decisions == old(decisions) - known
    {
      var ids := Chosen(order, known, true);
      ready := Answers(decisions, ids);
      TakingChosen(order, known);
      TakingKeeps(State(), known, capacity);
      hide Inv, NoDuplicates, Chosen;
      order := RemoveEach(order, ids);
      decisions := decisions - known;
    }

    method Reset()
      modifies this
      ensures decisions == map[] && order == []
    {
      decisions, order := map[], [];
    }
  }

  lemma {:induction false} ChosenNone(order: seq<RequestID>)
    ensures Chosen(order, {}, false) == order
  {
    if order != [] {
      ChosenNone(order[1..]);
    }
  }

  lemma {:induction false} ChosenReads(order: seq<RequestID>, a: set<RequestID>, b: set<RequestID>)
    requires forall id <- order :: id in a <==> id in b
    ensures Chosen(order, a, false) == Chosen(order, b, false)
  {
    if order != [] {
      assert order[0] in order;
      ChosenReads(order[1..], a, b);
    }
  }
}
