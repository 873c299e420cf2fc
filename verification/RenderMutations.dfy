/** The chain of render mutations: each runs after its predecessor and only if no
    reset was asked for since it was enqueued; a reset runs in the chain as well. */
module RenderMutations {
  import opened RenderEngine
  import opened Sequences

  datatype Task = Mutation(generation: nat, op: Op) | Reset(generation: nat)

  /** `started` says that the head has passed its generation check and waits for the
      engine. `applied` lists what the engine has run since it was last reset;
      `wanted` what was enqueued since the last call of reset. */
  datatype Store = Store(generation: nat, chain: seq<Task>, started: bool, engine: Engine,
                         applied: seq<Op>, wanted: seq<Op>)

  const NEW_STORE := Store(0, [], false, NEW_ENGINE, [], [])

  datatype Event =
    | Enqueue(op: Op)
    | ResetCalled
    | HeadRuns
    | EngineRuns
    | Publish(tab: TabID, starts: bool)

  predicate Chained(op: Op) {
    !op.Snapshot?
  }

  /** A mutation checks its generation, then hops to the engine: anything may be
      enqueued in between. The snapshot for publication is not part of the chain. */
  function Step(s: Store, e: Event): Store {
    match e
    case Enqueue(op) =>
      if Chained(op) then s.(chain := s.chain + [Mutation(s.generation, op)], wanted := s.wanted + [op]) else s
    case ResetCalled =>
      s.(generation := s.generation + 1, chain := s.chain + [Reset(s.generation + 1)], wanted := [])
    case HeadRuns =>
      if s.chain == [] || s.started then s
      else if s.chain[0].Mutation? && s.chain[0].generation != s.generation then s.(chain := s.chain[1..])
      else s.(started := true)
    case EngineRuns =>
      if s.chain == [] || !s.started then s
      else
        var popped := s.(chain := s.chain[1..], started := false);
        if s.chain[0].Mutation?
        then popped.(engine := Apply(s.engine, s.chain[0].op), applied := s.applied + [s.chain[0].op])
        else popped.(engine := NEW_ENGINE, applied := [])
    case Publish(tab, starts) =>
      s.(engine := Apply(s.engine, Snapshot(tab, starts)), applied := s.applied + [Snapshot(tab, starts)])
  }

  function Run(events: seq<Event>): Store {
    if events == [] then NEW_STORE else Step(Run(events[..|events| - 1]), events[|events| - 1])
  }

  /** The mutations of a log, without the snapshots taken for publication. */
  function Mutations(log: seq<Op>): seq<Op> {
    if log == [] then []
    else Mutations(log[..|log| - 1]) + (if Chained(log[|log| - 1]) then [log[|log| - 1]] else [])
  }

  function OpsOf(tasks: seq<Task>): seq<Op>
    requires forall t <- tasks :: t.Mutation?
  {
    seq(|tasks|, i requires 0 <= i < |tasks| => tasks[i].op)
  }

  /** From `k` on the chain holds the current generation's mutations; before it, if
      anything, what the pending reset will undo, ending with that reset. */
  ghost predicate SplitsAt(s: Store, k: nat) {
    && k <= |s.chain|
    && (forall i | k <= i < |s.chain| :: s.chain[i].Mutation? && s.chain[i].generation == s.generation && Chained(s.chain[i].op))
    && (forall i | 0 <= i < k :: s.chain[i].generation <= s.generation)
    && (forall i | 0 <= i < k :: s.chain[i].generation == s.generation <==> i == k - 1)
    && (k > 0 ==> s.chain[k - 1].Reset?)
    && (if k == 0 then Mutations(s.applied) + OpsOf(s.chain) == s.wanted else OpsOf(s.chain[k..]) == s.wanted)
  }

  ghost predicate Inv(s: Store) {
    && (exists k: nat :: SplitsAt(s, k))
    && s.engine == ApplyAll(s.applied)
  }

  lemma MutationsAppend(log: seq<Op>, op: Op)
    ensures Mutations(log + [op]) == Mutations(log) + (if Chained(op) then [op] else [])
    ensures ApplyAll(log + [op]) == Apply(ApplyAll(log), op)
  {
    assert (log + [op])[..|log|] == log;
  }

  lemma OpsOfTail(tasks: seq<Task>)
    requires tasks != [] && forall t <- tasks :: t.Mutation?
    ensures OpsOf(tasks) == [tasks[0].op] + OpsOf(tasks[1..])
  {
  }

  lemma OpsOfAppend(tasks: seq<Task>, t: Task)
    requires t.Mutation? && forall x <- tasks :: x.Mutation?
    ensures OpsOf(tasks + [t]) == OpsOf(tasks) + [t.op]
  {
  }

  lemma EnqueueKeeps(s: Store, op: Op, k: nat)
    requires SplitsAt(s, k) && Chained(op)
    ensures SplitsAt(Step(s, Enqueue(op)), k)
  {
    var t := Mutation(s.generation, op);
    var r := Step(s, Enqueue(op));
    assert r.chain[k..] == s.chain[k..] + [t];
    OpsOfAppend(s.chain[k..], t);
    if k == 0 {
      assert s.chain[0..] == s.chain && r.chain[0..] == r.chain;
      Regroup(Mutations(s.applied), OpsOf(s.chain), [op]);
    }
    hide OpsOf, Mutations;
  }

  lemma PopStale(s: Store, k: nat)
    requires SplitsAt(s, k) && s.chain != [] && s.chain[0].generation != s.generation
    ensures k > 0
    ensures forall r: Store | r == s.(chain := s.chain[1..], started := r.started, engine := r.engine, applied := r.applied) ::
              SplitsAt(r, k - 1)
  {
    assert k > 1;
    forall r: Store | r == s.(chain := s.chain[1..], started := r.started, engine := r.engine, applied := r.applied)
      ensures SplitsAt(r, k - 1)
    {
      assert r.chain[k - 1..] == s.chain[k..];
    }
  }

  lemma EngineKeeps(s: Store, k: nat)
    requires SplitsAt(s, k) && s.chain != [] && s.started
    ensures SplitsAt(Step(s, EngineRuns), if k > 0 then k - 1 else 0)
  {
    var r := Step(s, EngineRuns);
    if s.chain[0].generation != s.generation {
      PopStale(s, k);
    } else if k == 0 {
      var op := s.chain[0].op;
      OpsOfTail(s.chain);
      MutationsAppend(s.applied, op);
      Regroup(Mutations(s.applied), [op], OpsOf(s.chain[1..]));
      hide Mutations, OpsOf;
    } else {
      assert k == 1 && s.chain[0].Reset?;
      assert r.chain == s.chain[1..] && Mutations([]) == [];
      assert [] + OpsOf(r.chain) == OpsOf(r.chain);
    }
  }

  lemma ResetKeeps(s: Store, k: nat)
    requires SplitsAt(s, k)
    ensures SplitsAt(Step(s, ResetCalled), |s.chain| + 1)
  {
    var r := Step(s, ResetCalled);
    assert r.chain[|r.chain|..] == [] && OpsOf([]) == [];
    assert forall i | 0 <= i < |s.chain| :: s.chain[i].generation <= s.generation;
    hide Mutations;
  }

  lemma HeadKeeps(s: Store, k: nat)
    requires SplitsAt(s, k)
    ensures var r := Step(s, HeadRuns);
            && r.engine == s.engine && r.applied == s.applied
            && if r.chain == s.chain then SplitsAt(r, k) else k > 0 && SplitsAt(r, k - 1)
  {
    if s.chain != [] && s.chain[0].generation != s.generation {
      PopStale(s, k);
    }
    hide Mutations, OpsOf;
  }

  lemma PublishKeeps(s: Store, tab: TabID, starts: bool, k: nat)
    requires SplitsAt(s, k)
    ensures SplitsAt(Step(s, Publish(tab, starts)), k)
  {
    MutationsAppend(s.applied, Snapshot(tab, starts));
    assert Mutations(s.applied) + [] == Mutations(s.applied);
    hide Mutations, OpsOf;
  }

  lemma EngineFollowsLog(s: Store, e: Event)
    requires s.engine == ApplyAll(s.applied)
    ensures Step(s, e).engine == ApplyAll(Step(s, e).applied)
  {
    if e.Publish? {
      MutationsAppend(s.applied, Snapshot(e.tab, e.starts));
    } else if e.EngineRuns? && s.chain != [] && s.started && s.chain[0].Mutation? {
      MutationsAppend(s.applied, s.chain[0].op);
    }
    assert ApplyAll([]) == NEW_ENGINE;
    hide Apply, ApplyAll;
  }

  lemma StepKeepsInvariant(s: Store, e: Event)
    requires Inv(s)
    ensures Inv(Step(s, e))
  {
    var k: nat :| SplitsAt(s, k);
    EngineFollowsLog(s, e);
    hide SplitsAt, ApplyAll, Apply;
    match e {
      case Enqueue(op) =>
        if Chained(op) {
          EnqueueKeeps(s, op, k);
        }
      case ResetCalled => ResetKeeps(s, k);
      case HeadRuns => HeadKeeps(s, k);
      case EngineRuns =>
        if s.chain != [] && s.started {
          EngineKeeps(s, k);
        }
      case Publish(tab, starts) => PublishKeeps(s, tab, starts, k);
    }
  }

  lemma {:induction false} RunKeepsInvariant(events: seq<Event>)
    ensures Inv(Run(events))
  {
    if events == [] {
      assert OpsOf([]) == [] && Mutations([]) + [] == [];
      assert SplitsAt(NEW_STORE, 0);
    } else {
      RunKeepsInvariant(events[..|events| - 1]);
      hide Inv, Step;
      StepKeepsInvariant(Run(events[..|events| - 1]), events[|events| - 1]);
    }
  }

  predicate ResetPending(s: Store) {
    exists i | 0 <= i < |s.chain| :: s.chain[i] == Reset(s.generation)
  }

  /** Once the last reset has run, the engine is what a new one becomes by the
      mutations enqueued since that reset, in their order, as far as they have run;
      when the chain is idle, by all of them. */
  lemma OnlyLaterMutationsHaveEffect(events: seq<Event>)
    ensures var s := Run(events);
            && s.engine == ApplyAll(s.applied)
            && (!ResetPending(s) ==> Mutations(s.applied) <= s.wanted)
            && (s.chain == [] ==> Mutations(s.applied) == s.wanted)
  {
    RunKeepsInvariant(events);
    var s := Run(events);
    hide Run, ApplyAll, Mutations, Apply;
    var k: nat :| SplitsAt(s, k);
    if k > 0 {
      assert s.chain[k - 1] == Reset(s.generation);
    }
    if s.chain == [] {
      assert Mutations(s.applied) + [] == Mutations(s.applied);
    }
  }

  /** The mutations enqueued since the last call of reset. */
  function Asked(events: seq<Event>): seq<Op> {
    if events == [] then []
    else
      match events[|events| - 1]
      case Enqueue(op) => Asked(events[..|events| - 1]) + (if Chained(op) then [op] else [])
      case ResetCalled => []
      case _ => Asked(events[..|events| - 1])
  }

  lemma {:induction false} NoneIsForgotten(events: seq<Event>)
    ensures Run(events).wanted == Asked(events)
  {
    if events != [] {
      NoneIsForgotten(events[..|events| - 1]);
      hide Apply, ApplyAll;
    }
  }

  /** Whatever waits, the chain moves on by one when its head runs and the engine does;
      so an idle store has run everything asked of it since the last reset. */
  lemma HeadMakesWay(s: Store)
    requires s.chain != []
    ensures Step(Step(s, HeadRuns), EngineRuns).chain == s.chain[1..]
  {
    hide Apply;
  }

  /** In full: every mutation since the last reset and no other, in order. */
  lemma {:induction false} IdleStoreHasRunAll(events: seq<Event>)
    requires Run(events).chain == []
    ensures Mutations(Run(events).applied) == Asked(events) && Run(events).engine == ApplyAll(Run(events).applied)
  {
    NoneIsForgotten(events);
    OnlyLaterMutationsHaveEffect(events);
    hide Run, Mutations, ApplyAll, Asked;
  }

  /** The tab's bytes, over every run: a suffix of what the mutations since the last
      reset say it should hold. */
  lemma RenderedBytesAreSuffix(events: seq<Event>, tab: TabID)
    ensures var s := Run(events);
            && IsSuffix(Content(s.engine, tab), History(s.applied, tab))
            && (Content(s.engine, tab) == History(s.applied, tab) <==> Buffered(s.applied, tab) <= MAX_REPLAY_BYTES)
            && History(s.applied, tab) == History(Mutations(s.applied), tab)
  {
    RunKeepsInvariant(events);
    InjectedIsSuffixOfHistory(Run(events).applied, tab);
    HistoryIgnoresSnapshots(Run(events).applied, tab);
    hide Run, IsSuffix, Content, History, Buffered, SplitsAt, ApplyAll;
  }

  lemma {:induction false} HistoryIgnoresSnapshots(log: seq<Op>, tab: TabID)
    ensures History(log, tab) == History(Mutations(log), tab)
  {
    if log != [] {
      var before, last := log[..|log| - 1], log[|log| - 1];
      HistoryIgnoresSnapshots(before, tab);
      if Chained(last) {
        assert Mutations(log) == Mutations(before) + [last];
        assert (Mutations(before) + [last])[..|Mutations(before)|] == Mutations(before);
      } else {
        assert Mutations(log) == Mutations(before) + [];
        assert Mutations(before) + [] == Mutations(before);
      }
    }
  }

  class RemoteTerminalRendererStore {
    const engine: RemoteTerminalRenderEngine
    var generation: nat
    var chain: seq<Task>
    var started: bool
    ghost var applied: seq<Op>
    ghost var wanted: seq<Op>

    ghost function State(): Store
      reads this, engine
    {
      Store(generation, chain, started, engine.State(), applied, wanted)
    }

    constructor ()
      ensures State() == NEW_STORE && fresh(engine)
    {
      engine := new RemoteTerminalRenderEngine();
      generation, chain, started, applied, wanted := 0, [], false, [], [];
    }

    method EnqueueMutation(op: Op)
      requires Chained(op)
      modifies this
      ensures State() == Step(old(State()), Enqueue(op))
    {
      chain := chain + [Mutation(generation, op)];
      wanted := wanted + [op];
    }

    method ResetRendering()
      modifies this
      ensures State() == Step(old(State()), ResetCalled)
    {
      generation := generation + 1;
      chain := chain + [Reset(generation)];
      wanted := [];
    }

    /** The task at the head of the chain wakes up: its predecessor is done. */
    method RunHead()
      modifies this`chain, this`started
      ensures State() == Step(old(State()), HeadRuns)
    {
      if chain == [] || started {
        return;
      }
      if chain[0].Mutation? && chain[0].generation != generation {
        chain := chain[1..];
      } else {
        started := true;
      }
    }

    method RunOnEngine()
      modifies this, engine
      ensures State() == Step(old(State()), EngineRuns)
    {
      hide Apply;
      if chain == [] || !started {
        return;
      }
      match chain[0] {
        case Mutation(_, op) =>
          PerformOp(op);
          applied := applied + [op];
        case Reset(_) =>
          engine.Reset();
          applied := [];
      }
      chain := chain[1..];
      started := false;
    }

    method PerformOp(op: Op)
      modifies engine
      ensures engine.State() == Apply(old(engine.State()), op)
    {
      match op
      case ReplaceSnapshot(data, tab) => engine.Replace(data, tab);
      case AppendOutput(data, tab) => engine.Append(data, tab);
      case RetainVisibleTabs(visible) => engine.Retain(visible);
      case SetViewport => engine.ShowViewport();
      case Scroll(tab, starts) => var live := engine.EnsurePlayback(tab, starts);
      case Snapshot(tab, starts) =>
        if tab != 0 {
          var live := engine.EnsurePlayback(tab, starts);
        }
    }

    /** Publication asks the engine for a snapshot outside the chain. */
    method PublishSnapshot(tab: TabID, starts: bool)
      modifies this`applied, engine
      ensures State() == Step(old(State()), Publish(tab, starts))
    {
      hide Apply;
      PerformOp(Snapshot(tab, starts));
      applied := applied + [Snapshot(tab, starts)];
    }
  }
}
