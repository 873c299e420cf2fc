/** The phone's receive pump over all its sockets. Frames and drains are jobs on the
    main actor's queue; closing the socket cancels the drain, which may not have
    begun, and starts the next generation. Every generation is a run of its own. */
module SocketGenerations {
  import opened InboundQueue
  import opened Wrappers

  /** A drain is scheduled, or waits for the client to handle a frame of a generation. */
  datatype Phase = Scheduled | Handling(generation: nat)

  datatype Drain = Drain(cancelled: bool, phase: Phase)

  datatype Job = Deliver(data: Data, generation: nat) | Begin(drain: nat)

  /** `pump.draining` says that there is a drain task, and `current` which; `own` lists
      what has happened to the queue since the socket was last closed. */
  datatype Transport = Transport(generation: nat, pump: Pump, current: nat, drains: map<nat, Drain>,
                                 jobs: seq<Job>, created: nat, own: seq<InboundQueue.Event>)

  const NEW_TRANSPORT := Transport(0, EMPTY_PUMP, 0, map[], [], 0, [])

  datatype Event =
    | Received(data: Data, generation: nat)
    | RunJob(i: nat)
    | Resumed(drain: nat)
    | Closed

  function Schedule(t: Transport): Transport {
    t.(current := t.created, drains := t.drains[t.created := Drain(false, Scheduled)],
       jobs := t.jobs + [Begin(t.created)], created := t.created + 1)
  }

  /** A frame of another generation is dropped. */
  function DeliverFrame(t: Transport, data: Data, generation: nat, budget: nat): Transport {
    if generation != t.generation then t
    else
      var u := t.(pump := InboundQueue.Step(t.pump, Receive(data), budget), own := t.own + [Receive(data)]);
      if u.pump.draining && !t.pump.draining then Schedule(u) else u
  }

  predicate IsCurrent(t: Transport, drain: nat) {
    t.pump.draining && drain == t.current
  }

  /** Whichever drain ends, the task is forgotten, the signal taken if the queue is
      empty, and a new drain started if it is not. */
  function EndDrain(t: Transport, drain: nat): Transport {
    var p := t.pump.(draining := false);
    var signalled := if p.queue.messages == [] && p.queue.recoveryPending
                     then p.(queue := p.queue.(recoveryPending := false), segment := |p.enqueued|, applied := [],
                             signals := p.signals + 1)
                     else p;
    var u := t.(drains := t.drains - {drain}, pump := signalled.(draining := signalled.queue.messages != []),
                own := if IsCurrent(t, drain) then t.own + [DrainTurn] else t.own);
    if u.pump.draining then Schedule(u) else u
  }

  /** From the head of the drain's loop to the next frame, or to its end. */
  function TakeTurn(t: Transport, drain: nat, budget: nat): Transport
    requires drain in t.drains
  {
    if t.drains[drain].cancelled || t.pump.queue.messages == [] then EndDrain(t, drain)
    else
      var popped := InboundQueue.Step(t.pump.(draining := true), DrainTurn, budget);
      t.(drains := t.drains[drain := t.drains[drain].(phase := Handling(t.generation))],
         pump := popped.(draining := t.pump.draining),
         own := if IsCurrent(t, drain) then t.own + [DrainTurn] else t.own)
  }

  function Perform(t: Transport, job: Job, budget: nat): Transport {
    match job
    case Deliver(data, generation) => DeliverFrame(t, data, generation, budget)
    case Begin(drain) => if drain in t.drains then TakeTurn(t, drain, budget) else t
  }

  /** The frame is handled; a drain of an older generation leaves without a word. */
  function Resume(t: Transport, drain: nat, budget: nat): Transport {
    if drain !in t.drains || t.drains[drain].phase.Scheduled? then t
    else if t.drains[drain].phase.generation != t.generation then t.(drains := t.drains - {drain})
    else TakeTurn(t, drain, budget)
  }

  function CloseSocket(t: Transport): Transport {
    t.(generation := t.generation + 1, pump := EMPTY_PUMP, own := [],
       drains := if t.pump.draining && t.current in t.drains
                 then t.drains[t.current := t.drains[t.current].(cancelled := true)] else t.drains)
  }

  function Advance(t: Transport, e: Event, budget: nat): Transport {
    match e
    case Received(data, generation) =>
      if generation <= t.generation then t.(jobs := t.jobs + [Deliver(data, generation)]) else t
    case RunJob(i) =>
      if i < |t.jobs| then Perform(t.(jobs := t.jobs[..i] + t.jobs[i + 1..]), t.jobs[i], budget) else t
    case Resumed(drain) => Resume(t, drain, budget)
    case Closed => CloseSocket(t)
  }

  function Run(events: seq<Event>, budget: nat): Transport {
    if events == [] then NEW_TRANSPORT
    else Advance(Run(events[..|events| - 1], budget), events[|events| - 1], budget)
  }

  /** The main actor runs its jobs in the order they were added. */
  predicate InJobOrder(events: seq<Event>) {
    forall e <- events :: e.RunJob? ==> e.i == 0
  }

  // ----- The invariant -----

  ghost predicate CurrentRight(t: Transport) {
    t.pump.draining ==>
      && t.current in t.drains && !t.drains[t.current].cancelled
      && (t.drains[t.current].phase.Handling? ==> t.drains[t.current].phase.generation == t.generation)
  }

  /** Every other drain has been cancelled before it began, or handles an old frame. */
  ghost predicate OthersStale(t: Transport) {
    forall d | d in t.drains && !IsCurrent(t, d) ::
      if t.drains[d].phase.Scheduled? then t.drains[d].cancelled else t.drains[d].phase.generation < t.generation
  }

  ghost predicate JobsRight(t: Transport) {
    && (forall d | d in t.drains :: d < t.created)
    && (forall i | 0 <= i < |t.jobs| && t.jobs[i].Begin? :: t.jobs[i].drain in t.drains && t.drains[t.jobs[i].drain].phase.Scheduled?)
    && (forall i, j | 0 <= i < j < |t.jobs| && t.jobs[i].Begin? && t.jobs[j].Begin? :: t.jobs[i].drain != t.jobs[j].drain)
    && (forall i | 0 <= i < |t.jobs| && t.jobs[i].Deliver? :: t.jobs[i].generation <= t.generation)
  }

  /** A cancelled drain that is still to begin comes before the generation's frames. */
  ghost predicate StaleFirst(t: Transport) {
    forall i | 0 <= i < |t.jobs| && t.jobs[i].Begin? && !IsCurrent(t, t.jobs[i].drain) ::
      t.pump == EMPTY_PUMP && forall j | 0 <= j < i && t.jobs[j].Deliver? :: t.jobs[j].generation < t.generation
  }

  ghost predicate Inv(t: Transport, budget: nat) {
    CurrentRight(t) && OthersStale(t) && JobsRight(t) && StaleFirst(t) && t.pump == InboundQueue.Run(t.own, budget)
  }

  lemma RunGrows(own: seq<InboundQueue.Event>, e: InboundQueue.Event, budget: nat)
    ensures InboundQueue.Run(own + [e], budget) == InboundQueue.Step(InboundQueue.Run(own, budget), e, budget)
  {
    assert (own + [e])[..|own|] == own;
    hide InboundQueue.Step;
  }

  lemma ReceivedKeeps(t: Transport, data: Data, generation: nat, budget: nat)
    requires Inv(t, budget)
    ensures Inv(Advance(t, Received(data, generation), budget), budget)
  {
    hide InboundQueue.Run;
  }

  /** The head of the queue is taken off. */
  ghost predicate Ready(t: Transport, job: Job, rest: Transport, budget: nat) {
    t.jobs != [] && job == t.jobs[0] && rest == t.(jobs := t.jobs[1..]) && Inv(t, budget)
  }

  lemma RestKeeps(t: Transport, rest: Transport, budget: nat)
    requires t.jobs != [] && rest == t.(jobs := t.jobs[1..]) && Inv(t, budget)
    ensures CurrentRight(rest) && OthersStale(rest) && JobsRight(rest) && rest.pump == InboundQueue.Run(rest.own, budget)
    ensures forall i | 0 <= i < |rest.jobs| :: rest.jobs[i] == t.jobs[i + 1]
  {
    hide InboundQueue.Run;
  }

  ghost predicate NoBegins(t: Transport) {
    forall i | 0 <= i < |t.jobs| :: !t.jobs[i].Begin?
  }

  /** The pump moves on while its drain stays. */
  lemma MovesOn(t: Transport, p: Pump, own: seq<InboundQueue.Event>, budget: nat)
    requires CurrentRight(t) && OthersStale(t) && JobsRight(t) && t.pump.draining && p.draining
    requires p == InboundQueue.Run(own, budget)
    requires forall i | 0 <= i < |t.jobs| && t.jobs[i].Begin? :: t.jobs[i].drain == t.current
    ensures Inv(t.(pump := p, own := own), budget)
  {
    hide InboundQueue.Run;
  }

  lemma SameJobs(t: Transport, p: Pump, own: seq<InboundQueue.Event>, budget: nat)
    requires OthersStale(t) && JobsRight(t) && NoBegins(t) && !t.pump.draining && !p.draining
    requires p == InboundQueue.Run(own, budget)
    ensures Inv(t.(pump := p, own := own), budget)
  {
    hide InboundQueue.Run;
  }

  /** A frame for an idle pump schedules a drain. */
  lemma StartsDrain(t: Transport, p: Pump, own: seq<InboundQueue.Event>, budget: nat)
    requires OthersStale(t) && JobsRight(t) && NoBegins(t) && !t.pump.draining && p.draining
    requires p == InboundQueue.Run(own, budget)
    ensures Inv(Schedule(t.(pump := p, own := own)), budget)
  {
    hide InboundQueue.Run;
  }

  lemma DeliverKeeps(t: Transport, rest: Transport, data: Data, generation: nat, budget: nat)
    requires Ready(t, Deliver(data, generation), rest, budget)
    ensures Inv(DeliverFrame(rest, data, generation, budget), budget)
  {
    RestKeeps(t, rest, budget);
    if generation == t.generation {
      RunGrows(t.own, Receive(data), budget);
      var p := InboundQueue.Step(t.pump, Receive(data), budget);
      assert t.pump.draining ==> p.draining;
      assert forall i | 0 <= i < |t.jobs| && t.jobs[i].Begin? :: IsCurrent(t, t.jobs[i].drain) by {
        hide InboundQueue.Run, InboundQueue.Step;
      }
      hide InboundQueue.Run, InboundQueue.Step, CurrentRight, OthersStale, JobsRight, Inv;
      if t.pump.draining {
        MovesOn(rest, p, t.own + [Receive(data)], budget);
      } else {
        assert NoBegins(rest);
        if p.draining {
          StartsDrain(rest, p, t.own + [Receive(data)], budget);
        } else {
          SameJobs(rest, p, t.own + [Receive(data)], budget);
        }
      }
    } else {
      hide InboundQueue.Run, CurrentRight, OthersStale, JobsRight;
    }
  }

  lemma EndsAsTurn(t: Transport, drain: nat, budget: nat)
    requires IsCurrent(t, drain) && t.pump.queue.messages == []
    ensures var r := EndDrain(t, drain);
            && r == t.(drains := t.drains - {drain}, pump := InboundQueue.Step(t.pump, DrainTurn, budget), own := t.own + [DrainTurn])
            && !r.pump.draining
  {
  }

  lemma StaleEnd(t: Transport, drain: nat)
    requires t.pump == EMPTY_PUMP
    ensures EndDrain(t, drain) == t.(drains := t.drains - {drain})
  {
  }

  /** The current drain has ended, or begun to handle a frame. */
  lemma DrainEnded(t: Transport, drain: nat, p: Pump, own: seq<InboundQueue.Event>, budget: nat)
    requires OthersStale(t) && JobsRight(t) && NoBegins(t) && IsCurrent(t, drain) && !p.draining
    requires p == InboundQueue.Run(own, budget)
    ensures Inv(t.(drains := t.drains - {drain}, pump := p, own := own), budget)
  {
    hide InboundQueue.Run;
  }

  lemma DrainHandles(t: Transport, drain: nat, p: Pump, own: seq<InboundQueue.Event>, budget: nat)
    requires OthersStale(t) && JobsRight(t) && NoBegins(t) && IsCurrent(t, drain) && drain in t.drains && p.draining
    requires p == InboundQueue.Run(own, budget)
    ensures Inv(t.(drains := t.drains[drain := Drain(false, Handling(t.generation))], pump := p, own := own), budget)
  {
    hide InboundQueue.Run;
  }

  /** A turn of the current drain is a turn of the generation's pump. */
  lemma CurrentTurnKeeps(t: Transport, drain: nat, budget: nat)
    requires CurrentRight(t) && OthersStale(t) && JobsRight(t) && t.pump == InboundQueue.Run(t.own, budget)
    requires IsCurrent(t, drain) && NoBegins(t)
    ensures Inv(TakeTurn(t, drain, budget), budget)
  {
    RunGrows(t.own, DrainTurn, budget);
    var p := InboundQueue.Step(t.pump, DrainTurn, budget);
    hide InboundQueue.Run, NoBegins, OthersStale, JobsRight, Inv;
    if t.pump.queue.messages == [] {
      EndsAsTurn(t, drain, budget);
      hide InboundQueue.Step, EndDrain;
      DrainEnded(t, drain, p, t.own + [DrainTurn], budget);
    } else {
      assert t.pump.(draining := true) == t.pump;
      assert p.draining && p.(draining := true) == p;
      hide InboundQueue.Step, EndDrain;
      DrainHandles(t, drain, p, t.own + [DrainTurn], budget);
    }
  }

  lemma NoOtherBegins(t: Transport, budget: nat, k: nat)
    requires Inv(t, budget) && k < |t.jobs| && t.jobs[k].Begin? && IsCurrent(t, t.jobs[k].drain)
    ensures forall i | 0 <= i < |t.jobs| && i != k :: !t.jobs[i].Begin?
  {
    hide InboundQueue.Run;
    assert forall i | 0 <= i < |t.jobs| && t.jobs[i].Begin? && i != k :: t.jobs[i].drain != t.jobs[k].drain;
  }

  lemma BeginKeeps(t: Transport, rest: Transport, drain: nat, budget: nat)
    requires Ready(t, Begin(drain), rest, budget)
    ensures Inv(Perform(rest, Begin(drain), budget), budget)
  {
    assert drain in t.drains;
    if IsCurrent(t, drain) {
      NoOtherBegins(t, budget, 0);
      RestKeeps(t, rest, budget);
      CurrentTurnKeeps(rest, drain, budget);
      hide *;
    } else {
      StaleEnd(rest, drain);
      assert TakeTurn(rest, drain, budget) == rest.(drains := rest.drains - {drain}) by {
        assert rest.pump.queue.messages == [];
        hide EndDrain, InboundQueue.Run;
      }
      hide TakeTurn, EndDrain, InboundQueue.Run;
    }
  }

  lemma HeadIsPerformed(t: Transport, budget: nat)
    requires t.jobs != []
    ensures Advance(t, RunJob(0), budget) == Perform(t.(jobs := t.jobs[1..]), t.jobs[0], budget)
  {
    assert t.jobs[..0] + t.jobs[1..] == t.jobs[1..];
    hide Perform;
  }

  lemma JobKeeps(t: Transport, budget: nat)
    requires Inv(t, budget)
    ensures Inv(Advance(t, RunJob(0), budget), budget)
  {
    if t.jobs == [] {
      hide Inv;
    } else {
      HeadIsPerformed(t, budget);
      var rest := t.(jobs := t.jobs[1..]);
      hide Inv, DeliverFrame, TakeTurn, Advance;
      match t.jobs[0] {
        case Deliver(data, generation) => DeliverKeeps(t, rest, data, generation, budget);
        case Begin(drain) => BeginKeeps(t, rest, drain, budget);
      }
    }
  }

  /** While the current drain handles a frame no drain is still to begin. */
  lemma ResumedKeeps(t: Transport, drain: nat, budget: nat)
    requires Inv(t, budget)
    ensures Inv(Resume(t, drain, budget), budget)
  {
    if drain in t.drains && t.drains[drain].phase.Handling? {
      if t.drains[drain].phase.generation != t.generation {
        hide InboundQueue.Run;
        assert !IsCurrent(t, drain);
      } else {
        assert IsCurrent(t, drain);
        forall i | 0 <= i < |t.jobs|
          ensures !t.jobs[i].Begin?
        {
          assert t.jobs[i].Begin? ==> !IsCurrent(t, t.jobs[i].drain);
        }
        CurrentTurnKeeps(t, drain, budget);
        hide *;
      }
    }
  }

  lemma ClosedKeeps(t: Transport, budget: nat)
    requires Inv(t, budget)
    ensures Inv(CloseSocket(t), budget)
  {
    assert InboundQueue.Run([], budget) == EMPTY_PUMP;
    hide InboundQueue.Run;
  }

  lemma {:induction false} RunKeepsInvariant(events: seq<Event>, budget: nat)
    requires InJobOrder(events)
    ensures Inv(Run(events, budget), budget)
  {
    if events != [] {
      var before, e := events[..|events| - 1], events[|events| - 1];
      assert e in events && InJobOrder(before);
      RunKeepsInvariant(before, budget);
      var t := Run(before, budget);
      assert Run(events, budget) == Advance(t, e, budget);
      hide Inv, Run, InJobOrder, Perform;
      match e {
        case Received(data, generation) => ReceivedKeeps(t, data, generation, budget);
        case RunJob(i) => JobKeeps(t, budget);
        case Resumed(drain) => ResumedKeeps(t, drain, budget);
        case Closed => ClosedKeeps(t, budget);
      }
    } else {
      assert InboundQueue.Run([], budget) == EMPTY_PUMP;
    }
  }

  /** Over every run, with any closing and reopening and drains that begin or resume
      late: the pump is what its own generation's frames and turns make of an empty
      one, and the client handles one frame of the generation at a time. */
  lemma EveryGenerationIsItsOwnRun(events: seq<Event>, budget: nat)
    requires InJobOrder(events)
    ensures var t := Run(events, budget);
            && t.pump == InboundQueue.Run(t.own, budget)
            && forall d | d in t.drains && t.drains[d].phase == Handling(t.generation) :: IsCurrent(t, d)
  {
    RunKeepsInvariant(events, budget);
    hide Run, InboundQueue.Run, CurrentRight, JobsRight, StaleFirst;
  }

  /** So on every socket no output is skipped without a recovery being owed. */
  lemma NoGapOnAnySocket(events: seq<Event>, budget: nat)
    requires InJobOrder(events)
    ensures var s := Run(events, budget).pump;
            && s.segment <= |s.enqueued| && s.applied <= OutputSince(s)
            && InboundQueue.Inv(s, budget)
  {
    EveryGenerationIsItsOwnRun(events, budget);
    AppliedOutputHasNoGap(Run(events, budget).own, budget);
    InboundQueue.RunKeepsInvariant(Run(events, budget).own, budget);
    hide *;
  }

  // ----- As the phone runs it -----

  class ReceivePump {
    const inboundQueue: RemoteInboundMessageQueue
    var generation: nat
    var drainTask: Option<nat>
    var drains: map<nat, Drain>
    var jobs: seq<Job>
    var created: nat
    ghost var history: Pump
    ghost var current: nat
    ghost var own: seq<InboundQueue.Event>

    ghost function State(): Transport
      reads this
    {
      Transport(generation, history, current, drains, jobs, created, own)
    }

    ghost predicate Valid()
      reads this, inboundQueue
    {
      && inboundQueue.Valid() && history.queue == inboundQueue.State()
      && (history.draining <==> drainTask.Some?) && (drainTask.Some? ==> drainTask.value == current)
    }

    constructor (maxBufferedBytes: nat)
      ensures Valid() && State() == NEW_TRANSPORT && fresh(inboundQueue)
      ensures inboundQueue.maxBufferedBytes == maxBufferedBytes
    {
      inboundQueue := new RemoteInboundMessageQueue(maxBufferedBytes);
      generation, drainTask, drains, jobs, created := 0, None, map[], [], 0;
      history, current, own := EMPTY_PUMP, 0, [];
    }

    /** The socket's callback, for the generation it was listening in. */
    method SocketReceived(data: Data, receivedIn: nat)
      requires Valid() && receivedIn <= generation
      modifies this`jobs
      ensures Valid() && State() == Advance(old(State()), Received(data, receivedIn), inboundQueue.maxBufferedBytes)
    {
      jobs := jobs + [Deliver(data, receivedIn)];
    }

    method StartDrainIfNeeded()
      requires inboundQueue.Valid() && history.queue == inboundQueue.State()
      modifies this`drainTask, this`drains, this`jobs, this`created, this`current, this`history
      ensures drainTask.Some? <==> old(drainTask).Some? || inboundQueue.messages != []
      ensures history == old(history).(draining := drainTask.Some?)
      ensures if old(drainTask).None? && inboundQueue.messages != []
              then drainTask == Some(current) && State() == Schedule(old(State()).(pump := history))
              else drainTask == old(drainTask) && State() == old(State()).(pump := history)
    {
      if drainTask.None? && inboundQueue.messages != [] {
        drainTask := Some(created);
        current := created;
        drains := drains[created := Drain(false, Scheduled)];
        jobs := jobs + [Begin(created)];
        created := created + 1;
      }
      history := history.(draining := drainTask.Some?);
    }

    /** `arrival` is the position of the frame among those of its socket. */
    method Enqueue(data: Data, receivedIn: nat, arrival: nat)
      requires Valid() && arrival == |history.enqueued|
      modifies this, inboundQueue
      ensures Valid() && State() == DeliverFrame(old(State()), data, receivedIn, inboundQueue.maxBufferedBytes)
    {
      if receivedIn != generation {
        return;
      }
      inboundQueue.EnqueueFrame(data, arrival);
      history := InboundQueue.Step(history, Receive(data), inboundQueue.maxBufferedBytes).(draining := history.draining);
      own := own + [Receive(data)];
      hide InboundQueue.Enqueue, TotalBytes;
      StartDrainIfNeeded();
    }

    /** The end of the drain's loop. */
    method FinishDrain(drain: nat) returns (recoveryNeeded: bool)
      requires Valid()
      modifies this, inboundQueue
      ensures Valid() && State() == EndDrain(old(State()), drain)
      ensures recoveryNeeded <==> old(inboundQueue.messages) == [] && old(inboundQueue.outputRecoveryPending)
    {
      own := if IsCurrent(State(), drain) then own + [DrainTurn] else own;
      drains := drains - {drain};
      drainTask := None;
      recoveryNeeded := inboundQueue.TakeOutputRecoverySignalIfDrained();
      history := history.(draining := false);
      if recoveryNeeded {
        history := history.(queue := history.queue.(recoveryPending := false), segment := |history.enqueued|, applied := [],
                            signals := history.signals + 1);
      }
      StartDrainIfNeeded();
    }

    /** From the head of the loop: a frame for the client, or the end of the drain. */
    method RunDrain(drain: nat) returns (message: Option<Message>, recoveryNeeded: bool)
      requires Valid() && drain in drains
      modifies this, inboundQueue
      ensures Valid() && State() == TakeTurn(old(State()), drain, inboundQueue.maxBufferedBytes)
      ensures message == if old(drains)[drain].cancelled || old(inboundQueue.messages) == [] then None
                         else Some(old(inboundQueue.messages)[0])
    {
      hide TotalBytes, KindOf;
      message, recoveryNeeded := None, false;
      if drains[drain].cancelled || inboundQueue.messages == [] {
        recoveryNeeded := FinishDrain(drain);
      } else {
        own := if IsCurrent(State(), drain) then own + [DrainTurn] else own;
        history := InboundQueue.Step(history.(draining := true), DrainTurn, inboundQueue.maxBufferedBytes).(draining := history.draining);
        message := inboundQueue.PopFirst();
        var supersededGrids, evictedOutput := inboundQueue.TakeShedCounts();
        drains := drains[drain := drains[drain].(phase := Handling(generation))];
      }
    }

    /** The main actor runs the job that was added first. */
    method RunNextJob(arrival: nat) returns (message: Option<Message>, recoveryNeeded: bool)
      requires Valid() && arrival == |history.enqueued|
      modifies this, inboundQueue
      ensures Valid() && State() == Advance(old(State()), RunJob(0), inboundQueue.maxBufferedBytes)
    {
      hide DeliverFrame, TakeTurn;
      message, recoveryNeeded := None, false;
      if jobs == [] {
        return;
      }
      var job := jobs[0];
      assert jobs[..0] + jobs[1..] == jobs[1..];
      jobs := jobs[1..];
      match job
      case Deliver(data, receivedIn) => Enqueue(data, receivedIn, arrival);
      case Begin(drain) =>
        if drain in drains {
          message, recoveryNeeded := RunDrain(drain);
        }
    }

    /** The client has handled the drain's frame. */
    method ResumeDrain(drain: nat) returns (message: Option<Message>, recoveryNeeded: bool)
      requires Valid() && drain in drains && drains[drain].phase.Handling?
      modifies this, inboundQueue
      ensures Valid() && State() == Advance(old(State()), Resumed(drain), inboundQueue.maxBufferedBytes)
    {
      hide TakeTurn;
      message, recoveryNeeded := None, false;
      if drains[drain].phase.generation != generation {
        drains := drains - {drain};
      } else {
        message, recoveryNeeded := RunDrain(drain);
      }
    }

    method CloseSocket()
      requires Valid()
      modifies this, inboundQueue
      ensures Valid() && State() == Advance(old(State()), Closed, inboundQueue.maxBufferedBytes)
    {
      if drainTask.Some? && drainTask.value in drains {
        drains := drains[drainTask.value := drains[drainTask.value].(cancelled := true)];
      }
      drainTask := None;
      inboundQueue.RemoveAll();
      generation := generation + 1;
      history, own := EMPTY_PUMP, [];
    }
  }
}
