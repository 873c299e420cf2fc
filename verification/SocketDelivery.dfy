/** Every frame of the open socket reaches the queue, in order, and no other frame does;
    and whatever is in the queue has a drain that will get to it. */
module SocketDelivery {
  import opened InboundQueue
  import opened Sequences
  import opened SocketGenerations

  /** How often the socket has been closed. */
  function Closings(events: seq<SocketGenerations.Event>): nat {
    if events == [] then 0
    else Closings(events[..|events| - 1]) + (if events[|events| - 1].Closed? then 1 else 0)
  }

  /** The frames the open socket has received, as its callbacks report them. */
  function Heard(events: seq<SocketGenerations.Event>): seq<Data> {
    if events == [] then []
    else
      var before := events[..|events| - 1];
      match events[|events| - 1]
      case Closed => []
      case Received(data, generation) => if generation == Closings(before) then Heard(before) + [data] else Heard(before)
      case _ => Heard(before)
  }

  /** Those of them that the main actor has not got to yet. */
  function Waiting(jobs: seq<Job>, generation: nat): seq<Data> {
    if jobs == [] then []
    else (if jobs[0].Deliver? && jobs[0].generation == generation then [jobs[0].data] else []) + Waiting(jobs[1..], generation)
  }

  lemma {:induction false} WaitingThen(jobs: seq<Job>, job: Job, generation: nat)
    ensures Waiting(jobs + [job], generation) == Waiting(jobs, generation) + Waiting([job], generation)
  {
    if jobs == [] {
      assert jobs + [job] == [job];
    } else {
      assert (jobs + [job])[1..] == jobs[1..] + [job];
      WaitingThen(jobs[1..], job, generation);
    }
  }

  lemma WaitingOne(job: Job, generation: nat)
    ensures Waiting([job], generation) == if job.Deliver? && job.generation == generation then [job.data] else []
  {
    assert [job][1..] == [];
    assert Waiting([], generation) == [];
  }

  lemma {:induction false} NothingWaits(jobs: seq<Job>, generation: nat)
    requires forall i | 0 <= i < |jobs| && jobs[i].Deliver? :: jobs[i].generation < generation
    ensures Waiting(jobs, generation) == []
  {
    if jobs != [] {
      assert forall i | 0 <= i < |jobs[1..]| :: jobs[1..][i] == jobs[i + 1];
      NothingWaits(jobs[1..], generation);
    }
  }

  ghost predicate Tracks(t: Transport, heard: seq<Data>) {
    t.pump.enqueued + Waiting(t.jobs, t.generation) == heard
  }

  /** A drain enqueues nothing, and schedules at most another drain. */
  lemma TurnsKeepFrames(t: Transport, drain: nat, budget: nat, heard: seq<Data>)
    requires drain in t.drains && Tracks(t, heard)
    ensures var r := TakeTurn(t, drain, budget); Tracks(r, heard) && r.generation == t.generation
  {
    WaitingThen(t.jobs, Begin(t.created), t.generation);
    WaitingOne(Begin(t.created), t.generation);
    hide Waiting;
    assert Waiting(t.jobs, t.generation) + [] == Waiting(t.jobs, t.generation);
  }

  lemma DeliveryKeepsFrames(t: Transport, data: Data, generation: nat, budget: nat, heard: seq<Data>)
    requires t.pump.enqueued + ((if generation == t.generation then [data] else []) + Waiting(t.jobs, t.generation)) == heard
    ensures var r := DeliverFrame(t, data, generation, budget); Tracks(r, heard) && r.generation == t.generation
  {
    WaitingThen(t.jobs, Begin(t.created), t.generation);
    WaitingOne(Begin(t.created), t.generation);
    hide Waiting, Enqueue;
    var waiting := Waiting(t.jobs, t.generation);
    assert waiting + [] == waiting && [] + waiting == waiting;
    Regroup(t.pump.enqueued, [data], waiting);
  }

  lemma JobKeepsFrames(t: Transport, budget: nat, heard: seq<Data>)
    requires Tracks(t, heard)
    ensures var r := Advance(t, RunJob(0), budget); Tracks(r, heard) && r.generation == t.generation
  {
    if t.jobs != [] {
      HeadIsPerformed(t, budget);
      var rest := t.(jobs := t.jobs[1..]);
      hide DeliverFrame, TakeTurn, Advance;
      match t.jobs[0] {
        case Deliver(data, generation) => DeliveryKeepsFrames(rest, data, generation, budget, heard);
        case Begin(drain) =>
          assert [] + Waiting(rest.jobs, t.generation) == Waiting(rest.jobs, t.generation);
          if drain in rest.drains {
            TurnsKeepFrames(rest, drain, budget, heard);
          }
      }
    }
  }

  lemma ResumptionKeepsFrames(t: Transport, drain: nat, budget: nat, heard: seq<Data>)
    requires Tracks(t, heard)
    ensures var r := Resume(t, drain, budget); Tracks(r, heard) && r.generation == t.generation
  {
    if drain in t.drains {
      TurnsKeepFrames(t, drain, budget, heard);
    }
    hide TakeTurn;
  }

  /** Over every run: the generation counts the closings, and the frames enqueued are,
      with those that still wait for the main actor, all that the open socket has
      received, in order. None is lost on the way and none of another socket enters. */
  lemma {:induction false} EveryFrameIsDelivered(events: seq<SocketGenerations.Event>, budget: nat)
    requires InJobOrder(events)
    ensures var t := SocketGenerations.Run(events, budget);
            && t.generation == Closings(events)
            && t.pump.enqueued + Waiting(t.jobs, t.generation) == Heard(events)
  {
    if events != [] {
      var before, e := events[..|events| - 1], events[|events| - 1];
      assert e in events && InJobOrder(before);
      EveryFrameIsDelivered(before, budget);
      SocketGenerations.RunKeepsInvariant(before, budget);
      var t := SocketGenerations.Run(before, budget);
      assert SocketGenerations.Run(events, budget) == Advance(t, e, budget);
      var heard := Heard(before);
      assert Tracks(t, heard);
      assert forall i | 0 <= i < |t.jobs| && t.jobs[i].Deliver? :: t.jobs[i].generation <= t.generation by {
        hide InboundQueue.Run;
      }
      hide SocketGenerations.Run, SocketGenerations.Inv, Waiting, InJobOrder, Perform, Resume;
      match e {
        case Received(data, generation) =>
          WaitingThen(t.jobs, Deliver(data, generation), t.generation);
          WaitingOne(Deliver(data, generation), t.generation);
          assert Waiting(t.jobs, t.generation) + [] == Waiting(t.jobs, t.generation);
          Regroup(t.pump.enqueued, Waiting(t.jobs, t.generation), [data]);
        case RunJob(i) => JobKeepsFrames(t, budget, heard);
        case Resumed(drain) => ResumptionKeepsFrames(t, drain, budget, heard);
        case Closed => NothingWaits(t.jobs, t.generation + 1);
      }
    }
  }

  // ----- The drain -----

  /** The drain task, if there is one, is with the client or about to begin. */
  ghost predicate Alive(t: Transport) {
    t.pump.draining ==> t.current in t.drains && (t.drains[t.current].phase.Handling? || Begin(t.current) in t.jobs)
  }

  lemma ScheduledIsAlive(t: Transport)
    ensures Alive(Schedule(t))
  {
    assert Schedule(t).jobs[|t.jobs|] == Begin(t.created);
  }

  lemma TurnKeepsAlive(t: Transport, drain: nat, budget: nat)
    requires drain in t.drains && (!IsCurrent(t, drain) ==> Alive(t))
    ensures Alive(TakeTurn(t, drain, budget))
  {
    if t.drains[drain].cancelled || t.pump.queue.messages == [] {
      EndIsAlive(t, drain);
    }
    hide EndDrain, InboundQueue.Step;
  }

  lemma EndIsAlive(t: Transport, drain: nat)
    ensures Alive(EndDrain(t, drain))
  {
    var r := EndDrain(t, drain);
    if r.pump.draining {
      assert Begin(t.created) in t.jobs + [Begin(t.created)];
      assert r.jobs == t.jobs + [Begin(t.created)] && r.current == t.created;
    }
  }

  lemma DeliveryKeepsAlive(t: Transport, data: Data, generation: nat, budget: nat)
    requires Alive(t)
    ensures Alive(DeliverFrame(t, data, generation, budget))
  {
    if generation == t.generation {
      var u := t.(pump := InboundQueue.Step(t.pump, Receive(data), budget), own := t.own + [Receive(data)]);
      assert t.pump.draining ==> u.pump.draining;
      ScheduledIsAlive(u);
      hide InboundQueue.Step, Schedule;
    }
  }

  lemma JobKeepsAlive(t: Transport, budget: nat)
    requires Alive(t)
    ensures Alive(Advance(t, RunJob(0), budget))
  {
    if t.jobs != [] {
      HeadIsPerformed(t, budget);
      var rest := t.(jobs := t.jobs[1..]);
      assert forall job <- t.jobs :: job == t.jobs[0] || job in rest.jobs;
      hide DeliverFrame, TakeTurn, Advance;
      match t.jobs[0] {
        case Deliver(data, generation) => DeliveryKeepsAlive(rest, data, generation, budget);
        case Begin(drain) =>
          if drain in rest.drains {
            TurnKeepsAlive(rest, drain, budget);
          }
      }
    }
  }

  lemma {:induction false} RunIsAlive(events: seq<SocketGenerations.Event>, budget: nat)
    requires InJobOrder(events)
    ensures Alive(SocketGenerations.Run(events, budget))
  {
    if events != [] {
      var before, e := events[..|events| - 1], events[|events| - 1];
      assert e in events && InJobOrder(before);
      RunIsAlive(before, budget);
      SocketGenerations.RunKeepsInvariant(before, budget);
      var t := SocketGenerations.Run(before, budget);
      assert SocketGenerations.Run(events, budget) == Advance(t, e, budget);
      hide SocketGenerations.Run, InJobOrder, InboundQueue.Run, Perform, TakeTurn;
      match e {
        case RunJob(i) => JobKeepsAlive(t, budget);
        case Resumed(drain) =>
          if drain in t.drains && t.drains[drain].phase.Handling? {
            TurnKeepsAlive(t, drain, budget);
          }
        case _ =>
      }
    }
  }

  lemma {:induction false} OwnFrames(own: seq<InboundQueue.Event>, budget: nat, e: InboundQueue.Event)
    requires e in own && e.Receive?
    ensures e.data in InboundQueue.Run(own, budget).enqueued
  {
    var before, last := own[..|own| - 1], own[|own| - 1];
    if e == last {
      hide Enqueue;
    } else {
      OwnFrames(before, budget, e);
      hide Enqueue;
    }
  }

  lemma {:induction false} HeardWasReceived(events: seq<SocketGenerations.Event>, data: Data)
    requires data in Heard(events)
    ensures exists e <- events :: e.Received? && e.data == data
  {
    var before, last := events[..|events| - 1], events[|events| - 1];
    if last.Received? && last.data == data {
      assert last in events;
    } else {
      HeardWasReceived(before, data);
      var e :| e in before && e.Received? && e.data == data;
      assert e in events;
    }
  }

  /** Over every run with frames that fit the budget: whatever is queued, and a recovery
      signal that is owed, has a drain that is with the client or about to begin. */
  lemma NothingIsStranded(events: seq<SocketGenerations.Event>, budget: nat)
    requires InJobOrder(events) && forall e <- events :: e.Received? && KindOf(e.data) == Output ==> e.data.Count() <= budget
    ensures var t := SocketGenerations.Run(events, budget);
            t.pump.queue.messages != [] || t.pump.queue.recoveryPending ==>
              && t.current in t.drains
              && (t.drains[t.current].phase == Handling(t.generation) || Begin(t.current) in t.jobs)
  {
    var t := SocketGenerations.Run(events, budget);
    EveryGenerationIsItsOwnRun(events, budget);
    SocketGenerations.RunKeepsInvariant(events, budget);
    RunIsAlive(events, budget);
    EveryFrameIsDelivered(events, budget);
    hide SocketGenerations.Run, InboundQueue.Run, Waiting, KindOf;
    forall e | e in t.own
      ensures Fits(e, budget)
    {
      if e.Receive? {
        OwnFrames(t.own, budget, e);
        assert e.data in Heard(events);
        HeardWasReceived(events, e.data);
      }
    }
    FittingRunsAreServed(t.own, budget);
  }

  /** When that drain begins or resumes it takes one turn of the queue. */
  lemma CurrentDrainTakesItsTurn(events: seq<SocketGenerations.Event>, budget: nat)
    requires InJobOrder(events) && SocketGenerations.Run(events, budget).pump.draining
    ensures var t := SocketGenerations.Run(events, budget);
            var next := InboundQueue.Step(t.pump, DrainTurn, budget);
            && (t.current in t.drains && t.drains[t.current].phase.Handling? ==>
                  Advance(t, Resumed(t.current), budget).pump == next)
            && (t.jobs != [] && t.jobs[0] == Begin(t.current) ==> Advance(t, RunJob(0), budget).pump == next)
  {
    var t := SocketGenerations.Run(events, budget);
    SocketGenerations.RunKeepsInvariant(events, budget);
    assert CurrentRight(t);
    hide SocketGenerations.Run, InboundQueue.Run, OthersStale, JobsRight, StaleFirst, SocketGenerations.Inv;
    TurnIsPumpTurn(t, budget);
    if t.jobs != [] && t.jobs[0] == Begin(t.current) {
      HeadIsPerformed(t, budget);
      TurnIsPumpTurn(t.(jobs := t.jobs[1..]), budget);
    }
    hide TakeTurn, InboundQueue.Step;
  }

  lemma TurnIsPumpTurn(t: Transport, budget: nat)
    requires t.pump.draining && CurrentRight(t)
    ensures TakeTurn(t, t.current, budget).pump == InboundQueue.Step(t.pump, DrainTurn, budget)
  {
    if t.pump.queue.messages == [] {
      EndsAsTurn(t, t.current, budget);
    } else {
      assert t.pump.(draining := true) == t.pump;
      hide EndDrain;
    }
  }
}
