/** A call filed under a candidate is recorded only when its response is complete,
    and then by tab: which task it ends with, if any. */
module FiledCalls {
  import opened Wrappers
  import opened TaskLifecycle
  import opened CandidateFates
  import opened TaskTriggers

  ghost function RunFrom(m: Manager, events: seq<Event>, settings: Settings): Manager
    decreases |events|
  {
    if events == [] then m else RunFrom(Step(m, events[0], settings), events[1..], settings)
  }

  lemma RunSnoc(events: seq<Event>, e: Event, settings: Settings)
    ensures Run(events + [e], settings) == Step(Run(events, settings), e, settings)
  {
    var all := events + [e];
    assert all[..|all| - 1] == events && all[|all| - 1] == e;
    hide Step;
  }

  lemma {:induction false} RunAppend(events: seq<Event>, rest: seq<Event>, settings: Settings)
    ensures Run(events + rest, settings) == RunFrom(Run(events, settings), rest, settings)
    decreases |rest|
  {
    hide Step;
    if rest == [] {
      assert events + rest == events;
    } else {
      assert events + rest == events + [rest[0]] + rest[1..];
      RunSnoc(events, rest[0], settings);
      RunAppend(events + [rest[0]], rest[1..], settings);
    }
  }

  /** The first event that ends the wait of the tab's candidate, and the state it
      happens in; `Stays` if there is none. */
  ghost function FirstFate(m: Manager, after: seq<Event>, settings: Settings, tab: TabID): (Fate, Manager)
    decreases |after|
  {
    if after == [] || tab !in m.candidates then (Stays, m)
    else if FateOf(m, after[0], tab) != Stays then (FateOf(m, after[0], tab), m)
    else FirstFate(Step(m, after[0], settings), after[1..], settings, tab)
  }

  ghost predicate Quiet(events: seq<Event>, call: nat) {
    forall i | 0 <= i < |events| && events[i].CallPending? :: events[i].call != call
  }

  lemma StillRecorded(m: Manager, e: Event, settings: Settings, tab: TabID, call: nat)
    requires Pending(m, tab, call) && FateOf(m, e, tab) == Stays
    ensures Pending(Step(m, e, settings), tab, call)
  {
    hide ProcessCall, Confirm, CreateTask, Dismiss, Expire, Earliest, Assess, Rename, HasTaskFrom;
    match e {
      case CallArrives(h, now) =>
        ProcessCallEffect(m, h, now, settings);
        assert h.tab != tab ==> tab in m.candidates - {h.tab} && tab in ProcessCall(m, h, now, settings).candidates - {h.tab};
      case UserConfirms(t, candidateID, now) => ConfirmEffect(m, t, candidateID, now);
      case UserStarts(t, name, now) =>
        var (session, project) := if t in m.tasks then (m.tasks[t].session, m.tasks[t].project) else ("", "");
        CreateTaskEffect(m, Headers(t, session, project, name, true, None), now);
      case UserDismisses(t, candidateID) => DismissEffect(m, t, candidateID);
      case TimerFires(order, now) => ExpireCandidates(m, order, now);
      case UserAssesses(_, _) => CorrectionEffect(m, e, settings);
      case UserRenames(_, _) => CorrectionEffect(m, e, settings);
      case _ =>
    }
  }

  /** A step leaves the call recorded where it was, or, once that candidate's wait
      is over, nowhere. */
  lemma RecordAfter(m: Manager, e: Event, settings: Settings, tab: TabID, call: nat)
    requires Inv(m) && tab in m.candidates && RecordedFor(m, tab, call) && Quiet([e], call)
    ensures var r := Step(m, e, settings);
            if FateOf(m, e, tab) == Stays then tab in r.candidates && r.candidates[tab].id == m.candidates[tab].id && RecordedFor(r, tab, call)
            else Unrecorded(r, call)
  {
    var r := Step(m, e, settings);
    CandidateMeetsItsFate(m, e, settings, tab);
    assert e == [e][0];
    assert e.CallPending? ==> e.call != call;
    forall t | Pending(r, t, call)
      ensures Pending(m, t, call) && r.candidates[t].id == m.candidates[t].id
    {
      PendingGrows(m, e, settings, t, call);
    }
    if FateOf(m, e, tab) == Stays {
      StillRecorded(m, e, settings, tab, call);
    }
    hide Step, Inv, HasTaskFrom;
  }

  lemma StillUnrecorded(m: Manager, e: Event, settings: Settings, call: nat)
    requires Unrecorded(m, call) && Quiet([e], call)
    ensures Unrecorded(Step(m, e, settings), call)
  {
    assert e == [e][0];
    forall t | Pending(Step(m, e, settings), t, call)
      ensures false
    {
      PendingGrows(m, e, settings, t, call);
    }
  }

  lemma {:induction false} UnrecordedCallStays(m: Manager, after: seq<Event>, settings: Settings, call: nat)
    requires call in m.calls && Unrecorded(m, call) && Quiet(after, call)
    ensures var r := RunFrom(m, after, settings); call in r.calls && r.calls[call] == m.calls[call]
    decreases |after|
  {
    if after != [] {
      var e := after[0];
      assert Quiet([e], call) && Quiet(after[1..], call);
      hide Unrecorded, Quiet, Step;
      OtherCallsStay(m, e, settings, call);
      StillUnrecorded(m, e, settings, call);
      UnrecordedCallStays(Step(m, e, settings), after[1..], settings, call);
    }
  }

  lemma RowStays(m: Manager, e: Event, settings: Settings, id: nat)
    requires Inv(m) && id in m.rows
    ensures var r := Step(m, e, settings); id in r.rows && r.rows[id].candidateID == m.rows[id].candidateID
  {
    StepEvolves(m, e, settings);
    hide Step, Inv;
    assert RowEvolves(m.rows[id], Step(m, e, settings).rows[id], Assessed(e));
  }

  /** Rows stay, and keep the candidate they were made from. */
  lemma {:induction false} OriginStays(m: Manager, after: seq<Event>, settings: Settings, id: nat)
    requires Inv(m) && id in m.rows
    ensures var r := RunFrom(m, after, settings); id in r.rows && r.rows[id].candidateID == m.rows[id].candidateID
    decreases |after|
  {
    if after != [] {
      var e := after[0];
      RowStays(m, e, settings, id);
      StepKeepsInvariant(m, e, settings);
      hide Step, Inv;
      OriginStays(Step(m, e, settings), after[1..], settings, id);
    }
  }

  /** The call is filed under the task that was made from this candidate. */
  predicate EndsWith(m: Manager, call: nat, candidateID: nat) {
    call in m.calls && m.calls[call].Some? && BecameTask(m, candidateID, m.calls[call].value)
  }

  predicate HasActiveTaskFrom(m: Manager, tab: TabID, candidateID: nat) {
    tab in m.tasks && m.tasks[tab].state == Active && FromCandidate(m.tasks[tab], candidateID)
  }

  predicate LeadsTo(fate: Fate, s: Manager, tab: TabID, pending: nat, candidateID: nat) {
    match fate
    case BecomesTask => pending == candidateID
    case Dismissed => HasActiveTaskFrom(s, tab, candidateID)
    case Replaced => false
    case Stays => false
  }

  /** A call whose row names a task that is a row ends with exactly that row's candidate. */
  lemma SettledCall(m: Manager, after: seq<Event>, settings: Settings, call: nat, candidateID: nat)
    requires Inv(m) && call in m.calls && Unrecorded(m, call) && Quiet(after, call)
    requires m.calls[call].Some? ==> m.calls[call].value in m.rows
    ensures EndsWith(RunFrom(m, after, settings), call, candidateID) <==>
            m.calls[call].Some? && FromCandidate(m.rows[m.calls[call].value], candidateID)
  {
    UnrecordedCallStays(m, after, settings, call);
    if m.calls[call].Some? {
      OriginStays(m, after, settings, m.calls[call].value);
    }
    hide Inv, Unrecorded, Quiet, RunFrom;
  }

  lemma MirroredTask(m: Manager, tab: TabID)
    requires Inv(m) && tab in m.tasks
    ensures m.tasks[tab].id in m.rows && m.rows[m.tasks[tab].id] == m.tasks[tab]
  {
    assert Mirrored(m, tab);
  }

  /** What the decisive event does to the call's row. */
  lemma DecisiveEvent(m: Manager, e: Event, settings: Settings, tab: TabID, call: nat, candidateID: nat)
    requires Inv(m) && tab in m.candidates && RecordedFor(m, tab, call) && FateOf(m, e, tab) != Stays
    requires call in m.calls && m.calls[call] == None
    ensures var r := Step(m, e, settings);
            && Inv(r) && call in r.calls && (r.calls[call].Some? ==> r.calls[call].value in r.rows)
            && (LeadsTo(FateOf(m, e, tab), m, tab, m.candidates[tab].id, candidateID) <==>
                  r.calls[call].Some? && FromCandidate(r.rows[r.calls[call].value], candidateID))
  {
    var r, fate := Step(m, e, settings), FateOf(m, e, tab);
    StepKeepsInvariant(m, e, settings);
    hide Step, RecordedFor, FateOf, Inv;
    if fate == BecomesTask {
      CandidateMeetsItsFate(m, e, settings, tab);
      CallFollowsItsCandidate(m, e, settings, tab, call);
      MirroredTask(r, tab);
      assert r.tasks[tab].candidateID == Some(m.candidates[tab].id);
    } else if fate == Dismissed && tab in m.tasks {
      CallFollowsItsCandidate(m, e, settings, tab, call);
      MirroredTask(m, tab);
      RowStays(m, e, settings, m.tasks[tab].id);
    } else {
      CallFollowsItsCandidate(m, e, settings, tab, call);
    }
  }

  lemma {:induction false} RecordedCallEnds(m: Manager, after: seq<Event>, settings: Settings, tab: TabID, call: nat, candidateID: nat)
    requires Inv(m) && tab in m.candidates && RecordedFor(m, tab, call) && Quiet(after, call)
    requires call in m.calls && m.calls[call] == None
    ensures var (fate, s) := FirstFate(m, after, settings, tab);
            EndsWith(RunFrom(m, after, settings), call, candidateID) <==>
            LeadsTo(fate, s, tab, m.candidates[tab].id, candidateID)
    decreases |after|
  {
    if after != [] {
      var e, rest := after[0], after[1..];
      assert Quiet([e], call) && Quiet(rest, call);
      StepKeepsInvariant(m, e, settings);
      RecordAfter(m, e, settings, tab, call);
      CallFollowsItsCandidate(m, e, settings, tab, call);
      hide Quiet, Step, Inv, RecordedFor, Unrecorded, EndsWith, LeadsTo, FateOf;
      if FateOf(m, e, tab) == Stays {
        RecordedCallEnds(Step(m, e, settings), rest, settings, tab, call, candidateID);
      } else {
        DecisiveEvent(m, e, settings, tab, call, candidateID);
        SettledCall(Step(m, e, settings), rest, settings, call, candidateID);
      }
    } else {
      assert RunFrom(m, after, settings) == m;
    }
  }

  lemma ReportEffect(m: Manager, tab: TabID, call: nat)
    requires Unrecorded(m, call)
    ensures var n := AddPendingCall(m, tab, call);
            && n.calls == m.calls && n.candidates.Keys == m.candidates.Keys
            && if tab in m.candidates then RecordedFor(n, tab, call) else Unrecorded(n, call)
  {
    var n := AddPendingCall(m, tab, call);
    forall t
      ensures Pending(n, t, call) <==> t == tab && tab in m.candidates
    {
      assert !Pending(m, t, call);
      if t == tab && tab in m.candidates {
        assert call in m.candidates[tab].pendingCalls + [call];
      }
    }
  }

  /** A report puts the call on the record of whichever candidate waits on the tab. */
  lemma ReportOf(events: seq<Event>, settings: Settings, tab: TabID, call: nat)
    requires Quiet(events, call)
    ensures var m, n := Run(events, settings), Run(events + [CallPending(tab, call)], settings);
            && n.calls == m.calls && n.candidates.Keys == m.candidates.Keys
            && if tab in m.candidates then RecordedFor(n, tab, call) else Unrecorded(n, call)
  {
    var m := Run(events, settings);
    RunSnoc(events, CallPending(tab, call), settings);
    hide Run, AddPendingCall, Pending;
    forall t | Pending(m, t, call)
      ensures false
    {
      PendingWasAnnounced(events, settings, t, call);
    }
    ReportEffect(m, tab, call);
  }

  /** Over every run: a call that is reported once, with no task, ends with the task
      of a candidate exactly when, at the report, that candidate waits on the tab and
      later becomes a task, or another waits there and is dismissed while the task of
      the first is the tab's active one. */
  lemma FiledCallEndsWithCandidateExactlyWhen(events: seq<Event>, after: seq<Event>, settings: Settings,
                                              tab: TabID, call: nat, candidateID: nat)
    requires Quiet(events, call) && Quiet(after, call)
    requires var m := Run(events, settings); call in m.calls && m.calls[call] == None
    ensures var m := Run(events + [CallPending(tab, call)], settings);
            var (fate, s) := FirstFate(m, after, settings, tab);
            EndsWith(Run(events + [CallPending(tab, call)] + after, settings), call, candidateID) <==>
            tab in m.candidates && LeadsTo(fate, s, tab, m.candidates[tab].id, candidateID)
  {
    var m, reported := Run(events, settings), events + [CallPending(tab, call)];
    ReportOf(events, settings, tab, call);
    var n := Run(reported, settings);
    RunAppend(reported, after, settings);
    RunKeepsInvariant(reported, settings);
    hide *;
    if tab in n.candidates {
      RecordedCallEnds(n, after, settings, tab, call, candidateID);
    } else {
      SettledCall(n, after, settings, call, candidateID);
    }
  }

  /** So while the candidate a call is filed under still waits at the report, the
      call ends with the candidate's task exactly when the candidate becomes one. */
  lemma PromptReportFollowsTheCandidate(events: seq<Event>, after: seq<Event>, settings: Settings, tab: TabID, call: nat)
    requires Quiet(events, call) && Quiet(after, call)
    requires var m := Run(events, settings); tab in m.candidates && call in m.calls && m.calls[call] == None
    ensures var m := Run(events + [CallPending(tab, call)], settings);
            && tab in m.candidates
            && (EndsWith(Run(events + [CallPending(tab, call)] + after, settings), call, m.candidates[tab].id) <==>
                  FirstFate(m, after, settings, tab).0 == BecomesTask)
  {
    var reported := events + [CallPending(tab, call)];
    assert reported[..|reported| - 1] == events && reported[|reported| - 1] == CallPending(tab, call);
    var m := Run(reported, settings);
    var c := m.candidates[tab].id;
    FiledCallEndsWithCandidateExactlyWhen(events, after, settings, tab, call, c);
    RunKeepsInvariant(reported, settings);
    hide Run;
    FateMetWhilePending(m, after, settings, tab);
  }

  /** Where the decisive event happens the candidate still waits, so it is no task. */
  lemma {:induction false} FateMetWhilePending(m: Manager, after: seq<Event>, settings: Settings, tab: TabID)
    requires Inv(m) && tab in m.candidates
    ensures !HasActiveTaskFrom(FirstFate(m, after, settings, tab).1, tab, m.candidates[tab].id)
    decreases |after|
  {
    NoTaskYet(m, tab);
    if after != [] && FateOf(m, after[0], tab) == Stays {
      CandidateMeetsItsFate(m, after[0], settings, tab);
      StepKeepsInvariant(m, after[0], settings);
      hide Step, Inv, FateOf, HasTaskFrom;
      FateMetWhilePending(Step(m, after[0], settings), after[1..], settings, tab);
    }
  }

  /** A call that is confirmed away from under its report stays without a task,
      though the task made from its candidate is there. */
  lemma LateReportLosesItsTask()
    ensures var filed := Run([CallArrives(FIRST_CALL, 1)], IDLE_SETTINGS);
            var m := Run([CallArrives(FIRST_CALL, 1), UserConfirms("tab", Some(0), 2), CallRecorded(7, ToCandidate(0)),
                          CallPending("tab", 7)], IDLE_SETTINGS);
            && "tab" in filed.candidates && filed.candidates["tab"].id == 0
            && HasActiveTaskFrom(m, "tab", 0) && 7 in m.calls && m.calls[7] == None
  {
    var e0, e1 := CallArrives(FIRST_CALL, 1), UserConfirms("tab", Some(0), 2);
    var s := IDLE_SETTINGS;
    FirstCallProposes();
    var m1 := Run([e0], s);
    var m2 := Run([e0, e1], s);
    assert [e0, e1][..1] == [e0];
    assert m2 == Confirm(m1, "tab", Some(0), 2);
    ConfirmEffect(m1, "tab", Some(0), 2);
    var three, four := [e0, e1, CallRecorded(7, ToCandidate(0))], [e0, e1, CallRecorded(7, ToCandidate(0)), CallPending("tab", 7)];
    assert three[..2] == [e0, e1] && four[..3] == three;
    var m3, m4 := Run(three, s), Run(four, s);
    assert m3 == m2.(calls := if 7 in m2.calls then m2.calls else m2.calls[7 := None]);
    assert m4 == AddPendingCall(m3, "tab", 7);
    hide Run, Confirm;
  }

  lemma FirstCallProposes()
    ensures var m := Run([CallArrives(FIRST_CALL, 1)], IDLE_SETTINGS);
            "tab" in m.candidates && m.candidates["tab"].id == 0 && m.calls == map[]
  {
    var e := CallArrives(FIRST_CALL, 1);
    assert [e][..0] == [] && Run([], IDLE_SETTINGS) == NEW_MANAGER;
    var m := Run([e], IDLE_SETTINGS);
    assert m == Step(NEW_MANAGER, e, IDLE_SETTINGS);
    CandidateIsProposedExactlyWhen([], IDLE_SETTINGS, FIRST_CALL, 1);
    assert Warranted(NewSession, None, false, FIRST_CALL, 1, IDLE_SETTINGS);
    ProcessCallEffect(NEW_MANAGER, FIRST_CALL, 1, IDLE_SETTINGS);
    hide Step, Run, ProcessCall;
  }
}
