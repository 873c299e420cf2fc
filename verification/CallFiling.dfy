/** A call from its arrival to its last place in the database: it is answered, recorded
    once its response is complete, and reported if it was filed under a candidate. */
module CallFiling {
  import opened CandidateFates
  import opened FiledCalls
  import opened TaskLifecycle
  import opened TaskTriggers
  import opened Wrappers

  /** Over every run, what the caller is told: the candidate that waits on the tab after
      the call, or else the task whose row is the tab's active one, or else nothing. */
  lemma AnswerIsExactly(events: seq<Event>, settings: Settings, h: Headers, now: Time)
    ensures var m := Run(events + [CallArrives(h, now)], settings);
            var filed := AssignmentOf(m, h.tab);
            && (forall c :: filed == ToCandidate(c) <==> h.tab in m.candidates && m.candidates[h.tab].id == c)
            && (forall id :: filed == ToTask(id) <==> h.tab !in m.candidates && ActiveRow(m, id, h.tab))
            && (filed == NoTask <==> h.tab !in m.candidates && forall id :: !ActiveRow(m, id, h.tab))
  {
    RunKeepsInvariant(events + [CallArrives(h, now)], settings);
    hide Run;
    AssignmentMeans(Run(events + [CallArrives(h, now)], settings), h.tab);
  }

  /** The call is neither recorded nor reported. */
  ghost predicate Unmentioned(events: seq<Event>, call: nat) {
    Quiet(events, call) && forall i | 0 <= i < |events| && events[i].CallRecorded? :: events[i].call != call
  }

  lemma CallsStayUnknown(m: Manager, e: Event, settings: Settings, call: nat)
    requires call !in m.calls && (e.CallRecorded? ==> e.call != call)
    ensures call !in Step(m, e, settings).calls
  {
    hide ProcessCall, Confirm, CreateTask, Dismiss, Expire, Earliest, Assess, Rename, HasTaskFrom;
    match e {
      case CallArrives(h, now) =>
        ProcessCallEffect(m, h, now, settings);
        DismissEffect(m, h.tab, h.dismissCandidate);
      case UserConfirms(t, candidateID, now) => ConfirmEffect(m, t, candidateID, now);
      case UserStarts(t, name, now) =>
        var (session, project) := if t in m.tasks then (m.tasks[t].session, m.tasks[t].project) else ("", "");
        CreateTaskEffect(m, Headers(t, session, project, name, true, None), now);
      case UserDismisses(t, candidateID) => DismissEffect(m, t, candidateID);
      case TimerFires(order, now) => ExpireCandidates(m, order, now);
      case UserAssesses(_, _) => CorrectionEffect(m, e, settings);
      case UserRenames(_, _) => CorrectionEffect(m, e, settings);
      case _ =>
    }
  }

  lemma {:induction false} UnmentionedIsUnknown(events: seq<Event>, settings: Settings, call: nat)
    requires Unmentioned(events, call)
    ensures call !in Run(events, settings).calls
  {
    if events != [] {
      var before, e := events[..|events| - 1], events[|events| - 1];
      assert Unmentioned(before, call) && e == events[|before|];
      hide Unmentioned, Step;
      UnmentionedIsUnknown(before, settings, call);
      CallsStayUnknown(Run(before, settings), e, settings, call);
    }
  }

  lemma NeverPending(events: seq<Event>, settings: Settings, call: nat)
    requires Quiet(events, call)
    ensures Unrecorded(Run(events, settings), call)
  {
    forall t | Pending(Run(events, settings), t, call)
      ensures false
    {
      PendingWasAnnounced(events, settings, t, call);
    }
  }

  lemma QuietConcat(a: seq<Event>, b: seq<Event>, call: nat)
    requires Quiet(a, call) && Quiet(b, call)
    ensures Quiet(a + b, call)
  {
  }

  /** What the proxy does with one call: its arrival, the row that takes its task from
      the answer, and the report if the answer was a candidate, with anything between. */
  ghost predicate Handles(arrival: Event, waiting: seq<Event>, record: Event, writing: seq<Event>, report: seq<Event>,
                          filed: Assignment, call: nat)
  {
    && arrival.CallArrives? && record == CallRecorded(call, filed)
    && Unmentioned(waiting, call) && Quiet(writing, call)
    && report == if filed.ToCandidate? then [CallPending(arrival.headers.tab, call)] else []
  }

  /** The row as it is when the report is due. */
  lemma RowUntilReport(before: seq<Event>, arrival: Event, waiting: seq<Event>, record: Event, writing: seq<Event>,
                       report: seq<Event>, settings: Settings, call: nat, filed: Assignment)
    requires Unmentioned(before, call) && Handles(arrival, waiting, record, writing, report, filed, call)
    ensures var recorded := before + [arrival] + waiting + [record] + writing;
            var m := Run(recorded, settings);
            Quiet(recorded, call) && call in m.calls && m.calls[call] == TaskColumn(filed)
  {
    var waited := before + [arrival] + waiting;
    assert Unmentioned(waited, call);
    var recorded := waited + [record];
    assert Quiet(recorded, call);
    UnmentionedIsUnknown(waited, settings, call);
    RunSnoc(waited, record, settings);
    assert Run(recorded, settings).calls == Run(waited, settings).calls[call := TaskColumn(filed)];
    hide Run, Step, Unmentioned;
    NeverPending(recorded, settings, call);
    QuietConcat(recorded, writing, call);
    RunAppend(recorded, writing, settings);
    UnrecordedCallStays(Run(recorded, settings), writing, settings, call);
  }

  /** Over every run, from the arrival on: a call answered with a task ends with it, and
      one answered with nothing ends without a task. One answered with a candidate ends
      with that candidate's task exactly when, at the report, that candidate waits on
      the tab and later becomes a task, or another waits there and is dismissed while
      the task of the first is the tab's active one. */
  lemma CallEndsExactly(before: seq<Event>, arrival: Event, waiting: seq<Event>, record: Event, writing: seq<Event>,
                        report: seq<Event>, after: seq<Event>, settings: Settings, call: nat)
    requires Unmentioned(before, call) && Quiet(after, call) && arrival.CallArrives?
    requires var filed := AssignmentOf(Run(before + [arrival], settings), arrival.headers.tab);
             Handles(arrival, waiting, record, writing, report, filed, call)
    ensures var tab, filed := arrival.headers.tab, AssignmentOf(Run(before + [arrival], settings), arrival.headers.tab);
            var reported := before + [arrival] + waiting + [record] + writing + report;
            var m, r := Run(reported, settings), Run(reported + after, settings);
            match filed
            case ToTask(id) => call in r.calls && r.calls[call] == Some(id)
            case NoTask => call in r.calls && r.calls[call] == None
            case ToCandidate(c) =>
              var (fate, s) := FirstFate(m, after, settings, tab);
              EndsWith(r, call, c) <==> tab in m.candidates && LeadsTo(fate, s, tab, m.candidates[tab].id, c)
  {
    var tab, filed := arrival.headers.tab, AssignmentOf(Run(before + [arrival], settings), arrival.headers.tab);
    var recorded := before + [arrival] + waiting + [record] + writing;
    RowUntilReport(before, arrival, waiting, record, writing, report, settings, call, filed);
    assert recorded + [] == recorded;
    hide Run, FirstFate, LeadsTo, EndsWith, AssignmentOf, Quiet;
    match filed {
      case ToCandidate(c) => FiledCallEndsWithCandidateExactlyWhen(recorded, after, settings, tab, call, c);
      case _ =>
        NeverPending(recorded, settings, call);
        RunAppend(recorded, after, settings);
        UnrecordedCallStays(Run(recorded, settings), after, settings, call);
    }
  }
}
