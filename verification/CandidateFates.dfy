/** What becomes of a candidate, of the calls recorded for it, and of the timer. */
module CandidateFates {
  import opened Wrappers
  import opened TaskLifecycle

  datatype Fate = Stays | BecomesTask | Dismissed | Replaced

  /** Only what the event is tells what becomes of the tab's candidate: a timer that
      reaches it once it is due makes it a task, a manual start sweeps it away. */
  function FateOf(m: Manager, e: Event, tab: TabID): Fate
    requires tab in m.candidates
  {
    match e
    case CallArrives(h, _) =>
      if h.tab != tab then Stays
      else if h.dismissCandidate == Some(m.candidates[tab].id) then Dismissed
      else if h.newTask then Replaced
      else Stays
    case UserConfirms(t, candidateID, _) => if t == tab && Names(m, tab, candidateID) then BecomesTask else Stays
    case UserStarts(t, _, _) => if t == tab then Replaced else Stays
    case UserDismisses(t, candidateID) => if t == tab && Names(m, tab, candidateID) then Dismissed else Stays
    case TimerFires(order, now) =>
      if !m.closed && tab in order && m.candidates[tab].deadline <= now then BecomesTask else Stays
    case _ => Stays
  }

  predicate Pending(m: Manager, tab: TabID, call: nat) {
    tab in m.candidates && call in m.candidates[tab].pendingCalls
  }

  /** The call is recorded for this tab's candidate and for no other. */
  ghost predicate RecordedFor(m: Manager, tab: TabID, call: nat) {
    forall t :: Pending(m, t, call) <==> t == tab
  }

  lemma {:induction false} RepointEffect(calls: map<nat, Option<nat>>, ids: seq<nat>, task: nat)
    ensures var r := Repoint(calls, ids, task);
            && r.Keys == calls.Keys
            && forall k | k in calls :: r[k] == if k in ids then Some(task) else calls[k]
    decreases |ids|
  {
    if ids != [] {
      RepointEffect(if ids[0] in calls then calls[ids[0] := Some(task)] else calls, ids[1..], task);
    }
  }

  /** One candidate becomes a task; the other tabs do not notice. */
  lemma PromoteEffect(m: Manager, tab: TabID, start: StartMethod, now: Time)
    requires tab in m.candidates
    ensures var r, c := Promote(m, tab, start, now), m.candidates[tab];
            && r.candidates == m.candidates - {tab} && r.closed == m.closed
            && r.tasks == m.tasks[tab := Promoted(c.(tab := tab), m.drawn, start, now)]
            && r.calls.Keys == m.calls.Keys
            && forall k | k in m.calls :: r.calls[k] == if k in c.pendingCalls then Some(m.drawn) else m.calls[k]
  {
    RepointEffect(m.calls, m.candidates[tab].pendingCalls, m.drawn);
    hide Repoint, Update;
  }

  predicate Due(m: Manager, order: seq<TabID>, now: Time, tab: TabID) {
    tab in order && Expired(m, tab, now)
  }

  /** Whatever the order of the pass, the candidates that are due are gone and the
      others untouched. */
  lemma {:induction false} ExpireCandidates(m: Manager, order: seq<TabID>, now: Time)
    ensures var r := Expire(m, order, now);
            && r.closed == m.closed && r.calls.Keys == m.calls.Keys
            && (forall tab :: tab in r.candidates <==> tab in m.candidates && !Due(m, order, now, tab))
            && (forall tab | tab in r.candidates :: r.candidates[tab] == m.candidates[tab])
    decreases |order|
  {
    if order != [] {
      var tab, rest := order[0], order[1..];
      var next := if Expired(m, tab, now) then Promote(m, tab, AutoConfirmed, now) else m;
      if Expired(m, tab, now) {
        PromoteEffect(m, tab, AutoConfirmed, now);
      }
      hide Promote;
      ExpireCandidates(next, rest, now);
      assert forall t :: Due(m, order, now, t) <==> (t == tab && Expired(m, tab, now)) || Due(next, rest, now, t);
    }
  }

  predicate HasTaskFrom(m: Manager, tab: TabID, c: Candidate) {
    && tab in m.tasks && m.tasks[tab].state == Active && m.tasks[tab].candidateID == Some(c.id)
    && m.tasks[tab].session == c.session && m.tasks[tab].project == c.project && m.tasks[tab].name == c.name
  }

  predicate SameTask(a: Manager, b: Manager, tab: TabID) {
    (tab in a.tasks <==> tab in b.tasks) && (tab in a.tasks ==> a.tasks[tab] == b.tasks[tab])
  }

  /** Each candidate that is due becomes its tab's task. */
  lemma {:induction false} ExpireTasks(m: Manager, order: seq<TabID>, now: Time, tab: TabID)
    ensures var r := Expire(m, order, now);
            if Due(m, order, now, tab) then HasTaskFrom(r, tab, m.candidates[tab]) else SameTask(m, r, tab)
    decreases |order|
  {
    if order != [] {
      var first, rest := order[0], order[1..];
      var next := if Expired(m, first, now) then Promote(m, first, AutoConfirmed, now) else m;
      if Expired(m, first, now) {
        PromoteEffect(m, first, AutoConfirmed, now);
      }
      hide Promote;
      ExpireTasks(next, rest, now, tab);
      assert first != tab ==> (Due(m, order, now, tab) <==> Due(next, rest, now, tab));
    }
  }

  ghost predicate Unrecorded(m: Manager, call: nat) {
    forall t :: !Pending(m, t, call)
  }

  /** Calls recorded for no candidate stay where they are. */
  lemma {:induction false} ExpireOtherCalls(m: Manager, order: seq<TabID>, now: Time, call: nat)
    requires call in m.calls && Unrecorded(m, call)
    ensures var r := Expire(m, order, now); call in r.calls && r.calls[call] == m.calls[call]
    decreases |order|
  {
    if order != [] {
      var first := order[0];
      var next := if Expired(m, first, now) then Promote(m, first, AutoConfirmed, now) else m;
      if Expired(m, first, now) {
        assert !Pending(m, first, call);
        PromoteEffect(m, first, AutoConfirmed, now);
        assert forall t :: Pending(next, t, call) ==> Pending(m, t, call);
      }
      hide Promote, Pending;
      ExpireOtherCalls(next, order[1..], now, call);
    }
  }

  lemma PromoteRecorded(m: Manager, first: TabID, now: Time, tab: TabID, call: nat)
    requires first in m.candidates && RecordedFor(m, tab, call) && call in m.calls
    ensures var next := Promote(m, first, AutoConfirmed, now);
            && call in next.calls
            && (if first == tab
                then Unrecorded(next, call) && next.calls[call] == Some(m.drawn) && next.tasks[tab].id == m.drawn
                else RecordedFor(next, tab, call) && next.calls[call] == m.calls[call])
  {
    PromoteEffect(m, first, AutoConfirmed, now);
    var next := Promote(m, first, AutoConfirmed, now);
    hide Promote;
    assert Pending(m, first, call) <==> first == tab;
    assert forall t :: Pending(next, t, call) <==> Pending(m, t, call) && t != first;
  }

  /** The calls recorded for a candidate that is due go to the task it becomes. */
  lemma {:induction false} ExpireCalls(m: Manager, order: seq<TabID>, now: Time, tab: TabID, call: nat)
    requires call in m.calls && RecordedFor(m, tab, call)
    ensures var r := Expire(m, order, now);
            && call in r.calls
            && if Due(m, order, now, tab) then tab in r.tasks && r.calls[call] == Some(r.tasks[tab].id)
               else r.calls[call] == m.calls[call]
    decreases |order|
  {
    if order != [] {
      var first, rest := order[0], order[1..];
      var next := if Expired(m, first, now) then Promote(m, first, AutoConfirmed, now) else m;
      if Expired(m, first, now) {
        PromoteEffect(m, first, AutoConfirmed, now);
        PromoteRecorded(m, first, now, tab, call);
      }
      assert Due(m, order, now, tab) <==> (first == tab && Expired(m, tab, now)) || Due(next, rest, now, tab) by {
        hide Promote;
      }
      hide Promote, Pending;
      if Expired(m, first, now) && first == tab {
        ExpireOtherCalls(next, rest, now, call);
        ExpireTasks(next, rest, now, tab);
      } else {
        ExpireCalls(next, rest, now, tab, call);
      }
    }
  }

  // ----- What each operation does to tasks, candidates and calls -----

  lemma DismissEffect(m: Manager, tab: TabID, candidateID: Option<nat>)
    ensures var r := Dismiss(m, tab, candidateID);
            && r.tasks == m.tasks && r.drawn == m.drawn && r.calls.Keys == m.calls.Keys
            && r.candidates == (if Names(m, tab, candidateID) then m.candidates - {tab} else m.candidates)
            && forall k | k in m.calls ::
                 r.calls[k] == if Names(m, tab, candidateID) && Pending(m, tab, k) && tab in m.tasks && m.tasks[tab].state == Active
                               then Some(m.tasks[tab].id) else m.calls[k]
  {
    if Names(m, tab, candidateID) && tab in m.tasks {
      RepointEffect(m.calls, m.candidates[tab].pendingCalls, m.tasks[tab].id);
    }
    hide Repoint, Earliest;
  }

  lemma CreateTaskEffect(m: Manager, h: Headers, now: Time)
    ensures var r := CreateTask(m, h, now);
            && r.candidates == m.candidates - {h.tab} && r.calls == m.calls
            && h.tab in r.tasks && r.tasks[h.tab].candidateID == None && r.tasks == m.tasks[h.tab := r.tasks[h.tab]]
  {
    hide Earliest, Update;
  }

  lemma CreateCandidateEffect(m: Manager, h: Headers, trigger: Trigger, now: Time, settings: Settings)
    ensures var r := CreateCandidate(m, h, trigger, now, settings);
            && r.tasks == m.tasks && r.calls == m.calls
            && if h.tab in m.candidates then r.candidates == m.candidates
               else h.tab in r.candidates && r.candidates[h.tab].id == m.drawn
                    && r.candidates == m.candidates[h.tab := r.candidates[h.tab]]
  {
    hide Earliest;
  }

  lemma ConfirmEffect(m: Manager, tab: TabID, candidateID: Option<nat>, now: Time)
    ensures var r := Confirm(m, tab, candidateID, now);
            if !Names(m, tab, candidateID) then r == m
            else
              && r.candidates == m.candidates - {tab} && r.calls.Keys == m.calls.Keys
              && HasTaskFrom(r, tab, m.candidates[tab]) && r.tasks == m.tasks[tab := r.tasks[tab]]
              && forall k | k in m.calls ::
                   r.calls[k] == if Pending(m, tab, k) then Some(r.tasks[tab].id) else m.calls[k]
  {
    if Names(m, tab, candidateID) {
      PromoteEffect(m, tab, UserConfirmed, now);
    }
    hide Earliest, Promote;
  }

  lemma ProcessCallEffect(m: Manager, h: Headers, now: Time, settings: Settings)
    ensures var r, named := ProcessCall(m, h, now, settings), h.dismissCandidate.Some? && Names(m, h.tab, h.dismissCandidate);
            && r.calls == (if h.dismissCandidate.Some? then Dismiss(m, h.tab, h.dismissCandidate) else m).calls
            && r.candidates - {h.tab} == m.candidates - {h.tab}
            && (h.newTask ==> h.tab !in r.candidates)
            && (!h.newTask && !named && h.tab in m.candidates ==> r.candidates == m.candidates)
            && (!h.newTask && named && h.tab in r.candidates ==> r.candidates[h.tab].id == m.drawn)
            && (if h.newTask
                then h.tab in r.tasks && r.tasks[h.tab].candidateID == None && r.tasks == m.tasks[h.tab := r.tasks[h.tab]]
                else r.tasks == m.tasks)
  {
    var dismissed := if h.dismissCandidate.Some? then Dismiss(m, h.tab, h.dismissCandidate) else m;
    DismissEffect(m, h.tab, h.dismissCandidate);
    CreateTaskEffect(dismissed, h, now);
    var trigger := DetectTrigger(dismissed, h, now, settings);
    if trigger.Some? {
      CreateCandidateEffect(dismissed, h, trigger.value, now, settings);
    }
    hide Dismiss, DetectTrigger, CreateTask, CreateCandidate;
  }

  lemma RewriteKeepsCalls(m: Manager, tab: TabID, task: Task)
    requires tab in m.tasks && task.candidateID == m.tasks[tab].candidateID
    ensures var r := Rewrite(m, tab, task);
            && r.candidates == m.candidates && r.calls == m.calls && r.tasks.Keys == m.tasks.Keys
            && forall t | t in m.tasks :: r.tasks[t].candidateID == m.tasks[t].candidateID
  {
    hide Update;
  }

  lemma CorrectionEffect(m: Manager, e: Event, settings: Settings)
    requires e.UserAssesses? || e.UserRenames?
    ensures var r := Step(m, e, settings);
            && r.candidates == m.candidates && r.calls == m.calls && r.tasks.Keys == m.tasks.Keys
            && forall t | t in m.tasks :: r.tasks[t].candidateID == m.tasks[t].candidateID
  {
    hide Rewrite;
    var id := e.taskID;
    var holder := Holder(m, id);
    if holder.Some? {
      var task := m.tasks[holder.value];
      match e {
        case UserAssesses(_, now) => RewriteKeepsCalls(m, holder.value, task.(state := Completed, completedAt := Some(now)));
        case UserRenames(_, name) => RewriteKeepsCalls(m, holder.value, task.(name := name));
      }
    }
  }

  // ----- The events -----

  /** The tab's current task is not made from the candidate still pending there. */
  lemma NoTaskYet(m: Manager, tab: TabID)
    requires Inv(m) && tab in m.candidates
    ensures tab in m.tasks ==> m.tasks[tab].candidateID != Some(m.candidates[tab].id)
    ensures m.candidates[tab].id < m.drawn
  {
    if tab in m.tasks {
      assert Mirrored(m, tab);
      assert !FromCandidate(m.rows[m.tasks[tab].id], m.candidates[tab].id);
    }
  }

  ghost predicate MeetsFate(m: Manager, r: Manager, fate: Fate, tab: TabID)
    requires tab in m.candidates
  {
    && (fate == Stays <==> tab in r.candidates && r.candidates[tab].id == m.candidates[tab].id)
    && (fate == BecomesTask <==> HasTaskFrom(r, tab, m.candidates[tab]))
  }

  lemma CallMeetsFate(m: Manager, h: Headers, now: Time, settings: Settings, tab: TabID)
    requires Inv(m) && tab in m.candidates
    ensures MeetsFate(m, ProcessCall(m, h, now, settings), FateOf(m, CallArrives(h, now), tab), tab)
  {
    NoTaskYet(m, tab);
    ProcessCallEffect(m, h, now, settings);
    hide Inv, ProcessCall, Dismiss;
    var r := ProcessCall(m, h, now, settings);
    if h.tab != tab {
      assert tab in m.candidates - {h.tab} && tab in r.candidates - {h.tab};
    }
  }

  lemma ConfirmMeetsFate(m: Manager, t: TabID, candidateID: Option<nat>, now: Time, tab: TabID)
    requires Inv(m) && tab in m.candidates
    ensures MeetsFate(m, Confirm(m, t, candidateID, now), FateOf(m, UserConfirms(t, candidateID, now), tab), tab)
  {
    NoTaskYet(m, tab);
    ConfirmEffect(m, t, candidateID, now);
    hide Inv, Confirm;
  }

  lemma StartMeetsFate(m: Manager, h: Headers, name: string, now: Time, tab: TabID)
    requires Inv(m) && tab in m.candidates
    ensures MeetsFate(m, CreateTask(m, h, now), FateOf(m, UserStarts(h.tab, name, now), tab), tab)
  {
    NoTaskYet(m, tab);
    CreateTaskEffect(m, h, now);
    hide Inv, CreateTask;
  }

  lemma DismissMeetsFate(m: Manager, t: TabID, candidateID: Option<nat>, tab: TabID)
    requires Inv(m) && tab in m.candidates
    ensures MeetsFate(m, Dismiss(m, t, candidateID), FateOf(m, UserDismisses(t, candidateID), tab), tab)
  {
    NoTaskYet(m, tab);
    DismissEffect(m, t, candidateID);
    hide Inv, Dismiss;
  }

  lemma FiringMeetsFate(m: Manager, order: seq<TabID>, now: Time, tab: TabID)
    requires Inv(m) && tab in m.candidates
    ensures MeetsFate(m, CheckGracePeriods(m, order, now), FateOf(m, TimerFires(order, now), tab), tab)
  {
    NoTaskYet(m, tab);
    ExpireCandidates(m, order, now);
    ExpireTasks(m, order, now, tab);
    hide Inv, Expire, Earliest;
  }

  lemma UntouchedMeetsFate(m: Manager, r: Manager, tab: TabID)
    requires Inv(m) && tab in m.candidates && tab in r.candidates && r.candidates[tab].id == m.candidates[tab].id
    requires r.tasks.Keys == m.tasks.Keys && forall t | t in m.tasks :: r.tasks[t].candidateID == m.tasks[t].candidateID
    ensures MeetsFate(m, r, Stays, tab)
  {
    NoTaskYet(m, tab);
    hide Inv;
  }

  lemma CorrectionMeetsFate(m: Manager, e: Event, settings: Settings, tab: TabID)
    requires Inv(m) && tab in m.candidates && (e.UserAssesses? || e.UserRenames?)
    ensures MeetsFate(m, Step(m, e, settings), Stays, tab)
  {
    CorrectionEffect(m, e, settings);
    hide Step, Inv, MeetsFate;
    UntouchedMeetsFate(m, Step(m, e, settings), tab);
  }

  lemma RecordMeetsFate(m: Manager, e: Event, settings: Settings, tab: TabID)
    requires Inv(m) && tab in m.candidates && (e.CallPending? || e.CallRecorded? || e.Close?)
    ensures MeetsFate(m, Step(m, e, settings), Stays, tab)
  {
    hide Inv, MeetsFate, ProcessCall, Confirm, StartTask, Dismiss, CheckGracePeriods, Assess, Rename;
    UntouchedMeetsFate(m, Step(m, e, settings), tab);
  }

  /** Every candidate meets the fate its event has for it: it waits on under the
      same identifier, or it leaves, and it is a task exactly when it should be. */
  lemma CandidateMeetsItsFate(m: Manager, e: Event, settings: Settings, tab: TabID)
    requires Inv(m) && tab in m.candidates
    ensures MeetsFate(m, Step(m, e, settings), FateOf(m, e, tab), tab)
  {
    hide Inv, MeetsFate, ProcessCall, Confirm, CreateTask, Dismiss, CheckGracePeriods, Assess, Rename;
    match e {
      case CallArrives(h, now) => CallMeetsFate(m, h, now, settings, tab);
      case UserConfirms(t, candidateID, now) => ConfirmMeetsFate(m, t, candidateID, now, tab);
      case UserStarts(t, name, now) =>
        var (session, project) := if t in m.tasks then (m.tasks[t].session, m.tasks[t].project) else ("", "");
        StartMeetsFate(m, Headers(t, session, project, name, true, None), name, now, tab);
      case UserDismisses(t, candidateID) => DismissMeetsFate(m, t, candidateID, tab);
      case TimerFires(order, now) => FiringMeetsFate(m, order, now, tab);
      case UserAssesses(_, _) => CorrectionMeetsFate(m, e, settings, tab);
      case UserRenames(_, _) => CorrectionMeetsFate(m, e, settings, tab);
      case CallPending(_, _) => RecordMeetsFate(m, e, settings, tab);
      case CallRecorded(_, _) => RecordMeetsFate(m, e, settings, tab);
      case Close => RecordMeetsFate(m, e, settings, tab);
    }
  }

  /** Where a recorded call ends up. */
  ghost function Destination(m: Manager, r: Manager, fate: Fate, tab: TabID, call: nat): Option<nat>
    requires tab in m.candidates && call in m.calls && (fate == BecomesTask ==> tab in r.tasks)
  {
    match fate
    case BecomesTask => Some(r.tasks[tab].id)
    case Dismissed => if tab in m.tasks && m.tasks[tab].state == Active then Some(m.tasks[tab].id) else m.calls[call]
    case Replaced => m.calls[call]
    case Stays => m.calls[call]
  }

  ghost predicate CallFollows(m: Manager, r: Manager, fate: Fate, tab: TabID, call: nat)
    requires tab in m.candidates && call in m.calls
  {
    && call in r.calls && (fate == BecomesTask ==> tab in r.tasks)
    && r.calls[call] == Destination(m, r, fate, tab, call)
  }

  lemma CallFollowsFiring(m: Manager, order: seq<TabID>, now: Time, tab: TabID, call: nat)
    requires call in m.calls && tab in m.candidates && RecordedFor(m, tab, call)
    ensures CallFollows(m, CheckGracePeriods(m, order, now), FateOf(m, TimerFires(order, now), tab), tab, call)
  {
    if !m.closed {
      ExpireCalls(m, order, now, tab, call);
    }
    hide Expire, Earliest, RecordedFor, Pending;
  }

  lemma CallFollowsArrival(m: Manager, h: Headers, now: Time, settings: Settings, tab: TabID, call: nat)
    requires call in m.calls && tab in m.candidates && RecordedFor(m, tab, call)
    ensures CallFollows(m, ProcessCall(m, h, now, settings), FateOf(m, CallArrives(h, now), tab), tab, call)
  {
    ProcessCallEffect(m, h, now, settings);
    DismissEffect(m, h.tab, h.dismissCandidate);
    assert Pending(m, h.tab, call) <==> h.tab == tab;
    hide ProcessCall, Dismiss, Pending, RecordedFor;
  }

  lemma CallFollowsConfirmation(m: Manager, t: TabID, candidateID: Option<nat>, now: Time, tab: TabID, call: nat)
    requires call in m.calls && tab in m.candidates && RecordedFor(m, tab, call)
    ensures CallFollows(m, Confirm(m, t, candidateID, now), FateOf(m, UserConfirms(t, candidateID, now), tab), tab, call)
  {
    ConfirmEffect(m, t, candidateID, now);
    assert Pending(m, t, call) <==> t == tab;
    hide Confirm, Pending, RecordedFor;
  }

  lemma CallFollowsDismissal(m: Manager, t: TabID, candidateID: Option<nat>, tab: TabID, call: nat)
    requires call in m.calls && tab in m.candidates && RecordedFor(m, tab, call)
    ensures CallFollows(m, Dismiss(m, t, candidateID), FateOf(m, UserDismisses(t, candidateID), tab), tab, call)
  {
    DismissEffect(m, t, candidateID);
    assert Pending(m, t, call) <==> t == tab;
    hide Dismiss, Pending, RecordedFor;
  }

  lemma CallStays(m: Manager, r: Manager, fate: Fate, tab: TabID, call: nat)
    requires tab in m.candidates && call in m.calls && call in r.calls && r.calls[call] == m.calls[call]
    requires fate == Stays || fate == Replaced
    ensures CallFollows(m, r, fate, tab, call)
  {
  }

  /** The calls recorded for a candidate follow its fate: all to the new task when
      it becomes one, to the previous active task when it is dismissed, and nowhere
      when a manual start replaces it. */
  lemma CallFollowsItsCandidate(m: Manager, e: Event, settings: Settings, tab: TabID, call: nat)
    requires call in m.calls && tab in m.candidates && RecordedFor(m, tab, call)
    ensures CallFollows(m, Step(m, e, settings), FateOf(m, e, tab), tab, call)
  {
    hide RecordedFor, CallFollows, ProcessCall, Confirm, CreateTask, Dismiss, CheckGracePeriods, Assess, Rename;
    match e {
      case CallArrives(h, now) => CallFollowsArrival(m, h, now, settings, tab, call);
      case UserConfirms(t, candidateID, now) => CallFollowsConfirmation(m, t, candidateID, now, tab, call);
      case UserStarts(t, name, now) =>
        var (session, project) := if t in m.tasks then (m.tasks[t].session, m.tasks[t].project) else ("", "");
        CreateTaskEffect(m, Headers(t, session, project, name, true, None), now);
        CallStays(m, Step(m, e, settings), FateOf(m, e, tab), tab, call);
      case UserDismisses(t, candidateID) => CallFollowsDismissal(m, t, candidateID, tab, call);
      case TimerFires(order, now) => CallFollowsFiring(m, order, now, tab, call);
      case UserAssesses(_, _) =>
        CorrectionEffect(m, e, settings);
        CallStays(m, Step(m, e, settings), Stays, tab, call);
      case UserRenames(_, _) =>
        CorrectionEffect(m, e, settings);
        CallStays(m, Step(m, e, settings), Stays, tab, call);
      case CallPending(_, _) => CallStays(m, Step(m, e, settings), Stays, tab, call);
      case CallRecorded(_, _) => CallStays(m, Step(m, e, settings), Stays, tab, call);
      case Close => CallStays(m, Step(m, e, settings), Stays, tab, call);
    }
  }

  /** And no other call is touched. */
  lemma OtherCallsStay(m: Manager, e: Event, settings: Settings, call: nat)
    requires call in m.calls && Unrecorded(m, call)
    ensures var r := Step(m, e, settings); call in r.calls && r.calls[call] == m.calls[call]
  {
    hide Pending, ProcessCall, Confirm, CreateTask, Dismiss, Expire, Earliest, Assess, Rename, HasTaskFrom;
    match e {
      case CallArrives(h, now) =>
        ProcessCallEffect(m, h, now, settings);
        DismissEffect(m, h.tab, h.dismissCandidate);
        assert !Pending(m, h.tab, call);
      case UserConfirms(t, candidateID, now) =>
        ConfirmEffect(m, t, candidateID, now);
        assert !Pending(m, t, call);
      case UserStarts(t, name, now) =>
        var (session, project) := if t in m.tasks then (m.tasks[t].session, m.tasks[t].project) else ("", "");
        CreateTaskEffect(m, Headers(t, session, project, name, true, None), now);
      case UserDismisses(t, candidateID) =>
        DismissEffect(m, t, candidateID);
        assert !Pending(m, t, call);
      case TimerFires(order, now) =>
        if !m.closed {
          ExpireOtherCalls(m, order, now, call);
        }
      case UserAssesses(_, _) => CorrectionEffect(m, e, settings);
      case UserRenames(_, _) => CorrectionEffect(m, e, settings);
      case _ =>
    }
  }

  // ----- A call is recorded for one candidate -----

  lemma ArrivalRecordsNothing(m: Manager, h: Headers, now: Time, settings: Settings, tab: TabID)
    requires tab in ProcessCall(m, h, now, settings).candidates
    ensures var c := ProcessCall(m, h, now, settings).candidates[tab];
            c.pendingCalls == [] || (tab in m.candidates && c == m.candidates[tab])
  {
    var dismissed := if h.dismissCandidate.Some? then Dismiss(m, h.tab, h.dismissCandidate) else m;
    DismissEffect(m, h.tab, h.dismissCandidate);
    CreateTaskEffect(dismissed, h, now);
    hide Dismiss, DetectTrigger, CreateTask, Earliest;
  }

  lemma PendingGrows(m: Manager, e: Event, settings: Settings, tab: TabID, call: nat)
    requires Pending(Step(m, e, settings), tab, call)
    ensures || (e.CallPending? && e.tab == tab && e.call == call)
            || (Pending(m, tab, call) && Step(m, e, settings).candidates[tab].id == m.candidates[tab].id)
  {
    hide ProcessCall, Confirm, CreateTask, Dismiss, Expire, Earliest, Assess, Rename, HasTaskFrom;
    match e {
      case CallArrives(h, now) => ArrivalRecordsNothing(m, h, now, settings, tab);
      case UserConfirms(t, candidateID, now) => ConfirmEffect(m, t, candidateID, now);
      case UserStarts(t, name, now) =>
        var (session, project) := if t in m.tasks then (m.tasks[t].session, m.tasks[t].project) else ("", "");
        CreateTaskEffect(m, Headers(t, session, project, name, true, None), now);
      case UserDismisses(t, candidateID) => DismissEffect(m, t, candidateID);
      case TimerFires(order, now) => ExpireCandidates(m, order, now);
      case UserAssesses(_, _) => CorrectionEffect(m, e, settings);
      case UserRenames(_, _) => CorrectionEffect(m, e, settings);
      case _ =>
    }
  }

  ghost predicate Announced(events: seq<Event>, call: nat) {
    exists i | 0 <= i < |events| :: events[i].CallPending? && events[i].call == call
  }

  /** As in the proxy, where a call is reported right after its row is inserted. */
  ghost predicate ReportedOnce(events: seq<Event>) {
    forall i, j | 0 <= i < j < |events| && events[i].CallPending? && events[j].CallPending? :: events[i].call != events[j].call
  }

  lemma {:induction false} PendingWasAnnounced(events: seq<Event>, settings: Settings, tab: TabID, call: nat)
    requires Pending(Run(events, settings), tab, call)
    ensures Announced(events, call)
  {
    if events != [] {
      var before, last := events[..|events| - 1], events[|events| - 1];
      PendingGrows(Run(before, settings), last, settings, tab, call);
      hide Step, Pending;
      if Pending(Run(before, settings), tab, call) {
        PendingWasAnnounced(before, settings, tab, call);
        var i :| 0 <= i < |before| && before[i].CallPending? && before[i].call == call;
        assert events[i] == before[i];
      } else {
        assert events[|events| - 1].CallPending?;
      }
    }
  }

  /** So a pending call has one candidate to follow. */
  lemma {:induction false} CallHasOneCandidate(events: seq<Event>, settings: Settings, tab: TabID, call: nat)
    requires ReportedOnce(events) && Pending(Run(events, settings), tab, call)
    ensures RecordedFor(Run(events, settings), tab, call)
  {
    var m := Run(events, settings);
    forall t | Pending(m, t, call)
      ensures t == tab
    {
      OneCandidatePerCall(events, settings, tab, t, call);
    }
  }

  lemma NotAnnouncedBefore(events: seq<Event>)
    requires ReportedOnce(events) && events != []
    ensures var last := events[|events| - 1]; last.CallPending? ==> !Announced(events[..|events| - 1], last.call)
  {
  }

  lemma {:induction false} OneCandidatePerCall(events: seq<Event>, settings: Settings, t: TabID, u: TabID, call: nat)
    requires ReportedOnce(events) && Pending(Run(events, settings), t, call) && Pending(Run(events, settings), u, call)
    ensures t == u
  {
    if events != [] {
      var before, last := events[..|events| - 1], events[|events| - 1];
      var m := Run(before, settings);
      PendingGrows(m, last, settings, t, call);
      PendingGrows(m, last, settings, u, call);
      hide Step, Pending;
      NotAnnouncedBefore(events);
      forall tab | Pending(m, tab, call)
        ensures Announced(before, call)
      {
        PendingWasAnnounced(before, settings, tab, call);
      }
      if Pending(m, t, call) && Pending(m, u, call) {
        OneCandidatePerCall(before, settings, t, u, call);
      }
    }
  }

  // ----- The timer -----

  /** In every reachable state the timer is armed exactly when the manager is open
      and some candidate waits, and then for the earliest deadline. */
  lemma TimerIsArmedForEarliest(events: seq<Event>, settings: Settings)
    ensures var m := Run(events, settings);
            && (m.armed.Some? <==> !m.closed && m.candidates != map[])
            && (m.armed.Some? ==> IsEarliest(m.armed.value, m.candidates))
  {
    RunKeepsInvariant(events, settings);
  }

  /** A firing that goes through all tabs makes a task of every candidate that is
      due, in whatever order, leaves the rest as they are, and re-arms strictly later. */
  lemma FiringStrandsNoCandidate(m: Manager, order: seq<TabID>, now: Time, settings: Settings)
    requires Inv(m) && !m.closed && forall tab | tab in m.candidates :: tab in order
    ensures var r := Step(m, TimerFires(order, now), settings);
            && r.candidates == (map tab | tab in m.candidates && m.candidates[tab].deadline > now :: m.candidates[tab])
            && (forall tab | Expired(m, tab, now) :: HasTaskFrom(r, tab, m.candidates[tab]))
            && (r.armed.Some? <==> r.candidates != map[])
            && (r.armed.Some? ==> r.armed.value > now)
  {
    ExpireCandidates(m, order, now);
    var r := Schedule(Expire(m, order, now));
    hide Expire, Inv;
    forall tab | Expired(m, tab, now)
      ensures HasTaskFrom(r, tab, m.candidates[tab])
    {
      ExpireTasks(m, order, now, tab);
    }
    if r.armed.Some? {
      assert IsEarliest(r.armed.value, r.candidates);
    }
  }
}
