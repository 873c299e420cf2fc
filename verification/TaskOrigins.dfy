/** Which task, candidate and rows an event leaves, field by field and from the event
    alone: where a task comes from, who confirmed it, and what becomes of the old one. */
module TaskOrigins {
  import opened CandidateFates
  import opened TaskLifecycle
  import opened TaskTriggers
  import opened Wrappers

  /** All that a new task is told. */
  datatype Origin = Origin(candidateID: Option<nat>, session: string, project: string, name: string,
                           start: StartMethod, trigger: Trigger, at: Time)

  function FromWaiting(c: Candidate, start: StartMethod, now: Time): Origin {
    Origin(Some(c.id), c.session, c.project, c.name, start, c.trigger, now)
  }

  /** The task this event starts for the tab: from the call's headers or the user's
      request, or from the candidate that waits there, if the user confirms it or a
      firing reaches it once it is due. */
  function Starts(m: Manager, e: Event, tab: TabID): Option<Origin> {
    match e
    case CallArrives(h, now) =>
      if h.tab == tab && h.newTask then Some(Origin(None, h.session, h.project, h.name, Manual, ManualStart, now)) else None
    case UserStarts(t, name, now) =>
      if t != tab then None
      else if tab in m.tasks
      then Some(Origin(None, m.tasks[tab].session, m.tasks[tab].project, name, Manual, ManualStart, now))
      else Some(Origin(None, "", "", name, Manual, ManualStart, now))
    case UserConfirms(t, candidateID, now) =>
      if t == tab && tab in m.candidates && (candidateID == None || candidateID == Some(m.candidates[tab].id))
      then Some(FromWaiting(m.candidates[tab], UserConfirmed, now)) else None
    case TimerFires(order, now) =>
      if !m.closed && tab in order && tab in m.candidates && m.candidates[tab].deadline <= now
      then Some(FromWaiting(m.candidates[tab], AutoConfirmed, now)) else None
    case _ => None
  }

  /** An active task with that origin, under an identifier not drawn before. */
  predicate NewTask(task: Task, tab: TabID, o: Origin, drawn: nat) {
    task.id >= drawn
    && task == Task(task.id, o.candidateID, tab, o.session, o.project, o.name, Active, o.start, o.trigger, o.at, None)
  }

  /** What the user corrects. */
  function Corrected(e: Event, task: Task): Task {
    match e
    case UserAssesses(_, now) => task.(state := Completed, completedAt := Some(now))
    case UserRenames(_, name) => task.(name := name)
    case _ => task
  }

  predicate Corrects(e: Event, taskID: nat) {
    (e.UserAssesses? || e.UserRenames?) && e.taskID == taskID
  }

  predicate TaskLeft(before: Manager, after: Manager, tab: TabID, started: Option<Origin>) {
    if started.Some? then tab in after.tasks && NewTask(after.tasks[tab], tab, started.value, before.drawn)
    else SameTask(before, after, tab)
  }

  // ----- The tab's task -----

  lemma PromoteLeaves(m: Manager, t: TabID, start: StartMethod, now: Time, tab: TabID)
    requires t in m.candidates
    ensures TaskLeft(m, Promote(m, t, start, now), tab, if t == tab then Some(FromWaiting(m.candidates[t], start, now)) else None)
    ensures Promote(m, t, start, now).drawn == m.drawn + 1
  {
    PromoteEffect(m, t, start, now);
    assert Promote(m, t, start, now).drawn == m.drawn + 1 by {
      hide Update, Repoint;
    }
    hide Promote;
  }

  lemma {:induction false} ExpireLeaves(m: Manager, order: seq<TabID>, now: Time, tab: TabID)
    ensures var r := Expire(m, order, now);
            && TaskLeft(m, r, tab, if Due(m, order, now, tab) then Some(FromWaiting(m.candidates[tab], AutoConfirmed, now)) else None)
            && m.drawn <= r.drawn
    decreases |order|
  {
    if order != [] {
      var first, rest := order[0], order[1..];
      var next := if Expired(m, first, now) then Promote(m, first, AutoConfirmed, now) else m;
      if Expired(m, first, now) {
        PromoteEffect(m, first, AutoConfirmed, now);
        PromoteLeaves(m, first, AutoConfirmed, now, tab);
      }
      hide Promote;
      ExpireLeaves(next, rest, now, tab);
      assert first != tab ==> (Due(m, order, now, tab) <==> Due(next, rest, now, tab));
      assert first == tab ==> (Due(m, order, now, tab) <==> Expired(m, tab, now));
    }
  }

  lemma CreateTaskLeaves(m: Manager, h: Headers, now: Time, tab: TabID)
    ensures TaskLeft(m, CreateTask(m, h, now), tab,
                     if h.tab == tab then Some(Origin(None, h.session, h.project, h.name, Manual, ManualStart, now)) else None)
  {
    hide Earliest, Update;
  }

  lemma CallLeaves(m: Manager, h: Headers, now: Time, settings: Settings, tab: TabID)
    ensures TaskLeft(m, ProcessCall(m, h, now, settings), tab, Starts(m, CallArrives(h, now), tab))
  {
    var dismissed := if h.dismissCandidate.Some? then Dismiss(m, h.tab, h.dismissCandidate) else m;
    DismissEffect(m, h.tab, h.dismissCandidate);
    CreateTaskLeaves(dismissed, h, now, tab);
    ProcessCallEffect(m, h, now, settings);
    hide Dismiss, DetectTrigger, CreateTask, CreateCandidate;
  }

  lemma OneHolder(m: Manager, tab: TabID, id: nat)
    requires Inv(m) && IsCurrent(m, tab, id)
    ensures Holder(m, id) == Some(tab)
  {
    assert Mirrored(m, tab);
    var holder := Holder(m, id);
    if holder.Some? {
      assert Mirrored(m, holder.value);
    }
  }

  lemma RewriteLeaves(m: Manager, t: TabID, task: Task)
    ensures Rewrite(m, t, task).tasks == m.tasks[t := task]
  {
    hide Update;
  }

  lemma CorrectionLeaves(m: Manager, e: Event, settings: Settings, tab: TabID)
    requires Inv(m) && (e.UserAssesses? || e.UserRenames?)
    ensures var r := Step(m, e, settings);
            && (tab in r.tasks <==> tab in m.tasks)
            && (tab in m.tasks ==> r.tasks[tab] == if Corrects(e, m.tasks[tab].id) then Corrected(e, m.tasks[tab]) else m.tasks[tab])
  {
    var holder := Holder(m, e.taskID);
    if IsCurrent(m, tab, e.taskID) {
      OneHolder(m, tab, e.taskID);
    }
    if holder.Some? {
      RewriteLeaves(m, holder.value, Corrected(e, m.tasks[holder.value]));
    }
    hide Inv, Rewrite, Holder;
  }

  predicate TaskIs(m: Manager, r: Manager, e: Event, tab: TabID) {
    if Starts(m, e, tab).Some? then TaskLeft(m, r, tab, Starts(m, e, tab))
    else && (tab in r.tasks <==> tab in m.tasks)
         && (tab in m.tasks ==> r.tasks[tab] == if Corrects(e, m.tasks[tab].id) then Corrected(e, m.tasks[tab]) else m.tasks[tab])
  }

  lemma TaskAfter(m: Manager, r: Manager, e: Event, tab: TabID)
    requires TaskLeft(m, r, tab, Starts(m, e, tab)) && !e.UserAssesses? && !e.UserRenames?
    ensures TaskIs(m, r, e, tab)
  {
    hide Starts, NewTask;
  }

  lemma ConfirmLeaves(m: Manager, t: TabID, candidateID: Option<nat>, now: Time, tab: TabID)
    ensures TaskLeft(m, Confirm(m, t, candidateID, now), tab, Starts(m, UserConfirms(t, candidateID, now), tab))
  {
    hide Promote, Earliest, NewTask;
    if Names(m, t, candidateID) {
      PromoteLeaves(m, t, UserConfirmed, now, tab);
    }
  }

  lemma StartLeaves(m: Manager, t: TabID, name: string, now: Time, tab: TabID)
    ensures TaskLeft(m, TaskLifecycle.StartTask(m, t, name, now), tab, Starts(m, UserStarts(t, name, now), tab))
  {
    hide CreateTask, TaskLeft;
    var (session, project) := if t in m.tasks then (m.tasks[t].session, m.tasks[t].project) else ("", "");
    CreateTaskLeaves(m, Headers(t, session, project, name, true, None), now, tab);
  }

  lemma FiringLeaves(m: Manager, order: seq<TabID>, now: Time, tab: TabID)
    ensures TaskLeft(m, CheckGracePeriods(m, order, now), tab, Starts(m, TimerFires(order, now), tab))
  {
    hide Expire, Earliest, NewTask;
    ExpireLeaves(m, order, now, tab);
  }

  /** After any event, the tab's current task is the one the event starts, with all
      its fields; or else the one it was, with what the user corrects about it. */
  lemma TaskIsExactly(m: Manager, e: Event, settings: Settings, tab: TabID)
    requires Inv(m)
    ensures TaskIs(m, Step(m, e, settings), e, tab)
  {
    if e.UserAssesses? || e.UserRenames? {
      CorrectionLeaves(m, e, settings, tab);
      hide Step, Inv;
    } else {
      hide Inv, TaskIs, TaskLeft, Dismiss, ProcessCall, Confirm, TaskLifecycle.StartTask, CheckGracePeriods;
      match e {
        case CallArrives(h, now) => CallLeaves(m, h, now, settings, tab);
        case UserConfirms(t, candidateID, now) => ConfirmLeaves(m, t, candidateID, now, tab);
        case UserStarts(t, name, now) => StartLeaves(m, t, name, now, tab);
        case TimerFires(order, now) => FiringLeaves(m, order, now, tab);
        case _ => OtherwiseLeaves(m, e, settings, tab);
      }
      hide Step, Starts;
      TaskAfter(m, Step(m, e, settings), e, tab);
    }
  }

  lemma OtherwiseLeaves(m: Manager, e: Event, settings: Settings, tab: TabID)
    requires e.UserDismisses? || e.CallRecorded? || e.CallPending? || e.Close?
    ensures TaskLeft(m, Step(m, e, settings), tab, Starts(m, e, tab))
  {
    hide Dismiss;
    if e.UserDismisses? {
      DismissEffect(m, e.tab, e.candidateID);
    }
  }

  // ----- The rows -----

  predicate RowLeft(before: Task, after: Task, abandoned: bool, now: Time) {
    after == if abandoned && before.state == Active then before.(state := Abandoned, completedAt := Some(now)) else before
  }

  lemma PromoteRows(m: Manager, t: TabID, start: StartMethod, now: Time, id: nat)
    requires Sound(m) && t in m.candidates && id in m.rows
    ensures var r := Promote(m, t, start, now); id in r.rows && RowLeft(m.rows[id], r.rows[id], m.rows[id].tab == t, now)
  {
    var repointed := m.(calls := Repoint(m.calls, m.candidates[t].pendingCalls, m.drawn));
    SoundIgnoresCalls(m, repointed);
    AbandonRows(repointed, t, now);
    hide Agrees, SpentOnce, Repoint, Abandon;
  }

  lemma FirstExpires(m: Manager, order: seq<TabID>, now: Time, id: nat)
    requires Sound(m) && id in m.rows && order != []
    ensures var first, tab := order[0], m.rows[id].tab;
            var next := if Expired(m, first, now) then Promote(m, first, AutoConfirmed, now) else m;
            && Sound(next) && Expire(m, order, now) == Expire(next, order[1..], now)
            && id in next.rows && RowLeft(m.rows[id], next.rows[id], first == tab && Expired(m, tab, now), now)
            && (Due(m, order, now, tab) <==> (first == tab && Expired(m, tab, now)) || Due(next, order[1..], now, tab))
  {
    var first := order[0];
    if Expired(m, first, now) {
      PromoteEffect(m, first, AutoConfirmed, now);
      PromoteSound(m, first, AutoConfirmed, now);
      PromoteRows(m, first, AutoConfirmed, now, id);
    }
    hide Promote, Sound, RowLeft;
  }

  lemma {:induction false} ExpireRows(m: Manager, order: seq<TabID>, now: Time, id: nat)
    requires Sound(m) && id in m.rows
    ensures var r := Expire(m, order, now);
            id in r.rows && RowLeft(m.rows[id], r.rows[id], Due(m, order, now, m.rows[id].tab), now)
    decreases |order|
  {
    if order != [] {
      hide Promote, Sound, Due, Expire, Expired;
      FirstExpires(m, order, now, id);
      ExpireRows(if Expired(m, order[0], now) then Promote(m, order[0], AutoConfirmed, now) else m, order[1..], now, id);
    }
  }

  lemma CreateTaskRows(m: Manager, h: Headers, now: Time, id: nat)
    requires Sound(m) && id in m.rows
    ensures var r := CreateTask(m, h, now); id in r.rows && RowLeft(m.rows[id], r.rows[id], m.rows[id].tab == h.tab, now)
  {
    AbandonRows(m, h.tab, now);
    hide Agrees, SpentOnce, Earliest, Abandon;
  }

  lemma OtherRows(m: Manager, h: Headers, now: Time, settings: Settings)
    ensures Dismiss(m, h.tab, h.dismissCandidate).rows == m.rows
    ensures !h.newTask ==> ProcessCall(m, h, now, settings).rows == m.rows
  {
    hide Repoint, Earliest, DetectTrigger, Proposal;
  }

  lemma CallRows(m: Manager, h: Headers, now: Time, settings: Settings, id: nat)
    requires Inv(m) && id in m.rows
    ensures var r := ProcessCall(m, h, now, settings);
            id in r.rows && RowLeft(m.rows[id], r.rows[id], m.rows[id].tab == h.tab && h.newTask, now)
  {
    OtherRows(m, h, now, settings);
    if h.newTask {
      var dismissed := if h.dismissCandidate.Some? then Dismiss(m, h.tab, h.dismissCandidate) else m;
      DismissSound(m, h.tab, h.dismissCandidate);
      assert ProcessCall(m, h, now, settings) == CreateTask(dismissed, h, now);
      hide Dismiss, CreateTask, ProcessCall, Agrees, Identified, SpentOnce;
      CreateTaskRows(dismissed, h, now, id);
    }
  }

  lemma CorrectionRows(m: Manager, e: Event, settings: Settings, id: nat)
    requires Inv(m) && (e.UserAssesses? || e.UserRenames?) && id in m.rows
    ensures var r, row := Step(m, e, settings), m.rows[id];
            id in r.rows && r.rows[id] == if Corrects(e, id) && IsCurrent(m, row.tab, id) then Corrected(e, row) else row
  {
    var holder := Holder(m, e.taskID);
    if holder.Some? {
      assert Mirrored(m, holder.value);
      OneHolder(m, holder.value, e.taskID);
    }
    assert m.rows[id].id == id;
    hide Inv, Identified, Agrees, SpentOnce, TimerRight, Holder;
  }

  predicate RowIs(m: Manager, r: Manager, e: Event, id: nat)
    requires id in m.rows
  {
    var row := m.rows[id];
    var started := Starts(m, e, row.tab);
    && id in r.rows
    && r.rows[id] == if started.Some? && row.state == Active then row.(state := Abandoned, completedAt := Some(started.value.at))
                     else if Corrects(e, id) && IsCurrent(m, row.tab, id) then Corrected(e, row)
                     else row
  }

  lemma RowAfterArrival(m: Manager, h: Headers, now: Time, settings: Settings, id: nat)
    requires Inv(m) && id in m.rows
    ensures RowIs(m, ProcessCall(m, h, now, settings), CallArrives(h, now), id)
  {
    CallRows(m, h, now, settings, id);
    hide ProcessCall, Inv;
  }

  lemma ConfirmRows(m: Manager, t: TabID, candidateID: Option<nat>, now: Time, id: nat)
    requires Inv(m) && id in m.rows
    ensures var r := Confirm(m, t, candidateID, now);
            id in r.rows && RowLeft(m.rows[id], r.rows[id], m.rows[id].tab == t && Names(m, t, candidateID), now)
  {
    if Names(m, t, candidateID) {
      PromoteRows(m, t, UserConfirmed, now, id);
    }
    hide Promote, Earliest, Inv, Identified, Agrees, SpentOnce, RowLeft;
  }

  lemma RowAfterConfirmation(m: Manager, t: TabID, candidateID: Option<nat>, now: Time, id: nat)
    requires Inv(m) && id in m.rows
    ensures RowIs(m, Confirm(m, t, candidateID, now), UserConfirms(t, candidateID, now), id)
  {
    ConfirmRows(m, t, candidateID, now, id);
    StartsWhenConfirmed(m, t, candidateID, now, m.rows[id].tab);
    hide Confirm, Inv, Starts, Names;
  }

  lemma StartsWhenConfirmed(m: Manager, t: TabID, candidateID: Option<nat>, now: Time, tab: TabID)
    ensures var s := Starts(m, UserConfirms(t, candidateID, now), tab);
            (s.Some? <==> t == tab && Names(m, t, candidateID)) && (s.Some? ==> s.value.at == now)
  {
  }

  lemma RowAfterStart(m: Manager, t: TabID, name: string, now: Time, id: nat)
    requires Inv(m) && id in m.rows
    ensures RowIs(m, TaskLifecycle.StartTask(m, t, name, now), UserStarts(t, name, now), id)
  {
    var (session, project) := if t in m.tasks then (m.tasks[t].session, m.tasks[t].project) else ("", "");
    var h := Headers(t, session, project, name, true, None);
    CreateTaskRows(m, h, now, id);
    assert TaskLifecycle.StartTask(m, t, name, now) == CreateTask(m, h, now);
    hide CreateTask, TaskLifecycle.StartTask, Inv, Identified, Agrees, SpentOnce, Corrects, Corrected;
  }

  lemma FiringRows(m: Manager, order: seq<TabID>, now: Time, id: nat)
    requires Inv(m) && id in m.rows
    ensures var r, tab := CheckGracePeriods(m, order, now), m.rows[id].tab;
            id in r.rows && RowLeft(m.rows[id], r.rows[id], !m.closed && Due(m, order, now, tab), now)
  {
    ExpireRows(m, order, now, id);
    hide Expire, Earliest, Inv, Identified, Agrees, SpentOnce;
  }

  lemma RowAfterFiring(m: Manager, order: seq<TabID>, now: Time, id: nat)
    requires Inv(m) && id in m.rows
    ensures RowIs(m, CheckGracePeriods(m, order, now), TimerFires(order, now), id)
  {
    FiringRows(m, order, now, id);
    hide CheckGracePeriods, Inv;
  }

  /** After any event, a row is what it was, except that the tab's active one is
      abandoned, then and there, if the event starts another task for the tab, and
      that the current one takes the user's correction. */
  lemma RowIsExactly(m: Manager, e: Event, settings: Settings, id: nat)
    requires Inv(m) && id in m.rows
    ensures RowIs(m, Step(m, e, settings), e, id)
  {
    hide ProcessCall, Confirm, TaskLifecycle.StartTask, CheckGracePeriods, Repoint, Earliest, Assess, Rename, Inv;
    match e {
      case CallArrives(h, now) => RowAfterArrival(m, h, now, settings, id);
      case UserConfirms(t, candidateID, now) => RowAfterConfirmation(m, t, candidateID, now, id);
      case UserStarts(t, name, now) => RowAfterStart(m, t, name, now, id);
      case TimerFires(order, now) => RowAfterFiring(m, order, now, id);
      case UserAssesses(_, _) => CorrectionRows(m, e, settings, id);
      case UserRenames(_, _) => CorrectionRows(m, e, settings, id);
      case _ =>
    }
  }

  // ----- The candidate -----

  /** A candidate that was there stays as it is, but for a call recorded for it; a new
      one is made of the headers of the call that proposes it. */
  predicate CandidateLeft(m: Manager, e: Event, settings: Settings, tab: TabID, c: Candidate) {
    if tab in m.candidates && c.id == m.candidates[tab].id
    then c == m.candidates[tab].(pendingCalls := m.candidates[tab].pendingCalls
                                                 + if e.CallPending? && e.tab == tab then [e.call] else [])
    else && e.CallArrives? && e.headers.tab == tab && c.id == m.drawn && c.tab == tab
         && c.session == e.headers.session && c.project == e.headers.project && c.name == e.headers.name
         && c.deadline == e.now + settings.gracePeriod && c.pendingCalls == []
  }

  lemma SameCandidate(m: Manager, e: Event, settings: Settings, tab: TabID)
    requires tab in m.candidates && !e.CallPending?
    ensures CandidateLeft(m, e, settings, tab, m.candidates[tab])
  {
    var c := m.candidates[tab];
    assert c.pendingCalls + [] == c.pendingCalls;
  }

  /** The candidate of the calling tab, once what the call dismisses is gone. */
  lemma CalledTabsCandidate(m: Manager, h: Headers, now: Time, settings: Settings)
    ensures var r := ProcessCall(m, h, now, settings);
            h.tab in r.candidates ==>
              if h.tab in m.candidates && !(h.dismissCandidate.Some? && Names(m, h.tab, h.dismissCandidate))
              then r.candidates[h.tab] == m.candidates[h.tab]
              else exists t :: r.candidates[h.tab] == Proposal(m, h, t, now, settings)
  {
    var r := ProcessCall(m, h, now, settings);
    var dismissed := if h.dismissCandidate.Some? then Dismiss(m, h.tab, h.dismissCandidate) else m;
    var trigger := DetectTrigger(dismissed, h, now, settings);
    DismissEffect(m, h.tab, h.dismissCandidate);
    if h.newTask {
      CreateTaskEffect(dismissed, h, now);
    } else if trigger.Some? {
      ProposalEffect(dismissed, h, trigger.value, now, settings);
      assert Proposal(dismissed, h, trigger.value, now, settings) == Proposal(m, h, trigger.value, now, settings);
    }
    hide Dismiss, DetectTrigger, CreateTask, CreateCandidate, Proposal;
  }

  lemma ArrivalCandidates(m: Manager, h: Headers, now: Time, settings: Settings, tab: TabID)
    requires Inv(m) && tab in ProcessCall(m, h, now, settings).candidates
    ensures CandidateLeft(m, CallArrives(h, now), settings, tab, ProcessCall(m, h, now, settings).candidates[tab])
  {
    var r := ProcessCall(m, h, now, settings);
    assert tab in m.candidates ==> m.candidates[tab].id < m.drawn;
    hide Inv;
    CalledTabsCandidate(m, h, now, settings);
    if tab != h.tab {
      ProcessCallEffect(m, h, now, settings);
      assert tab in m.candidates - {h.tab} && tab in r.candidates - {h.tab};
      assert r.candidates[tab] == (r.candidates - {h.tab})[tab] == (m.candidates - {h.tab})[tab];
    }
    if tab in m.candidates {
      SameCandidate(m, CallArrives(h, now), settings, tab);
    }
    hide ProcessCall;
  }

  /** Other events make no candidate and change none. */
  lemma CandidatesOnlyGo(m: Manager, e: Event, settings: Settings, tab: TabID)
    requires !e.CallArrives? && !e.CallPending? && tab in Step(m, e, settings).candidates
    ensures tab in m.candidates && Step(m, e, settings).candidates[tab] == m.candidates[tab]
  {
    hide ProcessCall, Confirm, CreateTask, Dismiss, Expire, Earliest, Assess, Rename, HasTaskFrom;
    match e {
      case UserConfirms(t, candidateID, now) => ConfirmEffect(m, t, candidateID, now);
      case UserStarts(t, name, now) =>
        var (session, project) := if t in m.tasks then (m.tasks[t].session, m.tasks[t].project) else ("", "");
        CreateTaskEffect(m, Headers(t, session, project, name, true, None), now);
      case UserDismisses(t, candidateID) => DismissEffect(m, t, candidateID);
      case TimerFires(order, now) => ExpireCandidates(m, order, now);
      case UserAssesses(_, _) => CorrectionEffect(m, e, settings);
      case UserRenames(_, _) => CorrectionEffect(m, e, settings);
      case _ =>
    }
  }

  lemma RecordAdds(m: Manager, t: TabID, call: nat, tab: TabID)
    requires tab in AddPendingCall(m, t, call).candidates
    ensures tab in m.candidates
    ensures var c := m.candidates[tab];
            AddPendingCall(m, t, call).candidates[tab] == c.(pendingCalls := c.pendingCalls + if t == tab then [call] else [])
  {
    var c := m.candidates[tab];
    assert c.pendingCalls + [] == c.pendingCalls;
    assert c.(pendingCalls := c.pendingCalls) == c;
  }

  lemma RecordLeaves(m: Manager, t: TabID, call: nat, settings: Settings, tab: TabID)
    requires tab in AddPendingCall(m, t, call).candidates
    ensures CandidateLeft(m, CallPending(t, call), settings, tab, AddPendingCall(m, t, call).candidates[tab])
  {
    RecordAdds(m, t, call, tab);
    hide AddPendingCall;
  }

  lemma CandidateIsExactly(m: Manager, e: Event, settings: Settings, tab: TabID)
    requires Inv(m) && tab in Step(m, e, settings).candidates
    ensures CandidateLeft(m, e, settings, tab, Step(m, e, settings).candidates[tab])
  {
    hide Inv, CandidateLeft, ProcessCall, AddPendingCall;
    match e {
      case CallArrives(h, now) => ArrivalCandidates(m, h, now, settings, tab);
      case CallPending(t, call) => RecordLeaves(m, t, call, settings, tab);
      case _ =>
        CandidatesOnlyGo(m, e, settings, tab);
        hide Step;
        SameCandidate(m, e, settings, tab);
    }
  }
}
