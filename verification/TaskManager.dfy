/** The task manager as the proxy keeps it: maps under one lock, a timer, and the
    database it writes through. Each method does what the lifecycle says. */
module TaskManager {
  import opened Wrappers
  import opened TaskLifecycle

  class Database {
    var tasks: map<nat, Task>
    var calls: map<nat, Option<nat>>

    constructor ()
      ensures tasks == map[] && calls == map[]
    {
      tasks, calls := map[], map[];
    }

    method InsertTask(task: Task)
      modifies this`tasks
      ensures tasks == old(tasks)[task.id := task]
    {
      tasks := tasks[task.id := task];
    }

    method UpdateTask(task: Task)
      modifies this`tasks
      ensures tasks == Update(old(tasks), task)
    {
      if task.id in tasks {
        tasks := tasks[task.id := tasks[task.id].(name := task.name, state := task.state, completedAt := task.completedAt)];
      }
    }

    method UpdateCallTaskID(call: nat, task: nat)
      modifies this`calls
      ensures calls == if call in old(calls) then old(calls)[call := Some(task)] else old(calls)
    {
      if call in calls {
        calls := calls[call := Some(task)];
      }
    }

    method RepointCalls(ids: seq<nat>, task: nat)
      modifies this`calls
      ensures calls == Repoint(old(calls), ids, task)
    {
      for i := 0 to |ids|
        invariant Repoint(calls, ids[i..], task) == Repoint(old(calls), ids, task)
      {
        assert ids[i..][1..] == ids[i + 1..];
        UpdateCallTaskID(ids[i], task);
      }
    }
  }

  lemma {:induction false} ExpireAppend(m: Manager, order: seq<TabID>, tab: TabID, now: Time)
    ensures var r := Expire(m, order, now);
            Expire(m, order + [tab], now) == if Expired(r, tab, now) then Promote(r, tab, AutoConfirmed, now) else r
    decreases |order|
  {
    if order == [] {
      assert [] + [tab] == [tab] && [tab][1..] == [];
      hide Promote;
      assert forall n: Manager :: Expire(n, [], now) == n;
    } else {
      assert (order + [tab])[0] == order[0] && (order + [tab])[1..] == order[1..] + [tab];
      hide Promote;
      ExpireAppend(if Expired(m, order[0], now) then Promote(m, order[0], AutoConfirmed, now) else m, order[1..], tab, now);
    }
  }

  lemma CurrentTabIsUnique(m: Manager, t: TabID, u: TabID, taskID: nat)
    requires Inv(m) && IsCurrent(m, t, taskID) && IsCurrent(m, u, taskID)
    ensures t == u
  {
    assert Mirrored(m, t) && Mirrored(m, u);
  }

  class TaskManager {
    const db: Database
    const settings: Settings
    var tasks: map<TabID, Task>
    var candidates: map<TabID, Candidate>
    var lastActivity: map<TabID, Time>
    var lastProject: map<TabID, string>
    var lastSession: map<TabID, string>
    var graceTimer: Option<Time>
    var closed: bool
    var drawn: nat

    function State(): Manager
      reads this, db
    {
      Manager(tasks, candidates, lastActivity, lastProject, lastSession, graceTimer, closed, db.tasks, db.calls, drawn)
    }

    ghost predicate Valid()
      reads this, db
    {
      Inv(State())
    }

    constructor (settings: Settings)
      ensures Valid() && State() == NEW_MANAGER && fresh(db) && this.settings == settings
    {
      db := new Database();
      this.settings := settings;
      tasks, candidates, lastActivity, lastProject, lastSession := map[], map[], map[], map[], map[];
      graceTimer, closed, drawn := None, false, 0;
      new;
      RunKeepsInvariant([], settings);
    }

    method GenerateID() returns (id: nat)
      modifies this`drawn
      ensures id == old(drawn) && drawn == id + 1
    {
      id := drawn;
      drawn := drawn + 1;
    }

    /** Arms only the earliest deadline; zero stands for "none found yet". */
    method ScheduleGraceCheckLocked()
      modifies this`graceTimer
      ensures State() == Schedule(old(State()))
    {
      graceTimer := None;
      if closed {
        return;
      }
      var earliest: nat := 0;
      var rest := candidates.Keys;
      while rest != {}
        invariant rest <= candidates.Keys
        invariant earliest == 0 <==> rest == candidates.Keys
        invariant earliest != 0 ==> exists tab :: tab in candidates && tab !in rest && candidates[tab].deadline == earliest
        invariant earliest != 0 ==> forall tab | tab in candidates && tab !in rest :: earliest <= candidates[tab].deadline
        decreases |rest|
      {
        var tab :| tab in rest;
        rest := rest - {tab};
        if earliest == 0 || candidates[tab].deadline < earliest {
          earliest := candidates[tab].deadline;
        }
      }
      if earliest != 0 {
        assert IsEarliest(earliest, candidates);
        EarliestIsUnique(earliest, Earliest(candidates).value, candidates);
        graceTimer := Some(earliest);
      } else {
        assert candidates == map[];
      }
    }

    method AbandonCurrentTask(tab: TabID, now: Time)
      modifies db`tasks
      ensures State() == Abandon(old(State()), tab, now)
    {
      if tab in tasks && tasks[tab].state == Active {
        db.UpdateTask(tasks[tab].(state := Abandoned, completedAt := Some(now)));
      }
    }

    method CreateCandidateLocked(h: Headers, trigger: Trigger, now: Time)
      modifies this
      ensures State() == CreateCandidate(old(State()), h, trigger, now, settings)
    {
      if h.tab in candidates {
        return;
      }
      var id := GenerateID();
      candidates := candidates[h.tab :=
        Candidate(id, h.tab, h.session, h.project, h.name, trigger, now + settings.gracePeriod, [])];
      ScheduleGraceCheckLocked();
    }

    method CreateTaskLocked(h: Headers, now: Time) returns (id: nat)
      modifies this, db
      ensures State() == CreateTask(old(State()), h, now)
      ensures h.tab in tasks && tasks[h.tab].id == id
    {
      AbandonCurrentTask(h.tab, now);
      candidates := candidates - {h.tab};
      ScheduleGraceCheckLocked();
      id := GenerateID();
      var task := Task(id, None, h.tab, h.session, h.project, h.name, Active, Manual, ManualStart, now, None);
      tasks := tasks[h.tab := task];
      db.InsertTask(task);
    }

    method PromoteCandidate(tab: TabID, start: StartMethod, now: Time)
      requires tab in candidates
      modifies this, db
      ensures State() == Promote(old(State()), tab, start, now)
    {
      var candidate := candidates[tab];
      var id := GenerateID();
      var task := Promoted(candidate.(tab := tab), id, start, now);
      db.RepointCalls(candidate.pendingCalls, task.id);
      AbandonCurrentTask(tab, now);
      tasks := tasks[tab := task];
      candidates := candidates - {tab};
      db.InsertTask(task);
    }

    /** With no identifier any candidate of the tab is meant. */
    method ConfirmCandidate(tab: TabID, candidateID: Option<nat>, now: Time) returns (id: Option<nat>)
      requires Valid()
      modifies this, db
      ensures Valid() && State() == Step(old(State()), UserConfirms(tab, candidateID, now), settings)
      ensures id.Some? <==> Names(old(State()), tab, candidateID)
      ensures id.Some? ==> tab in tasks && tasks[tab].id == id.value
    {
      StepKeepsInvariant(State(), UserConfirms(tab, candidateID, now), settings);
      hide Inv;
      if tab !in candidates || (candidateID.Some? && candidates[tab].id != candidateID.value) {
        return None;
      }
      PromoteCandidate(tab, UserConfirmed, now);
      ScheduleGraceCheckLocked();
      id := Some(tasks[tab].id);
    }

    method DismissCandidateLocked(tab: TabID, candidateID: Option<nat>) returns (reassigned: nat)
      modifies this, db
      ensures State() == Dismiss(old(State()), tab, candidateID)
      ensures reassigned == if Names(old(State()), tab, candidateID) then |old(candidates)[tab].pendingCalls| else 0
    {
      if tab !in candidates || (candidateID.Some? && candidates[tab].id != candidateID.value) {
        return 0;
      }
      var candidate := candidates[tab];
      reassigned := |candidate.pendingCalls|;
      if tab in tasks && tasks[tab].state == Active {
        db.RepointCalls(candidate.pendingCalls, tasks[tab].id);
      }
      candidates := candidates - {tab};
      ScheduleGraceCheckLocked();
    }

    method DismissCandidate(tab: TabID, candidateID: Option<nat>) returns (found: bool, reassigned: nat)
      requires Valid()
      modifies this, db
      ensures Valid() && State() == Step(old(State()), UserDismisses(tab, candidateID), settings)
      ensures found == Names(old(State()), tab, candidateID)
    {
      StepKeepsInvariant(State(), UserDismisses(tab, candidateID), settings);
      hide Inv, Dismiss;
      found := tab in candidates && (candidateID.Some? ==> candidates[tab].id == candidateID.value);
      reassigned := DismissCandidateLocked(tab, candidateID);
    }

    method FindTrigger(h: Headers, now: Time) returns (trigger: Option<Trigger>)
      ensures trigger == DetectTrigger(State(), h, now, settings)
    {
      if h.tab in lastSession {
        if h.session != lastSession[h.tab] && h.tab !in tasks {
          return Some(NewSession);
        }
      } else if h.tab !in tasks {
        return Some(NewSession);
      }
      if h.tab in lastActivity {
        if now - lastActivity[h.tab] > settings.idleTimeout {
          return Some(IdleGap);
        }
      }
      if h.tab in lastProject {
        if h.project != "" && h.project != lastProject[h.tab] {
          return Some(RepoSwitch);
        }
      }
      return None;
    }

    /** Files the call under the pending candidate, provisionally, or the active task. */
    method AssignCall(tab: TabID) returns (assignment: Assignment)
      ensures assignment == AssignmentOf(State(), tab)
    {
      if tab in candidates {
        return ToCandidate(candidates[tab].id);
      }
      if tab in tasks && tasks[tab].state == Active {
        return ToTask(tasks[tab].id);
      }
      return NoTask;
    }

    method TrackCall(h: Headers, now: Time)
      modifies this`lastActivity, this`lastProject, this`lastSession
      ensures State() == old(State()).(lastActivity := old(lastActivity)[h.tab := now],
                                       lastProject := old(lastProject)[h.tab := h.project],
                                       lastSession := old(lastSession)[h.tab := h.session])
    {
      lastActivity := lastActivity[h.tab := now];
      lastProject := lastProject[h.tab := h.project];
      lastSession := lastSession[h.tab := h.session];
    }

    method ProcessLocked(h: Headers, now: Time) returns (assignment: Assignment)
      modifies this, db
      ensures State() == ProcessCall(old(State()), h, now, settings)
      ensures assignment == AssignmentOf(State(), h.tab)
    {
      hide Dismiss, CreateCandidate, DetectTrigger, CreateTask;
      if h.dismissCandidate.Some? {
        var reassigned := DismissCandidateLocked(h.tab, h.dismissCandidate);
      }
      var trigger := FindTrigger(h, now);
      if h.newTask {
        NewTaskTakesTheCall(State(), h, now);
        var id := CreateTaskLocked(h, now);
        return ToTask(id);
      }
      if trigger.Some? {
        CreateCandidateLocked(h, trigger.value, now);
      }
      TrackCall(h, now);
      assignment := AssignCall(h.tab);
    }

    /** A waiting candidate comes before the active task, which is the tab's active row. */
    method ProcessAPICall(h: Headers, now: Time) returns (assignment: Assignment)
      requires Valid()
      modifies this, db
      ensures Valid() && State() == Step(old(State()), CallArrives(h, now), settings)
      ensures forall c :: assignment == ToCandidate(c) <==> h.tab in candidates && candidates[h.tab].id == c
      ensures forall id :: assignment == ToTask(id) <==> h.tab !in candidates && ActiveRow(State(), id, h.tab)
    {
      StepKeepsInvariant(State(), CallArrives(h, now), settings);
      hide Inv, ProcessCall, AssignmentOf, ActiveRow;
      assignment := ProcessLocked(h, now);
      AssignmentMeans(State(), h.tab);
    }

    /** Naming a candidate confirms it; only without one a task is started afresh. */
    method StartTask(tab: TabID, name: string, candidateID: Option<nat>, now: Time) returns (id: Option<nat>)
      requires Valid()
      modifies this, db
      ensures var e := if candidateID.Some? then UserConfirms(tab, candidateID, now) else UserStarts(tab, name, now);
              Valid() && State() == Step(old(State()), e, settings)
      ensures id.Some? <==> (candidateID.Some? ==> Names(old(State()), tab, candidateID))
      ensures id.Some? ==> tab in tasks && tasks[tab].id == id.value
    {
      hide Inv, CreateTask, Promote, Confirm;
      if candidateID.Some? {
        id := ConfirmCandidate(tab, candidateID, now);
        return;
      }
      StepKeepsInvariant(State(), UserStarts(tab, name, now), settings);
      var h := Headers(tab, "", "", name, true, None);
      if tab in tasks {
        h := h.(session := tasks[tab].session, project := tasks[tab].project);
      }
      var created := CreateTaskLocked(h, now);
      id := Some(created);
    }

    method FindTask(taskID: nat) returns (holder: Option<TabID>)
      requires Valid()
      ensures holder == Holder(State(), taskID)
    {
      var rest := tasks.Keys;
      holder := None;
      while rest != {}
        invariant rest <= tasks.Keys
        invariant forall tab | tab in tasks && tab !in rest :: tasks[tab].id != taskID
        decreases |rest|
      {
        var tab :| tab in rest;
        if tasks[tab].id == taskID {
          CurrentTabIsUnique(State(), tab, Holder(State(), taskID).value, taskID);
          return Some(tab);
        }
        rest := rest - {tab};
      }
    }

    method RewriteTask(tab: TabID, task: Task)
      modifies this`tasks, db`tasks
      ensures State() == Rewrite(old(State()), tab, task)
    {
      tasks := tasks[tab := task];
      db.UpdateTask(task);
    }

    method AssessTask(taskID: nat, now: Time) returns (found: bool)
      requires Valid()
      modifies this, db
      ensures Valid() && State() == Step(old(State()), UserAssesses(taskID, now), settings)
      ensures found == Holder(old(State()), taskID).Some?
    {
      StepKeepsInvariant(State(), UserAssesses(taskID, now), settings);
      var holder := FindTask(taskID);
      hide Inv, Rewrite;
      if holder.None? {
        return false;
      }
      RewriteTask(holder.value, tasks[holder.value].(state := Completed, completedAt := Some(now)));
      found := true;
    }

    method UpdateTaskName(taskID: nat, name: string) returns (found: bool)
      requires Valid()
      modifies this, db
      ensures Valid() && State() == Step(old(State()), UserRenames(taskID, name), settings)
      ensures found == Holder(old(State()), taskID).Some?
    {
      StepKeepsInvariant(State(), UserRenames(taskID, name), settings);
      var holder := FindTask(taskID);
      hide Inv, Rewrite;
      if holder.None? {
        return false;
      }
      RewriteTask(holder.value, tasks[holder.value].(name := name));
      found := true;
    }

    method CloseManager()
      requires Valid()
      modifies this
      ensures Valid() && State() == Step(old(State()), Close, settings)
    {
      StepKeepsInvariant(State(), Close, settings);
      hide Inv;
      closed := true;
      graceTimer := None;
    }

    method ConfirmExpired(now: Time) returns (ghost order: seq<TabID>)
      modifies this, db
      ensures State() == Expire(old(State()), order, now)
      ensures forall tab | tab in old(candidates) :: tab in order
    {
      order := [];
      ghost var before := State();
      var rest := candidates.Keys;
      assert Expire(before, [], now) == before;
      hide Promote, Expire;
      while rest != {}
        invariant State() == Expire(before, order, now)
        invariant forall tab | tab in before.candidates && tab !in rest :: tab in order
        invariant rest <= candidates.Keys
        decreases |rest|
      {
        var tab :| tab in rest;
        rest := rest - {tab};
        ExpireAppend(before, order, tab, now);
        order := order + [tab];
        if candidates[tab].deadline <= now {
          PromoteKeepsOthers(State(), tab, now);
          PromoteCandidate(tab, AutoConfirmed, now);
        }
      }
    }

    /** Also what a firing does that was already waiting for the lock when the
        timer was stopped: it may run at any time. */
    method RunGraceCheck(now: Time) returns (ghost order: seq<TabID>)
      requires Valid()
      modifies this, db
      ensures Valid() && State() == Step(old(State()), TimerFires(order, now), settings)
      ensures !old(closed) ==> forall tab | tab in old(candidates) :: tab in order
    {
      order := [];
      ghost var before := State();
      if closed {
        return;
      }
      order := ConfirmExpired(now);
      ExpireCloses(before, order, now);
      StepKeepsInvariant(before, TimerFires(order, now), settings);
      hide Inv, Expire;
      ScheduleGraceCheckLocked();
    }

    method RecordPendingCall(tab: TabID, call: nat)
      requires Valid()
      modifies this
      ensures Valid() && State() == Step(old(State()), CallPending(tab, call), settings)
    {
      StepKeepsInvariant(State(), CallPending(tab, call), settings);
      hide Inv;
      if tab in candidates {
        candidates := candidates[tab := candidates[tab].(pendingCalls := candidates[tab].pendingCalls + [call])];
      }
    }
  }

  lemma PromoteKeepsOthers(m: Manager, tab: TabID, now: Time)
    requires tab in m.candidates
    ensures var r := Promote(m, tab, AutoConfirmed, now); r.candidates == m.candidates - {tab} && r.closed == m.closed
  {
  }

  lemma NewTaskTakesTheCall(m: Manager, h: Headers, now: Time)
    ensures var r := CreateTask(m, h, now); h.tab in r.tasks && AssignmentOf(r, h.tab) == ToTask(r.tasks[h.tab].id)
  {
  }

  lemma {:induction false} ExpireCloses(m: Manager, order: seq<TabID>, now: Time)
    ensures Expire(m, order, now).closed == m.closed
    decreases |order|
  {
    if order != [] {
      var next := if Expired(m, order[0], now) then Promote(m, order[0], AutoConfirmed, now) else m;
      assert next.closed == m.closed;
      hide Promote;
      ExpireCloses(next, order[1..], now);
    }
  }
}
