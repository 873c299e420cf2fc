/** The proxy's task lifecycle: per tab a current task and at most one candidate,
    one timer for the earliest grace deadline, and a database that must agree.

    Identifiers come from a counter, which stands for the random generator; the
    time of day is an argument of each event; database writes succeed. */
module TaskLifecycle {
  import opened Wrappers

  type TabID = string

  /** Zero is Go's zero time, which no clock reading yields. */
  type Time = t: nat | t > 0 witness 1

  datatype State = Active | Completed | Abandoned

  datatype StartMethod = Manual | AutoConfirmed | UserConfirmed

  datatype Trigger = ManualStart | NewSession | IdleGap | RepoSwitch

  datatype Task = Task(id: nat, candidateID: Option<nat>, tab: TabID, session: string, project: string, name: string,
                       state: State, start: StartMethod, trigger: Trigger, startedAt: Time, completedAt: Option<Time>)

  datatype Candidate = Candidate(id: nat, tab: TabID, session: string, project: string, name: string,
                                 trigger: Trigger, deadline: Time, pendingCalls: seq<nat>)

  /** The correlation headers of a call, with the task name derived from them. */
  datatype Headers = Headers(tab: TabID, session: string, project: string, name: string,
                             newTask: bool, dismissCandidate: Option<nat>)

  /** `rows` and `calls` are the database's task and call tables; a call has no task
      or one. `armed` is the deadline the timer was set for, until it is stopped or
      its function has run. `drawn` counts the identifiers generated. */
  datatype Manager = Manager(
    tasks: map<TabID, Task>,
    candidates: map<TabID, Candidate>,
    lastActivity: map<TabID, Time>,
    lastProject: map<TabID, string>,
    lastSession: map<TabID, string>,
    armed: Option<Time>,
    closed: bool,
    rows: map<nat, Task>,
    calls: map<nat, Option<nat>>,
    drawn: nat)

  datatype Settings = Settings(gracePeriod: nat, idleTimeout: nat)

  const NEW_MANAGER := Manager(map[], map[], map[], map[], map[], None, false, map[], map[], 0)

  // ----- The timer -----

  ghost predicate IsEarliest(t: Time, candidates: map<TabID, Candidate>) {
    && (exists tab :: tab in candidates && candidates[tab].deadline == t)
    && (forall tab | tab in candidates :: t <= candidates[tab].deadline)
  }

  lemma {:induction false} EarliestExists(candidates: map<TabID, Candidate>)
    requires candidates != map[]
    ensures exists t: Time :: IsEarliest(t, candidates)
    decreases |candidates|
  {
    var tab :| tab in candidates;
    var rest := candidates - {tab};
    if rest == map[] {
      assert IsEarliest(candidates[tab].deadline, candidates) by {
        assert forall other | other in candidates :: other == tab || other in rest;
      }
    } else {
      assert |rest| < |candidates| by {
        assert rest.Keys == candidates.Keys - {tab};
        assert |rest| == |rest.Keys| && |candidates| == |candidates.Keys|;
      }
      EarliestExists(rest);
      var t: Time :| IsEarliest(t, rest);
      var least: Time := if candidates[tab].deadline < t then candidates[tab].deadline else t;
      assert IsEarliest(least, candidates) by {
        var holder :| holder in rest && rest[holder].deadline == t;
        assert holder in candidates && candidates[holder].deadline == t;
        assert forall other | other in candidates && other != tab :: other in rest;
      }
    }
  }

  ghost function Earliest(candidates: map<TabID, Candidate>): (r: Option<Time>)
    ensures candidates == map[] <==> r == None
    ensures r.Some? ==> IsEarliest(r.value, candidates)
  {
    if candidates == map[] then None
    else
      EarliestExists(candidates);
      var t: Time :| IsEarliest(t, candidates);
      Some(t)
  }

  ghost function Schedule(m: Manager): Manager {
    m.(armed := if m.closed then None else Earliest(m.candidates))
  }

  // ----- Tasks and candidates -----

  function Update(rows: map<nat, Task>, task: Task): map<nat, Task> {
    if task.id in rows
    then rows[task.id := rows[task.id].(name := task.name, state := task.state, completedAt := task.completedAt)]
    else rows
  }

  /** An active task that is about to be replaced is closed as abandoned. */
  function Abandon(m: Manager, tab: TabID, now: Time): Manager {
    if tab in m.tasks && m.tasks[tab].state == Active
    then m.(rows := Update(m.rows, m.tasks[tab].(state := Abandoned, completedAt := Some(now))))
    else m
  }

  function Install(m: Manager, task: Task): Manager {
    m.(tasks := m.tasks[task.tab := task], rows := m.rows[task.id := task], drawn := m.drawn + 1)
  }

  ghost function CreateTask(m: Manager, h: Headers, now: Time): Manager {
    var cleared := Schedule(Abandon(m, h.tab, now).(candidates := m.candidates - {h.tab}));
    Install(cleared, Task(m.drawn, None, h.tab, h.session, h.project, h.name, Active, Manual, ManualStart, now, None))
  }

  function Proposal(m: Manager, h: Headers, trigger: Trigger, now: Time, settings: Settings): Candidate {
    Candidate(m.drawn, h.tab, h.session, h.project, h.name, trigger, now + settings.gracePeriod, [])
  }

  ghost function CreateCandidate(m: Manager, h: Headers, trigger: Trigger, now: Time, settings: Settings): Manager {
    if h.tab in m.candidates then m
    else Schedule(m.(candidates := m.candidates[h.tab := Proposal(m, h, trigger, now, settings)], drawn := m.drawn + 1))
  }

  /** `UPDATE ... WHERE id = ?` for each call: only existing rows change. */
  function Repoint(calls: map<nat, Option<nat>>, ids: seq<nat>, task: nat): map<nat, Option<nat>>
    decreases |ids|
  {
    if ids == [] then calls
    else Repoint(if ids[0] in calls then calls[ids[0] := Some(task)] else calls, ids[1..], task)
  }

  function Promoted(c: Candidate, id: nat, start: StartMethod, now: Time): Task {
    Task(id, Some(c.id), c.tab, c.session, c.project, c.name, Active, start, c.trigger, now, None)
  }

  /** A candidate becomes the tab's task, and its recorded calls follow. */
  function Promote(m: Manager, tab: TabID, start: StartMethod, now: Time): Manager
    requires tab in m.candidates
  {
    var c := m.candidates[tab];
    var repointed := m.(calls := Repoint(m.calls, c.pendingCalls, m.drawn));
    Install(Abandon(repointed, tab, now).(candidates := m.candidates - {tab}),
            Promoted(c.(tab := tab), m.drawn, start, now))
  }

  predicate Names(m: Manager, tab: TabID, candidateID: Option<nat>) {
    tab in m.candidates && (candidateID.Some? ==> m.candidates[tab].id == candidateID.value)
  }

  ghost function Confirm(m: Manager, tab: TabID, candidateID: Option<nat>, now: Time): Manager {
    if Names(m, tab, candidateID) then Schedule(Promote(m, tab, UserConfirmed, now)) else m
  }

  ghost function Dismiss(m: Manager, tab: TabID, candidateID: Option<nat>): Manager {
    if !Names(m, tab, candidateID) then m
    else
      var calls := if tab in m.tasks && m.tasks[tab].state == Active
                   then Repoint(m.calls, m.candidates[tab].pendingCalls, m.tasks[tab].id)
                   else m.calls;
      Schedule(m.(calls := calls, candidates := m.candidates - {tab}))
  }

  function DetectTrigger(m: Manager, h: Headers, now: Time, settings: Settings): Option<Trigger> {
    if h.tab !in m.tasks && (h.tab in m.lastSession ==> h.session != m.lastSession[h.tab]) then Some(NewSession)
    else if h.tab in m.lastActivity && now - m.lastActivity[h.tab] > settings.idleTimeout then Some(IdleGap)
    else if h.tab in m.lastProject && h.project != "" && h.project != m.lastProject[h.tab] then Some(RepoSwitch)
    else None
  }

  /** What a caller is told to file its call under. */
  datatype Assignment = ToCandidate(id: nat) | ToTask(id: nat) | NoTask

  function AssignmentOf(m: Manager, tab: TabID): Assignment {
    if tab in m.candidates then ToCandidate(m.candidates[tab].id)
    else if tab in m.tasks && m.tasks[tab].state == Active then ToTask(m.tasks[tab].id)
    else NoTask
  }

  /** A call of a candidate is stored without a task for the time being. */
  function TaskColumn(filed: Assignment): Option<nat> {
    match filed
    case ToCandidate(_) => None
    case ToTask(id) => Some(id)
    case NoTask => None
  }

  ghost function ProcessCall(m: Manager, h: Headers, now: Time, settings: Settings): Manager {
    var dismissed := if h.dismissCandidate.Some? then Dismiss(m, h.tab, h.dismissCandidate) else m;
    var trigger := DetectTrigger(dismissed, h, now, settings);
    if h.newTask then CreateTask(dismissed, h, now)
    else
      var proposed := if trigger.Some? then CreateCandidate(dismissed, h, trigger.value, now, settings) else dismissed;
      proposed.(lastActivity := proposed.lastActivity[h.tab := now],
                lastProject := proposed.lastProject[h.tab := h.project],
                lastSession := proposed.lastSession[h.tab := h.session])
  }

  /** A manual start inherits the session and project of the tab's last task. */
  ghost function StartTask(m: Manager, tab: TabID, name: string, now: Time): Manager {
    var (session, project) := if tab in m.tasks then (m.tasks[tab].session, m.tasks[tab].project) else ("", "");
    CreateTask(m, Headers(tab, session, project, name, true, None), now)
  }

  predicate IsCurrent(m: Manager, tab: TabID, taskID: nat) {
    tab in m.tasks && m.tasks[tab].id == taskID
  }

  function Rewrite(m: Manager, tab: TabID, task: Task): Manager {
    m.(tasks := m.tasks[tab := task], rows := Update(m.rows, task))
  }

  /** The tab whose current task has this id, if any. */
  ghost function Holder(m: Manager, taskID: nat): (r: Option<TabID>)
    ensures r.Some? ==> IsCurrent(m, r.value, taskID)
    ensures r.None? ==> forall tab :: !IsCurrent(m, tab, taskID)
  {
    if tab: TabID :| IsCurrent(m, tab, taskID) then Some(tab) else None
  }

  ghost function Assess(m: Manager, taskID: nat, now: Time): Manager {
    match Holder(m, taskID)
    case None => m
    case Some(tab) => Rewrite(m, tab, m.tasks[tab].(state := Completed, completedAt := Some(now)))
  }

  ghost function Rename(m: Manager, taskID: nat, name: string): Manager {
    match Holder(m, taskID)
    case None => m
    case Some(tab) => Rewrite(m, tab, m.tasks[tab].(name := name))
  }

  function AddPendingCall(m: Manager, tab: TabID, call: nat): Manager {
    if tab in m.candidates
    then m.(candidates := m.candidates[tab := m.candidates[tab].(pendingCalls := m.candidates[tab].pendingCalls + [call])])
    else m
  }

  predicate Expired(m: Manager, tab: TabID, now: Time) {
    tab in m.candidates && m.candidates[tab].deadline <= now
  }

  /** One pass over the candidates in the order the map happens to yield. */
  function Expire(m: Manager, order: seq<TabID>, now: Time): Manager
    decreases |order|
  {
    if order == [] then m
    else Expire(if Expired(m, order[0], now) then Promote(m, order[0], AutoConfirmed, now) else m, order[1..], now)
  }

  ghost function CheckGracePeriods(m: Manager, order: seq<TabID>, now: Time): Manager {
    if m.closed then m else Schedule(Expire(m, order, now))
  }

  // ----- Runs -----

  datatype Event =
    | CallArrives(headers: Headers, now: Time)
    | CallRecorded(call: nat, filed: Assignment)
    | CallPending(tab: TabID, call: nat)
    | UserConfirms(tab: TabID, candidateID: Option<nat>, now: Time)
    | UserStarts(tab: TabID, name: string, now: Time)
    | UserDismisses(tab: TabID, candidateID: Option<nat>)
    | UserAssesses(taskID: nat, now: Time)
    | UserRenames(taskID: nat, name: string)
    | TimerFires(order: seq<TabID>, now: Time)
    | Close

  ghost function Step(m: Manager, e: Event, settings: Settings): Manager {
    match e
    case CallArrives(h, now) => ProcessCall(m, h, now, settings)
    case CallRecorded(call, filed) => m.(calls := if call in m.calls then m.calls else m.calls[call := TaskColumn(filed)])
    case CallPending(tab, call) => AddPendingCall(m, tab, call)
    case UserConfirms(tab, candidateID, now) => Confirm(m, tab, candidateID, now)
    case UserStarts(tab, name, now) => StartTask(m, tab, name, now)
    case UserDismisses(tab, candidateID) => Dismiss(m, tab, candidateID)
    case UserAssesses(taskID, now) => Assess(m, taskID, now)
    case UserRenames(taskID, name) => Rename(m, taskID, name)
    case TimerFires(order, now) => CheckGracePeriods(m, order, now)
    case Close => m.(closed := true, armed := None)
  }

  ghost function Run(events: seq<Event>, settings: Settings): Manager {
    if events == [] then NEW_MANAGER
    else Step(Run(events[..|events| - 1], settings), events[|events| - 1], settings)
  }

  // ----- The invariant -----

  ghost predicate Identified(m: Manager) {
    && (forall id | id in m.rows :: id < m.drawn && m.rows[id].id == id)
    && (forall tab | tab in m.candidates :: m.candidates[tab].id < m.drawn && m.candidates[tab].tab == tab)
  }

  /** The tab's task is a row, and only it can be an active row of the tab. */
  ghost predicate Agrees(m: Manager) {
    && (forall tab | tab in m.tasks :: Mirrored(m, tab))
    && (forall id | id in m.rows && m.rows[id].state == Active :: IsCurrent(m, m.rows[id].tab, id))
  }

  predicate Mirrored(m: Manager, tab: TabID)
    requires tab in m.tasks
  {
    var task := m.tasks[tab];
    task.tab == tab && task.state != Abandoned && task.id in m.rows && m.rows[task.id] == task
  }

  predicate FromCandidate(task: Task, candidateID: nat) {
    task.candidateID == Some(candidateID)
  }

  /** No candidate has become two tasks. */
  ghost predicate TasksOfCandidates(rows: map<nat, Task>, drawn: nat) {
    && (forall id, c: nat | id in rows && FromCandidate(rows[id], c) :: c < drawn)
    && (forall a, b, c: nat | a in rows && b in rows && FromCandidate(rows[a], c) && FromCandidate(rows[b], c) :: a == b)
  }

  ghost predicate DistinctCandidates(candidates: map<TabID, Candidate>) {
    forall t, u | t in candidates && u in candidates && candidates[t].id == candidates[u].id :: t == u
  }

  /** No pending candidate has become a task yet. */
  ghost predicate Unspent(rows: map<nat, Task>, candidates: map<TabID, Candidate>) {
    forall id, tab | id in rows && tab in candidates :: !FromCandidate(rows[id], candidates[tab].id)
  }

  ghost predicate SpentOnce(m: Manager) {
    TasksOfCandidates(m.rows, m.drawn) && DistinctCandidates(m.candidates) && Unspent(m.rows, m.candidates)
  }

  ghost predicate TimerRight(m: Manager) {
    m.armed == if m.closed then None else Earliest(m.candidates)
  }

  ghost predicate Inv(m: Manager) {
    Identified(m) && Agrees(m) && SpentOnce(m) && TimerRight(m)
  }

  // ----- Every piece of a step keeps it -----

  /** What is asked of a state between the pieces of one event. */
  ghost predicate Sound(m: Manager) {
    Identified(m) && Agrees(m) && SpentOnce(m)
  }

  lemma ScheduleSound(m: Manager)
    requires Sound(m)
    ensures Inv(Schedule(m))
  {
    hide Earliest;
  }

  /** After abandoning, no row of the tab is active. */
  lemma AbandonRows(m: Manager, tab: TabID, now: Time)
    requires Identified(m) && Agrees(m)
    ensures var r := Abandon(m, tab, now);
            && r == m.(rows := r.rows) && r.rows.Keys == m.rows.Keys
            && (forall id | id in m.rows :: r.rows[id] == if m.rows[id].tab == tab && m.rows[id].state == Active
                  then m.rows[id].(state := Abandoned, completedAt := Some(now)) else m.rows[id])
  {
    forall id | id in m.rows && m.rows[id].tab == tab && m.rows[id].state == Active
      ensures tab in m.tasks && m.tasks[tab].id == id
    {
      assert IsCurrent(m, tab, id);
    }
    if tab in m.tasks {
      assert Mirrored(m, tab);
      hide Agrees, Identified, IsCurrent;
      UpdateEffect(m.rows, m.tasks[tab].(state := Abandoned, completedAt := Some(now)));
      hide Update;
    }
    hide Agrees, Identified;
  }

  lemma UpdateEffect(rows: map<nat, Task>, task: Task)
    requires task.id in rows
    requires task == rows[task.id].(name := task.name, state := task.state, completedAt := task.completedAt)
    ensures Update(rows, task) == rows[task.id := task]
  {
  }

  /** `n` is `m` with the tab's active row abandoned and its candidate gone. */
  ghost predicate Cleared(m: Manager, n: Manager, tab: TabID) {
    && n.tasks == m.tasks && n.drawn == m.drawn && n.candidates == m.candidates - {tab}
    && n.rows.Keys == m.rows.Keys
    && (forall id | id in m.rows :: SameRow(m.rows[id], n.rows[id], tab))
  }

  predicate SameRow(before: Task, after: Task, tab: TabID) {
    && after.id == before.id && after.tab == before.tab && after.candidateID == before.candidateID
    && (before.tab == tab ==> after.state != Active)
    && (before.tab != tab ==> after == before)
  }

  lemma AbandonClears(m: Manager, tab: TabID, now: Time)
    requires Identified(m) && Agrees(m)
    ensures Cleared(m, Abandon(m, tab, now).(candidates := m.candidates - {tab}), tab)
  {
    AbandonRows(m, tab, now);
    hide Abandon, Identified, Agrees;
  }

  predicate Installable(m: Manager, task: Task) {
    && task.id == m.drawn && task.state == Active
    && (task.candidateID.Some? ==> task.tab in m.candidates && task.candidateID == Some(m.candidates[task.tab].id))
  }

  lemma InstallAgrees(m: Manager, n: Manager, task: Task)
    requires Identified(m) && Agrees(m) && Cleared(m, n, task.tab) && Installable(m, task)
    ensures Agrees(Install(n, task))
  {
    var r := Install(n, task);
    forall tab | tab in r.tasks
      ensures Mirrored(r, tab)
    {
      if tab != task.tab {
        assert Mirrored(m, tab);
      }
    }
    forall id | id in r.rows && r.rows[id].state == Active
      ensures IsCurrent(r, r.rows[id].tab, id)
    {
      if id != task.id {
        assert SameRow(m.rows[id], n.rows[id], task.tab);
        assert IsCurrent(m, m.rows[id].tab, id);
      }
    }
  }

  /** Rows that keep their origin. */
  lemma SameOrigins(a: Manager, b: Manager)
    requires SpentOnce(a) && a.drawn <= b.drawn && b.rows.Keys == a.rows.Keys
    requires forall id | id in a.rows :: b.rows[id].candidateID == a.rows[id].candidateID
    requires forall tab | tab in b.candidates :: tab in a.candidates && b.candidates[tab].id == a.candidates[tab].id
    ensures SpentOnce(b)
  {
    assert forall id, c: nat | id in a.rows :: FromCandidate(b.rows[id], c) == FromCandidate(a.rows[id], c);
    assert TasksOfCandidates(b.rows, b.drawn);
    assert DistinctCandidates(b.candidates);
    hide TasksOfCandidates, DistinctCandidates, FromCandidate;
    assert Unspent(b.rows, b.candidates);
  }

  /** A new row from a candidate that is neither pending nor spent. */
  lemma NewOrigin(rows: map<nat, Task>, candidates: map<TabID, Candidate>, task: Task, drawn: nat)
    requires TasksOfCandidates(rows, drawn) && Unspent(rows, candidates) && task.id !in rows
    requires forall c: nat | FromCandidate(task, c) :: c < drawn
    requires forall id, c: nat | id in rows && FromCandidate(task, c) :: !FromCandidate(rows[id], c)
    requires forall tab | tab in candidates :: !FromCandidate(task, candidates[tab].id)
    ensures TasksOfCandidates(rows[task.id := task], drawn + 1) && Unspent(rows[task.id := task], candidates)
  {
  }

  lemma InstallSpentOnce(m: Manager, n: Manager, task: Task)
    requires Identified(m) && SpentOnce(m) && Cleared(m, n, task.tab) && Installable(m, task)
    ensures SpentOnce(Install(n, task))
  {
    forall id | id in m.rows
      ensures n.rows[id].candidateID == m.rows[id].candidateID
    {
      assert SameRow(m.rows[id], n.rows[id], task.tab);
    }
    SameOrigins(m, n);
    assert task.id !in n.rows;
    forall c: nat | FromCandidate(task, c)
      ensures c < m.drawn && forall id | id in n.rows :: !FromCandidate(n.rows[id], c)
    {
      assert c == m.candidates[task.tab].id;
      assert forall id | id in n.rows :: FromCandidate(n.rows[id], c) == FromCandidate(m.rows[id], c);
    }
    assert forall tab | tab in n.candidates :: !FromCandidate(task, n.candidates[tab].id);
    hide Cleared, Identified, Unspent, TasksOfCandidates, DistinctCandidates;
    NewOrigin(n.rows, n.candidates, task, m.drawn);
  }

  /** Installing a new active task on a tab none of whose rows are left active. */
  lemma InstallSound(m: Manager, n: Manager, task: Task)
    requires Sound(m) && Cleared(m, n, task.tab) && Installable(m, task)
    ensures Sound(Install(n, task))
  {
    InstallAgrees(m, n, task);
    InstallSpentOnce(m, n, task);
    assert forall id | id in m.rows :: SameRow(m.rows[id], n.rows[id], task.tab);
    hide Agrees, SpentOnce, SameRow;
  }

  lemma PromoteSound(m: Manager, tab: TabID, start: StartMethod, now: Time)
    requires Sound(m) && tab in m.candidates
    ensures Sound(Promote(m, tab, start, now))
  {
    var c := m.candidates[tab];
    assert c.(tab := tab) == c;
    var repointed := m.(calls := Repoint(m.calls, c.pendingCalls, m.drawn));
    var n := Abandon(repointed, tab, now).(candidates := m.candidates - {tab});
    var task := Promoted(c, m.drawn, start, now);
    assert Installable(m, task) && task.tab == tab;
    assert Promote(m, tab, start, now) == Install(n, task);
    SoundIgnoresCalls(m, repointed);
    AbandonClears(repointed, tab, now);
    assert Cleared(m, n, tab);
    hide *;
    InstallSound(m, n, task);
  }

  /** Only tasks, candidates, rows and the identifiers drawn matter. */
  lemma SoundIgnoresCalls(a: Manager, b: Manager)
    requires Sound(a)
    requires b.tasks == a.tasks && b.candidates == a.candidates && b.rows == a.rows && b.drawn == a.drawn
    ensures Sound(b)
  {
    AgreesIgnoresCandidates(a, b);
    hide Agrees;
  }

  lemma CreateTaskSound(m: Manager, h: Headers, now: Time)
    requires Sound(m)
    ensures Inv(CreateTask(m, h, now))
  {
    var n := Abandon(m, h.tab, now).(candidates := m.candidates - {h.tab});
    var task := Task(m.drawn, None, h.tab, h.session, h.project, h.name, Active, Manual, ManualStart, now, None);
    AbandonClears(m, h.tab, now);
    assert Cleared(m, Schedule(n), h.tab);
    assert Installable(m, task);
    var r := Install(Schedule(n), task);
    assert TimerRight(r);
    assert CreateTask(m, h, now) == r;
    hide *;
    InstallSound(m, Schedule(n), task);
    assert Inv(r) by { SoundAndTimed(r); }
  }

  lemma SoundAndTimed(m: Manager)
    requires Sound(m) && TimerRight(m)
    ensures Inv(m)
  {
  }

  lemma AgreesIgnoresCandidates(a: Manager, b: Manager)
    requires Agrees(a) && b.tasks == a.tasks && b.rows == a.rows
    ensures Agrees(b)
  {
    forall tab | tab in b.tasks
      ensures Mirrored(b, tab)
    {
      assert Mirrored(a, tab);
    }
    forall id | id in b.rows && b.rows[id].state == Active
      ensures IsCurrent(b, b.rows[id].tab, id)
    {
      assert IsCurrent(a, a.rows[id].tab, id);
    }
  }

  lemma NewCandidateSpentOnce(m: Manager, c: Candidate)
    requires Identified(m) && SpentOnce(m) && c.id == m.drawn && c.tab !in m.candidates
    ensures TasksOfCandidates(m.rows, m.drawn + 1)
    ensures DistinctCandidates(m.candidates[c.tab := c]) && Unspent(m.rows, m.candidates[c.tab := c])
  {
    assert forall tab | tab in m.candidates :: m.candidates[tab].id < c.id;
    assert forall id | id in m.rows :: !FromCandidate(m.rows[id], c.id);
    hide FromCandidate;
  }

  lemma CreateCandidateSound(m: Manager, h: Headers, trigger: Trigger, now: Time, settings: Settings)
    requires Inv(m)
    ensures Inv(CreateCandidate(m, h, trigger, now, settings))
  {
    if h.tab !in m.candidates {
      var r := CreateCandidate(m, h, trigger, now, settings);
      var c := Proposal(m, h, trigger, now, settings);
      assert r.candidates == m.candidates[c.tab := c] && r.drawn == m.drawn + 1 && r.rows == m.rows && c.id == m.drawn;
      AgreesIgnoresCandidates(m, r);
      NewCandidateSpentOnce(m, c);
      assert TimerRight(r);
      hide Agrees, TasksOfCandidates, DistinctCandidates, Unspent, TimerRight, CreateCandidate, Proposal;
    }
  }

  lemma RemoveCandidateSound(m: Manager, tab: TabID, n: Manager)
    requires Sound(m)
    requires n.tasks == m.tasks && n.rows == m.rows && n.drawn == m.drawn && n.candidates == m.candidates - {tab}
    ensures Sound(n)
  {
    AgreesIgnoresCandidates(m, n);
    SameOrigins(m, n);
    hide Agrees, SpentOnce;
  }

  lemma DismissSound(m: Manager, tab: TabID, candidateID: Option<nat>)
    requires Inv(m)
    ensures Inv(Dismiss(m, tab, candidateID))
  {
    if Names(m, tab, candidateID) {
      var r := Dismiss(m, tab, candidateID);
      assert TimerRight(r);
      hide Repoint, Earliest, Identified, Agrees, SpentOnce, TimerRight;
      RemoveCandidateSound(m, tab, r);
    }
  }

  predicate Rewritable(m: Manager, tab: TabID, task: Task) {
    && tab in m.tasks && task.state != Abandoned && (task.state == Active ==> m.tasks[tab].state == Active)
    && task == m.tasks[tab].(name := task.name, state := task.state, completedAt := task.completedAt)
  }

  lemma RewriteEffect(m: Manager, tab: TabID, task: Task)
    requires Agrees(m) && Rewritable(m, tab, task)
    ensures Rewrite(m, tab, task) == m.(tasks := m.tasks[tab := task], rows := m.rows[task.id := task])
    ensures task.id in m.rows && m.rows[task.id] == m.tasks[tab]
  {
    assert Mirrored(m, tab);
    hide Agrees;
    UpdateEffect(m.rows, task);
  }

  lemma RewriteAgrees(m: Manager, tab: TabID, task: Task)
    requires Agrees(m) && Rewritable(m, tab, task)
    ensures Agrees(Rewrite(m, tab, task))
  {
    RewriteEffect(m, tab, task);
    var r := Rewrite(m, tab, task);
    assert task.tab == tab by {
      assert Mirrored(m, tab);
    }
    hide Rewrite;
    forall t | t in r.tasks
      ensures Mirrored(r, t)
    {
      assert Mirrored(m, t);
    }
    forall id | id in r.rows && r.rows[id].state == Active
      ensures IsCurrent(r, r.rows[id].tab, id)
    {
      assert IsCurrent(m, m.rows[id].tab, id);
    }
  }

  lemma RewriteSound(m: Manager, tab: TabID, task: Task)
    requires Inv(m) && Rewritable(m, tab, task)
    ensures Inv(Rewrite(m, tab, task))
  {
    RewriteAgrees(m, tab, task);
    RewriteEffect(m, tab, task);
    var r := Rewrite(m, tab, task);
    assert task.candidateID == m.tasks[tab].candidateID && task.id == m.tasks[tab].id;
    hide Agrees, Rewrite, Earliest, SpentOnce, Rewritable;
    assert forall id | id in m.rows :: r.rows[id].candidateID == m.rows[id].candidateID && r.rows[id].id == m.rows[id].id;
    SameOrigins(m, r);
  }

  lemma AddPendingCallSound(m: Manager, tab: TabID, call: nat)
    requires Inv(m)
    ensures Inv(AddPendingCall(m, tab, call))
  {
    if tab in m.candidates {
      var r := AddPendingCall(m, tab, call);
      assert Agrees(r) by {
        SoundIgnoresCalls(m, r.(candidates := m.candidates));
        AgreesIgnoresCandidates(r.(candidates := m.candidates), r);
      }
      hide Agrees;
      assert forall t | t in r.candidates :: t in m.candidates && r.candidates[t].id == m.candidates[t].id
                                             && r.candidates[t].tab == m.candidates[t].tab
                                             && r.candidates[t].deadline == m.candidates[t].deadline;
      assert r.armed == m.armed && r.closed == m.closed && r.rows == m.rows && r.drawn == m.drawn;
      EarliestOf(m.candidates, r.candidates);
      hide Earliest, AddPendingCall, SpentOnce;
      SameOrigins(m, r);
    }
  }

  lemma EarliestIsUnique(s: Time, t: Time, candidates: map<TabID, Candidate>)
    requires IsEarliest(s, candidates) && IsEarliest(t, candidates)
    ensures s == t
  {
  }

  lemma EarliestOf(a: map<TabID, Candidate>, b: map<TabID, Candidate>)
    requires a.Keys == b.Keys && forall tab | tab in a :: a[tab].deadline == b[tab].deadline
    ensures Earliest(a) == Earliest(b)
  {
    if a != map[] {
      var tab :| tab in a;
      assert tab in b && b != map[];
      var t := Earliest(a).value;
      assert IsEarliest(t, b) by {
        var holder :| holder in a && a[holder].deadline == t;
        assert holder in b && b[holder].deadline == t;
      }
      EarliestIsUnique(t, Earliest(b).value, b);
    } else {
      assert a.Keys == {};
      assert b == map[];
    }
  }

  lemma {:induction false} ExpireSound(m: Manager, order: seq<TabID>, now: Time)
    requires Sound(m)
    ensures Sound(Expire(m, order, now))
    decreases |order|
  {
    if order != [] {
      var next := if Expired(m, order[0], now) then Promote(m, order[0], AutoConfirmed, now) else m;
      if Expired(m, order[0], now) {
        PromoteSound(m, order[0], AutoConfirmed, now);
      }
      hide Sound, Promote;
      ExpireSound(next, order[1..], now);
    }
  }

  lemma ProcessCallSound(m: Manager, h: Headers, now: Time, settings: Settings)
    requires Inv(m)
    ensures Inv(ProcessCall(m, h, now, settings))
  {
    var dismissed := if h.dismissCandidate.Some? then Dismiss(m, h.tab, h.dismissCandidate) else m;
    DismissSound(m, h.tab, h.dismissCandidate);
    hide Dismiss;
    if h.newTask {
      CreateTaskSound(dismissed, h, now);
    } else {
      var trigger := DetectTrigger(dismissed, h, now, settings);
      var proposed := if trigger.Some? then CreateCandidate(dismissed, h, trigger.value, now, settings) else dismissed;
      if trigger.Some? {
        CreateCandidateSound(dismissed, h, trigger.value, now, settings);
      }
      var r := ProcessCall(m, h, now, settings);
      assert r == proposed.(lastActivity := r.lastActivity, lastProject := r.lastProject, lastSession := r.lastSession);
      hide CreateCandidate, ProcessCall, DetectTrigger;
      SoundIgnoresCalls(proposed, r);
      assert TimerRight(r);
    }
  }

  lemma StepKeepsInvariant(m: Manager, e: Event, settings: Settings)
    requires Inv(m)
    ensures Inv(Step(m, e, settings))
  {
    match e {
      case CallArrives(h, now) => ProcessCallSound(m, h, now, settings);
      case CallRecorded(_, _) => SoundIgnoresCalls(m, Step(m, e, settings));
      case CallPending(tab, call) => AddPendingCallSound(m, tab, call);
      case UserConfirms(tab, candidateID, now) =>
        if Names(m, tab, candidateID) {
          PromoteSound(m, tab, UserConfirmed, now);
          ScheduleSound(Promote(m, tab, UserConfirmed, now));
        }
      case UserStarts(tab, name, now) =>
        var (session, project) := if tab in m.tasks then (m.tasks[tab].session, m.tasks[tab].project) else ("", "");
        CreateTaskSound(m, Headers(tab, session, project, name, true, None), now);
      case UserDismisses(tab, candidateID) => DismissSound(m, tab, candidateID);
      case UserAssesses(taskID, now) =>
        var holder := Holder(m, taskID);
        if holder.Some? {
          RewriteSound(m, holder.value, m.tasks[holder.value].(state := Completed, completedAt := Some(now)));
        }
      case UserRenames(taskID, name) =>
        var holder := Holder(m, taskID);
        if holder.Some? {
          assert Mirrored(m, holder.value);
          RewriteSound(m, holder.value, m.tasks[holder.value].(name := name));
        }
      case TimerFires(order, now) =>
        if !m.closed {
          ExpireSound(m, order, now);
          ScheduleSound(Expire(m, order, now));
        }
      case Close => SoundIgnoresCalls(m, Step(m, e, settings));
    }
    hide Identified, Agrees, SpentOnce, Earliest, ProcessCall, AddPendingCall, Promote, CreateTask, Dismiss, Rewrite,
      Expire, Schedule, Holder;
  }

  /** Over every run. */
  lemma {:induction false} RunKeepsInvariant(events: seq<Event>, settings: Settings)
    ensures Inv(Run(events, settings))
  {
    if events != [] {
      RunKeepsInvariant(events[..|events| - 1], settings);
      hide Inv, Step;
      StepKeepsInvariant(Run(events[..|events| - 1], settings), events[|events| - 1], settings);
    }
  }

  // ----- Memory and database agree -----

  predicate ActiveRow(m: Manager, id: nat, tab: TabID) {
    id in m.rows && m.rows[id].state == Active && m.rows[id].tab == tab
  }

  /** In every reachable state the active rows of a tab are exactly its current
      task when that is active, and so at most one. */
  lemma ActiveRowIsCurrentTask(events: seq<Event>, settings: Settings, tab: TabID, id: nat)
    ensures var m := Run(events, settings);
            && (ActiveRow(m, id, tab) <==> IsCurrent(m, tab, id) && m.tasks[tab].state == Active)
            && (IsCurrent(m, tab, id) ==> id in m.rows && m.rows[id] == m.tasks[tab])
  {
    RunKeepsInvariant(events, settings);
    var m := Run(events, settings);
    hide Run;
    if IsCurrent(m, tab, id) {
      assert Mirrored(m, tab);
    }
    hide Identified, SpentOnce, TimerRight;
  }

  /** The answer names the candidate that waits on the tab; without one, the task whose
      row is the tab's active one; and nothing if there is neither. */
  lemma AssignmentMeans(m: Manager, tab: TabID)
    requires Inv(m)
    ensures var filed := AssignmentOf(m, tab);
            && (forall c :: filed == ToCandidate(c) <==> tab in m.candidates && m.candidates[tab].id == c)
            && (forall id :: filed == ToTask(id) <==> tab !in m.candidates && ActiveRow(m, id, tab))
            && (filed == NoTask <==> tab !in m.candidates && forall id :: !ActiveRow(m, id, tab))
  {
    forall id
      ensures ActiveRow(m, id, tab) <==> IsCurrent(m, tab, id) && m.tasks[tab].state == Active
    {
      if ActiveRow(m, id, tab) {
        assert IsCurrent(m, m.rows[id].tab, id);
        assert Mirrored(m, tab);
      } else if IsCurrent(m, tab, id) {
        assert Mirrored(m, tab);
      }
    }
    hide Inv, ActiveRow;
    if tab in m.tasks {
      assert IsCurrent(m, tab, m.tasks[tab].id);
    }
  }

  predicate BecameTask(m: Manager, candidateID: nat, id: nat) {
    id in m.rows && FromCandidate(m.rows[id], candidateID)
  }

  /** No candidate ever becomes two tasks, and none that still waits has become one. */
  lemma CandidateBecomesOneTask(events: seq<Event>, settings: Settings, candidateID: nat, a: nat, b: nat)
    ensures var m := Run(events, settings);
            && (BecameTask(m, candidateID, a) && BecameTask(m, candidateID, b) ==> a == b)
            && (BecameTask(m, candidateID, a) ==> forall tab | tab in m.candidates :: m.candidates[tab].id != candidateID)
  {
    RunKeepsInvariant(events, settings);
    hide Run, Identified, Agrees, TimerRight, FromCandidate;
  }

  // ----- Completed and abandoned are final -----

  predicate RowEvolves(before: Task, after: Task, assessed: Option<nat>) {
    && after.id == before.id && after.tab == before.tab && after.candidateID == before.candidateID
    && (before.state != Active ==> after.state == before.state)
    && (before.state == Active && assessed != Some(before.id) ==> after.state != Completed)
  }

  ghost predicate RowsEvolve(a: Manager, b: Manager, assessed: Option<nat>) {
    forall id | id in a.rows :: id in b.rows && RowEvolves(a.rows[id], b.rows[id], assessed)
  }

  function Assessed(e: Event): Option<nat> {
    if e.UserAssesses? then Some(e.taskID) else None
  }

  lemma RowsEvolveTransitive(a: Manager, b: Manager, c: Manager)
    requires RowsEvolve(a, b, None) && RowsEvolve(b, c, None)
    ensures RowsEvolve(a, c, None)
  {
  }

  lemma InstallEvolves(m: Manager, n: Manager, task: Task, now: Time)
    requires Sound(m) && task.id == m.drawn && n.rows == Abandon(m, task.tab, now).rows
    ensures RowsEvolve(m, Install(n, task), None)
  {
    AbandonRows(m, task.tab, now);
    hide Abandon, Agrees, SpentOnce;
  }

  lemma PromoteEvolves(m: Manager, tab: TabID, start: StartMethod, now: Time)
    requires Sound(m) && tab in m.candidates
    ensures RowsEvolve(m, Promote(m, tab, start, now), None)
  {
    var c := m.candidates[tab];
    var repointed := m.(calls := Repoint(m.calls, c.pendingCalls, m.drawn));
    var n := Abandon(repointed, tab, now).(candidates := m.candidates - {tab});
    assert n.rows == Abandon(m, tab, now).rows;
    hide Repoint, Sound, Abandon;
    InstallEvolves(m, n, Promoted(c.(tab := tab), m.drawn, start, now), now);
  }

  lemma {:induction false} ExpireEvolves(m: Manager, order: seq<TabID>, now: Time)
    requires Sound(m)
    ensures RowsEvolve(m, Expire(m, order, now), None)
    decreases |order|
  {
    if order != [] {
      var next := if Expired(m, order[0], now) then Promote(m, order[0], AutoConfirmed, now) else m;
      if Expired(m, order[0], now) {
        PromoteSound(m, order[0], AutoConfirmed, now);
        PromoteEvolves(m, order[0], AutoConfirmed, now);
      }
      hide Sound, Promote;
      ExpireEvolves(next, order[1..], now);
      RowsEvolveTransitive(m, next, Expire(m, order, now));
    }
  }

  lemma CreateTaskEvolves(m: Manager, h: Headers, now: Time)
    requires Sound(m)
    ensures RowsEvolve(m, CreateTask(m, h, now), None)
  {
    var n := Schedule(Abandon(m, h.tab, now).(candidates := m.candidates - {h.tab}));
    assert n.rows == Abandon(m, h.tab, now).rows;
    hide Sound, Abandon, Schedule;
    InstallEvolves(m, n, Task(m.drawn, None, h.tab, h.session, h.project, h.name, Active, Manual, ManualStart, now, None), now);
  }

  lemma DismissKeepsTasks(m: Manager, tab: TabID, candidateID: Option<nat>)
    ensures Dismiss(m, tab, candidateID).rows == m.rows && Dismiss(m, tab, candidateID).tasks == m.tasks
  {
  }

  lemma SameRowsEvolve(m: Manager, r: Manager, assessed: Option<nat>)
    requires r.rows == m.rows
    ensures RowsEvolve(m, r, assessed)
  {
  }

  lemma RewriteEvolves(m: Manager, taskID: nat, task: Task)
    requires Inv(m) && Holder(m, taskID).Some? && task.state != Abandoned
    requires var before := m.tasks[Holder(m, taskID).value];
             && task == before.(name := task.name, state := task.state, completedAt := task.completedAt)
             && (before.state == Completed ==> task.state == Completed)
    ensures var r := Rewrite(m, Holder(m, taskID).value, task);
            && RowsEvolve(m, r, Some(taskID))
            && (task.state == m.tasks[Holder(m, taskID).value].state ==> RowsEvolve(m, r, None))
  {
    var tab := Holder(m, taskID).value;
    assert Mirrored(m, tab);
    var r := Rewrite(m, tab, task);
    assert r.rows == m.rows[taskID := task] && m.rows[taskID] == m.tasks[tab];
    hide Inv, Rewrite, Holder;
  }

  lemma ProcessCallEvolves(m: Manager, h: Headers, now: Time, settings: Settings)
    requires Inv(m)
    ensures RowsEvolve(m, ProcessCall(m, h, now, settings), None)
  {
    hide Identified, Agrees, SpentOnce, Earliest, IsEarliest, CreateTask, Dismiss, DetectTrigger, Proposal, RowEvolves;
    var dismissed := if h.dismissCandidate.Some? then Dismiss(m, h.tab, h.dismissCandidate) else m;
    DismissKeepsTasks(m, h.tab, h.dismissCandidate);
    DismissSound(m, h.tab, h.dismissCandidate);
    CreateTaskEvolves(dismissed, h, now);
    var r := ProcessCall(m, h, now, settings);
    if !h.newTask {
      assert r.rows == m.rows;
      SameRowsEvolve(m, r, None);
    } else {
      assert r == CreateTask(dismissed, h, now) && dismissed.rows == m.rows;
    }
  }

  lemma AssessmentCompletes(m: Manager, id: nat, now: Time)
    requires Inv(m) && id in m.rows && m.rows[id].state == Active
    ensures var r := Assess(m, id, now); id in r.rows && r.rows[id].state == Completed
  {
    assert IsCurrent(m, m.rows[id].tab, id);
    var holder := Holder(m, id);
    assert holder.Some?;
    assert Mirrored(m, holder.value);
  }

  /** A completed or abandoned task stays what it is; an active one is abandoned
      exactly when another task takes its place, and completed by assessment alone. */
  lemma TaskStatesAreFinal(m: Manager, e: Event, settings: Settings, id: nat)
    requires Inv(m) && id in m.rows
    ensures var r := Step(m, e, settings);
            && id in r.rows && RowEvolves(m.rows[id], r.rows[id], Assessed(e))
            && (m.rows[id].state == Active ==>
                  && (r.rows[id].state == Abandoned <==> !IsCurrent(r, m.rows[id].tab, id))
                  && (r.rows[id].state == Completed <==> Assessed(e) == Some(id)))
  {
    var r := Step(m, e, settings);
    StepEvolves(m, e, settings);
    StepKeepsInvariant(m, e, settings);
    if m.rows[id].state == Active {
      if Assessed(e) == Some(id) {
        AssessmentCompletes(m, id, e.now);
      }
      StaysCurrent(m, e, settings, id);
    }
    hide Step;
    assert m.rows[id].id == id;
    hide SpentOnce, TimerRight, Identified;
    if r.rows[id].state == Active {
      assert IsCurrent(r, r.rows[id].tab, id);
    } else if IsCurrent(r, m.rows[id].tab, id) {
      assert Mirrored(r, m.rows[id].tab);
    }
  }

  /** Assessment leaves the task in its place. */
  lemma StaysCurrent(m: Manager, e: Event, settings: Settings, id: nat)
    requires Inv(m) && id in m.rows && m.rows[id].state == Active
    ensures Assessed(e) == Some(id) ==> IsCurrent(Step(m, e, settings), m.rows[id].tab, id)
  {
    if Assessed(e) == Some(id) {
      assert IsCurrent(m, m.rows[id].tab, id);
      var holder := Holder(m, id);
      assert holder.Some?;
      assert Mirrored(m, holder.value);
      hide Inv;
    }
  }

  lemma StepEvolves(m: Manager, e: Event, settings: Settings)
    requires Inv(m)
    ensures RowsEvolve(m, Step(m, e, settings), Assessed(e))
  {
    hide Identified, Agrees, SpentOnce, TimerRight, Earliest, IsEarliest, ProcessCall, Promote, CreateTask, Dismiss,
      Expire, RowsEvolve, AddPendingCall, Rewrite;
    var r := Step(m, e, settings);
    match e {
      case CallArrives(h, now) => ProcessCallEvolves(m, h, now, settings);
      case UserConfirms(tab, candidateID, now) =>
        if Names(m, tab, candidateID) {
          PromoteEvolves(m, tab, UserConfirmed, now);
          SameRowsThen(m, Promote(m, tab, UserConfirmed, now), r);
        } else {
          SameRowsEvolve(m, r, None);
        }
      case UserStarts(tab, name, now) =>
        var (session, project) := if tab in m.tasks then (m.tasks[tab].session, m.tasks[tab].project) else ("", "");
        CreateTaskEvolves(m, Headers(tab, session, project, name, true, None), now);
      case UserAssesses(taskID, now) =>
        var holder := Holder(m, taskID);
        if holder.Some? {
          NotAbandoned(m, holder.value);
          RewriteEvolves(m, taskID, m.tasks[holder.value].(state := Completed, completedAt := Some(now)));
        } else {
          SameRowsEvolve(m, r, Assessed(e));
        }
      case UserRenames(taskID, name) =>
        var holder := Holder(m, taskID);
        if holder.Some? {
          NotAbandoned(m, holder.value);
          RewriteEvolves(m, taskID, m.tasks[holder.value].(name := name));
        } else {
          SameRowsEvolve(m, r, None);
        }
      case TimerFires(order, now) =>
        if !m.closed {
          ExpireEvolves(m, order, now);
          SameRowsThen(m, Expire(m, order, now), r);
        } else {
          SameRowsEvolve(m, r, None);
        }
      case UserDismisses(tab, candidateID) =>
        DismissKeepsTasks(m, tab, candidateID);
        SameRowsEvolve(m, r, None);
      case CallPending(tab, call) =>
        assert AddPendingCall(m, tab, call).rows == m.rows by { PendingKeepsRows(m, tab, call); }
        SameRowsEvolve(m, r, None);
      case _ => SameRowsEvolve(m, r, None);
    }
  }

  lemma PendingKeepsRows(m: Manager, tab: TabID, call: nat)
    ensures AddPendingCall(m, tab, call).rows == m.rows
  {
  }

  lemma NotAbandoned(m: Manager, tab: TabID)
    requires Inv(m) && tab in m.tasks
    ensures m.tasks[tab].state != Abandoned
  {
    assert Mirrored(m, tab);
  }

  lemma SameRowsThen(a: Manager, b: Manager, c: Manager)
    requires RowsEvolve(a, b, None) && c.rows == b.rows
    ensures RowsEvolve(a, c, None)
  {
  }
}
