/** When a call proposes a candidate, in terms of the calls that came before it. */
module TaskTriggers {
  import opened Wrappers
  import opened TaskLifecycle

  /** A call that starts a task by hand returns before it is tracked. */
  predicate Tracked(e: Event, tab: TabID) {
    e.CallArrives? && e.headers.tab == tab && !e.headers.newTask
  }

  /** The tab's last tracked call. */
  function LastCall(events: seq<Event>, tab: TabID): (r: Option<Event>)
    ensures r.Some? ==> r.value in events && Tracked(r.value, tab)
  {
    if events == [] then None
    else if Tracked(events[|events| - 1], tab) then Some(events[|events| - 1])
    else LastCall(events[..|events| - 1], tab)
  }

  predicate SameTracking(a: Manager, b: Manager) {
    b.lastActivity == a.lastActivity && b.lastProject == a.lastProject && b.lastSession == a.lastSession
  }

  lemma PromoteKeepsTracking(m: Manager, tab: TabID, start: StartMethod, now: Time)
    requires tab in m.candidates
    ensures SameTracking(m, Promote(m, tab, start, now))
  {
    hide Repoint, Update;
  }

  lemma CreateTaskKeepsTracking(m: Manager, h: Headers, now: Time)
    ensures SameTracking(m, CreateTask(m, h, now))
  {
    hide Earliest, Update;
  }

  lemma CreateCandidateKeepsTracking(m: Manager, h: Headers, trigger: Trigger, now: Time, settings: Settings)
    ensures SameTracking(m, CreateCandidate(m, h, trigger, now, settings))
  {
    hide Earliest, Proposal;
  }

  lemma DismissKeepsTracking(m: Manager, tab: TabID, candidateID: Option<nat>)
    ensures SameTracking(m, Dismiss(m, tab, candidateID))
  {
    hide Earliest, Repoint;
  }

  lemma CorrectionKeepsTracking(m: Manager, e: Event, settings: Settings)
    requires e.UserAssesses? || e.UserRenames?
    ensures SameTracking(m, Step(m, e, settings))
  {
    hide Update, Holder;
  }

  lemma {:induction false} ExpireKeepsTracking(m: Manager, order: seq<TabID>, now: Time)
    ensures SameTracking(m, Expire(m, order, now))
    decreases |order|
  {
    if order != [] {
      var next := if Expired(m, order[0], now) then Promote(m, order[0], AutoConfirmed, now) else m;
      hide Promote;
      if Expired(m, order[0], now) {
        PromoteKeepsTracking(m, order[0], AutoConfirmed, now);
      }
      ExpireKeepsTracking(next, order[1..], now);
    }
  }

  lemma StepTracks(m: Manager, e: Event, settings: Settings)
    ensures var r := Step(m, e, settings);
            if e.CallArrives? && !e.headers.newTask
            then && r.lastActivity == m.lastActivity[e.headers.tab := e.now]
                 && r.lastProject == m.lastProject[e.headers.tab := e.headers.project]
                 && r.lastSession == m.lastSession[e.headers.tab := e.headers.session]
            else SameTracking(m, r)
  {
    hide Earliest, Repoint, DetectTrigger, Abandon, Install, Update, CreateTask, CreateCandidate, Dismiss, Promote, Expire,
      Rewrite, Holder;
    match e {
      case CallArrives(h, now) =>
        DismissKeepsTracking(m, h.tab, h.dismissCandidate);
        var d := if h.dismissCandidate.Some? then Dismiss(m, h.tab, h.dismissCandidate) else m;
        CreateTaskKeepsTracking(d, h, now);
        var trigger := DetectTrigger(d, h, now, settings);
        if trigger.Some? {
          CreateCandidateKeepsTracking(d, h, trigger.value, now, settings);
        }
      case UserConfirms(tab, _, now) =>
        if tab in m.candidates {
          PromoteKeepsTracking(m, tab, UserConfirmed, now);
        }
      case UserStarts(tab, name, now) =>
        var (session, project) := if tab in m.tasks then (m.tasks[tab].session, m.tasks[tab].project) else ("", "");
        CreateTaskKeepsTracking(m, Headers(tab, session, project, name, true, None), now);
      case UserDismisses(tab, candidateID) => DismissKeepsTracking(m, tab, candidateID);
      case UserAssesses(taskID, now) => CorrectionKeepsTracking(m, e, settings);
      case UserRenames(taskID, name) => CorrectionKeepsTracking(m, e, settings);
      case TimerFires(order, now) => ExpireKeepsTracking(m, order, now);
      case _ =>
    }
  }

  /** What the manager remembers of a tab is its last tracked call. */
  lemma {:induction false} RemembersTheLastCall(events: seq<Event>, settings: Settings, tab: TabID)
    ensures var m, last := Run(events, settings), LastCall(events, tab);
            && (tab in m.lastActivity <==> last.Some?)
            && (tab in m.lastProject <==> last.Some?)
            && (tab in m.lastSession <==> last.Some?)
            && (last.Some? ==> && m.lastActivity[tab] == last.value.now
                               && m.lastProject[tab] == last.value.headers.project
                               && m.lastSession[tab] == last.value.headers.session)
  {
    if events != [] {
      var before, e := events[..|events| - 1], events[|events| - 1];
      RemembersTheLastCall(before, settings, tab);
      StepTracks(Run(before, settings), e, settings);
      hide Step;
    }
  }

  /** The reasons for a candidate, by the tab's last tracked call alone. */
  predicate Warranted(t: Trigger, last: Option<Event>, hasTask: bool, h: Headers, now: Time, settings: Settings)
    requires last.Some? ==> last.value.CallArrives?
  {
    match t
    case NewSession => !hasTask && (last.Some? ==> h.session != last.value.headers.session)
    case IdleGap => last.Some? && now - last.value.now > settings.idleTimeout
    case RepoSwitch => last.Some? && h.project != "" && h.project != last.value.headers.project
    case ManualStart => false
  }

  /** The trigger is the first reason there is; without a reason there is none. */
  lemma TriggerIsTheFirstReason(events: seq<Event>, settings: Settings, h: Headers, now: Time)
    ensures var m, last := Run(events, settings), LastCall(events, h.tab);
            var hasTask, r := h.tab in m.tasks, DetectTrigger(m, h, now, settings);
            && (r == Some(NewSession) <==> Warranted(NewSession, last, hasTask, h, now, settings))
            && (r == Some(IdleGap) <==> Warranted(IdleGap, last, hasTask, h, now, settings) && r != Some(NewSession))
            && (r == Some(RepoSwitch) <==> Warranted(RepoSwitch, last, hasTask, h, now, settings)
                                           && r != Some(NewSession) && r != Some(IdleGap))
            && (r == None <==> forall t :: !Warranted(t, last, hasTask, h, now, settings))
  {
    RemembersTheLastCall(events, settings, h.tab);
    hide Run, LastCall;
    var m, last := Run(events, settings), LastCall(events, h.tab);
    var r := DetectTrigger(m, h, now, settings);
    if r.Some? {
      assert Warranted(r.value, last, h.tab in m.tasks, h, now, settings);
    }
  }

  /** A candidate that this event has proposed: its identifier is the next one drawn. */
  predicate Proposed(m: Manager, r: Manager, tab: TabID) {
    tab in r.candidates && r.candidates[tab].id == m.drawn
  }

  predicate Vacant(m: Manager, h: Headers) {
    h.tab !in m.candidates || h.dismissCandidate == Some(m.candidates[h.tab].id)
  }

  lemma DismissalClearsTheWay(m: Manager, h: Headers)
    ensures var d := if h.dismissCandidate.Some? then Dismiss(m, h.tab, h.dismissCandidate) else m;
            && SameTracking(m, d) && d.tasks == m.tasks && d.drawn == m.drawn
            && (h.tab in d.candidates <==> !Vacant(m, h))
            && (h.tab in d.candidates ==> d.candidates[h.tab] == m.candidates[h.tab])
  {
    hide Earliest, Repoint;
  }

  lemma ProposalEffect(m: Manager, h: Headers, trigger: Trigger, now: Time, settings: Settings)
    ensures var r := CreateCandidate(m, h, trigger, now, settings);
            if h.tab in m.candidates then r == m
            else h.tab in r.candidates && r.candidates[h.tab] == Proposal(m, h, trigger, now, settings)
  {
    hide Earliest;
  }

  lemma CallProposes(m: Manager, h: Headers, now: Time, settings: Settings)
    requires Inv(m)
    ensures var r, trigger := Step(m, CallArrives(h, now), settings), DetectTrigger(m, h, now, settings);
            && (Proposed(m, r, h.tab) <==> !h.newTask && Vacant(m, h) && trigger.Some?)
            && (Proposed(m, r, h.tab) ==> r.candidates[h.tab] == Proposal(m, h, trigger.value, now, settings))
  {
    DismissalClearsTheWay(m, h);
    var d := if h.dismissCandidate.Some? then Dismiss(m, h.tab, h.dismissCandidate) else m;
    var trigger := DetectTrigger(m, h, now, settings);
    assert DetectTrigger(d, h, now, settings) == trigger;
    if trigger.Some? {
      ProposalEffect(d, h, trigger.value, now, settings);
    }
    if h.newTask {
      assert h.tab !in CreateTask(d, h, now).candidates by {
        hide Earliest;
      }
    }
    assert h.tab in m.candidates ==> m.candidates[h.tab].id < m.drawn;
    hide Inv, Dismiss, DetectTrigger, CreateCandidate, CreateTask;
  }

  /** Over every run: a call proposes a candidate exactly when it does not start a
      task itself, no other candidate is pending once it has dismissed the one it
      names, and it has a reason; and the candidate carries the first reason. */
  lemma CandidateIsProposedExactlyWhen(events: seq<Event>, settings: Settings, h: Headers, now: Time)
    ensures var m, last := Run(events, settings), LastCall(events, h.tab);
            var r, hasTask := Step(m, CallArrives(h, now), settings), h.tab in m.tasks;
            && (Proposed(m, r, h.tab) <==>
                  !h.newTask && Vacant(m, h) && exists t :: Warranted(t, last, hasTask, h, now, settings))
            && (Proposed(m, r, h.tab) ==> && Warranted(r.candidates[h.tab].trigger, last, hasTask, h, now, settings)
                                          && r.candidates[h.tab].deadline == now + settings.gracePeriod)
  {
    RunKeepsInvariant(events, settings);
    TriggerIsTheFirstReason(events, settings, h, now);
    CallProposes(Run(events, settings), h, now, settings);
    hide Run, Step, Inv, DetectTrigger, LastCall, Vacant;
  }

  lemma ManualStartTakesTheTab(m: Manager, h: Headers, now: Time, settings: Settings)
    requires h.newTask
    ensures var r := Step(m, CallArrives(h, now), settings); h.tab in r.tasks && h.tab !in r.candidates
  {
    hide Earliest, Dismiss;
  }

  predicate SameWork(g: Headers, h: Headers) {
    g.tab == h.tab && g.session == h.session && (h.project == "" || h.project == g.project)
  }

  /** The tab's tracking has aged: by the last call before the manual start, this
      call comes late or from another project. */
  predicate Stale(last: Option<Event>, h: Headers, now: Time, settings: Settings)
    requires last.Some? ==> last.value.CallArrives?
  {
    Warranted(IdleGap, last, true, h, now, settings) || Warranted(RepoSwitch, last, true, h, now, settings)
  }

  lemma LastCallNow(events: seq<Event>, settings: Settings, g: Headers, gNow: Time, tab: TabID)
    requires g.tab == tab
    ensures var all := events + [CallArrives(g, gNow)];
            && LastCall(all, tab) == (if g.newTask then LastCall(events, tab) else Some(CallArrives(g, gNow)))
            && (g.newTask ==> tab in Run(all, settings).tasks && tab !in Run(all, settings).candidates)
  {
    var all := events + [CallArrives(g, gNow)];
    assert all[..|all| - 1] == events && all[|all| - 1] == CallArrives(g, gNow);
    assert Run(all, settings) == Step(Run(events, settings), CallArrives(g, gNow), settings);
    hide Run, Step;
    if g.newTask {
      ManualStartTakesTheTab(Run(events, settings), g, gNow, settings);
    }
  }

  /** A call that goes on with the work of the call just before it, within the idle
      timeout, proposes a candidate exactly when that call was a manual start and
      what was tracked before it is stale. */
  lemma ContinuationIsQuietUnless(events: seq<Event>, settings: Settings, g: Headers, gNow: Time, h: Headers, now: Time)
    requires SameWork(g, h) && !h.newTask && now - gNow <= settings.idleTimeout
    ensures var m := Run(events + [CallArrives(g, gNow)], settings);
            Proposed(m, Step(m, CallArrives(h, now), settings), h.tab) <==>
            Vacant(m, h) && g.newTask && Stale(LastCall(events, h.tab), h, now, settings)
  {
    var all := events + [CallArrives(g, gNow)];
    LastCallNow(events, settings, g, gNow, h.tab);
    CandidateIsProposedExactlyWhen(all, settings, h, now);
    var m, last := Run(all, settings), LastCall(all, h.tab);
    hide Run, Step, LastCall, Vacant, Proposed;
    if g.newTask {
      assert h.tab in m.tasks;
      assert Warranted(IdleGap, last, true, h, now, settings) ==> exists t :: Warranted(t, last, true, h, now, settings);
      assert Warranted(RepoSwitch, last, true, h, now, settings) ==> exists t :: Warranted(t, last, true, h, now, settings);
    } else {
      assert forall t, hasTask :: !Warranted(t, last, hasTask, h, now, settings);
    }
  }

  const IDLE_SETTINGS := Settings(5, 1800)
  const FIRST_CALL := Headers("tab", "s", "p", "n", false, None)
  const MANUAL_CALL := FIRST_CALL.(newTask := true)

  /** A call one second after a manual start is taken for the end of an idle gap. */
  lemma IdleGapAfterOneSecond()
    ensures var events := [CallArrives(FIRST_CALL, 1), CallArrives(MANUAL_CALL, 9000)];
            var m := Run(events, IDLE_SETTINGS);
            var r := Step(m, CallArrives(FIRST_CALL, 9001), IDLE_SETTINGS);
            && Proposed(m, r, "tab") && r.candidates["tab"].trigger == IdleGap
  {
    var first := [CallArrives(FIRST_CALL, 1)];
    var events := [CallArrives(FIRST_CALL, 1), CallArrives(MANUAL_CALL, 9000)];
    assert events == first + [CallArrives(MANUAL_CALL, 9000)];
    assert [] + first == first;
    LastCallNow([], IDLE_SETTINGS, FIRST_CALL, 1, "tab");
    LastCallNow(first, IDLE_SETTINGS, MANUAL_CALL, 9000, "tab");
    hide Run, Step, LastCall;
    assert Warranted(IdleGap, LastCall(events, "tab"), true, FIRST_CALL, 9001, IDLE_SETTINGS);
    CandidateIsProposedExactlyWhen(events, IDLE_SETTINGS, FIRST_CALL, 9001);
  }
}
