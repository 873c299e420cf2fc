/** Frames and a fetched snapshot race for the list of pending requests. Over every
    run: what was last heard of a request decides whether the snapshot removes it. */
module SnapshotRace {
  import opened AnswersShown
  import opened PendingState
  import opened RemoteLink
  import opened Wrappers

  /** The last thing heard of a request since the user's intent was discarded: a frame
      delivered it, or its answer was reported sent. */
  datatype Word = Nothing | Delivered(at: Time) | Resolved(at: Time)

  function LastWord(moves: seq<DeskMove>, id: RequestID): Word {
    if moves == [] then Nothing
    else NextWord(RunDesk(moves[..|moves| - 1]), moves[|moves| - 1], id, LastWord(moves[..|moves| - 1], id))
  }

  function NextWord(d: Desk, m: DeskMove, id: RequestID, word: Word): Word {
    match m
    case ApprovalArrives(a, now) => if a.id == id then Delivered(now) else word
    case LinkMoves(e, _, now) =>
      if e == Disconnect(true) then Nothing
      else if CompletedBy(d.link, e) == Some(id) then Resolved(now)
      else word
    case _ => word
  }

  /** When the fetch began that no admitted snapshot has ended yet. */
  function OpenFetch(moves: seq<DeskMove>): Option<Time> {
    if moves == [] then None
    else
      var before, last := moves[..|moves| - 1], moves[|moves| - 1];
      match last
      case FetchBegins(now) => Some(now)
      case SnapshotArrives(_, _, epoch, version, _, _) =>
        if Admits(RunDesk(before).pending, epoch, version) then None else OpenFetch(before)
      case LinkMoves(e, _, _) => if e == Disconnect(true) then None else OpenFetch(before)
      case _ => OpenFetch(before)
  }

  /** The journals hold the last word, except that old resolutions have been pruned. */
  ghost predicate Noted(r: Reconciler, id: RequestID, word: Word, now: Time) {
    && (id in r.upserted <==> word.Delivered?) && (id in r.upserted ==> r.upserted[id] == word.at)
    && (id in r.resolved ==> word == Resolved(r.resolved[id]))
    && (word.Resolved? && id !in r.resolved ==> now - word.at >= RESOLUTION_RETENTION)
  }

  lemma PruneNotes(r: Reconciler, id: RequestID, word: Word, earlier: Time, now: Time, later: Time)
    requires Noted(r, id, word, earlier) && earlier <= now <= later
    ensures Noted(r.(resolved := Prune(r.resolved, now)), id, word, later)
    ensures Noted(r, id, word, later)
  {
  }

  lemma SnapshotNotes(r: Reconciler, m: DeskMove, busy: set<RequestID>)
    requires m.SnapshotArrives?
    ensures var n := ClientApplies(Admitted(r, m.epoch, m.version), m.payloads, busy, m.prompts, m.now, m.promptsNow);
            && n.resolved == Prune(r.resolved, m.now) && n.upserted == r.upserted
            && n.fetchStartedAt == None
  {
    hide IDs, Selected, Protected, Prune;
  }

  lemma StepNotes(d: Desk, m: DeskMove, id: RequestID, word: Word, earlier: Time)
    requires Noted(d.pending, id, word, earlier) && earlier <= Begins(m) <= Ends(m)
    ensures Noted(StepDesk(d, m).pending, id, NextWord(d, m, id, word), Ends(m))
  {
    assert m.LinkMoves? && m.event.SyncApprovals? ==> CompletedBy(d.link, m.event) == None;
    hide IDs, IndexOf, ApplySnapshot, ApplySnapshotPrompts, Prune, Step, Sync, Busy, CompletedBy;
    PruneNotes(d.pending, id, word, earlier, Begins(m), Ends(m));
    match m {
      case SnapshotArrives(_, _, _, _, _, _) =>
        SnapshotNotes(d.pending, m, Busy(d.link));
        hide ClientApplies;
      case _ =>
    }
  }

  lemma {:induction false} RunNotes(moves: seq<DeskMove>, id: RequestID)
    requires Forward(moves)
    ensures Noted(RunDesk(moves).pending, id, LastWord(moves, id), if moves == [] then 0 else Ends(moves[|moves| - 1]))
  {
    if moves != [] {
      var before, last := moves[..|moves| - 1], moves[|moves| - 1];
      assert Forward(before) && Begins(last) <= Ends(last) && (before != [] ==> Ends(before[|before| - 1]) <= Begins(last));
      RunNotes(before, id);
      StepNotes(RunDesk(before), last, id, LastWord(before, id), if before == [] then 0 else Ends(before[|before| - 1]));
      assert RunDesk(moves) == StepDesk(RunDesk(before), last);
      assert LastWord(moves, id) == NextWord(RunDesk(before), last, id, LastWord(before, id));
      hide *;
    }
  }

  lemma {:induction false} FetchIsOpen(moves: seq<DeskMove>)
    ensures RunDesk(moves).pending.fetchStartedAt == OpenFetch(moves)
  {
    if moves != [] {
      var before, last := moves[..|moves| - 1], moves[|moves| - 1];
      FetchIsOpen(before);
      assert RunDesk(moves) == StepDesk(RunDesk(before), last);
      if last.SnapshotArrives? {
        SnapshotNotes(RunDesk(before).pending, last, Busy(RunDesk(before).link));
      }
      hide IDs, IndexOf, Prune, Step, Sync, Busy, CompletedBy, ClientApplies, RunDesk, Admits;
    }
  }

  /** Over every run on a clock that does not run backwards, when a snapshot is
      admitted: what it lists is pending, with its content, unless its answer was the
      last thing heard of it, less than two minutes ago; and what it does not bring
      stays as it was exactly if it was delivered by a frame since the fetch began, or
      is being answered. Nothing else is pending. */
  lemma SnapshotSettlesTheRace(moves: seq<DeskMove>, m: DeskMove, a: Request)
    requires Forward(moves + [m]) && m.SnapshotArrives? && Admits(RunDesk(moves).pending, m.epoch, m.version)
    ensures var d, word := RunDesk(moves), LastWord(moves, a.id);
            var answered := word.Resolved? && m.now - word.at < RESOLUTION_RETENTION;
            var start := if OpenFetch(moves).Some? then OpenFetch(moves).value else m.now;
            a in RunDesk(moves + [m]).pending.approvals <==>
              || (a in m.payloads && !answered)
              || (&& a in d.pending.approvals && (a.id !in IDs(m.payloads) || answered)
                  && ((word.Delivered? && word.at >= start) || (a.id in d.link.cards && d.link.cards[a.id].IsBusy())))
  {
    var d := RunDesk(moves);
    RunDeskThen(moves, m);
    TimesThen(moves, m);
    RunNotes(moves, a.id);
    FetchIsOpen(moves);
    var admitted := Admitted(d.pending, m.epoch, m.version);
    SnapshotListsExactly(admitted, m.payloads, Busy(d.link), m.now, a);
    assert RunDesk(moves + [m]).pending.approvals == ApplySnapshot(admitted, m.payloads, Busy(d.link), m.now).approvals by {
      hide IDs, ApplySnapshot, Busy, Admits;
    }
    assert ResolvedLately(admitted, a.id, m.now) <==>
             LastWord(moves, a.id).Resolved? && m.now - LastWord(moves, a.id).at < RESOLUTION_RETENTION;
    hide IDs, Forward, RunDesk, StepDesk, ApplySnapshot, ClientApplies, LastWord, OpenFetch, Selected, Sync, ResolvedLately;
  }

  lemma TimesThen(moves: seq<DeskMove>, m: DeskMove)
    requires Forward(moves + [m])
    ensures Forward(moves) && (moves != [] ==> Ends(moves[|moves| - 1]) <= Begins(m))
  {
    var all := moves + [m];
    assert forall i | 0 <= i < |moves| :: all[i] == moves[i];
    if moves != [] {
      assert Ends(all[|moves| - 1]) <= Begins(all[|moves|]);
    }
  }

  // ----- The prompts -----

  /** When a prompt list last came by frame. */
  function LastList(moves: seq<DeskMove>): Option<Time> {
    if moves == [] then None
    else
      var last := moves[|moves| - 1];
      if last.PromptsArrive? then Some(last.now)
      else if last.LinkMoves? && last.event == Disconnect(true) then None
      else LastList(moves[..|moves| - 1])
  }

  /** The newest prompts, from a frame or an admitted snapshot; a list that came at the
      very instant a snapshot's prompts are applied is the newer one. */
  function NewestPrompts(moves: seq<DeskMove>): seq<string> {
    if moves == [] then []
    else
      var before, last := moves[..|moves| - 1], moves[|moves| - 1];
      match last
      case PromptsArrive(prompts, _) => prompts
      case LinkMoves(e, _, _) => if e == Disconnect(true) then [] else NewestPrompts(before)
      case SnapshotArrives(_, prompts, epoch, version, _, promptsNow) =>
        if Admits(RunDesk(before).pending, epoch, version) && LastList(before) != Some(promptsNow) then prompts
        else NewestPrompts(before)
      case _ => NewestPrompts(before)
  }

  lemma {:induction false} ListIsLast(moves: seq<DeskMove>)
    ensures RunDesk(moves).pending.lastPromptListAt == LastList(moves)
  {
    if moves != [] {
      var before, last := moves[..|moves| - 1], moves[|moves| - 1];
      ListIsLast(before);
      assert RunDesk(moves) == StepDesk(RunDesk(before), last);
      hide IDs, IndexOf, Prune, Selected, Protected, Step, Sync, Busy, CompletedBy, RunDesk, Admits;
    }
  }

  lemma OtherMovesKeepPrompts(d: Desk, m: DeskMove)
    requires !m.SnapshotArrives?
    ensures StepDesk(d, m).pending.prompts ==
              match m
              case PromptsArrive(prompts, _) => prompts
              case LinkMoves(e, _, _) => if e == Disconnect(true) then [] else d.pending.prompts
              case _ => d.pending.prompts
  {
    assert m.LinkMoves? && m.event == Disconnect(true) ==> !m.event.SyncApprovals?;
    hide IDs, IndexOf, Prune, Step, Sync, Busy, CompletedBy;
  }

  /** Over every run on a clock that does not run backwards, those are the prompts. */
  lemma {:induction false} PromptsAreExactly(moves: seq<DeskMove>)
    requires Forward(moves)
    ensures RunDesk(moves).pending.prompts == NewestPrompts(moves)
  {
    if moves != [] {
      var before, m := moves[..|moves| - 1], moves[|moves| - 1];
      assert moves == before + [m];
      TimesThen(before, m);
      PromptsAreExactly(before);
      ListIsLast(before);
      RunDeskThen(before, m);
      hide RunDesk, Forward, Admits;
      if !m.SnapshotArrives? {
        OtherMovesKeepPrompts(RunDesk(before), m);
      } else if Admits(RunDesk(before).pending, m.epoch, m.version) {
        SnapshotPromptsWinUnlessSimultaneous(before, m);
      }
      hide StepDesk;
    }
  }
}
