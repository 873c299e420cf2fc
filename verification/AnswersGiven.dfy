/** The answer that is queued, shown and sent is the one the user gave. */
module AnswersGiven {
  import opened ApprovalDelivery
  import opened RemoteLink
  import opened Wrappers

  /** The ledger holds this answer and the request's card says so. */
  ghost predicate Shows(l: Link, id: RequestID, answer: bool) {
    l.approvals.Holds(id, answer) && id in l.cards && l.cards[id] in {Queued(answer), Sending(answer)}
  }

  lemma StartConnectionShows(l: Link, force: bool, w: World, id: RequestID, answer: bool)
    requires Shows(l, id, answer)
    ensures Shows(StartConnection(l, force, w), id, answer)
  {
  }

  lemma EncryptedShows(l: Link, purpose: Purpose, seals: bool, id: RequestID, answer: bool)
    requires Shows(l, id, answer)
    ensures Shows(SendEncrypted(l, purpose, seals), id, answer)
  {
  }

  lemma RequeueShows(l: Link, a: Answer, w: World, id: RequestID, answer: bool)
    requires Shows(l, id, answer) && (a.request == id ==> a.approved == answer)
    ensures Shows(ResolveApproval(l, a.request, a.approved, false, w), id, answer)
  {
    var resolved := l.(approvals := l.approvals.Resolve(a.request, a.approved, false));
    var requeued := resolved.(cards := Show(l.cards, a.request, Queued(a.approved)));
    assert Shows(resolved, id, answer) && Shows(requeued, id, answer);
    StartConnectionShows(requeued, false, w, id, answer);
    hide StartConnection, Show;
  }

  lemma SendApprovalShows(l: Link, a: Answer, w: World, id: RequestID, answer: bool)
    requires Shows(l, id, answer) && (a.request == id ==> a.approved == answer)
    ensures Shows(SendApproval(l, a, w), id, answer)
  {
    var shown := l.(cards := Show(l.cards, a.request, Sending(a.approved)));
    assert Shows(shown, id, answer);
    hide Show, Shows;
    EncryptedShows(shown, Approval(a.request, a.approved), a.request in w.sealed, id, answer);
    hide SendEncrypted, ResolveApproval;
    RequeueShows(SendEncrypted(shown, Approval(a.request, a.approved), a.request in w.sealed), a, w, id, answer);
  }

  lemma {:induction false} SendEachShows(l: Link, answers: seq<Answer>, w: World, id: RequestID, answer: bool)
    requires Shows(l, id, answer) && forall a <- answers :: a.request == id ==> a.approved == answer
    ensures Shows(SendEach(l, answers, w), id, answer)
    decreases |answers|
  {
    if answers != [] {
      assert answers[0] in answers;
      hide Shows, SendApproval;
      SendApprovalShows(l, answers[0], w, id, answer);
      SendEachShows(SendApproval(l, answers[0], w), answers[1..], w, id, answer);
    }
  }

  lemma FlushShows(l: Link, w: World, id: RequestID, answer: bool)
    requires Shows(l, id, answer)
    ensures Shows(FlushApprovals(l, w), id, answer)
  {
    if CanFlush(l) {
      TakeSelects(l.approvals, w.order, l.cards.Keys);
      var taken := l.approvals.Take(w.order, l.cards.Keys);
      assert Shows(l.(approvals := taken.0), id, answer);
      assert forall a <- taken.1 :: a.request == id ==> a.approved == answer;
      hide Shows, SendEach;
      SendEachShows(l.(approvals := taken.0), taken.1, w, id, answer);
    } else {
      StartConnectionShows(l, false, w, id, answer);
    }
  }

  /** Whatever the link is doing: an answer to a request whose card is idle is the one
      that is queued, and the card says that it waits or is being sent. */
  lemma IdleCardTakesTheAnswer(l: Link, id: RequestID, approved: bool, w: World)
    requires id in l.cards && !l.cards[id].IsBusy()
    ensures Shows(Step(l, Respond(id, approved), w), id, approved)
  {
    var asked := l.(cards := l.cards[id := Queued(approved)], approvals := l.approvals.Enqueue(id, approved));
    assert Shows(asked, id, approved);
    hide Shows, FlushApprovals;
    FlushShows(asked, w, id, approved);
  }

  /** A card that is busy, or a request that is not shown, is not answered again. */
  lemma OtherwiseNothingHappens(l: Link, id: RequestID, approved: bool, w: World)
    requires id !in l.cards || l.cards[id].IsBusy()
    ensures Step(l, Respond(id, approved), w) == l
  {
  }

  // ----- Nothing else puts an answer into the queue -----

  ghost predicate NothingNew(before: map<RequestID, bool>, after: map<RequestID, bool>) {
    forall id | id in after :: id in before && before[id] == after[id]
  }

  lemma FlushBringsNothing(l: Link, w: World)
    ensures NothingNew(l.approvals.queued, FlushApprovals(l, w).approvals.queued)
  {
    if CanFlush(l) {
      TakeSelects(l.approvals, w.order, l.cards.Keys);
      var taken := l.approvals.Take(w.order, l.cards.Keys);
      hide SendEach;
      SendEachKeepsQueue(l.(approvals := taken.0), taken.1, w);
    } else {
      TeardownsKeepQueue(l, false, w);
      hide StartConnection;
    }
  }

  lemma ResolutionBringsNothing(l: Link, request: RequestID, approved: bool, success: bool, w: World)
    ensures NothingNew(l.approvals.queued, ResolveApproval(l, request, approved, success, w).approvals.queued)
  {
    var requeued := l.(approvals := l.approvals.Resolve(request, approved, success), cards := Show(l.cards, request, Queued(approved)));
    TeardownsKeepQueue(requeued, false, w);
    hide StartConnection, Show;
  }

  lemma CompletionBringsNothing(l: Link, sendID: nat, delivered: bool, w: World)
    ensures NothingNew(l.approvals.queued, CompleteSend(l, sendID, delivered, w).approvals.queued)
  {
    if sendID in l.transport.pending {
      var settled := l.(transport := l.transport.Settle(sendID));
      TeardownsKeepQueue(settled, false, w);
      hide HandleDisconnect, ResolveApproval;
      var told := if delivered then settled else HandleDisconnect(settled, w);
      match l.transport.pending[sendID].purpose {
        case Other =>
        case Approval(request, answer) => ResolutionBringsNothing(told, request, answer, delivered, w);
      }
    }
  }

  lemma ReceiveBringsNothing(l: Link, e: Event, w: World)
    requires !e.Respond?
    ensures NothingNew(l.approvals.queued, Receive(l, e, w).approvals.queued)
  {
    hide FlushApprovals, SendOthers, HandleHello, HandleDisconnect, EndHandshakeForBrokenPairing, EstablishSession,
      BeginHandshakeRecovery;
    TeardownsKeepQueue(l, false, w);
    TeardownsKeepQueue(Rehandshake(l), false, w);
    SendingKeepsQueue(l, w, 0);
    SendingKeepsQueue(Rehandshake(l), w, 0);
    if e.SessionReadyReceived? && l.session.crypto.Some? {
      SendOthersKeepsDesk(l, e.others, w.seals);
      var confirmed := SendOthers(l, e.others, w.seals).(isConnected := true);
      FlushBringsNothing(confirmed, w);
      SendOthersKeepsDesk(if l.isConnected then confirmed else FlushApprovals(confirmed, w), e.later, w.seals);
    } else if e.HelloReceived? {
      HelloKeepsQueue(l, e.macNonce, e.verdict, w);
    }
  }

  lemma StepBringsNothing(l: Link, e: Event, w: World)
    requires !e.Respond?
    ensures NothingNew(l.approvals.queued, Step(l, e, w).approvals.queued)
  {
    hide CompleteSend, Receive, StartConnection;
    match e {
      case SendCompleted(sendID, delivered) => CompletionBringsNothing(l, sendID, delivered, w);
      case Connect(_) | Disconnect(_) | SyncApprovals(_) | SendOther | ReconnectDue | HandshakeTick(_) | HandshakeTimedOut =>
        TeardownsKeepQueue(l, true, w);
        TeardownsKeepQueue(l, false, w);
        TeardownsKeepQueue(l.(reconnecting := false), true, w);
      case _ =>
        if l.transport.isOpen {
          ReceiveBringsNothing(l, e, w);
        }
    }
  }

  /** The user's answer to a request whose card is idle. */
  predicate Answers(l: Link, e: Event, id: RequestID, answer: bool) {
    e == Respond(id, answer) && id in l.cards && !l.cards[id].IsBusy()
  }

  /** An answer that is not queued becomes so exactly by being given on an idle card. */
  lemma AnswerIsQueuedExactlyWhen(l: Link, e: Event, w: World, id: RequestID, answer: bool)
    requires !l.approvals.Holds(id, answer)
    ensures Step(l, e, w).approvals.Holds(id, answer) <==> Answers(l, e, id, answer)
  {
    if Answers(l, e, id, answer) {
      hide Step;
      IdleCardTakesTheAnswer(l, id, answer, w);
    } else if e.Respond? {
      if e.request in l.cards && !l.cards[e.request].IsBusy() {
        var asked := l.(cards := l.cards[e.request := Queued(e.approved)], approvals := l.approvals.Enqueue(e.request, e.approved));
        FlushBringsNothing(asked, w);
        hide FlushApprovals;
      }
    } else {
      StepBringsNothing(l, e, w);
      hide Step;
    }
  }

  // ----- Over every run -----

  /** What the user last answered to a request while its card was idle. */
  function LastAnswer(moves: seq<Move>, id: RequestID): Option<bool> {
    if moves == [] then None
    else
      var before, e := moves[..|moves| - 1], moves[|moves| - 1].event;
      if e.Respond? && Answers(Run(before), e, id, e.approved) then Some(e.approved) else LastAnswer(before, id)
  }

  /** Over every run: what is queued for a request is what the user last answered. */
  lemma {:induction false} QueuedIsLastAnswer(moves: seq<Move>, id: RequestID, answer: bool)
    requires Run(moves).approvals.Holds(id, answer)
    ensures LastAnswer(moves, id) == Some(answer)
  {
    if moves != [] {
      var before, last := moves[..|moves| - 1], moves[|moves| - 1];
      var l, e := Run(before), last.event;
      assert Run(moves) == Step(l, e, last.world);
      hide Run, Step;
      if e.Respond? && Answers(l, e, id, e.approved) {
        IdleCardTakesTheAnswer(l, id, e.approved, last.world);
      } else {
        if !l.approvals.Holds(id, answer) {
          AnswerIsQueuedExactlyWhen(l, e, last.world, id, answer);
        }
        QueuedIsLastAnswer(before, id, answer);
      }
    }
  }
}
