/** The link together with the reconciler that supplies its cards: every queued answer
    is on a card, and no completion ever comes too late for its answer. */
module AnswersShown {
  import opened ApprovalDelivery
  import opened PendingState
  import opened RemoteLink
  import opened Wrappers

  ghost predicate QueuedAreShown(l: Link) {
    forall id | id in l.approvals.queued :: id in l.cards && l.cards[id].IsBusy()
  }

  /** What is on its way is what the user last answered. */
  ghost predicate SendsAreCurrent(t: Transport, c: Coordinator) {
    forall s | s in t.pending && t.pending[s].purpose.Approval? ::
      c.Holds(t.pending[s].purpose.request, t.pending[s].purpose.answer)
  }

  ghost predicate Shown(l: Link) {
    QueuedAreShown(l) && SendsAreCurrent(l.transport, l.approvals)
  }

  lemma SameShown(a: Link, b: Link)
    requires Shown(a) && b.cards == a.cards && b.approvals.queued == a.approvals.queued
    requires b.transport.pending == a.transport.pending
    ensures Shown(b)
  {
  }

  lemma TeardownShown(l: Link, clear: bool)
    requires QueuedAreShown(l)
    ensures Shown(Teardown(l, clear))
  {
  }

  lemma DisconnectShown(l: Link, discardIntent: bool)
    requires QueuedAreShown(l)
    ensures Shown(DisconnectNow(l, discardIntent)) && DisconnectNow(l, discardIntent).transport.pending == map[]
  {
    TeardownShown(l.(reconnecting := false), true);
  }

  lemma StartConnectionShown(l: Link, force: bool, w: World)
    requires Shown(l)
    ensures Shown(StartConnection(l, force, w))
  {
    DisconnectShown(l, false);
    SameShown(DisconnectNow(l, false), DisconnectNow(l, false).(transport := DisconnectNow(l, false).transport.Open()));
    hide DisconnectNow, Shown;
  }

  lemma HandleDisconnectShown(l: Link, w: World)
    requires Shown(l)
    ensures Shown(HandleDisconnect(l, w))
  {
    TeardownShown(l, false);
    SameShown(Teardown(l, false), Teardown(l, false).(reconnecting := w.retries));
    hide Teardown, QueuedAreShown, SendsAreCurrent;
  }

  lemma SubmitOtherShown(l: Link)
    requires Shown(l)
    ensures Shown(l.(transport := l.transport.Submit(Other)))
  {
  }

  lemma SendHelloShown(l: Link)
    requires Shown(l)
    ensures Shown(SendHello(l)) && Shown(SendClear(l)) && Shown(SendClear(SendHello(l)))
  {
    SendClearShown(l);
    var named := if l.session.nonceIOS.Some? then l else l.(session := l.session.MintIOSNonce());
    SameShown(l, named);
    SendClearShown(named);
    hide Shown, SendClear;
    SendClearShown(SendClear(named));
  }

  lemma SendClearShown(l: Link)
    requires Shown(l)
    ensures Shown(SendClear(l))
  {
    SubmitOtherShown(l);
    SameShown(l.(transport := l.transport.Submit(Other)), SendClear(l));
    hide Shown;
  }

  lemma SendOtherShown(l: Link, seals: bool)
    requires Shown(l)
    ensures Shown(SendEncrypted(l, Other, seals))
  {
    SubmitOtherShown(l);
    var r := SendEncrypted(l, Other, seals);
    SameShown(if CanEncrypt(l, seals) then l.(transport := l.transport.Submit(Other)) else l, r);
    hide Shown;
  }

  lemma {:induction false} SendOthersShown(l: Link, n: nat, seals: bool)
    requires Shown(l)
    ensures Shown(SendOthers(l, n, seals))
    decreases n
  {
    hide Shown, SendEncrypted;
    if n > 0 {
      SendOtherShown(l, seals);
      SendOthersShown(SendEncrypted(l, Other, seals), n - 1, seals);
    }
  }

  lemma RecoveryShown(l: Link)
    requires Shown(l)
    ensures Shown(BeginHandshakeRecovery(l))
  {
    SameShown(l, l.(isConnected := false));
    SendHelloShown(l.(isConnected := false));
    hide Shown, SendHello;
  }

  lemma EstablishShown(l: Link, w: World)
    requires Shown(l)
    ensures Shown(EstablishSession(l, w))
  {
    var keyed := l.(session := l.session.Establish(w.derives));
    SameShown(l, keyed);
    SendOtherShown(keyed, w.seals);
    hide Shown, SendEncrypted;
  }

  // ----- Answers -----

  lemma RequeueShown(l: Link, request: RequestID, approved: bool, w: World)
    requires Shown(l)
    ensures Shown(ResolveApproval(l, request, approved, false, w))
  {
    var resolved := l.(approvals := l.approvals.Resolve(request, approved, false));
    SameShown(l, resolved);
    var requeued := resolved.(cards := Show(l.cards, request, Queued(approved)));
    assert Shown(requeued);
    hide Shown, Show;
    StartConnectionShown(requeued, false, w);
  }

  lemma SendApprovalShown(l: Link, a: Answer, w: World)
    requires Shown(l) && l.approvals.Holds(a.request, a.approved)
    ensures Shown(SendApproval(l, a, w)) && SendApproval(l, a, w).approvals.queued == l.approvals.queued
  {
    var shown := l.(cards := Show(l.cards, a.request, Sending(a.approved)));
    assert Shown(shown);
    var sent := SendEncrypted(shown, Approval(a.request, a.approved), a.request in w.sealed);
    assert sent.cards == shown.cards && sent.approvals == l.approvals;
    assert Shown(sent) by {
      hide Show;
    }
    SendApprovalKeepsQueue(l, a, w);
    hide Shown, SendEncrypted, ResolveApproval, Show;
    RequeueShown(sent, a.request, a.approved, w);
  }

  lemma {:induction false} SendEachShown(l: Link, answers: seq<Answer>, w: World)
    requires Shown(l) && forall a <- answers :: l.approvals.Holds(a.request, a.approved)
    ensures Shown(SendEach(l, answers, w))
    decreases |answers|
  {
    if answers != [] {
      assert answers[0] in answers;
      hide Shown, SendApproval;
      SendApprovalShown(l, answers[0], w);
      SendEachShown(SendApproval(l, answers[0], w), answers[1..], w);
    }
  }

  lemma FlushShown(l: Link, w: World)
    requires Shown(l)
    ensures Shown(FlushApprovals(l, w))
  {
    if CanFlush(l) {
      TakeSelects(l.approvals, w.order, l.cards.Keys);
      var taken := l.approvals.Take(w.order, l.cards.Keys);
      assert taken.0.queued == l.approvals.queued;
      SameShown(l, l.(approvals := taken.0));
      hide Shown, SendEach;
      SendEachShown(l.(approvals := taken.0), taken.1, w);
    } else {
      StartConnectionShown(l, false, w);
    }
  }

  lemma RespondShown(l: Link, request: RequestID, approved: bool, w: World)
    requires Shown(l)
    ensures Shown(RespondToApproval(l, request, approved, w))
  {
    if request in l.cards && !l.cards[request].IsBusy() {
      assert request !in l.approvals.queued;
      var asked := l.(cards := l.cards[request := Queued(approved)], approvals := l.approvals.Enqueue(request, approved));
      assert Shown(asked);
      hide Shown, FlushApprovals;
      FlushShown(asked, w);
    }
  }

  /** The one send of a request is reported: its answer and its card go together. */
  lemma CompletedShown(l: Link, sendID: nat, request: RequestID, approved: bool, w: World)
    requires Delivery(l, {}) && Shown(l) && sendID in l.transport.pending
    requires l.transport.pending[sendID].purpose == Approval(request, approved)
    ensures Shown(ResolveApproval(l.(transport := l.transport.Settle(sendID)), request, approved, true, w))
  {
    assert Carries(l.transport, sendID, request);
    var r := ResolveApproval(l.(transport := l.transport.Settle(sendID)), request, approved, true, w);
    forall s | s in r.transport.pending && r.transport.pending[s].purpose.Approval?
      ensures r.transport.pending[s].purpose.request != request
    {
      assert Carries(l.transport, s, r.transport.pending[s].purpose.request);
    }
    hide Delivery;
  }

  lemma CompleteSendShown(l: Link, sendID: nat, delivered: bool, w: World)
    requires Delivery(l, {}) && Shown(l)
    ensures Shown(CompleteSend(l, sendID, delivered, w))
  {
    if sendID in l.transport.pending {
      var settled := l.(transport := l.transport.Settle(sendID));
      var purpose := l.transport.pending[sendID].purpose;
      assert Shown(settled);
      HandleDisconnectShown(settled, w);
      if purpose.Approval? && delivered {
        CompletedShown(l, sendID, purpose.request, purpose.answer, w);
      }
      var told := if delivered then settled else HandleDisconnect(settled, w);
      hide Delivery, Shown, HandleDisconnect, ResolveApproval;
      if purpose.Approval? && !delivered {
        RequeueShown(told, purpose.request, purpose.answer, w);
      }
    }
  }

  // ----- The other events -----

  lemma HelloShown(l: Link, macNonce: nat, verdict: Verdict, w: World)
    requires Shown(l)
    ensures Shown(HandleHello(l, macNonce, verdict, w)) && Shown(NoteDecryptFailure(l, verdict, w))
  {
    SameShown(l, Rehandshake(l));
    HandleDisconnectShown(Rehandshake(l), w);
    RecoveryShown(Rehandshake(l));
    var ready := if verdict.ResetSession? then BeginHandshakeRecovery(Rehandshake(l)) else l;
    var told := ready.(session := ready.session.(nonceMac := Some(macNonce)));
    SameShown(ready, told);
    hide Shown, HandleDisconnect, BeginHandshakeRecovery, EstablishSession, Rehandshake;
    EstablishShown(told, w);
  }

  lemma SessionReadyShown(l: Link, others: nat, later: nat, w: World)
    requires Shown(l)
    ensures Shown(HandleSessionReady(l, others, later, w))
  {
    SendOthersShown(l, others, w.seals);
    var sent := SendOthers(l, others, w.seals);
    SameShown(sent, sent.(isConnected := true));
    hide Shown, FlushApprovals, SendOthers;
    FlushShown(sent.(isConnected := true), w);
    SendOthersShown(if l.isConnected then sent.(isConnected := true) else FlushApprovals(sent.(isConnected := true), w),
                    later, w.seals);
  }

  lemma TimeoutShown(l: Link, w: World)
    requires Shown(l)
    ensures Shown(HandshakeTimeout(l, w))
  {
    var closed := l.(transport := l.transport.Close(), isConnected := false, session := l.session.Invalidate(false));
    assert Shown(closed);
    HandleDisconnectShown(closed, w);
    hide Shown, HandleDisconnect;
  }

  predicate KeepsBusy(l: Link, e: Event) {
    e.SyncApprovals? ==> forall id | id in l.cards && l.cards[id].IsBusy() :: id in e.listed
  }

  lemma StepShown(l: Link, e: Event, w: World)
    requires Delivery(l, {}) && Shown(l) && KeepsBusy(l, e)
    ensures Shown(Step(l, e, w))
  {
    var idle := l.(reconnecting := false);
    SameShown(l, idle);
    if e.SyncApprovals? {
      assert Shown(Sync(l, e.listed));
    }
    hide Delivery, Shown, RespondToApproval, Sync, CompleteSend, StartConnection, DisconnectNow, SendEncrypted, SendHello,
      SendClear, HandshakeTimeout, HandleDisconnect, Teardown, HandleSessionReady, HandleHello, NoteDecryptFailure,
      EstablishSession;
    match e {
      case Respond(request, approved) => RespondShown(l, request, approved, w);
      case SyncApprovals(_) =>
      case SendCompleted(sendID, delivered) => CompleteSendShown(l, sendID, delivered, w);
      case Connect(force) => StartConnectionShown(l, force, w);
      case Disconnect(discardIntent) => DisconnectOfShown(l, discardIntent);
      case SendOther => SendOtherShown(l, w.seals);
      case ReconnectDue => StartConnectionShown(idle, true, w);
      case HandshakeTick(_) => SendHelloShown(l);
      case HandshakeTimedOut => TimeoutShown(l, w);
      case SocketFailed => HandleDisconnectShown(l, w);
      case PairRejected => TeardownOfShown(idle);
      case SessionReadyReceived(others, later) => SessionReadyShown(l, others, later, w);
      case HelloReceived(macNonce, verdict) => HelloShown(l, macNonce, verdict, w);
      case PairAccepted(_) =>
        TeardownOfShown(idle);
        EstablishShown(l, w);
      case DecryptFailed(verdict) => HelloShown(l, 0, verdict, w);
    }
  }

  lemma DisconnectOfShown(l: Link, discardIntent: bool)
    requires Shown(l)
    ensures Shown(DisconnectNow(l, discardIntent))
  {
    DisconnectShown(l, discardIntent);
  }

  lemma TeardownOfShown(l: Link)
    requires Shown(l)
    ensures Shown(Teardown(l, false))
  {
    TeardownShown(l, false);
  }

  // ----- Only a completion takes a card away -----

  lemma TeardownKeepsKeys(l: Link, force: bool, w: World)
    ensures StartConnection(l, force, w).cards.Keys == l.cards.Keys
    ensures HandleDisconnect(l, w).cards.Keys == l.cards.Keys
    ensures EndHandshakeForBrokenPairing(l).cards.Keys == l.cards.Keys
    ensures HandshakeTimeout(l, w).cards.Keys == l.cards.Keys
    ensures DisconnectNow(l, false).cards.Keys == l.cards.Keys
  {
  }

  lemma RequeueKeepsKeys(l: Link, request: RequestID, approved: bool, w: World)
    ensures ResolveApproval(l, request, approved, false, w).cards.Keys == l.cards.Keys
  {
    var requeued := l.(approvals := l.approvals.Resolve(request, approved, false), cards := Show(l.cards, request, Queued(approved)));
    assert requeued.cards.Keys == l.cards.Keys;
    TeardownKeepsKeys(requeued, false, w);
    hide StartConnection, Show;
  }

  lemma SendApprovalKeepsKeys(l: Link, a: Answer, w: World)
    ensures SendApproval(l, a, w).cards.Keys == l.cards.Keys
  {
    var shown := l.(cards := Show(l.cards, a.request, Sending(a.approved)));
    assert shown.cards.Keys == l.cards.Keys;
    var sent := SendEncrypted(shown, Approval(a.request, a.approved), a.request in w.sealed);
    assert sent.cards == shown.cards;
    hide SendEncrypted, ResolveApproval, Show;
    RequeueKeepsKeys(sent, a.request, a.approved, w);
  }

  lemma {:induction false} SendEachKeepsKeys(l: Link, answers: seq<Answer>, w: World)
    ensures SendEach(l, answers, w).cards.Keys == l.cards.Keys
    decreases |answers|
  {
    hide SendApproval;
    if answers != [] {
      SendApprovalKeepsKeys(l, answers[0], w);
      SendEachKeepsKeys(SendApproval(l, answers[0], w), answers[1..], w);
    }
  }

  lemma FlushKeepsKeys(l: Link, w: World)
    ensures FlushApprovals(l, w).cards.Keys == l.cards.Keys
  {
    var taken := l.approvals.Take(w.order, l.cards.Keys);
    hide SendEach, StartConnection;
    SendEachKeepsKeys(l.(approvals := taken.0), taken.1, w);
    TeardownKeepsKeys(l, false, w);
  }

  lemma SendingKeepsCards(l: Link, w: World)
    ensures SendHello(l).cards == l.cards && SendClear(SendHello(l)).cards == l.cards
    ensures SendEncrypted(l, Other, w.seals).cards == l.cards
    ensures EstablishSession(l, w).cards == l.cards
    ensures BeginHandshakeRecovery(l).cards == l.cards
  {
  }

  lemma HelloKeepsKeys(l: Link, macNonce: nat, verdict: Verdict, w: World)
    ensures HandleHello(l, macNonce, verdict, w).cards.Keys == l.cards.Keys
    ensures NoteDecryptFailure(l, verdict, w).cards.Keys == l.cards.Keys
  {
    var restarted := Rehandshake(l);
    assert restarted.cards == l.cards;
    hide Rehandshake, HandleDisconnect, EstablishSession, BeginHandshakeRecovery;
    TeardownKeepsKeys(restarted, false, w);
    SendingKeepsCards(restarted, w);
    var ready := if verdict.ResetSession? then BeginHandshakeRecovery(restarted) else l;
    SendingKeepsCards(ready.(session := ready.session.(nonceMac := Some(macNonce))), w);
  }

  lemma SessionReadyKeepsKeys(l: Link, others: nat, later: nat, w: World)
    ensures HandleSessionReady(l, others, later, w).cards.Keys == l.cards.Keys
  {
    SendOthersKeepsDesk(l, others, w.seals);
    var confirmed := SendOthers(l, others, w.seals).(isConnected := true);
    hide FlushApprovals, SendOthers;
    FlushKeepsKeys(confirmed, w);
    SendOthersKeepsDesk(if l.isConnected then confirmed else FlushApprovals(confirmed, w), later, w.seals);
  }

  lemma ReceiveKeepsKeys(l: Link, e: Event, w: World)
    ensures Receive(l, e, w).cards.Keys == l.cards.Keys
  {
    hide HandleDisconnect, EndHandshakeForBrokenPairing, HandleHello, NoteDecryptFailure, HandleSessionReady, EstablishSession;
    match e {
      case HelloReceived(macNonce, verdict) => HelloKeepsKeys(l, macNonce, verdict, w);
      case DecryptFailed(verdict) => HelloKeepsKeys(l, 0, verdict, w);
      case SessionReadyReceived(others, later) => SessionReadyKeepsKeys(l, others, later, w);
      case PairAccepted(_) =>
        SendingKeepsCards(l, w);
        TeardownKeepsKeys(l, false, w);
      case _ => TeardownKeepsKeys(l, false, w);
    }
  }

  /** The request whose answer this event reports sent while its card is shown. */
  function CompletedBy(l: Link, e: Event): Option<RequestID> {
    if e.SendCompleted? && e.delivered && e.sendID in l.transport.pending
       && l.transport.pending[e.sendID].generation == l.transport.generation
    then
      match l.transport.pending[e.sendID].purpose
      case Other => None
      case Approval(request, answer) => if l.approvals.Holds(request, answer) && request in l.cards then Some(request) else None
    else None
  }

  lemma CompletionKeys(l: Link, sendID: nat, delivered: bool, w: World)
    ensures var done := CompletedBy(l, SendCompleted(sendID, delivered));
            CompleteSend(l, sendID, delivered, w).cards.Keys
            == if done.Some? then l.cards.Keys - {done.value} else l.cards.Keys
  {
    if sendID in l.transport.pending {
      var settled := l.(transport := l.transport.Settle(sendID));
      TeardownKeepsKeys(settled, false, w);
      var purpose := l.transport.pending[sendID].purpose;
      if purpose.Approval? {
        RequeueKeepsKeys(HandleDisconnect(settled, w), purpose.request, purpose.answer, w);
      }
      hide HandleDisconnect, StartConnection;
    }
  }

  lemma StepKeys(l: Link, e: Event, w: World)
    requires !e.SyncApprovals?
    ensures Step(l, e, w).cards.Keys
            == if e == Disconnect(true) then {}
               else if CompletedBy(l, e).Some? then l.cards.Keys - {CompletedBy(l, e).value} else l.cards.Keys
  {
    hide RespondToApproval, CompleteSend, StartConnection, SendEncrypted, SendHello, SendClear, HandshakeTimeout, Receive;
    match e {
      case Respond(request, approved) => RespondKeepsKeys(l, request, approved, w);
      case SendCompleted(sendID, delivered) => CompletionKeys(l, sendID, delivered, w);
      case Connect(force) => TeardownKeepsKeys(l, force, w);
      case Disconnect(discardIntent) => TeardownKeepsKeys(l, true, w);
      case ReconnectDue => TeardownKeepsKeys(l.(reconnecting := false), true, w);
      case HandshakeTick(_) => SendingKeepsCards(l, w);
      case HandshakeTimedOut => TeardownKeepsKeys(l, false, w);
      case SendOther => SendingKeepsCards(l, w);
      case _ => ReceiveKeepsKeys(l, e, w);
    }
  }

  lemma RespondKeepsKeys(l: Link, request: RequestID, approved: bool, w: World)
    ensures RespondToApproval(l, request, approved, w).cards.Keys == l.cards.Keys
  {
    if request in l.cards {
      var asked := l.(cards := l.cards[request := Queued(approved)], approvals := l.approvals.Enqueue(request, approved));
      hide FlushApprovals;
      FlushKeepsKeys(asked, w);
    }
  }

  // ----- The client together with its reconciler -----

  datatype Desk = Desk(link: Link, pending: Reconciler)

  const CLEAR_DESK := Desk(START, NEW_RECONCILER)

  /** Each move carries the time at which it happens. */
  datatype DeskMove =
    | LinkMoves(event: Event, world: World, now: Time)
    | ApprovalArrives(request: Request, now: Time)
    | PromptsArrive(prompts: seq<string>, now: Time)
    | FetchBegins(now: Time)
    | SnapshotArrives(payloads: seq<Request>, prompts: seq<string>, epoch: Option<string>, version: Option<nat>,
                      now: Time, promptsNow: Time)

  function Busy(l: Link): set<RequestID> {
    set id | id in l.cards && l.cards[id].IsBusy()
  }

  /** The cards are the reconciler's list, with the states of those already shown. */
  function Project(l: Link, pending: Reconciler): Desk {
    Desk(Sync(l, IDs(pending.approvals)), pending)
  }

  function StepDesk(d: Desk, m: DeskMove): Desk {
    match m
    case LinkMoves(e, w, now) =>
      if e.SyncApprovals? then d
      else
        Desk(Step(d.link, e, w),
             if e == Disconnect(true) then NEW_RECONCILER
             else if CompletedBy(d.link, e).Some? then ResolveLocally(d.pending, CompletedBy(d.link, e).value, now)
             else d.pending)
    case ApprovalArrives(a, now) => Project(d.link, Upsert(d.pending, a, now))
    case PromptsArrive(prompts, now) => d.(pending := ReplacePrompts(d.pending, prompts, now))
    case FetchBegins(now) => d.(pending := BeginFetch(d.pending, now))
    case SnapshotArrives(payloads, prompts, epoch, version, now, promptsNow) =>
      var admitted := Admitted(d.pending, epoch, version);
      if !Admits(d.pending, epoch, version) then d
      else Project(d.link, ClientApplies(admitted, payloads, Busy(d.link), prompts, now, promptsNow))
  }

  function RunDesk(moves: seq<DeskMove>): Desk {
    if moves == [] then CLEAR_DESK else StepDesk(RunDesk(moves[..|moves| - 1]), moves[|moves| - 1])
  }

  /** A snapshot lists a request once; the client could not show it otherwise. */
  ghost predicate ListsOnce(moves: seq<DeskMove>) {
    forall m <- moves :: m.SnapshotArrives? ==> EachOnce(m.payloads)
  }

  ghost predicate DeskInv(d: Desk) {
    && Delivery(d.link, {}) && Shown(d.link)
    && EachOnce(d.pending.approvals) && IDs(d.pending.approvals) == d.link.cards.Keys
  }

  lemma ProjectKeeps(d: Desk, pending: Reconciler)
    requires DeskInv(d) && EachOnce(pending.approvals) && Busy(d.link) <= IDs(pending.approvals)
    ensures DeskInv(Project(d.link, pending))
  {
    var listed := IDs(pending.approvals);
    var w := World(false, false, false, false, [], {});
    assert KeepsBusy(d.link, SyncApprovals(listed));
    assert Sync(d.link, listed).cards.Keys == listed;
    assert Step(d.link, SyncApprovals(listed), w) == Sync(d.link, listed);
    hide Delivery, Shown, Step, Sync, IDs, EachOnce, KeepsBusy;
    StepDelivery(d.link, SyncApprovals(listed), w);
    StepShown(d.link, SyncApprovals(listed), w);
  }

  lemma BusyAreListed(d: Desk)
    requires DeskInv(d)
    ensures Busy(d.link) <= IDs(d.pending.approvals)
  {
    hide Delivery, Shown, EachOnce, IDs;
  }

  /** The reconciler never lets go of a card that is being answered. */
  lemma SnapshotKeepsBusy(d: Desk, admitted: Reconciler, payloads: seq<Request>, now: Time)
    requires DeskInv(d) && EachOnce(payloads) && admitted.approvals == d.pending.approvals
    ensures var n := ApplySnapshot(admitted, payloads, Busy(d.link), now);
            EachOnce(n.approvals) && Busy(d.link) <= IDs(n.approvals)
  {
    BusyAreListed(d);
    SnapshotOnce(admitted, payloads, Busy(d.link), now);
    hide DeskInv, EachOnce, IDs, ApplySnapshot;
    forall id | id in Busy(d.link)
      ensures id in IDs(ApplySnapshot(admitted, payloads, Busy(d.link), now).approvals)
    {
      SnapshotKeepsExactly(admitted, payloads, Busy(d.link), now, id);
    }
  }

  lemma LinkMoveKeeps(d: Desk, e: Event, w: World, now: Time)
    requires DeskInv(d) && !e.SyncApprovals?
    ensures DeskInv(StepDesk(d, LinkMoves(e, w, now)))
  {
    StepKeys(d.link, e, w);
    hide Delivery, Shown, Step, IDs, ResolveLocally;
    StepDelivery(d.link, e, w);
    StepShown(d.link, e, w);
    assert IDs([]) == {} by {
      NoIDs();
    }
    var done := CompletedBy(d.link, e);
    if done.Some? {
      ResolutionRemoves(d.pending, done.value, now);
    }
  }

  lemma NoIDs()
    ensures IDs([]) == {}
  {
  }

  lemma StepDeskKeeps(d: Desk, m: DeskMove)
    requires DeskInv(d) && (m.SnapshotArrives? ==> EachOnce(m.payloads))
    ensures DeskInv(StepDesk(d, m))
  {
    hide Delivery, Shown, EachOnce, IDs, ApplySnapshot, Upsert, Project, Step;
    match m {
      case LinkMoves(e, w, now) =>
        if !e.SyncApprovals? {
          LinkMoveKeeps(d, e, w, now);
        }
      case ApprovalArrives(a, now) =>
        UpsertKeeps(d.pending, a, now);
        BusyAreListed(d);
        ProjectKeeps(d, Upsert(d.pending, a, now));
      case PromptsArrive(_, _) =>
      case FetchBegins(_) =>
      case SnapshotArrives(payloads, prompts, epoch, version, now, promptsNow) =>
        var admitted := Admitted(d.pending, epoch, version);
        assert admitted.approvals == d.pending.approvals;
        if Admits(d.pending, epoch, version) {
          SnapshotKeepsBusy(d, admitted, payloads, now);
          ProjectKeeps(d, ClientApplies(admitted, payloads, Busy(d.link), prompts, now, promptsNow));
        }
    }
  }

  lemma {:induction false} RunDeskKeeps(moves: seq<DeskMove>)
    requires ListsOnce(moves)
    ensures DeskInv(RunDesk(moves))
  {
    if moves == [] {
      RunDelivery([]);
      NoIDs();
    } else {
      var before, last := moves[..|moves| - 1], moves[|moves| - 1];
      assert last in moves && ListsOnce(before);
      RunDeskKeeps(before);
      hide DeskInv, StepDesk, EachOnce;
      StepDeskKeeps(RunDesk(before), last);
    }
  }

  /** Over every run of the client with its reconciler, whatever frames and snapshots
      race: the cards are the reconciler's list, every queued answer is on a card that
      shows it, and every answer on its way is still the user's and on a card, so that
      no completion is ever superseded and no flush ever finds a request gone. */
  lemma NoAnswerIsSuperseded(moves: seq<DeskMove>, id: RequestID, sendID: nat)
    requires ListsOnce(moves)
    ensures var d := RunDesk(moves);
            var l := d.link;
            && l.cards.Keys == IDs(d.pending.approvals)
            && (id in l.approvals.queued ==>
                  id in l.cards && l.cards[id].IsBusy() && l.cards[id].answer == l.approvals.queued[id])
            && (sendID in l.transport.pending && l.transport.pending[sendID].purpose.Approval? ==>
                  var purpose := l.transport.pending[sendID].purpose;
                  l.approvals.Holds(purpose.request, purpose.answer) && purpose.request in l.cards)
  {
    RunDeskKeeps(moves);
    hide RunDesk, ListsOnce, Fenced, OneSendEach, IDs, EachOnce;
    var l := RunDesk(moves).link;
    if id in l.approvals.queued {
      assert Truthful(l.cards[id], id, l.approvals, l.transport);
    }
  }

  // ----- Which prompts are shown -----

  function Begins(m: DeskMove): Time {
    m.now
  }

  function Ends(m: DeskMove): Time {
    if m.SnapshotArrives? then m.promptsNow else m.now
  }

  /** The clock does not run backwards. */
  ghost predicate Forward(moves: seq<DeskMove>) {
    && (forall i | 0 <= i < |moves| :: Begins(moves[i]) <= Ends(moves[i]))
    && (forall i, j | 0 <= i < j < |moves| :: Ends(moves[i]) <= Begins(moves[j]))
  }

  lemma {:induction false} PromptListIsOld(moves: seq<DeskMove>)
    requires Forward(moves) && moves != []
    ensures var at := RunDesk(moves).pending.lastPromptListAt; at.Some? ==> at.value <= Ends(moves[|moves| - 1])
  {
    var before, last := moves[..|moves| - 1], moves[|moves| - 1];
    if before != [] {
      assert Forward(before) && Ends(before[|before| - 1]) <= Begins(last) <= Ends(last);
      hide Forward, StepDesk;
      PromptListIsOld(before);
    }
    hide Forward;
    StepPromptList(RunDesk(before), last);
    hide StepDesk;
  }

  lemma StepPromptList(d: Desk, m: DeskMove)
    ensures var a, b := d.pending.lastPromptListAt, StepDesk(d, m).pending.lastPromptListAt;
            b == None || b == a || (m.PromptsArrive? && b == Some(m.now))
  {
    hide Step, IDs, Selected, Prune, Protected, Sync, Busy, IndexOf;
  }

  /** Over every run on such a clock: an admitted snapshot replaces the prompts, also
      those of a list that came after the fetch began, unless that list came at the
      very instant at which the snapshot's prompts are applied. */
  lemma SnapshotPromptsWinUnlessSimultaneous(moves: seq<DeskMove>, m: DeskMove)
    requires Forward(moves + [m]) && m.SnapshotArrives? && Admits(RunDesk(moves).pending, m.epoch, m.version)
    ensures var before, after := RunDesk(moves).pending, RunDesk(moves + [m]).pending;
            after.prompts == if before.lastPromptListAt == Some(m.promptsNow) then before.prompts else m.prompts
  {
    hide *;
    RunDeskThen(moves, m);
    ForwardThen(moves, m);
    if moves != [] {
      PromptListIsOld(moves);
    } else {
      NoPromptListYet();
    }
    SnapshotSetsPrompts(RunDesk(moves), m);
  }

  lemma RunDeskThen(moves: seq<DeskMove>, m: DeskMove)
    ensures RunDesk(moves + [m]) == StepDesk(RunDesk(moves), m)
  {
    var all := moves + [m];
    assert all[..|all| - 1] == moves && all[|all| - 1] == m;
    hide StepDesk;
  }

  lemma NoPromptListYet()
    ensures RunDesk([]).pending.lastPromptListAt == None
  {
  }

  lemma ForwardThen(moves: seq<DeskMove>, m: DeskMove)
    requires Forward(moves + [m]) && m.SnapshotArrives?
    ensures Forward(moves) && (moves != [] ==> Ends(moves[|moves| - 1]) <= m.promptsNow)
  {
    var all := moves + [m];
    assert forall i | 0 <= i < |moves| :: all[i] == moves[i];
    assert Begins(all[|moves|]) <= Ends(all[|moves|]);
    if moves != [] {
      assert Ends(all[|moves| - 1]) <= Begins(all[|moves|]);
    }
  }

  lemma SnapshotSetsPrompts(d: Desk, m: DeskMove)
    requires m.SnapshotArrives? && Admits(d.pending, m.epoch, m.version)
    ensures var at := d.pending.lastPromptListAt;
            StepDesk(d, m).pending.prompts == if at.Some? && at.value >= m.promptsNow then d.pending.prompts else m.prompts
  {
    hide IDs, Selected, Prune, Protected, Sync, Busy;
  }
}
