/** The objects of the remote link as the phone keeps them: each method updates
    fields step by step and does exactly what the state machine says. */
module RemoteClient {
  import opened ApprovalDelivery
  import opened KeyEpochs
  import opened Wrappers
  import opened RemoteLink
  import opened Sequences

  class RemoteTransport {
    var generation: nat
    var isOpen: bool
    var pendingSendCompletions: map<nat, Send>
    var nextSendID: nat

    function State(): Transport
      reads this
    {
      Transport(generation, isOpen, pendingSendCompletions, nextSendID)
    }

    constructor ()
      ensures State() == START.transport
    {
      generation, isOpen, pendingSendCompletions, nextSendID := 0, false, map[], 0;
    }

    /** Outstanding completions are settled as indeterminate and forgotten. */
    method Close()
      modifies this
      ensures State() == old(State()).Close()
    {
      isOpen := false;
      generation := (generation + 1) % WORD;
      pendingSendCompletions := map[];
    }

    method OpenSocket()
      modifies this
      ensures State() == old(State()).Open()
    {
      Close();
      isOpen := true;
    }

    method Submit(purpose: Purpose) returns (accepted: bool)
      modifies this
      ensures State() == old(State()).Submit(purpose) && accepted == old(isOpen)
    {
      if !isOpen {
        return false;
      }
      pendingSendCompletions := pendingSendCompletions[nextSendID := Send(purpose, generation)];
      nextSendID := nextSendID + 1;
      accepted := true;
    }

    method TakeCompletion(sendID: nat) returns (send: Option<Send>)
      modifies this
      ensures sendID !in old(pendingSendCompletions) ==> send == None && State() == old(State())
      ensures sendID in old(pendingSendCompletions) ==>
                send == Some(old(pendingSendCompletions)[sendID]) && State() == old(State()).Settle(sendID)
    {
      if sendID !in pendingSendCompletions {
        return None;
      }
      send := Some(pendingSendCompletions[sendID]);
      pendingSendCompletions := pendingSendCompletions - {sendID};
    }
  }

  datatype SendOutcome = Completed(approved: bool) | Requeue(approved: bool) | Superseded

  lemma {:induction false} TakeAppend(c: Coordinator, order: seq<RequestID>, id: RequestID, shown: set<RequestID>)
    ensures var first := c.Take(order, shown);
            var second := first.0.Take([id], shown);
            c.Take(order + [id], shown) == (second.0, first.1 + second.1)
    decreases |order|
  {
    if order == [] {
      assert [] + [id] == [id];
      assert [] + c.Take([id], shown).1 == c.Take([id], shown).1;
    } else {
      var head, rest := order[0], order[1..];
      assert (order + [id])[0] == head && (order + [id])[1..] == rest + [id];
      if head !in c.queued || head in c.inFlight {
        TakeAppend(c, rest, id, shown);
      } else if head !in shown {
        TakeAppend(c.(queued := c.queued - {head}), rest, id, shown);
      } else {
        var marked := c.(inFlight := c.inFlight + {head});
        TakeAppend(marked, rest, id, shown);
        var first := marked.Take(rest, shown);
        Regroup([Answer(head, c.queued[head])], first.1, first.0.Take([id], shown).1);
      }
    }
  }

  lemma TakeOne(c: Coordinator, id: RequestID, shown: set<RequestID>)
    ensures c.Take([id], shown)
            == if id !in c.queued || id in c.inFlight then (c, [])
               else if id !in shown then (c.(queued := c.queued - {id}), [])
               else (c.(inFlight := c.inFlight + {id}), [Answer(id, c.queued[id])])
  {
    assert [id][1..] == [];
    assert [Answer(id, true)] + [] == [Answer(id, true)] && [Answer(id, false)] + [] == [Answer(id, false)];
    assert forall d: Coordinator :: d.Take([], shown) == (d, []);
  }

  lemma ElementsAppend(order: seq<RequestID>, id: RequestID)
    ensures Elements(order + [id]) == Elements(order) + {id}
  {
  }

  lemma ElementsEmpty()
    ensures Elements<RequestID>([]) == {}
  {
  }

  class ApprovalCoordinator {
    var queuedResponses: map<RequestID, bool>
    var inFlight: set<RequestID>

    function State(): Coordinator
      reads this
    {
      Coordinator(queuedResponses, inFlight)
    }

    constructor ()
      ensures State() == START.approvals
    {
      queuedResponses, inFlight := map[], {};
    }

    method Enqueue(request: RequestID, approved: bool)
      modifies this
      ensures State() == old(State()).Enqueue(request, approved)
    {
      queuedResponses := queuedResponses[request := approved];
    }

    method TakeIfSendable(request: RequestID, shown: set<RequestID>) returns (sendable: seq<Answer>)
      modifies this
      ensures (State(), sendable) == old(State()).Take([request], shown)
    {
      TakeOne(State(), request, shown);
      hide Coordinator.Take;
      sendable := [];
      if request in queuedResponses && request !in inFlight {
        if request !in shown {
          queuedResponses := queuedResponses - {request};
        } else {
          inFlight := inFlight + {request};
          sendable := [Answer(request, queuedResponses[request])];
        }
      }
    }

    /** Walks the whole dictionary in an order of its own choosing. */
    method TakeSendable(shown: set<RequestID>) returns (sendable: seq<Answer>, ghost order: seq<RequestID>)
      modifies this
      ensures Elements(order) == old(queuedResponses).Keys
      ensures old(State()).Take(order, shown) == (State(), sendable)
    {
      sendable, order := [], [];
      var rest := queuedResponses.Keys;
      hide Elements;
      ElementsEmpty();
      while rest != {}
        invariant old(State()).Take(order, shown) == (State(), sendable)
        invariant Elements(order) + rest == old(queuedResponses).Keys
        decreases |rest|
      {
        var id :| id in rest;
        rest := rest - {id};
        TakeAppend(old(State()), order, id, shown);
        ElementsAppend(order, id);
        hide Coordinator.Take;
        order := order + [id];
        var more := TakeIfSendable(id, shown);
        sendable := sendable + more;
      }
    }

    method ResolveSend(request: RequestID, approved: bool, success: bool) returns (outcome: SendOutcome)
      modifies this
      ensures State() == old(State()).Resolve(request, approved, success)
      ensures outcome == if !old(State()).Holds(request, approved) then Superseded
                         else if success then Completed(approved) else Requeue(approved)
    {
      inFlight := inFlight - {request};
      if request !in queuedResponses || queuedResponses[request] != approved {
        return Superseded;
      }
      if success {
        queuedResponses := queuedResponses - {request};
        return Completed(approved);
      }
      return Requeue(approved);
    }

    /** Returns the answers whose sends will never be reported. */
    method ResetInFlight() returns (released: seq<Answer>)
      modifies this
      ensures State() == old(State()).ResetInFlight()
      ensures forall a :: a in released <==> a.request in old(inFlight) && old(State()).Holds(a.request, a.approved)
    {
      released := [];
      var rest := inFlight;
      while rest != {}
        invariant rest <= inFlight
        invariant forall a :: a in released <==> a.request in inFlight - rest && State().Holds(a.request, a.approved)
        decreases |rest|
      {
        var id :| id in rest;
        rest := rest - {id};
        if id in queuedResponses {
          released := released + [Answer(id, queuedResponses[id])];
        }
      }
      inFlight := {};
    }

    method Reset()
      modifies this
      ensures State() == Coordinator(map[], {})
    {
      queuedResponses, inFlight := map[], {};
    }
  }

  class RemoteSessionController {
    var crypto: Option<Key>
    var nonceIOS: Option<nat>
    var nonceMac: Option<nat>
    var seqCounter: nat
    var minted: nat
    ghost var issued: nat

    ghost function State(): Session
      reads this
    {
      Session(crypto, nonceIOS, nonceMac, seqCounter, issued, minted)
    }

    constructor ()
      ensures State() == START.session
    {
      crypto, nonceIOS, nonceMac, seqCounter, minted, issued := None, None, None, 1, 0, 0;
    }

    method NextSeq() returns (number: nat)
      modifies this
      ensures State() == old(State()).NextSeq() && number == old(seqCounter)
    {
      number := seqCounter;
      seqCounter := (seqCounter + 1) % WORD;
      issued := issued + 1;
    }

    method MintIOSNonce() returns (nonce: nat)
      modifies this
      ensures State() == old(State()).MintIOSNonce() && nonceIOS == Some(nonce)
    {
      nonce := minted;
      minted := minted + 1;
      nonceIOS := Some(nonce);
    }

    method SetMacNonce(nonce: nat)
      modifies this
      ensures State() == old(State()).(nonceMac := Some(nonce))
    {
      nonceMac := Some(nonce);
    }

    method EstablishIfPossible(derives: bool) returns (established: bool)
      modifies this
      ensures State() == old(State()).Establish(derives)
      ensures established == (State() != old(State()))
    {
      if crypto.Some? || nonceIOS.None? || nonceMac.None? || !derives {
        return false;
      }
      crypto := Some(Key(nonceIOS.value, nonceMac.value));
      established := true;
    }

    method InvalidateSession(clearHandshakeMaterial: bool)
      modifies this
      ensures State() == old(State()).Invalidate(clearHandshakeMaterial)
    {
      crypto := None;
      seqCounter, issued := 1, 0;
      if clearHandshakeMaterial {
        nonceIOS, nonceMac := None, None;
      }
    }

    method ResetForRehandshake()
      modifies this
      ensures State() == old(State()).ResetForRehandshake()
    {
      crypto := None;
      seqCounter, issued := 1, 0;
      nonceMac := None;
      var nonce := MintIOSNonce();
    }
  }

  lemma StepKeepsValid(l: Link, e: Event, w: World)
    requires Delivery(l, {}) && Fresh(l)
    ensures Delivery(Step(l, e, w), {}) && Fresh(Step(l, e, w))
  {
    hide *;
    StepDelivery(l, e, w);
    StepFresh(l, e, w);
  }

  /** The glue. `w` holds what the world answers during the call; `frames` records
      every encrypted frame produced. */
  class RemoteClient {
    const transport: RemoteTransport
    const approvals: ApprovalCoordinator
    const session: RemoteSessionController
    var cards: map<RequestID, Card>
    var isConnected: bool
    var reconnectScheduled: bool
    ghost var frames: seq<Frame>

    ghost function State(): Link
      reads this, transport, approvals, session
    {
      Link(transport.State(), approvals.State(), cards, session.State(), isConnected, reconnectScheduled, frames)
    }

    /** Every answer is on its way at most once and every frame is fresh. */
    ghost predicate Valid()
      reads this, transport, approvals, session
    {
      Delivery(State(), {}) && Fresh(State())
    }

    constructor ()
      ensures Valid() && State() == START && fresh(transport) && fresh(approvals) && fresh(session)
    {
      transport := new RemoteTransport();
      approvals := new ApprovalCoordinator();
      session := new RemoteSessionController();
      cards, isConnected, reconnectScheduled, frames := map[], false, false, [];
      new;
      RunDelivery([]);
      RunFresh([]);
    }

    method UpdateCard(request: RequestID, card: Card)
      modifies this`cards
      ensures cards == Show(old(cards), request, card)
    {
      if request in cards {
        cards := cards[request := card];
      }
    }

    method ReleaseInFlightApprovals()
      modifies this`cards, approvals
      ensures approvals.State() == old(approvals.State()).ResetInFlight()
      ensures cards == Release(old(approvals.State()), old(cards))
    {
      var released := approvals.ResetInFlight();
      ghost var c := old(approvals.State());
      for i := 0 to |released|
        invariant approvals.State() == c.ResetInFlight()
        invariant cards.Keys == old(cards).Keys
        invariant forall id | id in cards ::
          if exists k :: 0 <= k < i && released[k].request == id
          then cards[id] == Queued(c.queued[id]) else cards[id] == old(cards)[id]
      {
        assert released[i] in released;
        UpdateCard(released[i].request, Queued(released[i].approved));
      }
      forall id | id in cards && id in c.inFlight && id in c.queued
        ensures cards[id] == Queued(c.queued[id])
      {
        assert Answer(id, c.queued[id]) in released;
      }
    }

    method TearDown(clearHandshakeMaterial: bool)
      modifies this`cards, this`isConnected, transport, approvals, session
      ensures State() == Teardown(old(State()), clearHandshakeMaterial)
    {
      transport.Close();
      ReleaseInFlightApprovals();
      isConnected := false;
      session.InvalidateSession(clearHandshakeMaterial);
    }

    method DisconnectSession(discardIntent: bool)
      modifies this, transport, approvals, session
      ensures State() == DisconnectNow(old(State()), discardIntent)
    {
      reconnectScheduled := false;
      TearDown(true);
      if discardIntent {
        approvals.Reset();
        cards := map[];
      }
    }

    method OnDisconnect(w: World)
      modifies this, transport, approvals, session
      ensures State() == HandleDisconnect(old(State()), w)
    {
      if reconnectScheduled {
        return;
      }
      TearDown(false);
      reconnectScheduled := w.retries;
    }

    method EndHandshake()
      modifies this, transport, approvals, session
      ensures State() == EndHandshakeForBrokenPairing(old(State()))
    {
      reconnectScheduled := false;
      TearDown(false);
    }

    method Start(force: bool, w: World)
      modifies this, transport, approvals, session
      ensures State() == StartConnection(old(State()), force, w)
    {
      if transport.isOpen && !force {
        return;
      }
      DisconnectSession(false);
      if w.opens {
        transport.OpenSocket();
      }
    }

    method SendCleartext()
      modifies transport, session
      ensures State() == SendClear(old(State()))
    {
      var number := session.NextSeq();
      var accepted := transport.Submit(Other);
    }

    method SayHello()
      modifies transport, session
      ensures State() == SendHello(old(State()))
    {
      if session.nonceIOS.None? {
        var nonce := session.MintIOSNonce();
      }
      SendCleartext();
    }

    method Encrypt(purpose: Purpose, seals: bool) returns (accepted: bool)
      modifies this`frames, transport, session
      ensures State() == SendEncrypted(old(State()), purpose, seals)
      ensures accepted == (CanEncrypt(old(State()), seals) && old(transport.isOpen))
    {
      if session.crypto.None? {
        return false;
      }
      ghost var issue := session.issued;
      var number := session.NextSeq();
      if !seals {
        return false;
      }
      frames := frames + [Frame(session.crypto.value, number, issue)];
      accepted := transport.Submit(purpose);
    }

    method OnApprovalResolved(request: RequestID, approved: bool, success: bool, w: World)
      modifies this, transport, approvals, session
      ensures State() == ResolveApproval(old(State()), request, approved, success, w)
    {
      var outcome := approvals.ResolveSend(request, approved, success);
      match outcome
      case Completed(_) =>
        cards := cards - {request};
      case Requeue(_) =>
        UpdateCard(request, Queued(approved));
        if !transport.isOpen {
          Start(false, w);
        }
      case Superseded =>
    }

    method SendAnswer(a: Answer, w: World)
      modifies this, transport, approvals, session
      ensures State() == SendApproval(old(State()), a, w)
    {
      UpdateCard(a.request, Sending(a.approved));
      var accepted := Encrypt(Approval(a.request, a.approved), a.request in w.sealed);
      if !accepted {
        OnApprovalResolved(a.request, a.approved, false, w);
      }
    }

    /** `order` is the order in which the ledger was read. */
    method Flush(w: World) returns (ghost order: seq<RequestID>)
      modifies this, transport, approvals, session
      ensures State() == FlushApprovals(old(State()), w.(order := order))
      ensures CanFlush(old(State())) ==> Elements(order) == old(approvals.queuedResponses).Keys
    {
      order := [];
      if approvals.queuedResponses == map[] {
        ElementsEmpty();
        return;
      }
      if session.crypto.None? || !isConnected || !transport.isOpen {
        if !transport.isOpen {
          Start(false, w);
        }
        return;
      }
      var sendable: seq<Answer>;
      sendable, order := approvals.TakeSendable(cards.Keys);
      ghost var taken, here := State(), w.(order := order);
      assert taken == old(State()).(approvals := old(State()).approvals.Take(order, cards.Keys).0);
      hide SendApproval, Coordinator.Take, StartConnection;
      var i := 0;
      while i < |sendable|
        invariant 0 <= i <= |sendable|
        invariant SendEach(State(), sendable[i..], here) == SendEach(taken, sendable, here)
      {
        assert sendable[i..][1..] == sendable[i + 1..];
        SendApprovalIgnoresOrder(State(), sendable[i], w, order);
        SendAnswer(sendable[i], w);
        i := i + 1;
      }
    }

    method RespondTo(request: RequestID, approved: bool, w: World) returns (ghost order: seq<RequestID>)
      modifies this, transport, approvals, session
      ensures State() == RespondToApproval(old(State()), request, approved, w.(order := order))
    {
      order := [];
      if request !in cards || cards[request].IsBusy() {
        return;
      }
      cards := cards[request := Queued(approved)];
      approvals.Enqueue(request, approved);
      order := Flush(w);
    }

    method SyncCards(listed: set<RequestID>)
      modifies this`cards
      ensures State() == Sync(old(State()), listed)
    {
      cards := map id | id in listed :: if id in cards then cards[id] else Idle;
    }

    method OnSendCompleted(sendID: nat, delivered: bool, w: World)
      modifies this, transport, approvals, session
      ensures State() == CompleteSend(old(State()), sendID, delivered, w)
    {
      var send := transport.TakeCompletion(sendID);
      if send.None? || send.value.generation != transport.generation {
        return;
      }
      if !delivered {
        OnDisconnect(w);
      }
      match send.value.purpose
      case Other =>
      case Approval(request, answer) => OnApprovalResolved(request, answer, delivered, w);
    }

    method BeginRecovery()
      modifies this, transport, session
      ensures State() == BeginHandshakeRecovery(old(State()))
    {
      isConnected := false;
      SayHello();
    }

    method Establish(w: World)
      modifies this`frames, transport, session
      ensures State() == EstablishSession(old(State()), w)
    {
      var established := session.EstablishIfPossible(w.derives);
      if established {
        var accepted := Encrypt(Other, w.seals);
      }
    }

    method OnHello(macNonce: nat, verdict: Verdict, w: World)
      modifies this, transport, approvals, session
      ensures State() == HandleHello(old(State()), macNonce, verdict, w)
    {
      if verdict != Accept {
        session.ResetForRehandshake();
      }
      if verdict == Escalate {
        OnDisconnect(w);
        return;
      }
      if verdict == ResetSession {
        BeginRecovery();
      }
      session.SetMacNonce(macNonce);
      Establish(w);
    }

    method OnDecryptFailure(verdict: Verdict, w: World)
      modifies this, transport, approvals, session
      ensures State() == NoteDecryptFailure(old(State()), verdict, w)
    {
      match verdict
      case Accept =>
      case ResetSession =>
        session.ResetForRehandshake();
        BeginRecovery();
      case Escalate =>
        session.ResetForRehandshake();
        OnDisconnect(w);
    }

    method SendFrames(n: nat, seals: bool)
      modifies this`frames, transport, session
      ensures State() == SendOthers(old(State()), n, seals)
    {
      hide SendEncrypted;
      var i := n;
      while i > 0
        invariant SendOthers(State(), i, seals) == SendOthers(old(State()), n, seals)
      {
        var accepted := Encrypt(Other, seals);
        i := i - 1;
      }
    }

    method OnSessionReady(others: nat, later: nat, w: World) returns (ghost order: seq<RequestID>)
      modifies this, transport, approvals, session
      ensures State() == HandleSessionReady(old(State()), others, later, w.(order := order))
    {
      hide SendOthers, FlushApprovals;
      order := [];
      if session.crypto.None? {
        return;
      }
      var wasConnected := isConnected;
      SendFrames(others, w.seals);
      isConnected := true;
      if !wasConnected {
        order := Flush(w);
      }
      SendFrames(later, w.seals);
    }

    method OnHandshakeTimeout(w: World)
      modifies this, transport, approvals, session
      ensures State() == HandshakeTimeout(old(State()), w)
    {
      transport.Close();
      isConnected := false;
      session.InvalidateSession(false);
      OnDisconnect(w);
    }

    method OnPairAccept(sameIdentity: bool, w: World)
      modifies this, transport, approvals, session
      ensures State() == if sameIdentity then EstablishSession(old(State()), w) else EndHandshakeForBrokenPairing(old(State()))
    {
      hide EstablishSession, EndHandshakeForBrokenPairing;
      if sameIdentity {
        Establish(w);
      } else {
        EndHandshake();
      }
    }

    // ----- What the user, the timers and the socket do -----

    method ReconnectTimerFires(w: World)
      requires Valid()
      modifies this, transport, approvals, session
      ensures Valid() && State() == Step(old(State()), ReconnectDue, w)
    {
      ghost var before := State();
      hide Delivery, Fresh, StartConnection;
      if reconnectScheduled {
        reconnectScheduled := false;
        Start(true, w);
      }
      StepKeepsValid(before, ReconnectDue, w);
    }

    method HandshakeRetryTimerFires(pairRequest: bool, w: World)
      requires Valid()
      modifies this, transport, approvals, session
      ensures Valid() && State() == Step(old(State()), HandshakeTick(pairRequest), w)
    {
      ghost var before := State();
      hide Delivery, Fresh, SendHello, SendClear;
      if transport.isOpen && !isConnected {
        SayHello();
        if pairRequest {
          SendCleartext();
        }
      }
      StepKeepsValid(before, HandshakeTick(pairRequest), w);
    }

    method HandshakeTimeoutTimerFires(w: World)
      requires Valid()
      modifies this, transport, approvals, session
      ensures Valid() && State() == Step(old(State()), HandshakeTimedOut, w)
    {
      ghost var before := State();
      hide Delivery, Fresh, HandshakeTimeout;
      if transport.isOpen && !isConnected {
        OnHandshakeTimeout(w);
      }
      StepKeepsValid(before, HandshakeTimedOut, w);
    }

    method UserResponds(request: RequestID, approved: bool, w: World) returns (ghost order: seq<RequestID>)
      requires Valid()
      modifies this, transport, approvals, session
      ensures Valid() && State() == Step(old(State()), Respond(request, approved), w.(order := order))
    {
      ghost var before := State();
      hide Delivery, Fresh, RespondToApproval, Sync, CompleteSend, StartConnection, DisconnectNow, SendEncrypted, HandleDisconnect,
        HandleHello, EstablishSession, EndHandshakeForBrokenPairing, HandleSessionReady, NoteDecryptFailure;
      order := [];
      order := RespondTo(request, approved, w);
      StepKeepsValid(before, Respond(request, approved), w.(order := order));
    }

    method ApprovalsListed(listed: set<RequestID>, w: World)
      requires Valid()
      modifies this, transport, approvals, session
      ensures Valid() && State() == Step(old(State()), SyncApprovals(listed), w)
    {
      ghost var before := State();
      hide Delivery, Fresh, RespondToApproval, Sync, CompleteSend, StartConnection, DisconnectNow, SendEncrypted, HandleDisconnect,
        HandleHello, EstablishSession, EndHandshakeForBrokenPairing, HandleSessionReady, NoteDecryptFailure;
      SyncCards(listed);
      StepKeepsValid(before, SyncApprovals(listed), w);
    }

    method SendSettles(sendID: nat, delivered: bool, w: World)
      requires Valid()
      modifies this, transport, approvals, session
      ensures Valid() && State() == Step(old(State()), SendCompleted(sendID, delivered), w)
    {
      ghost var before := State();
      hide Delivery, Fresh, RespondToApproval, Sync, CompleteSend, StartConnection, DisconnectNow, SendEncrypted, HandleDisconnect,
        HandleHello, EstablishSession, EndHandshakeForBrokenPairing, HandleSessionReady, NoteDecryptFailure;
      OnSendCompleted(sendID, delivered, w);
      StepKeepsValid(before, SendCompleted(sendID, delivered), w);
    }

    method UserConnects(force: bool, w: World)
      requires Valid()
      modifies this, transport, approvals, session
      ensures Valid() && State() == Step(old(State()), Connect(force), w)
    {
      ghost var before := State();
      hide Delivery, Fresh, RespondToApproval, Sync, CompleteSend, StartConnection, DisconnectNow, SendEncrypted, HandleDisconnect,
        HandleHello, EstablishSession, EndHandshakeForBrokenPairing, HandleSessionReady, NoteDecryptFailure;
      Start(force, w);
      StepKeepsValid(before, Connect(force), w);
    }

    method UserDisconnects(discardIntent: bool, w: World)
      requires Valid()
      modifies this, transport, approvals, session
      ensures Valid() && State() == Step(old(State()), Disconnect(discardIntent), w)
    {
      ghost var before := State();
      hide Delivery, Fresh, RespondToApproval, Sync, CompleteSend, StartConnection, DisconnectNow, SendEncrypted, HandleDisconnect,
        HandleHello, EstablishSession, EndHandshakeForBrokenPairing, HandleSessionReady, NoteDecryptFailure;
      DisconnectSession(discardIntent);
      StepKeepsValid(before, Disconnect(discardIntent), w);
    }

    method SendFrame(w: World)
      requires Valid()
      modifies this, transport, approvals, session
      ensures Valid() && State() == Step(old(State()), SendOther, w)
    {
      ghost var before := State();
      hide Delivery, Fresh, RespondToApproval, Sync, CompleteSend, StartConnection, DisconnectNow, SendEncrypted, HandleDisconnect,
        HandleHello, EstablishSession, EndHandshakeForBrokenPairing, HandleSessionReady, NoteDecryptFailure;
      var accepted := Encrypt(Other, w.seals);
      StepKeepsValid(before, SendOther, w);
    }

    /** A failure or frame of a socket that is closed does not reach the client. */
    method SocketFails(w: World)
      requires Valid()
      modifies this, transport, approvals, session
      ensures Valid() && State() == Step(old(State()), SocketFailed, w)
    {
      ghost var before := State();
      hide Delivery, Fresh, RespondToApproval, Sync, CompleteSend, StartConnection, DisconnectNow, SendEncrypted, HandleDisconnect,
        HandleHello, EstablishSession, EndHandshakeForBrokenPairing, HandleSessionReady, NoteDecryptFailure;
      if transport.isOpen {
        OnDisconnect(w);
      }
      StepKeepsValid(before, SocketFailed, w);
    }

    method HelloArrives(macNonce: nat, verdict: Verdict, w: World)
      requires Valid()
      modifies this, transport, approvals, session
      ensures Valid() && State() == Step(old(State()), HelloReceived(macNonce, verdict), w)
    {
      ghost var before := State();
      hide Delivery, Fresh, RespondToApproval, Sync, CompleteSend, StartConnection, DisconnectNow, SendEncrypted, HandleDisconnect,
        HandleHello, EstablishSession, EndHandshakeForBrokenPairing, HandleSessionReady, NoteDecryptFailure;
      if transport.isOpen {
        OnHello(macNonce, verdict, w);
      }
      StepKeepsValid(before, HelloReceived(macNonce, verdict), w);
    }

    method PairAcceptArrives(sameIdentity: bool, w: World)
      requires Valid()
      modifies this, transport, approvals, session
      ensures Valid() && State() == Step(old(State()), PairAccepted(sameIdentity), w)
    {
      ghost var before := State();
      hide Delivery, Fresh, RespondToApproval, Sync, CompleteSend, StartConnection, DisconnectNow, SendEncrypted, HandleDisconnect,
        HandleHello, EstablishSession, EndHandshakeForBrokenPairing, HandleSessionReady, NoteDecryptFailure;
      if transport.isOpen {
        OnPairAccept(sameIdentity, w);
      }
      StepKeepsValid(before, PairAccepted(sameIdentity), w);
    }

    method PairRejectArrives(w: World)
      requires Valid()
      modifies this, transport, approvals, session
      ensures Valid() && State() == Step(old(State()), PairRejected, w)
    {
      ghost var before := State();
      hide Delivery, Fresh, RespondToApproval, Sync, CompleteSend, StartConnection, DisconnectNow, SendEncrypted, HandleDisconnect,
        HandleHello, EstablishSession, EndHandshakeForBrokenPairing, HandleSessionReady, NoteDecryptFailure;
      if transport.isOpen {
        EndHandshake();
      }
      StepKeepsValid(before, PairRejected, w);
    }

    method SessionReadyArrives(others: nat, later: nat, w: World) returns (ghost order: seq<RequestID>)
      requires Valid()
      modifies this, transport, approvals, session
      ensures Valid() && State() == Step(old(State()), SessionReadyReceived(others, later), w.(order := order))
    {
      ghost var before := State();
      hide Delivery, Fresh, RespondToApproval, Sync, CompleteSend, StartConnection, DisconnectNow, SendEncrypted, HandleDisconnect,
        HandleHello, EstablishSession, EndHandshakeForBrokenPairing, HandleSessionReady, NoteDecryptFailure;
      order := [];
      if transport.isOpen {
        order := OnSessionReady(others, later, w);
      }
      StepKeepsValid(before, SessionReadyReceived(others, later), w.(order := order));
    }

    method DecryptionFails(verdict: Verdict, w: World)
      requires Valid()
      modifies this, transport, approvals, session
      ensures Valid() && State() == Step(old(State()), DecryptFailed(verdict), w)
    {
      ghost var before := State();
      hide Delivery, Fresh, RespondToApproval, Sync, CompleteSend, StartConnection, DisconnectNow, SendEncrypted, HandleDisconnect,
        HandleHello, EstablishSession, EndHandshakeForBrokenPairing, HandleSessionReady, NoteDecryptFailure;
      if transport.isOpen {
        OnDecryptFailure(verdict, w);
      }
      StepKeepsValid(before, DecryptFailed(verdict), w);
    }
  }

  lemma SendApprovalIgnoresOrder(l: Link, a: Answer, w: World, order: seq<RequestID>)
    ensures SendApproval(l, a, w) == SendApproval(l, a, w.(order := order))
  {
    hide SendEncrypted, DisconnectNow, Coordinator.Resolve, Show, CanEncrypt;
  }
}
