/** Answers survive socket churn and are never sent twice. */
module ApprovalDelivery {
  import opened Wrappers
  import opened RemoteLink

  /** Send `sendID` carries an answer to `request`. */
  predicate Carries(t: Transport, sendID: nat, request: RequestID) {
    sendID in t.pending && t.pending[sendID].purpose.Approval? && t.pending[sendID].purpose.request == request
  }

  ghost predicate HasCarrier(t: Transport, request: RequestID) {
    exists sendID :: Carries(t, sendID, request)
  }

  ghost predicate CarriesAnswer(t: Transport, request: RequestID, answer: bool) {
    exists sendID :: Carries(t, sendID, request) && t.pending[sendID].purpose.answer == answer
  }

  /** Every outstanding send is of the current generation, and of the open socket. */
  ghost predicate Fenced(t: Transport) {
    && (!t.isOpen ==> t.pending == map[])
    && (forall id | id in t.pending :: id < t.nextSendID && t.pending[id].generation == t.generation)
  }

  /** Requests in flight and outstanding approval sends correspond one to one,
      save for the answers of `unsent`, marked but not handed to the socket yet. */
  ghost predicate OneSendEach(t: Transport, c: Coordinator, unsent: set<RequestID>) {
    && unsent <= c.inFlight <= c.queued.Keys
    && (forall s, id | Carries(t, s, id) :: id in c.inFlight && id !in unsent)
    && (forall s, s', id | Carries(t, s, id) && Carries(t, s', id) :: s == s')
    && (forall id | id in c.inFlight && id !in unsent :: HasCarrier(t, id))
  }

  /** A busy card shows the queued answer; one shown as sending is being sent. */
  ghost predicate Truthful(card: Card, id: RequestID, c: Coordinator, t: Transport) {
    && (card.Queued? ==> c.Holds(id, card.answer))
    && (card.Sending? ==> c.Holds(id, card.answer) && id in c.inFlight && CarriesAnswer(t, id, card.answer))
  }

  ghost predicate CardsTruthful(l: Link) {
    forall id | id in l.cards :: Truthful(l.cards[id], id, l.approvals, l.transport)
  }

  ghost predicate Delivery(l: Link, unsent: set<RequestID>) {
    && Fenced(l.transport)
    && OneSendEach(l.transport, l.approvals, unsent)
    && CardsTruthful(l)
    && (l.transport.isOpen ==> !l.reconnecting)
  }

  // ----- Every piece of a step keeps it -----

  lemma TeardownDelivery(l: Link, clear: bool, unsent: set<RequestID>)
    requires OneSendEach(l.transport, l.approvals, unsent) && CardsTruthful(l)
    ensures Delivery(Teardown(l, clear), {}) && !Teardown(l, clear).transport.isOpen
  {
  }

  lemma DisconnectDelivery(l: Link, discardIntent: bool)
    requires OneSendEach(l.transport, l.approvals, {}) && CardsTruthful(l)
    ensures Delivery(DisconnectNow(l, discardIntent), {})
    ensures var r := DisconnectNow(l, discardIntent); !r.transport.isOpen && !r.reconnecting
  {
    TeardownDelivery(l.(reconnecting := false), true, {});
    hide Teardown, Delivery;
    if discardIntent {
      var down := Teardown(l.(reconnecting := false), true);
      assert Delivery(down.(approvals := Coordinator(map[], {}), cards := map[]), {}) by {
        assert down.transport.pending == map[] && !down.transport.isOpen;
      }
    }
  }

  lemma StartConnectionDelivery(l: Link, force: bool, w: World)
    requires OneSendEach(l.transport, l.approvals, {}) && CardsTruthful(l)
    requires !force && l.transport.isOpen ==> Delivery(l, {})
    ensures Delivery(StartConnection(l, force, w), {})
  {
    if !l.transport.isOpen || force {
      DisconnectDelivery(l, false);
      var down := DisconnectNow(l, false);
      hide DisconnectNow;
      assert down.transport.pending == map[];
    }
  }

  lemma HandleDisconnectDelivery(l: Link, w: World)
    requires Delivery(l, {})
    ensures Delivery(HandleDisconnect(l, w), {})
    ensures l.transport.isOpen ==> !HandleDisconnect(l, w).transport.isOpen
  {
    if !l.reconnecting {
      TeardownDelivery(l, false, {});
      hide Teardown, OneSendEach, CardsTruthful, Fenced;
    }
  }

  /** The socket, the ledger and the cards are all that matters here. */
  lemma SameDesk(a: Link, b: Link, unsent: set<RequestID>)
    requires Delivery(a, unsent)
    requires a.transport == b.transport && a.approvals == b.approvals && a.cards == b.cards
    requires b.transport.isOpen ==> !b.reconnecting
    ensures Delivery(b, unsent)
  {
  }

  lemma SubmitKeepsCarriers(t: Transport, purpose: Purpose)
    requires Fenced(t)
    ensures Fenced(t.Submit(purpose))
    ensures forall s, id :: Carries(t.Submit(purpose), s, id)
              <==> Carries(t, s, id) || (t.isOpen && s == t.nextSendID && purpose.Approval? && purpose.request == id)
    ensures forall id, a :: CarriesAnswer(t, id, a) ==> CarriesAnswer(t.Submit(purpose), id, a)
    ensures forall id :: HasCarrier(t, id) ==> HasCarrier(t.Submit(purpose), id)
  {
    var n := t.Submit(purpose);
    assert forall s, id :: Carries(t, s, id) ==> Carries(n, s, id) && n.pending[s] == t.pending[s];
    assert t.isOpen ==> t.nextSendID !in t.pending;
  }

  lemma SubmitOtherDelivery(l: Link, unsent: set<RequestID>)
    requires Delivery(l, unsent)
    ensures Delivery(l.(transport := l.transport.Submit(Other)), unsent)
  {
    SubmitKeepsCarriers(l.transport, Other);
    hide Carries, HasCarrier, CarriesAnswer, Fenced;
  }

  lemma SendClearDelivery(l: Link)
    requires Delivery(l, {})
    ensures Delivery(SendClear(l), {})
  {
    SubmitOtherDelivery(l, {});
    SameDesk(l.(transport := l.transport.Submit(Other)), SendClear(l), {});
    hide Delivery;
  }

  lemma SendHelloDelivery(l: Link)
    requires Delivery(l, {})
    ensures Delivery(SendHello(l), {})
  {
    var named := if l.session.nonceIOS.Some? then l else l.(session := l.session.MintIOSNonce());
    SameDesk(l, named, {});
    SendClearDelivery(named);
    hide Delivery;
  }

  lemma SendOtherDelivery(l: Link, seals: bool)
    requires Delivery(l, {})
    ensures Delivery(SendEncrypted(l, Other, seals), {})
  {
    SubmitOtherDelivery(l, {});
    var sent := l.(transport := l.transport.Submit(Other));
    var r := SendEncrypted(l, Other, seals);
    SameDesk(if CanEncrypt(l, seals) then sent else l, r, {});
    hide Delivery;
  }

  lemma {:induction false} SendOthersDelivery(l: Link, n: nat, seals: bool)
    requires Delivery(l, {})
    ensures Delivery(SendOthers(l, n, seals), {})
    decreases n
  {
    hide Delivery;
    if n > 0 {
      SendOtherDelivery(l, seals);
      SendOthersDelivery(SendEncrypted(l, Other, seals), n - 1, seals);
    }
  }

  lemma RecoveryDelivery(l: Link)
    requires Delivery(l, {})
    ensures Delivery(BeginHandshakeRecovery(l), {})
  {
    SameDesk(l, l.(isConnected := false), {});
    SendHelloDelivery(l.(isConnected := false));
    hide Delivery;
  }

  lemma EstablishDelivery(l: Link, w: World)
    requires Delivery(l, {})
    ensures Delivery(EstablishSession(l, w), {})
  {
    var keyed := l.(session := l.session.Establish(w.derives));
    SameDesk(l, keyed, {});
    SendOtherDelivery(keyed, w.seals);
    hide Delivery;
  }

  // ----- Sending what is queued -----

  ghost predicate Distinct(answers: seq<Answer>) {
    forall i, j | 0 <= i < j < |answers| :: answers[i].request != answers[j].request
  }

  function Requests(answers: seq<Answer>): set<RequestID> {
    set a | a in answers :: a.request
  }

  /** What `Take` hands out is queued, shown, was not in flight and now is; what it
      forgets is not shown. */
  lemma {:induction false} TakeSelects(c: Coordinator, order: seq<RequestID>, shown: set<RequestID>)
    ensures var r := c.Take(order, shown);
            && Distinct(r.1)
            && (forall a <- r.1 :: c.Holds(a.request, a.approved) && a.request in shown && a.request !in c.inFlight)
            && r.0.inFlight == c.inFlight + Requests(r.1)
            && (forall id :: id in r.0.queued <==>
                  id in c.queued && (id in shown || id in c.inFlight || id !in order))
            && (forall id | id in r.0.queued :: r.0.queued[id] == c.queued[id])
            && (forall id | id in order && id in c.queued && id in shown :: id in r.0.inFlight)
    decreases |order|
  {
    if order == [] {
      assert Requests([]) == {};
    } else {
      var id, rest := order[0], order[1..];
      if id !in c.queued || id in c.inFlight {
        TakeSelects(c, rest, shown);
      } else if id !in shown {
        TakeSelects(c.(queued := c.queued - {id}), rest, shown);
      } else {
        var marked := c.(inFlight := c.inFlight + {id});
        TakeSelects(marked, rest, shown);
        var later := marked.Take(rest, shown);
        var all := [Answer(id, c.queued[id])] + later.1;
        assert Requests(all) == {id} + Requests(later.1) by {
          assert forall a :: a in all <==> a == all[0] || a in later.1;
        }
      }
    }
  }

  lemma TakeDelivery(l: Link, order: seq<RequestID>)
    requires Delivery(l, {})
    ensures var taken := l.approvals.Take(order, l.cards.Keys);
            && Delivery(l.(approvals := taken.0), Requests(taken.1))
            && forall a <- taken.1 :: taken.0.Holds(a.request, a.approved)
  {
    TakeSelects(l.approvals, order, l.cards.Keys);
    var taken := l.approvals.Take(order, l.cards.Keys);
    assert Requests(taken.1) !! l.approvals.inFlight;
    assert Requests(taken.1) <= taken.0.queued.Keys;
    hide Requests, Carries, HasCarrier, CarriesAnswer, Fenced;
  }

  lemma HandedOver(l: Link, a: Answer, unsent: set<RequestID>, r: Link)
    requires Delivery(l, unsent) && l.transport.isOpen
    requires a.request in unsent && l.approvals.Holds(a.request, a.approved)
    requires r.transport == l.transport.Submit(Approval(a.request, a.approved)) && r.approvals == l.approvals
    requires r.cards == Show(l.cards, a.request, Sending(a.approved)) && r.reconnecting == l.reconnecting
    ensures Delivery(r, unsent - {a.request}) && r.transport.isOpen
  {
    SubmitKeepsCarriers(l.transport, Approval(a.request, a.approved));
    assert Carries(r.transport, l.transport.nextSendID, a.request);
    assert CarriesAnswer(r.transport, a.request, a.approved);
    assert HasCarrier(r.transport, a.request);
    assert r.transport.isOpen;
    hide Carries, CarriesAnswer, HasCarrier, Fenced;
    assert OneSendEach(r.transport, r.approvals, unsent - {a.request});
    hide OneSendEach;
    assert CardsTruthful(r);
  }

  lemma NotHandedOver(l: Link, a: Answer, unsent: set<RequestID>, r: Link)
    requires Delivery(l, unsent) && l.transport.isOpen
    requires a.request in unsent && l.approvals.Holds(a.request, a.approved)
    requires r.transport == l.transport && r.reconnecting == l.reconnecting
    requires r.approvals == Coordinator(l.approvals.queued, l.approvals.inFlight - {a.request})
    requires r.cards == Show(l.cards, a.request, Queued(a.approved))
    ensures Delivery(r, unsent - {a.request})
  {
    hide Carries, CarriesAnswer, HasCarrier, Fenced;
    assert OneSendEach(r.transport, r.approvals, unsent - {a.request});
    hide OneSendEach;
    assert CardsTruthful(r);
  }

  lemma EncryptedAnswer(l: Link, a: Answer, w: World)
    requires l.transport.isOpen && CanEncrypt(l, a.request in w.sealed)
    ensures var r := SendApproval(l, a, w);
            && r.transport == l.transport.Submit(Approval(a.request, a.approved)) && r.approvals == l.approvals
            && r.cards == Show(l.cards, a.request, Sending(a.approved)) && r.reconnecting == l.reconnecting
  {
    hide Show;
  }

  lemma FailedAnswer(l: Link, a: Answer, w: World)
    requires l.transport.isOpen && !CanEncrypt(l, a.request in w.sealed) && l.approvals.Holds(a.request, a.approved)
    ensures var r := SendApproval(l, a, w);
            && r.transport == l.transport && r.reconnecting == l.reconnecting
            && r.approvals == Coordinator(l.approvals.queued, l.approvals.inFlight - {a.request})
            && r.cards == Show(l.cards, a.request, Queued(a.approved))
  {
    assert Show(Show(l.cards, a.request, Sending(a.approved)), a.request, Queued(a.approved))
        == Show(l.cards, a.request, Queued(a.approved));
    hide Show, StartConnection;
  }

  /** Handing one marked answer to the open socket, or failing to encrypt it. */
  lemma SendApprovalDelivery(l: Link, a: Answer, w: World, unsent: set<RequestID>)
    requires Delivery(l, unsent) && l.transport.isOpen
    requires a.request in unsent && l.approvals.Holds(a.request, a.approved)
    ensures var r := SendApproval(l, a, w);
            && Delivery(r, unsent - {a.request}) && r.transport.isOpen
            && r.approvals.queued == l.approvals.queued
  {
    var r := SendApproval(l, a, w);
    hide Delivery, SendApproval, Show, CanEncrypt;
    if CanEncrypt(l, a.request in w.sealed) {
      EncryptedAnswer(l, a, w);
      HandedOver(l, a, unsent, r);
    } else {
      FailedAnswer(l, a, w);
      NotHandedOver(l, a, unsent, r);
    }
  }

  lemma {:induction false} SendEachDelivery(l: Link, answers: seq<Answer>, w: World)
    requires Delivery(l, Requests(answers)) && l.transport.isOpen && Distinct(answers)
    requires forall a <- answers :: l.approvals.Holds(a.request, a.approved)
    ensures Delivery(SendEach(l, answers, w), {})
    decreases |answers|
  {
    assert Requests([]) == {};
    if answers != [] {
      var a, rest := answers[0], answers[1..];
      assert Requests(answers) - {a.request} == Requests(rest) by {
        assert forall x :: x in answers <==> x == a || x in rest;
        assert forall x <- rest :: x.request != a.request;
      }
      assert a in answers && a.request in Requests(answers);
      hide Delivery, Requests;
      SendApprovalDelivery(l, a, w, Requests(answers));
      hide SendApproval;
      SendEachDelivery(SendApproval(l, a, w), rest, w);
    }
  }

  lemma FlushDelivery(l: Link, w: World)
    requires Delivery(l, {})
    ensures Delivery(FlushApprovals(l, w), {})
  {
    if CanFlush(l) {
      TakeDelivery(l, w.order);
      TakeSelects(l.approvals, w.order, l.cards.Keys);
      var taken := l.approvals.Take(w.order, l.cards.Keys);
      hide Delivery;
      SendEachDelivery(l.(approvals := taken.0), taken.1, w);
      hide SendEach;
    } else {
      StartConnectionDelivery(l, false, w);
    }
  }

  // ----- Completions -----

  /** The completion of the one send of `request`, already out of the map. */
  lemma SettledDelivery(l: Link, sendID: nat, approved: bool, request: RequestID, r: Link)
    requires Delivery(l, {}) && sendID in l.transport.pending
    requires l.transport.pending[sendID].purpose == Approval(request, approved)
    requires r.transport == l.transport.Settle(sendID) && r.reconnecting == l.reconnecting
    requires r.approvals == l.approvals.Resolve(request, approved, true)
    requires r.cards == if l.approvals.Holds(request, approved) then l.cards - {request} else l.cards
    ensures Delivery(r, {})
  {
    assert Carries(l.transport, sendID, request);
    SettleKeepsCarriers(l.transport, sendID);
    if !l.approvals.Holds(request, approved) && request in l.cards {
      NotShownSending(l, sendID, approved, request);
    }
    hide Carries, CarriesAnswer, HasCarrier;
  }

  lemma NotShownSending(l: Link, sendID: nat, approved: bool, request: RequestID)
    requires Delivery(l, {}) && Carries(l.transport, sendID, request) && request in l.cards
    requires l.transport.pending[sendID].purpose.answer == approved && !l.approvals.Holds(request, approved)
    ensures !l.cards[request].Sending?
  {
  }

  lemma SettleKeepsCarriers(t: Transport, sendID: nat)
    requires sendID in t.pending
    ensures forall s, id :: Carries(t.Settle(sendID), s, id) <==> Carries(t, s, id) && s != sendID
    ensures forall id, a :: CarriesAnswer(t, id, a) && !Carries(t, sendID, id) ==> CarriesAnswer(t.Settle(sendID), id, a)
    ensures forall id :: HasCarrier(t, id) && !Carries(t, sendID, id) ==> HasCarrier(t.Settle(sendID), id)
  {
    assert forall s, id | Carries(t, s, id) && s != sendID :: Carries(t.Settle(sendID), s, id);
  }

  /** A socket failure first tears the link down, which releases every answer. */
  lemma RequeuedDelivery(l: Link, request: RequestID, approved: bool, w: World)
    requires Delivery(l, {}) && !l.transport.isOpen
    ensures Delivery(ResolveApproval(l, request, approved, false, w), {})
  {
    var r := l.(approvals := l.approvals.Resolve(request, approved, false));
    assert l.transport.pending == map[];
    assert l.approvals.inFlight == {} by {
      assert forall id | id in l.approvals.inFlight :: HasCarrier(l.transport, id);
    }
    assert r.approvals == l.approvals;
    if l.approvals.Holds(request, approved) {
      var q := r.(cards := Show(l.cards, request, Queued(approved)));
      hide HasCarrier, CarriesAnswer, Carries;
      assert CardsTruthful(q);
      hide CardsTruthful, OneSendEach;
      StartConnectionDelivery(q, false, w);
    }
  }

  lemma SettledOtherDelivery(l: Link, sendID: nat)
    requires Delivery(l, {}) && sendID in l.transport.pending && l.transport.pending[sendID].purpose.Other?
    ensures Delivery(l.(transport := l.transport.Settle(sendID)), {})
  {
    SettleKeepsCarriers(l.transport, sendID);
    assert forall id :: !Carries(l.transport, sendID, id);
    hide Carries, CarriesAnswer, HasCarrier;
  }

  lemma CompleteSendDelivery(l: Link, sendID: nat, delivered: bool, w: World)
    requires Delivery(l, {})
    ensures Delivery(CompleteSend(l, sendID, delivered, w), {})
  {
    if sendID in l.transport.pending {
      var settled := l.(transport := l.transport.Settle(sendID));
      var purpose := l.transport.pending[sendID].purpose;
      assert l.transport.isOpen && !l.reconnecting;
      assert l.transport.pending[sendID].generation == l.transport.generation;
      if !delivered {
        SettledTeardown(l, sendID, w);
        var told := HandleDisconnect(settled, w);
        hide Delivery, HandleDisconnect;
        if purpose.Approval? {
          RequeuedDelivery(told, purpose.request, purpose.answer, w);
        }
      } else if purpose.Other? {
        SettledOtherDelivery(l, sendID);
      } else {
        var r := ResolveApproval(settled, purpose.request, purpose.answer, true, w);
        SettledDelivery(l, sendID, purpose.answer, purpose.request, r);
      }
    }
  }

  lemma SettledTeardown(l: Link, sendID: nat, w: World)
    requires Delivery(l, {}) && sendID in l.transport.pending
    ensures var told := HandleDisconnect(l.(transport := l.transport.Settle(sendID)), w);
            Delivery(told, {}) && !told.transport.isOpen
  {
    var settled := l.(transport := l.transport.Settle(sendID));
    assert Teardown(settled, false) == Teardown(l, false);
    TeardownDelivery(l, false, {});
    assert l.transport.isOpen;
    hide Teardown, OneSendEach, CardsTruthful;
  }

  // ----- The other events -----

  lemma RespondDelivery(l: Link, request: RequestID, approved: bool, w: World)
    requires Delivery(l, {})
    ensures Delivery(RespondToApproval(l, request, approved, w), {})
  {
    if request in l.cards && !l.cards[request].IsBusy() {
      var asked := l.(cards := l.cards[request := Queued(approved)],
                      approvals := l.approvals.Enqueue(request, approved));
      assert Delivery(asked, {}) by {
        hide Carries, CarriesAnswer, HasCarrier, Fenced;
      }
      hide Delivery;
      FlushDelivery(asked, w);
    }
  }

  lemma HelloDelivery(l: Link, macNonce: nat, verdict: Verdict, w: World)
    requires Delivery(l, {}) && l.transport.isOpen
    ensures Delivery(HandleHello(l, macNonce, verdict, w), {})
  {
    SameDesk(l, Rehandshake(l), {});
    if verdict.Escalate? {
      hide Delivery;
      HandleDisconnectDelivery(Rehandshake(l), w);
    } else {
      RecoveryDelivery(Rehandshake(l));
      var ready := if verdict.ResetSession? then BeginHandshakeRecovery(Rehandshake(l)) else l;
      var told := ready.(session := ready.session.(nonceMac := Some(macNonce)));
      SameDesk(ready, told, {});
      hide Delivery;
      EstablishDelivery(told, w);
    }
  }

  lemma DecryptFailureDelivery(l: Link, verdict: Verdict, w: World)
    requires Delivery(l, {}) && l.transport.isOpen
    ensures Delivery(NoteDecryptFailure(l, verdict, w), {})
  {
    SameDesk(l, Rehandshake(l), {});
    hide Delivery;
    HandleDisconnectDelivery(Rehandshake(l), w);
    RecoveryDelivery(Rehandshake(l));
  }

  lemma SessionReadyDelivery(l: Link, others: nat, later: nat, w: World)
    requires Delivery(l, {})
    ensures Delivery(HandleSessionReady(l, others, later, w), {})
  {
    if l.session.crypto.Some? {
      SendOthersDelivery(l, others, w.seals);
      var sent := SendOthers(l, others, w.seals);
      SameDesk(sent, sent.(isConnected := true), {});
      hide Delivery, FlushApprovals, SendOthers;
      FlushDelivery(sent.(isConnected := true), w);
      var told := if l.isConnected then sent.(isConnected := true) else FlushApprovals(sent.(isConnected := true), w);
      SendOthersDelivery(told, later, w.seals);
    }
  }

  lemma HandshakeTimeoutDelivery(l: Link, w: World)
    requires Delivery(l, {}) && l.transport.isOpen
    ensures Delivery(HandshakeTimeout(l, w), {})
  {
    var closed := l.(transport := l.transport.Close(), isConnected := false, session := l.session.Invalidate(false));
    var r, direct := Teardown(closed, false), Teardown(l, false);
    TeardownDelivery(l, false, {});
    assert !l.reconnecting;
    assert Fenced(r.transport) && !r.transport.isOpen && r.transport.pending == map[];
    assert r.approvals == direct.approvals && r.cards == direct.cards && direct.transport.pending == map[];
    assert r.approvals.inFlight == {};
    hide Teardown;
  }

  lemma ReceiveDelivery(l: Link, e: Event, w: World)
    requires Delivery(l, {}) && l.transport.isOpen
    ensures Delivery(Receive(l, e, w), {})
  {
    match e {
      case SocketFailed => HandleDisconnectDelivery(l, w);
      case HelloReceived(macNonce, verdict) => HelloDelivery(l, macNonce, verdict, w);
      case PairAccepted(_) => EstablishDelivery(l, w); TeardownDelivery(l.(reconnecting := false), false, {});
      case PairRejected => TeardownDelivery(l.(reconnecting := false), false, {});
      case SessionReadyReceived(others, later) => SessionReadyDelivery(l, others, later, w);
      case DecryptFailed(verdict) => DecryptFailureDelivery(l, verdict, w);
      case _ =>
    }
    hide Delivery;
  }

  lemma StepDelivery(l: Link, e: Event, w: World)
    requires Delivery(l, {})
    ensures Delivery(Step(l, e, w), {})
  {
    match e {
      case Respond(request, approved) => RespondDelivery(l, request, approved, w);
      case SyncApprovals(listed) =>
        hide Carries, CarriesAnswer, HasCarrier, Fenced;
      case SendCompleted(sendID, delivered) => CompleteSendDelivery(l, sendID, delivered, w);
      case Connect(force) => StartConnectionDelivery(l, force, w);
      case Disconnect(discardIntent) => DisconnectDelivery(l, discardIntent);
      case SendOther => SendOtherDelivery(l, w.seals);
      case ReconnectDue => StartConnectionDelivery(l.(reconnecting := false), true, w);
      case HandshakeTick(_) => SendHelloDelivery(l); SendClearDelivery(SendHello(l));
      case HandshakeTimedOut =>
        if l.transport.isOpen {
          HandshakeTimeoutDelivery(l, w);
        }
      case _ =>
        if l.transport.isOpen {
          ReceiveDelivery(l, e, w);
        }
    }
  }

  /** In every reachable state: each request has at most one outstanding approval
      send, of the current generation; what is in flight is queued and has such a
      send; a card shown as sending has a send carrying that very answer. */
  lemma {:induction false} RunDelivery(moves: seq<Move>)
    ensures Delivery(Run(moves), {})
  {
    if moves == [] {
      assert START.transport.pending == map[];
    } else {
      var last := moves[|moves| - 1];
      RunDelivery(moves[..|moves| - 1]);
      hide Delivery, Step;
      StepDelivery(Run(moves[..|moves| - 1]), last.event, last.world);
    }
  }

  // ----- How an answer leaves the queue -----

  predicate Delivered(l: Link, e: Event, id: RequestID, answer: bool) {
    && e.SendCompleted? && e.delivered && e.sendID in l.transport.pending
    && l.transport.pending[e.sendID] == Send(Approval(id, answer), l.transport.generation)
  }

  /** The event reads the queue for sending while the session is up. */
  predicate Flushes(l: Link, e: Event) {
    || (e.Respond? && e.request in l.cards && !l.cards[e.request].IsBusy() && CanFlush(l))
    || (e.SessionReadyReceived? && l.transport.isOpen && l.session.crypto.Some? && !l.isConnected)
  }

  predicate FoundResolved(l: Link, e: Event, w: World, id: RequestID) {
    Flushes(l, e) && id in w.order && id !in l.cards && id !in l.approvals.inFlight
  }

  predicate Reanswered(l: Link, e: Event, id: RequestID, answer: bool) {
    e.Respond? && e.request == id && e.approved != answer && id in l.cards && !l.cards[id].IsBusy()
  }

  lemma TeardownsKeepQueue(l: Link, force: bool, w: World)
    ensures StartConnection(l, force, w).approvals.queued == l.approvals.queued
    ensures HandleDisconnect(l, w).approvals.queued == l.approvals.queued
    ensures EndHandshakeForBrokenPairing(l).approvals.queued == l.approvals.queued
  {
  }

  lemma SendApprovalKeepsQueue(l: Link, a: Answer, w: World)
    ensures SendApproval(l, a, w).approvals.queued == l.approvals.queued
  {
    var shown := l.(cards := Show(l.cards, a.request, Sending(a.approved)));
    var sent := SendEncrypted(shown, Approval(a.request, a.approved), a.request in w.sealed);
    assert sent.approvals == l.approvals;
    hide SendEncrypted, Show, StartConnection;
    var requeued := sent.(approvals := sent.approvals.Resolve(a.request, a.approved, false),
                          cards := Show(sent.cards, a.request, Queued(a.approved)));
    TeardownsKeepQueue(requeued, false, w);
  }

  lemma {:induction false} SendEachKeepsQueue(l: Link, answers: seq<Answer>, w: World)
    ensures SendEach(l, answers, w).approvals.queued == l.approvals.queued
    decreases |answers|
  {
    if answers != [] {
      hide SendApproval;
      SendApprovalKeepsQueue(l, answers[0], w);
      SendEachKeepsQueue(SendApproval(l, answers[0], w), answers[1..], w);
    }
  }

  lemma {:induction false} SendOthersKeepsDesk(l: Link, n: nat, seals: bool)
    ensures var r := SendOthers(l, n, seals);
            && r.approvals == l.approvals && r.cards == l.cards && r.isConnected == l.isConnected
            && r.transport.isOpen == l.transport.isOpen && r.session.crypto == l.session.crypto
    decreases n
  {
    if n > 0 {
      SendOthersKeepsDesk(SendEncrypted(l, Other, seals), n - 1, seals);
    }
  }

  lemma FlushForgetsResolved(l: Link, w: World, id: RequestID)
    requires id in l.approvals.queued
    ensures var r := FlushApprovals(l, w);
            && (id in r.approvals.queued <==>
                  !(CanFlush(l) && id in w.order && id !in l.cards && id !in l.approvals.inFlight))
            && (id in r.approvals.queued ==> r.approvals.queued[id] == l.approvals.queued[id])
  {
    if CanFlush(l) {
      TakeSelects(l.approvals, w.order, l.cards.Keys);
      var taken := l.approvals.Take(w.order, l.cards.Keys);
      SendEachKeepsQueue(l.(approvals := taken.0), taken.1, w);
      hide SendEach;
    }
  }

  lemma ResolveSettles(l: Link, request: RequestID, approved: bool, success: bool, w: World, id: RequestID, answer: bool)
    requires l.approvals.Holds(id, answer)
    ensures ResolveApproval(l, request, approved, success, w).approvals.Holds(id, answer)
            <==> !(success && request == id && approved == answer)
  {
    var resolved := l.(approvals := l.approvals.Resolve(request, approved, success));
    var requeued := resolved.(cards := Show(l.cards, request, Queued(approved)));
    TeardownsKeepQueue(requeued, false, w);
    hide StartConnection, Show;
  }

  lemma CompletionSettles(l: Link, sendID: nat, delivered: bool, w: World, id: RequestID, answer: bool)
    requires l.approvals.Holds(id, answer)
    ensures CompleteSend(l, sendID, delivered, w).approvals.Holds(id, answer)
            <==> !Delivered(l, SendCompleted(sendID, delivered), id, answer)
  {
    if sendID in l.transport.pending {
      var send := l.transport.pending[sendID];
      var settled := l.(transport := l.transport.Settle(sendID));
      TeardownsKeepQueue(settled, false, w);
      hide HandleDisconnect, ResolveApproval;
      var told := if delivered then settled else HandleDisconnect(settled, w);
      if send.purpose.Approval? {
        ResolveSettles(told, send.purpose.request, send.purpose.answer, delivered, w, id, answer);
      }
    }
  }

  lemma SendingKeepsQueue(l: Link, w: World, macNonce: nat)
    ensures EstablishSession(l, w).approvals == l.approvals
    ensures BeginHandshakeRecovery(l).approvals == l.approvals
    ensures EstablishSession(l.(session := l.session.(nonceMac := Some(macNonce))), w).approvals == l.approvals
  {
  }

  lemma HelloKeepsQueue(l: Link, macNonce: nat, verdict: Verdict, w: World)
    ensures HandleHello(l, macNonce, verdict, w).approvals.queued == l.approvals.queued
  {
    TeardownsKeepQueue(Rehandshake(l), false, w);
    SendingKeepsQueue(Rehandshake(l), w, macNonce);
    SendingKeepsQueue(l, w, macNonce);
    SendingKeepsQueue(BeginHandshakeRecovery(Rehandshake(l)), w, macNonce);
    hide HandleDisconnect, EstablishSession, BeginHandshakeRecovery;
  }

  lemma ReceiveSettles(l: Link, e: Event, w: World, id: RequestID, answer: bool)
    requires l.approvals.Holds(id, answer) && l.transport.isOpen
    requires !e.Respond? && !e.SendCompleted? && !e.Disconnect?
    ensures Receive(l, e, w).approvals.Holds(id, answer) <==> !FoundResolved(l, e, w, id)
  {
    TeardownsKeepQueue(l, false, w);
    TeardownsKeepQueue(Rehandshake(l), false, w);
    SendingKeepsQueue(l, w, 0);
    SendingKeepsQueue(Rehandshake(l), w, 0);
    if e.SessionReadyReceived? && l.session.crypto.Some? {
      SendOthersKeepsDesk(l, e.others, w.seals);
      var confirmed := SendOthers(l, e.others, w.seals).(isConnected := true);
      FlushForgetsResolved(confirmed, w, id);
      SendOthersKeepsDesk(if l.isConnected then confirmed else FlushApprovals(confirmed, w), e.later, w.seals);
    } else if e.HelloReceived? {
      HelloKeepsQueue(l, e.macNonce, e.verdict, w);
    }
    hide FlushApprovals, SendOthers, HandleHello, HandleDisconnect, EndHandshakeForBrokenPairing, EstablishSession,
      BeginHandshakeRecovery;
  }

  lemma RespondSettles(l: Link, request: RequestID, approved: bool, w: World, id: RequestID, answer: bool)
    requires l.approvals.Holds(id, answer)
    ensures var e := Respond(request, approved);
            RespondToApproval(l, request, approved, w).approvals.Holds(id, answer)
            <==> !(FoundResolved(l, e, w, id) || Reanswered(l, e, id, answer))
  {
    if request in l.cards && !l.cards[request].IsBusy() {
      var asked := l.(cards := l.cards[request := Queued(approved)], approvals := l.approvals.Enqueue(request, approved));
      FlushForgetsResolved(asked, w, id);
      hide FlushApprovals;
    }
  }

  /** The user, the timers and other sends leave the ledger alone, unless the user
      discards it. */
  lemma LocalEventSettles(l: Link, e: Event, w: World, id: RequestID, answer: bool)
    requires l.approvals.Holds(id, answer)
    requires e.SyncApprovals? || e.Connect? || e.Disconnect? || e.SendOther? || e.ReconnectDue? || e.HandshakeTick? || e.HandshakeTimedOut?
    ensures Step(l, e, w).approvals.Holds(id, answer) <==> e != Disconnect(true)
  {
    TeardownsKeepQueue(l, true, w);
    TeardownsKeepQueue(l, false, w);
    TeardownsKeepQueue(l.(reconnecting := false), true, w);
    hide StartConnection;
  }

  /** An answer leaves the queue exactly when that same answer is reported sent in
      its own generation, when a flush finds its request gone, when the user gives
      the opposite answer, or when the user's intent is discarded. */
  lemma AnswerLeavesQueueOnlyWhen(l: Link, e: Event, w: World, id: RequestID, answer: bool)
    requires l.approvals.Holds(id, answer)
    ensures Step(l, e, w).approvals.Holds(id, answer)
            <==> !(|| Delivered(l, e, id, answer) || FoundResolved(l, e, w, id)
                   || Reanswered(l, e, id, answer) || e == Disconnect(true))
  {
    match e {
      case Respond(request, approved) =>
        RespondSettles(l, request, approved, w, id, answer);
        hide RespondToApproval;
      case SendCompleted(sendID, delivered) =>
        CompletionSettles(l, sendID, delivered, w, id, answer);
        hide CompleteSend;
      case SocketFailed | HelloReceived(_, _) | PairAccepted(_) | PairRejected | SessionReadyReceived(_, _) | DecryptFailed(_) =>
        if l.transport.isOpen {
          ReceiveSettles(l, e, w, id, answer);
        }
        hide Receive;
      case _ =>
        LocalEventSettles(l, e, w, id, answer);
        hide Step;
    }
  }

  // ----- A flush leaves nothing behind -----

  lemma {:induction false} SendEachSends(l: Link, answers: seq<Answer>, w: World)
    requires l.transport.isOpen && l.session.crypto.Some? && Fenced(l.transport)
    requires Distinct(answers) && Requests(answers) <= w.sealed && Requests(answers) <= l.cards.Keys
    ensures var r := SendEach(l, answers, w);
            && r.approvals == l.approvals && r.cards.Keys == l.cards.Keys
            && (forall a <- answers :: r.cards[a.request] == Sending(a.approved))
            && (forall id | id in l.cards && id !in Requests(answers) :: r.cards[id] == l.cards[id])
            && (forall a <- answers :: CarriesAnswer(r.transport, a.request, a.approved))
            && (forall id, a :: CarriesAnswer(l.transport, id, a) ==> CarriesAnswer(r.transport, id, a))
    decreases |answers|
  {
    if answers != [] {
      var a, rest := answers[0], answers[1..];
      assert a in answers && a.request in Requests(answers);
      assert forall x :: x in answers <==> x == a || x in rest;
      assert Requests(rest) == Requests(answers) - {a.request};
      var next := SendApproval(l, a, w);
      SubmitKeepsCarriers(l.transport, Approval(a.request, a.approved));
      assert next.transport == l.transport.Submit(Approval(a.request, a.approved)) && next.approvals == l.approvals;
      assert next.cards == l.cards[a.request := Sending(a.approved)] && next.session.crypto.Some?;
      assert Carries(next.transport, l.transport.nextSendID, a.request);
      assert CarriesAnswer(next.transport, a.request, a.approved);
      hide SendApproval, Carries, CarriesAnswer, Fenced, Requests;
      SendEachSends(next, rest, w);
    }
  }

  /** While the session is up and encryption works, a flush that reads the whole
      queue sends every answer whose request is shown and that was not already on
      its way: it is outstanding with the queued value, and its card says so. */
  lemma FlushSendsEveryAnswer(l: Link, w: World)
    requires Delivery(l, {}) && CanFlush(l)
    requires l.approvals.queued.Keys <= (set id <- w.order) * w.sealed
    ensures var r := FlushApprovals(l, w);
            && r.approvals.queued.Keys == r.approvals.inFlight
            && forall id | id in r.approvals.queued && id !in l.approvals.inFlight ::
                 var answer := r.approvals.queued[id];
                 && id in r.cards && r.cards[id] == Sending(answer)
                 && CarriesAnswer(r.transport, id, answer)
  {
    if l.approvals.queued != map[] {
      TakeSelects(l.approvals, w.order, l.cards.Keys);
      var taken := l.approvals.Take(w.order, l.cards.Keys);
      forall a <- taken.1
        ensures a.request in w.sealed && a.request in l.cards
      {
        assert a.request in l.approvals.queued.Keys;
      }
      SendEachSends(l.(approvals := taken.0), taken.1, w);
      hide SendEach, CarriesAnswer, Carries, HasCarrier;
      forall id | id in taken.0.queued
        ensures id in taken.0.inFlight
      {
        assert id in l.approvals.queued.Keys;
      }
    }
  }
}
