/** The phone's remote link as a state machine: the socket with its generation
    counter, the ledger of approval answers, the key epoch with its restarting
    sequence counter, and the client glue that moves all three together.

    What the model cannot see is an argument of the event: the replay guard's
    verdict, whether a key can be derived, whether a frame could be encrypted,
    whether a socket could be opened, and the order in which a dictionary is read. */
module RemoteLink {
  import opened Wrappers

  datatype RequestID = RequestID(text: string)

  const WORD: nat := 0x1_0000_0000_0000_0000

  // ----- The socket -----

  datatype Purpose = Approval(request: RequestID, answer: bool) | Other

  datatype Send = Send(purpose: Purpose, generation: nat)

  /** `pending` holds the sends whose completion has not been called yet. */
  datatype Transport = Transport(generation: nat, isOpen: bool, pending: map<nat, Send>, nextSendID: nat) {
    function Close(): Transport {
      Transport((generation + 1) % WORD, false, map[], nextSendID)
    }

    function Open(): Transport {
      Close().(isOpen := true)
    }

    function Submit(purpose: Purpose): Transport {
      if isOpen
      then this.(pending := pending[nextSendID := Send(purpose, generation)], nextSendID := nextSendID + 1)
      else this
    }

    function Settle(sendID: nat): Transport {
      this.(pending := pending - {sendID})
    }
  }

  // ----- The ledger of answers -----

  datatype Answer = Answer(request: RequestID, approved: bool)

  datatype Coordinator = Coordinator(queued: map<RequestID, bool>, inFlight: set<RequestID>) {
    function Enqueue(request: RequestID, approved: bool): Coordinator {
      this.(queued := queued[request := approved])
    }

    predicate Holds(request: RequestID, approved: bool) {
      request in queued && queued[request] == approved
    }

    /** Reads the dictionary in the given order: what is queued and not in flight
        is marked in flight, or forgotten when its request is no longer shown. */
    function Take(order: seq<RequestID>, shown: set<RequestID>): (Coordinator, seq<Answer>)
      decreases |order|
    {
      if order == [] then (this, [])
      else
        var id, rest := order[0], order[1..];
        if id !in queued || id in inFlight then Take(rest, shown)
        else if id !in shown then this.(queued := queued - {id}).Take(rest, shown)
        else
          var later := this.(inFlight := inFlight + {id}).Take(rest, shown);
          (later.0, [Answer(id, queued[id])] + later.1)
    }

    function Resolve(request: RequestID, approved: bool, success: bool): Coordinator {
      Coordinator(if Holds(request, approved) && success then queued - {request} else queued, inFlight - {request})
    }

    function ResetInFlight(): Coordinator {
      this.(inFlight := {})
    }
  }

  // ----- The key epoch -----

  /** A session key stands for the pair of nonces it is derived from. */
  datatype Key = Key(ios: nat, mac: nat)

  /** `minted` counts the nonces drawn so far, so that each draw is new; `issued`
      counts the sequence numbers drawn since the counter was last restarted. */
  datatype Session = Session(crypto: Option<Key>, nonceIOS: Option<nat>, nonceMac: Option<nat>,
                             seqCounter: nat, issued: nat, minted: nat) {
    function NextSeq(): Session {
      this.(seqCounter := (seqCounter + 1) % WORD, issued := issued + 1)
    }

    function MintIOSNonce(): Session {
      this.(nonceIOS := Some(minted), minted := minted + 1)
    }

    function Establish(derives: bool): Session {
      if crypto.None? && nonceIOS.Some? && nonceMac.Some? && derives
      then this.(crypto := Some(Key(nonceIOS.value, nonceMac.value)))
      else this
    }

    function Invalidate(clearHandshakeMaterial: bool): Session {
      var dropped := this.(crypto := None, seqCounter := 1, issued := 0);
      if clearHandshakeMaterial then dropped.(nonceIOS := None, nonceMac := None) else dropped
    }

    function ResetForRehandshake(): Session {
      this.(crypto := None, seqCounter := 1, issued := 0, nonceMac := None).MintIOSNonce()
    }
  }

  // ----- The client -----

  /** What an approval card shows. */
  datatype Card = Idle | Queued(answer: bool) | Sending(answer: bool) {
    predicate IsBusy() { !Idle? }
  }

  /** An encrypted frame as produced; `issue` is its place among the numbers
      drawn since the counter was restarted. */
  datatype Frame = Frame(key: Key, number: nat, issue: nat)

  datatype Link = Link(transport: Transport, approvals: Coordinator, cards: map<RequestID, Card>,
                       session: Session, isConnected: bool, reconnecting: bool, frames: seq<Frame>)

  const START := Link(Transport(0, false, map[], 0), Coordinator(map[], {}), map[],
                      Session(None, None, None, 1, 0, 0), false, false, [])

  /** What the outside world answers during one event. */
  datatype World = World(opens: bool, retries: bool, derives: bool, seals: bool,
                         order: seq<RequestID>, sealed: set<RequestID>)

  datatype Verdict = Accept | ResetSession | Escalate

  datatype Event =
    | Respond(request: RequestID, approved: bool)
    | SyncApprovals(listed: set<RequestID>)
    | SendCompleted(sendID: nat, delivered: bool)
    | SocketFailed
    | Connect(force: bool)
    | Disconnect(discardIntent: bool)
    | ReconnectDue
    | HandshakeTick(pairRequest: bool)
    | HandshakeTimedOut
    | HelloReceived(macNonce: nat, verdict: Verdict)
    | PairAccepted(sameIdentity: bool)
    | PairRejected
    | SessionReadyReceived(others: nat, later: nat)
    | DecryptFailed(verdict: Verdict)
    | SendOther

  function Show(cards: map<RequestID, Card>, request: RequestID, card: Card): map<RequestID, Card> {
    if request in cards then cards[request := card] else cards
  }

  function Release(c: Coordinator, cards: map<RequestID, Card>): map<RequestID, Card> {
    map id | id in cards :: if id in c.inFlight && id in c.queued then Queued(c.queued[id]) else cards[id]
  }

  /** The common part of every teardown: close, release, drop the key. */
  function Teardown(l: Link, clearHandshakeMaterial: bool): Link {
    l.(transport := l.transport.Close(), cards := Release(l.approvals, l.cards),
       approvals := l.approvals.ResetInFlight(), isConnected := false,
       session := l.session.Invalidate(clearHandshakeMaterial))
  }

  function DisconnectNow(l: Link, discardIntent: bool): Link {
    var down := Teardown(l.(reconnecting := false), true);
    if discardIntent then down.(approvals := Coordinator(map[], {}), cards := map[]) else down
  }

  function HandleDisconnect(l: Link, w: World): Link {
    if l.reconnecting then l else Teardown(l, false).(reconnecting := w.retries)
  }

  function EndHandshakeForBrokenPairing(l: Link): Link {
    Teardown(l.(reconnecting := false), false)
  }

  function StartConnection(l: Link, force: bool, w: World): Link {
    if l.transport.isOpen && !force then l
    else
      var down := DisconnectNow(l, false);
      if w.opens then down.(transport := down.transport.Open()) else down
  }

  function SendClear(l: Link): Link {
    l.(session := l.session.NextSeq(), transport := l.transport.Submit(Other))
  }

  function SendHello(l: Link): Link {
    SendClear(if l.session.nonceIOS.Some? then l else l.(session := l.session.MintIOSNonce()))
  }

  predicate CanEncrypt(l: Link, seals: bool) {
    l.session.crypto.Some? && seals
  }

  /** Without a key nothing happens; when encryption fails a number is used up. */
  function SendEncrypted(l: Link, purpose: Purpose, seals: bool): Link {
    if l.session.crypto.None? then l
    else
      var drawn := l.(session := l.session.NextSeq());
      if !seals then drawn
      else drawn.(frames := l.frames + [Frame(l.session.crypto.value, l.session.seqCounter, l.session.issued)],
                  transport := l.transport.Submit(purpose))
  }

  function SendOthers(l: Link, n: nat, seals: bool): Link
    decreases n
  {
    if n == 0 then l else SendOthers(SendEncrypted(l, Other, seals), n - 1, seals)
  }

  /** The completion of an approval send, with the side effects on its card. */
  function ResolveApproval(l: Link, request: RequestID, approved: bool, success: bool, w: World): Link {
    var resolved := l.(approvals := l.approvals.Resolve(request, approved, success));
    if !l.approvals.Holds(request, approved) then resolved
    else if success then resolved.(cards := l.cards - {request})
    else
      var requeued := resolved.(cards := Show(l.cards, request, Queued(approved)));
      if requeued.transport.isOpen then requeued else StartConnection(requeued, false, w)
  }

  function SendApproval(l: Link, a: Answer, w: World): Link {
    var shown := l.(cards := Show(l.cards, a.request, Sending(a.approved)));
    var sent := SendEncrypted(shown, Approval(a.request, a.approved), a.request in w.sealed);
    if CanEncrypt(shown, a.request in w.sealed) && shown.transport.isOpen then sent
    else ResolveApproval(sent, a.request, a.approved, false, w)
  }

  function SendEach(l: Link, answers: seq<Answer>, w: World): Link
    decreases |answers|
  {
    if answers == [] then l else SendEach(SendApproval(l, answers[0], w), answers[1..], w)
  }

  predicate CanFlush(l: Link) {
    l.session.crypto.Some? && l.isConnected && l.transport.isOpen
  }

  function FlushApprovals(l: Link, w: World): Link {
    if l.approvals.queued == map[] then l
    else if !CanFlush(l) then
      if l.transport.isOpen then l else StartConnection(l, false, w)
    else
      var taken := l.approvals.Take(w.order, l.cards.Keys);
      SendEach(l.(approvals := taken.0), taken.1, w)
  }

  function RespondToApproval(l: Link, request: RequestID, approved: bool, w: World): Link {
    if request !in l.cards || l.cards[request].IsBusy() then l
    else FlushApprovals(l.(cards := l.cards[request := Queued(approved)],
                           approvals := l.approvals.Enqueue(request, approved)), w)
  }

  /** The authoritative list replaces the cards; a card already shown keeps its state. */
  function Sync(l: Link, listed: set<RequestID>): Link {
    l.(cards := map id | id in listed :: if id in l.cards then l.cards[id] else Idle)
  }

  /** A callback finds its completion only while its socket is the current one. */
  function CompleteSend(l: Link, sendID: nat, delivered: bool, w: World): Link {
    if sendID !in l.transport.pending then l
    else
      var send := l.transport.pending[sendID];
      var settled := l.(transport := l.transport.Settle(sendID));
      if send.generation != l.transport.generation then settled
      else
        var told := if delivered then settled else HandleDisconnect(settled, w);
        match send.purpose
        case Other => told
        case Approval(request, answer) => ResolveApproval(told, request, answer, delivered, w)
  }

  function BeginHandshakeRecovery(l: Link): Link {
    SendHello(l.(isConnected := false))
  }

  function EstablishSession(l: Link, w: World): Link {
    var s := l.session.Establish(w.derives);
    if s == l.session then l else SendEncrypted(l.(session := s), Other, w.seals)
  }

  function Rehandshake(l: Link): Link {
    l.(session := l.session.ResetForRehandshake())
  }

  function HandleHello(l: Link, macNonce: nat, verdict: Verdict, w: World): Link {
    match verdict
    case Escalate => HandleDisconnect(Rehandshake(l), w)
    case _ =>
      var ready := if verdict.ResetSession? then BeginHandshakeRecovery(Rehandshake(l)) else l;
      EstablishSession(ready.(session := ready.session.(nonceMac := Some(macNonce))), w)
  }

  function NoteDecryptFailure(l: Link, verdict: Verdict, w: World): Link {
    match verdict
    case Accept => l
    case ResetSession => BeginHandshakeRecovery(Rehandshake(l))
    case Escalate => HandleDisconnect(Rehandshake(l), w)
  }

  /** Some frames go out before the answers and some after them. */
  function HandleSessionReady(l: Link, others: nat, later: nat, w: World): Link {
    if l.session.crypto.None? then l
    else
      var confirmed := SendOthers(l, others, w.seals).(isConnected := true);
      SendOthers(if l.isConnected then confirmed else FlushApprovals(confirmed, w), later, w.seals)
  }

  function HandshakeTimeout(l: Link, w: World): Link {
    HandleDisconnect(l.(transport := l.transport.Close(), isConnected := false,
                        session := l.session.Invalidate(false)), w)
  }

  /** Frames and failures belong to a generation: they reach the client only
      while the socket they came from is open. */
  function Step(l: Link, e: Event, w: World): Link {
    match e
    case Respond(request, approved) => RespondToApproval(l, request, approved, w)
    case SyncApprovals(listed) => Sync(l, listed)
    case SendCompleted(sendID, delivered) => CompleteSend(l, sendID, delivered, w)
    case Connect(force) => StartConnection(l, force, w)
    case Disconnect(discardIntent) => DisconnectNow(l, discardIntent)
    case SendOther => SendEncrypted(l, Other, w.seals)
    case ReconnectDue =>
      if l.reconnecting then StartConnection(l.(reconnecting := false), true, w) else l
    case HandshakeTick(pairRequest) =>
      if !l.transport.isOpen || l.isConnected then l
      else if pairRequest then SendClear(SendHello(l)) else SendHello(l)
    case HandshakeTimedOut =>
      if !l.transport.isOpen || l.isConnected then l else HandshakeTimeout(l, w)
    case _ => if l.transport.isOpen then Receive(l, e, w) else l
  }

  function Receive(l: Link, e: Event, w: World): Link {
    match e
    case SocketFailed => HandleDisconnect(l, w)
    case HelloReceived(macNonce, verdict) => HandleHello(l, macNonce, verdict, w)
    case PairAccepted(sameIdentity) =>
      if sameIdentity then EstablishSession(l, w) else EndHandshakeForBrokenPairing(l)
    case PairRejected => EndHandshakeForBrokenPairing(l)
    case SessionReadyReceived(others, later) => HandleSessionReady(l, others, later, w)
    case DecryptFailed(verdict) => NoteDecryptFailure(l, verdict, w)
    case _ => l
  }

  /** An event together with the world's answers. */
  datatype Move = Move(event: Event, world: World)

  function Run(moves: seq<Move>): Link {
    if moves == [] then START
    else
      var last := moves[|moves| - 1];
      Step(Run(moves[..|moves| - 1]), last.event, last.world)
  }
}
