/** The link seen from outside: whether its socket is open, whether the session is
    confirmed or a reconnect is due, and which key and nonces it holds. Whatever
    answers and frames are under way, these follow a small machine of their own. */
module LinkStatus {
  import opened ApprovalDelivery
  import opened RemoteLink
  import opened Wrappers

  /** `minted` is the iOS nonce that would be drawn next. */
  datatype Status = Status(isOpen: bool, confirmed: bool, due: bool, key: Option<Key>,
                           nonceIOS: Option<nat>, nonceMac: Option<nat>, minted: nat)

  function StatusOf(l: Link): Status {
    Status(l.transport.isOpen, l.isConnected, l.reconnecting, l.session.crypto,
           l.session.nonceIOS, l.session.nonceMac, l.session.minted)
  }

  const OFF := Status(false, false, false, None, None, None, 0)

  /** A connection started afresh keeps nothing. */
  function Restarted(s: Status, opens: bool): Status {
    Status(opens, false, false, None, None, None, s.minted)
  }

  /** The socket and the key are gone; the nonces stay, and a reconnect is due or not. */
  function Down(s: Status, due: bool): Status {
    s.(isOpen := false, confirmed := false, key := None, due := due)
  }

  /** A failure is noticed once: while a reconnect is due it changes nothing. */
  function Failed(s: Status, retries: bool): Status {
    if s.due then s else Down(s, retries)
  }

  /** A handshake from the beginning: a new iOS nonce, no Mac nonce, no key. */
  function Renewed(s: Status): Status {
    s.(key := None, nonceIOS := Some(s.minted), nonceMac := None, minted := s.minted + 1)
  }

  /** The key of both nonces, unless there is one already or it cannot be derived. */
  function KeyOf(s: Status, derives: bool): Option<Key> {
    if s.key.None? && s.nonceIOS.Some? && s.nonceMac.Some? && derives then Some(Key(s.nonceIOS.value, s.nonceMac.value)) else s.key
  }

  /** What an event does to the status. The answers come in only where they make the
      client reconnect: `asks` says that this event leaves an answer that cannot be
      sent because there is no socket. */
  function Next(s: Status, e: Event, asks: bool, fails: bool, w: World): Status {
    match e
    case Respond(_, _) => if asks then Restarted(s, w.opens) else s
    case SyncApprovals(_) => s
    case SendOther => s
    case SendCompleted(_, _) =>
      var told := if fails then Failed(s, w.retries) else s;
      if asks then Restarted(told, w.opens) else told
    case Connect(force) => if s.isOpen && !force then s else Restarted(s, w.opens)
    case Disconnect(_) => Restarted(s, false)
    case ReconnectDue => if s.due then Restarted(s, w.opens) else s
    case HandshakeTick(_) =>
      if s.isOpen && !s.confirmed && s.nonceIOS.None? then s.(nonceIOS := Some(s.minted), minted := s.minted + 1) else s
    case HandshakeTimedOut => if s.isOpen && !s.confirmed then Down(s, s.due || w.retries) else s
    case _ => if s.isOpen then NextReceived(s, e, w) else s
  }

  function NextReceived(s: Status, e: Event, w: World): Status {
    match e
    case SocketFailed => Failed(s, w.retries)
    case PairRejected => Down(s, false)
    case PairAccepted(same) => if same then s.(key := KeyOf(s, w.derives)) else Down(s, false)
    case SessionReadyReceived(_, _) => if s.key.Some? then s.(confirmed := true) else s
    case DecryptFailed(verdict) =>
      (match verdict
       case Accept => s
       case ResetSession => Renewed(s).(confirmed := false)
       case Escalate => Failed(Renewed(s), w.retries))
    case HelloReceived(mac, verdict) =>
      (match verdict
       case Accept => var told := s.(nonceMac := Some(mac)); told.(key := KeyOf(told, w.derives))
       case ResetSession =>
         var told := Renewed(s).(confirmed := false, nonceMac := Some(mac));
         told.(key := KeyOf(told, w.derives))
       case Escalate => Failed(Renewed(s), w.retries))
    case _ => s
  }

  /** The socket is closed and the user has just answered a card that was idle; or a
      failed send has left its answer queued and the socket closed. */
  predicate Asks(l: Link, e: Event, w: World) {
    match e
    case Respond(id, _) => id in l.cards && l.cards[id] == Idle && !l.transport.isOpen
    case SendCompleted(sendID, delivered) =>
      && !delivered && Current(l, sendID) && l.transport.pending[sendID].purpose.Approval?
      && l.approvals.Holds(l.transport.pending[sendID].purpose.request, l.transport.pending[sendID].purpose.answer)
      && (l.reconnecting ==> !l.transport.isOpen)
    case _ => false
  }

  /** The send belongs to the socket in use. */
  predicate Current(l: Link, sendID: nat) {
    sendID in l.transport.pending && l.transport.pending[sendID].generation == l.transport.generation
  }

  predicate Fails(l: Link, e: Event) {
    e.SendCompleted? && !e.delivered && Current(l, e.sendID)
  }

  // ----- The parts of a step -----

  lemma TeardownStatus(l: Link, force: bool, w: World)
    ensures StatusOf(DisconnectNow(l, force)) == Restarted(StatusOf(l), false)
    ensures StatusOf(StartConnection(l, force, w)) == if l.transport.isOpen && !force then StatusOf(l) else Restarted(StatusOf(l), w.opens)
    ensures StatusOf(HandleDisconnect(l, w)) == Failed(StatusOf(l), w.retries)
    ensures StatusOf(EndHandshakeForBrokenPairing(l)) == Down(StatusOf(l), false)
  {
  }

  lemma EncryptedStatus(l: Link, purpose: Purpose, seals: bool)
    ensures StatusOf(SendEncrypted(l, purpose, seals)) == StatusOf(l)
  {
  }

  lemma {:induction false} OthersStatus(l: Link, n: nat, seals: bool)
    ensures StatusOf(SendOthers(l, n, seals)) == StatusOf(l)
    decreases n
  {
    if n > 0 {
      EncryptedStatus(l, Other, seals);
      hide SendEncrypted;
      OthersStatus(SendEncrypted(l, Other, seals), n - 1, seals);
    }
  }

  lemma HelloStatus(l: Link)
    ensures var s := StatusOf(l);
            StatusOf(SendHello(l)) == (if s.nonceIOS.None? then s.(nonceIOS := Some(s.minted), minted := s.minted + 1) else s)
    ensures StatusOf(SendClear(l)) == StatusOf(l)
  {
  }

  lemma RecoveryStatus(l: Link)
    ensures StatusOf(Rehandshake(l)) == Renewed(StatusOf(l))
    ensures StatusOf(BeginHandshakeRecovery(Rehandshake(l))) == Renewed(StatusOf(l)).(confirmed := false)
  {
    HelloStatus(Rehandshake(l).(isConnected := false));
    hide SendHello;
  }

  lemma EstablishStatus(l: Link, w: World)
    ensures StatusOf(EstablishSession(l, w)) == StatusOf(l).(key := KeyOf(StatusOf(l), w.derives))
  {
    var s := l.session.Establish(w.derives);
    EncryptedStatus(l.(session := s), Other, w.seals);
    hide SendEncrypted;
  }

  lemma ResolveStatus(l: Link, request: RequestID, approved: bool, success: bool, w: World)
    ensures StatusOf(ResolveApproval(l, request, approved, success, w))
            == if l.approvals.Holds(request, approved) && !success && !l.transport.isOpen then Restarted(StatusOf(l), w.opens) else StatusOf(l)
  {
    var requeued := l.(approvals := l.approvals.Resolve(request, approved, success), cards := Show(l.cards, request, Queued(approved)));
    TeardownStatus(requeued, false, w);
    hide StartConnection, Show;
  }

  lemma SendApprovalStatus(l: Link, a: Answer, w: World)
    requires l.session.crypto.Some? && l.transport.isOpen
    ensures StatusOf(SendApproval(l, a, w)) == StatusOf(l)
  {
    var shown := l.(cards := Show(l.cards, a.request, Sending(a.approved)));
    EncryptedStatus(shown, Approval(a.request, a.approved), a.request in w.sealed);
    var sent := SendEncrypted(shown, Approval(a.request, a.approved), a.request in w.sealed);
    ResolveStatus(sent, a.request, a.approved, false, w);
    hide SendEncrypted, ResolveApproval, Show;
  }

  lemma {:induction false} SendEachStatus(l: Link, answers: seq<Answer>, w: World)
    requires l.session.crypto.Some? && l.transport.isOpen
    ensures StatusOf(SendEach(l, answers, w)) == StatusOf(l)
    decreases |answers|
  {
    if answers != [] {
      SendApprovalStatus(l, answers[0], w);
      hide SendApproval;
      SendEachStatus(SendApproval(l, answers[0], w), answers[1..], w);
    }
  }

  lemma FlushStatus(l: Link, w: World)
    ensures StatusOf(FlushApprovals(l, w))
            == if l.approvals.queued != map[] && !l.transport.isOpen then Restarted(StatusOf(l), w.opens) else StatusOf(l)
  {
    if CanFlush(l) {
      var taken := l.approvals.Take(w.order, l.cards.Keys);
      SendEachStatus(l.(approvals := taken.0), taken.1, w);
    }
    TeardownStatus(l, false, w);
    hide SendEach, StartConnection;
  }

  lemma RespondStatus(l: Link, id: RequestID, approved: bool, w: World)
    ensures StatusOf(RespondToApproval(l, id, approved, w)) == Next(StatusOf(l), Respond(id, approved), Asks(l, Respond(id, approved), w), false, w)
  {
    if id in l.cards && !l.cards[id].IsBusy() {
      var asked := l.(cards := l.cards[id := Queued(approved)], approvals := l.approvals.Enqueue(id, approved));
      FlushStatus(asked, w);
      assert id in asked.approvals.queued;
    }
    hide FlushApprovals;
  }

  lemma CompletionStatus(l: Link, sendID: nat, delivered: bool, w: World)
    ensures var e := SendCompleted(sendID, delivered);
            StatusOf(CompleteSend(l, sendID, delivered, w)) == Next(StatusOf(l), e, Asks(l, e, w), Fails(l, e), w)
  {
    if sendID in l.transport.pending {
      var settled := l.(transport := l.transport.Settle(sendID));
      TeardownStatus(settled, false, w);
      var told := if delivered then settled else HandleDisconnect(settled, w);
      assert told.approvals.queued == l.approvals.queued;
      hide HandleDisconnect, ResolveApproval;
      match l.transport.pending[sendID].purpose {
        case Other =>
        case Approval(request, answer) => ResolveStatus(told, request, answer, delivered, w);
      }
    }
  }

  lemma SessionReadyStatus(l: Link, others: nat, later: nat, w: World)
    requires l.transport.isOpen
    ensures StatusOf(HandleSessionReady(l, others, later, w)) == NextReceived(StatusOf(l), SessionReadyReceived(others, later), w)
  {
    OthersStatus(l, others, w.seals);
    var confirmed := SendOthers(l, others, w.seals).(isConnected := true);
    FlushStatus(confirmed, w);
    OthersStatus(if l.isConnected then confirmed else FlushApprovals(confirmed, w), later, w.seals);
    hide SendOthers, FlushApprovals;
  }

  lemma HandshakeStatus(l: Link, e: Event, w: World)
    requires e.HelloReceived? || e.DecryptFailed?
    ensures StatusOf(Receive(l, e, w)) == NextReceived(StatusOf(l), e, w)
  {
    RecoveryStatus(l);
    TeardownStatus(Rehandshake(l), false, w);
    if e.HelloReceived? && !e.verdict.Escalate? {
      var ready := if e.verdict.ResetSession? then BeginHandshakeRecovery(Rehandshake(l)) else l;
      EstablishStatus(ready.(session := ready.session.(nonceMac := Some(e.macNonce))), w);
    }
    hide Rehandshake, BeginHandshakeRecovery, HandleDisconnect, EstablishSession;
  }

  lemma TimeoutStatus(l: Link, w: World)
    ensures StatusOf(HandshakeTimeout(l, w)) == Down(StatusOf(l), l.reconnecting || w.retries)
  {
  }

  lemma ReceiveStatus(l: Link, e: Event, w: World)
    requires l.transport.isOpen
    ensures StatusOf(Receive(l, e, w)) == NextReceived(StatusOf(l), e, w)
  {
    hide HandleDisconnect, EndHandshakeForBrokenPairing, HandleSessionReady, HandleHello, NoteDecryptFailure, EstablishSession,
      StatusOf, Down, Failed, Renewed, KeyOf;
    match e {
      case SessionReadyReceived(others, later) => SessionReadyStatus(l, others, later, w);
      case PairAccepted(_) =>
        EstablishStatus(l, w);
        TeardownStatus(l, false, w);
      case HelloReceived(_, _) => HandshakeStatus(l, e, w);
      case DecryptFailed(_) => HandshakeStatus(l, e, w);
      case _ => TeardownStatus(l, false, w);
    }
  }

  /** Whatever the link is doing, its status after any event is the small machine's. */
  lemma StatusIsExactly(l: Link, e: Event, w: World)
    ensures StatusOf(Step(l, e, w)) == Next(StatusOf(l), e, Asks(l, e, w), Fails(l, e), w)
  {
    hide RespondToApproval, CompleteSend, StartConnection, DisconnectNow, SendEncrypted, SendHello, SendClear, HandshakeTimeout,
      Receive, NextReceived, Asks, Fails, Restarted, Down, Failed;
    match e {
      case Respond(id, approved) => RespondStatus(l, id, approved, w);
      case SyncApprovals(_) =>
      case SendCompleted(sendID, delivered) => CompletionStatus(l, sendID, delivered, w);
      case Connect(force) => TeardownStatus(l, force, w);
      case Disconnect(discard) => TeardownStatus(l, discard, w);
      case ReconnectDue => DueStatus(l, w);
      case SendOther => EncryptedStatus(l, Other, w.seals);
      case HandshakeTick(_) =>
        HelloStatus(l);
        HelloStatus(SendHello(l));
      case HandshakeTimedOut => TimeoutStatus(l, w);
      case _ =>
        if l.transport.isOpen {
          ReceiveStatus(l, e, w);
        }
    }
  }

  lemma DueStatus(l: Link, w: World)
    ensures StatusOf(StartConnection(l.(reconnecting := false), true, w)) == Restarted(StatusOf(l), w.opens)
  {
  }

  // ----- Over every run -----

  /** A confirmed session has a key; a key needs an open socket and both nonces; and a
      reconnect is due only while there is no socket. */
  ghost predicate Coherent(s: Status) {
    && (s.confirmed ==> s.key.Some?)
    && (s.key.Some? ==> s.isOpen && s.nonceIOS == Some(s.key.value.ios) && s.nonceMac.Some?)
    && (s.due ==> !s.isOpen)
  }

  lemma NextCoherent(s: Status, e: Event, asks: bool, fails: bool, w: World)
    requires Coherent(s)
    ensures Coherent(Next(s, e, asks, fails, w))
  {
  }

  lemma {:induction false} RunIsCoherent(moves: seq<Move>)
    ensures Coherent(StatusOf(Run(moves)))
  {
    if moves != [] {
      var before, last := moves[..|moves| - 1], moves[|moves| - 1];
      RunIsCoherent(before);
      var l := Run(before);
      StatusIsExactly(l, last.event, last.world);
      hide Step, StatusOf, Coherent;
      NextCoherent(StatusOf(l), last.event, Asks(l, last.event, last.world), Fails(l, last.event), last.world);
    }
  }

  lemma RunThen(moves: seq<Move>, last: Move)
    ensures var s, l := StatusOf(Run(moves)), Run(moves);
            StatusOf(Run(moves + [last])) == Next(s, last.event, Asks(l, last.event, last.world), Fails(l, last.event), last.world)
  {
    var all := moves + [last];
    assert all[..|all| - 1] == moves;
    assert Run(all) == Step(Run(moves), last.event, last.world);
    hide *;
    StatusIsExactly(Run(moves), last.event, last.world);
  }

  lemma Confirms(s: Status, e: Event, asks: bool, fails: bool, w: World)
    requires !s.confirmed && Coherent(s)
    ensures Next(s, e, asks, fails, w).confirmed <==> e.SessionReadyReceived? && s.key.Some?
  {
  }

  /** Over every run, a session becomes confirmed by SESSION_READY and nothing else. */
  lemma ConfirmedExactlyWhen(moves: seq<Move>, last: Move)
    requires !Run(moves).isConnected
    ensures Run(moves + [last]).isConnected <==> last.event.SessionReadyReceived? && Run(moves).session.crypto.Some?
  {
    var l := Run(moves);
    RunThen(moves, last);
    RunIsCoherent(moves);
    Confirms(StatusOf(l), last.event, Asks(l, last.event, last.world), Fails(l, last.event), last.world);
    hide Next, Coherent, Asks, Fails, Run;
  }

  predicate TakesUp(s: Status, e: Event, w: World, key: Key) {
    && s.isOpen && w.derives
    && match e
       case HelloReceived(mac, Accept) => s.key.None? && s.nonceIOS == Some(key.ios) && mac == key.mac
       case HelloReceived(mac, ResetSession) => s.minted == key.ios && mac == key.mac
       case PairAccepted(true) => s.key.None? && s.nonceIOS == Some(key.ios) && s.nonceMac == Some(key.mac)
       case _ => false
  }

  lemma Keys(s: Status, e: Event, asks: bool, fails: bool, w: World, key: Key)
    requires s.key != Some(key)
    ensures Next(s, e, asks, fails, w).key == Some(key) <==> TakesUp(s, e, w, key)
  {
  }

  /** A key is taken up exactly when the peer is heard on an open socket, with a HELLO
      or an acceptance by the right Mac, both nonces are known, and it can be derived;
      and it is the key of the phone's nonce and the Mac's newest. */
  lemma KeyIsTakenUpExactlyWhen(moves: seq<Move>, last: Move, key: Key)
    requires Run(moves).session.crypto != Some(key)
    ensures Run(moves + [last]).session.crypto == Some(key) <==> TakesUp(StatusOf(Run(moves)), last.event, last.world, key)
  {
    var l := Run(moves);
    RunThen(moves, last);
    Keys(StatusOf(l), last.event, Asks(l, last.event, last.world), Fails(l, last.event), last.world, key);
    hide Next, TakesUp, Asks, Fails, Run;
  }

  // ----- Which frames go out -----

  /** `n` frames that are no answers have been handed to the socket, and no other. */
  predicate Submitted(l: Link, r: Link, n: nat) {
    && r.transport.generation == l.transport.generation && r.transport.nextSendID == l.transport.nextSendID + n
    && (forall id | id in l.transport.pending && id < l.transport.nextSendID ::
          id in r.transport.pending && r.transport.pending[id] == l.transport.pending[id])
    && (forall id | l.transport.nextSendID <= id < r.transport.nextSendID ::
          id in r.transport.pending && r.transport.pending[id] == Send(Other, l.transport.generation))
  }

  lemma SubmittedThen(a: Link, b: Link, c: Link, m: nat, n: nat)
    requires Submitted(a, b, m) && Submitted(b, c, n)
    ensures Submitted(a, c, m + n)
  {
  }

  lemma ClearGoesOut(l: Link)
    requires l.transport.isOpen
    ensures Submitted(l, SendClear(l), 1) && Submitted(l, SendHello(l), 1)
  {
  }

  lemma EncryptedGoesOut(l: Link, seals: bool)
    requires l.transport.isOpen
    ensures Submitted(l, SendEncrypted(l, Other, seals), if l.session.crypto.Some? && seals then 1 else 0)
  {
  }

  lemma {:induction false} OthersGoOut(l: Link, n: nat, seals: bool)
    requires l.transport.isOpen
    ensures Submitted(l, SendOthers(l, n, seals), if l.session.crypto.Some? && seals then n else 0)
    decreases n
  {
    if n > 0 {
      var r := SendEncrypted(l, Other, seals);
      EncryptedGoesOut(l, seals);
      EncryptedStatus(l, Other, seals);
      OthersGoOut(r, n - 1, seals);
      SubmittedThen(l, r, SendOthers(r, n - 1, seals), if l.session.crypto.Some? && seals then 1 else 0,
                    if l.session.crypto.Some? && seals then n - 1 else 0);
      hide SendEncrypted, Submitted;
    }
  }

  /** How many frames besides the answers an event sends on an open socket: a HELLO, and
      a pairing request if there is to be one, while the session is unconfirmed; a
      HELLO to begin a handshake anew; and one frame when a key is taken up. */
  function FramesOf(s: Status, e: Event, w: World): nat {
    match e
    case HandshakeTick(pairRequest) => if s.confirmed then 0 else if pairRequest then 2 else 1
    case SendOther => if s.key.Some? && w.seals then 1 else 0
    case PairAccepted(same) => if same && KeyOf(s, w.derives) != s.key && w.seals then 1 else 0
    case DecryptFailed(verdict) => if verdict.ResetSession? then 1 else 0
    case HelloReceived(_, verdict) =>
      if verdict.ResetSession? then 1 + (if NextReceived(s, e, w).key.Some? && w.seals then 1 else 0)
      else if NextReceived(s, e, w).key != s.key && w.seals then 1 else 0
    case _ => 0
  }

  lemma EstablishGoesOut(l: Link, w: World)
    requires l.transport.isOpen
    ensures Submitted(l, EstablishSession(l, w), if KeyOf(StatusOf(l), w.derives) != l.session.crypto && w.seals then 1 else 0)
  {
    var s := l.session.Establish(w.derives);
    EncryptedGoesOut(l.(session := s), w.seals);
    hide SendEncrypted;
  }

  lemma RenewedGoesOut(l: Link)
    requires l.transport.isOpen
    ensures var r := BeginHandshakeRecovery(Rehandshake(l)); Submitted(l, r, 1) && r.transport.isOpen
  {
    ClearGoesOut(Rehandshake(l).(isConnected := false));
    RecoveryStatus(l);
    assert BeginHandshakeRecovery(Rehandshake(l)).transport.isOpen by {
      assert StatusOf(BeginHandshakeRecovery(Rehandshake(l))).isOpen;
    }
    hide SendHello;
  }

  lemma HelloGoesOut(l: Link, mac: nat, verdict: Verdict, w: World)
    requires l.transport.isOpen && !verdict.Escalate?
    ensures Submitted(l, HandleHello(l, mac, verdict, w), FramesOf(StatusOf(l), HelloReceived(mac, verdict), w))
  {
    var ready := if verdict.ResetSession? then BeginHandshakeRecovery(Rehandshake(l)) else l;
    RenewedGoesOut(l);
    RecoveryStatus(l);
    var told := ready.(session := ready.session.(nonceMac := Some(mac)));
    EstablishGoesOut(told, w);
    var m, n := if verdict.ResetSession? then 1 else 0, if KeyOf(StatusOf(told), w.derives) != told.session.crypto && w.seals then 1 else 0;
    assert StatusOf(told) == StatusOf(ready).(nonceMac := Some(mac));
    assert HandleHello(l, mac, verdict, w) == EstablishSession(told, w);
    hide BeginHandshakeRecovery, EstablishSession, Rehandshake, HandleHello;
    assert Submitted(l, told, m);
    hide Submitted;
    SubmittedThen(l, told, EstablishSession(told, w), m, n);
    assert m + n == FramesOf(StatusOf(l), HelloReceived(mac, verdict), w);
  }

  /** On an open socket exactly these frames go out. */
  lemma FramesGoOut(l: Link, e: Event, w: World)
    requires l.transport.isOpen
    requires e.HandshakeTick? || e.SendOther? || e == PairAccepted(true) || e == DecryptFailed(ResetSession)
             || (e.HelloReceived? && !e.verdict.Escalate?)
    ensures Submitted(l, Step(l, e, w), FramesOf(StatusOf(l), e, w))
  {
    hide Submitted, SendHello, SendClear, SendEncrypted, EstablishSession, HandleHello, BeginHandshakeRecovery, Rehandshake;
    match e {
      case HandshakeTick(pairRequest) => TickGoesOut(l, pairRequest, w);
      case SendOther => EncryptedGoesOut(l, w.seals);
      case PairAccepted(_) => EstablishGoesOut(l, w);
      case DecryptFailed(_) => RenewedGoesOut(l);
      case HelloReceived(mac, verdict) => HelloGoesOut(l, mac, verdict, w);
    }
  }

  lemma TickGoesOut(l: Link, pairRequest: bool, w: World)
    requires l.transport.isOpen
    ensures Submitted(l, Step(l, HandshakeTick(pairRequest), w), FramesOf(StatusOf(l), HandshakeTick(pairRequest), w))
  {
    ClearGoesOut(l);
    HelloStatus(l);
    assert SendHello(l).transport.isOpen;
    ClearGoesOut(SendHello(l));
    SubmittedThen(l, SendHello(l), SendClear(SendHello(l)), 1, 1);
    hide SendHello, SendClear;
  }

  /** With no answer to flush, a session that is ready sends what precedes and what
      follows the answers. */
  lemma ReadyGoesOut(l: Link, others: nat, later: nat, w: World)
    requires l.transport.isOpen && (l.approvals.queued == map[] || l.isConnected)
    ensures Submitted(l, Step(l, SessionReadyReceived(others, later), w),
                      if l.session.crypto.Some? && w.seals then others + later else 0)
  {
    var n := if l.session.crypto.Some? && w.seals then 1 else 0;
    var sent := SendOthers(l, others, w.seals);
    var confirmed := sent.(isConnected := true);
    OthersGoOut(l, others, w.seals);
    OthersStatus(l, others, w.seals);
    SendOthersKeepsDesk(l, others, w.seals);
    OthersGoOut(confirmed, later, w.seals);
    hide SendOthers;
    SubmittedThen(l, confirmed, SendOthers(confirmed, later, w.seals), if n == 1 then others else 0, if n == 1 then later else 0);
  }
}
