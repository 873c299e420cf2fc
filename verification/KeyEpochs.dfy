/** No two encrypted frames are produced under the same nonces and number, for as
    long as one key does not outlive the 64-bit counter. */
module KeyEpochs {
  import opened Wrappers
  import opened RemoteLink

  /** Frames of the current iOS nonce were made with the current key; while the
      socket is closed there may be others, but then there is no key either. */
  ghost predicate CurrentFrames(s: Session, frames: seq<Frame>) {
    forall f <- frames :: s.nonceIOS == Some(f.key.ios) ==> s.crypto == Some(f.key) && f.issue < s.issued
  }

  /** Each iOS nonce goes with one key, whose numbers were drawn in order. */
  ghost predicate OneKeyPerNonce(frames: seq<Frame>) {
    forall i, j | 0 <= i < j < |frames| ::
      frames[i].key.ios == frames[j].key.ios ==> frames[i].key == frames[j].key && frames[i].issue < frames[j].issue
  }

  predicate Numbered(f: Frame, minted: nat) {
    f.key.ios < minted && f.number == (1 + f.issue) % WORD
  }

  ghost predicate Epochs(s: Session, frames: seq<Frame>, isOpen: bool) {
    && (s.nonceIOS.Some? ==> s.nonceIOS.value < s.minted)
    && (s.crypto.Some? ==> isOpen && s.nonceIOS == Some(s.crypto.value.ios))
    && s.seqCounter == (1 + s.issued) % WORD
    && (forall f <- frames :: Numbered(f, s.minted))
    && (isOpen ==> CurrentFrames(s, frames))
    && OneKeyPerNonce(frames)
  }

  ghost predicate Fresh(l: Link) {
    Epochs(l.session, l.frames, l.transport.isOpen)
  }

  // ----- Every restart of the counter is safe -----

  /** On a closed socket the nonce may stay: no key can be derived from it. */
  lemma InvalidateClosed(s: Session, frames: seq<Frame>, isOpen: bool, clear: bool)
    requires Epochs(s, frames, isOpen)
    ensures Epochs(s.Invalidate(clear), frames, false)
  {
    assert 1 % WORD == 1;
  }

  /** A socket may be opened once the nonce is cleared. */
  lemma OpenCleared(s: Session, frames: seq<Frame>)
    requires Epochs(s, frames, false) && s.nonceIOS.None?
    ensures Epochs(s, frames, true)
  {
  }

  /** In place, the nonce is replaced by a new one. */
  lemma RehandshakeFresh(s: Session, frames: seq<Frame>, isOpen: bool)
    requires Epochs(s, frames, isOpen)
    ensures Epochs(s.ResetForRehandshake(), frames, isOpen)
  {
    var r := s.ResetForRehandshake();
    assert 1 % WORD == 1;
    assert forall f <- frames :: Numbered(f, s.minted) && Numbered(f, r.minted);
    hide OneKeyPerNonce;
  }

  lemma NextSeqFresh(s: Session, frames: seq<Frame>, isOpen: bool)
    requires Epochs(s, frames, isOpen)
    ensures Epochs(s.NextSeq(), frames, isOpen)
  {
    WrapAdd(1 + s.issued);
    hide OneKeyPerNonce;
  }

  lemma WrapAdd(n: nat)
    ensures (n % WORD + 1) % WORD == (n + 1) % WORD
  {
  }

  lemma SetMacNonceFresh(s: Session, frames: seq<Frame>, isOpen: bool, macNonce: nat)
    requires Epochs(s, frames, isOpen)
    ensures Epochs(s.(nonceMac := Some(macNonce)), frames, isOpen)
  {
    hide OneKeyPerNonce;
  }

  lemma EstablishFresh(s: Session, frames: seq<Frame>, derives: bool)
    requires Epochs(s, frames, true)
    ensures Epochs(s.Establish(derives), frames, true)
  {
    hide OneKeyPerNonce;
  }

  lemma ProduceFresh(s: Session, frames: seq<Frame>)
    requires Epochs(s, frames, true) && s.crypto.Some?
    ensures Epochs(s.NextSeq(), frames + [Frame(s.crypto.value, s.seqCounter, s.issued)], true)
  {
    var f := Frame(s.crypto.value, s.seqCounter, s.issued);
    WrapAdd(1 + s.issued);
    assert forall x :: x in frames + [f] <==> x in frames || x == f;
    forall i | 0 <= i < |frames| && frames[i].key.ios == f.key.ios
      ensures frames[i].key == f.key && frames[i].issue < f.issue
    {
      assert frames[i] in frames;
    }
  }

  // ----- So is every step -----

  lemma TeardownFresh(l: Link, clear: bool)
    requires Fresh(l)
    ensures Fresh(Teardown(l, clear))
  {
    InvalidateClosed(l.session, l.frames, l.transport.isOpen, clear);
    hide Epochs, Release;
  }

  lemma HandleDisconnectFresh(l: Link, w: World)
    requires Fresh(l)
    ensures Fresh(HandleDisconnect(l, w))
  {
    TeardownFresh(l, false);
    hide Epochs, Teardown;
  }

  lemma StartConnectionFresh(l: Link, force: bool, w: World)
    requires Fresh(l)
    ensures Fresh(StartConnection(l, force, w)) && Fresh(DisconnectNow(l, false)) && Fresh(DisconnectNow(l, true))
  {
    InvalidateClosed(l.session, l.frames, l.transport.isOpen, true);
    OpenCleared(l.session.Invalidate(true), l.frames);
    hide Epochs, Release;
  }

  lemma SendClearFresh(l: Link)
    requires Fresh(l)
    ensures Fresh(SendClear(l)) && SendClear(l).transport.isOpen == l.transport.isOpen
  {
    NextSeqFresh(l.session, l.frames, l.transport.isOpen);
    hide Epochs;
  }

  lemma SendHelloFresh(l: Link)
    requires Fresh(l)
    ensures Fresh(SendHello(l)) && SendHello(l).transport.isOpen == l.transport.isOpen
  {
    if l.session.nonceIOS.None? {
      MintFresh(l.session, l.frames, l.transport.isOpen);
      SendClearFresh(l.(session := l.session.MintIOSNonce()));
    } else {
      SendClearFresh(l);
    }
    hide Epochs, SendClear;
  }

  lemma MintFresh(s: Session, frames: seq<Frame>, isOpen: bool)
    requires Epochs(s, frames, isOpen) && s.nonceIOS.None?
    ensures Epochs(s.MintIOSNonce(), frames, isOpen)
  {
    assert forall f <- frames :: Numbered(f, s.minted) && Numbered(f, s.minted + 1);
    hide OneKeyPerNonce;
  }

  lemma SendEncryptedFresh(l: Link, purpose: Purpose, seals: bool)
    requires Fresh(l)
    ensures Fresh(SendEncrypted(l, purpose, seals))
    ensures SendEncrypted(l, purpose, seals).transport.isOpen == l.transport.isOpen
  {
    if l.session.crypto.Some? {
      assert l.transport.isOpen;
      NextSeqFresh(l.session, l.frames, true);
      ProduceFresh(l.session, l.frames);
    }
    hide Epochs;
  }

  lemma {:induction false} SendOthersFresh(l: Link, n: nat, seals: bool)
    requires Fresh(l)
    ensures Fresh(SendOthers(l, n, seals))
    decreases n
  {
    if n > 0 {
      SendEncryptedFresh(l, Other, seals);
      hide Fresh, SendEncrypted;
      SendOthersFresh(SendEncrypted(l, Other, seals), n - 1, seals);
    }
  }

  lemma RecoveryFresh(l: Link)
    requires Fresh(l)
    ensures Fresh(BeginHandshakeRecovery(l)) && BeginHandshakeRecovery(l).transport.isOpen == l.transport.isOpen
  {
    SendHelloFresh(l.(isConnected := false));
    hide Epochs, SendHello;
  }

  lemma EstablishSessionFresh(l: Link, w: World)
    requires Fresh(l) && l.transport.isOpen
    ensures Fresh(EstablishSession(l, w))
  {
    EstablishFresh(l.session, l.frames, w.derives);
    var keyed := l.(session := l.session.Establish(w.derives));
    assert Fresh(keyed);
    SendEncryptedFresh(keyed, Other, w.seals);
    hide Fresh, SendEncrypted;
  }

  lemma ResolveFresh(l: Link, request: RequestID, approved: bool, success: bool, w: World)
    requires Fresh(l)
    ensures Fresh(ResolveApproval(l, request, approved, success, w))
  {
    var requeued := l.(approvals := l.approvals.Resolve(request, approved, success),
                       cards := Show(l.cards, request, Queued(approved)));
    StartConnectionFresh(requeued, false, w);
    hide Epochs, StartConnection, Show;
  }

  lemma SendApprovalFresh(l: Link, a: Answer, w: World)
    requires Fresh(l)
    ensures Fresh(SendApproval(l, a, w))
  {
    var shown := l.(cards := Show(l.cards, a.request, Sending(a.approved)));
    assert Fresh(shown);
    SendEncryptedFresh(shown, Approval(a.request, a.approved), a.request in w.sealed);
    hide Fresh, SendEncrypted, ResolveApproval, Show;
    ResolveFresh(SendEncrypted(shown, Approval(a.request, a.approved), a.request in w.sealed),
                 a.request, a.approved, false, w);
  }

  lemma {:induction false} SendEachFresh(l: Link, answers: seq<Answer>, w: World)
    requires Fresh(l)
    ensures Fresh(SendEach(l, answers, w))
    decreases |answers|
  {
    hide Fresh, SendApproval;
    if answers != [] {
      SendApprovalFresh(l, answers[0], w);
      SendEachFresh(SendApproval(l, answers[0], w), answers[1..], w);
    }
  }

  lemma FlushFresh(l: Link, w: World)
    requires Fresh(l)
    ensures Fresh(FlushApprovals(l, w))
  {
    var taken := l.approvals.Take(w.order, l.cards.Keys);
    assert Fresh(l.(approvals := taken.0));
    hide Fresh, StartConnection, SendEach;
    SendEachFresh(l.(approvals := taken.0), taken.1, w);
    StartConnectionFresh(l, false, w);
  }

  lemma RehandshakeLinkFresh(l: Link)
    requires Fresh(l)
    ensures Fresh(Rehandshake(l))
  {
    RehandshakeFresh(l.session, l.frames, l.transport.isOpen);
  }

  lemma HelloFresh(l: Link, macNonce: nat, verdict: Verdict, w: World)
    requires Fresh(l) && l.transport.isOpen
    ensures Fresh(HandleHello(l, macNonce, verdict, w))
  {
    RehandshakeLinkFresh(l);
    if verdict.Escalate? {
      HandleDisconnectFresh(Rehandshake(l), w);
    } else {
      RecoveryFresh(Rehandshake(l));
      var ready := if verdict.ResetSession? then BeginHandshakeRecovery(Rehandshake(l)) else l;
      SetMacNonceFresh(ready.session, ready.frames, true, macNonce);
      EstablishSessionFresh(ready.(session := ready.session.(nonceMac := Some(macNonce))), w);
    }
    hide Fresh, EstablishSession, HandleDisconnect, BeginHandshakeRecovery;
  }

  lemma CompleteSendFresh(l: Link, sendID: nat, delivered: bool, w: World)
    requires Fresh(l)
    ensures Fresh(CompleteSend(l, sendID, delivered, w))
  {
    if sendID in l.transport.pending {
      var settled := l.(transport := l.transport.Settle(sendID));
      assert Fresh(settled);
      HandleDisconnectFresh(settled, w);
      var told := if delivered then settled else HandleDisconnect(settled, w);
      hide Fresh, HandleDisconnect, ResolveApproval;
      match l.transport.pending[sendID].purpose {
        case Other =>
        case Approval(request, answer) => ResolveFresh(told, request, answer, delivered, w);
      }
    }
  }

  lemma RespondFresh(l: Link, request: RequestID, approved: bool, w: World)
    requires Fresh(l)
    ensures Fresh(RespondToApproval(l, request, approved, w))
  {
    var asked := l.(cards := l.cards[request := Queued(approved)], approvals := l.approvals.Enqueue(request, approved));
    assert Fresh(asked);
    FlushFresh(asked, w);
    hide Fresh, FlushApprovals;
  }

  lemma SessionReadyFresh(l: Link, others: nat, later: nat, w: World)
    requires Fresh(l)
    ensures Fresh(HandleSessionReady(l, others, later, w))
  {
    SendOthersFresh(l, others, w.seals);
    var confirmed := SendOthers(l, others, w.seals).(isConnected := true);
    assert Fresh(confirmed);
    FlushFresh(confirmed, w);
    hide Fresh, FlushApprovals, SendOthers;
    SendOthersFresh(if l.isConnected then confirmed else FlushApprovals(confirmed, w), later, w.seals);
  }

  lemma TimeoutFresh(l: Link, w: World)
    requires Fresh(l)
    ensures Fresh(HandshakeTimeout(l, w))
  {
    InvalidateClosed(l.session, l.frames, l.transport.isOpen, false);
    var closed := l.(transport := l.transport.Close(), isConnected := false, session := l.session.Invalidate(false));
    assert Fresh(closed);
    HandleDisconnectFresh(closed, w);
  }

  lemma StepFresh(l: Link, e: Event, w: World)
    requires Fresh(l)
    ensures Fresh(Step(l, e, w))
  {
    var idle := l.(reconnecting := false);
    assert Fresh(idle);
    hide Epochs, RespondToApproval, CompleteSend, StartConnection, DisconnectNow, SendEncrypted, SendHello, SendClear,
      HandshakeTimeout, HandleDisconnect, Teardown, HandleSessionReady, HandleHello, EstablishSession, Rehandshake,
      BeginHandshakeRecovery;
    match e {
      case Respond(request, approved) => RespondFresh(l, request, approved, w);
      case SyncApprovals(_) =>
      case SendCompleted(sendID, delivered) => CompleteSendFresh(l, sendID, delivered, w);
      case Connect(force) => StartConnectionFresh(l, force, w);
      case Disconnect(_) => StartConnectionFresh(l, true, w);
      case SendOther => SendEncryptedFresh(l, Other, w.seals);
      case ReconnectDue => StartConnectionFresh(idle, true, w);
      case HandshakeTick(_) => SendHelloFresh(l); SendClearFresh(SendHello(l));
      case HandshakeTimedOut => TimeoutFresh(l, w);
      case SocketFailed => HandleDisconnectFresh(l, w);
      case PairRejected => TeardownFresh(idle, false);
      case SessionReadyReceived(others, later) => SessionReadyFresh(l, others, later, w);
      case HelloReceived(macNonce, verdict) => if l.transport.isOpen { HelloFresh(l, macNonce, verdict, w); }
      case PairAccepted(_) =>
        TeardownFresh(idle, false);
        if l.transport.isOpen { EstablishSessionFresh(l, w); }
      case DecryptFailed(_) =>
        RehandshakeLinkFresh(l);
        RecoveryFresh(Rehandshake(l));
        HandleDisconnectFresh(Rehandshake(l), w);
    }
  }

  lemma {:induction false} RunFresh(moves: seq<Move>)
    ensures Fresh(Run(moves))
  {
    if moves == [] {
      assert 1 % WORD == 1;
    } else {
      var last := moves[|moves| - 1];
      RunFresh(moves[..|moves| - 1]);
      hide Fresh, Step;
      StepFresh(Run(moves[..|moves| - 1]), last.event, last.world);
    }
  }

  // ----- What follows -----

  predicate Collide(a: Frame, b: Frame) {
    a.key == b.key && a.number == b.number
  }

  lemma SameNumber(i: nat, j: nat)
    requires i < j
    ensures (1 + i) % WORD == (1 + j) % WORD <==> (j - i) % WORD == 0
  {
  }

  predicate WholeTurnsApart(a: Frame, b: Frame) {
    a.key == b.key && (b.issue - a.issue) % WORD == 0
  }

  lemma CollideAfterWholeTurns(a: Frame, b: Frame)
    requires a.number == (1 + a.issue) % WORD && b.number == (1 + b.issue) % WORD
    requires a.key == b.key ==> a.issue < b.issue
    ensures Collide(a, b) <==> WholeTurnsApart(a, b)
  {
    if a.key == b.key {
      SameNumber(a.issue, b.issue);
    }
  }

  lemma PairOfFrames(l: Link, i: nat, j: nat)
    requires Fresh(l) && i < j < |l.frames|
    ensures var a, b := l.frames[i], l.frames[j];
            && (a.key.ios == b.key.ios ==> a.key == b.key && a.issue < b.issue)
            && (Collide(a, b) <==> WholeTurnsApart(a, b))
  {
    var a, b := l.frames[i], l.frames[j];
    assert a in l.frames && b in l.frames;
    CollideAfterWholeTurns(a, b);
    hide Collide, WholeTurnsApart;
    assert Numbered(l.frames[i], l.session.minted) && Numbered(l.frames[j], l.session.minted);
  }

  /** Two frames of one run share nonces and number exactly when they are a
      multiple of 2^64 draws of one key apart. */
  lemma FramesCollideOnlyByWrapping(moves: seq<Move>, i: nat, j: nat)
    requires i < j < |Run(moves).frames|
    ensures var a, b := Run(moves).frames[i], Run(moves).frames[j];
            && (a.key.ios == b.key.ios ==> a.key == b.key && a.issue < b.issue)
            && (Collide(a, b) <==> WholeTurnsApart(a, b))
  {
    RunFresh(moves);
    PairOfFrames(Run(moves), i, j);
    hide *;
  }

  /** So nothing collides while each key draws fewer than 2^64 numbers. */
  lemma FramesAreUnique(moves: seq<Move>)
    requires forall f <- Run(moves).frames :: f.issue < WORD
    ensures var frames := Run(moves).frames; forall i, j | 0 <= i < j < |frames| :: !Collide(frames[i], frames[j])
  {
    hide Run;
    var frames := Run(moves).frames;
    forall i, j | 0 <= i < j < |frames|
      ensures !Collide(frames[i], frames[j])
    {
      FramesCollideOnlyByWrapping(moves, i, j);
      assert frames[i] in frames && frames[j] in frames;
    }
  }

  // ----- And the bound is needed -----

  const HELPFUL := World(true, true, true, true, [], {})

  /** Connect, say HELLO, receive HELLO, and then send `n` frames. */
  function Chatter(n: nat): (moves: seq<Move>)
    decreases n
  {
    if n == 0
    then [Move(Connect(true), HELPFUL), Move(HandshakeTick(false), HELPFUL), Move(HelloReceived(7, Accept), HELPFUL)]
    else Chatter(n - 1) + [Move(SendOther, HELPFUL)]
  }

  lemma RunLast(moves: seq<Move>, last: Move)
    ensures Run(moves + [last]) == Step(Run(moves), last.event, last.world)
  {
    assert (moves + [last])[..|moves|] == moves;
  }

  lemma ChatterStarts()
    ensures var l := Run(Chatter(0));
            && l.transport.isOpen && l.session.crypto == Some(Key(0, 7)) && l.session.issued == 2
            && |l.frames| == 1 && l.frames[0].key == Key(0, 7) && l.frames[0].issue == 1
  {
    var a, b, c := Chatter(0)[0], Chatter(0)[1], Chatter(0)[2];
    assert Chatter(0) == (([] + [a]) + [b]) + [c];
    RunLast([], a);
    RunLast([] + [a], b);
    RunLast(([] + [a]) + [b], c);
    var connected := Run([] + [a]);
    assert connected == StartConnection(START, true, HELPFUL);
    assert connected.transport.isOpen && connected.session == Session(None, None, None, 1, 0, 0) && connected.frames == [];
    var greeted := Run(([] + [a]) + [b]);
    assert greeted == SendHello(connected);
    assert greeted.transport.isOpen && greeted.session == Session(None, Some(0), None, 2, 1, 1) && greeted.frames == [];
  }

  lemma {:induction false} ChatterRuns(n: nat)
    ensures var l := Run(Chatter(n));
            && l.transport.isOpen && l.session.crypto == Some(Key(0, 7)) && l.session.issued == 2 + n
            && |l.frames| == 1 + n && forall k | 0 <= k <= n :: l.frames[k].key == Key(0, 7) && l.frames[k].issue == 1 + k
    decreases n
  {
    if n == 0 {
      ChatterStarts();
    } else {
      ChatterRuns(n - 1);
      RunLast(Chatter(n - 1), Move(SendOther, HELPFUL));
      assert Chatter(n) == Chatter(n - 1) + [Move(SendOther, HELPFUL)];
      var l, r := Run(Chatter(n - 1)), Run(Chatter(n));
      assert r == SendEncrypted(l, Other, true);
      assert r.transport.isOpen && r.session.crypto == l.session.crypto && r.session.issued == l.session.issued + 1;
      assert |r.frames| == |l.frames| + 1 && r.frames[n].key == Key(0, 7) && r.frames[n].issue == l.session.issued;
      assert forall k | 0 <= k < n :: r.frames[k] == l.frames[k];
      hide *;
    }
  }

  /** 2^64 further frames under one key bring the first number back. */
  lemma LongEpochRepeatsANumber()
    ensures var frames := Run(Chatter(WORD)).frames; |frames| == WORD + 1 && Collide(frames[0], frames[WORD])
  {
    ChatterRuns(WORD);
    hide Run, Chatter;
    assert WORD % WORD == 0;
    FramesCollideOnlyByWrapping(Chatter(WORD), 0, WORD);
  }
}
