/** Terminal bytes on their way to the phone's live emulator: a bounded replay is
    kept for a tab until an emulator exists, then handed over, and later output is
    injected directly. Mutations are chained, and a reset outdates those before it. */
module RenderEngine {
  import opened Sequences
  import opened Utf8
  import OutputStore

  type TabID = OutputStore.TabID

  const MAX_REPLAY_BYTES: nat := 400_000
  const REPLAY_TRIM_HEADROOM: nat := 100_000

  /** `playbacks` holds what was injected into each live emulator. */
  datatype Engine = Engine(playbacks: map<TabID, Bytes>, replays: map<TabID, Bytes>, viewportReady: bool)

  const NEW_ENGINE := Engine(map[], map[], false)

  /** A scroll and a snapshot first make sure of an emulator, which may fail to start. */
  datatype Op =
    | ReplaceSnapshot(data: Bytes, tab: TabID)
    | AppendOutput(data: Bytes, tab: TabID)
    | RetainVisibleTabs(visible: set<TabID>)
    | SetViewport
    | Scroll(tab: TabID, starts: bool)
    | Snapshot(tab: TabID, starts: bool)

  function DropContinuations(s: Bytes): (r: Bytes)
    ensures |r| <= |s| && r == s[|s| - |r|..]
    ensures r != [] ==> !IsContinuation(r[0])
  {
    if s != [] && IsContinuation(s[0]) then DropContinuations(s[1..]) else s
  }

  /** Past the cap, trims to a lower mark and on to the start of a character. */
  function AppendReplay(replay: Bytes, chunk: Bytes): (r: Bytes)
    ensures |r| <= MAX_REPLAY_BYTES
  {
    var grown := replay + chunk;
    if |grown| > MAX_REPLAY_BYTES
    then DropContinuations(OutputStore.Suffix(grown, MAX_REPLAY_BYTES - REPLAY_TRIM_HEADROOM))
    else grown
  }

  function Get(m: map<TabID, Bytes>, tab: TabID): Bytes {
    if tab in m then m[tab] else []
  }

  /** Hands a waiting replay over to an emulator, if one can be started. */
  function Ensure(e: Engine, tab: TabID, starts: bool): Engine {
    if e.viewportReady && tab !in e.playbacks && Get(e.replays, tab) != [] && starts
    then e.(playbacks := e.playbacks[tab := e.replays[tab]], replays := e.replays - {tab})
    else e
  }

  function Apply(e: Engine, op: Op): Engine {
    match op
    case ReplaceSnapshot(data, tab) =>
      e.(replays := e.replays[tab := OutputStore.Suffix(data, MAX_REPLAY_BYTES)], playbacks := e.playbacks - {tab})
    case AppendOutput(data, tab) =>
      var chunk := OutputStore.CapIncomingFrame(data);
      if chunk == [] then e
      else if tab in e.playbacks then e.(playbacks := e.playbacks[tab := e.playbacks[tab] + chunk])
      else e.(replays := e.replays[tab := AppendReplay(Get(e.replays, tab), chunk)])
    case RetainVisibleTabs(visible) =>
      e.(playbacks := map t | t in e.playbacks && t in visible :: e.playbacks[t],
         replays := map t | t in e.replays && t in visible :: e.replays[t])
    case SetViewport => e.(viewportReady := true)
    case Scroll(tab, starts) => Ensure(e, tab, starts)
    case Snapshot(tab, starts) => if tab == 0 then e else Ensure(e, tab, starts)
  }

  function ApplyAll(ops: seq<Op>): Engine {
    if ops == [] then NEW_ENGINE else Apply(ApplyAll(ops[..|ops| - 1]), ops[|ops| - 1])
  }

  // ----- What a tab should hold -----

  /** The capped snapshot followed by all later output. */
  function History(ops: seq<Op>, tab: TabID): Bytes {
    if ops == [] then []
    else
      var before := History(ops[..|ops| - 1], tab);
      match ops[|ops| - 1]
      case ReplaceSnapshot(data, t) => if t == tab then OutputStore.Suffix(data, MAX_REPLAY_BYTES) else before
      case AppendOutput(data, t) => if t == tab then before + OutputStore.CapIncomingFrame(data) else before
      case RetainVisibleTabs(visible) => if tab in visible then before else []
      case _ => before
  }

  /** What the tab does hold: injected, or still to be injected. */
  function Content(e: Engine, tab: TabID): Bytes {
    if tab in e.playbacks then e.playbacks[tab] else Get(e.replays, tab)
  }

  /** How much of the history came by way of the replay. */
  function Buffered(ops: seq<Op>, tab: TabID): nat {
    if ops == [] then 0
    else
      var before := ops[..|ops| - 1];
      if tab in ApplyAll(ops).playbacks && tab in ApplyAll(before).playbacks then Buffered(before, tab)
      else |History(ops, tab)|
  }

  // ----- The handoff loses and doubles nothing -----

  ghost predicate Faithful(content: Bytes, history: Bytes, buffered: nat) {
    && IsSuffix(content, history)
    && (content == history <==> buffered <= MAX_REPLAY_BYTES)
    && buffered <= |history|
  }

  ghost predicate TabInv(ops: seq<Op>, tab: TabID) {
    var e := ApplyAll(ops);
    && (tab in e.playbacks ==> tab !in e.replays)
    && (tab !in e.playbacks ==> |Get(e.replays, tab)| <= MAX_REPLAY_BYTES && Buffered(ops, tab) == |History(ops, tab)|)
    && Faithful(Content(e, tab), History(ops, tab), Buffered(ops, tab))
  }

  lemma SuffixOfSuffix(a: Bytes, b: Bytes, c: Bytes)
    requires IsSuffix(a, b) && IsSuffix(b, c)
    ensures IsSuffix(a, c)
  {
  }

  lemma SuffixAppend(s: Bytes, whole: Bytes, more: Bytes)
    requires IsSuffix(s, whole)
    ensures IsSuffix(s + more, whole + more)
    ensures s + more == whole + more <==> s == whole
  {
    var n := |whole| - |s|;
    assert whole == whole[..n] + s;
    assert whole + more == whole[..n] + (s + more);
    if s + more == whole + more {
      assert |s| == |whole| && whole[0..] == whole;
    }
  }

  /** Whatever is cut off the replay, a suffix is left, and nothing is cut while it
      fits the cap. */
  lemma AppendReplayIsSuffix(replay: Bytes, chunk: Bytes)
    ensures IsSuffix(AppendReplay(replay, chunk), replay + chunk)
    ensures AppendReplay(replay, chunk) == replay + chunk <==> |replay + chunk| <= MAX_REPLAY_BYTES
  {
    var grown := replay + chunk;
    var tail := OutputStore.Suffix(grown, MAX_REPLAY_BYTES - REPLAY_TRIM_HEADROOM);
    if |grown| > MAX_REPLAY_BYTES {
      SuffixOfSuffix(DropContinuations(tail), tail, grown);
    } else {
      assert grown[0..] == grown;
    }
  }

  lemma BufferedFaithfully(content: Bytes, history: Bytes, chunk: Bytes)
    requires Faithful(content, history, |history|) && |content| <= MAX_REPLAY_BYTES
    ensures Faithful(AppendReplay(content, chunk), history + chunk, |history + chunk|)
  {
    AppendReplayIsSuffix(content, chunk);
    SuffixAppend(content, history, chunk);
    hide AppendReplay;
    SuffixOfSuffix(AppendReplay(content, chunk), content + chunk, history + chunk);
  }

  lemma InjectedFaithfully(content: Bytes, history: Bytes, buffered: nat, chunk: Bytes)
    requires Faithful(content, history, buffered)
    ensures Faithful(content + chunk, history + chunk, buffered)
  {
    SuffixAppend(content, history, chunk);
  }

  /** Nothing happens to the other tabs. */
  lemma OtherTab(ops: seq<Op>, tab: TabID)
    requires ops != [] && TabInv(ops[..|ops| - 1], tab)
    requires var before, after := ApplyAll(ops[..|ops| - 1]), ApplyAll(ops);
             && (tab in before.playbacks <==> tab in after.playbacks)
             && (tab in before.replays <==> tab in after.replays)
             && Content(before, tab) == Content(after, tab)
    requires History(ops, tab) == History(ops[..|ops| - 1], tab)
    ensures TabInv(ops, tab)
  {
    hide ApplyAll, History, Faithful;
  }

  lemma {:induction false} TabKeepsInv(ops: seq<Op>, tab: TabID)
    ensures TabInv(ops, tab)
  {
    if ops != [] {
      TabKeepsInv(ops[..|ops| - 1], tab);
      match ops[|ops| - 1] {
        case ReplaceSnapshot(_, t) => if t == tab { AfterReplace(ops); } else { OtherTab(ops, tab); }
        case AppendOutput(_, t) => if t == tab { AfterAppend(ops); } else { OtherTab(ops, tab); }
        case RetainVisibleTabs(visible) => if tab in visible { OtherTab(ops, tab); } else { AfterDropping(ops, tab); }
        case SetViewport => OtherTab(ops, tab);
        case Scroll(t, _) => if t == tab { AfterHandoff(ops); } else { OtherTab(ops, tab); }
        case Snapshot(t, _) => if t == tab { AfterHandoff(ops); } else { OtherTab(ops, tab); }
      }
    }
    hide TabInv;
  }

  lemma AfterReplace(ops: seq<Op>)
    requires ops != [] && ops[|ops| - 1].ReplaceSnapshot?
    ensures TabInv(ops, ops[|ops| - 1].tab)
  {
    var op := ops[|ops| - 1];
    var h := OutputStore.Suffix(op.data, MAX_REPLAY_BYTES);
    assert h[0..] == h;
    assert History(ops, op.tab) == h && Content(ApplyAll(ops), op.tab) == h;
  }

  lemma AfterDropping(ops: seq<Op>, tab: TabID)
    requires ops != [] && ops[|ops| - 1].RetainVisibleTabs? && tab !in ops[|ops| - 1].visible
    ensures TabInv(ops, tab)
  {
  }

  lemma AfterAppend(ops: seq<Op>)
    requires ops != [] && ops[|ops| - 1].AppendOutput? && TabInv(ops[..|ops| - 1], ops[|ops| - 1].tab)
    ensures TabInv(ops, ops[|ops| - 1].tab)
  {
    var before, op := ops[..|ops| - 1], ops[|ops| - 1];
    var e, tab, chunk := ApplyAll(before), op.tab, OutputStore.CapIncomingFrame(op.data);
    var h := History(before, tab);
    assert History(ops, tab) == h + chunk && ApplyAll(ops) == Apply(e, op);
    hide History, ApplyAll, AppendReplay, OutputStore.CapIncomingFrame;
    if chunk == [] {
      assert h + chunk == h;
    } else if tab in e.playbacks {
      InjectedFaithfully(e.playbacks[tab], h, Buffered(before, tab), chunk);
    } else {
      BufferedFaithfully(Get(e.replays, tab), h, chunk);
    }
  }

  lemma AfterHandoff(ops: seq<Op>)
    requires ops != [] && (ops[|ops| - 1].Scroll? || ops[|ops| - 1].Snapshot?) && TabInv(ops[..|ops| - 1], ops[|ops| - 1].tab)
    ensures TabInv(ops, ops[|ops| - 1].tab)
  {
    var before, op := ops[..|ops| - 1], ops[|ops| - 1];
    var e, tab := ApplyAll(before), op.tab;
    assert History(ops, tab) == History(before, tab) && ApplyAll(ops) == Apply(e, op);
    hide History, ApplyAll, Faithful;
  }

  /** A replay and a live emulator never coexist for a tab. What was injected, or
      is still to be, is a suffix of the capped snapshot and all later output; it is
      all of it exactly when no more than the cap had to wait for the emulator. */
  lemma InjectedIsSuffixOfHistory(ops: seq<Op>, tab: TabID)
    ensures var e := ApplyAll(ops);
            && !(tab in e.playbacks && tab in e.replays)
            && |Get(e.replays, tab)| <= MAX_REPLAY_BYTES
            && IsSuffix(Content(e, tab), History(ops, tab))
            && (Content(e, tab) == History(ops, tab) <==> Buffered(ops, tab) <= MAX_REPLAY_BYTES)
  {
    TabKeepsInv(ops, tab);
    hide ApplyAll, History, IsSuffix, Buffered;
  }

  /** The handoff itself changes nothing of what the tab holds. */
  lemma HandoffKeepsContent(e: Engine, tab: TabID, starts: bool, other: TabID)
    ensures Content(Ensure(e, tab, starts), other) == Content(e, other)
    ensures Content(Apply(e, Scroll(tab, starts)), other) == Content(Apply(e, Snapshot(tab, starts)), other)
  {
  }

  // ----- Where a replay begins -----

  /** It begins inside a character, and shows a U+FFFD first. */
  predicate BeginsInside(s: Bytes) {
    s != [] && IsContinuation(s[0])
  }

  lemma BeginsWithReplacement(s: Bytes)
    requires BeginsInside(s)
    ensures REPLACEMENT <= Repair(s)
  {
    RepairOfStray(s[0], s[1..]);
    assert s == [s[0]] + s[1..];
  }

  /** A trimmed replay never begins inside a character. */
  lemma TrimmedReplayBeginsAtCharacter(replay: Bytes, chunk: Bytes)
    requires |replay + chunk| > MAX_REPLAY_BYTES
    ensures !BeginsInside(AppendReplay(replay, chunk))
  {
  }

  /** `s` without the continuation bytes it begins with. */
  predicate CutFrom(r: Bytes, s: Bytes) {
    && IsSuffix(r, s) && (forall i | 0 <= i < |s| - |r| :: IsContinuation(s[i]))
    && (r != [] ==> !IsContinuation(r[0]))
  }

  /** The last 300 000 bytes without the continuation bytes at their start; of
      well-formed bytes these are three at most. */
  ghost predicate KeepsTheLast(r: Bytes, grown: Bytes)
    requires |grown| > 300_000
  {
    CutFrom(r, grown[|grown| - 300_000..]) && (WellFormed(grown) ==> |r| >= 299_997)
  }

  /** Past the cap, those are the replay. */
  lemma TrimmedReplayIsExactly(replay: Bytes, chunk: Bytes)
    requires |replay + chunk| > MAX_REPLAY_BYTES
    ensures KeepsTheLast(AppendReplay(replay, chunk), replay + chunk)
  {
    CutTail(replay + chunk);
    hide *;
    TrimmedReplay(replay, chunk, replay + chunk);
  }

  lemma CutTail(grown: Bytes)
    requires |grown| > 300_000
    ensures KeepsTheLast(DropContinuations(OutputStore.Suffix(grown, MAX_REPLAY_BYTES - REPLAY_TRIM_HEADROOM)), grown)
  {
    var c := |grown| - 300_000;
    var tail := grown[c..];
    assert OutputStore.Suffix(grown, MAX_REPLAY_BYTES - REPLAY_TRIM_HEADROOM) == tail;
    hide DropContinuations, WellFormed, StrayCount, CutFrom;
    DroppedAreContinuations(tail);
    FewStrays(tail);
    if WellFormed(grown) {
      SuffixOfWellFormed(grown, c);
    }
  }

  lemma TrimmedReplay(replay: Bytes, chunk: Bytes, grown: Bytes)
    requires grown == replay + chunk && |grown| > MAX_REPLAY_BYTES
    ensures AppendReplay(replay, chunk) == DropContinuations(OutputStore.Suffix(grown, MAX_REPLAY_BYTES - REPLAY_TRIM_HEADROOM))
  {
    hide DropContinuations, OutputStore.Suffix;
  }

  lemma {:induction false} DroppedAreContinuations(s: Bytes)
    ensures CutFrom(DropContinuations(s), s)
  {
    assert s[0..] == s;
    if s != [] && IsContinuation(s[0]) {
      DroppedAreContinuations(s[1..]);
      forall i | 0 <= i < |s| - |DropContinuations(s)|
        ensures IsContinuation(s[i])
      {
        assert i > 0 ==> s[i] == s[1..][i - 1];
      }
    }
  }

  lemma {:induction false} FewStrays(s: Bytes)
    ensures |s| - |DropContinuations(s)| == StrayCount(s)
  {
    if s != [] && IsContinuation(s[0]) {
      FewStrays(s[1..]);
    }
  }

  lemma {:induction false} ViewportIsReady(ops: seq<Op>)
    ensures ApplyAll(ops).viewportReady <==> SetViewport in ops
  {
    if ops != [] {
      var before, last := ops[..|ops| - 1], ops[|ops| - 1];
      ViewportIsReady(before);
      assert forall op :: op in ops <==> op in before || op == last;
      hide AppendReplay, OutputStore.CapIncomingFrame, OutputStore.Suffix;
    }
  }

  /** Over every run, an emulator is there after a scroll or a snapshot exactly if it
      was, or if the viewport has been set, output waits and the emulator starts; then
      it is given what waited, and nothing waits any more. Tab 0 has no snapshots. */
  lemma EmulatorStartsExactlyWhen(ops: seq<Op>, tab: TabID, starts: bool, scroll: bool)
    ensures var e, n := ApplyAll(ops), ApplyAll(ops + [if scroll then Scroll(tab, starts) else Snapshot(tab, starts)]);
            && (tab in n.playbacks <==>
                  tab in e.playbacks || (starts && (scroll || tab != 0) && SetViewport in ops && Content(e, tab) != []))
            && (tab in n.playbacks ==> n.playbacks[tab] == Content(e, tab) && tab !in n.replays)
            && (tab !in n.playbacks ==> Get(n.replays, tab) == Content(e, tab))
  {
    var op := if scroll then Scroll(tab, starts) else Snapshot(tab, starts);
    assert (ops + [op])[..|ops|] == ops;
    ViewportIsReady(ops);
    InjectedIsSuffixOfHistory(ops, tab);
    hide History, IsSuffix, Buffered;
  }

  /** The replay of a well-formed snapshot does exactly when the cap cuts a character. */
  lemma SnapshotReplayBeginsInsideExactlyWhen(e: Engine, data: Bytes, tab: TabID)
    requires WellFormed(data)
    ensures BeginsInside(Get(Apply(e, ReplaceSnapshot(data, tab)).replays, tab)) <==>
            |data| > MAX_REPLAY_BYTES && IsContinuation(data[|data| - MAX_REPLAY_BYTES])
  {
    BeginsAtCharacter(data);
    SnapshotReplay(e, data, tab);
    hide WellFormed, Apply, Get, IsContinuation;
  }

  lemma BeginsAtCharacter(data: Bytes)
    requires WellFormed(data)
    ensures data != [] ==> !IsContinuation(data[0])
  {
    if data != [] {
      SplitWellFormed(data);
    }
  }

  lemma SnapshotReplay(e: Engine, data: Bytes, tab: TabID)
    ensures Get(Apply(e, ReplaceSnapshot(data, tab)).replays, tab) == OutputStore.Suffix(data, MAX_REPLAY_BYTES)
  {
    hide OutputStore.Suffix;
  }

  /** A two-byte character and letters, one byte more than the cap. */
  const CUT_SNAPSHOT: Bytes := [0xC3, 0xA9] + OutputStore.Letters(399_999)

  lemma SnapshotReplayCanBeginInside(e: Engine, tab: TabID)
    ensures var replay := Get(Apply(e, ReplaceSnapshot(CUT_SNAPSHOT, tab)).replays, tab);
            WellFormed(CUT_SNAPSHOT) && BeginsInside(replay) && REPLACEMENT <= Repair(replay)
  {
    OutputStore.LettersAreText(399_999);
    WellFormedPrepend([0xC3, 0xA9], OutputStore.Letters(399_999));
    SnapshotReplayBeginsInsideExactlyWhen(e, CUT_SNAPSHOT, tab);
    BeginsWithReplacement(Get(Apply(e, ReplaceSnapshot(CUT_SNAPSHOT, tab)).replays, tab));
  }

  method ResyncToScalar(s: Bytes) returns (tail: Bytes)
    ensures tail == DropContinuations(s)
  {
    tail := s;
    while tail != [] && IsContinuation(tail[0])
      invariant DropContinuations(tail) == DropContinuations(s)
      decreases |tail|
    {
      tail := tail[1..];
    }
  }

  class RemoteTerminalRenderEngine {
    var playbacks: map<TabID, Bytes>
    var replayByTabID: map<TabID, Bytes>
    var viewportReady: bool

    function State(): Engine
      reads this
    {
      Engine(playbacks, replayByTabID, viewportReady)
    }

    constructor ()
      ensures State() == NEW_ENGINE
    {
      playbacks, replayByTabID, viewportReady := map[], map[], false;
    }

    method Reset()
      modifies this
      ensures State() == NEW_ENGINE
    {
      playbacks, replayByTabID, viewportReady := map[], map[], false;
    }

    method Retain(visible: set<TabID>)
      modifies this
      ensures State() == Apply(old(State()), RetainVisibleTabs(visible))
    {
      playbacks := map t | t in playbacks && t in visible :: playbacks[t];
      replayByTabID := map t | t in replayByTabID && t in visible :: replayByTabID[t];
    }

    method ShowViewport()
      modifies this
      ensures State() == Apply(old(State()), SetViewport)
    {
      viewportReady := true;
    }

    method Replace(data: Bytes, tab: TabID)
      modifies this
      ensures State() == Apply(old(State()), ReplaceSnapshot(data, tab))
    {
      replayByTabID := replayByTabID[tab := OutputStore.Suffix(data, MAX_REPLAY_BYTES)];
      playbacks := playbacks - {tab};
    }

    method AppendReplayChunk(chunk: Bytes, tab: TabID)
      modifies this`replayByTabID
      ensures replayByTabID == old(replayByTabID)[tab := AppendReplay(Get(old(replayByTabID), tab), chunk)]
    {
      hide DropContinuations;
      var replay := Get(replayByTabID, tab) + chunk;
      if |replay| > MAX_REPLAY_BYTES {
        replay := ResyncToScalar(OutputStore.Suffix(replay, MAX_REPLAY_BYTES - REPLAY_TRIM_HEADROOM));
      }
      replayByTabID := replayByTabID[tab := replay];
    }

    method Append(data: Bytes, tab: TabID)
      modifies this
      ensures State() == Apply(old(State()), AppendOutput(data, tab))
    {
      hide AppendReplay;
      var chunk := OutputStore.CapIncomingFrame(data);
      if chunk == [] {
        return;
      }
      if tab !in playbacks {
        AppendReplayChunk(chunk, tab);
      } else {
        playbacks := playbacks[tab := playbacks[tab] + chunk];
      }
    }

    /** `starts` tells whether the emulator can be created. */
    method EnsurePlayback(tab: TabID, starts: bool) returns (live: bool)
      modifies this
      ensures State() == Ensure(old(State()), tab, starts)
      ensures live <==> viewportReady && tab in playbacks
    {
      if !viewportReady {
        return false;
      }
      if tab in playbacks {
        return true;
      }
      if tab !in replayByTabID || replayByTabID[tab] == [] || !starts {
        return false;
      }
      playbacks := playbacks[tab := replayByTabID[tab]];
      replayByTabID := replayByTabID - {tab};
      live := true;
    }
  }
}
