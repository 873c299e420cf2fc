/** The phone's per-tab transcript: decoding across arbitrary frame splits and
    lazy trimming of the retained tail. */
module OutputStore {
  import opened Wrappers
  import opened Utf8
  import Sequences

  type TabID = i: int | 0 <= i < 0x1_0000_0000

  const MAX_RETAINED_BYTES: nat := 200_000
  const MAX_INCOMING_FRAME_BYTES: nat := 65_536
  const TRIM_SLACK_BYTES: nat := 32_768

  function Suffix(s: Bytes, n: nat): (r: Bytes)
    ensures |r| == if |s| <= n then |s| else n
  {
    if |s| <= n then s else s[|s| - n..]
  }

  function CapIncomingFrame(data: Bytes): Bytes {
    if |data| <= MAX_INCOMING_FRAME_BYTES then data else data[..MAX_INCOMING_FRAME_BYTES]
  }

  /** The trim cuts at a byte and decodes again; it does not look for a scalar boundary. */
  function TrimRetainedText(text: Bytes): Bytes {
    if |text| <= MAX_RETAINED_BYTES then text else Repair(Suffix(text, MAX_RETAINED_BYTES))
  }

  function SnapshotText(data: Bytes): Bytes {
    Repair(Suffix(data, MAX_RETAINED_BYTES))
  }

  // ----- One tab -----

  /** An absent dictionary entry and an empty one read the same. */
  datatype Tab = Tab(committed: Bytes, pending: Bytes, held: Bytes) {
    function Visible(): Bytes {
      TrimRetainedText(committed + pending)
    }
  }

  const EMPTY_TAB := Tab([], [], [])

  datatype Op =
    | Append(data: Bytes, tabID: TabID)
    | ReplaceSnapshot(data: Bytes, tabID: TabID)
    | Flush(tabID: TabID)
    | FlushAll
    | RetainVisibleTabs(visible: set<TabID>)
    | Reset

  function AppendToTab(t: Tab, data: Bytes): Tab {
    var chunk := CapIncomingFrame(data);
    if chunk == [] then t
    else
      var bytes := t.held + chunk;
      var complete := HeldStart(bytes);
      Tab(t.committed, t.pending + Repair(bytes[..complete]), bytes[complete..])
  }

  function ReplaceTabSnapshot(data: Bytes): Tab {
    Tab(TrimRetainedText(SnapshotText(data)), [], [])
  }

  predicate FlushTrims(t: Tab) {
    t.pending != [] && |t.committed + t.pending| > MAX_RETAINED_BYTES + TRIM_SLACK_BYTES
  }

  function FlushTab(t: Tab): Tab {
    var text := t.committed + t.pending;
    Tab(if FlushTrims(t) then TrimRetainedText(text) else text, [], t.held)
  }

  function Step(t: Tab, op: Op, tabID: TabID): Tab {
    match op
    case Append(data, target) => if target == tabID then AppendToTab(t, data) else t
    case ReplaceSnapshot(data, target) => if target == tabID then ReplaceTabSnapshot(data) else t
    case Flush(target) => if target == tabID then FlushTab(t) else t
    case FlushAll => FlushTab(t)
    case RetainVisibleTabs(visible) => if tabID in visible then t else EMPTY_TAB
    case Reset => EMPTY_TAB
  }

  /** What a run of operations leaves in one tab. */
  function Replay(ops: seq<Op>, tabID: TabID): Tab {
    if ops == [] then EMPTY_TAB
    else Step(Replay(ops[..|ops| - 1], tabID), ops[|ops| - 1], tabID)
  }

  // ----- The same run, seen in one shot -----

  predicate Restarts(op: Op, tabID: TabID) {
    match op
    case ReplaceSnapshot(_, target) => target == tabID
    case RetainVisibleTabs(visible) => tabID !in visible
    case Reset => true
    case _ => false
  }

  /** Text of the snapshot the tab currently builds on. */
  function Base(ops: seq<Op>, tabID: TabID): Bytes {
    if ops == [] then []
    else
      var op := ops[|ops| - 1];
      if Restarts(op, tabID) then (if op.ReplaceSnapshot? then SnapshotText(op.data) else [])
      else Base(ops[..|ops| - 1], tabID)
  }

  /** Every byte received for the tab since that snapshot, however it was framed. */
  function Stream(ops: seq<Op>, tabID: TabID): Bytes {
    if ops == [] then []
    else
      var op := ops[|ops| - 1];
      if Restarts(op, tabID) then []
      else if op.Append? && op.tabID == tabID
      then Stream(ops[..|ops| - 1], tabID) + CapIncomingFrame(op.data)
      else Stream(ops[..|ops| - 1], tabID)
  }

  /** The snapshot followed by the one-shot decoding of all complete bytes since. */
  function WholeText(ops: seq<Op>, tabID: TabID): Bytes {
    var stream := Stream(ops, tabID);
    Base(ops, tabID) + Repair(stream[..HeldStart(stream)])
  }

  /** Length the whole text had when the tab was last cut, if it was. */
  function LastTrim(ops: seq<Op>, tabID: TabID): Option<nat> {
    if ops == [] then None
    else
      var before := ops[..|ops| - 1];
      var op := ops[|ops| - 1];
      if Restarts(op, tabID) then
        (if op.ReplaceSnapshot? && |SnapshotText(op.data)| > MAX_RETAINED_BYTES
         then Some(|SnapshotText(op.data)|) else None)
      else if (op.FlushAll? || (op.Flush? && op.tabID == tabID)) && FlushTrims(Replay(before, tabID))
      then Some(|WholeText(before, tabID)|)
      else LastTrim(before, tabID)
  }

  /** The cut at the retained cap falls right behind the lead of a four-byte sequence. */
  predicate CutsBehindFourByteLead(text: Bytes) {
    |text| > MAX_RETAINED_BYTES && 0xF0 <= text[|text| - MAX_RETAINED_BYTES - 1] <= 0xF4
  }

  // ----- Decoding across splits -----

  lemma HeldStartGrows(s: Bytes, t: Bytes)
    ensures HeldStart(s) <= HeldStart(s + t)
  {
    var k := HeldStart(s + t);
    if k < |s| {
      assert (s + t)[k..][..|s| - k] == s[k..];
      if k < |s + t| && t != [] {
        ConformsPrefix((s + t)[k..], |s| - k);
      } else {
        assert s + t == s;
      }
      HeldStartIsUnique(s, k);
    }
  }

  /** Decoding a chunk behind the held bytes continues the one-shot decoding. */
  lemma ChunkContinuesDecoding(stream: Bytes, chunk: Bytes)
    ensures var bytes := stream[HeldStart(stream)..] + chunk;
            var all := stream + chunk;
            && Repair(all[..HeldStart(all)])
               == Repair(stream[..HeldStart(stream)]) + Repair(bytes[..HeldStart(bytes)])
            && all[HeldStart(all)..] == bytes[HeldStart(bytes)..]
  {
    assert Repair([]) == [];
    hide HeldStart, Partial, Repair;
    var h := HeldStart(stream);
    var all := stream + chunk;
    var e := HeldStart(all);
    HeldStartGrows(stream, chunk);
    CutPoints(stream, chunk, h, e);
    HeldStartOfSuffix(all, h);
    if e >= |stream| {
      RepairSplit(stream, chunk[..e - |stream|]);
    } else {
      StillIncomplete(stream, chunk);
    }
  }

  lemma CutPoints(s: Bytes, t: Bytes, h: nat, e: nat)
    requires h <= |s| && h <= e <= |s| + |t|
    ensures (s + t)[h..] == s[h..] + t && (s + t)[e..] == (s[h..] + t)[e - h..]
    ensures e >= |s| ==> (s + t)[..e] == s + t[..e - |s|]
    ensures e >= |s| ==> (s[h..] + t)[..e - h] == s[h..] + t[..e - |s|]
    ensures e == h ==> (s + t)[..e] == s[..h] && (s[h..] + t)[..e - h] == []
  {
  }

  /** If the held bytes are not completed by the chunk, they stay where they are. */
  lemma StillIncomplete(s: Bytes, t: Bytes)
    requires HeldStart(s) <= HeldStart(s + t) < |s|
    ensures HeldStart(s + t) == HeldStart(s)
  {
    hide HeldStart, Partial, IsContinuation;
    var h, k := HeldStart(s), HeldStart(s + t);
    PartialShape(s[h..]);
    PartialShape((s + t)[k..]);
    assert s[h..][k - h] == s[k] == (s + t)[k..][0];
  }

  // ----- Trimming -----

  /** Trimming cuts off a byte suffix and replaces the bytes of the sequence it cut. */
  lemma TrimOfText(text: Bytes)
    requires WellFormed(text) && |text| > MAX_RETAINED_BYTES
    ensures var tail := Suffix(text, MAX_RETAINED_BYTES);
            var k := StrayCount(tail);
            && k <= 3 && WellFormed(tail[k..])
            && TrimRetainedText(text) == Replacements(k) + tail[k..]
            && |TrimRetainedText(text)| == MAX_RETAINED_BYTES + 2 * k
            && (k == 3 <==> CutsBehindFourByteLead(text))
  {
    hide Repair, WellFormed, StrayCount, Replacements;
    SuffixOfWellFormed(text, |text| - MAX_RETAINED_BYTES);
    RepairOfStrays(Suffix(text, MAX_RETAINED_BYTES));
  }

  lemma TrimIsWellFormed(text: Bytes)
    requires WellFormed(text)
    ensures WellFormed(TrimRetainedText(text))
    ensures |TrimRetainedText(text)| <= MAX_RETAINED_BYTES + 6
  {
    if |text| > MAX_RETAINED_BYTES {
      TrimOfText(text);
      RepairIsWellFormed(Suffix(text, MAX_RETAINED_BYTES));
    }
  }

  /** The last bytes of a run of U+FFFD are as many stray bytes as were asked
      for, except that three of them form a U+FFFD again. */
  lemma TailOfReplacements(k: nat, n: nat, rest: Bytes)
    requires 1 <= n <= k <= 3 && WellFormed(rest)
    ensures Repair(Replacements(k)[3 * k - n..] + rest) == Replacements(if n == 3 then 1 else n) + rest
  {
    var tail := Replacements(k)[3 * k - n..];
    assert Replacements(1) == REPLACEMENT;
    assert Replacements(2) == REPLACEMENT + REPLACEMENT;
    assert Replacements(3) == REPLACEMENT + (REPLACEMENT + REPLACEMENT);
    assert tail == REPLACEMENT[3 - n..];
    if n == 3 {
      WellFormedPrepend(REPLACEMENT, rest);
      RepairFixesExactlyWellFormed(REPLACEMENT + rest);
    } else {
      assert rest == [] || !IsContinuation(rest[0]);
      StraysInFront(tail, rest);
    }
  }

  lemma {:induction false} StraysInFront(strays: Bytes, rest: Bytes)
    requires forall i :: 0 <= i < |strays| ==> IsContinuation(strays[i])
    requires WellFormed(rest)
    ensures Repair(strays + rest) == Replacements(|strays|) + rest
  {
    hide Repair, WellFormed;
    if strays == [] {
      assert strays + rest == rest;
      RepairFixesExactlyWellFormed(rest);
    } else {
      StraysInFront(strays[1..], rest);
      RepairOfStray(strays[0], strays[1..] + rest);
      assert strays + rest == [strays[0]] + (strays[1..] + rest);
    }
  }

  /** What is left of text `a` after a trim, plus later text `b`, trims to the
      tail of `a + b`, except in one case: nothing followed the trim, and the trim
      cut a four-byte sequence behind its lead. Then three U+FFFD become one. */
  lemma TrimAgain(a: Bytes, b: Bytes)
    requires WellFormed(a) && WellFormed(b) && |a| > MAX_RETAINED_BYTES
    ensures TrimRetainedText(TrimRetainedText(a) + b) == TrimRetainedText(a + b)
            <==> !(b == [] && CutsBehindFourByteLead(a))
  {
    var k := StrayCount(Suffix(a, MAX_RETAINED_BYTES));
    TrimOfText(a);
    if |b| >= k {
      TrimPastReplacements(a, b, k);
    } else {
      TrimInsideReplacements(a, b, k);
    }
  }

  /** Replacing `k` bytes by `3k` bytes does not show in a suffix that ends behind them. */
  lemma SuffixPast(replaced: Bytes, a: Bytes, b: Bytes, k: nat)
    requires |a| > MAX_RETAINED_BYTES && k <= MAX_RETAINED_BYTES && |replaced| == 3 * k && k <= |b|
    ensures Suffix((replaced + Suffix(a, MAX_RETAINED_BYTES)[k..]) + b, MAX_RETAINED_BYTES)
            == Suffix(a + b, MAX_RETAINED_BYTES)
  {
  }

  lemma SuffixInside(replaced: Bytes, a: Bytes, b: Bytes, k: nat)
    requires |a| > MAX_RETAINED_BYTES && |b| < k <= 3 && |replaced| == 3 * k
    ensures var tail := Suffix(a, MAX_RETAINED_BYTES);
            && Suffix((replaced + tail[k..]) + b, MAX_RETAINED_BYTES)
               == replaced[2 * k + |b|..] + (tail[k..] + b)
            && Suffix(a + b, MAX_RETAINED_BYTES) == tail[|b|..k] + (tail[k..] + b)
  {
  }

  lemma TrimPastReplacements(a: Bytes, b: Bytes, k: nat)
    requires WellFormed(a) && |a| > MAX_RETAINED_BYTES
    requires k == StrayCount(Suffix(a, MAX_RETAINED_BYTES)) && |b| >= k
    ensures TrimRetainedText(TrimRetainedText(a) + b) == TrimRetainedText(a + b)
  {
    var tail := Suffix(a, MAX_RETAINED_BYTES);
    TrimOfText(a);
    if |b| == 0 {
      assert TrimRetainedText(a) + b == TrimRetainedText(a) && a + b == a;
    } else {
      SuffixPast(Replacements(k), a, b, k);
    }
  }

  lemma TrimInsideReplacements(a: Bytes, b: Bytes, k: nat)
    requires WellFormed(a) && WellFormed(b) && |a| > MAX_RETAINED_BYTES
    requires k == StrayCount(Suffix(a, MAX_RETAINED_BYTES)) && |b| < k <= 3
    ensures TrimRetainedText(TrimRetainedText(a) + b) == TrimRetainedText(a + b) <==> k - |b| != 3
  {
    hide Repair, WellFormed, StrayCount, Replacements, SequenceLength;
    var tail, n := Suffix(a, MAX_RETAINED_BYTES), k - |b|;
    TrimOfText(a);
    SuffixInside(Replacements(k), a, b, k);
    var rest := tail[k..] + b;
    WellFormedConcat(tail[k..], b);
    // trimming the whole text leaves `n` stray bytes in front of the rest
    StraysAreContinuations(tail, k);
    StraysInFront(tail[|b|..k], rest);
    // trimming again leaves the last `n` bytes of the `k` replacements
    TailOfReplacements(k, n, rest);
    ReplacementsDiffer(rest);
  }

  lemma ReplacementsDiffer(rest: Bytes)
    ensures Replacements(1) + rest != Replacements(3) + rest
  {
    assert |Replacements(1) + rest| != |Replacements(3) + rest|;
  }

  lemma {:induction false} StraysAreContinuations(s: Bytes, k: nat)
    requires k == StrayCount(s)
    ensures forall i :: 0 <= i < k ==> IsContinuation(s[i])
  {
    if k > 0 {
      StraysAreContinuations(s[1..], k - 1);
      assert forall i :: 1 <= i < k ==> s[i] == s[1..][i - 1];
    }
  }

  // ----- Runs -----

  /** What the tab keeps of `whole` when it was last cut at `mark`. */
  ghost predicate Keeps(t: Tab, whole: Bytes, mark: Option<nat>) {
    && WellFormed(whole) && WellFormed(t.pending)
    && |t.committed| <= MAX_RETAINED_BYTES + TRIM_SLACK_BYTES
    && match mark
       case None => t.committed + t.pending == whole
       case Some(p) =>
         && MAX_RETAINED_BYTES < p <= |whole|
         && WellFormed(whole[..p]) && WellFormed(whole[p..])
         && t.committed + t.pending == TrimRetainedText(whole[..p]) + whole[p..]
  }

  lemma KeepsAppended(t: Tab, whole: Bytes, mark: Option<nat>, text: Bytes, held: Bytes)
    requires Keeps(t, whole, mark) && WellFormed(text)
    ensures Keeps(Tab(t.committed, t.pending + text, held), whole + text, mark)
  {
    WellFormedConcat(whole, text);
    WellFormedConcat(t.pending, text);
    Sequences.Regroup(t.committed, t.pending, text);
    if mark.Some? {
      var p := mark.value;
      SplitAfterAppend(whole, text, p);
      WellFormedConcat(whole[p..], text);
      Sequences.Regroup(TrimRetainedText(whole[..p]), whole[p..], text);
    }
  }

  lemma SplitAfterAppend(whole: Bytes, text: Bytes, p: nat)
    requires p <= |whole|
    ensures (whole + text)[..p] == whole[..p] && (whole + text)[p..] == whole[p..] + text
  {
  }

  lemma KeepsFlushed(t: Tab, whole: Bytes, mark: Option<nat>)
    requires Keeps(t, whole, mark)
    ensures Keeps(FlushTab(t), whole, if FlushTrims(t) then Some(|whole|) else mark)
  {
    if FlushTrims(t) {
      TrimOfKept(t, whole, mark);
      JustTrimmed(whole, t.held);
    } else {
      KeepsMerged(t, whole, mark);
    }
  }

  /** A trimming flush trims to what trimming the whole text would leave. */
  lemma TrimOfKept(t: Tab, whole: Bytes, mark: Option<nat>)
    requires Keeps(t, whole, mark) && FlushTrims(t)
    ensures TrimRetainedText(t.committed + t.pending) == TrimRetainedText(whole)
    ensures |whole| > MAX_RETAINED_BYTES
  {
    hide Repair, WellFormed, TrimRetainedText, CutsBehindFourByteLead;
    if mark.Some? {
      var p := mark.value;
      TrimIsWellFormed(whole[..p]);
      assert whole[..p] + whole[p..] == whole;
      TrimAgain(whole[..p], whole[p..]);
    }
  }

  lemma JustTrimmed(whole: Bytes, held: Bytes)
    requires WellFormed(whole) && |whole| > MAX_RETAINED_BYTES
    ensures Keeps(Tab(TrimRetainedText(whole), [], held), whole, Some(|whole|))
  {
    TrimIsWellFormed(whole);
    assert WellFormed([]);
    hide Repair, WellFormed, TrimRetainedText;
    assert whole[..|whole|] == whole && whole[|whole|..] == [];
  }

  lemma KeepsMerged(t: Tab, whole: Bytes, mark: Option<nat>)
    requires Keeps(t, whole, mark) && !FlushTrims(t)
    ensures Keeps(Tab(t.committed + t.pending, [], t.held), whole, mark)
  {
    assert WellFormed([]);
    hide Repair, WellFormed, TrimRetainedText;
    var text := t.committed + t.pending;
    assert text + [] == text;
    assert t.pending == [] ==> text == t.committed;
  }

  lemma KeepsSnapshot(data: Bytes)
    ensures var text := SnapshotText(data);
            Keeps(ReplaceTabSnapshot(data), text, if |text| > MAX_RETAINED_BYTES then Some(|text|) else None)
  {
    var text := SnapshotText(data);
    RepairIsWellFormed(Suffix(data, MAX_RETAINED_BYTES));
    TrimIsWellFormed(text);
    assert text[..|text|] == text && text[|text|..] == [];
    assert TrimRetainedText(text) + [] == TrimRetainedText(text);
  }

  /** Over every run: the held bytes are the incomplete end of the stream, and
      the tab keeps the whole text as its last cut left it. */
  lemma {:induction false} ReplayKeeps(ops: seq<Op>, tabID: TabID)
    ensures var stream := Stream(ops, tabID);
            && Replay(ops, tabID).held == stream[HeldStart(stream)..]
            && Keeps(Replay(ops, tabID), WholeText(ops, tabID), LastTrim(ops, tabID))
  {
    if ops == [] {
      assert Replay(ops, tabID) == EMPTY_TAB && WholeText(ops, tabID) == [];
    } else {
      var before, op := ops[..|ops| - 1], ops[|ops| - 1];
      assert ops == before + [op];
      hide *;
      ReplayKeeps(before, tabID);
      if Restarts(op, tabID) {
        ReplayKeepsRestart(before, op, tabID);
      } else if op.Append? && op.tabID == tabID {
        ReplayKeepsAppend(before, op.data, tabID);
      } else {
        ReplayKeepsRest(before, op, tabID);
      }
    }
  }

  lemma ReplayKeepsRestart(before: seq<Op>, op: Op, tabID: TabID)
    requires Restarts(op, tabID)
    ensures var ops := before + [op];
            && Replay(ops, tabID).held == [] == Stream(ops, tabID)
            && Keeps(Replay(ops, tabID), WholeText(ops, tabID), LastTrim(ops, tabID))
  {
    var ops := before + [op];
    assert Stream(ops, tabID) == [] && Repair([]) == [];
    assert Base(ops, tabID) + [] == Base(ops, tabID);
    if op.ReplaceSnapshot? {
      KeepsSnapshot(op.data);
    }
  }

  lemma ReplayKeepsRest(before: seq<Op>, op: Op, tabID: TabID)
    requires !Restarts(op, tabID) && !(op.Append? && op.tabID == tabID)
    requires Keeps(Replay(before, tabID), WholeText(before, tabID), LastTrim(before, tabID))
    ensures var ops := before + [op];
            && Replay(ops, tabID).held == Replay(before, tabID).held
            && Stream(ops, tabID) == Stream(before, tabID)
            && Keeps(Replay(ops, tabID), WholeText(ops, tabID), LastTrim(ops, tabID))
  {
    assert (before + [op])[..|before|] == before;
    KeepsFlushed(Replay(before, tabID), WholeText(before, tabID), LastTrim(before, tabID));
  }

  lemma ReplayKeepsAppend(before: seq<Op>, data: Bytes, tabID: TabID)
    requires var stream := Stream(before, tabID);
             && Replay(before, tabID).held == stream[HeldStart(stream)..]
             && Keeps(Replay(before, tabID), WholeText(before, tabID), LastTrim(before, tabID))
    ensures var t := AppendToTab(Replay(before, tabID), data);
            var ops := before + [Append(data, tabID)];
            && t.held == Stream(ops, tabID)[HeldStart(Stream(ops, tabID))..]
            && Keeps(t, WholeText(ops, tabID), LastTrim(before, tabID))
  {
    var ops := before + [Append(data, tabID)];
    assert ops[..|ops| - 1] == before;
    var t := Replay(before, tabID);
    var stream, chunk := Stream(before, tabID), CapIncomingFrame(data);
    var bytes := t.held + chunk;
    if chunk == [] {
      assert stream + chunk == stream;
    } else {
      ChunkContinuesDecoding(stream, chunk);
      var text := Repair(bytes[..HeldStart(bytes)]);
      RepairIsWellFormed(bytes[..HeldStart(bytes)]);
      KeepsAppended(t, WholeText(before, tabID), LastTrim(before, tabID), text, bytes[HeldStart(bytes)..]);
      Sequences.Regroup(Base(before, tabID), Repair(stream[..HeldStart(stream)]), text);
    }
  }

  lemma CutOfConcat(a: Bytes, b: Bytes, p: nat)
    requires p <= |a|
    ensures (a + b)[..p] == a[..p] && (a + b)[p..] == a[p..] + b
  {
  }

  /** For every byte stream, malformed or not, and every split into frames: the text
      a tab has accumulated, followed by the decoding of the held bytes, is the
      one-shot decoding of the stream, trimmed as of the last cut if there was one;
      and the held bytes are at most three and a proper prefix of a well-formed
      sequence. */
  lemma DecodingIsSplitInvariant(ops: seq<Op>, tabID: TabID)
    ensures var t, oneShot := Replay(ops, tabID), Base(ops, tabID) + Repair(Stream(ops, tabID));
            && WholeText(ops, tabID) + Repair(t.held) == oneShot
            && (LastTrim(ops, tabID).None? ==> t.committed + t.pending + Repair(t.held) == oneShot)
            && (LastTrim(ops, tabID).Some? ==>
                  var p := LastTrim(ops, tabID).value;
                  && p <= |oneShot|
                  && t.committed + t.pending + Repair(t.held) == TrimRetainedText(oneShot[..p]) + oneShot[p..])
            && |t.held| <= 3
            && (t.held == [] || exists rest: Bytes :: rest != [] && WellFormedSequence(t.held + rest))
  {
    ReplayKeeps(ops, tabID);
    var t, whole := Replay(ops, tabID), WholeText(ops, tabID);
    assert whole + Repair(t.held) == Base(ops, tabID) + Repair(Stream(ops, tabID)) by {
      HeldCompletesDecoding(ops, tabID, t.held);
    }
    PartialIsProperPrefix(t.held);
    hide *;
    if LastTrim(ops, tabID).Some? {
      var p := LastTrim(ops, tabID).value;
      assert p <= |whole| && t.committed + t.pending == TrimRetainedText(whole[..p]) + whole[p..] by {
        KeptAsCut(t, whole, p);
      }
      CutOfConcat(whole, Repair(t.held), p);
      Sequences.Regroup(TrimRetainedText(whole[..p]), whole[p..], Repair(t.held));
    } else {
      KeptWhole(t, whole);
    }
  }

  lemma KeptAsCut(t: Tab, whole: Bytes, p: nat)
    requires Keeps(t, whole, Some(p))
    ensures p <= |whole| && t.committed + t.pending == TrimRetainedText(whole[..p]) + whole[p..]
  {
  }

  lemma KeptWhole(t: Tab, whole: Bytes)
    requires Keeps(t, whole, None)
    ensures t.committed + t.pending == whole
  {
  }

  lemma HeldCompletesDecoding(ops: seq<Op>, tabID: TabID, held: Bytes)
    requires var stream := Stream(ops, tabID); held == stream[HeldStart(stream)..]
    ensures WholeText(ops, tabID) + Repair(held) == Base(ops, tabID) + Repair(Stream(ops, tabID))
  {
    var stream := Stream(ops, tabID);
    var h := HeldStart(stream);
    RepairSplit(stream, []);
    assert stream + [] == stream && stream[h..] + [] == stream[h..];
    Sequences.Regroup(Base(ops, tabID), Repair(stream[..h]), Repair(stream[h..]));
  }

  /** Lazy trimming shows in one case only: the text was cut behind the lead of a
      four-byte sequence and nothing has been decoded since. */
  lemma LazyTrimmingIsInvisible(ops: seq<Op>, tabID: TabID)
    ensures var whole := WholeText(ops, tabID);
            Replay(ops, tabID).Visible() == TrimRetainedText(whole)
            <==> !(LastTrim(ops, tabID) == Some(|whole|) && CutsBehindFourByteLead(whole))
  {
    ReplayKeeps(ops, tabID);
    hide Repair, WellFormed, TrimRetainedText, CutsBehindFourByteLead, Replay, WholeText, LastTrim;
    var whole, mark := WholeText(ops, tabID), LastTrim(ops, tabID);
    if mark.Some? {
      var p := mark.value;
      assert whole[..p] + whole[p..] == whole;
      TrimAgain(whole[..p], whole[p..]);
      assert p == |whole| ==> whole[..p] == whole;
    }
  }

  lemma KeptIsWellFormed(t: Tab, whole: Bytes, mark: Option<nat>)
    requires Keeps(t, whole, mark)
    ensures WellFormed(t.committed + t.pending)
  {
    hide Repair, WellFormed, TrimRetainedText;
    if mark.Some? {
      TrimIsWellFormed(whole[..mark.value]);
      WellFormedConcat(TrimRetainedText(whole[..mark.value]), whole[mark.value..]);
    }
  }

  /** Every byte of the sequence that a trim cuts costs two more. */
  lemma TrimmedLength(text: Bytes)
    requires WellFormed(text) && |text| > MAX_RETAINED_BYTES
    ensures |TrimRetainedText(text)| == MAX_RETAINED_BYTES + 2 * StrayCount(Suffix(text, MAX_RETAINED_BYTES))
    ensures |TrimRetainedText(text)| <= MAX_RETAINED_BYTES + 6
    ensures |TrimRetainedText(text)| == MAX_RETAINED_BYTES <==> !IsContinuation(text[|text| - MAX_RETAINED_BYTES])
  {
    TrimOfText(text);
    hide Repair, WellFormed, TrimRetainedText;
    assert Suffix(text, MAX_RETAINED_BYTES)[0] == text[|text| - MAX_RETAINED_BYTES];
  }

  /** Memory stays bounded: the committed text never exceeds the cap and the slack.
      What is shown is well-formed, and it is within the retained cap exactly when
      nothing is cut or the cut falls between two characters; otherwise it is over
      the cap by at most six bytes. */
  lemma TextStaysBounded(ops: seq<Op>, tabID: TabID)
    ensures var t := Replay(ops, tabID);
            var text := t.committed + t.pending;
            && |t.committed| <= MAX_RETAINED_BYTES + TRIM_SLACK_BYTES
            && WellFormed(t.Visible()) && |t.Visible()| <= MAX_RETAINED_BYTES + 6
            && (|t.Visible()| <= MAX_RETAINED_BYTES <==>
                  |text| <= MAX_RETAINED_BYTES || !IsContinuation(text[|text| - MAX_RETAINED_BYTES]))
  {
    ReplayKeeps(ops, tabID);
    var t := Replay(ops, tabID);
    KeptIsWellFormed(t, WholeText(ops, tabID), LastTrim(ops, tabID));
    TrimIsWellFormed(t.committed + t.pending);
    hide Replay, WholeText, LastTrim, WellFormed, Repair, StrayCount;
    if |t.committed + t.pending| > MAX_RETAINED_BYTES {
      TrimmedLength(t.committed + t.pending);
    }
  }

  // ----- What was received and what was cut, in bytes -----

  /** The first bytes of each frame for the tab, put together. */
  function Received(ops: seq<Op>, tabID: TabID): Bytes {
    if ops == [] then []
    else
      var op, before := ops[|ops| - 1], Received(ops[..|ops| - 1], tabID);
      if !op.Append? || op.tabID != tabID then before
      else if |op.data| > 65_536 then before + op.data[..65_536]
      else before + op.data
  }

  /** Since the newest snapshot of a tab: the text is the decoding of the last 200 000
      bytes of the snapshot, all of it if it is no longer, and of the bytes received
      since, at most 65 536 of each frame. */
  lemma {:induction false} SnapshotRestartsTheText(before: seq<Op>, data: Bytes, after: seq<Op>, tabID: TabID, tail: Bytes)
    requires forall op <- after :: !Restarts(op, tabID)
    requires Sequences.IsSuffix(tail, data) && (|tail| == 200_000 || (|data| < 200_000 && |tail| == |data|))
    ensures var ops := before + [ReplaceSnapshot(data, tabID)] + after;
            && Base(ops, tabID) == Repair(tail) && Stream(ops, tabID) == Received(after, tabID)
    decreases |after|
  {
    var first := before + [ReplaceSnapshot(data, tabID)];
    if after == [] {
      assert first + after == first;
      assert Suffix(data, MAX_RETAINED_BYTES) == tail;
      hide Repair;
    } else {
      var n := |after| - 1;
      assert after[n] in after && (first + after)[..|first| + n] == first + after[..n];
      SnapshotRestartsTheText(before, data, after[..n], tabID, tail);
      hide Repair;
    }
  }

  /** Without one, the text is the decoding of the bytes received. */
  lemma {:induction false} TextOfFramesAlone(ops: seq<Op>, tabID: TabID)
    requires forall op <- ops :: !Restarts(op, tabID)
    ensures Base(ops, tabID) == [] && Stream(ops, tabID) == Received(ops, tabID)
  {
    if ops != [] {
      assert ops[|ops| - 1] in ops;
      TextOfFramesAlone(ops[..|ops| - 1], tabID);
    }
  }

  /** Over every run, a flush of a tab moves its pending text behind the committed
      one, and cuts exactly when that makes more than 232 768 bytes: then it keeps the
      decoding of the last 200 000. */
  lemma FlushCutsExactlyWhen(ops: seq<Op>, tabID: TabID, all: bool)
    ensures var t, n := Replay(ops, tabID), Replay(ops + [if all then FlushAll else Flush(tabID)], tabID);
            var text := t.committed + t.pending;
            && n.pending == [] && n.held == t.held
            && n.committed == (if |text| > 232_768 then Repair(text[|text| - 200_000..]) else text)
  {
    var op := if all then FlushAll else Flush(tabID);
    ReplaySnoc(ops, op);
    ReplayKeeps(ops, tabID);
    var t := Replay(ops, tabID);
    assert t.pending == [] ==> t.committed + t.pending == t.committed;
    hide Replay, Repair, WellFormed, HeldStart, WholeText, LastTrim;
  }

  lemma {:induction false} WellFormedHoldsNothing(s: Bytes)
    requires WellFormed(s)
    ensures HeldStart(s) == |s|
  {
    if s != [] {
      var n := SequenceLength(s[0]);
      WellFormedHoldsNothing(s[n..]);
      var h := HeldStart(s);
      assert h < |s| ==> s[h..][0] == s[h];
      if n <= h {
        HeldStartOfSuffix(s, n);
      }
    }
  }

  lemma {:induction false} LettersAreText(n: nat)
    ensures WellFormed(Letters(n))
  {
    if n > 0 {
      LettersAreText(n - 1);
      assert Letters(n)[1..] == Letters(n - 1) && Letters(n)[..1] == [0x61];
    }
  }

  function Letters(n: nat): (s: Bytes)
    ensures |s| == n
  {
    seq(n, _ => 0x61)
  }

  lemma ReplaySnoc(ops: seq<Op>, op: Op)
    ensures forall tabID: TabID {:trigger Replay(ops + [op], tabID)} ::
              Replay(ops + [op], tabID) == Step(Replay(ops, tabID), op, tabID)
  {
    assert (ops + [op])[..|ops|] == ops;
  }

  const GRINNING_FACE: Bytes := [0xF0, 0x9F, 0x98, 0x80]

  /** A run that has only appended `text` to tab 7. */
  ghost predicate HasAppended(ops: seq<Op>, text: Bytes) {
    && Stream(ops, 7) == text && Base(ops, 7) == [] && LastTrim(ops, 7) == None
    && WellFormed(text)
  }

  lemma AppendMore(ops: seq<Op>, text: Bytes, data: Bytes)
    requires HasAppended(ops, text) && WellFormed(data) && |data| <= MAX_INCOMING_FRAME_BYTES
    ensures HasAppended(ops + [Append(data, 7)], text + data)
  {
    AppendedOps(ops, data, 7);
    WellFormedConcat(text, data);
  }

  lemma AppendedOps(ops: seq<Op>, data: Bytes, tabID: TabID)
    ensures var all := ops + [Append(data, tabID)];
            && Stream(all, tabID) == Stream(ops, tabID) + CapIncomingFrame(data)
            && Base(all, tabID) == Base(ops, tabID)
            && LastTrim(all, tabID) == LastTrim(ops, tabID)
  {
    assert (ops + [Append(data, tabID)])[..|ops|] == ops;
  }

  /** A flush that trims text cut behind a four-byte lead, with nothing after it. */
  lemma FlushThatShows(ops: seq<Op>, text: Bytes)
    requires HasAppended(ops, text) && CutsBehindFourByteLead(text)
    requires Replay(ops, 7).pending != [] && |text| > MAX_RETAINED_BYTES + TRIM_SLACK_BYTES
    ensures var all := ops + [Flush(7)];
            Replay(all, 7).Visible() != TrimRetainedText(WholeText(all, 7))
  {
    var all := ops + [Flush(7)];
    assert WholeText(ops, 7) == text by {
      WellFormedHoldsNothing(text);
      RepairFixesExactlyWellFormed(text);
      assert text[..|text|] == text && [] + text == text;
    }
    assert FlushTrims(Replay(ops, 7)) by {
      ReplayKeeps(ops, 7);
    }
    FlushedOps(ops, 7);
    LazyTrimmingIsInvisible(all, 7);
  }

  lemma FlushedOps(ops: seq<Op>, tabID: TabID)
    requires FlushTrims(Replay(ops, tabID))
    ensures var all := ops + [Flush(tabID)];
            && WholeText(all, tabID) == WholeText(ops, tabID)
            && LastTrim(all, tabID) == Some(|WholeText(ops, tabID)|)
  {
    assert (ops + [Flush(tabID)])[..|ops|] == ops;
  }

  /** One emoji in plain letters: one byte more than the cap and the slack. */
  const EMOJI_FRAME: Bytes := Letters(32_768) + GRINNING_FACE
  const LETTER_FRAME: Bytes := Letters(65_000)
  const LAST_FRAME: Bytes := Letters(4_997)
  const EMOJI_AT_THE_CUT: seq<Op> :=
    [] + [Append(EMOJI_FRAME, 7)] + [Append(LETTER_FRAME, 7)] + [Append(LETTER_FRAME, 7)]
    + [Append(LETTER_FRAME, 7)] + [Append(LAST_FRAME, 7)]

  /** Reaching the flush: the frames, appended one after the other. */
  lemma EmojiRun()
    ensures HasAppended(EMOJI_AT_THE_CUT, EMOJI_FRAME + LETTER_FRAME + LETTER_FRAME + LETTER_FRAME + LAST_FRAME)
    ensures Replay(EMOJI_AT_THE_CUT, 7).pending != []
  {
    LettersAreText(32_768);
    LettersAreText(65_000);
    LettersAreText(4_997);
    WellFormedPrepend(GRINNING_FACE, []);
    assert GRINNING_FACE + [] == GRINNING_FACE;
    WellFormedConcat(Letters(32_768), GRINNING_FACE);
    var ops: seq<Op> := [];
    assert [] + EMOJI_FRAME == EMOJI_FRAME;
    AppendMore(ops, [], EMOJI_FRAME);
    ops := ops + [Append(EMOJI_FRAME, 7)];
    AppendMore(ops, EMOJI_FRAME, LETTER_FRAME);
    ops := ops + [Append(LETTER_FRAME, 7)];
    AppendMore(ops, EMOJI_FRAME + LETTER_FRAME, LETTER_FRAME);
    ops := ops + [Append(LETTER_FRAME, 7)];
    AppendMore(ops, EMOJI_FRAME + LETTER_FRAME + LETTER_FRAME, LETTER_FRAME);
    ops := ops + [Append(LETTER_FRAME, 7)];
    AppendMore(ops, EMOJI_FRAME + LETTER_FRAME + LETTER_FRAME + LETTER_FRAME, LAST_FRAME);
    PendingAfterAppend(ops, LAST_FRAME);
  }

  lemma PendingAfterAppend(ops: seq<Op>, data: Bytes)
    requires HasAppended(ops, Stream(ops, 7))
    requires data != [] && WellFormed(data) && |data| <= MAX_INCOMING_FRAME_BYTES
    ensures Replay(ops + [Append(data, 7)], 7).pending != []
  {
    hide *;
    ReplaySnoc(ops, Append(data, 7));
    ReplayKeeps(ops, 7);
    StreamHoldsNothing(ops);
    TextIsPassedOn(Replay(ops, 7), data);
  }

  lemma StreamHoldsNothing(ops: seq<Op>)
    requires HasAppended(ops, Stream(ops, 7))
    ensures Stream(ops, 7)[HeldStart(Stream(ops, 7))..] == []
  {
    WellFormedHoldsNothing(Stream(ops, 7));
  }

  lemma TextIsPassedOn(t: Tab, data: Bytes)
    requires t.held == [] && data != [] && WellFormed(data) && |data| <= MAX_INCOMING_FRAME_BYTES
    ensures Step(t, Append(data, 7), 7).pending == t.pending + data != []
  {
    hide WellFormed, HeldStart, Repair, Partial;
    WellFormedHoldsNothing(data);
    RepairFixesExactlyWellFormed(data);
    assert t.held + data == data == data[..|data|];
  }

  /** A run on which the shown text is not the retained tail of the whole text. */
  lemma LazyTrimmingCanShow()
    ensures var ops := EMOJI_AT_THE_CUT + [Flush(7)];
            Replay(ops, 7).Visible() != TrimRetainedText(WholeText(ops, 7))
  {
    EmojiRun();
    var text := EMOJI_FRAME + LETTER_FRAME + LETTER_FRAME + LETTER_FRAME + LAST_FRAME;
    assert |text| - MAX_RETAINED_BYTES - 1 == 32_768;
    assert text[32_768] == EMOJI_FRAME[32_768] == 0xF0;
    FlushThatShows(EMOJI_AT_THE_CUT, text);
  }

  /** Before that flush what is shown is six bytes over the cap. */
  lemma ShownTextCanExceedTheCap()
    ensures |Replay(EMOJI_AT_THE_CUT, 7).Visible()| == MAX_RETAINED_BYTES + 6
  {
    EmojiRun();
    var text := EMOJI_FRAME + LETTER_FRAME + LETTER_FRAME + LETTER_FRAME + LAST_FRAME;
    assert |text| - MAX_RETAINED_BYTES - 1 == 32_768;
    assert text[32_768] == EMOJI_FRAME[32_768] == 0xF0;
    AppendedTextIsKept(EMOJI_AT_THE_CUT, text);
    hide HasAppended, Replay;
    TrimOfText(text);
  }

  lemma AppendedTextIsKept(ops: seq<Op>, text: Bytes)
    requires HasAppended(ops, text)
    ensures Replay(ops, 7).committed + Replay(ops, 7).pending == text && WellFormed(text)
  {
    ReplayKeeps(ops, 7);
    WellFormedHoldsNothing(text);
    RepairFixesExactlyWellFormed(text);
    hide Repair, WellFormed, Replay, HeldStart;
    assert text[..|text|] == text && [] + text == text;
  }

  // ----- The store -----

  class RemoteTerminalOutputStore {
    var committedByTabID: map<TabID, Bytes>
    var pendingByTabID: map<TabID, Bytes>
    var incompleteUTF8ByTabID: map<TabID, Bytes>

    ghost function TabState(tabID: TabID): Tab
      reads this
    {
      Tab(Entry(committedByTabID, tabID), Entry(pendingByTabID, tabID), Entry(incompleteUTF8ByTabID, tabID))
    }

    /** No pending entry is empty: "has pending output" and "has an entry" agree. */
    ghost predicate Valid()
      reads this
    {
      forall tabID <- pendingByTabID :: pendingByTabID[tabID] != []
    }

    constructor ()
      ensures Valid() && forall t: TabID :: TabState(t) == EMPTY_TAB
    {
      committedByTabID, pendingByTabID, incompleteUTF8ByTabID := map[], map[], map[];
    }

    method Append(data: Bytes, tabID: TabID)
      requires Valid()
      modifies this
      ensures Valid()
      ensures forall t: TabID :: TabState(t) == Step(old(TabState(t)), Op.Append(data, tabID), t)
    {
      hide Partial, HeldStart, Repair, CapIncomingFrame;
      var chunk := CapIncomingFrame(data);
      if chunk == [] {
        return;
      }
      var bytes := Entry(incompleteUTF8ByTabID, tabID) + chunk;
      incompleteUTF8ByTabID := incompleteUTF8ByTabID - {tabID};
      var start := IncompleteUTF8SuffixStart(bytes);
      var completeCount := match start case Some(i) => i case None => |bytes|;
      var text := Repair(bytes[..completeCount]);
      if completeCount < |bytes| {
        incompleteUTF8ByTabID := incompleteUTF8ByTabID[tabID := bytes[completeCount..]];
      }
      var pending := Entry(pendingByTabID, tabID);
      if text == [] {
        assert pending + text == pending;
        return;
      }
      pendingByTabID := pendingByTabID[tabID := pending + text];
    }

    method ReplaceSnapshot(data: Bytes, tabID: TabID)
      requires Valid()
      modifies this
      ensures Valid()
      ensures forall t: TabID :: TabState(t) == Step(old(TabState(t)), Op.ReplaceSnapshot(data, tabID), t)
    {
      var text := SnapshotText(data);
      pendingByTabID := pendingByTabID - {tabID};
      incompleteUTF8ByTabID := incompleteUTF8ByTabID - {tabID};
      committedByTabID := committedByTabID[tabID := TrimRetainedText(text)];
    }

    /** One round of the flush loop. */
    method FlushOneTab(target: TabID)
      requires Valid() && target in pendingByTabID
      modifies this
      ensures Valid() && pendingByTabID.Keys == old(pendingByTabID.Keys) - {target}
      ensures forall t: TabID :: TabState(t) == if t == target then FlushTab(old(TabState(t))) else old(TabState(t))
    {
      hide Repair, TrimRetainedText, HeldStart;
      var pending := pendingByTabID[target];
      pendingByTabID := pendingByTabID - {target};
      var committed := Entry(committedByTabID, target) + pending;
      if |committed| > MAX_RETAINED_BYTES + TRIM_SLACK_BYTES {
        committed := TrimRetainedText(committed);
      }
      committedByTabID := committedByTabID[target := committed];
    }

    /** Flushes one tab, or every tab with pending text in whatever order the
        dictionary lists them; returns the tabs whose text grew. */
    method FlushPendingOutput(tabID: Option<TabID>) returns (updated: set<TabID>)
      requires Valid()
      modifies this
      ensures Valid()
      ensures forall t: TabID :: TabState(t)
                == Step(old(TabState(t)), if tabID.Some? then Flush(tabID.value) else FlushAll, t)
      ensures updated == set t | t in old(pendingByTabID) && (tabID == None || tabID == Some(t))
    {
      hide Repair, TrimRetainedText, HeldStart, FlushTab;
      var targets := match tabID
        case Some(t) => if t in pendingByTabID then {t} else {}
        case None => pendingByTabID.Keys;
      ghost var all := targets;
      updated := {};
      while targets != {}
        invariant targets + updated == all && targets !! updated
        invariant Valid() && targets <= pendingByTabID.Keys
        invariant forall t: TabID :: TabState(t) == if t in updated then FlushTab(old(TabState(t))) else old(TabState(t))
      {
        var target :| target in targets;
        targets := targets - {target};
        FlushOneTab(target);
        updated := updated + {target};
      }
      forall t: TabID | t !in all && old(TabState(t)).pending == []
        ensures FlushTab(old(TabState(t))) == old(TabState(t))
      {
        NothingToFlush(old(TabState(t)));
      }
    }

    method RetainVisibleTabs(visible: set<TabID>)
      requires Valid()
      modifies this
      ensures Valid()
      ensures forall t: TabID :: TabState(t) == Step(old(TabState(t)), Op.RetainVisibleTabs(visible), t)
    {
      committedByTabID := map t | t in committedByTabID && t in visible :: committedByTabID[t];
      pendingByTabID := map t | t in pendingByTabID && t in visible :: pendingByTabID[t];
      incompleteUTF8ByTabID := map t | t in incompleteUTF8ByTabID && t in visible :: incompleteUTF8ByTabID[t];
    }

    method Reset()
      modifies this
      ensures Valid()
      ensures forall t: TabID :: TabState(t) == Step(old(TabState(t)), Op.Reset, t)
    {
      committedByTabID, pendingByTabID, incompleteUTF8ByTabID := map[], map[], map[];
    }

    method VisibleOutput(tabID: TabID) returns (text: Bytes)
      requires Valid()
      ensures text == TabState(tabID).Visible()
    {
      var committed := Entry(committedByTabID, tabID);
      if tabID in pendingByTabID {
        return TrimRetainedText(committed + pendingByTabID[tabID]);
      }
      assert committed + [] == committed;
      return TrimRetainedText(committed);
    }
  }

  lemma NothingToFlush(t: Tab)
    requires t.pending == []
    ensures FlushTab(t) == t
  {
    assert t.committed + [] == t.committed;
  }

  function Entry(m: map<TabID, Bytes>, tabID: TabID): Bytes {
    if tabID in m then m[tabID] else []
  }

  /** Walks back over at most three continuation bytes to a lead byte and checks
      what follows it. */
  method IncompleteUTF8SuffixStart(data: Bytes) returns (start: Option<nat>)
    ensures start == if HeldStart(data) < |data| then Some(HeldStart(data)) else None
  {
    var bytes := Suffix(data, 4);
    if bytes == [] {
      return None;
    }
    var leadIndex := |bytes| - 1;
    while leadIndex > 0 && IsContinuation(bytes[leadIndex])
      invariant 0 <= leadIndex < |bytes|
      invariant forall i :: leadIndex < i < |bytes| ==> IsContinuation(bytes[i])
    {
      leadIndex := leadIndex - 1;
    }
    assert HeldStart(data) == (if Partial(bytes[leadIndex..]) then |data| - |bytes| + leadIndex else |data|) by {
      assert data[|data| - |bytes| + leadIndex..] == bytes[leadIndex..];
      OnlyCandidate(data, |data| - |bytes| + leadIndex);
    }
    hide HeldStart, Partial;
    var incomplete := IsIncompleteSequence(bytes[leadIndex..]);
    return if incomplete then Some(|data| - |bytes| + leadIndex) else None;
  }

  /** The second half of the suffix search: the lead byte and what follows it. */
  method IsIncompleteSequence(tail: Bytes) returns (incomplete: bool)
    requires tail != []
    ensures incomplete <==> Partial(tail)
  {
    hide Conforms;
    var lead := tail[0];
    var expectedLength := 0;
    if 0xC2 <= lead <= 0xDF {
      expectedLength := 2;
    } else if 0xE0 <= lead <= 0xEF {
      expectedLength := 3;
    } else if 0xF0 <= lead <= 0xF4 {
      expectedLength := 4;
    } else {
      return false;
    }
    assert expectedLength == SequenceLength(lead);
    hide SequenceLength;
    if |tail| >= expectedLength {
      return false;
    }
    ConformsAlone(tail);
    for offset := 1 to |tail|
      invariant Conforms(tail[..offset])
    {
      var continuation := tail[offset];
      ConformsStep(tail, offset);
      if !IsContinuation(continuation) {
        return false;
      }
      if offset == 1
        && (|| (lead == 0xE0 && continuation < 0xA0)
            || (lead == 0xED && continuation > 0x9F)
            || (lead == 0xF0 && continuation < 0x90)
            || (lead == 0xF4 && continuation > 0x8F))
      {
        return false;
      }
    }
    assert tail[..|tail|] == tail;
    return true;
  }

  lemma ConformsAlone(s: Bytes)
    requires s != [] && SequenceLength(s[0]) > 0
    ensures Conforms(s[..1])
  {
  }

  /** One more byte: the sequence still conforms exactly when the byte is allowed
      there, and otherwise nothing behind it can repair that. */
  lemma ConformsStep(s: Bytes, n: nat)
    requires 1 <= n < |s| && Conforms(s[..n]) && |s| < SequenceLength(s[0])
    ensures Conforms(s[..n + 1]) <==> Allowed(s[0], n, s[n])
    ensures !Conforms(s[..n + 1]) ==> !Conforms(s)
  {
    if Conforms(s) && n + 1 < |s| {
      ConformsPrefix(s, n + 1);
    }
    assert s[..n + 1] == s[..n] + [s[n]];
  }

  lemma OnlyCandidate(data: Bytes, at: nat)
    requires at < |data| && |data| - at <= 4
    requires forall i :: at < i < |data| ==> IsContinuation(data[i])
    requires IsContinuation(data[at]) ==> at == 0 || at + 4 == |data|
    ensures HeldStart(data) == if Partial(data[at..]) then at else |data|
  {
    var h := HeldStart(data);
    assert h < |data| ==> data[h..][0] == data[h];
    if Partial(data[at..]) {
      HeldStartIsUnique(data, at);
    }
  }
}
