/** The phone's diagnostics log and its file, which is appended to as long as that is
    enough: what a save leaves in it, after recording, clearing and loading. */
module DiagnosticsFile {
  import opened Diagnostics
  import opened Sequences
  import opened Utf8
  import opened Wrappers

  /** How an entry becomes a line; an entry that cannot be encoded is left out. */
  type Encoder = Entry -> Option<Bytes>

  function EncodeEntries(encode: Encoder, entries: seq<Entry>): Bytes {
    if entries == [] then []
    else
      (match encode(entries[0])
       case None => []
       case Some(line) => line + [NEWLINE])
      + EncodeEntries(encode, entries[1..])
  }

  /** What the serial queue does to the file; here it succeeds. */
  datatype Write = Replace(data: Bytes) | Append(data: Bytes) {
    function On(file: Bytes): Bytes {
      match this
      case Replace(data) => data
      case Append(data) => file + data
    }
  }

  function Drain(file: Bytes, queued: seq<Write>): Bytes
    decreases |queued|
  {
    if queued == [] then file else Drain(queued[0].On(file), queued[1..])
  }

  lemma {:induction false} DrainAll(file: Bytes, queued: seq<Write>, last: Write)
    ensures Drain(file, queued + [last]) == last.On(Drain(file, queued))
    decreases |queued|
  {
    if queued == [] {
      assert [] + [last] == [last] && [last][1..] == [];
    } else {
      assert (queued + [last])[1..] == queued[1..] + [last];
      DrainAll(queued[0].On(file), queued[1..], last);
    }
  }

  datatype Log = Log(entries: seq<Entry>, nextID: nat, total: nat, sensitiveCount: int, persisted: nat,
                     needsRewrite: bool, file: Bytes, queued: seq<Write>)

  /** A log that has found this file. */
  function NewLog(file: Bytes): Log {
    Log([], 1, 0, 0, 0, false, file, [])
  }

  /** What the file holds once the queued writes are done. */
  function Settled(l: Log): Bytes {
    Drain(l.file, l.queued)
  }

  function ApplyRetention(l: Log): Log {
    if |l.entries| <= APP_POLICY.maxEntries && l.sensitiveCount <= APP_POLICY.sensitiveLimit then l
    else if Removals(APP_POLICY, l.entries) == {} then l
    else
      var kept := Retained(APP_POLICY, l.entries);
      l.(entries := kept, sensitiveCount := l.sensitiveCount - (Sensitive(l.entries) - Sensitive(kept)),
         needsRewrite := true, persisted := 0)
  }

  /** Noise is dropped unless verbose logging is on or the caller insists. */
  predicate Dropped(level: Level, verbose: bool, force: bool) {
    (level.Trace? || level.Debug?) && !verbose && !force
  }

  function Grown(l: Log, level: Level, category: string, message: string): Log {
    l.(entries := l.entries + [Entry(l.nextID, level, category, message)], nextID := l.nextID + 1, total := l.total + 1,
       sensitiveCount := l.sensitiveCount + (if IsSensitive(category) then 1 else 0))
  }

  function Record(l: Log, level: Level, category: string, message: string, verbose: bool, force: bool): Log {
    if Dropped(level, verbose, force) then l else ApplyRetention(Grown(l, level, category, message))
  }

  predicate Rewrites(l: Log) {
    l.needsRewrite || l.persisted > |l.entries|
  }

  /** A save takes effect on the cursor at once and on the file in the queue's order. */
  function Persist(encode: Encoder, l: Log): Log {
    if Rewrites(l)
    then l.(queued := l.queued + [Replace(EncodeEntries(encode, l.entries))], needsRewrite := false, persisted := |l.entries|)
    else if l.entries[l.persisted..] == [] then l
    else l.(queued := l.queued + [Append(EncodeEntries(encode, l.entries[l.persisted..]))], persisted := |l.entries|)
  }

  /** Waits for the queue, but only behind work of its own. */
  function Flush(encode: Encoder, l: Log): Log {
    var r := Persist(encode, l);
    if !Rewrites(l) && l.entries[l.persisted..] == [] then r else r.(file := Settled(r), queued := [])
  }

  function WriteNext(l: Log): Log {
    if l.queued == [] then l else l.(file := l.queued[0].On(l.file), queued := l.queued[1..])
  }

  /** The file is removed at once, whatever is still queued. */
  function Clear(l: Log, verbose: bool): Log {
    Record(l.(entries := [], sensitiveCount := 0, persisted := 0, needsRewrite := false, file := []),
           Info, "lifecycle", "Diagnostics log cleared", verbose, false)
  }

  datatype Event =
    | Recorded(level: Level, category: string, message: string, verbose: bool, force: bool)
    | SaveDue
    | Flushed
    | WriteDone
    | Cleared(verbose: bool)

  function Step(encode: Encoder, l: Log, e: Event): Log {
    match e
    case Recorded(level, category, message, verbose, force) => Record(l, level, category, message, verbose, force)
    case SaveDue => Persist(encode, l)
    case Flushed => Flush(encode, l)
    case WriteDone => WriteNext(l)
    case Cleared(verbose) => Clear(l, verbose)
  }

  function Run(encode: Encoder, start: Log, events: seq<Event>): Log {
    if events == [] then start
    else Step(encode, Run(encode, start, events[..|events| - 1]), events[|events| - 1])
  }

  // ----- The caps and the count -----

  predicate WithinCaps(entries: seq<Entry>) {
    |entries| <= APP_POLICY.maxEntries && Sensitive(entries) <= APP_POLICY.sensitiveLimit
  }

  predicate Counted(l: Log) {
    WithinCaps(l.entries) && l.sensitiveCount == Sensitive(l.entries)
  }

  lemma NothingRemoved(entries: seq<Entry>)
    requires Removals(APP_POLICY, entries) == {}
    ensures Retained(APP_POLICY, entries) == entries
  {
    RemovalsLeaveRetained(APP_POLICY, entries);
    hide *;
    KeepAll(entries, {}, 0);
  }

  lemma RetentionKeepsCount(l: Log)
    requires l.sensitiveCount == Sensitive(l.entries)
    ensures var r := ApplyRetention(l); r.entries == Retained(APP_POLICY, l.entries) && Counted(r)
  {
    RetentionKeepsTheNewest(APP_POLICY, l.entries);
    hide OfClass, Retained, Removals;
    if WithinCaps(l.entries) {
      RetentionWithinCaps(APP_POLICY, l.entries);
    } else if Removals(APP_POLICY, l.entries) == {} {
      hide Sensitive;
      NothingRemoved(l.entries);
    }
  }

  /** A trim asks for a rewrite, and nothing else touches the file. */
  lemma RetentionAndFile(l: Log)
    ensures var r := ApplyRetention(l); r == l || (r.needsRewrite && r.file == l.file && r.queued == l.queued)
  {
    hide Retained, Removals, Sensitive;
  }

  lemma GrownCount(l: Log, level: Level, category: string, message: string)
    requires l.sensitiveCount == Sensitive(l.entries)
    ensures var g := Grown(l, level, category, message); g.sensitiveCount == Sensitive(g.entries)
  {
    var e := Entry(l.nextID, level, category, message);
    OfClassConcat(true, l.entries, [e]);
    SingleClass(e);
    hide OfClass;
  }

  lemma SingleClass(e: Entry)
    ensures |OfClass(true, [e])| == if IsSensitive(e.category) then 1 else 0
  {
    assert OfClass(true, [e][1..]) == [];
  }

  lemma RecordKeepsCount(l: Log, level: Level, category: string, message: string, verbose: bool, force: bool)
    requires Counted(l)
    ensures Counted(Record(l, level, category, message, verbose, force))
  {
    GrownCount(l, level, category, message);
    hide ApplyRetention, Sensitive;
    RetentionKeepsCount(Grown(l, level, category, message));
  }

  lemma StepKeepsCount(encode: Encoder, l: Log, e: Event)
    requires Counted(l)
    ensures Counted(Step(encode, l, e))
  {
    hide Record, EncodeEntries, Drain;
    match e {
      case Recorded(level, category, message, verbose, force) => RecordKeepsCount(l, level, category, message, verbose, force);
      case Cleared(verbose) =>
        var emptied := l.(entries := [], sensitiveCount := 0, persisted := 0, needsRewrite := false, file := []);
        assert Counted(emptied);
        RecordKeepsCount(emptied, Info, "lifecycle", "Diagnostics log cleared", verbose, false);
      case _ =>
    }
  }

  lemma {:induction false} RunKeepsCount(encode: Encoder, start: Log, events: seq<Event>)
    requires Counted(start)
    ensures Counted(Run(encode, start, events))
  {
    if events != [] {
      RunKeepsCount(encode, start, events[..|events| - 1]);
      hide Counted, Step;
      StepKeepsCount(encode, Run(encode, start, events[..|events| - 1]), events[|events| - 1]);
    }
  }

  // ----- Which entries the log holds -----

  /** An entry at level Info or above, or let through by the user or by the caller. */
  predicate Accepts(e: Event) {
    e.Recorded? && (e.level.Info? || e.level.Warn? || e.level.Error? || e.verbose || e.force)
  }

  /** How many entries these events record; clearing records one that says so. */
  function Accepted(events: seq<Event>): nat {
    if events == [] then 0
    else Accepted(events[..|events| - 1]) + (if Accepts(events[|events| - 1]) || events[|events| - 1].Cleared? then 1 else 0)
  }

  /** What they leave of a log: what was recorded since it was last cleared, under the
      numbers from the first on, as far as the policy retains it. */
  function Held(start: Log, events: seq<Event>): seq<Entry> {
    if events == [] then start.entries
    else
      var before, e := events[..|events| - 1], events[|events| - 1];
      var number := start.nextID + Accepted(before);
      if Accepts(e) then Retained(APP_POLICY, Held(start, before) + [Entry(number, e.level, e.category, e.message)])
      else if e.Cleared? then [Entry(number, Info, "lifecycle", "Diagnostics log cleared")]
      else Held(start, before)
  }

  lemma RecordAdds(l: Log, level: Level, category: string, message: string, verbose: bool, force: bool)
    requires Counted(l)
    ensures var r := Record(l, level, category, message, verbose, force);
            if Accepts(Recorded(level, category, message, verbose, force))
            then && r.entries == Retained(APP_POLICY, l.entries + [Entry(l.nextID, level, category, message)])
                 && r.nextID == l.nextID + 1 && r.total == l.total + 1
            else r == l
  {
    GrownCount(l, level, category, message);
    var grown := Grown(l, level, category, message);
    RetentionKeepsCount(grown);
    assert ApplyRetention(grown).nextID == grown.nextID && ApplyRetention(grown).total == grown.total by {
      hide Retained, Removals, Sensitive;
    }
    hide Retained, ApplyRetention, Sensitive, Counted;
  }

  lemma SavingKeepsEntries(encode: Encoder, l: Log)
    ensures forall r | r in {Persist(encode, l), Flush(encode, l), WriteNext(l)} ::
              r.entries == l.entries && r.nextID == l.nextID && r.total == l.total
  {
    hide EncodeEntries, Settled;
  }

  lemma ClearingLeavesOne(l: Log, verbose: bool)
    ensures var r := Clear(l, verbose);
            && r.entries == [Entry(l.nextID, Info, "lifecycle", "Diagnostics log cleared")]
            && r.nextID == l.nextID + 1 && r.total == l.total + 1
  {
    var one := Entry(l.nextID, Info, "lifecycle", "Diagnostics log cleared");
    var empty := l.(entries := [], sensitiveCount := 0, persisted := 0, needsRewrite := false, file := []);
    assert Counted(empty);
    RecordAdds(empty, Info, "lifecycle", "Diagnostics log cleared", verbose, false);
    assert [] + [one] == [one];
    SingleClass(one);
    RetentionWithinCaps(APP_POLICY, [one]);
    hide Retained, Record, OfClass;
  }

  /** Over every run, wherever a log within its caps starts: it holds exactly those. */
  lemma {:induction false} EntriesAreExactly(encode: Encoder, start: Log, events: seq<Event>)
    requires Counted(start)
    ensures var r := Run(encode, start, events);
            && r.entries == Held(start, events)
            && r.nextID == start.nextID + Accepted(events) && r.total == start.total + Accepted(events)
  {
    if events != [] {
      var before, e := events[..|events| - 1], events[|events| - 1];
      EntriesAreExactly(encode, start, before);
      RunKeepsCount(encode, start, before);
      var l := Run(encode, start, before);
      assert Run(encode, start, events) == Step(encode, l, e);
      SavingKeepsEntries(encode, l);
      hide Counted, Retained, Record, Clear, Persist, Flush, WriteNext, Run;
      match e {
        case Recorded(level, category, message, verbose, force) => RecordAdds(l, level, category, message, verbose, force);
        case Cleared(verbose) => ClearingLeavesOne(l, verbose);
        case _ =>
      }
    }
  }

  // ----- The queue is worked off -----

  /** The queued writes take effect one by one, in order, until the file is settled. */
  lemma {:induction false} WritesAreWorkedOff(encode: Encoder, l: Log, n: nat)
    requires n <= |l.queued|
    ensures var r := Run(encode, l, seq(n, _ => WriteDone));
            && r.file == Drain(l.file, l.queued[..n]) && r.queued == l.queued[n..]
            && (n == |l.queued| ==> r.file == Settled(l) && r.queued == [])
  {
    if n == 0 {
      assert l.queued[..0] == [] && l.queued[0..] == l.queued;
    } else {
      var all := seq(n, _ => WriteDone);
      assert all[..n - 1] == seq(n - 1, _ => WriteDone) && all[n - 1] == WriteDone;
      WritesAreWorkedOff(encode, l, n - 1);
      DrainAll(l.file, l.queued[..n - 1], l.queued[n - 1]);
      assert l.queued[..n - 1] + [l.queued[n - 1]] == l.queued[..n];
      assert Run(encode, l, all) == WriteNext(Run(encode, l, all[..n - 1]));
      hide Run, Drain;
    }
    assert l.queued[..|l.queued|] == l.queued;
  }

  // ----- The file -----

  /** The cursor says how much of the entries the file will hold, unless it is to be rewritten. */
  predicate FileAgrees(encode: Encoder, l: Log) {
    l.needsRewrite || (l.persisted <= |l.entries| && Settled(l) == EncodeEntries(encode, l.entries[..l.persisted]))
  }

  predicate Inv(encode: Encoder, l: Log) {
    Counted(l) && FileAgrees(encode, l)
  }

  lemma {:induction false} EncodeConcat(encode: Encoder, a: seq<Entry>, b: seq<Entry>)
    ensures EncodeEntries(encode, a + b) == EncodeEntries(encode, a) + EncodeEntries(encode, b)
  {
    if a == [] {
      assert a + b == b;
    } else {
      var head := match encode(a[0]) case None => [] case Some(line) => line + [NEWLINE];
      assert (a + b)[1..] == a[1..] + b;
      assert EncodeEntries(encode, a + b) == head + EncodeEntries(encode, a[1..] + b);
      assert EncodeEntries(encode, a) == head + EncodeEntries(encode, a[1..]);
      hide *;
      EncodeConcat(encode, a[1..], b);
      Regroup(head, EncodeEntries(encode, a[1..]), EncodeEntries(encode, b));
    }
  }

  /** What a save leaves in the file. */
  lemma PersistSettles(encode: Encoder, l: Log)
    ensures var r := Persist(encode, l);
            && r.entries == l.entries && r.persisted == |l.entries| == |r.entries| && !r.needsRewrite
            && Settled(r) == if Rewrites(l) then EncodeEntries(encode, l.entries)
                             else Settled(l) + EncodeEntries(encode, l.entries[l.persisted..])
  {
    if Rewrites(l) {
      DrainAll(l.file, l.queued, Replace(EncodeEntries(encode, l.entries)));
    } else if l.entries[l.persisted..] != [] {
      DrainAll(l.file, l.queued, Append(EncodeEntries(encode, l.entries[l.persisted..])));
    } else {
      assert |l.entries| == l.persisted;
    }
    hide Drain, EncodeEntries;
    assert EncodeEntries(encode, []) == [] by {
      EncodeNothing(encode);
    }
  }

  lemma EncodeNothing(encode: Encoder)
    ensures EncodeEntries(encode, []) == []
  {
  }

  /** A flush leaves what a save leaves, and a write done in the queue is no news. */
  lemma FlushSettles(encode: Encoder, l: Log)
    ensures var p, r := Persist(encode, l), Flush(encode, l); r == p.(file := r.file, queued := r.queued) && Settled(r) == Settled(p)
    ensures WriteNext(l) == l.(file := WriteNext(l).file, queued := WriteNext(l).queued) && Settled(WriteNext(l)) == Settled(l)
  {
    hide EncodeEntries;
  }

  /** After every save the file will hold the whole log, however it is written. */
  lemma AppendRefinesRewrite(encode: Encoder, l: Log)
    requires FileAgrees(encode, l)
    ensures var r := Persist(encode, l); FileAgrees(encode, r) && Settled(r) == EncodeEntries(encode, l.entries)
  {
    PersistSettles(encode, l);
    hide Persist, Drain, Settled;
    assert l.entries[..|l.entries|] == l.entries;
    if !Rewrites(l) {
      var before, tail := l.entries[..l.persisted], l.entries[l.persisted..];
      assert l.entries == before + tail;
      EncodeConcat(encode, before, tail);
    }
  }

  lemma RecordKeepsFile(encode: Encoder, l: Log, level: Level, category: string, message: string, verbose: bool, force: bool)
    requires FileAgrees(encode, l)
    ensures FileAgrees(encode, Record(l, level, category, message, verbose, force))
  {
    var grown := Grown(l, level, category, message);
    if !l.needsRewrite {
      assert grown.entries[..l.persisted] == l.entries[..l.persisted];
    }
    RetentionAndFile(grown);
    hide ApplyRetention, EncodeEntries, Drain;
  }

  /** A cleared log starts on what the queue makes of no file at all. */
  lemma ClearSettles(encode: Encoder, l: Log, verbose: bool)
    ensures var r := Clear(l, verbose);
            && r == NewLog([]).(nextID := l.nextID + 1, total := l.total + 1, queued := l.queued,
                                entries := [Entry(l.nextID, Info, "lifecycle", "Diagnostics log cleared")])
            && (FileAgrees(encode, r) <==> Drain([], l.queued) == [])
  {
    EncodeNothing(encode);
    assert [] + [Entry(l.nextID, Info, "lifecycle", "Diagnostics log cleared")]
           == [Entry(l.nextID, Info, "lifecycle", "Diagnostics log cleared")];
    var r := Clear(l, verbose);
    assert r.entries[..0] == [];
    hide EncodeEntries, Drain;
  }

  lemma StepKeepsFile(encode: Encoder, l: Log, e: Event)
    requires FileAgrees(encode, l) && (e.Cleared? ==> Drain([], l.queued) == [])
    ensures FileAgrees(encode, Step(encode, l, e))
  {
    hide Record, Persist, Flush, WriteNext, Clear, EncodeEntries, Drain, Settled;
    match e {
      case Recorded(level, category, message, verbose, force) => RecordKeepsFile(encode, l, level, category, message, verbose, force);
      case SaveDue => AppendRefinesRewrite(encode, l);
      case Flushed =>
        AppendRefinesRewrite(encode, l);
        FlushSettles(encode, l);
      case WriteDone => FlushSettles(encode, l);
      case Cleared(verbose) => ClearSettles(encode, l, verbose);
    }
  }

  /** Whenever the log is cleared nothing that is still queued leaves bytes behind. */
  predicate ClearsSettled(encode: Encoder, start: Log, events: seq<Event>) {
    events != [] ==>
      && ClearsSettled(encode, start, events[..|events| - 1])
      && (events[|events| - 1].Cleared? ==> Drain([], Run(encode, start, events[..|events| - 1]).queued) == [])
  }

  lemma {:induction false} RunKeepsFile(encode: Encoder, start: Log, events: seq<Event>)
    requires FileAgrees(encode, start) && ClearsSettled(encode, start, events)
    ensures FileAgrees(encode, Run(encode, start, events))
  {
    if events != [] {
      RunKeepsFile(encode, start, events[..|events| - 1]);
      hide FileAgrees, Step;
      StepKeepsFile(encode, Run(encode, start, events[..|events| - 1]), events[|events| - 1]);
    }
  }

  /** Over every run the log stays within both caps and the cached count is exact;
      and as long as the log is only cleared behind a settled queue, a save leaves
      the full encoding of what is retained. */
  lemma LogStaysBoundedAndSaved(encode: Encoder, events: seq<Event>)
    ensures var l := Run(encode, NewLog([]), events);
            && |l.entries| <= APP_POLICY.maxEntries && Sensitive(l.entries) <= APP_POLICY.sensitiveLimit
            && l.sensitiveCount == Sensitive(l.entries)
            && (ClearsSettled(encode, NewLog([]), events) ==>
                  Settled(Persist(encode, l)) == EncodeEntries(encode, l.entries))
  {
    RunKeepsCount(encode, NewLog([]), events);
    if ClearsSettled(encode, NewLog([]), events) {
      assert FileAgrees(encode, NewLog([]));
      RunKeepsFile(encode, NewLog([]), events);
      AppendRefinesRewrite(encode, Run(encode, NewLog([]), events));
    }
    hide Run, Persist, OfClass, EncodeEntries, Settled, ClearsSettled;
  }

  /** A flush has written everything when it returns exactly when it found something
      to write or nothing was queued before it. */
  lemma FlushWaitsExactlyWhen(encode: Encoder, l: Log)
    requires Inv(encode, l)
    ensures var r := Flush(encode, l);
            && (r.queued == [] <==> l.queued == [] || l.needsRewrite || l.persisted != |l.entries|)
            && (r.queued == [] ==> r.file == EncodeEntries(encode, l.entries))
  {
    AppendRefinesRewrite(encode, l);
    FlushSettles(encode, l);
    hide EncodeEntries, Sensitive;
  }

  // ----- A file that was not right to begin with -----

  predicate Saves(e: Event) {
    e.SaveDue? || e.Flushed?
  }

  /** Some save among the events has written the whole log. */
  predicate Rewritten(encode: Encoder, start: Log, events: seq<Event>) {
    events != [] &&
      var before := events[..|events| - 1];
      Rewritten(encode, start, before) || (Saves(events[|events| - 1]) && Rewrites(Run(encode, start, before)))
  }

  predicate Uncleared(events: seq<Event>) {
    forall e <- events :: !e.Cleared?
  }

  lemma {:induction false} RewritingHeals(encode: Encoder, start: Log, events: seq<Event>)
    requires Uncleared(events) && Rewritten(encode, start, events)
    ensures FileAgrees(encode, Run(encode, start, events))
  {
    var before, e := events[..|events| - 1], events[|events| - 1];
    var l := Run(encode, start, before);
    assert Run(encode, start, events) == Step(encode, l, e);
    if Rewritten(encode, start, before) {
      RewritingHeals(encode, start, before);
      hide FileAgrees, Step, Run;
      StepKeepsFile(encode, l, e);
    } else {
      PersistSettles(encode, l);
      FlushSettles(encode, l);
      assert l.entries[..|l.entries|] == l.entries;
      hide Persist, Flush, Settled, EncodeEntries, Run;
    }
  }

  /** Before any rewrite the file is what was there, and the entries behind the cursor
      as it was then. */
  predicate Extends(encode: Encoder, l: Log, file: Bytes, cursor: nat) {
    || l.needsRewrite
    || (cursor == l.persisted > |l.entries| && Settled(l) == file)
    || (cursor <= l.persisted <= |l.entries| && Settled(l) == file + EncodeEntries(encode, l.entries[cursor..l.persisted]))
  }

  lemma RecordExtends(encode: Encoder, l: Log, level: Level, category: string, message: string, verbose: bool, force: bool,
                      file: Bytes, cursor: nat)
    requires Extends(encode, l, file, cursor)
    ensures Extends(encode, Record(l, level, category, message, verbose, force), file, cursor)
  {
    var grown := Grown(l, level, category, message);
    RetentionAndFile(grown);
    EncodeNothing(encode);
    assert file + [] == file;
    hide ApplyRetention, EncodeEntries, Drain;
    if cursor <= l.persisted <= |l.entries| {
      assert grown.entries[cursor..l.persisted] == l.entries[cursor..l.persisted];
    } else if cursor == |grown.entries| {
      assert grown.entries[cursor..cursor] == [];
    }
  }

  lemma SaveExtends(encode: Encoder, l: Log, file: Bytes, cursor: nat)
    requires Extends(encode, l, file, cursor) && !Rewrites(l)
    ensures Settled(Persist(encode, l)) == file + EncodeEntries(encode, l.entries[cursor..])
    ensures Extends(encode, Persist(encode, l), file, cursor)
  {
    PersistSettles(encode, l);
    hide Persist, Settled;
    var older, tail := l.entries[cursor..l.persisted], l.entries[l.persisted..];
    assert Settled(l) == file + EncodeEntries(encode, older);
    EncodeInTwo(encode, l.entries, cursor, l.persisted);
    hide EncodeEntries;
    Regroup(file, EncodeEntries(encode, older), EncodeEntries(encode, tail));
    assert l.entries[cursor..|l.entries|] == l.entries[cursor..];
  }

  lemma EncodeInTwo(encode: Encoder, entries: seq<Entry>, from: nat, cut: nat)
    requires from <= cut <= |entries|
    ensures EncodeEntries(encode, entries[from..]) == EncodeEntries(encode, entries[from..cut]) + EncodeEntries(encode, entries[cut..])
  {
    assert entries[from..] == entries[from..cut] + entries[cut..];
    EncodeConcat(encode, entries[from..cut], entries[cut..]);
  }

  lemma StepExtends(encode: Encoder, l: Log, e: Event, file: Bytes, cursor: nat)
    requires Extends(encode, l, file, cursor) && !e.Cleared? && !(Saves(e) && Rewrites(l))
    ensures Extends(encode, Step(encode, l, e), file, cursor)
  {
    hide Record, Persist, Flush, WriteNext, Clear, EncodeEntries, Drain, Settled;
    match e {
      case Recorded(level, category, message, verbose, force) =>
        RecordExtends(encode, l, level, category, message, verbose, force, file, cursor);
      case SaveDue => SaveExtends(encode, l, file, cursor);
      case Flushed =>
        SaveExtends(encode, l, file, cursor);
        FlushSettles(encode, l);
      case WriteDone => FlushSettles(encode, l);
    }
  }

  lemma {:induction false} RunExtends(encode: Encoder, start: Log, events: seq<Event>)
    requires !start.needsRewrite && Uncleared(events) && !Rewritten(encode, start, events)
    ensures Extends(encode, Run(encode, start, events), Settled(start), start.persisted)
  {
    if events == [] {
      EncodeNothing(encode);
      assert Settled(start) + [] == Settled(start);
      hide EncodeEntries, Settled;
      assert start.persisted <= |start.entries| ==> start.entries[start.persisted..start.persisted] == [];
    } else {
      var before := events[..|events| - 1];
      RunExtends(encode, start, before);
      hide Extends, Step;
      StepExtends(encode, Run(encode, start, before), events[|events| - 1], Settled(start), start.persisted);
    }
  }

  lemma SameSuffix(a: Bytes, b: Bytes, c: Bytes)
    ensures a + c == b + c <==> a == b
  {
    if a + c == b + c {
      assert a == (a + c)[..|a|] && b == (b + c)[..|a|];
    }
  }

  /** Wherever a log starts, and over every run that does not clear it, a save leaves
      the full encoding exactly when some save has had to rewrite the file, this one
      included, or the file was right for the part before the cursor. */
  lemma SavedExactlyWhen(encode: Encoder, start: Log, events: seq<Event>)
    requires !start.needsRewrite && Uncleared(events)
    ensures var l := Run(encode, start, events);
            Settled(Persist(encode, l)) == EncodeEntries(encode, l.entries) <==>
            || Rewritten(encode, start, events) || Rewrites(l)
            || (start.persisted <= |l.entries| && Settled(start) == EncodeEntries(encode, l.entries[..start.persisted]))
  {
    var l, file, cursor := Run(encode, start, events), Settled(start), start.persisted;
    if Rewritten(encode, start, events) {
      RewritingHeals(encode, start, events);
      AppendRefinesRewrite(encode, l);
    } else if Rewrites(l) {
      PersistSettles(encode, l);
    } else {
      RunExtends(encode, start, events);
      SaveExtends(encode, l, file, cursor);
      assert l.entries == l.entries[..cursor] + l.entries[cursor..];
      EncodeConcat(encode, l.entries[..cursor], l.entries[cursor..]);
      SameSuffix(file, EncodeEntries(encode, l.entries[..cursor]), EncodeEntries(encode, l.entries[cursor..]));
    }
  }

  /** After clearing, the log is saved right exactly when a trim has forced a rewrite
      or the queue held nothing that would bring a file back. */
  lemma ClearedLogIsSavedExactlyWhen(encode: Encoder, l: Log, verbose: bool, events: seq<Event>)
    requires Uncleared(events)
    ensures var start := Clear(l, verbose);
            var r := Run(encode, start, events);
            Settled(Persist(encode, r)) == EncodeEntries(encode, r.entries) <==>
            Rewritten(encode, start, events) || Rewrites(r) || Drain([], l.queued) == []
  {
    ClearSettles(encode, l, verbose);
    var start := Clear(l, verbose);
    hide Clear;
    SavedExactlyWhen(encode, start, events);
    EncodeNothing(encode);
    assert Run(encode, start, events).entries[..0] == [];
  }

  // ----- Loading -----

  /** The lines that decode; a line that does not is skipped. */
  function Decoded(lines: seq<Option<Entry>>): seq<Entry> {
    if lines == [] then []
    else (if lines[0].Some? then [lines[0].value] else []) + Decoded(lines[1..])
  }

  /** Loading counts a decoded line and keeps it in one step, so it never asks for
      a rewrite; count and cursor are those of the file, not of what is kept of it.
      A file that is missing or no text is not looked at. */
  function Load(l: Log, lines: Option<seq<Option<Entry>>>): Log {
    if lines.None? then l
    else
      var loaded := Decoded(lines.value);
      l.(entries := Retained(APP_POLICY, loaded), sensitiveCount := Sensitive(loaded), persisted := |loaded|,
         needsRewrite := false, nextID := (if loaded == [] then 0 else loaded[|loaded| - 1].id) + 1, total := |loaded|)
  }

  lemma {:induction false} RetentionShortens(entries: seq<Entry>)
    requires !WithinCaps(entries)
    ensures |Retained(APP_POLICY, entries)| < |entries|
  {
    DropSensitiveClasses(entries, SensitiveOverflow(APP_POLICY, entries));
    hide OfClass, DropSensitive;
  }

  function InFile(lines: Option<seq<Option<Entry>>>): seq<Entry> {
    if lines.None? then [] else Decoded(lines.value)
  }

  /** A file is loaded soundly exactly when its entries are within both caps and it
      holds their lines and nothing else. */
  lemma LoadIsSoundExactlyWhen(encode: Encoder, file: Bytes, lines: Option<seq<Option<Entry>>>)
    ensures Inv(encode, Load(NewLog(file), lines)) <==>
            WithinCaps(InFile(lines)) && file == EncodeEntries(encode, InFile(lines))
  {
    var loaded, l := InFile(lines), Load(NewLog(file), lines);
    assert Settled(l) == file;
    if WithinCaps(loaded) {
      RetentionWithinCaps(APP_POLICY, loaded);
      assert loaded[..|loaded|] == loaded;
      if lines.None? {
        assert l.entries == loaded;
      }
    } else {
      RetentionShortens(loaded);
    }
    hide OfClass, Retained, EncodeEntries, Decoded, Drain;
  }

  /** Over every run after loading: a save leaves the full encoding exactly when some
      save has had to rewrite the file or the file agreed with what the cursor skips. */
  lemma LoadedLogIsSavedExactlyWhen(encode: Encoder, file: Bytes, lines: Option<seq<Option<Entry>>>, events: seq<Event>)
    requires Uncleared(events)
    ensures var start := Load(NewLog(file), lines);
            var l, skipped := Run(encode, start, events), |InFile(lines)|;
            Settled(Persist(encode, l)) == EncodeEntries(encode, l.entries) <==>
            || Rewritten(encode, start, events) || Rewrites(l)
            || (skipped <= |l.entries| && file == EncodeEntries(encode, l.entries[..skipped]))
  {
    var start := Load(NewLog(file), lines);
    assert Settled(start) == file && start.persisted == |InFile(lines)|;
    hide Load;
    SavedExactlyWhen(encode, start, events);
  }

  // ----- Four short runs -----

  const ONE_LINE: Encoder := (e: Entry) => Some([65])
  const RECORD := Recorded(Info, "ui", "", false, false)

  lemma RunThen(encode: Encoder, start: Log, events: seq<Event>, e: Event)
    ensures Run(encode, start, events + [e]) == Step(encode, Run(encode, start, events), e)
  {
    var all := events + [e];
    assert all[..|all| - 1] == events && all[|all| - 1] == e;
    hide Step;
  }

  lemma OneEntry(l: Log)
    requires |l.entries| <= 1 && l.sensitiveCount == 0
    ensures Step(ONE_LINE, l, RECORD) == Grown(l, Info, "ui", "")
  {
  }

  lemma OneLineEach(e: Entry)
    ensures EncodeEntries(ONE_LINE, [e]) == [65, 10]
  {
    assert [e][1..] == [];
  }

  lemma SaveOne(l: Log)
    requires !Rewrites(l) && |l.entries| == l.persisted + 1
    ensures Step(ONE_LINE, l, SaveDue) == l.(queued := l.queued + [Append([65, 10])], persisted := |l.entries|)
  {
    assert l.entries[l.persisted..] == [l.entries[l.persisted]];
    OneLineEach(l.entries[l.persisted]);
    hide EncodeEntries;
  }

  const FIRST := Entry(1, Info, "ui", "")
  const SAVED_ONCE := Log([FIRST], 2, 1, 0, 1, false, [], [Append([65, 10])])

  lemma SavedOnce()
    ensures Run(ONE_LINE, NewLog([]), [RECORD, SaveDue]) == SAVED_ONCE
  {
    assert [] + [RECORD] == [RECORD] && [RECORD] + [SaveDue] == [RECORD, SaveDue];
    RunThen(ONE_LINE, NewLog([]), [], RECORD);
    OneEntry(NewLog([]));
    assert [] + [FIRST] == [FIRST];
    RunThen(ONE_LINE, NewLog([]), [RECORD], SaveDue);
    hide Step, Run;
    SaveOne(Log([FIRST], 2, 1, 0, 0, false, [], []));
    assert [] + [Append([65, 10])] == [Append([65, 10])];
  }

  /** With one entry saved and its write still queued, a flush returns at once and
      the file is still empty. */
  lemma FlushCanReturnEarly()
    ensures var l := Run(ONE_LINE, NewLog([]), [RECORD, SaveDue, Flushed]);
            |l.entries| == 1 && |l.queued| == 1 && l.file == []
  {
    SavedOnce();
    assert [RECORD, SaveDue] + [Flushed] == [RECORD, SaveDue, Flushed];
    RunThen(ONE_LINE, NewLog([]), [RECORD, SaveDue], Flushed);
    assert SAVED_ONCE.entries[1..] == [];
    assert Flush(ONE_LINE, SAVED_ONCE) == SAVED_ONCE;
    hide Run;
  }

  /** Cleared while the first save is still queued, the file comes back with a line
      of an entry that is gone. */
  lemma ClearedEntryComesBack()
    ensures var l := Run(ONE_LINE, NewLog([]), [RECORD, SaveDue, Cleared(false), SaveDue]);
            |l.entries| == 1 && EncodeEntries(ONE_LINE, l.entries) == [65, 10] && Settled(l) == [65, 10, 65, 10]
  {
    SavedOnce();
    assert [RECORD, SaveDue] + [Cleared(false)] == [RECORD, SaveDue, Cleared(false)];
    assert [RECORD, SaveDue, Cleared(false)] + [SaveDue] == [RECORD, SaveDue, Cleared(false), SaveDue];
    RunThen(ONE_LINE, NewLog([]), [RECORD, SaveDue], Cleared(false));
    RunThen(ONE_LINE, NewLog([]), [RECORD, SaveDue, Cleared(false)], SaveDue);
    ClearSettles(ONE_LINE, SAVED_ONCE, false);
    hide Run, Clear;
    var cleared := Clear(SAVED_ONCE, false);
    SaveOne(cleared);
    OneLineEach(cleared.entries[0]);
    hide EncodeEntries, Persist;
    DrainAll([], cleared.queued, Append([65, 10]));
    assert cleared.queued == [Append([65, 10])];
    assert Drain([], [Append([65, 10])]) == [65, 10];
  }

  const TORN: seq<Option<Entry>> := [Some(FIRST), None]

  lemma TornLoads()
    ensures InFile(Some(TORN)) == [FIRST] && WithinCaps([FIRST])
    ensures Load(NewLog([65, 10, 66]), Some(TORN)) == Log([FIRST], 2, 1, 0, 1, false, [65, 10, 66], [])
  {
    assert TORN[1..] == [None] && TORN[1..][1..] == [];
    assert Decoded(TORN[1..]) == [] + Decoded([]) == [];
    assert Decoded(TORN) == [FIRST];
    SingleClass(FIRST);
    RetentionWithinCaps(APP_POLICY, [FIRST]);
    hide OfClass, Retained;
  }

  /** Behind a torn line the next save appends, and the file is not what is retained. */
  lemma TornLineStays()
    ensures var start := Load(NewLog([65, 10, 66]), Some(TORN));
            var l := Run(ONE_LINE, start, [RECORD, SaveDue]);
            && WithinCaps(InFile(Some(TORN))) && !Inv(ONE_LINE, start)
            && |l.entries| == 2 && Settled(l) == [65, 10, 66, 65, 10] && EncodeEntries(ONE_LINE, l.entries) == [65, 10, 65, 10]
  {
    TornLoads();
    OneLineEach(FIRST);
    LoadIsSoundExactlyWhen(ONE_LINE, [65, 10, 66], Some(TORN));
    var start := Load(NewLog([65, 10, 66]), Some(TORN));
    var second := Entry(2, Info, "ui", "");
    var grown := Log([FIRST, second], 3, 2, 0, 1, false, [65, 10, 66], []);
    assert [FIRST] + [second] == [FIRST, second];
    hide Load, Inv, InFile, WithinCaps;
    assert Grown(start, Info, "ui", "") == grown;
    OneEntry(start);
    assert [] + [RECORD] == [RECORD] && [RECORD] + [SaveDue] == [RECORD, SaveDue];
    RunThen(ONE_LINE, start, [], RECORD);
    RunThen(ONE_LINE, start, [RECORD], SaveDue);
    assert Run(ONE_LINE, start, []) == start;
    hide Run, Step, Grown;
    SaveOne(grown);
    assert [] + [Append([65, 10])] == [Append([65, 10])];
    OneLineEach(second);
    EncodeConcat(ONE_LINE, [FIRST], [second]);
    hide EncodeEntries;
    assert Drain([65, 10, 66], [Append([65, 10])]) == [65, 10, 66, 65, 10];
    assert [65, 10] + [65, 10] == [65, 10, 65, 10];
  }

  /** A file of one entry too many. */
  lemma FullFileIsNotLoadedSoundly(encode: Encoder)
    ensures var lines := Some(seq(8001, (i: nat) => Some(Entry(i, Info, "ui", ""))));
            !Inv(encode, Load(NewLog(EncodeEntries(encode, InFile(lines))), lines))
  {
    var lines := seq(8001, (i: nat) => Some(Entry(i, Info, "ui", "")));
    AllDecoded(lines);
    LoadIsSoundExactlyWhen(encode, EncodeEntries(encode, InFile(Some(lines))), Some(lines));
  }

  lemma {:induction false} AllDecoded(lines: seq<Option<Entry>>)
    requires forall line <- lines :: line.Some?
    ensures |Decoded(lines)| == |lines|
  {
    if lines != [] {
      AllDecoded(lines[1..]);
    }
  }

  // ----- As the phone keeps it -----

  class DiagnosticsLog {
    const encode: Encoder
    var entries: seq<Entry>
    var nextID: nat
    var totalRecorded: nat
    var sensitiveEntryCount: int
    var persistedEntryCount: nat
    var needsFullRewrite: bool
    var file: Bytes
    var saveQueue: seq<Write>

    function State(): Log
      reads this
    {
      Log(entries, nextID, totalRecorded, sensitiveEntryCount, persistedEntryCount, needsFullRewrite, file, saveQueue)
    }

    /** The file may be there already, with these lines if it is text. */
    constructor (encode: Encoder, file: Bytes, lines: Option<seq<Option<Entry>>>)
      ensures State() == Load(NewLog(file), lines) && this.encode == encode
    {
      this.encode := encode;
      this.file := file;
      entries, nextID, totalRecorded, sensitiveEntryCount, persistedEntryCount := [], 1, 0, 0, 0;
      needsFullRewrite, saveQueue := false, [];
      new;
      LoadFile(lines);
    }

    method DecodeLines(lines: seq<Option<Entry>>) returns (loaded: seq<Entry>, decodedLineCount: nat)
      ensures loaded == Decoded(lines) && decodedLineCount == |loaded|
    {
      loaded, decodedLineCount := [], 0;
      assert lines[0..] == lines;
      for i := 0 to |lines|
        invariant loaded + Decoded(lines[i..]) == Decoded(lines) && decodedLineCount == |loaded|
      {
        assert lines[i..][1..] == lines[i + 1..];
        var later := Decoded(lines[i + 1..]);
        match lines[i]
        case None =>
          assert [] + later == later;
        case Some(entry) =>
          Regroup(loaded, [entry], later);
          decodedLineCount := decodedLineCount + 1;
          loaded := loaded + [entry];
      }
    }

    method Retain(list: seq<Entry>) returns (kept: seq<Entry>)
      ensures kept == Retained(APP_POLICY, list)
    {
      RemovalsLeaveRetained(APP_POLICY, list);
      hide Keep, Removals, Retained, OfClass;
      var removals := RemovalIndexes(APP_POLICY, list);
      kept := Removing(removals, list);
    }

    method LoadFile(lines: Option<seq<Option<Entry>>>)
      modifies this
      ensures State() == Load(old(State()), lines)
    {
      if lines.None? {
        return;
      }
      hide Decoded;
      var loaded, decodedLineCount := DecodeLines(lines.value);
      hide Sensitive, Retained;
      entries := Retain(loaded);
      sensitiveEntryCount := Sensitive(loaded);
      persistedEntryCount := |loaded|;
      needsFullRewrite := decodedLineCount != |loaded|;
      nextID := (if loaded == [] then 0 else loaded[|loaded| - 1].id) + 1;
      totalRecorded := |loaded|;
    }

    method ApplyRetentionPolicy()
      modifies this
      ensures State() == ApplyRetention(old(State()))
    {
      if |entries| <= APP_POLICY.maxEntries && sensitiveEntryCount <= APP_POLICY.sensitiveLimit {
        return;
      }
      RemovalsLeaveRetained(APP_POLICY, entries);
      hide Keep, Removals, Retained, OfClass;
      var removals := RemovalIndexes(APP_POLICY, entries);
      if removals == {} {
        return;
      }
      var kept := Removing(removals, entries);
      sensitiveEntryCount := sensitiveEntryCount - (Sensitive(entries) - Sensitive(kept));
      entries := kept;
      needsFullRewrite := true;
      persistedEntryCount := 0;
    }

    method RecordEntry(level: Level, category: string, message: string, verbose: bool, force: bool)
      modifies this
      ensures State() == Record(old(State()), level, category, message, verbose, force)
    {
      hide ApplyRetention;
      if (level.Trace? || level.Debug?) && !verbose && !force {
        return;
      }
      entries := entries + [Entry(nextID, level, category, message)];
      nextID := nextID + 1;
      totalRecorded := totalRecorded + 1;
      if IsSensitive(category) {
        sensitiveEntryCount := sensitiveEntryCount + 1;
      }
      ApplyRetentionPolicy();
    }

    method Encode(list: seq<Entry>) returns (data: Bytes)
      ensures data == EncodeEntries(encode, list)
    {
      data := [];
      assert list[0..] == list;
      for i := 0 to |list|
        invariant data + EncodeEntries(encode, list[i..]) == EncodeEntries(encode, list)
      {
        assert list[i..][1..] == list[i + 1..];
        var later := EncodeEntries(encode, list[i + 1..]);
        match encode(list[i])
        case None =>
          assert [] + later == later;
        case Some(line) =>
          Regroup(data, line + [NEWLINE], later);
          data := data + (line + [NEWLINE]);
      }
    }

    method Save(synchronously: bool)
      modifies this
      ensures State() == if synchronously then Flush(encode, old(State())) else Persist(encode, old(State()))
    {
      hide EncodeEntries;
      if needsFullRewrite || persistedEntryCount > |entries| {
        var data := Encode(entries);
        saveQueue := saveQueue + [Replace(data)];
        needsFullRewrite := false;
      } else {
        var newEntries := entries[persistedEntryCount..];
        if newEntries == [] {
          return;
        }
        var data := Encode(newEntries);
        saveQueue := saveQueue + [Append(data)];
      }
      persistedEntryCount := |entries|;
      if synchronously {
        DrainQueue();
      }
    }

    method PerformWrite()
      modifies this`file, this`saveQueue
      ensures State() == WriteNext(old(State()))
    {
      if saveQueue != [] {
        file := saveQueue[0].On(file);
        saveQueue := saveQueue[1..];
      }
    }

    method DrainQueue()
      modifies this`file, this`saveQueue
      ensures file == Drain(old(file), old(saveQueue)) && saveQueue == []
    {
      while saveQueue != []
        invariant Drain(file, saveQueue) == Drain(old(file), old(saveQueue))
        decreases |saveQueue|
      {
        PerformWrite();
      }
    }

    method ClearLog(verbose: bool)
      modifies this
      ensures State() == Clear(old(State()), verbose)
    {
      entries, sensitiveEntryCount, persistedEntryCount, needsFullRewrite := [], 0, 0, false;
      file := [];
      hide Record;
      RecordEntry(Info, "lifecycle", "Diagnostics log cleared", verbose, false);
    }
  }
}
