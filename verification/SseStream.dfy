/** Event streams (section 9.2 of the HTML Living Standard) consumed as they are
    forwarded: however a response is split into writes, the metadata is the fold
    over the lines of the whole.

    What one data line does to the metadata is a parameter here; see
    ResponseMetadata for what it is in the proxy. */
module SseStream {
  import opened Utf8
  import Sequences

  const DATA_PREFIX: Bytes := [0x64, 0x61, 0x74, 0x61, 0x3A]
  const DONE: Bytes := [0x5B, 0x44, 0x4F, 0x4E, 0x45, 0x5D]

  // ----- Lines of a whole stream -----

  function NewlineAt(s: Bytes): (i: nat)
    ensures i <= |s| && NEWLINE !in s[..i] && (i < |s| ==> s[i] == NEWLINE)
  {
    if s == [] || s[0] == NEWLINE then 0 else 1 + NewlineAt(s[1..])
  }

  /** The lines that a newline ends. */
  function Lines(s: Bytes): seq<Bytes>
    decreases |s|
  {
    var i := NewlineAt(s);
    if i == |s| then [] else [s[..i]] + Lines(s[i + 1..])
  }

  /** What follows the last newline. */
  function Rest(s: Bytes): Bytes
    decreases |s|
  {
    var i := NewlineAt(s);
    if i == |s| then s else Rest(s[i + 1..])
  }

  function AllLines(s: Bytes): seq<Bytes> {
    Lines(s) + (if Rest(s) == [] then [] else [Rest(s)])
  }

  function Terminated(lines: seq<Bytes>): Bytes {
    if lines == [] then [] else lines[0] + [NEWLINE] + Terminated(lines[1..])
  }

  /** Lines and rest are the one way to cut a stream at its newlines. */
  lemma {:induction false} LinesMakeTheStream(s: Bytes)
    ensures Terminated(Lines(s)) + Rest(s) == s
    ensures NEWLINE !in Rest(s) && forall line <- Lines(s) :: NEWLINE !in line
    decreases |s|
  {
    var i := NewlineAt(s);
    if i == |s| {
      assert s[..i] == s;
      assert [] + s == s;
    } else {
      var head, tail := s[..i], s[i + 1..];
      assert NEWLINE !in head && s[i] == NEWLINE;
      assert Lines(s) == [head] + Lines(tail) && Rest(s) == Rest(tail);
      TerminatedFirst(head, Lines(tail));
      hide *;
      LinesMakeTheStream(tail);
      Sequences.CutInThree(s, i);
      Sequences.Regroup(head + [NEWLINE], Terminated(Lines(tail)), Rest(tail));
      assert forall line :: line in [head] + Lines(tail) <==> line == head || line in Lines(tail);
    }
  }

  lemma TerminatedFirst(line: Bytes, lines: seq<Bytes>)
    ensures Terminated([line] + lines) == line + [NEWLINE] + Terminated(lines)
  {
    assert ([line] + lines)[1..] == lines;
  }

  lemma {:induction false} NewlineOfPrefix(a: Bytes, b: Bytes)
    ensures NEWLINE in a ==> NewlineAt(a + b) == NewlineAt(a) < |a|
    ensures NEWLINE !in a ==> NewlineAt(a) == |a| && NewlineAt(a + b) == |a| + NewlineAt(b)
  {
    if a == [] {
      assert a + b == b;
    } else {
      assert (a + b)[1..] == a[1..] + b;
      NewlineOfPrefix(a[1..], b);
    }
  }

  /** Cutting the stream anywhere: the second part continues the first one's rest. */
  lemma {:induction false} LinesOfSplit(a: Bytes, b: Bytes)
    ensures Lines(a + b) == Lines(a) + Lines(Rest(a) + b)
    ensures Rest(a + b) == Rest(Rest(a) + b)
    decreases |a|
  {
    NewlineOfPrefix(a, b);
    var i := NewlineAt(a);
    if i == |a| {
      assert NEWLINE !in a by { assert a[..i] == a; }
      assert [] + Lines(a + b) == Lines(a + b);
    } else {
      assert NEWLINE in a by { assert a[i] == NEWLINE; }
      var tail := a[i + 1..];
      assert (a + b)[i + 1..] == tail + b && (a + b)[..i] == a[..i];
      LinesOfSplit(tail, b);
      assert Lines(a + b) == [a[..i]] + Lines(tail + b);
      assert Lines(a) == [a[..i]] + Lines(tail) && Rest(a) == Rest(tail);
      hide Lines, Rest, NewlineAt;
      Sequences.Regroup([a[..i]], Lines(tail), Lines(Rest(tail) + b));
    }
  }

  // ----- The data of a line -----

  predicate IsSpace(b: Byte) {
    b == 0x20 || 0x09 <= b <= 0x0D
  }

  function TrimLeft(s: Bytes): Bytes {
    if s != [] && IsSpace(s[0]) then TrimLeft(s[1..]) else s
  }

  function TrimRight(s: Bytes): Bytes {
    if s != [] && IsSpace(s[|s| - 1]) then TrimRight(s[..|s| - 1]) else s
  }

  function TrimSpace(s: Bytes): Bytes {
    TrimRight(TrimLeft(s))
  }

  /** The empty sequence also stands for no data. */
  function SseData(line: Bytes): Bytes {
    var trimmed := TrimSpace(line);
    if |trimmed| < |DATA_PREFIX| || trimmed[..|DATA_PREFIX|] != DATA_PREFIX then []
    else
      var data := TrimSpace(trimmed[|DATA_PREFIX|..]);
      if data == DONE then [] else data
  }

  lemma {:induction false} TrimSpaceIgnoresEnd(s: Bytes, b: Byte)
    requires IsSpace(b)
    ensures TrimSpace(s + [b]) == TrimSpace(s)
  {
    if s == [] {
      assert [b][1..] == [] && [] + [b] == [b];
      assert TrimLeft([b]) == TrimLeft([]);
    } else if IsSpace(s[0]) {
      assert (s + [b])[1..] == s[1..] + [b];
      TrimSpaceIgnoresEnd(s[1..], b);
    } else {
      assert (s + [b])[..|s|] == s;
    }
  }

  // ----- Which lines bring data -----

  predicate Blank(s: Bytes) {
    forall b <- s :: IsSpace(b)
  }

  /** No space at either end. */
  predicate Solid(s: Bytes) {
    s != [] ==> !IsSpace(s[0]) && !IsSpace(s[|s| - 1])
  }

  lemma {:induction false} TrimLeftPast(left: Bytes, rest: Bytes)
    requires Blank(left) && (rest != [] ==> !IsSpace(rest[0]))
    ensures TrimLeft(left + rest) == rest
  {
    if left == [] {
      assert left + rest == rest;
    } else {
      assert left[0] in left && (left + rest)[1..] == left[1..] + rest;
      TrimLeftPast(left[1..], rest);
    }
  }

  lemma {:induction false} TrimRightPast(rest: Bytes, right: Bytes)
    requires Blank(right) && (rest != [] ==> !IsSpace(rest[|rest| - 1]))
    ensures TrimRight(rest + right) == rest
  {
    if right == [] {
      assert rest + right == rest;
    } else {
      var n := |right| - 1;
      assert right[n] in right && (rest + right)[..|rest| + n] == rest + right[..n];
      TrimRightPast(rest, right[..n]);
    }
  }

  lemma {:induction false} AllBlank(s: Bytes)
    requires Blank(s)
    ensures TrimLeft(s) == [] == TrimSpace(s)
  {
    assert s + [] == s;
    TrimLeftPast(s, []);
  }

  /** Trimming finds what lies between the spaces. */
  lemma TrimSpaceBetween(left: Bytes, s: Bytes, right: Bytes)
    requires Blank(left) && Solid(s) && Blank(right)
    ensures TrimSpace(left + s + right) == s
  {
    if s == [] {
      assert left + s + right == left + right;
      assert forall b <- left + right :: b in left || b in right;
      AllBlank(left + right);
    } else {
      Sequences.Regroup(left, s, right);
      assert s == s + [];
      hide TrimLeft, TrimRight, IsSpace;
      TrimLeftPast(left, s + right);
      TrimRightPast(s, right);
    }
  }

  lemma {:induction false} LeftSpaces(s: Bytes) returns (left: Bytes)
    ensures Blank(left) && s == left + TrimLeft(s) && (TrimLeft(s) != [] ==> !IsSpace(TrimLeft(s)[0]))
  {
    if s != [] && IsSpace(s[0]) {
      var more := LeftSpaces(s[1..]);
      left := [s[0]] + more;
      assert s == [s[0]] + s[1..];
    } else {
      left := [];
    }
  }

  lemma {:induction false} RightSpaces(s: Bytes) returns (right: Bytes)
    ensures Blank(right) && s == TrimRight(s) + right && (TrimRight(s) != [] ==> !IsSpace(TrimRight(s)[|TrimRight(s)| - 1]))
  {
    if s != [] && IsSpace(s[|s| - 1]) {
      var more := RightSpaces(s[..|s| - 1]);
      right := more + [s[|s| - 1]];
      assert s == s[..|s| - 1] + [s[|s| - 1]];
    } else {
      right := [];
    }
  }

  lemma TrimSpaceCuts(s: Bytes) returns (left: Bytes, right: Bytes)
    ensures Blank(left) && Solid(TrimSpace(s)) && Blank(right) && s == left + TrimSpace(s) + right
  {
    left := LeftSpaces(s);
    right := RightSpaces(TrimLeft(s));
    var t, inner := TrimSpace(s), TrimLeft(s);
    assert t != [] ==> t[0] == inner[0];
    hide TrimLeft, TrimRight;
    Sequences.Regroup(left, t, right);
  }

  /** The line is the field name and this value, with spaces allowed around both. */
  ghost predicate Brings(line: Bytes, data: Bytes) {
    exists left, gap, right :: Around(line, left, gap, data, right)
  }

  predicate Around(line: Bytes, left: Bytes, gap: Bytes, data: Bytes, right: Bytes) {
    Blank(left) && Blank(gap) && Blank(right) && line == left + (DATA_PREFIX + gap + data) + right
  }

  /** A line gives data exactly when it is the field name and that value, spaces aside;
      the end marker and a value of spaces alone give none. */
  lemma DataIsTheValue(line: Bytes, data: Bytes)
    requires data != []
    ensures SseData(line) == data <==> Solid(data) && data != DONE && Brings(line, data)
  {
    if SseData(line) == data {
      ValueIsBrought(line);
    }
    if Solid(data) && data != DONE && Brings(line, data) {
      var left, gap, right :| Around(line, left, gap, data, right);
      BroughtIsValue(line, left, gap, data, right);
    }
  }

  lemma ValueIsBrought(line: Bytes)
    requires SseData(line) != []
    ensures var data := SseData(line); Solid(data) && data != DONE && Brings(line, data)
  {
    var trimmed, data := TrimSpace(line), SseData(line);
    var left, end := TrimSpaceCuts(line);
    var gap, none := TrimSpaceCuts(trimmed[|DATA_PREFIX|..]);
    hide TrimSpace, IsSpace;
    assert trimmed == DATA_PREFIX + (gap + data + none);
    var inner := DATA_PREFIX + gap + data;
    assert trimmed == inner + none;
    Sequences.Regroup(left, inner, none);
    Sequences.Regroup(left + inner, none, end);
    assert forall b <- none + end :: b in none || b in end;
    assert Around(line, left, gap, data, none + end);
  }

  lemma BroughtIsValue(line: Bytes, left: Bytes, gap: Bytes, data: Bytes, right: Bytes)
    requires data != [] && Solid(data) && data != DONE && Around(line, left, gap, data, right)
    ensures SseData(line) == data
  {
    var inner := DATA_PREFIX + gap + data;
    assert inner[0] == 0x64 && inner[|inner| - 1] == data[|data| - 1] && !IsSpace(0x64);
    TrimSpaceBetween(left, inner, right);
    TrimSpaceBetween(gap, data, []);
    hide TrimSpace;
    assert inner[..|DATA_PREFIX|] == DATA_PREFIX && inner[|DATA_PREFIX|..] == gap + data == gap + data + [];
  }

  // ----- Streams -----

  function ConsumeLine<M>(merge: (M, Bytes) -> M, metadata: M, line: Bytes): M {
    if SseData(line) == [] then metadata else merge(metadata, SseData(line))
  }

  function Fold<M>(merge: (M, Bytes) -> M, metadata: M, lines: seq<Bytes>): M
    decreases |lines|
  {
    if lines == [] then metadata else Fold(merge, ConsumeLine(merge, metadata, lines[0]), lines[1..])
  }

  lemma {:induction false} FoldConcat<M>(merge: (M, Bytes) -> M, metadata: M, a: seq<Bytes>, b: seq<Bytes>)
    ensures Fold(merge, metadata, a + b) == Fold(merge, Fold(merge, metadata, a), b)
    decreases |a|
  {
    if a == [] {
      assert a + b == b;
    } else {
      assert (a + b)[1..] == a[1..] + b;
      FoldConcat(merge, ConsumeLine(merge, metadata, a[0]), a[1..], b);
    }
  }

  datatype Observer<M> = Observer(pending: Bytes, metadata: M, totalBytes: nat)

  function Write<M>(merge: (M, Bytes) -> M, o: Observer<M>, chunk: Bytes): Observer<M> {
    Observer(Rest(o.pending + chunk), Fold(merge, o.metadata, Lines(o.pending + chunk)), o.totalBytes + |chunk|)
  }

  /** An unterminated last line still counts. */
  function Finish<M>(merge: (M, Bytes) -> M, o: Observer<M>): M {
    if o.pending == [] then o.metadata else ConsumeLine(merge, o.metadata, o.pending)
  }

  function WriteAll<M>(merge: (M, Bytes) -> M, empty: M, chunks: seq<Bytes>): Observer<M> {
    if chunks == [] then Observer([], empty, 0)
    else Write(merge, WriteAll(merge, empty, chunks[..|chunks| - 1]), chunks[|chunks| - 1])
  }

  function Concat(chunks: seq<Bytes>): Bytes {
    if chunks == [] then [] else Concat(chunks[..|chunks| - 1]) + chunks[|chunks| - 1]
  }

  /** At any point of any stream: what is held back is exactly what follows the last
      newline, and the metadata is the fold over the lines that are complete. */
  lemma {:induction false} PendingIsUnfinishedLine<M>(merge: (M, Bytes) -> M, empty: M, chunks: seq<Bytes>)
    ensures var o, whole := WriteAll(merge, empty, chunks), Concat(chunks);
            && o.pending == Rest(whole) && o.totalBytes == |whole|
            && o.metadata == Fold(merge, empty, Lines(whole))
  {
    if chunks != [] {
      var before, chunk := Concat(chunks[..|chunks| - 1]), chunks[|chunks| - 1];
      PendingIsUnfinishedLine(merge, empty, chunks[..|chunks| - 1]);
      LinesOfSplit(before, chunk);
      FoldConcat(merge, empty, Lines(before), Lines(Rest(before) + chunk));
      hide Lines, Rest, Fold;
    }
  }

  /** However the response was split, the result is that of parsing it in one piece:
      the fold over all its lines. */
  lemma SplittingIsInvisible<M>(merge: (M, Bytes) -> M, empty: M, chunks: seq<Bytes>)
    ensures Finish(merge, WriteAll(merge, empty, chunks)) == Fold(merge, empty, AllLines(Concat(chunks)))
    ensures Finish(merge, WriteAll(merge, empty, chunks)) == Finish(merge, WriteAll(merge, empty, [Concat(chunks)]))
  {
    var whole := Concat(chunks);
    PendingIsUnfinishedLine(merge, empty, chunks);
    PendingIsUnfinishedLine(merge, empty, [whole]);
    var one := [whole];
    assert Concat(one) == Concat(one[..|one| - 1]) + whole == [] + whole == whole;
    FoldConcat(merge, empty, Lines(whole), if Rest(whole) == [] then [] else [Rest(whole)]);
    var last := [Rest(whole)];
    assert Fold(merge, empty, last[1..]) == empty;
    hide Lines, Rest, WriteAll, ConsumeLine;
  }

  /** Lines ended by CR LF give what lines ended by LF give. */
  lemma {:induction false} CarriageReturnsAreIgnored<M>(merge: (M, Bytes) -> M, metadata: M, lines: seq<Bytes>)
    ensures Fold(merge, metadata, seq(|lines|, i requires 0 <= i < |lines| => lines[i] + [0x0D]))
            == Fold(merge, metadata, lines)
    decreases |lines|
  {
    var ended := seq(|lines|, i requires 0 <= i < |lines| => lines[i] + [0x0D]);
    if lines != [] {
      TrimSpaceIgnoresEnd(lines[0], 0x0D);
      var rest := lines[1..];
      assert ended[1..] == seq(|rest|, i requires 0 <= i < |rest| => rest[i] + [0x0D]);
      CarriageReturnsAreIgnored(merge, ConsumeLine(merge, metadata, lines[0]), rest);
    }
  }

  // ----- As the proxy does it -----

  class StreamingMetadataObserver<M> {
    const merge: (M, Bytes) -> M
    var pending: Bytes
    var metadata: M
    var totalBytes: nat

    function State(): Observer<M>
      reads this
    {
      Observer(pending, metadata, totalBytes)
    }

    predicate Valid()
      reads this
    {
      NEWLINE !in pending
    }

    constructor (merge: (M, Bytes) -> M, empty: M)
      ensures Valid() && State() == Observer([], empty, 0) && this.merge == merge
    {
      this.merge := merge;
      pending, metadata, totalBytes := [], empty, 0;
    }

    method TakeLine(line: Bytes)
      modifies this`metadata
      ensures metadata == ConsumeLine(merge, old(metadata), line)
    {
      var data := SseData(line);
      if data != [] {
        metadata := merge(metadata, data);
      }
    }

    /** Lines are taken from the chunk itself; only one split across writes is copied. */
    method ConsumeLines(chunk: Bytes)
      requires Valid()
      modifies this`pending, this`metadata
      ensures Valid() && pending == Rest(old(pending) + chunk)
      ensures metadata == Fold(merge, old(metadata), Lines(old(pending) + chunk))
    {
      var left := chunk;
      while NewlineAt(left) < |left|
        invariant Valid()
        invariant Rest(pending + left) == Rest(old(pending) + chunk)
        invariant Fold(merge, metadata, Lines(pending + left)) == Fold(merge, old(metadata), Lines(old(pending) + chunk))
        decreases |left|
      {
        hide Lines, Rest, ConsumeLine;
        TakeFirstLine(left);
        left := left[NewlineAt(left) + 1..];
      }
      NoNewline(left);
      NoLines(pending + left);
      pending := pending + left;
    }

    /** Completes a line with the part of the chunk before its first newline. */
    method TakeFirstLine(left: Bytes)
      requires Valid() && NewlineAt(left) < |left|
      modifies this`pending, this`metadata
      ensures var rest := left[NewlineAt(left) + 1..];
              && Valid() && Rest(pending + rest) == Rest(old(pending) + left)
              && Fold(merge, metadata, Lines(pending + rest)) == Fold(merge, old(metadata), Lines(old(pending) + left))
    {
      LineTaken(merge, metadata, pending, left);
      hide *;
      CompleteLine(left[..NewlineAt(left)]);
    }

    /** What is held back and this part of the chunk are one line. */
    method CompleteLine(part: Bytes)
      modifies this`pending, this`metadata
      ensures pending == [] && metadata == ConsumeLine(merge, old(metadata), old(pending) + part)
    {
      if pending == [] {
        assert pending + part == part;
        TakeLine(part);
      } else {
        pending := pending + part;
        TakeLine(pending);
        pending := [];
      }
    }

    method WriteChunk(chunk: Bytes)
      requires Valid()
      modifies this
      ensures Valid() && State() == Write(merge, old(State()), chunk)
    {
      totalBytes := totalBytes + |chunk|;
      ConsumeLines(chunk);
    }

    method FinishStream() returns (result: M)
      requires Valid()
      modifies this
      ensures Valid() && result == Finish(merge, old(State())) && pending == []
    {
      if pending != [] {
        TakeLine(pending);
        pending := [];
      }
      result := metadata;
    }
  }

  lemma NoNewline(s: Bytes)
    requires NewlineAt(s) == |s|
    ensures NEWLINE !in s
  {
    assert s[..|s|] == s;
  }

  lemma NoLines(s: Bytes)
    requires NEWLINE !in s
    ensures Lines(s) == [] && Rest(s) == s
  {
    NewlineOfPrefix(s, []);
  }

  lemma FoldFirst<M>(merge: (M, Bytes) -> M, metadata: M, line: Bytes, lines: seq<Bytes>)
    ensures Fold(merge, metadata, [line] + lines) == Fold(merge, ConsumeLine(merge, metadata, line), lines)
  {
    assert ([line] + lines)[1..] == lines;
  }

  lemma LineTaken<M>(merge: (M, Bytes) -> M, metadata: M, pending: Bytes, left: Bytes)
    requires NEWLINE !in pending && NewlineAt(left) < |left|
    ensures var line, rest := pending + left[..NewlineAt(left)], left[NewlineAt(left) + 1..];
            && Rest([] + rest) == Rest(pending + left)
            && Fold(merge, ConsumeLine(merge, metadata, line), Lines([] + rest)) == Fold(merge, metadata, Lines(pending + left))
  {
    var line, rest := pending + left[..NewlineAt(left)], left[NewlineAt(left) + 1..];
    assert [] + rest == rest;
    hide *;
    FirstLine(pending, left);
    FoldFirst(merge, metadata, line, Lines(rest));
  }

  lemma FirstLine(pending: Bytes, left: Bytes)
    requires NEWLINE !in pending && NewlineAt(left) < |left|
    ensures var i := NewlineAt(left);
            && Lines(pending + left) == [pending + left[..i]] + Lines(left[i + 1..])
            && Rest(pending + left) == Rest(left[i + 1..])
  {
    hide *;
    NewlineOfPrefix(pending, left);
    LinesUnfold(pending + left);
    Sequences.CutConcat(pending, left, NewlineAt(left));
  }

  lemma LinesUnfold(s: Bytes)
    requires NewlineAt(s) < |s|
    ensures Lines(s) == [s[..NewlineAt(s)]] + Lines(s[NewlineAt(s) + 1..]) && Rest(s) == Rest(s[NewlineAt(s) + 1..])
  {
  }
}
