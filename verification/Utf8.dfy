/** UTF-8 as a repairing decoder sees it: section 4 of RFC 3629 and table 3-7 of
    the Unicode Standard (section 3.9).

    A Swift `String` is represented by its UTF-8 view, so `String(decoding:as:)`
    is the function `Repair` from arbitrary bytes to well-formed bytes. */
module Utf8 {
  import Sequences

  type Byte = b: int | 0 <= b < 256
  type Bytes = seq<Byte>

  const NEWLINE: Byte := 10

  /** U+FFFD, substituted for each maximal subpart of an ill-formed subsequence. */
  const REPLACEMENT: Bytes := [0xEF, 0xBF, 0xBD]

  /** `byte & 0xC0 == 0x80` */
  predicate IsContinuation(b: Byte) {
    0x80 <= b <= 0xBF
  }

  /** Length of the sequences a lead byte starts; 0 when it starts none. */
  function SequenceLength(lead: Byte): nat {
    if 0 <= lead <= 0x7F then 1
    else if 0xC2 <= lead <= 0xDF then 2
    else if 0xE0 <= lead <= 0xEF then 3
    else if 0xF0 <= lead <= 0xF4 then 4
    else 0
  }

  /** Whether `b` may stand at `index` of a sequence started by `lead`. */
  predicate Allowed(lead: Byte, index: nat, b: Byte) {
    && IsContinuation(b)
    && (index == 1 ==>
          && (lead == 0xE0 ==> 0xA0 <= b)
          && (lead == 0xED ==> b <= 0x9F)
          && (lead == 0xF0 ==> 0x90 <= b)
          && (lead == 0xF4 ==> b <= 0x8F))
  }

  /** The bytes of `s` up to the length of its lead are where the lead allows them. */
  predicate Conforms(s: Bytes) {
    && s != []
    && |s| <= SequenceLength(s[0])
    && (|s| > 1 ==> Allowed(s[0], 1, s[1]))
    && (|s| > 2 ==> Allowed(s[0], 2, s[2]))
    && (|s| > 3 ==> Allowed(s[0], 3, s[3]))
  }

  /** One encoded scalar value. */
  predicate WellFormedSequence(s: Bytes) {
    Conforms(s) && |s| == SequenceLength(s[0])
  }

  /** A scalar value whose last bytes have not arrived yet. */
  predicate Partial(s: Bytes) {
    Conforms(s) && |s| < SequenceLength(s[0])
  }

  /** The bytes that complete a partial sequence in one way. */
  function Completion(s: Bytes): (t: Bytes)
    requires Partial(s)
    decreases SequenceLength(s[0]) - |s|
  {
    var next: Byte := if |s| == 1 && s[0] in {0xE0, 0xF0} then 0xA0 else 0x80;
    if |s| + 1 == SequenceLength(s[0]) then [next] else [next] + Completion(s + [next])
  }

  lemma {:induction false} CompletionCompletes(s: Bytes)
    requires Partial(s)
    ensures Completion(s) != [] && WellFormedSequence(s + Completion(s))
    decreases SequenceLength(s[0]) - |s|
  {
    var next: Byte := if |s| == 1 && s[0] in {0xE0, 0xF0} then 0xA0 else 0x80;
    if |s| + 1 < SequenceLength(s[0]) {
      CompletionCompletes(s + [next]);
      assert s + Completion(s) == (s + [next]) + Completion(s + [next]);
    }
  }

  /** `Partial` says exactly what it should: a non-empty proper prefix of a well-formed sequence. */
  lemma PartialIsProperPrefix(s: Bytes)
    ensures Partial(s) <==> s != [] && exists t: Bytes :: t != [] && WellFormedSequence(s + t)
  {
    if Partial(s) {
      CompletionCompletes(s);
    }
    if s != [] {
      forall t: Bytes | t != [] && WellFormedSequence(s + t)
        ensures Partial(s)
      {
        assert forall i {:trigger s[i]} :: 0 <= i < |s| ==> s[i] == (s + t)[i];
      }
    }
  }

  /** How far the scan that began with lead `s[0]` gets, given that it has reached `n`. */
  function Extent(s: Bytes, n: nat): (m: nat)
    requires 1 <= n <= |s|
    ensures n <= m <= |s|
    decreases |s| - n
  {
    if n < SequenceLength(s[0]) && n < |s| && Allowed(s[0], n, s[n]) then Extent(s, n + 1) else n
  }

  /** Each well-formed sequence is kept and each maximal subpart becomes U+FFFD. */
  function Repair(s: Bytes): Bytes {
    if s == [] then []
    else
      var n := Extent(s, 1);
      (if n == SequenceLength(s[0]) then s[..n] else REPLACEMENT) + Repair(s[n..])
  }

  predicate WellFormed(s: Bytes) {
    s == [] ||
    var n := SequenceLength(s[0]);
    1 <= n <= |s| && WellFormedSequence(s[..n]) && WellFormed(s[n..])
  }

  lemma {:induction false} ExtentConforms(s: Bytes, n: nat)
    requires 1 <= n <= |s|
    requires n == 1 || Conforms(s[..n])
    ensures Extent(s, n) == 1 || Conforms(s[..Extent(s, n)])
    ensures var m := Extent(s, n);
            m < |s| && m < SequenceLength(s[0]) ==> !Allowed(s[0], m, s[m])
    decreases |s| - n
  {
    if n < SequenceLength(s[0]) && n < |s| && Allowed(s[0], n, s[n]) {
      assert s[..n + 1] == s[..n] + [s[n]];
      ExtentConforms(s, n + 1);
    }
  }

  /** The scan stops at the end of the maximal subpart: what it took is a single
      byte or the start of a well-formed sequence, and no longer prefix is. */
  lemma ExtentIsMaximal(s: Bytes, k: nat)
    requires s != [] && 1 < k <= |s|
    ensures Conforms(s[..k]) ==> k <= Extent(s, 1)
    ensures 1 < k <= Extent(s, 1) ==> Conforms(s[..k])
  {
    ExtentConforms(s, 1);
    var m := Extent(s, 1);
    if m < k {
      assert s[..k][0] == s[0] && s[..k][m] == s[m];
    } else {
      assert forall i {:trigger s[..k][i]} :: 0 <= i < k ==> s[..k][i] == s[..m][i];
    }
  }

  lemma {:induction false} ExtentIgnoresRest(s: Bytes, m: nat, n: nat)
    requires 1 <= n <= |s| && Extent(s, n) <= m <= |s|
    ensures Extent(s[..m], n) == Extent(s, n)
    decreases |s| - n
  {
    if Extent(s, n) > n {
      ExtentIgnoresRest(s, m, n + 1);
    }
  }

  lemma {:induction false} ExtentOfSequence(s: Bytes, t: Bytes, n: nat)
    requires WellFormedSequence(s) && 1 <= n <= |s|
    ensures Extent(s + t, n) == |s|
    decreases |s| - n
  {
    if n < |s| {
      assert (s + t)[n] == s[n];
      ExtentOfSequence(s, t, n + 1);
    }
  }

  /** A leading well-formed sequence is passed through. */
  lemma RepairOfSequence(s: Bytes, t: Bytes)
    requires WellFormedSequence(s)
    ensures Repair(s + t) == s + Repair(t)
  {
    ExtentOfSequence(s, t, 1);
    assert (s + t)[..|s|] == s && (s + t)[|s|..] == t;
  }

  /** A byte that starts nothing is replaced on its own. */
  lemma RepairOfStray(b: Byte, t: Bytes)
    requires SequenceLength(b) == 0
    ensures Repair([b] + t) == REPLACEMENT + Repair(t)
  {
    assert ([b] + t)[1..] == t;
  }

  lemma {:induction false} WellFormedPrepend(s: Bytes, t: Bytes)
    requires WellFormedSequence(s) && WellFormed(t)
    ensures WellFormed(s + t)
  {
    assert (s + t)[..|s|] == s && (s + t)[|s|..] == t;
  }

  lemma {:induction false} WellFormedConcat(s: Bytes, t: Bytes)
    requires WellFormed(s) && WellFormed(t)
    ensures WellFormed(s + t)
  {
    hide *;
    if s == [] {
      assert s + t == t;
    } else {
      SplitWellFormed(s);
      var n := SequenceLength(s[0]);
      WellFormedConcat(s[n..], t);
      WellFormedPrepend(s[..n], s[n..] + t);
      assert s + t == s[..n] + (s[n..] + t);
    }
  }

  /** Decoding always yields a valid string. */
  lemma {:induction false} RepairIsWellFormed(s: Bytes)
    ensures WellFormed(Repair(s))
  {
    if s != [] {
      var n := Extent(s, 1);
      RepairIsWellFormed(s[n..]);
      if n == SequenceLength(s[0]) {
        ExtentConforms(s, 1);
        assert WellFormedSequence(s[..n]);
        WellFormedPrepend(s[..n], Repair(s[n..]));
      } else {
        WellFormedPrepend(REPLACEMENT, Repair(s[n..]));
      }
    }
  }

  lemma SplitWellFormed(s: Bytes)
    requires WellFormed(s) && s != []
    ensures var n := SequenceLength(s[0]);
            && 1 <= n <= |s| && WellFormedSequence(s[..n]) && WellFormed(s[n..])
            && s == s[..n] + s[n..]
  {
    hide WellFormedSequence, SequenceLength;
  }

  lemma {:induction false} RepairKeepsWellFormed(s: Bytes)
    requires WellFormed(s)
    ensures Repair(s) == s
  {
    if s != [] {
      SplitWellFormed(s);
      hide *;
      var n := SequenceLength(s[0]);
      RepairKeepsWellFormed(s[n..]);
      RepairOfSequence(s[..n], s[n..]);
    }
  }

  /** Decoding keeps valid text, and what it keeps unchanged is valid. */
  lemma RepairFixesExactlyWellFormed(s: Bytes)
    ensures Repair(s) == s <==> WellFormed(s)
  {
    hide *;
    RepairIsWellFormed(s);
    if WellFormed(s) {
      RepairKeepsWellFormed(s);
    }
  }

  /** Where an incomplete but so far valid sequence begins at the end of `s`;
      `|s|` when there is none. */
  function HeldStart(s: Bytes): (h: nat)
    ensures h <= |s| && |s| - h <= 3
    ensures h < |s| ==> Partial(s[h..])
  {
    hide Partial;
    if |s| >= 1 && Partial(s[|s| - 1..]) then |s| - 1
    else if |s| >= 2 && Partial(s[|s| - 2..]) then |s| - 2
    else if |s| >= 3 && Partial(s[|s| - 3..]) then |s| - 3
    else |s|
  }

  lemma PartialShape(s: Bytes)
    requires Partial(s)
    ensures 1 <= |s| <= 3 && !IsContinuation(s[0])
    ensures forall i :: 1 <= i < |s| ==> IsContinuation(s[i])
  {
  }

  /** Inside a partial sequence no other one starts. */
  lemma PartialsDoNotNest(s: Bytes, j: nat, k: nat)
    requires j < k < |s| && Partial(s[j..])
    ensures !Partial(s[k..])
  {
    assert s[j..][k - j] == s[k] == s[k..][0];
  }

  /** There is at most one such suffix. */
  lemma HeldStartIsUnique(s: Bytes, k: nat)
    requires k < |s| && Partial(s[k..])
    ensures HeldStart(s) == k
  {
    PartialShape(s[k..]);
    hide Partial;
    var h := HeldStart(s);
    assert k in {|s| - 1, |s| - 2, |s| - 3};
    if h < k {
      PartialsDoNotNest(s, h, k);
    } else if k < h < |s| {
      PartialsDoNotNest(s, k, h);
    }
  }

  lemma HeldStartOfSuffix(s: Bytes, n: nat)
    requires n <= HeldStart(s)
    ensures n + HeldStart(s[n..]) == HeldStart(s)
  {
    hide Partial, HeldStart;
    var h := HeldStart(s);
    var r := s[n..];
    var k := HeldStart(r);
    assert s[n + k..] == r[k..] && r[h - n..] == s[h..];
    if k < |r| {
      HeldStartIsUnique(s, n + k);
    } else if h < |s| {
      HeldStartIsUnique(r, h - n);
    }
  }

  lemma ConformsPrefix(s: Bytes, k: nat)
    requires Conforms(s) && 0 < k < |s|
    ensures Partial(s[..k])
  {
  }

  lemma {:induction false} ExtentCoversContinuations(s: Bytes, n: nat)
    requires 1 <= n <= |s|
    ensures forall i :: n <= i < Extent(s, n) ==> IsContinuation(s[i])
    decreases |s| - n
  {
    if Extent(s, n) > n {
      ExtentCoversContinuations(s, n + 1);
    }
  }

  lemma ExtentPastEnd(s: Bytes, t: Bytes)
    requires s != [] && Extent(s + t, 1) > |s|
    ensures Partial(s)
  {
    ExtentConforms(s + t, 1);
    hide Extent, Conforms, Partial;
    var u := (s + t)[..Extent(s + t, 1)];
    ConformsPrefix(u, |s|);
    assert u[..|s|] == s;
  }

  /** The first scan of `s + t` never crosses the held suffix of `s`. */
  lemma FirstScanStaysBeforeHeld(s: Bytes, t: Bytes)
    requires HeldStart(s) > 0
    ensures Extent(s + t, 1) <= HeldStart(s)
  {
    hide Partial, Extent, IsContinuation;
    var h := HeldStart(s);
    if h < |s| {
      ExtentCoversContinuations(s + t, 1);
      PartialShape(s[h..]);
      assert s[h..][0] == (s + t)[h];
    } else if Extent(s + t, 1) > |s| {
      ExtentPastEnd(s, t);
      assert s[0..] == s;
      HeldStartIsUnique(s, 0);
    }
  }

  /** One scan of `s + t` is one scan of the bytes before the held suffix. */
  lemma FirstScanOfSplit(s: Bytes, t: Bytes) returns (n: nat, head: Bytes)
    requires HeldStart(s) > 0
    ensures 1 <= n <= HeldStart(s)
    ensures Repair(s + t) == head + Repair(s[n..] + t)
    ensures Repair(s[..HeldStart(s)]) == head + Repair(s[n..HeldStart(s)])
  {
    hide HeldStart, Extent;
    var u, h := s + t, HeldStart(s);
    n := Extent(u, 1);
    FirstScanStaysBeforeHeld(s, t);
    ExtentIgnoresRest(u, h, 1);
    head := if n == SequenceLength(u[0]) then u[..n] else REPLACEMENT;
    assert u[..h] == s[..h];
    assert u[n..] == s[n..] + t;
    assert s[..h][n..] == s[n..h] && s[..h][..n] == u[..n];
  }

  /** Cutting a stream before the held suffix is invisible: whatever comes next,
      the two parts decode to what the whole decodes to. */
  lemma {:induction false} RepairSplit(s: Bytes, t: Bytes)
    ensures Repair(s + t) == Repair(s[..HeldStart(s)]) + Repair(s[HeldStart(s)..] + t)
    decreases |s|
  {
    var h := HeldStart(s);
    hide HeldStart;
    if h == 0 {
      assert s[h..] == s && Repair(s[..h]) == [];
    } else {
      var n, head := FirstScanOfSplit(s, t);
      var r := s[n..];
      assert HeldStart(r) == h - n by {
        HeldStartOfSuffix(s, n);
      }
      hide Repair;
      RepairSplit(r, t);
      assert r[..h - n] == s[n..h] && r[h - n..] == s[h..];
      Sequences.Regroup(head, Repair(s[n..h]), Repair(s[h..] + t));
    }
  }

  /** Continuation bytes at the front, left over from a sequence cut in two. */
  function StrayCount(s: Bytes): (k: nat)
    ensures k <= |s|
  {
    if s != [] && IsContinuation(s[0]) then 1 + StrayCount(s[1..]) else 0
  }

  function Replacements(k: nat): (r: Bytes)
    ensures |r| == 3 * k
  {
    if k == 0 then [] else REPLACEMENT + Replacements(k - 1)
  }

  /** Each stray byte costs one U+FFFD, and the rest follows untouched. */
  lemma {:induction false} RepairOfStrays(s: Bytes)
    requires WellFormed(s[StrayCount(s)..])
    ensures Repair(s) == Replacements(StrayCount(s)) + s[StrayCount(s)..]
  {
    if StrayCount(s) == 0 {
      assert s[0..] == s;
      RepairFixesExactlyWellFormed(s);
    } else {
      assert s[StrayCount(s)..] == s[1..][StrayCount(s[1..])..];
      RepairOfStrays(s[1..]);
      RepairOfStray(s[0], s[1..]);
      assert s == [s[0]] + s[1..];
    }
  }

  /** A suffix of valid text is at most three stray bytes and then valid text;
      three exactly when the cut fell right behind a four-byte lead. */
  lemma {:induction false} SuffixOfWellFormed(s: Bytes, c: nat)
    requires WellFormed(s) && c <= |s|
    ensures var k := StrayCount(s[c..]);
            && k <= 3
            && WellFormed(s[c..][k..])
            && (k == 3 <==> 0 < c && 0xF0 <= s[c - 1] <= 0xF4)
  {
    assert StrayCount([]) == 0 && WellFormed([]);
    hide *;
    if s == [] {
      assert s[c..] == [] && [][0..] == s;
    } else {
      SplitWellFormed(s);
      LeadOfSequence(s[..SequenceLength(s[0])]);
      var n := SequenceLength(s[0]);
      if c > n {
        assert s[c..] == s[n..][c - n..];
        SuffixOfWellFormed(s[n..], c - n);
      } else {
        StraysOfTail(s, c, n);
        assert 0 < c ==> s[c - 1] == s[..n][c - 1];
      }
    }
  }

  lemma LeadOfSequence(s: Bytes)
    requires WellFormedSequence(s)
    ensures |s| <= 4 && (|s| == 4 <==> 0xF0 <= s[0] <= 0xF4)
    ensures forall i :: 1 <= i < |s| ==> IsContinuation(s[i])
  {
  }

  lemma {:induction false} StraysOfTail(s: Bytes, c: nat, n: nat)
    requires WellFormed(s) && s != [] && n == SequenceLength(s[0]) && c <= n
    ensures var k := StrayCount(s[c..]);
            && k == (if c == 0 then 0 else n - c)
            && s[c..][k..] == (if c == 0 then s else s[n..])
    decreases n - c
  {
    if c == 0 {
      assert s[0..] == s;
    } else if c == n {
      assert s[n..] == [] || !IsContinuation(s[n..][0]);
    } else {
      assert s[..n][c] == s[c];
      assert s[c..][1..] == s[c + 1..];
      StraysOfTail(s, c + 1, n);
    }
  }
}
