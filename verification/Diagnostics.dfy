/** What the phone's diagnostics log retains: a bounded list of entries with a
    separate budget for captured input. */
module Diagnostics {
  import opened Sequences

  /** Two caps, each with the target that a trim goes down to. */
  datatype Policy = Policy(maxEntries: int, entryTarget: int, sensitiveLimit: int, sensitiveTarget: int) {
    /** An inconsistent policy removes nothing. */
    predicate Consistent() {
      0 <= entryTarget <= maxEntries && 0 <= sensitiveTarget <= sensitiveLimit
    }
  }

  const APP_POLICY := Policy(8000, 7000, 2000, 1500)

  datatype Level = Trace | Debug | Info | Warn | Error

  datatype Entry = Entry(id: nat, level: Level, category: string, message: string)

  predicate IsSensitive(category: string) {
    category == "input" || category == "keystroke"
  }

  /** The entries that are sensitive, or those that are not. */
  function OfClass(sensitive: bool, entries: seq<Entry>): (r: seq<Entry>)
    ensures |r| <= |entries|
  {
    if entries == [] then []
    else (if IsSensitive(entries[0].category) == sensitive then [entries[0]] else []) + OfClass(sensitive, entries[1..])
  }

  function Sensitive(entries: seq<Entry>): nat {
    |OfClass(true, entries)|
  }

  // ----- Retention, in one shot -----

  /** Without the `n` oldest sensitive entries. */
  function DropSensitive(entries: seq<Entry>, n: nat): (r: seq<Entry>)
    ensures |r| <= |entries|
  {
    if entries == [] || n == 0 then entries
    else if IsSensitive(entries[0].category) then DropSensitive(entries[1..], n - 1)
    else [entries[0]] + DropSensitive(entries[1..], n)
  }

  function SensitiveOverflow(p: Policy, entries: seq<Entry>): nat {
    if p.Consistent() && Sensitive(entries) > p.sensitiveLimit then Sensitive(entries) - p.sensitiveTarget else 0
  }

  function AfterSensitiveTrim(p: Policy, entries: seq<Entry>): seq<Entry> {
    DropSensitive(entries, SensitiveOverflow(p, entries))
  }

  function EntryOverflow(p: Policy, left: nat): nat {
    if p.Consistent() && left > p.maxEntries then left - p.entryTarget else 0
  }

  /** What the policy keeps: first the sensitive budget is enforced, then the total,
      each time down to a target below its limit, the oldest first. */
  function Retained(p: Policy, entries: seq<Entry>): seq<Entry> {
    var left := AfterSensitiveTrim(p, entries);
    left[EntryOverflow(p, |left|)..]
  }

  // ----- What retention keeps -----

  lemma {:induction false} OfClassConcat(sensitive: bool, a: seq<Entry>, b: seq<Entry>)
    ensures OfClass(sensitive, a + b) == OfClass(sensitive, a) + OfClass(sensitive, b)
  {
    if a == [] {
      assert a + b == b;
      assert OfClass(sensitive, a) == [];
      hide *;
    } else {
      var head := if IsSensitive(a[0].category) == sensitive then [a[0]] else [];
      assert (a + b)[0] == a[0] && (a + b)[1..] == a[1..] + b;
      assert OfClass(sensitive, a + b) == head + OfClass(sensitive, a[1..] + b);
      assert OfClass(sensitive, a) == head + OfClass(sensitive, a[1..]);
      hide *;
      OfClassConcat(sensitive, a[1..], b);
      Regroup(head, OfClass(sensitive, a[1..]), OfClass(sensitive, b));
    }
  }

  lemma {:induction false} DropSensitiveClasses(entries: seq<Entry>, n: nat)
    requires n <= Sensitive(entries)
    ensures var r := DropSensitive(entries, n);
            && |r| == |entries| - n
            && OfClass(true, r) == OfClass(true, entries)[n..]
            && OfClass(false, r) == OfClass(false, entries)
  {
    if n > 0 {
      var head, rest := entries[0], entries[1..];
      if IsSensitive(head.category) {
        assert OfClass(true, entries) == [head] + OfClass(true, rest);
        DropSensitiveClasses(rest, n - 1);
      } else {
        assert OfClass(true, entries) == OfClass(true, rest);
        DropSensitiveClasses(rest, n);
        var r := DropSensitive(rest, n);
        assert ([head] + r)[1..] == r;
      }
    }
  }

  lemma SuffixOfClass(sensitive: bool, entries: seq<Entry>, k: nat)
    requires k <= |entries|
    ensures IsSuffix(OfClass(sensitive, entries[k..]), OfClass(sensitive, entries))
  {
    assert entries == entries[..k] + entries[k..];
    OfClassConcat(sensitive, entries[..k], entries[k..]);
  }

  /** Both caps hold; within each class only the oldest go; and an entry that is not
      sensitive goes only if the total is over its cap after the sensitive trim. */
  lemma RetentionKeepsTheNewest(p: Policy, entries: seq<Entry>)
    requires p.Consistent()
    ensures var r := Retained(p, entries);
            && |r| <= p.maxEntries && Sensitive(r) <= p.sensitiveLimit
            && IsSuffix(OfClass(true, r), OfClass(true, entries))
            && IsSuffix(OfClass(false, r), OfClass(false, entries))
            && (OfClass(false, r) != OfClass(false, entries) ==> |AfterSensitiveTrim(p, entries)| > p.maxEntries)
  {
    var left := AfterSensitiveTrim(p, entries);
    DropSensitiveClasses(entries, SensitiveOverflow(p, entries));
    var k := EntryOverflow(p, |left|);
    SuffixOfClass(true, left, k);
    SuffixOfClass(false, left, k);
    assert left[0..] == left;
    hide OfClass, DropSensitive;
  }

  /** Within the caps nothing goes. */
  lemma RetentionWithinCaps(p: Policy, entries: seq<Entry>)
    requires p.Consistent() ==> |entries| <= p.maxEntries && Sensitive(entries) <= p.sensitiveLimit
    ensures Retained(p, entries) == entries
  {
    assert entries[0..] == entries;
  }

  // ----- Removal by indexes -----

  /** The entries at positions from `offset` on whose index is not to be removed. */
  function Keep(entries: seq<Entry>, removals: set<nat>, offset: nat): seq<Entry> {
    if entries == [] then []
    else (if offset in removals then [] else [entries[0]]) + Keep(entries[1..], removals, offset + 1)
  }

  function FirstSensitive(entries: seq<Entry>, n: nat, offset: nat): (r: set<nat>)
    ensures forall i <- r :: offset <= i < offset + |entries|
  {
    if entries == [] || n == 0 then {}
    else if IsSensitive(entries[0].category) then {offset} + FirstSensitive(entries[1..], n - 1, offset + 1)
    else FirstSensitive(entries[1..], n, offset + 1)
  }

  function FirstLeft(count: nat, removals: set<nat>, n: nat, offset: nat): (r: set<nat>)
    ensures forall i <- r :: offset <= i
    decreases count
  {
    if count == 0 || n == 0 then {}
    else if offset in removals then FirstLeft(count - 1, removals, n, offset + 1)
    else {offset} + FirstLeft(count - 1, removals, n - 1, offset + 1)
  }

  lemma {:induction false} KeepReads(entries: seq<Entry>, a: set<nat>, b: set<nat>, offset: nat)
    requires forall i | i >= offset :: i in a <==> i in b
    ensures Keep(entries, a, offset) == Keep(entries, b, offset)
    decreases |entries|
  {
    if entries != [] {
      KeepReads(entries[1..], a, b, offset + 1);
    }
  }

  lemma {:induction false} KeepAll(entries: seq<Entry>, removals: set<nat>, offset: nat)
    requires forall i <- removals :: i < offset
    ensures Keep(entries, removals, offset) == entries
    decreases |entries|
  {
    if entries != [] {
      KeepAll(entries[1..], removals, offset + 1);
    }
  }

  lemma {:induction false} KeepWithoutSensitive(entries: seq<Entry>, n: nat, offset: nat)
    ensures Keep(entries, FirstSensitive(entries, n, offset), offset) == DropSensitive(entries, n)
    decreases |entries|
  {
    if entries == [] || n == 0 {
      KeepAll(entries, {}, offset);
    } else {
      var rest := entries[1..];
      if IsSensitive(entries[0].category) {
        var removed := FirstSensitive(rest, n - 1, offset + 1);
        KeepReads(rest, {offset} + removed, removed, offset + 1);
        KeepWithoutSensitive(rest, n - 1, offset + 1);
        assert [] + DropSensitive(rest, n - 1) == DropSensitive(rest, n - 1);
      } else {
        KeepWithoutSensitive(rest, n, offset + 1);
      }
    }
  }

  lemma {:induction false} KeepWithoutFirstLeft(entries: seq<Entry>, removals: set<nat>, n: nat, offset: nat)
    requires n <= |Keep(entries, removals, offset)|
    ensures Keep(entries, removals + FirstLeft(|entries|, removals, n, offset), offset)
            == Keep(entries, removals, offset)[n..]
    decreases |entries|
  {
    if entries == [] {
    } else if n == 0 {
      assert removals + {} == removals;
      assert Keep(entries, removals, offset)[0..] == Keep(entries, removals, offset);
    } else {
      var rest := entries[1..];
      var before := Keep(rest, removals, offset + 1);
      if offset in removals {
        assert [] + before == before;
        KeepWithoutFirstLeft(rest, removals, n, offset + 1);
        var more := FirstLeft(|rest|, removals, n, offset + 1);
        assert [] + Keep(rest, removals + more, offset + 1) == Keep(rest, removals + more, offset + 1);
      } else {
        assert ([entries[0]] + before)[n..] == before[n - 1..];
        KeepWithoutFirstLeft(rest, removals, n - 1, offset + 1);
        var more := FirstLeft(|rest|, removals, n - 1, offset + 1);
        KeepReads(rest, removals + ({offset} + more), removals + more, offset + 1);
        assert [] + Keep(rest, removals + more, offset + 1) == Keep(rest, removals + more, offset + 1);
      }
    }
  }

  lemma {:induction false} FirstSensitiveCount(entries: seq<Entry>, n: nat, offset: nat)
    requires n <= Sensitive(entries)
    ensures |FirstSensitive(entries, n, offset)| == n
    decreases |entries|
  {
    if entries != [] && n > 0 {
      var rest := entries[1..];
      if IsSensitive(entries[0].category) {
        assert OfClass(true, entries) == [entries[0]] + OfClass(true, rest);
        FirstSensitiveCount(rest, n - 1, offset + 1);
        var removed := FirstSensitive(rest, n - 1, offset + 1);
        assert offset !in removed;
      } else {
        assert OfClass(true, entries) == OfClass(true, rest);
        FirstSensitiveCount(rest, n, offset + 1);
      }
    }
  }

  /** The indexes the policy asks to remove. */
  function Removals(p: Policy, entries: seq<Entry>): set<nat> {
    var oldInput := FirstSensitive(entries, SensitiveOverflow(p, entries), 0);
    if |oldInput| > |entries| then {}
    else oldInput + FirstLeft(|entries|, oldInput, EntryOverflow(p, |entries| - |oldInput|), 0)
  }

  /** Removing by index is retention. */
  lemma RemovalsLeaveRetained(p: Policy, entries: seq<Entry>)
    ensures Keep(entries, Removals(p, entries), 0) == Retained(p, entries)
  {
    var n := SensitiveOverflow(p, entries);
    var oldInput := FirstSensitive(entries, n, 0);
    FirstSensitiveCount(entries, n, 0);
    DropSensitiveClasses(entries, n);
    KeepWithoutSensitive(entries, n, 0);
    var left := AfterSensitiveTrim(p, entries);
    assert n <= |entries| && |left| == |entries| - n;
    assert left == DropSensitive(entries, n);
    hide OfClass, DropSensitive, FirstSensitive, FirstLeft, Keep;
    KeepWithoutFirstLeft(entries, oldInput, EntryOverflow(p, |left|), 0);
  }

  function SensitiveIndexes(entries: seq<Entry>, offset: nat): (r: seq<nat>)
    ensures |r| == Sensitive(entries)
  {
    if entries == [] then []
    else (if IsSensitive(entries[0].category) then [offset] else []) + SensitiveIndexes(entries[1..], offset + 1)
  }

  lemma {:induction false} PrefixOfSensitiveIndexes(entries: seq<Entry>, n: nat, offset: nat)
    requires n <= Sensitive(entries)
    ensures (set i | i in SensitiveIndexes(entries, offset)[..n]) == FirstSensitive(entries, n, offset)
    decreases |entries|
  {
    if entries != [] && n > 0 {
      var rest := entries[1..];
      var later := SensitiveIndexes(rest, offset + 1);
      if IsSensitive(entries[0].category) {
        assert OfClass(true, entries) == [entries[0]] + OfClass(true, rest);
        PrefixOfSensitiveIndexes(rest, n - 1, offset + 1);
        assert ([offset] + later)[..n] == [offset] + later[..n - 1];
      } else {
        assert OfClass(true, entries) == OfClass(true, rest);
        PrefixOfSensitiveIndexes(rest, n, offset + 1);
        assert [] + later == later;
      }
    }
  }

  lemma {:induction false} FirstLeftReads(count: nat, a: set<nat>, b: set<nat>, n: nat, offset: nat)
    requires forall i | i >= offset :: i in a <==> i in b
    ensures FirstLeft(count, a, n, offset) == FirstLeft(count, b, n, offset)
    decreases count
  {
    if count > 0 && n > 0 {
      FirstLeftReads(count - 1, a, b, if offset in a then n else n - 1, offset + 1);
    }
  }

  method FindSensitive(entries: seq<Entry>) returns (indexes: seq<nat>)
    ensures indexes == SensitiveIndexes(entries, 0)
  {
    indexes := [];
    assert entries[0..] == entries;
    for i := 0 to |entries|
      invariant indexes + SensitiveIndexes(entries[i..], i) == SensitiveIndexes(entries, 0)
    {
      assert entries[i..][1..] == entries[i + 1..];
      var later := SensitiveIndexes(entries[i + 1..], i + 1);
      if IsSensitive(entries[i].category) {
        Regroup(indexes, [i], later);
        indexes := indexes + [i];
      } else {
        assert [] + later == later;
      }
    }
  }

  /** Marks the first `n` indexes that are not marked yet. */
  method MarkOldest(count: nat, marked: set<nat>, n: nat) returns (removals: set<nat>)
    ensures removals == marked + FirstLeft(count, marked, n, 0)
  {
    removals := marked;
    var remaining := n;
    var index := 0;
    while index < count && remaining > 0
      invariant 0 <= index <= count
      invariant forall i: nat | i >= index :: i in removals <==> i in marked
      invariant removals + FirstLeft(count - index, marked, remaining, index) == marked + FirstLeft(count, marked, n, 0)
    {
      if index !in removals {
        removals := removals + {index};
        remaining := remaining - 1;
      }
      index := index + 1;
    }
    assert removals + {} == removals;
  }

  method MarkOldSensitive(p: Policy, entries: seq<Entry>) returns (removals: set<nat>)
    requires p.Consistent()
    ensures removals == FirstSensitive(entries, SensitiveOverflow(p, entries), 0)
    ensures |removals| == SensitiveOverflow(p, entries) <= |entries|
  {
    removals := {};
    FirstSensitiveCount(entries, SensitiveOverflow(p, entries), 0);
    var sensitiveIndexes := FindSensitive(entries);
    if |sensitiveIndexes| > p.sensitiveLimit {
      var trimCount := |sensitiveIndexes| - p.sensitiveTarget;
      PrefixOfSensitiveIndexes(entries, trimCount, 0);
      removals := set i | i in sensitiveIndexes[..trimCount];
    } else {
      NoSensitive(entries);
    }
    hide OfClass, SensitiveIndexes, FirstSensitive;
  }

  lemma NoSensitive(entries: seq<Entry>)
    ensures FirstSensitive(entries, 0, 0) == {}
  {
  }

  method RemovalIndexes(p: Policy, entries: seq<Entry>) returns (removals: set<nat>)
    ensures removals == Removals(p, entries)
  {
    if !p.Consistent() {
      NoSensitive(entries);
      NothingLeft(|entries|, {});
      return {};
    }
    removals := MarkOldSensitive(p, entries);
    hide OfClass, FirstSensitive, FirstLeft, SensitiveOverflow;
    var retained := |entries| - |removals|;
    if retained > p.maxEntries {
      removals := MarkOldest(|entries|, removals, retained - p.entryTarget);
    } else {
      NothingLeft(|entries|, removals);
    }
  }

  lemma NothingLeft(count: nat, removals: set<nat>)
    ensures removals + FirstLeft(count, removals, 0, 0) == removals
  {
  }

  method Removing(removals: set<nat>, entries: seq<Entry>) returns (kept: seq<Entry>)
    ensures kept == Keep(entries, removals, 0)
  {
    if removals == {} {
      KeepAll(entries, {}, 0);
      return entries;
    }
    kept := [];
    assert entries[0..] == entries;
    for index := 0 to |entries|
      invariant kept + Keep(entries[index..], removals, index) == Keep(entries, removals, 0)
    {
      assert entries[index..][1..] == entries[index + 1..];
      var later := Keep(entries[index + 1..], removals, index + 1);
      if index !in removals {
        Regroup(kept, [entries[index]], later);
        kept := kept + [entries[index]];
      } else {
        assert [] + later == later;
      }
    }
  }

  // ----- Which entries go, and where a trim stops -----

  /** How many sensitive entries are over the budget: none while the limit holds, and
      otherwise all down to the target. */
  function Excess(p: Policy, sensitive: nat): nat {
    if sensitive > p.sensitiveLimit && 0 <= p.sensitiveTarget <= p.sensitiveLimit then sensitive - p.sensitiveTarget else 0
  }

  /** Of the `sensitive` entries at the positions before one, those that go first. */
  function GoneBefore(sensitive: nat, excess: nat): nat {
    if sensitive < excess then sensitive else excess
  }

  /** The entry at position `i` is one of the oldest sensitive entries over the budget;
      or, with those gone, the log is still over its cap and the entry is one of the
      oldest left above the target. */
  predicate Goes(p: Policy, entries: seq<Entry>, i: nat)
    requires i < |entries|
  {
    var excess, before := Excess(p, Sensitive(entries)), Sensitive(entries[..i]);
    || (IsSensitive(entries[i].category) && before < excess)
    || (|entries| - excess > p.maxEntries && i - GoneBefore(before, excess) < |entries| - excess - p.entryTarget)
  }

  lemma {:induction false} FirstSensitiveAt(entries: seq<Entry>, n: nat, offset: nat, i: nat)
    requires i < |entries|
    ensures offset + i in FirstSensitive(entries, n, offset) <==>
              IsSensitive(entries[i].category) && Sensitive(entries[..i]) < n
    decreases |entries|
  {
    if n > 0 && i > 0 {
      var rest := entries[1..];
      assert entries[..i][1..] == rest[..i - 1];
      FirstSensitiveAt(rest, if IsSensitive(entries[0].category) then n - 1 else n, offset + 1, i - 1);
    }
  }

  /** The indexes from `offset` to `i` that are not marked. */
  function Unmarked(removals: set<nat>, offset: nat, i: nat): nat
    requires offset <= i
    decreases i
  {
    if i == offset then 0 else Unmarked(removals, offset, i - 1) + (if i - 1 in removals then 0 else 1)
  }

  lemma {:induction false} UnmarkedFirst(removals: set<nat>, offset: nat, i: nat)
    requires offset < i
    ensures Unmarked(removals, offset, i) == Unmarked(removals, offset + 1, i) + (if offset in removals then 0 else 1)
    decreases i
  {
    if i > offset + 1 {
      UnmarkedFirst(removals, offset, i - 1);
    }
  }

  lemma {:induction false} FirstLeftAt(count: nat, removals: set<nat>, n: nat, offset: nat, i: nat)
    requires offset <= i < offset + count
    ensures i in FirstLeft(count, removals, n, offset) <==> i !in removals && Unmarked(removals, offset, i) < n
    decreases count
  {
    if n > 0 && i > offset {
      UnmarkedFirst(removals, offset, i);
      FirstLeftAt(count - 1, removals, if offset in removals then n else n - 1, offset + 1, i);
    }
  }

  lemma {:induction false} UnmarkedSensitive(entries: seq<Entry>, n: nat, i: nat)
    requires i <= |entries|
    ensures Unmarked(FirstSensitive(entries, n, 0), 0, i) == i - GoneBefore(Sensitive(entries[..i]), n)
  {
    if i > 0 {
      UnmarkedSensitive(entries, n, i - 1);
      FirstSensitiveAt(entries, n, 0, i - 1);
      assert entries[..i] == entries[..i - 1] + [entries[i - 1]];
      OfClassConcat(true, entries[..i - 1], [entries[i - 1]]);
      assert Sensitive([entries[i - 1]]) == if IsSensitive(entries[i - 1].category) then 1 else 0;
      hide OfClass, FirstSensitive;
    }
  }

  /** Exactly those go; an inconsistent policy removes none. */
  lemma RemovedExactlyWhen(p: Policy, entries: seq<Entry>, i: nat)
    requires i < |entries|
    ensures i in Removals(p, entries) <==> p.Consistent() && Goes(p, entries, i)
  {
    var n := SensitiveOverflow(p, entries);
    var oldInput := FirstSensitive(entries, n, 0);
    FirstSensitiveCount(entries, n, 0);
    FirstSensitiveAt(entries, n, 0, i);
    UnmarkedSensitive(entries, n, i);
    FirstLeftAt(|entries|, oldInput, EntryOverflow(p, |entries| - |oldInput|), 0, i);
    hide OfClass, FirstSensitive, FirstLeft, Unmarked;
  }

  /** A trim stops at its target: over the limit the sensitive entries go down to the
      sensitive target, and if more than the cap is left then, the log goes down to
      the entry target, as the newest entries of what was left. */
  lemma TrimsStopAtTheTargets(p: Policy, entries: seq<Entry>)
    ensures var r := Retained(p, entries);
            if !p.Consistent() then r == entries
            else
              var excess := if Sensitive(entries) > p.sensitiveLimit then Sensitive(entries) - p.sensitiveTarget else 0;
              var left := |entries| - excess;
              && |r| == (if left > p.maxEntries then p.entryTarget else left)
              && (left <= p.maxEntries ==> OfClass(false, r) == OfClass(false, entries)
                                            && OfClass(true, r) == OfClass(true, entries)[excess..])
  {
    DropSensitiveClasses(entries, SensitiveOverflow(p, entries));
    var left := AfterSensitiveTrim(p, entries);
    assert left[0..] == left && entries[0..] == entries;
    hide OfClass, DropSensitive;
  }
}
