/** Facts about concatenation and slices that the proofs use one at a time. */
module Sequences {
  predicate IsSuffix<T(==)>(s: seq<T>, whole: seq<T>) {
    |s| <= |whole| && whole[|whole| - |s|..] == s
  }

  function Elements<T(==)>(s: seq<T>): set<T> {
    set x | x in s
  }

  lemma SplitAt<T>(s: seq<T>, i: nat)
    requires i < |s|
    ensures s == s[..i] + ([s[i]] + s[i + 1..])
  {
  }

  lemma Regroup<T>(a: seq<T>, b: seq<T>, c: seq<T>)
    ensures a + (b + c) == (a + b) + c
  {
  }

  lemma CutConcat<T>(a: seq<T>, b: seq<T>, i: nat)
    requires i < |b|
    ensures (a + b)[..|a| + i] == a + b[..i]
    ensures (a + b)[|a| + i + 1..] == b[i + 1..]
  {
  }

  lemma CutInThree<T>(s: seq<T>, i: nat)
    requires i < |s|
    ensures s == (s[..i] + [s[i]]) + s[i + 1..]
  {
  }
}
