/** What the decoder is, said without its scan: well-formed sequences are the encodings
    of scalar values (section 3 of RFC 3629), and a malformed run costs one U+FFFD for
    each maximal subpart (section 3.9 of the Unicode Standard). */
module Utf8Reference {
  import opened Utf8

  predicate IsScalar(c: int) {
    0 <= c <= 0x10FFFF && !(0xD800 <= c <= 0xDFFF)
  }

  /** The last six bits of `c / unit`, in a continuation byte. */
  function Trail(c: nat, unit: nat): Byte
    requires unit > 0
  {
    0x80 + (c / unit) % 64
  }

  function EncodeScalar(c: int): Bytes
    requires IsScalar(c)
  {
    if c < 0x80 then [c]
    else if c < 0x800 then [0xC0 + c / 64, Trail(c, 1)]
    else if c < 0x1_0000 then [0xE0 + c / 4096, Trail(c, 64), Trail(c, 1)]
    else [0xF0 + c / 262_144, Trail(c, 4096), Trail(c, 64), Trail(c, 1)]
  }

  ghost predicate EncodesScalar(s: Bytes) {
    exists c: int :: IsScalar(c) && EncodeScalar(c) == s
  }

  lemma EncodingIsWellFormed(c: int)
    requires IsScalar(c)
    ensures WellFormedSequence(EncodeScalar(c))
  {
  }

  /** The value whose digits to base 64 the bytes are. */
  function DecodeScalar(s: Bytes): (c: int)
    requires WellFormedSequence(s)
  {
    var digits := seq(|s|, i requires 0 <= i < |s| => if i == 0 then s[0] as int else s[i] as int - 0x80);
    if |s| == 1 then digits[0]
    else if |s| == 2 then (digits[0] - 0xC0) * 64 + digits[1]
    else if |s| == 3 then (digits[0] - 0xE0) * 4096 + digits[1] * 64 + digits[2]
    else (digits[0] - 0xF0) * 262_144 + digits[1] * 4096 + digits[2] * 64 + digits[3]
  }

  lemma Digits(c: int, a: int, b: int, d: int)
    requires 0 <= b < 64 && 0 <= d < 64 && c == a * 4096 + b * 64 + d
    ensures c / 64 == a * 64 + b && c / 4096 == a && (c / 64) % 64 == b && c % 64 == d
  {
  }

  lemma DecodingTwo(s: Bytes)
    requires WellFormedSequence(s) && |s| <= 2
    ensures IsScalar(DecodeScalar(s)) && EncodeScalar(DecodeScalar(s)) == s
  {
  }

  lemma DecodingThree(s: Bytes)
    requires WellFormedSequence(s) && |s| == 3
    ensures IsScalar(DecodeScalar(s)) && EncodeScalar(DecodeScalar(s)) == s
  {
    var a, b, d := s[0] as int - 0xE0, s[1] as int - 0x80, s[2] as int - 0x80;
    var c := DecodeScalar(s);
    assert c == a * 4096 + b * 64 + d;
    assert 0x800 <= c < 0x1_0000 && IsScalar(c);
    Digits(c, a, b, d);
    assert Trail(c, 64) == s[1] && Trail(c, 1) == s[2];
    hide DecodeScalar;
    assert s == [s[0], s[1], s[2]];
  }

  lemma DecodingFour(s: Bytes)
    requires WellFormedSequence(s) && |s| == 4
    ensures IsScalar(DecodeScalar(s)) && EncodeScalar(DecodeScalar(s)) == s
  {
    var a, b, d, e := s[0] as int - 0xF0, s[1] as int - 0x80, s[2] as int - 0x80, s[3] as int - 0x80;
    var c := DecodeScalar(s);
    assert c == (a * 64 + b) * 4096 + d * 64 + e;
    assert 0x1_0000 <= c <= 0x10FFFF;
    Digits(c, a * 64 + b, d, e);
    assert c / 262_144 == a && (c / 4096) % 64 == b by {
      LeadingDigit(c, a, b);
    }
    assert Trail(c, 4096) == s[1] && Trail(c, 64) == s[2] && Trail(c, 1) == s[3];
    hide DecodeScalar, Trail;
    assert s == [s[0], s[1], s[2], s[3]];
  }

  lemma LeadingDigit(c: int, a: int, b: int)
    requires 0 <= b < 64 && c / 4096 == a * 64 + b
    ensures c / 262_144 == a && (c / 4096) % 64 == b
  {
  }

  /** The byte table accepts exactly the encodings of scalar values. */
  lemma WellFormedIsEncoding(s: Bytes)
    ensures WellFormedSequence(s) <==> EncodesScalar(s)
  {
    if WellFormedSequence(s) {
      var c := DecodeScalar(s);
      if |s| <= 2 {
        DecodingTwo(s);
      } else if |s| == 3 {
        DecodingThree(s);
      } else {
        DecodingFour(s);
      }
      hide DecodeScalar, EncodeScalar, WellFormedSequence;
      assert IsScalar(c) && EncodeScalar(c) == s;
    } else if EncodesScalar(s) {
      var c: int :| IsScalar(c) && EncodeScalar(c) == s;
      EncodingIsWellFormed(c);
      assert false;
    }
  }

  /** The start of the encoding of some scalar value, or all of it. */
  ghost predicate BeginsScalar(s: Bytes) {
    s != [] && exists t: Bytes :: EncodesScalar(s + t)
  }

  lemma ConformsIsBeginning(s: Bytes)
    ensures Conforms(s) <==> BeginsScalar(s)
  {
    PartialIsProperPrefix(s);
    WellFormedIsEncoding(s);
    assert s + [] == s;
    hide EncodesScalar;
    if s != [] {
      forall t: Bytes
        ensures EncodesScalar(s + t) <==> WellFormedSequence(s + t)
        ensures EncodesScalar(s + t) && t == [] ==> EncodesScalar(s)
      {
        WellFormedIsEncoding(s + t);
        if t == [] {
          assert s + t == s;
        }
      }
      if Conforms(s) {
        if |s| == SequenceLength(s[0]) {
          assert EncodesScalar(s + []);
        } else {
          var t: Bytes :| t != [] && WellFormedSequence(s + t);
          assert EncodesScalar(s + t);
        }
      }
    }
    hide Conforms;
  }

  /** Where no scalar value is encoded: the longest start of one, or a single byte. */
  ghost predicate MaximalSubpart(s: Bytes, k: nat) {
    && 1 <= k <= |s| && (k == 1 || BeginsScalar(s[..k])) && !EncodesScalar(s[..k])
    && forall j | k < j <= |s| :: !BeginsScalar(s[..j])
  }

  /** A maximal subpart becomes one U+FFFD, however many bytes it has. */
  lemma SubpartCostsOneReplacement(s: Bytes, k: nat)
    requires 1 <= k <= |s| && (k == 1 || Conforms(s[..k])) && !WellFormedSequence(s[..k])
    requires forall j | k < j <= |s| :: !Conforms(s[..j])
    ensures Repair(s) == REPLACEMENT + Repair(s[k..])
  {
    ExtentConforms(s, 1);
    assert s[..k][0] == s[0];
    if k > 1 {
      ExtentIsMaximal(s, k);
    }
    hide Extent;
  }

  /** The longest conforming prefix, or one byte: every malformed start has one. */
  lemma SomeSubpart(s: Bytes) returns (k: nat)
    requires s != []
    ensures 1 <= k <= |s| && (k == 1 || Conforms(s[..k]))
    ensures !(exists j :: 1 <= j <= |s| && WellFormedSequence(s[..j])) ==>
              forall j | k < j <= |s| :: !Conforms(s[..j])
    ensures WellFormedSequence(s[..k]) <==> exists j :: 1 <= j <= |s| && WellFormedSequence(s[..j])
  {
    k := Extent(s, 1);
    ExtentConforms(s, 1);
    forall j | 1 <= j <= |s| && Conforms(s[..j])
      ensures j <= k && (WellFormedSequence(s[..j]) ==> j == k)
    {
      if j > 1 {
        ExtentIsMaximal(s, j);
      }
      assert k > 1 ==> s[..k][0] == s[..j][0];
    }
  }

  /** The three rules of a repairing decoder. */
  ghost predicate Decodes(f: Bytes -> Bytes) {
    && f([]) == []
    && (forall s: Bytes, k: nat | k <= |s| && EncodesScalar(s[..k]) :: f(s) == s[..k] + f(s[k..]))
    && (forall s: Bytes, k: nat | MaximalSubpart(s, k) :: f(s) == REPLACEMENT + f(s[k..]))
  }

  lemma SubpartInBytes(s: Bytes, k: nat)
    requires 1 <= k <= |s|
    ensures MaximalSubpart(s, k) <==>
            && (k == 1 || Conforms(s[..k])) && !WellFormedSequence(s[..k])
            && forall j | k < j <= |s| :: !Conforms(s[..j])
  {
    forall j | 1 <= j <= |s|
      ensures Conforms(s[..j]) <==> BeginsScalar(s[..j])
      ensures WellFormedSequence(s[..j]) <==> EncodesScalar(s[..j])
    {
      ConformsIsBeginning(s[..j]);
      WellFormedIsEncoding(s[..j]);
    }
    hide Conforms, WellFormedSequence, BeginsScalar, EncodesScalar;
  }

  lemma RepairDecodes()
    ensures Decodes(Repair)
  {
    assert Repair([]) == [];
    forall s: Bytes, k: nat | k <= |s| && EncodesScalar(s[..k])
      ensures Repair(s) == s[..k] + Repair(s[k..])
    {
      WellFormedIsEncoding(s[..k]);
      RepairOfSequence(s[..k], s[k..]);
      assert s == s[..k] + s[k..];
    }
    hide Repair;
    forall s: Bytes, k: nat | MaximalSubpart(s, k)
      ensures Repair(s) == REPLACEMENT + Repair(s[k..])
    {
      SubpartInBytes(s, k);
      SubpartCostsOneReplacement(s, k);
    }
  }

  lemma {:induction false} DecodersAgree(f: Bytes -> Bytes, g: Bytes -> Bytes, s: Bytes)
    requires Decodes(f) && Decodes(g)
    ensures f(s) == g(s)
    decreases |s|
  {
    if s != [] {
      var k := SomeSubpart(s);
      DecodersAgree(f, g, s[k..]);
      WellFormedIsEncoding(s[..k]);
      if !WellFormedSequence(s[..k]) {
        SubpartInBytes(s, k);
      }
      hide Conforms, WellFormedSequence, EncodesScalar, MaximalSubpart;
    }
  }

  /** The three rules leave one decoder only, and this is it. */
  lemma RepairIsTheDecoder(f: Bytes -> Bytes)
    ensures Decodes(Repair)
    ensures Decodes(f) ==> forall s: Bytes :: f(s) == Repair(s)
  {
    RepairDecodes();
    hide Repair, Decodes;
    if Decodes(f) {
      forall s: Bytes
        ensures f(s) == Repair(s)
      {
        DecodersAgree(f, Repair, s);
      }
    }
  }

  /** A cut euro sign in front of a letter. */
  lemma CutEuroSign()
    ensures Repair([0xE2, 0x82, 0x41]) == REPLACEMENT + [0x41]
  {
    var s: Bytes := [0xE2, 0x82, 0x41];
    assert s[..2] == [0xE2, 0x82] && s[2..] == [0x41] && s[..3] == s;
    SubpartCostsOneReplacement(s, 2);
    assert [0x41][..1] == [0x41] && [0x41][1..] == [];
    RepairFixesExactlyWellFormed([0x41]);
    assert WellFormed([0x41]);
  }
}
