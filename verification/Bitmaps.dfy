/** Bitmaps packed into 64-bit words, and the word-wise operations on them. */
module Bitmaps {
  predicate Low(w: bv64) { w & 1 == 1 }
  function Half(w: bv64): bv64 { w >> 1 }
  function Both(a: bv64, b: bv64): bv64 { a & b }
  function Either(a: bv64, b: bv64): bv64 { a | b }
  function NotBoth(a: bv64, b: bv64): bv64 { !a & b }
  function Double(w: bv64, low: bool): bv64 { (w << 1) | (if low then 1 else 0) }
  predicate Below(a: bv64, b: bv64) { a < b }

  /** Bit `k` of a word, least significant first. */
  predicate WordBit(w: bv64, k: nat) {
    if k == 0 then Low(w) else WordBit(Half(w), k - 1)
  }

  /** A bitmap of `len` bits; the bits of the last word beyond them may be anything. */
  datatype Bitmap = Bitmap(words: seq<bv64>, len: nat) {
    predicate Valid() {
      |words| == (len + 63) / 64
    }

    predicate Bit(i: nat)
      requires Valid() && i < len
    {
      WordBit(words[i / 64], i % 64)
    }

    ghost function Bits(): (r: seq<bool>)
      requires Valid()
      ensures |r| == len
    {
      seq(len, i requires 0 <= i < len => Bit(i))
    }
  }

  // ---- one word ----

  lemma {:induction false} BothParts(a: bv64, b: bv64)
    ensures Half(Both(a, b)) == Both(Half(a), Half(b))
    ensures Low(Both(a, b)) <==> Low(a) && Low(b)
  {}

  lemma {:induction false} EitherParts(a: bv64, b: bv64)
    ensures Half(Either(a, b)) == Either(Half(a), Half(b))
    ensures Low(Either(a, b)) <==> Low(a) || Low(b)
  {}

  lemma {:induction false} NotBothParts(a: bv64, b: bv64)
    ensures Half(NotBoth(a, b)) == NotBoth(Half(a), Half(b))
    ensures Low(NotBoth(a, b)) <==> !Low(a) && Low(b)
  {}

  lemma {:induction false} BothBit(a: bv64, b: bv64, k: nat)
    ensures WordBit(Both(a, b), k) <==> WordBit(a, k) && WordBit(b, k)
    decreases k
  {
    hide Low, Half, Both;
    BothParts(a, b);
    if k > 0 {
      BothBit(Half(a), Half(b), k - 1);
    }
  }

  lemma {:induction false} EitherBit(a: bv64, b: bv64, k: nat)
    ensures WordBit(Either(a, b), k) <==> WordBit(a, k) || WordBit(b, k)
    decreases k
  {
    hide Low, Half, Either;
    EitherParts(a, b);
    if k > 0 {
      EitherBit(Half(a), Half(b), k - 1);
    }
  }

  lemma {:induction false} NotBothBit(a: bv64, b: bv64, k: nat)
    ensures WordBit(NotBoth(a, b), k) <==> !WordBit(a, k) && WordBit(b, k)
    decreases k
  {
    hide Low, Half, NotBoth;
    NotBothParts(a, b);
    if k > 0 {
      NotBothBit(Half(a), Half(b), k - 1);
    }
  }

  /** Up to 64 flags in a word. */
  function PackWord(bools: seq<bool>): bv64 {
    if bools == [] then 0 else Double(PackWord(bools[1..]), bools[0])
  }

  /** 2^k, halved down from the top bit. */
  function Top(k: nat): bv64
    requires k <= 63
    decreases 63 - k
  {
    if k == 63 then 0x8000_0000_0000_0000 else Half(Top(k + 1))
  }

  lemma {:induction false} TopStart()
    ensures Top(0) == 1
  {
    assert Top(55) == 0x80_0000_0000_0000;
    assert Top(47) == 0x8000_0000_0000;
    assert Top(39) == 0x80_0000_0000;
    assert Top(31) == 0x8000_0000;
    assert Top(23) == 0x80_0000;
    assert Top(15) == 0x8000;
    assert Top(7) == 0x80;
  }

  lemma {:induction false} HalfAbove(w: bv64)
    ensures Below(0, Half(w)) ==> Below(0, w)
    ensures Below(Half(w), 0x8000_0000_0000_0001)
  {}

  lemma {:induction false} ZeroBelowOne()
    ensures Below(0, 1) && Below(0x8000_0000_0000_0000, 0x8000_0000_0000_0001)
  {}

  lemma {:induction false} TopRange(k: nat)
    requires k <= 63
    ensures Below(0, Top(k)) && Below(Top(k), 0x8000_0000_0000_0001)
  {
    hide Below, Half;
    ZeroBelowOne();
    if k == 0 {
      TopStart();
    } else {
      TopRange(k - 1);
      HalfAbove(Top(k));
    }
    if k < 63 {
      HalfAbove(Top(k + 1));
    }
  }

  lemma {:induction false} DoubleBelow(w: bv64, top: bv64, low: bool)
    requires Below(w, Half(top))
    ensures Below(Double(w, low), top)
  {}

  lemma {:induction false} PackBelow(bools: seq<bool>)
    requires |bools| <= 63
    ensures Below(PackWord(bools), Top(|bools|))
  {
    hide Below, Half, Double;
    TopRange(|bools|);
    if bools != [] {
      PackBelow(bools[1..]);
      DoubleBelow(PackWord(bools[1..]), Top(|bools|), bools[0]);
    }
  }

  lemma {:induction false} DoubleParts(w: bv64, top: bv64, low: bool)
    requires Below(w, top) && Below(top, 0x8000_0000_0000_0001)
    ensures Half(Double(w, low)) == w
    ensures Low(Double(w, low)) == low
  {}

  lemma {:induction false} PackedBit(bools: seq<bool>, k: nat)
    requires k < |bools| <= 64
    ensures WordBit(PackWord(bools), k) == bools[k]
  {
    hide Below, Half, Double, Low;
    PackBelow(bools[1..]);
    TopRange(|bools| - 1);
    DoubleParts(PackWord(bools[1..]), Top(|bools| - 1), bools[0]);
    if k > 0 {
      PackedBit(bools[1..], k - 1);
    }
  }

  // ---- whole bitmaps ----

  predicate SameLength(a: Bitmap, b: Bitmap) {
    a.Valid() && b.Valid() && a.len == b.len
  }

  method And(a: Bitmap, b: Bitmap) returns (c: Bitmap)
    requires SameLength(a, b)
    ensures SameLength(c, a)
    ensures forall i :: 0 <= i < a.len ==> c.Bit(i) == (a.Bit(i) && b.Bit(i))
  {
    hide Both, NotBoth, WordBit;
    var words: seq<bv64> := [];
    for j := 0 to |a.words|
      invariant |words| == j
      invariant forall k :: 0 <= k < j ==> words[k] == Both(a.words[k], b.words[k])
    {
      words := words + [Both(a.words[j], b.words[j])];
    }
    c := Bitmap(words, a.len);
    forall i | 0 <= i < a.len ensures c.Bit(i) == (a.Bit(i) && b.Bit(i)) {
      BothBit(a.words[i / 64], b.words[i / 64], i % 64);
    }
  }

  /** `!a & b`. */
  method NotThenAnd(a: Bitmap, b: Bitmap) returns (c: Bitmap)
    requires SameLength(a, b)
    ensures SameLength(c, a)
    ensures forall i :: 0 <= i < a.len ==> c.Bit(i) == (!a.Bit(i) && b.Bit(i))
  {
    hide Both, NotBoth, WordBit;
    var words: seq<bv64> := [];
    for j := 0 to |a.words|
      invariant |words| == j
      invariant forall k :: 0 <= k < j ==> words[k] == NotBoth(a.words[k], b.words[k])
    {
      words := words + [NotBoth(a.words[j], b.words[j])];
    }
    c := Bitmap(words, a.len);
    forall i | 0 <= i < a.len ensures c.Bit(i) == (!a.Bit(i) && b.Bit(i)) {
      NotBothBit(a.words[i / 64], b.words[i / 64], i % 64);
    }
  }

  /** `a |= b` on the words of a bitmap, in place. */
  method OrInto(words: array<bv64>, b: seq<bv64>)
    requires words.Length == |b|
    modifies words
    ensures forall k :: 0 <= k < words.Length ==> words[k] == Either(old(words[k]), b[k])
  {
    hide Either;
    for j := 0 to words.Length
      invariant forall k :: 0 <= k < j ==> words[k] == Either(old(words[k]), b[k])
      invariant forall k :: j <= k < words.Length ==> words[k] == old(words[k])
    {
      words[j] := Either(words[j], b[j]);
    }
  }

  method Or(a: Bitmap, b: Bitmap) returns (c: Bitmap)
    requires SameLength(a, b)
    ensures SameLength(c, a)
    ensures forall i :: 0 <= i < a.len ==> c.Bit(i) == (a.Bit(i) || b.Bit(i))
  {
    hide Either, WordBit;
    var words := new bv64[|a.words|](i requires 0 <= i < |a.words| => a.words[i]);
    OrInto(words, b.words);
    c := Bitmap(words[..], a.len);
    forall i | 0 <= i < a.len ensures c.Bit(i) == (a.Bit(i) || b.Bit(i)) {
      EitherBit(a.words[i / 64], b.words[i / 64], i % 64);
    }
  }

  /** Packs flags 64 at a time, and the remainder in a last word. */
  method FromBools(bools: seq<bool>) returns (c: Bitmap)
    ensures c.Valid() && c.Bits() == bools
  {
    hide PackWord, WordBit;
    var words: seq<bv64> := [];
    var full := |bools| / 64;
    for j := 0 to full
      invariant |words| == j
      invariant forall k :: 0 <= k < j ==> words[k] == PackWord(bools[64 * k..64 * k + 64])
    {
      words := words + [PackWord(bools[64 * j..64 * j + 64])];
    }
    if |bools| % 64 != 0 {
      words := words + [PackWord(bools[64 * full..])];
    }
    c := Bitmap(words, |bools|);
    forall i | 0 <= i < |bools| ensures c.Bit(i) == bools[i] {
      var k := i / 64;
      if k < full {
        PackedBit(bools[64 * k..64 * k + 64], i % 64);
      } else {
        PackedBit(bools[64 * full..], i % 64);
      }
    }
  }
}
