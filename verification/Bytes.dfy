/** Bytes, fixed-width integers and packed bits, as the block files lay them out. */
module Bytes {

  type Byte = b: int | 0 <= b < 256

  const U32: nat := 0x1_0000_0000
  const U64: nat := 0x1_0000_0000_0000_0000

  function Cap(k: nat): (c: nat)
    ensures c >= 1
  {
    if k == 0 then 1 else 256 * Cap(k - 1)
  }

  function LittleEndian(n: nat, k: nat): (b: seq<Byte>)
    ensures |b| == k
  {
    if k == 0 then [] else [n % 256] + LittleEndian(n / 256, k - 1)
  }

  function FromLittleEndian(b: seq<Byte>): nat {
    if b == [] then 0 else b[0] + 256 * FromLittleEndian(b[1..])
  }

  function BigEndian(n: nat, k: nat): (b: seq<Byte>)
    ensures |b| == k
  {
    if k == 0 then [] else BigEndian(n / 256, k - 1) + [n % 256]
  }

  function FromBigEndian(b: seq<Byte>): nat {
    if b == [] then 0 else 256 * FromBigEndian(b[..|b| - 1]) + b[|b| - 1]
  }

  lemma {:induction false} LittleEndianRoundTrip(n: nat, k: nat)
    requires n < Cap(k)
    ensures FromLittleEndian(LittleEndian(n, k)) == n
  {
    if k > 0 {
      LittleEndianRoundTrip(n / 256, k - 1);
    }
  }

  lemma {:induction false} BigEndianRoundTrip(n: nat, k: nat)
    requires n < Cap(k)
    ensures FromBigEndian(BigEndian(n, k)) == n
  {
    if k > 0 {
      BigEndianRoundTrip(n / 256, k - 1);
    }
  }

  lemma {:induction false} Caps()
    ensures Cap(4) == U32 && Cap(8) == U64
  {
    assert Cap(2) == 0x1_0000;
    assert Cap(4) == 0x1_0000 * 0x1_0000;
    assert Cap(6) == 0x1_0000 * U32;
  }

  /** A 32-bit little-endian field; the value is truncated to 32 bits first. */
  function PutU32(n: nat): (b: seq<Byte>)
    ensures |b| == 4
  {
    LittleEndian(n % U32, 4)
  }

  lemma {:induction false} PutU32RoundTrip(n: nat)
    ensures FromLittleEndian(PutU32(n)) == n % U32
  {
    Caps();
    LittleEndianRoundTrip(n % U32, 4);
  }

  // ---- bits, least significant first ----

  function ByteOf(bits: seq<bool>): (b: Byte)
    requires |bits| <= 8
  {
    BitSum(bits, 8)
  }

  function Pow2(k: nat): (p: nat)
    ensures p >= 1
  {
    if k == 0 then 1 else 2 * Pow2(k - 1)
  }

  function BitSum(bits: seq<bool>, k: nat): (n: nat)
    requires |bits| <= k
    ensures n < Pow2(k) && Pow2(8) == 256
  {
    assert Pow2(8) == 2 * Pow2(7) == 4 * Pow2(6) == 8 * Pow2(5) == 16 * Pow2(4) == 32 * Pow2(3) == 64 * Pow2(2);
    if bits == [] then 0 else (if bits[0] then 1 else 0) + 2 * BitSum(bits[1..], k - 1)
  }

  predicate BitOf(n: nat, i: nat) {
    if i == 0 then n % 2 == 1 else BitOf(n / 2, i - 1)
  }

  lemma {:induction false} BitOfSum(bits: seq<bool>, k: nat, i: nat)
    requires i < |bits| <= k
    ensures BitOf(BitSum(bits, k), i) == bits[i]
  {
    if i > 0 {
      BitOfSum(bits[1..], k - 1, i - 1);
    }
  }

  function PackBits(bits: seq<bool>): (b: seq<Byte>)
    ensures |b| == (|bits| + 7) / 8
  {
    if |bits| == 0 then []
    else if |bits| <= 8 then [ByteOf(bits)]
    else [ByteOf(bits[..8])] + PackBits(bits[8..])
  }

  predicate BitAt(bytes: seq<Byte>, i: nat)
    requires i < 8 * |bytes|
  {
    BitOf(bytes[i / 8], i % 8)
  }

  lemma {:induction false} PackedBitAt(bits: seq<bool>, i: nat)
    requires i < |bits|
    ensures BitAt(PackBits(bits), i) == bits[i]
  {
    if |bits| <= 8 {
      BitOfSum(bits, 8, i);
    } else if i < 8 {
      BitOfSum(bits[..8], 8, i);
    } else {
      PackedBitAt(bits[8..], i - 8);
      assert (i - 8) / 8 == i / 8 - 1 && (i - 8) % 8 == i % 8;
    }
  }
}
