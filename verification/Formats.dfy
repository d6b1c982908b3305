/** The bytes of the files, field by field. */
module Formats {
  import opened Common
  import opened Bytes
  import opened Varints
  import opened Blocks
  import opened Runs
  import opened Dictionaries
  import opened BlockIndexes

  /** Four bytes as a number, the lowest first. */
  function Low4(b: seq<Byte>, i: nat): nat
    requires i + 4 <= |b|
  {
    b[i] as nat + 0x100 * (b[i + 1] as nat) + 0x1_0000 * (b[i + 2] as nat) + 0x100_0000 * (b[i + 3] as nat)
  }

  /** Four bytes as a number, the highest first. */
  function High4(b: seq<Byte>, i: nat): nat
    requires i + 4 <= |b|
  {
    0x100_0000 * (b[i] as nat) + 0x1_0000 * (b[i + 1] as nat) + 0x100 * (b[i + 2] as nat) + b[i + 3] as nat
  }

  lemma {:induction false} LowOfU32(n: nat)
    requires n < 0x1_0000_0000
    ensures Low4(PutU32(n), 0) == n
  {
    var b := PutU32(n);
    assert b == LittleEndian(n, 4);
    assert b[1..] == LittleEndian(n / 0x100, 3);
    assert b[2..] == b[1..][1..] == LittleEndian(n / 0x100 / 0x100, 2);
    assert b[3..] == b[2..][1..] == LittleEndian(n / 0x100 / 0x100 / 0x100, 1);
  }

  lemma {:induction false} LastFour(n: nat, k: nat)
    ensures var b := BigEndian(n, k + 4);
            && b[..k] == BigEndian(n / 0x1_0000_0000, k)
            && High4(b, k) == n % 0x1_0000_0000
  {
    var b := BigEndian(n, k + 4);
    var n1 := n / 0x100;
    var n2 := n1 / 0x100;
    var n3 := n2 / 0x100;
    assert b[..k + 3] == BigEndian(n1, k + 3);
    assert b[..k + 2] == b[..k + 3][..k + 2] == BigEndian(n2, k + 2);
    assert b[..k + 1] == b[..k + 2][..k + 1] == BigEndian(n3, k + 1);
    assert b[..k] == b[..k + 1][..k] == BigEndian(n3 / 0x100, k);
  }

  lemma {:induction false} HighOf4(n: nat)
    requires n < 0x1_0000_0000
    ensures High4(BigEndian(n, 4), 0) == n
  {
    LastFour(n, 0);
  }

  /** Of eight bytes, the first four are the high half. */
  lemma {:induction false} HighOf8(n: nat)
    requires n < 0x1_0000_0000_0000_0000
    ensures High4(BigEndian(n, 8), 0) == n / 0x1_0000_0000 && High4(BigEndian(n, 8), 4) == n % 0x1_0000_0000
  {
    hide BigEndian;
    var b := BigEndian(n, 8);
    LastFour(n, 4);
    HighOf4(n / 0x1_0000_0000);
    assert b[0] == b[..4][0] && b[1] == b[..4][1] && b[2] == b[..4][2] && b[3] == b[..4][3];
  }

  function One(b: bool): nat {
    if b then 1 else 0
  }

  lemma {:induction false} FirstBit(b: bool, rest: seq<bool>, k: nat)
    requires |rest| <= k
    ensures BitSum([b] + rest, k + 1) == One(b) + 2 * BitSum(rest, k)
  {
    assert ([b] + rest)[1..] == rest;
  }

  lemma {:induction false} FourBits(a: bool, b: bool, c: bool, d: bool, rest: seq<bool>, k: nat)
    requires |rest| <= k
    ensures BitSum([a, b, c, d] + rest, k + 4) ==
            One(a) + 2 * One(b) + 4 * One(c) + 8 * One(d) + 16 * BitSum(rest, k)
  {
    hide BitSum, One;
    assert [a, b, c, d] + rest == [a] + ([b] + ([c] + ([d] + rest)));
    FirstBit(d, rest, k);
    FirstBit(c, [d] + rest, k + 1);
    FirstBit(b, [c] + ([d] + rest), k + 2);
    FirstBit(a, [b] + ([c] + ([d] + rest)), k + 3);
  }

  function Weight(s: seq<bool>): nat
    requires |s| == 4
  {
    One(s[0]) + 2 * One(s[1]) + 4 * One(s[2]) + 8 * One(s[3])
  }

  lemma {:induction false} FourWeigh(s: seq<bool>, rest: seq<bool>, k: nat)
    requires |s| == 4 && |rest| <= k
    ensures BitSum(s + rest, k + 4) == Weight(s) + 16 * BitSum(rest, k)
  {
    hide BitSum, One;
    assert s == [s[0], s[1], s[2], s[3]];
    FourBits(s[0], s[1], s[2], s[3], rest, k);
  }

  /** Flags are packed with the first one lowest. */
  lemma {:induction false} ByteOfFlags(bits: seq<bool>)
    requires |bits| == 8
    ensures ByteOf(bits) == Weight(bits[..4]) + 16 * Weight(bits[4..])
  {
    assert BitSum([], 0) == 0;
    hide BitSum, Weight;
    assert bits == bits[..4] + bits[4..] && bits[4..] == bits[4..] + [];
    FourWeigh(bits[..4], bits[4..], 4);
    FourWeigh(bits[4..], [], 0);
  }

  // ---- varints ----

  /** Groups of seven bits as a number, the lowest first. */
  function GroupSum(b: seq<Byte>): nat {
    if b == [] then 0 else b[0] % 0x80 + 0x80 * GroupSum(b[1..])
  }

  /** A varint holds its value in groups of seven bits, lowest first, and every byte but the last has the high bit. */
  lemma {:induction false} VarintFormat(v: nat)
    ensures GroupSum(Encode(v)) == v
    ensures forall i :: 0 <= i < |Encode(v)| ==> (Encode(v)[i] >= 0x80 <==> i + 1 < |Encode(v)|)
  {
    if v >= 0x80 {
      VarintFormat(v / 0x80);
      var b, rest := Encode(v), Encode(v / 0x80);
      assert b[1..] == rest;
      forall i | 0 <= i < |b| ensures b[i] >= 0x80 <==> i + 1 < |b| {
        if i > 0 { assert b[i] == rest[i - 1]; }
      }
    }
  }

  // ---- blocks ----

  /** A blob block begins with the end of every value, counted from behind that table. */
  lemma {:induction false} BlobFormat<T>(l: Layout<T>, ps: seq<seq<Byte>>, i: nat)
    requires l.Blob? && i < |ps| && |Flatten(ps)| < 0x1_0000_0000
    ensures var b := PlainBlock(l, ps);
            && |b| == 4 * |ps| + |Flatten(ps)| && b[4 * |ps|..] == Flatten(ps)
            && Low4(b, 4 * i) == |Flatten(ps[..i + 1])|
  {
    hide PutU32;
    var b := PlainBlock(l, ps);
    TableEntry(Ends(ps), i);
    EndsAt(ps, i);
    assert b[4 * i..4 * i + 4] == Table(Ends(ps))[4 * i..4 * i + 4];
    LowOfU32(|Flatten(ps[..i + 1])|);
    var entry := b[4 * i..4 * i + 4];
    assert b[4 * i] == entry[0] && b[4 * i + 1] == entry[1] && b[4 * i + 2] == entry[2] && b[4 * i + 3] == entry[3];
  }

  /** A nullable block ends with the bitmap and the bitmap's length. */
  lemma {:induction false} NullableFormat<T>(l: Layout<T>, items: seq<Option<T>>)
    requires |PackBits(Flags(items))| < 0x1_0000_0000
    ensures var b, bits := BlockOf(l, true, items), PackBits(Flags(items));
            var n := |b| - 4 - |bits|;
            && n >= 0 && b[..n] == PlainBlock(l, Pieces(l, items)) && b[n..n + |bits|] == bits
            && Low4(b, n + |bits|) == |bits|
  {
    hide PutU32, PackBits, PlainBlock;
    LowOfU32(|PackBits(Flags(items))|);
  }

  /** A run-length block: the number of runs, the size of the counts, the counts, the values. */
  lemma {:induction false} RleFormat<T>(l: Layout<T>, nullable: bool, items: seq<Option<T>>)
    requires items != [] && |RunCounts(items)| < 0x1_0000_0000 && |EncodeAll(RunCounts(items))| < 0x1_0000_0000
    ensures var b, counts := RleBlockOf(l, nullable, items), EncodeAll(RunCounts(items));
            && |b| >= 8 + |counts|
            && Low4(b, 0) == |RunCounts(items)| && Low4(b, 4) == |counts|
            && b[8..8 + |counts|] == counts && b[8 + |counts|..] == BlockOf(l, nullable, RunHeads(items))
  {
    hide PutU32, BlockOf, EncodeAll, RunCounts, RunHeads;
    LowOfU32(|RunCounts(items)|);
    LowOfU32(|EncodeAll(RunCounts(items))|);
  }

  /** A dictionary block: the size of the codes, the number of values, the codes as a run-length block, the values;
      here the high bytes come first. */
  lemma {:induction false} DictFormat<T>(l: Layout<T>, nullable: bool, keys: seq<T>, codes: seq<Option<I32>>)
    requires |keys| < 0x1_0000_0000 && |RleBlockOf(I32Layout(), false, codes)| < 0x1_0000_0000_0000_0000
    ensures var b, rle := DictBlockOf(l, nullable, keys, codes), RleBlockOf(I32Layout(), false, codes);
            && |b| >= 12 + |rle|
            && High4(b, 0) == |rle| / 0x1_0000_0000 && High4(b, 4) == |rle| % 0x1_0000_0000
            && High4(b, 8) == |keys|
            && b[12..12 + |rle|] == rle && b[12 + |rle|..] == BlockOf(l, nullable, Somes(keys))
  {
    hide BigEndian, BlockOf, RleBlockOf, Somes;
    HighOf8(|RleBlockOf(I32Layout(), false, codes)|);
    HighOf4(|keys|);
  }

  /** Signed numbers are stored in two's complement. */
  lemma {:induction false} I32Format(x: I32)
    ensures Low4(EncodeI32(x), 0) == if x >= 0 then x else x + 0x1_0000_0000
  {
    LowOfU32(x % U32);
  }

  // ---- blocks in a column ----

  lemma {:induction false} FromBigEndianBack(b: seq<Byte>)
    ensures BigEndian(FromBigEndian(b), |b|) == b
  {
    if b != [] {
      var n := |b| - 1;
      FromBigEndianBack(b[..n]);
      assert b == b[..n] + [b[n]];
    }
  }

  lemma {:induction false} FromBigEndianBound(b: seq<Byte>)
    ensures FromBigEndian(b) < Cap(|b|)
  {
    if b != [] {
      FromBigEndianBound(b[..|b| - 1]);
    }
  }

  /** Behind its data a block has its kind, the kind of checksum and the checksum, high bytes first. */
  lemma {:induction false} ImageFormat(g: Guard, b: Written)
    requires b.kind < 0x1_0000_0000
    ensures var image, n := Image(g, b), |b.data|;
            && image[..n] == b.data && High4(image, n) == b.kind
            && High4(image, n + 4) == (if g.kind == NoChecksum then 0 else 1)
            && High4(image, n + 8) == 0
            && High4(image, n + 12) == (if g.kind == NoChecksum then 0 else g.crc(image[..n + 4]) % 0x1_0000_0000)
  {
    hide BigEndian;
    var typed := b.data + BigEndian(b.kind, 4);
    assert Image(g, b)[..|b.data| + 4] == typed;
    HighOf4(b.kind);
    HighOf4(g.Code());
    HighOf8(g.Build(typed));
  }

  /** A read returns a block if and only if the bytes at the entry are an image of it, with the right checksum. */
  lemma {:induction false} ReadsImagesOnly(crc: seq<Byte> -> nat, column: seq<Byte>, e: Entry, kind: nat,
                                           data: seq<Byte>)
    requires e.offset + e.length <= |column|
    ensures GetBlock(crc, column, e) == Block(kind, data) <==>
              kind < 0x1_0000_0000 && exists ck: Checksum, rows: nat ::
                column[e.offset..e.offset + e.length] == Image(Guard(ck, crc), Written(rows, kind, data))
  {
    hide BigEndian, FromBigEndian;
    var block := column[e.offset..e.offset + e.length];
    Caps();
    if GetBlock(crc, column, e) == Block(kind, data) {
      var n := |block| - 16;
      var k, c, s := block[n..n + 4], block[n + 4..n + 8], block[n + 8..];
      FromBigEndianBack(k);
      FromBigEndianBack(c);
      FromBigEndianBack(s);
      FromBigEndianBound(k);
      var ck := KindOf(FromBigEndian(c)).value;
      assert block[..n + 4] == data + k && block == data + k + c + s;
      assert block == Image(Guard(ck, crc), Written(0, kind, data));
    }
    if kind < 0x1_0000_0000 {
      forall ck: Checksum, rows: nat | block == Image(Guard(ck, crc), Written(rows, kind, data))
        ensures GetBlock(crc, column, e) == Block(kind, data)
      {
        ImageParts(Guard(ck, crc), Written(rows, kind, data));
      }
    }
  }
}
