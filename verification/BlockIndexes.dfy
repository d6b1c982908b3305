/** The block index of a column: which bytes and which rows each block holds. */
module BlockIndexes {
  import opened Common
  import opened Bytes

  datatype Entry = Entry(offset: nat, length: nat, firstRowid: nat, rowCount: nat)

  datatype Checksum = NoChecksum | Crc32

  /** How a column protects its blocks; the checksum function is a parameter. */
  datatype Guard = Guard(kind: Checksum, crc: seq<Byte> -> nat) {
    function Build(data: seq<Byte>): nat {
      match kind
      case NoChecksum => 0
      case Crc32 => crc(data) % U32
    }

    function Code(): nat {
      match kind
      case NoChecksum => 0
      case Crc32 => 1
    }
  }

  /** The checksum type that a block header names. */
  function KindOf(code: nat): Option<Checksum> {
    if code == 0 then Some(NoChecksum) else if code == 1 then Some(Crc32) else None
  }

  const META_SIZE: nat := 16

  /** A finished block: its rows, its type and its content. */
  datatype Written = Written(rows: nat, kind: nat, data: seq<Byte>)

  /** The bytes of a block in the column file: content, type, checksum type, checksum. */
  function Image(g: Guard, b: Written): (r: seq<Byte>)
    ensures |r| == |b.data| + META_SIZE
  {
    var typed := b.data + BigEndian(b.kind, 4);
    typed + BigEndian(g.Code(), 4) + BigEndian(g.Build(typed), 8)
  }

  function Images(g: Guard, bs: seq<Written>): seq<seq<Byte>> {
    seq(|bs|, i requires 0 <= i < |bs| => Image(g, bs[i]))
  }

  function Column(g: Guard, bs: seq<Written>): seq<Byte> {
    Flatten(Images(g, bs))
  }

  function Rows(bs: seq<Written>): nat {
    if bs == [] then 0 else Rows(bs[..|bs| - 1]) + bs[|bs| - 1].rows
  }

  /** The entry of block `i`: it starts where the blocks before it end, in bytes and rows. */
  function EntryOf(g: Guard, bs: seq<Written>, i: nat): Entry
    requires i < |bs|
  {
    Entry(|Column(g, bs[..i])|, |Image(g, bs[i])|, Rows(bs[..i]) % U32, bs[i].rows % U32)
  }

  class BlockIndexBuilder {
    const guard: Guard
    var rowCount: nat
    var lastRowCount: nat
    var indexes: seq<Entry>
    /** The blocks finished so far. */
    ghost var blocks: seq<Written>

    constructor (guard: Guard)
      ensures Valid([]) && blocks == [] && rowCount == 0 && this.guard == guard
    {
      this.guard := guard;
      rowCount, lastRowCount, indexes, blocks := 0, 0, [], [];
    }

    /** `column` is the file of the blocks so far, and every block has its entry. */
    ghost predicate Valid(column: seq<Byte>)
      reads this
    {
      && column == Column(guard, blocks)
      && lastRowCount == Rows(blocks) <= rowCount
      && |indexes| == |blocks|
      && forall i :: 0 <= i < |blocks| ==> indexes[i] == EntryOf(guard, blocks, i)
    }

    method AddRows(rows: nat)
      modifies this`rowCount
      ensures rowCount == old(rowCount) + rows
    {
      rowCount := rowCount + rows;
    }

    /** Appends a block to the column file and records it. */
    method FinishBlock(kind: nat, column: seq<Byte>, data: seq<Byte>) returns (next: seq<Byte>)
      requires Valid(column)
      modifies this
      ensures Valid(next) && rowCount == old(rowCount) == lastRowCount
      ensures blocks == old(blocks) + [Written(old(rowCount) - old(lastRowCount), kind, data)]
    {
      ghost var b := Written(rowCount - lastRowCount, kind, data);
      indexes := indexes + [Entry(|column|, |data| + META_SIZE, lastRowCount % U32, (rowCount - lastRowCount) % U32)];
      lastRowCount := rowCount;
      var block := data + BigEndian(kind, 4);
      var checksum := guard.Build(block);
      block := block + BigEndian(guard.Code(), 4) + BigEndian(checksum, 8);
      next := column + block;
      Snoc(guard, blocks, b);
      blocks := blocks + [b];
    }
  }

  lemma {:induction false} Snoc(g: Guard, bs: seq<Written>, b: Written)
    ensures Column(g, bs + [b]) == Column(g, bs) + Image(g, b)
    ensures Rows(bs + [b]) == Rows(bs) + b.rows
    ensures forall i :: 0 <= i < |bs| ==> EntryOf(g, bs + [b], i) == EntryOf(g, bs, i)
    ensures EntryOf(g, bs + [b], |bs|) == Entry(|Column(g, bs)|, |Image(g, b)|, Rows(bs) % U32, b.rows % U32)
  {
    hide Image;
    var all := bs + [b];
    assert all[..|bs|] == bs;
    assert Images(g, all) == Images(g, bs) + [Image(g, b)];
    FlattenSnoc(Images(g, bs), Image(g, b));
    forall i | 0 <= i < |bs| ensures EntryOf(g, all, i) == EntryOf(g, bs, i) {
      assert all[..i] == bs[..i];
    }
  }

  // ---- the entries tile rows and bytes ----

  lemma {:induction false} UpTo(g: Guard, bs: seq<Written>, i: nat)
    requires i < |bs|
    ensures Rows(bs[..i + 1]) == Rows(bs[..i]) + bs[i].rows
    ensures Column(g, bs[..i + 1]) == Column(g, bs[..i]) + Image(g, bs[i])
  {
    hide Image, EntryOf;
    assert bs[..i + 1] == bs[..i] + [bs[i]];
    Snoc(g, bs[..i], bs[i]);
  }

  lemma {:induction false} RowsGrow(bs: seq<Written>, i: nat, j: nat)
    requires i <= j <= |bs|
    ensures Rows(bs[..i]) <= Rows(bs[..j])
    decreases j - i
  {
    if i < j {
      RowsGrow(bs, i, j - 1);
      assert bs[..j][..j - 1] == bs[..j - 1];
    }
  }

  /** Each entry starts where the one before ends, the first at zero, the last ends with the
      column: no gap and no overlap, in rows and in bytes. */
  lemma {:induction false} EntriesTile(g: Guard, bs: seq<Written>, i: nat)
    requires i < |bs| && Rows(bs) < U32
    ensures var e := EntryOf(g, bs, i);
            && (i == 0 ==> e.firstRowid == 0 && e.offset == 0)
            && (i + 1 < |bs| ==> EntryOf(g, bs, i + 1).firstRowid == e.firstRowid + e.rowCount)
            && (i + 1 < |bs| ==> EntryOf(g, bs, i + 1).offset == e.offset + e.length)
            && (i + 1 == |bs| ==> e.firstRowid + e.rowCount == Rows(bs) && e.offset + e.length == |Column(g, bs)|)
  {
    hide Image;
    UpTo(g, bs, i);
    RowsGrow(bs, i + 1, |bs|);
    assert bs[..|bs|] == bs;
    if i == 0 {
      assert bs[..0] == [];
    }
  }

  ghost predicate InBlock(bs: seq<Written>, i: nat, row: nat)
    requires i < |bs|
  {
    Rows(bs[..i]) <= row < Rows(bs[..i]) + bs[i].rows
  }

  /** No two blocks hold the same row. */
  lemma {:induction false} OneBlockOnly(g: Guard, bs: seq<Written>, i: nat, j: nat, row: nat)
    requires i < |bs| && j < |bs| && InBlock(bs, i, row) && InBlock(bs, j, row)
    ensures i == j
  {
    UpTo(g, bs, i);
    UpTo(g, bs, j);
    if i < j {
      RowsGrow(bs, i + 1, j);
    } else if j < i {
      RowsGrow(bs, j + 1, i);
    }
  }

  /** The number of entries whose first row is not beyond `row`. */
  method PartitionPoint(indexes: seq<Entry>, row: nat) returns (pp: nat)
    requires forall i, j :: 0 <= i <= j < |indexes| ==> indexes[i].firstRowid <= indexes[j].firstRowid
    ensures pp <= |indexes|
    ensures forall i :: 0 <= i < pp ==> indexes[i].firstRowid <= row
    ensures forall i :: pp <= i < |indexes| ==> indexes[i].firstRowid > row
  {
    var lo, hi := 0, |indexes|;
    while lo < hi
      invariant 0 <= lo <= hi <= |indexes|
      invariant forall i :: 0 <= i < lo ==> indexes[i].firstRowid <= row
      invariant forall i :: hi <= i < |indexes| ==> indexes[i].firstRowid > row
    {
      var mid := (lo + hi) / 2;
      if indexes[mid].firstRowid <= row {
        lo := mid + 1;
      } else {
        hi := mid;
      }
    }
    pp := lo;
  }

  ghost predicate IsIndex(indexes: seq<Entry>, g: Guard, bs: seq<Written>) {
    |indexes| == |bs| && forall i :: 0 <= i < |bs| ==> indexes[i] == EntryOf(g, bs, i)
  }

  lemma {:induction false} FirstRows(g: Guard, bs: seq<Written>, i: nat)
    requires i < |bs| && Rows(bs) < U32
    ensures EntryOf(g, bs, i).firstRowid == Rows(bs[..i])
  {
    RowsGrow(bs, i, |bs|);
    assert bs[..|bs|] == bs;
  }

  /** Finds the one block that holds a row, empty blocks or not. */
  method BlockOfRow(indexes: seq<Entry>, row: nat, ghost g: Guard, ghost bs: seq<Written>) returns (block: nat)
    requires IsIndex(indexes, g, bs) && Rows(bs) < U32 && row < Rows(bs)
    ensures block < |bs| && InBlock(bs, block, row)
    ensures indexes[block].firstRowid <= row < indexes[block].firstRowid + indexes[block].rowCount
  {
    hide EntryOf, Rows;
    forall i, j | 0 <= i <= j < |indexes| ensures indexes[i].firstRowid <= indexes[j].firstRowid {
      FirstRows(g, bs, i);
      FirstRows(g, bs, j);
      RowsGrow(bs, i, j);
    }
    var pp := PartitionPoint(indexes, row);
    NotBeforeFirst(g, bs);
    Found(indexes, g, bs, row, pp);
    block := pp - 1;
    EntryHolds(g, bs, block, row);
  }

  lemma {:induction false} EntryHolds(g: Guard, bs: seq<Written>, i: nat, row: nat)
    requires i < |bs| && Rows(bs) < U32
    ensures InBlock(bs, i, row) <==> var e := EntryOf(g, bs, i); e.firstRowid <= row < e.firstRowid + e.rowCount
  {
    hide Image;
    FirstRows(g, bs, i);
    UpTo(g, bs, i);
    RowsGrow(bs, i + 1, |bs|);
    assert bs[..|bs|] == bs;
  }

  lemma {:induction false} NotBeforeFirst(g: Guard, bs: seq<Written>)
    requires Rows(bs) > 0
    ensures |bs| > 0 && EntryOf(g, bs, 0).firstRowid == 0
  {
    assert bs[..0] == [];
  }

  lemma {:induction false} Found(indexes: seq<Entry>, g: Guard, bs: seq<Written>, row: nat, pp: nat)
    requires IsIndex(indexes, g, bs) && Rows(bs) < U32 && row < Rows(bs) && pp <= |bs|
    requires forall i :: 0 <= i < pp ==> indexes[i].firstRowid <= row
    requires forall i :: pp <= i < |indexes| ==> indexes[i].firstRowid > row
    ensures pp > 0 && InBlock(bs, pp - 1, row)
  {
    hide EntryOf;
    NotBeforeFirst(g, bs);
    assert indexes[0] == EntryOf(g, bs, 0);
    FirstRows(g, bs, pp - 1);
    UpTo(g, bs, pp - 1);
    if pp < |bs| {
      FirstRows(g, bs, pp);
    } else {
      assert bs[..pp] == bs;
    }
  }

  // ---- reading a block back ----

  datatype ReadResult = Block(kind: nat, data: seq<Byte>) | Corrupted

  /** Cuts a block out of the column and checks it the way its own header says. */
  function GetBlock(crc: seq<Byte> -> nat, column: seq<Byte>, e: Entry): ReadResult {
    if e.offset + e.length > |column| || e.length < META_SIZE then Corrupted
    else
      var block := column[e.offset..e.offset + e.length];
      var n := |block| - META_SIZE;
      var kind := KindOf(FromBigEndian(block[n + 4..n + 8]));
      if kind.None? then Corrupted
      else if FromBigEndian(block[n + 8..]) != Guard(kind.value, crc).Build(block[..n + 4]) then Corrupted
      else Block(FromBigEndian(block[n..n + 4]), block[..n])
  }

  lemma {:induction false} ImageParts(g: Guard, b: Written)
    requires b.kind < U32
    ensures var image, n := Image(g, b), |b.data|;
            && image[..n] == b.data
            && FromBigEndian(image[n..n + 4]) == b.kind
            && FromBigEndian(image[n + 4..n + 8]) == g.Code()
            && FromBigEndian(image[n + 8..]) == g.Build(image[..n + 4])
  {
    hide BigEndian, FromBigEndian;
    var typed := b.data + BigEndian(b.kind, 4);
    var code, sum := BigEndian(g.Code(), 4), BigEndian(g.Build(typed), 8);
    Caps();
    BigEndianRoundTrip(b.kind, 4);
    BigEndianRoundTrip(g.Code(), 4);
    BigEndianRoundTrip(g.Build(typed), 8);
    Slices(b.data, BigEndian(b.kind, 4), code, sum);
  }

  lemma {:induction false} Slices(data: seq<Byte>, kind: seq<Byte>, code: seq<Byte>, sum: seq<Byte>)
    requires |kind| == 4 && |code| == 4 && |sum| == 8
    ensures var image, n := data + kind + code + sum, |data|;
            && image[..n] == data && image[n..n + 4] == kind && image[n + 4..n + 8] == code
            && image[n + 8..] == sum && image[..n + 4] == data + kind
  {}

  lemma {:induction false} CutOut(g: Guard, bs: seq<Written>, i: nat)
    requires i < |bs|
    ensures var from := |Column(g, bs[..i])|;
            from + |Image(g, bs[i])| <= |Column(g, bs)| && Column(g, bs)[from..from + |Image(g, bs[i])|] ==
                Image(g, bs[i])
  {
    hide Image, Flatten;
    var a, b := Images(g, bs[..i]), Images(g, bs[i + 1..]);
    assert Images(g, bs) == (a + [Image(g, bs[i])]) + b;
    FlattenAppend(a + [Image(g, bs[i])], b);
    FlattenSnoc(a, Image(g, bs[i]));
  }

  /** Cutting the column at an entry yields the block that was written there, and its
      checksum matches. */
  lemma {:induction false} BlockReadBack(g: Guard, bs: seq<Written>, i: nat)
    requires i < |bs| && bs[i].kind < U32
    ensures GetBlock(g.crc, Column(g, bs), EntryOf(g, bs, i)) == Block(bs[i].kind, bs[i].data)
  {
    hide Image, Column, BigEndian, FromBigEndian;
    CutOut(g, bs, i);
    ImageParts(g, bs[i]);
  }
}
