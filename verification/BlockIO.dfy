/** The stateful builder and cursor over plain and nullable blocks. */
module BlockIO {
  import opened Common
  import opened Bytes
  import opened Blocks

  /** An array under construction: value slots beside validity bits. */
  class ArrayBuilder<T(!new)> {
    const zero: T
    var slots: seq<T>
    var valid: seq<bool>

    constructor (zero: T)
      ensures this.zero == zero && slots == [] && valid == []
    {
      this.zero := zero;
      slots := [];
      valid := [];
    }

    ghost predicate Aligned()
      reads this
    {
      |slots| == |valid|
    }

    /** The items of the array that finishing would give. */
    function Contents(): (r: seq<Option<T>>)
      requires Aligned()
      reads this
    {
      Zip(slots, valid)
    }

    method Push(x: Option<T>)
      requires Aligned()
      modifies this
      ensures Aligned() && Contents() == old(Contents()) + [x]
      ensures slots == old(slots) + [if x.Some? then x.value else zero] && valid == old(valid) + [x.Some?]
    {
      valid := valid + [x.Some?];
      slots := slots + [if x.Some? then x.value else zero];
    }

    /** Replaces every validity bit, those of earlier items too. */
    method ReplaceBitmap(bits: seq<bool>)
      modifies this`valid
      ensures valid == bits
    {
      valid := bits;
    }
  }

  class BlockBuilder<T(!new)> {
    const layout: Layout<T>
    const nullable: bool
    var data: seq<Byte>
    var offsets: seq<nat>
    var bitmap: seq<bool>
    /** The items appended so far. */
    ghost var items: seq<Option<T>>

    constructor (layout: Layout<T>, nullable: bool)
      ensures Valid() && items == [] && this.layout == layout && this.nullable == nullable
    {
      this.layout, this.nullable := layout, nullable;
      data, offsets, bitmap, items := [], [], [], [];
    }

    ghost predicate Valid()
      reads this
    {
      && data == Flatten(Pieces(layout, items))
      && offsets == (if layout.Blob? then Ends(Pieces(layout, items)) else [])
      && bitmap == (if nullable then Flags(items) else [])
    }

    method Append(item: Option<T>)
      requires Valid()
      modifies this
      ensures Valid() && items == old(items) + [item]
    {
      data := data + Piece(layout, item);
      if layout.Blob? {
        offsets := offsets + [|data| % U32];
      }
      if nullable {
        bitmap := bitmap + [item.Some?];
      }
      items := items + [item];
      PiecesSnoc(layout, old(items), item);
    }

    method Finish() returns (b: seq<Byte>)
      requires Valid()
      ensures b == BlockOf(layout, nullable, items)
    {
      b := [];
      if layout.Blob? {
        for i := 0 to |offsets|
          invariant b == Table(offsets[..i])
        {
          b := b + PutU32(offsets[i]);
          assert offsets[..i + 1][..i] == offsets[..i];
        }
        assert offsets[..|offsets|] == offsets;
      }
      b := b + data;
      if nullable {
        var raw := PackBits(bitmap);
        b := b + raw + PutU32(|raw|);
      }
    }
  }

  lemma {:induction false} PiecesSnoc<T>(l: Layout<T>, items: seq<Option<T>>, item: Option<T>)
    ensures var was, now := Pieces(l, items), Pieces(l, items + [item]);
            Flatten(now) == Flatten(was) + Piece(l, item) && Ends(now) == Ends(was) + [|Flatten(now)| % U32]
    ensures Flags(items + [item]) == Flags(items) + [item.Some?]
  {
    var was, now := Pieces(l, items), Pieces(l, items + [item]);
    assert now == was + [Piece(l, item)];
    FlattenSnoc(was, Piece(l, item));
    EndsSnoc(was, Piece(l, item));
  }

  lemma {:induction false} EndsSnoc(ps: seq<seq<Byte>>, p: seq<Byte>)
    ensures Ends(ps + [p]) == Ends(ps) + [|Flatten(ps + [p])| % U32]
  {
    var qs := ps + [p];
    forall i | 0 <= i < |ps| ensures Ends(qs)[i] == Ends(ps)[i] {
      assert qs[..i + 1] == ps[..i + 1];
    }
    assert qs[..|ps| + 1] == qs;
  }

  /** How many rows a batch of at most `expected` rows takes when `left` are left. */
  function BatchSize(expected: Option<nat>, left: nat): nat {
    if expected.Some? then Least(expected.value, left) else left
  }

  /** A batch has as many rows as are left, or as many as are asked for if that is less. */
  lemma {:induction false} BatchSizeIs(expected: Option<nat>, left: nat)
    ensures var n := BatchSize(expected, left);
            n <= left && (expected.Some? ==> n <= expected.value) && (n == left || expected == Some(n))
  {}

  /** A cursor over a plain block, or over a nullable one when it has a bitmap. */
  class BlockReader<T(!new)> {
    const layout: Layout<T>
    const block: seq<Byte>
    const bitmap: Option<seq<Byte>>
    const rowCount: nat
    var nextRow: nat
    var curRow: nat

    constructor (layout: Layout<T>, block: seq<Byte>, bitmap: Option<seq<Byte>>, rowCount: nat)
      requires AllReadable(layout, block, bitmap, rowCount)
      ensures Valid() && nextRow == 0
      ensures this.layout == layout && this.block == block && this.bitmap == bitmap && this.rowCount == rowCount
    {
      this.layout, this.block, this.bitmap, this.rowCount := layout, block, bitmap, rowCount;
      nextRow, curRow := 0, 0;
    }

    ghost predicate Valid()
      reads this
    {
      && AllReadable(layout, block, bitmap, rowCount)
      && nextRow == curRow <= rowCount
    }

    ghost function Items(): seq<Option<T>>
      requires AllReadable(layout, block, bitmap, rowCount)
    {
      ItemsOf(layout, block, bitmap, rowCount)
    }

    /** Pushes the raw values of the next rows, all of them as non-null. */
    method NextBatchNonNull(expected: Option<nat>, builder: ArrayBuilder<T>) returns (cnt: nat)
      requires Valid() && (expected.Some? && nextRow < rowCount ==> expected.value > 0)
      modifies this`nextRow, builder
      ensures cnt == BatchSize(expected, rowCount - old(nextRow)) && nextRow == old(nextRow) + cnt
      ensures builder.slots == old(builder.slots) + Raws(layout, block, bitmap, rowCount)[old(nextRow)..nextRow]
      ensures builder.valid == old(builder.valid) + Repeat(true, cnt)
    {
      cnt := 0;
      ghost var raws := Raws(layout, block, bitmap, rowCount);
      while (expected.Some? ==> cnt < expected.value) && nextRow < rowCount
        invariant cnt <= BatchSize(expected, rowCount - old(nextRow)) && nextRow == old(nextRow) + cnt <= rowCount
        invariant builder.slots == old(builder.slots) + raws[old(nextRow)..nextRow]
        invariant builder.valid == old(builder.valid) + Repeat(true, cnt)
        decreases rowCount - nextRow
      {
        builder.slots := builder.slots + [RawAt(layout, block, rowCount, nextRow)];
        builder.valid := builder.valid + [true];
        RepeatSnoc(true, cnt);
        SliceSnoc(old(builder.slots), raws, old(nextRow), nextRow);
        cnt := cnt + 1;
        nextRow := nextRow + 1;
      }
    }

    method BitsFrom(row: nat, cnt: nat) returns (bits: seq<bool>)
      requires AllReadable(layout, block, bitmap, rowCount) && bitmap.Some? && row + cnt <= rowCount
      ensures bits == Valids(layout, block, bitmap, rowCount)[row..row + cnt]
    {
      bits := [];
      ghost var valids := Valids(layout, block, bitmap, rowCount);
      for i := row to row + cnt
        invariant bits == valids[row..i]
      {
        SliceSnoc([], valids, row, i);
        bits := bits + [BitAt(bitmap.value, i)];
      }
    }

    /** The next rows.  Over a nullable block the bits replace the builder's whole
        bitmap, whatever it held before. */
    method NextBatch(expected: Option<nat>, builder: ArrayBuilder<T>) returns (cnt: nat)
      requires Valid() && (expected.Some? && nextRow < rowCount ==> expected.value > 0)
      modifies this, builder
      ensures Valid()
      ensures cnt == BatchSize(expected, rowCount - old(nextRow)) && nextRow == old(nextRow) + cnt
      ensures builder.slots == old(builder.slots) + Raws(layout, block, bitmap, rowCount)[old(nextRow)..nextRow]
      ensures var valids := Valids(layout, block, bitmap, rowCount)[old(nextRow)..nextRow];
              builder.valid == if bitmap.Some? then valids else old(builder.valid) + valids
    {
      cnt := NextBatchNonNull(expected, builder);
      if bitmap.Some? {
        var bits := BitsFrom(curRow, cnt);
        builder.ReplaceBitmap(bits);
      }
      curRow := curRow + cnt;
    }

    method Skip(cnt: nat)
      requires Valid() && cnt <= rowCount - nextRow
      modifies this
      ensures Valid() && nextRow == old(nextRow) + cnt
    {
      nextRow := nextRow + cnt;
      curRow := curRow + cnt;
    }

    function RemainingItems(): nat
      requires Valid()
      reads this
    {
      rowCount - nextRow
    }
  }

  lemma {:induction false} ZipSlice<T>(slots: seq<T>, valid: seq<bool>, from: nat, to: nat)
    requires |slots| == |valid| && from <= to <= |slots|
    ensures Zip(slots, valid)[from..to] == Zip(slots[from..to], valid[from..to])
  {}

  lemma {:induction false} ZipAppend<T>(a: seq<T>, va: seq<bool>, b: seq<T>, vb: seq<bool>)
    requires |a| == |va| && |b| == |vb|
    ensures Zip(a + b, va + vb) == Zip(a, va) + Zip(b, vb)
  {}

  /** A batch read into a builder lands behind what the builder held if and only if the
      block has no bitmap or the builder was empty: otherwise the replaced bitmap is too
      short for the slots. */
  method ReadInto<T(!new)>(r: BlockReader<T>, expected: Option<nat>, builder: ArrayBuilder<T>) returns (cnt: nat)
    requires r.Valid() && builder.Aligned() && (expected.Some? && r.nextRow < r.rowCount ==> expected.value > 0)
    modifies r, builder
    ensures r.Valid() && r.nextRow == old(r.nextRow) + cnt && cnt == BatchSize(expected, r.rowCount - old(r.nextRow))
    ensures builder.Aligned() <==> (r.bitmap.None? || old(builder.slots) == [])
    ensures builder.Aligned() ==> builder.Contents() == old(builder.Contents()) + r.Items()[old(r.nextRow)..r.nextRow]
  {
    ghost var raws := Raws(r.layout, r.block, r.bitmap, r.rowCount);
    ghost var valids := Valids(r.layout, r.block, r.bitmap, r.rowCount);
    ghost var slots, valid, at := builder.slots, builder.valid, r.nextRow;
    cnt := r.NextBatch(expected, builder);
    hide Raws, Valids, AllReadable;
    ZipSlice(raws, valids, at, r.nextRow);
    if r.bitmap.None? || slots == [] {
      ZipAppend(slots, valid, raws[at..r.nextRow], valids[at..r.nextRow]);
      assert builder.valid == valid + valids[at..r.nextRow];
    }
  }

  /** Two rows of any nullable block, read one by one into a new builder: two values and one bit. */
  method ReadTwice<T(!new)>(r: BlockReader<T>, zero: T) returns (builder: ArrayBuilder<T>)
    requires r.Valid() && r.bitmap.Some? && r.nextRow + 2 <= r.rowCount
    modifies r
    ensures fresh(builder) && |builder.slots| == 2 && |builder.valid| == 1
  {
    builder := new ArrayBuilder(zero);
    var first := r.NextBatch(Some(1), builder);
    var second := r.NextBatch(Some(1), builder);
  }
}
