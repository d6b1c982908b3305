/** Dictionary blocks: the distinct values once, and run-length encoded codes for the rows. */
module Dictionaries {
  import opened Common
  import opened Bytes
  import opened Blocks
  import opened BlockIO
  import opened Runs
  import opened Rle

  type I32 = x: int | -0x8000_0000 <= x < 0x8000_0000

  const NULL_CODE: I32 := -0x8000_0000

  function EncodeI32(x: I32): seq<Byte> {
    PutU32(x % U32)
  }

  function DecodeI32(b: seq<Byte>): I32 {
    var n := FromLittleEndian(b) % U32;
    if n < 0x8000_0000 then n else n - U32
  }

  function I32Layout(): Layout<I32> {
    FixedWidth(4, EncodeI32, DecodeI32, 0)
  }

  lemma {:induction false} I32RoundTrip(x: I32)
    ensures DecodeI32(EncodeI32(x)) == x
  {
    hide LittleEndian, FromLittleEndian;
    PutU32RoundTrip(x % U32);
  }

  lemma {:induction false} I32Faithful()
    ensures Faithful(I32Layout())
  {
    hide LittleEndian, FromLittleEndian;
    forall x: I32 ensures |EncodeI32(x)| == 4 && DecodeI32(EncodeI32(x)) == x {
      I32RoundTrip(x);
    }
  }

  // ---- codes ----

  /** The distinct non-null values, in the order of their first appearance. */
  function KeysOf<T(==)>(items: seq<Option<T>>): (keys: seq<T>) {
    if items == [] then []
    else
      var n := |items| - 1;
      var before := KeysOf(items[..n]);
      if items[n].Some? && items[n].value !in before then before + [items[n].value] else before
  }

  ghost predicate Distinct<T(!new)>(keys: seq<T>) {
    forall i, j :: 0 <= i < j < |keys| ==> keys[i] != keys[j]
  }

  /** `code` stands for `item` under a dictionary with these keys. */
  ghost predicate Stands<T(!new)>(keys: seq<T>, item: Option<T>, code: I32) {
    if item.None? then code == NULL_CODE
    else
      && 0 <= code - NULL_CODE - 1 < |keys|
      && keys[code - NULL_CODE - 1] == item.value
  }

  ghost predicate Coded<T(!new)>(keys: seq<T>, items: seq<Option<T>>, codes: seq<Option<I32>>) {
    && |codes| == |items|
    && forall i :: 0 <= i < |items| ==> codes[i].Some? && Stands(keys, items[i], codes[i].value)
  }

  /** The dictionary is a bijection between its keys and the codes just above the null
      code. */
  ghost predicate Numbered<T(!new)>(dict: map<T, I32>, keys: seq<T>) {
    && Distinct(keys)
    && (forall v :: v in dict <==> v in keys)
    && (forall i :: 0 <= i < |keys| ==> dict[keys[i]] == NULL_CODE + 1 + i)
  }

  lemma {:induction false} KeysSnoc<T>(items: seq<Option<T>>, item: Option<T>)
    ensures KeysOf(items + [item]) ==
            if item.Some? && item.value !in KeysOf(items) then KeysOf(items) + [item.value] else KeysOf(items)
  {
    assert (items + [item])[..|items|] == items;
  }

  lemma {:induction false} NumberedSnoc<T(!new)>(dict: map<T, I32>, keys: seq<T>, v: T, code: I32)
    requires Numbered(dict, keys) && v !in keys && code == NULL_CODE + 1 + |keys|
    ensures Numbered(dict[v := code], keys + [v])
  {
    var now, next := keys + [v], dict[v := code];
    forall u ensures u in next <==> u in now {
      assert now[|keys|] == v;
    }
  }

  lemma {:induction false} NumberedSize<T(!new)>(dict: map<T, I32>, keys: seq<T>)
    requires Numbered(dict, keys)
    ensures |dict| == |keys|
  {
    if keys == [] {
      assert dict == map[];
    } else {
      var n := |keys| - 1;
      var v := keys[n];
      var less := dict - {v};
      forall u ensures u in less <==> u in keys[..n] {}
      NumberedSize(less, keys[..n]);
      assert dict.Keys == less.Keys + {v};
    }
  }

  lemma {:induction false} CodedSnoc<T(!new)>(keys: seq<T>, more: seq<T>, items: seq<Option<T>>,
                                              codes: seq<Option<I32>>, item: Option<T>, code: I32)
    requires Coded(keys, items, codes) && keys <= more && Stands(more, item, code)
    ensures Coded(more, items + [item], codes + [Some(code)])
  {
    forall i | 0 <= i < |items| ensures Stands(more, items[i], codes[i].value) {
      assert Stands(keys, items[i], codes[i].value);
    }
  }

  /** Two rows get the same code exactly when they hold the same item. */
  lemma {:induction false} CodesTellItemsApart<T(!new)>(keys: seq<T>, a: Option<T>, b: Option<T>, c: I32, d: I32)
    requires Distinct(keys) && Stands(keys, a, c) && Stands(keys, b, d)
    ensures a == b <==> c == d
  {}

  function Somes<T>(vs: seq<T>): (r: seq<Option<T>>)
    ensures |r| == |vs|
  {
    seq(|vs|, i requires 0 <= i < |vs| => Some(vs[i]))
  }

  class DictBuilder<T(==,!new)> {
    var dictMap: map<T, I32>
    const dataBuilder: BlockBuilder<T>
    const rleBuilder: RleBuilder<I32>
    var curIndex: I32
    /** The items appended so far, and their distinct values. */
    ghost var items: seq<Option<T>>
    ghost var keys: seq<T>

    constructor (dataBuilder: BlockBuilder<T>)
      requires dataBuilder.Valid() && dataBuilder.items == []
      ensures Valid() && items == [] && this.dataBuilder == dataBuilder
      ensures fresh(rleBuilder) && fresh(rleBuilder.inner)
    {
      this.dataBuilder := dataBuilder;
      var inner := new BlockBuilder(I32Layout(), false);
      rleBuilder := new RleBuilder(inner);
      dictMap, curIndex, items, keys := map[], NULL_CODE, [], [];
    }

    ghost predicate Valid()
      reads this, dataBuilder, rleBuilder, rleBuilder.inner
    {
      && dataBuilder as object != rleBuilder.inner as object
      && rleBuilder.Valid() && rleBuilder.inner.layout == I32Layout() && !rleBuilder.inner.nullable
      && KnowsKeys()
      && keys == KeysOf(items)
      && Coded(keys, items, rleBuilder.items)
    }

    /** The map numbers the keys, and the data holds them in that order. */
    ghost predicate KnowsKeys()
      reads this, dataBuilder
    {
      && dataBuilder.Valid()
      && Numbered(dictMap, keys)
      && dataBuilder.items == Somes(keys)
      && curIndex == NULL_CODE + |keys|
    }

    /** The code of a non-null value, a new one if it has none yet. */
    method CodeFor(v: T) returns (key: I32)
      requires KnowsKeys() && (v !in dictMap ==> curIndex < 0x7FFF_FFFF)
      modifies this`dictMap, this`curIndex, this`keys, dataBuilder
      ensures KnowsKeys() && Stands(keys, Some(v), key)
      ensures keys == if v in old(keys) then old(keys) else old(keys) + [v]
    {
      if v in dictMap {
        key := dictMap[v];
      } else {
        curIndex := curIndex + 1;
        key := curIndex;
        dataBuilder.Append(Some(v));
        NumberedSnoc(dictMap, keys, v, key);
        dictMap := dictMap[v := key];
        assert Somes(keys + [v]) == Somes(keys) + [Some(v)];
        keys := keys + [v];
      }
    }

    /** Appends an item; the codes are 32 bits wide, so a new value needs one to be left. */
    method Append(item: Option<T>)
      requires Valid()
      requires item.Some? && item.value !in dictMap ==> curIndex < 0x7FFF_FFFF
      modifies this, dataBuilder, rleBuilder, rleBuilder.inner
      ensures Valid() && items == old(items) + [item]
    {
      hide RunCounts, RunHeads, KeysOf, Flatten;
      var key := NULL_CODE;
      ghost var before := keys;
      if item.Some? {
        key := CodeFor(item.value);
      }
      KeysSnoc(items, item);
      CodedSnoc(before, keys, items, rleBuilder.items, item, key);
      rleBuilder.Append(Some(key));
      items := items + [item];
    }

    method Finish() returns (b: seq<Byte>)
      requires Valid()
      modifies rleBuilder
      ensures b == DictBlockOf(dataBuilder.layout, dataBuilder.nullable, keys, old(rleBuilder.items))
    {
      NumberedSize(dictMap, keys);
      var rleBlock := rleBuilder.Finish();
      var data := dataBuilder.Finish();
      b := BigEndian(|rleBlock| % U64, 8) + BigEndian(|dictMap| % U32, 4) + rleBlock + data;
    }
  }

  /** A dictionary block: length of the codes, number of keys, the codes, the keys. */
  function DictBlockOf<T>(l: Layout<T>, nullable: bool, keys: seq<T>, codes: seq<Option<I32>>): seq<Byte> {
    var rle := RleBlockOf(I32Layout(), false, codes);
    BigEndian(|rle| % U64, 8) + BigEndian(|keys| % U32, 4) + rle + BlockOf(l, nullable, Somes(keys))
  }

  /** `decode_dict_block`: the number of keys, their block, and the run-length block of
      the codes.  `None` where slicing the block would fail. */
  function DecodeDict(data: seq<Byte>): (r: Option<(nat, seq<Byte>, seq<Byte>)>) {
    if |data| < 12 then None
    else
      var end := 12 + FromBigEndian(data[..8]);
      if end > |data| then None
      else Some((FromBigEndian(data[8..12]), data[end..], data[12..end]))
  }

  lemma {:induction false} SplitDict(size: seq<Byte>, count: seq<Byte>, rle: seq<Byte>, dict: seq<Byte>)
    requires |size| == 8 && |count| == 4 && FromBigEndian(size) == |rle|
    ensures DecodeDict(size + count + rle + dict) == Some((FromBigEndian(count), dict, rle))
  {
    var data := size + count + rle + dict;
    assert data[..8] == size && data[8..12] == count;
    assert data[12..12 + |rle|] == rle && data[12 + |rle|..] == dict;
  }

  lemma {:induction false} DictParts(keys: nat, rle: seq<Byte>, dict: seq<Byte>)
    requires keys < U32 && |rle| < U64
    ensures DecodeDict(BigEndian(|rle| % U64, 8) + BigEndian(keys % U32, 4) + rle + dict) == Some((keys, dict, rle))
  {
    hide BigEndian, FromBigEndian;
    Caps();
    BigEndianRoundTrip(|rle|, 8);
    BigEndianRoundTrip(keys, 4);
    SplitDict(BigEndian(|rle|, 8), BigEndian(keys, 4), rle, dict);
  }

  /** What a code reads as: the null code as null, an unknown code as null too. */
  function Lookup<T>(dict: map<I32, T>, code: I32): Option<T> {
    if code == NULL_CODE then None else if code in dict then Some(dict[code]) else None
  }

  /** The code map of a reader is the inverse of the builder's. */
  ghost predicate Inverse<T(!new)>(dict: map<I32, T>, keys: seq<T>) {
    && |keys| < 0xFFFF_FFFF
    && forall i: nat :: i < |keys| ==> CodeAt(i) in dict && dict[CodeAt(i)] == keys[i]
  }

  /** The code of the key at this place. */
  function CodeAt(i: nat): I32
    requires i < 0xFFFF_FFFF
  {
    NULL_CODE + 1 + i
  }

  class DictReader<T(!new)> {
    const rleIter: RleReader<I32>
    const dict: map<I32, T>
    const zero: T

    constructor (rleIter: RleReader<I32>, dict: map<I32, T>, zero: T)
      ensures this.rleIter == rleIter && this.dict == dict
    {
      this.rleIter, this.dict, this.zero := rleIter, dict, zero;
    }

    ghost predicate Valid()
      reads this, rleIter, rleIter.blockIter
    {
      && rleIter.Valid()
      && forall i :: 0 <= i < rleIter.rowCount ==> rleIter.Rows()[i].Some?
    }

    ghost function Rows(): (r: seq<Option<T>>)
      requires rleIter.Shape() && forall i :: 0 <= i < rleIter.rowCount ==> rleIter.Rows()[i].Some?
      ensures |r| == rleIter.rowCount
    {
      Decoded(dict, rleIter.Rows())
    }

    method NextBatch(expected: Option<nat>, builder: ArrayBuilder<T>) returns (cnt: nat)
      requires Valid() && builder.Aligned()
      requires expected.Some? && rleIter.curRow < rleIter.rleRowCount ==> expected.value > 0
      modifies rleIter, rleIter.blockIter, builder
      ensures Valid() && builder.Aligned()
      ensures cnt == BatchSize(expected, |Rows()| - old(rleIter.rowScannedCount))
      ensures rleIter.rowScannedCount == old(rleIter.rowScannedCount) + cnt
      ensures builder.Contents() == old(builder.Contents()) +
              Rows()[old(rleIter.rowScannedCount)..rleIter.rowScannedCount]
    {
      hide Expand, Zip, ItemsOf, Decoded, Total;
      var codes := new ArrayBuilder<I32>(0);
      ghost var from := rleIter.rowScannedCount;
      cnt := rleIter.NextBatch(expected, codes);
      DecodedSlice(dict, rleIter.Rows(), from, rleIter.rowScannedCount);
      PushAll(dict, codes.Contents(), builder);
    }

    method Skip(cnt: nat)
      requires Valid() && (cnt > 0 ==> rleIter.curRow < rleIter.rleRowCount)
      modifies rleIter, rleIter.blockIter
      ensures Valid()
      ensures rleIter.rowScannedCount == Least(old(rleIter.rowScannedCount) + cnt, |Rows()|)
    {
      rleIter.Skip(cnt);
    }
  }

  function Decoded<T>(dict: map<I32, T>, codes: seq<Option<I32>>): (r: seq<Option<T>>)
    requires forall i :: 0 <= i < |codes| ==> codes[i].Some?
    ensures |r| == |codes|
  {
    seq(|codes|, i requires 0 <= i < |codes| => Lookup(dict, codes[i].value))
  }

  lemma {:induction false} DecodedSlice<T>(dict: map<I32, T>, codes: seq<Option<I32>>, a: nat, b: nat)
    requires a <= b <= |codes| && forall i :: 0 <= i < |codes| ==> codes[i].Some?
    ensures [] + codes[a..b] == codes[a..b]
    ensures Decoded(dict, codes[a..b]) == Decoded(dict, codes)[a..b]
  {}

  method PushAll<T(!new)>(dict: map<I32, T>, codes: seq<Option<I32>>, builder: ArrayBuilder<T>)
    requires builder.Aligned() && forall i :: 0 <= i < |codes| ==> codes[i].Some?
    modifies builder
    ensures builder.Aligned() && builder.Contents() == old(builder.Contents()) + Decoded(dict, codes)
  {
    ghost var before, items := builder.Contents(), Decoded(dict, codes);
    for i := 0 to |codes|
      invariant builder.Aligned() && builder.Contents() == before + items[0..i]
    {
      SliceSnoc(before, items, 0, i);
      builder.Push(Lookup(dict, codes[i].value));
    }
    assert items[0..|codes|] == items;
  }

  /** Codes decode to the items they stand for. */
  lemma {:induction false} DecodedBack<T(!new)>(dict: map<I32, T>, keys: seq<T>, items: seq<Option<T>>,
                                                codes: seq<Option<I32>>)
    requires Inverse(dict, keys) && Coded(keys, items, codes)
    ensures Decoded(dict, codes) == items
  {
    forall i | 0 <= i < |items| ensures Lookup(dict, codes[i].value) == items[i] {
      assert Stands(keys, items[i], codes[i].value);
      if items[i].Some? {
        var k := codes[i].value - NULL_CODE - 1;
        assert dict[CodeAt(k)] == keys[k];
      }
    }
  }
}
