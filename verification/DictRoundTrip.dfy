/** From items to bytes and back through a dictionary block. */
module DictRoundTrip {
  import opened Common
  import opened Bytes
  import opened Varints
  import opened Blocks
  import opened BlockIO
  import opened Runs
  import opened RleRoundTrip
  import opened Dictionaries

  /** Two lists repeat themselves at the same places. */
  ghost predicate SamePattern<A(!new), B(!new)>(a: seq<A>, b: seq<B>) {
    |a| == |b| && forall i, j :: 0 <= i < |a| && 0 <= j < |a| ==> (a[i] == a[j] <==> b[i] == b[j])
  }

  lemma {:induction false} SamePatternCounts<A(!new), B(!new)>(a: seq<A>, b: seq<B>)
    requires SamePattern(a, b)
    ensures RunCounts(a) == RunCounts(b)
  {
    if |a| > 1 {
      SamePatternCounts(a[..|a| - 1], b[..|b| - 1]);
    }
  }

  lemma {:induction false} SamePatternRuns<A(!new), B(!new)>(a: seq<A>, b: seq<B>)
    requires SamePattern(a, b)
    ensures HasLongRun(a) <==> HasLongRun(b)
  {
    LongRunIff(a);
    LongRunIff(b);
    SamePatternCounts(a, b);
  }

  lemma {:induction false} CodesRepeatAsItems<T(!new)>(keys: seq<T>, items: seq<Option<T>>, codes: seq<Option<I32>>)
    requires Distinct(keys) && Coded(keys, items, codes)
    ensures SamePattern(items, codes)
  {
    forall i, j | 0 <= i < |items| && 0 <= j < |items| ensures items[i] == items[j] <==> codes[i] == codes[j] {
      CodesTellItemsApart(keys, items[i], items[j], codes[i].value, codes[j].value);
    }
  }

  /** The keys and the codes fit their blocks and the 32-bit fields. */
  ghost predicate DictEncodable<T(!new)>(l: Layout<T>, nullable: bool, items: seq<Option<T>>) {
    && Storable(l, nullable, Somes(KeysOf(items)))
    && |KeysOf(items)| < 0xFFFF_FFFF
    && |EncodeAll(RunCounts(items))| < U32
  }

  lemma {:induction false} HeadsAreItems<T(!new)>(items: seq<T>)
    ensures forall i :: 0 <= i < |RunHeads(items)| ==> RunHeads(items)[i] in items
  {
    if |items| > 1 {
      HeadsAreItems(items[..|items| - 1]);
    }
  }

  lemma {:induction false} CodesEncodable<T(!new)>(keys: seq<T>, items: seq<Option<T>>, codes: seq<Option<I32>>)
    requires Distinct(keys) && Coded(keys, items, codes) && |EncodeAll(RunCounts(items))| < U32
    ensures Encodable(I32Layout(), false, codes)
  {
    I32Faithful();
    CodesRepeatAsItems(keys, items, codes);
    SamePatternCounts(items, codes);
    HeadsAreItems(codes);
  }

  lemma {:induction false} CodesFit(codes: seq<Option<I32>>)
    requires Encodable(I32Layout(), false, codes)
    ensures |RleBlockOf(I32Layout(), false, codes)| < U64
  {
    var heads := RunHeads(codes);
    var pieces := Pieces(I32Layout(), heads);
    EncodedAtLeast(RunCounts(codes));
    EvenPieces(pieces, 4);
    assert |BlockOf(I32Layout(), false, heads)| == 4 * |heads|;
  }

  lemma {:induction false} DictPartsBack<T(!new)>(l: Layout<T>, nullable: bool, keys: seq<T>, codes: seq<Option<I32>>)
    requires |keys| < U32 && Encodable(I32Layout(), false, codes)
    ensures DecodeDict(DictBlockOf(l, nullable, keys, codes)) ==
            Some((|keys|, BlockOf(l, nullable, Somes(keys)), RleBlockOf(I32Layout(), false, codes)))
  {
    hide RleBlockOf, BlockOf, BigEndian;
    CodesFit(codes);
    DictParts(|keys|, RleBlockOf(I32Layout(), false, codes), BlockOf(l, nullable, Somes(keys)));
  }

  lemma {:induction false} InverseSnoc<T(!new)>(dict: map<I32, T>, keys: seq<T>, v: T)
    requires Inverse(dict, keys) && |keys| + 1 < 0xFFFF_FFFF
    ensures Inverse(dict[CodeAt(|keys|) := v], keys + [v])
  {
    var next, now := dict[CodeAt(|keys|) := v], keys + [v];
    forall i: nat | i < |now| ensures CodeAt(i) in next && next[CodeAt(i)] == now[i] {
      assert i < |keys| ==> now[i] == keys[i];
    }
  }

  /** Numbers the keys that were read, from just above the null code. */
  method LoadKeys<T(!new)>(items: seq<Option<T>>, ghost keys: seq<T>) returns (dict: map<I32, T>)
    requires items == Somes(keys) && |keys| < 0xFFFF_FFFF
    ensures Inverse(dict, keys)
  {
    dict := map[];
    for i := 0 to |items|
      invariant Inverse(dict, keys[..i])
    {
      assert items[i].value == keys[i];
      InverseSnoc(dict, keys[..i], keys[i]);
      assert keys[..i + 1] == keys[..i] + [keys[i]];
      dict := dict[CodeAt(i) := items[i].value];
    }
    assert keys[..|keys|] == keys;
  }

  /** Opens a dictionary block that was built from `items`; it fails exactly when opening
      the run-length block of its codes does. */
  method OpenDict<T(!new)>(l: Layout<T>, nullable: bool, data: seq<Byte>, ghost items: seq<Option<T>>,
                           ghost codes: seq<Option<I32>>)
    returns (r: Option<DictReader<T>>)
    requires DictEncodable(l, nullable, items)
    requires Distinct(KeysOf(items)) && Coded(KeysOf(items), items, codes)
    requires data == DictBlockOf(l, nullable, KeysOf(items), codes)
    ensures r.Some? <==> items != [] && !HasLongRun(items)
    ensures r.Some? ==> fresh(r.value) && fresh(r.value.rleIter) && fresh(r.value.rleIter.blockIter)
    ensures r.Some? ==> r.value.Valid() && r.value.Rows() == items && r.value.rleIter.rowScannedCount == 0
  {
    hide KeysOf, RunCounts, RunHeads, Expand, DictBlockOf, BlockOf, RleBlockOf, DecodeDict, DecodeNullable;
    ghost var keys := KeysOf(items);
    CodesEncodable(keys, items, codes);
    DictPartsBack(l, nullable, keys, codes);
    BlockRoundTrip(l, nullable, Somes(keys));
    CodesRepeatAsItems(keys, items, codes);
    SamePatternRuns(items, codes);
    var (count, keyBlock, rleBlock) := DecodeDict(data).value;
    var dict := ReadKeys(l, nullable, keyBlock, count, keys);
    var rleIter := Open(I32Layout(), false, rleBlock, codes);
    if rleIter.None? {
      return None;
    }
    DecodedBack(dict, keys, items, codes);
    var reader := new DictReader(rleIter.value, dict, DefaultOf(l));
    return Some(reader);
  }

  method ReadKeys<T(!new)>(l: Layout<T>, nullable: bool, keyBlock: seq<Byte>, count: nat, ghost keys: seq<T>)
    returns (dict: map<I32, T>)
    requires Storable(l, nullable, Somes(keys)) && count == |keys| < 0xFFFF_FFFF
    requires keyBlock == BlockOf(l, nullable, Somes(keys))
    ensures Inverse(dict, keys)
  {
    hide BlockOf, DecodeNullable;
    BlockRoundTrip(l, nullable, Somes(keys));
    var parts := Parts(keyBlock, nullable);
    var dictIter := new BlockReader(l, parts.value.0, parts.value.1, count);
    var builder := new ArrayBuilder(DefaultOf(l));
    var cnt := ReadInto(dictIter, Some(count), builder);
    assert builder.Contents() == Somes(keys);
    dict := LoadKeys(builder.Contents(), keys);
  }

  method BuildDict<T(==,!new)>(l: Layout<T>, nullable: bool, items: seq<Option<T>>)
    returns (data: seq<Byte>, ghost codes: seq<Option<I32>>)
    requires |KeysOf(items)| < 0xFFFF_FFFF
    ensures Distinct(KeysOf(items)) && Coded(KeysOf(items), items, codes)
    ensures data == DictBlockOf(l, nullable, KeysOf(items), codes)
  {
    hide KeysOf, RunCounts, RunHeads, DictBlockOf, Flatten;
    var inner := new BlockBuilder(l, nullable);
    var builder := new DictBuilder(inner);
    assert builder.items + items == items;
    AppendItems(builder, items);
    assert builder.items == items;
    codes := builder.rleBuilder.items;
    data := builder.Finish();
  }

  lemma {:induction false} KeysGrow<T>(items: seq<Option<T>>, more: seq<Option<T>>)
    ensures KeysOf(items) <= KeysOf(items + more)
    decreases |more|
  {
    if more == [] {
      assert items + more == items;
    } else {
      KeysSnoc(items, more[0]);
      KeysGrow(items + [more[0]], more[1..]);
      SplitFirst(items, more);
    }
  }

  method AppendItems<T(==,!new)>(builder: DictBuilder<T>, items: seq<Option<T>>)
    requires builder.Valid() && |KeysOf(builder.items + items)| < 0xFFFF_FFFF
    modifies builder, builder.dataBuilder, builder.rleBuilder, builder.rleBuilder.inner
    ensures builder.Valid() && builder.items == old(builder.items) + items
    decreases |items|
  {
    hide KeysOf, RunCounts, RunHeads, Flatten;
    if items != [] {
      SplitFirst(builder.items, items);
      KeysSnoc(builder.items, items[0]);
      KeysGrow(builder.items + [items[0]], items[1..]);
      builder.Append(items[0]);
      AppendItems(builder, items[1..]);
    }
  }

  method DoDict<T(!new)>(reader: DictReader<T>, call: Call) returns (answer: seq<Option<T>>)
    requires reader.Valid() && LegalCall(reader.rleIter.rowCount - reader.rleIter.rowScannedCount, call)
    modifies reader.rleIter, reader.rleIter.blockIter
    ensures reader.Valid()
    ensures var at, next := old(reader.rleIter.rowScannedCount), reader.rleIter.rowScannedCount;
            && next == at + Step(call, reader.rleIter.rowCount - at)
            && answer == if call.Read? then reader.Rows()[at..next] else []
  {
    hide Expand, Decoded, ItemsOf, Total;
    match call {
      case Read(size) =>
        var builder := new ArrayBuilder(reader.zero);
        var cnt := reader.NextBatch(size, builder);
        answer := builder.Contents();
      case Jump(n) =>
        assert reader.rleIter.rleBlock[..reader.rleIter.rleRowCount] == reader.rleIter.rleBlock;
        reader.Skip(n);
        answer := [];
    }
  }

  /** The cursor of a dictionary block answers any legal series of calls. */
  method DoAllDict<T(!new)>(reader: DictReader<T>, calls: seq<Call>) returns (answers: seq<seq<Option<T>>>)
    requires reader.Valid() && Legal(reader.rleIter.rowCount - reader.rleIter.rowScannedCount, calls)
    modifies reader.rleIter, reader.rleIter.blockIter
    ensures reader.Valid()
    ensures answers == Answers(reader.Rows()[old(reader.rleIter.rowScannedCount)..], calls)
    decreases |calls|
  {
    hide Expand, Decoded, ItemsOf, Total;
    if calls == [] {
      return [];
    }
    ghost var rows, at := reader.Rows(), reader.rleIter.rowScannedCount;
    var answer := DoDict(reader, calls[0]);
    AnswersStep(rows, at, reader.rleIter.rowScannedCount, calls);
    var rest := DoAllDict(reader, calls[1..]);
    return [answer] + rest;
  }

  /** Dictionary blocks return exactly what was put into them, for every way of mixing
      batches and skips, unless the input is empty or repeats one item too often in a row. */
  method DictRoundTrip<T(==,!new)>(l: Layout<T>, nullable: bool, items: seq<Option<T>>, calls: seq<Call>)
    returns (answers: Option<seq<seq<Option<T>>>>)
    requires DictEncodable(l, nullable, items) && Legal(|items|, calls)
    ensures answers.Some? <==> items != [] && !HasLongRun(items)
    ensures answers.Some? ==> answers.value == Answers(items, calls)
  {
    hide KeysOf, RunCounts, DictBlockOf, Expand, Decoded, ItemsOf;
    var data, codes := BuildDict(l, nullable, items);
    var found := OpenDict(l, nullable, data, items, codes);
    if found.None? {
      return None;
    }
    var got := DoAllDict(found.value, calls);
    assert items[0..] == items;
    return Some(got);
  }
}
