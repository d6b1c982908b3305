/** From items to bytes and back through a run-length block, for every way of mixing
    batches and skips. */
module RleRoundTrip {
  import opened Common
  import opened Bytes
  import opened Varints
  import opened Blocks
  import opened BlockIO
  import opened Runs
  import opened Rle

  /** One call on a block cursor. */
  datatype Call = Read(size: Option<nat>) | Jump(rows: nat)

  /** How far a call moves a cursor that has `left` rows left. */
  function Step(call: Call, left: nat): nat {
    match call
    case Read(size) => BatchSize(size, left)
    case Jump(n) => n
  }

  /** Batches ask for at least one row and skips stay within the rows left. */
  predicate LegalCall(left: nat, call: Call) {
    match call
    case Read(size) => size.Some? ==> size.value > 0
    case Jump(n) => n <= left
  }

  predicate Legal(left: nat, calls: seq<Call>) {
    calls == [] || (LegalCall(left, calls[0]) && Legal(left - Step(calls[0], left), calls[1..]))
  }

  /** What each call has to return when these rows are left: a batch the rows it passes,
      a skip nothing. */
  function Answers<T>(rows: seq<T>, calls: seq<Call>): (r: seq<seq<T>>)
    requires Legal(|rows|, calls)
    decreases |calls|
    ensures |r| == |calls|
  {
    if calls == [] then []
    else
      var n := Step(calls[0], |rows|);
      [if calls[0].Read? then rows[..n] else []] + Answers(rows[n..], calls[1..])
  }

  function DefaultOf<T>(l: Layout<T>): T {
    match l
    case FixedWidth(_, _, _, zero) => zero
    case Blob(_, from) => from([])
  }

  /** The runs fit their block and the 32-bit length fields. */
  ghost predicate Encodable<T(!new)>(l: Layout<T>, nullable: bool, items: seq<Option<T>>) {
    Storable(l, nullable, RunHeads(items)) && |EncodeAll(RunCounts(items))| < U32
  }

  /** The three parts of an encoded block are found again. */
  lemma {:induction false} RlePartsBack<T(!new)>(l: Layout<T>, nullable: bool, items: seq<Option<T>>)
    requires items != [] && Encodable(l, nullable, items)
    ensures DecodeRle(RleBlockOf(l, nullable, items)) ==
            Some((|RunCounts(items)|, EncodeAll(RunCounts(items)), BlockOf(l, nullable, RunHeads(items))))
  {
    var counts := RunCounts(items);
    EncodedAtLeast(counts);
    RleParts(|counts|, EncodeAll(counts), BlockOf(l, nullable, RunHeads(items)));
  }

  lemma {:induction false} CountsBack<T(!new)>(items: seq<T>)
    requires items != []
    ensures EncodeAll(RunCounts(items)) != []
    ensures DecodeAll(EncodeAll(RunCounts(items))) == if HasLongRun(items) then None else Some(RunCounts(items))
  {
    var counts := RunCounts(items);
    RunsTight(items);
    EncodedAtLeast(counts);
    ListRoundTripIff(counts);
    LongRunIff(items);
  }

  /** Opens a block that was built from `items`: it fails exactly when there was nothing
      to build from or when some item repeats too often in a row. */
  method Open<T(!new)>(l: Layout<T>, nullable: bool, data: seq<Byte>, ghost items: seq<Option<T>>)
    returns (r: Option<RleReader<T>>)
    requires Encodable(l, nullable, items) && data == RleBlockOf(l, nullable, items)
    ensures r.Some? <==> items != [] && !HasLongRun(items)
    ensures r.Some? ==> fresh(r.value) && fresh(r.value.blockIter)
    ensures r.Some? ==> r.value.Valid() && r.value.Rows() == items && r.value.rowScannedCount == 0
  {
    var split := DecodeRle(data);
    if split.None? {
      if items != [] {
        RlePartsBack(l, nullable, items);
      }
      return None;
    }
    assert items != [];
    RlePartsBack(l, nullable, items);
    CountsBack(items);
    BlockRoundTrip(l, nullable, RunHeads(items));
    var (runs, counts, inner) := split.value;
    var parts := Parts(inner, nullable);
    var rleBlock := Decode(counts);
    if rleBlock.None? {
      return None;
    }
    RunsExpand(items);
    var blockIter := new BlockReader(l, parts.value.0, parts.value.1, runs);
    var reader := new RleReader(blockIter, rleBlock.value, runs, DefaultOf(l));
    return Some(reader);
  }

  lemma {:induction false} SplitFirst<T>(before: seq<T>, items: seq<T>)
    requires items != []
    ensures before + items == before + [items[0]] + items[1..]
  {}

  method AppendAll<T(==,!new)>(builder: RleBuilder<T>, items: seq<Option<T>>)
    requires builder.Valid()
    modifies builder, builder.inner
    ensures builder.Valid() && builder.items == old(builder.items) + items
    decreases |items|
  {
    if items != [] {
      SplitFirst(builder.items, items);
      builder.Append(items[0]);
      AppendAll(builder, items[1..]);
    }
  }

  method Build<T(==,!new)>(l: Layout<T>, nullable: bool, items: seq<Option<T>>) returns (data: seq<Byte>)
    ensures data == RleBlockOf(l, nullable, items)
  {
    var inner := new BlockBuilder(l, nullable);
    var builder := new RleBuilder(inner);
    AppendAll(builder, items);
    assert builder.items == items;
    data := builder.Finish();
  }

  method Do<T(!new)>(reader: RleReader<T>, call: Call) returns (answer: seq<Option<T>>)
    requires reader.Valid() && LegalCall(reader.rowCount - reader.rowScannedCount, call)
    modifies reader, reader.blockIter
    ensures reader.Valid()
    ensures reader.rowScannedCount == old(reader.rowScannedCount) +
            Step(call, reader.rowCount - old(reader.rowScannedCount))
    ensures answer == if call.Read? then reader.Rows()[old(reader.rowScannedCount)..reader.rowScannedCount] else []
  {
    match call {
      case Read(size) =>
        var builder := new ArrayBuilder(reader.zero);
        var cnt := reader.NextBatch(size, builder);
        answer := builder.Contents();
      case Jump(n) =>
        assert reader.rleBlock[..reader.rleRowCount] == reader.rleBlock;
        reader.Skip(n);
        answer := [];
    }
  }

  lemma {:induction false} AnswersStep<T>(rows: seq<T>, at: nat, next: nat, calls: seq<Call>)
    requires at <= |rows| && Legal(|rows| - at, calls) && calls != [] && next == at + Step(calls[0], |rows| - at)
    ensures at <= next <= |rows| && Legal(|rows| - next, calls[1..])
    ensures Answers(rows[at..], calls) == [if calls[0].Read? then rows[at..next] else []] +
            Answers(rows[next..], calls[1..])
  {
    assert rows[at..][next - at..] == rows[next..] && rows[at..][..next - at] == rows[at..next];
  }

  /** The cursor answers any legal series of calls with the matching slices of its rows. */
  method DoAll<T(!new)>(reader: RleReader<T>, calls: seq<Call>) returns (answers: seq<seq<Option<T>>>)
    requires reader.Valid() && Legal(reader.rowCount - reader.rowScannedCount, calls)
    modifies reader, reader.blockIter
    ensures reader.Valid()
    ensures answers == Answers(reader.Rows()[old(reader.rowScannedCount)..], calls)
    decreases |calls|
  {
    if calls == [] {
      return [];
    }
    ghost var rows, at := reader.Rows(), reader.rowScannedCount;
    var answer := Do(reader, calls[0]);
    AnswersStep(rows, at, reader.rowScannedCount, calls);
    var rest := DoAll(reader, calls[1..]);
    return [answer] + rest;
  }

  /** Building a block, opening it and calling its cursor in any legal way returns exactly
      the matching slices of the input — unless the input is empty or repeats one item
      2^32 - 2^28 times in a row, and then opening fails. */
  method RoundTrip<T(==,!new)>(l: Layout<T>, nullable: bool, items: seq<Option<T>>, calls: seq<Call>)
    returns (answers: Option<seq<seq<Option<T>>>>)
    requires Encodable(l, nullable, items) && Legal(|items|, calls)
    ensures answers.Some? <==> items != [] && !HasLongRun(items)
    ensures answers.Some? ==> answers.value == Answers(items, calls)
  {
    var data := Build(l, nullable, items);
    var found := Open(l, nullable, data, items);
    if found.None? {
      return None;
    }
    var got := DoAll(found.value, calls);
    assert items[0..] == items;
    return Some(got);
  }
}
