/** Delete vectors: sorted row ids, applied to visibility bitmaps while a rowset is scanned. */
module DeleteVectors {
  import opened Common
  import opened Versions
  import opened MergeIterators

  ghost predicate Ascending(ids: seq<nat>) {
    forall i, j :: 0 <= i < j < |ids| ==> ids[i] <= ids[j]
  }

  ghost predicate StrictlyAscending(ids: seq<nat>) {
    forall i, j :: 0 <= i < j < |ids| ==> ids[i] < ids[j]
  }

  method InsertId(sorted: seq<nat>, id: nat) returns (out: seq<nat>)
    requires Ascending(sorted)
    ensures Ascending(out) && multiset(out) == multiset(sorted) + multiset{id}
  {
    hide Ascending;
    var k := |sorted|;
    while k > 0 && sorted[k - 1] > id
      invariant 0 <= k <= |sorted|
      invariant forall j :: k <= j < |sorted| ==> sorted[j] > id
    {
      k := k - 1;
    }
    assert sorted == sorted[..k] + sorted[k..];
    out := sorted[..k] + [id] + sorted[k..];
    Inserted(sorted, k, id);
  }

  lemma {:induction false} Inserted(sorted: seq<nat>, k: nat, id: nat)
    requires Ascending(sorted) && k <= |sorted|
    requires k > 0 ==> sorted[k - 1] <= id
    requires forall j :: k <= j < |sorted| ==> sorted[j] > id
    ensures Ascending(sorted[..k] + [id] + sorted[k..])
  {
    var out := sorted[..k] + [id] + sorted[k..];
    forall i, j | 0 <= i < j < |out| ensures out[i] <= out[j] {
      assert i < k ==> out[i] == sorted[i] <= sorted[k - 1];
      assert j > k ==> out[j] == sorted[j - 1];
    }
  }

  method SortIds(ids: seq<nat>) returns (sorted: seq<nat>)
    ensures Ascending(sorted) && multiset(sorted) == multiset(ids) && forall x :: x in sorted <==> x in ids
  {
    hide Ascending;
    sorted := [];
    NoIds();
    for i := 0 to |ids|
      invariant Ascending(sorted) && multiset(sorted) == multiset(ids[..i])
    {
      assert ids[..i + 1] == ids[..i] + [ids[i]];
      sorted := InsertId(sorted, ids[i]);
    }
    assert ids[..|ids|] == ids;
    forall x ensures x in sorted <==> x in ids {
      assert x in multiset(sorted) <==> x in multiset(ids);
    }
  }

  lemma {:induction false} NoIds()
    ensures Ascending([])
  {}

  /** Drops repeated neighbours. */
  method Dedup(ids: seq<nat>) returns (out: seq<nat>)
    requires Ascending(ids)
    ensures StrictlyAscending(out) && forall x :: x in out <==> x in ids
  {
    out := [];
    for i := 0 to |ids|
      invariant StrictlyAscending(out) && forall x :: x in out <==> x in ids[..i]
      invariant |out| > 0 ==> i > 0 && out[|out| - 1] == ids[i - 1]
      invariant i > 0 ==> |out| > 0
    {
      assert ids[..i + 1] == ids[..i] + [ids[i]];
      if |out| == 0 || out[|out| - 1] != ids[i] {
        out := out + [ids[i]];
      }
    }
    assert ids[..|ids|] == ids;
  }

  /** A delete vector from unordered delete records: strictly ascending, same row ids. */
  method NewVector(records: seq<nat>) returns (dv: DeleteVector)
    ensures StrictlyAscending(dv.deletes) && forall x :: x in dv.deletes <==> x in records
  {
    var sorted := SortIds(records);
    var ids := Dedup(sorted);
    dv := DeleteVector(ids);
  }

  /** The first id not below `offset`. */
  method PartitionPoint(ids: seq<nat>, offset: nat) returns (pos: nat)
    requires StrictlyAscending(ids)
    ensures pos <= |ids|
    ensures forall i :: 0 <= i < pos ==> ids[i] < offset
    ensures forall i :: pos <= i < |ids| ==> ids[i] >= offset
  {
    var lo, hi := 0, |ids|;
    while lo < hi
      invariant 0 <= lo <= hi <= |ids|
      invariant forall i :: 0 <= i < lo ==> ids[i] < offset
      invariant forall i :: hi <= i < |ids| ==> ids[i] >= offset
    {
      var mid := (lo + hi) / 2;
      if ids[mid] < offset {
        lo := mid + 1;
      } else {
        hi := mid;
      }
    }
    pos := lo;
  }

  /** Clears the bits of the deleted rows in a bitmap that starts at row `offset`, with one
      pass over both: this needs the ids to be strictly ascending. */
  method ApplyTo(dv: DeleteVector, data: array<bool>, offset: nat)
    requires StrictlyAscending(dv.deletes)
    modifies data
    ensures forall i :: 0 <= i < data.Length ==> data[i] == (old(data[i]) && offset + i !in dv.deletes)
  {
    var ids := dv.deletes;
    var next := PartitionPoint(ids, offset);
    for i := 0 to data.Length
      invariant 0 <= next <= |ids|
      invariant forall k :: 0 <= k < next ==> ids[k] < offset + i
      invariant forall k :: next <= k < |ids| ==> ids[k] >= offset + i
      invariant forall k :: 0 <= k < i ==> data[k] == (old(data[k]) && offset + k !in ids)
      invariant forall k :: i <= k < data.Length ==> data[k] == old(data[k])
    {
      if next < |ids| && ids[next] == offset + i {
        data[i] := false;
        next := next + 1;
      }
    }
  }

  function Dead(dvs: seq<DeleteVector>): set<nat> {
    set dv, id | dv in dvs && id in dv.deletes :: id
  }

  ghost predicate AllSorted(dvs: seq<DeleteVector>) {
    forall k :: 0 <= k < |dvs| ==> StrictlyAscending(dvs[k].deletes)
  }

  /** All delete vectors of a rowset together clear the union of their ids, so their order
      does not matter. */
  method ApplyAll(dvs: seq<DeleteVector>, data: array<bool>, offset: nat)
    requires AllSorted(dvs)
    modifies data
    ensures forall i :: 0 <= i < data.Length ==> data[i] == (old(data[i]) && offset + i !in Dead(dvs))
  {
    for k := 0 to |dvs|
      invariant forall i :: 0 <= i < data.Length ==> data[i] == (old(data[i]) && offset + i !in Dead(dvs[..k]))
    {
      DeadSnoc(dvs, k);
      ApplyTo(dvs[k], data, offset);
    }
    assert dvs[..|dvs|] == dvs;
  }

  lemma {:induction false} DeadSnoc(dvs: seq<DeleteVector>, k: nat)
    requires k < |dvs|
    ensures forall id :: id in Dead(dvs[..k + 1]) <==> id in Dead(dvs[..k]) || id in dvs[k].deletes
  {
    assert dvs[..k + 1] == dvs[..k] + [dvs[k]];
    assert dvs[k] in dvs[..k + 1];
  }

  /** The order of the delete vectors, and repetitions, make no difference. */
  lemma {:induction false} DeadOfBag(a: seq<DeleteVector>, b: seq<DeleteVector>)
    requires forall dv :: dv in a <==> dv in b
    ensures Dead(a) == Dead(b)
  {}

  // ---- scanning a rowset ----

  /** The rows from `i` on whose ids are not dead. */
  function Survivors(rows: seq<Row>, dead: set<nat>, i: nat): seq<Row>
    decreases |rows| - i
  {
    if i >= |rows| then [] else (if i in dead then [] else [rows[i]]) + Survivors(rows, dead, i + 1)
  }

  /** The survivors are the rows at the positions that are not deleted, in order. */
  lemma {:induction false} SurvivorsAre(rows: seq<Row>, dead: set<nat>, i: nat) returns (at: seq<nat>)
    ensures Selects(rows, at, Survivors(rows, dead, i))
    ensures forall x: nat :: x in at <==> i <= x < |rows| && x !in dead
    decreases |rows| - i
  {
    hide Selects;
    if i >= |rows| {
      at := [];
      SelectsNothing(rows);
    } else {
      at := SurvivorsAre(rows, dead, i + 1);
      if i !in dead {
        SelectsBefore(rows, at, Survivors(rows, dead, i + 1), i);
        at := [i] + at;
      } else {
        assert Survivors(rows, dead, i) == Survivors(rows, dead, i + 1);
      }
    }
  }

  /** A chunk of the rows from `at` on that hides exactly the dead ones. */
  ghost predicate Shows(c: Chunk, rows: seq<Row>, dead: set<nat>, at: nat) {
    && at + |c.rows| <= |rows|
    && c.rows == rows[at..at + |c.rows|]
    && (forall j :: 0 <= j < |c.rows| ==> (c.Visible(j) <==> at + j !in dead))
  }

  lemma {:induction false} ShownFrom(c: Chunk, rows: seq<Row>, dead: set<nat>, at: nat, j: nat)
    requires Shows(c, rows, dead, at) && j <= |c.rows|
    ensures c.From(j) + Survivors(rows, dead, at + |c.rows|) == Survivors(rows, dead, at + j)
    decreases |c.rows| - j
  {
    if j < |c.rows| {
      ShownFrom(c, rows, dead, at, j + 1);
    }
  }

  lemma {:induction false} VisibleSnoc(chunks: seq<Chunk>, c: Chunk)
    ensures VisibleRows(chunks + [c]) == VisibleRows(chunks) + c.From(0)
  {
    if chunks == [] {
      assert VisibleRows([c]) == c.From(0) + VisibleRows([]);
    } else {
      assert (chunks + [c])[1..] == chunks[1..] + [c];
      VisibleSnoc(chunks[1..], c);
    }
  }

  /** One batch of `size` rows: nothing when all of them are deleted. */
  method ReadBatch(rows: seq<Row>, dvs: seq<DeleteVector>, at: nat, size: nat) returns (c: Option<Chunk>)
    requires AllSorted(dvs) && at + size <= |rows| && size > 0
    ensures c.Some? ==> c.value.Valid()
    ensures c.Some? ==> c.value.From(0) + Survivors(rows, Dead(dvs), at + size) == Survivors(rows, Dead(dvs), at)
    ensures c.None? ==> Survivors(rows, Dead(dvs), at + size) == Survivors(rows, Dead(dvs), at)
  {
    hide Dead, Survivors, AllSorted;
    if dvs == [] {
      var all := Chunk(rows[at..at + size], None);
      NoneDead(dvs);
      assert all.Visible(0);
      ShownFrom(all, rows, Dead(dvs), at, 0);
      return Some(all);
    }
    var visi := new bool[size](_ => true);
    ApplyAll(dvs, visi, at);
    var chunk := Chunk(rows[at..at + size], Some(visi[..]));
    ShownFrom(chunk, rows, Dead(dvs), at, 0);
    var any := false;
    for i := 0 to size
      invariant any == exists k :: 0 <= k < i && visi[k]
    {
      any := any || visi[i];
    }
    if any {
      ghost var k :| 0 <= k < size && visi[k];
      assert chunk.Visible(k);
      return Some(chunk);
    }
    NothingFrom(chunk, 0);
    NothingBefore(Survivors(rows, Dead(dvs), at + size));
    return None;
  }

  lemma {:induction false} NothingBefore(rows: seq<Row>)
    ensures [] + rows == rows
  {}

  lemma {:induction false} NoneDead(dvs: seq<DeleteVector>)
    requires dvs == []
    ensures Dead(dvs) == {}
  {}

  lemma {:induction false} NothingFrom(c: Chunk, j: nat)
    requires forall k :: 0 <= k < |c.rows| ==> !c.Visible(k)
    ensures c.From(j) == []
    decreases |c.rows| - j
  {
    if j < |c.rows| {
      NothingFrom(c, j + 1);
    }
  }

  /** Scanning a rowset in batches of any positive sizes returns exactly the surviving rows in
      order, and every chunk shows at least one. */
  method Scan(rows: seq<Row>, dvs: seq<DeleteVector>, hint: nat -> nat) returns (chunks: seq<Chunk>)
    requires AllSorted(dvs) && forall n :: hint(n) > 0
    ensures forall i :: 0 <= i < |chunks| ==> chunks[i].Valid()
    ensures VisibleRows(chunks) == Survivors(rows, Dead(dvs), 0)
  {
    hide Dead, VisibleRows, AllSorted, Survivors;
    chunks := [];
    NoChunks();
    NoneLeft(rows, Dead(dvs));
    var at := 0;
    while at < |rows|
      invariant 0 <= at <= |rows|
      invariant forall i :: 0 <= i < |chunks| ==> chunks[i].Valid()
      invariant VisibleRows(chunks) + Survivors(rows, Dead(dvs), at) == Survivors(rows, Dead(dvs), 0)
    {
      var size := if hint(at) <= |rows| - at then hint(at) else |rows| - at;
      var c := ReadBatch(rows, dvs, at, size);
      if c.Some? {
        VisibleSnoc(chunks, c.value);
        Reassociate(VisibleRows(chunks), c.value.From(0), Survivors(rows, Dead(dvs), at + size));
        chunks := chunks + [c.value];
      }
      at := at + size;
    }
  }

  lemma {:induction false} NoneLeft(rows: seq<Row>, dead: set<nat>)
    ensures Survivors(rows, dead, |rows|) == []
  {}

  lemma {:induction false} Reassociate(a: seq<Row>, b: seq<Row>, c: seq<Row>)
    ensures a + (b + c) == (a + b) + c
  {}

  lemma {:induction false} NoChunks()
    ensures VisibleRows([]) == []
  {}
}
