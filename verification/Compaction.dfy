/** Compaction: several rowsets of a table are rewritten as one, from a pinned snapshot. */
module Compaction {
  import opened Common
  import opened Snapshots
  import opened Versions
  import opened Bags
  import opened Merges
  import opened MergeIterators
  import opened DeleteVectors

  // ---- which rowsets ----

  function Sum(size: RowsetId -> nat, ids: seq<RowsetId>): nat {
    if ids == [] then 0 else Sum(size, ids[..|ids| - 1]) + size(ids[|ids| - 1])
  }

  ghost predicate Unique(ids: seq<RowsetId>) {
    forall i, j :: 0 <= i < j < |ids| ==> ids[i] != ids[j]
  }

  /** Picks rowsets greedily: what is picked fits the target size, and nothing that was
      passed over would still fit. */
  method Select(ids: seq<RowsetId>, size: RowsetId -> nat, target: nat) returns (selected: seq<RowsetId>)
    requires Unique(ids)
    ensures Unique(selected) && (forall x :: x in selected ==> x in ids) && Sum(size, selected) <= target
    ensures forall x :: x in ids && x !in selected ==> Sum(size, selected) + size(x) > target
  {
    selected := [];
    var current := 0;
    for i := 0 to |ids|
      invariant Unique(selected) && (forall x :: x in selected ==> x in ids[..i])
      invariant current == Sum(size, selected) <= target
      invariant forall x :: x in ids[..i] && x !in selected ==> current + size(x) > target
    {
      assert ids[..i + 1] == ids[..i] + [ids[i]];
      if size(ids[i]) + current <= target {
        current := current + size(ids[i]);
        assert (selected + [ids[i]])[..|selected|] == selected;
        selected := selected + [ids[i]];
      }
    }
    assert ids[..|ids|] == ids;
  }

  // ---- what a table shows ----

  /** The pools that a snapshot's ids point into. */
  datatype Pools = Pools(rowsets: map<RowsetKey, DiskRowset>, dvs: map<(TableId, DvId), DeleteVector>)

  /** The row ids deleted from a rowset, by all its delete vectors in the snapshot. */
  ghost function DeadIn(p: Pools, s: Snapshot, t: TableId, id: RowsetId): set<nat> {
    if t in s.dvs && id in s.dvs[t] then
      set d, x | d in s.dvs[t][id] && (t, d) in p.dvs && x in p.dvs[(t, d)].deletes :: x
    else {}
  }

  ghost function RowsIn(p: Pools, t: TableId, id: RowsetId): seq<Row> {
    if (t, id) in p.rowsets then p.rowsets[(t, id)].rows else []
  }

  /** The visible rows of one rowset. */
  ghost function Shown(p: Pools, s: Snapshot, t: TableId, id: RowsetId): seq<Row> {
    Survivors(RowsIn(p, t, id), DeadIn(p, s, t, id), 0)
  }

  ghost function ShownF(p: Pools, s: Snapshot, t: TableId): RowsetId -> multiset<Row> {
    (id: RowsetId) => multiset(Shown(p, s, t, id))
  }

  ghost function IdsOf(s: Snapshot, t: TableId): set<RowsetId> {
    if t in s.rowsets then s.rowsets[t] else {}
  }

  ghost function Over(ids: set<RowsetId>, f: RowsetId -> multiset<Row>): multiset<Row> {
    Bind(multiset(ids), f)
  }

  /** The bag of visible rows of a table at a snapshot. */
  ghost function TableRows(p: Pools, s: Snapshot, t: TableId): multiset<Row> {
    Over(IdsOf(s, t), ShownF(p, s, t))
  }

  // ---- sums over id sets ----

  lemma {:induction false} OverNone(f: RowsetId -> multiset<Row>)
    ensures Over({}, f) == multiset{}
  {
    var none: set<RowsetId> := {};
    assert multiset(none) == multiset{};
    BindEmpty(f);
  }

  lemma {:induction false} OverSplit(a: set<RowsetId>, b: set<RowsetId>, f: RowsetId -> multiset<Row>)
    requires a !! b
    ensures Over(a + b, f) == Over(a, f) + Over(b, f)
  {
    hide Bind;
    assert multiset(a + b) == multiset(a) + multiset(b);
    BindUnion(multiset(a), multiset(b), f);
  }

  lemma {:induction false} OverOne(id: RowsetId, f: RowsetId -> multiset<Row>)
    ensures Over({id}, f) == f(id)
  {
    hide Bind;
    assert multiset({id}) == multiset{id};
    BindOne(id, f);
  }

  lemma {:induction false} OverCong(ids: set<RowsetId>, f: RowsetId -> multiset<Row>, g: RowsetId -> multiset<Row>)
    requires forall id :: id in ids ==> f(id) == g(id)
    ensures Over(ids, f) == Over(ids, g)
  {
    hide Bind;
    BindCong(multiset(ids), f, g);
  }

  // ---- copying the visible rows ----

  /** The visible rows of the selected rowsets, in the order they are read. */
  ghost function Inputs(p: Pools, s: Snapshot, t: TableId, selected: seq<RowsetId>): (r: seq<seq<Row>>)
    ensures |r| == |selected|
  {
    seq(|selected|, i requires 0 <= i < |selected| => Shown(p, s, t, selected[i]))
  }

  ghost function SetOf(ids: seq<RowsetId>): set<RowsetId> {
    set x | x in ids
  }

  lemma {:induction false} InputsBag(p: Pools, s: Snapshot, t: TableId, selected: seq<RowsetId>)
    requires Unique(selected)
    ensures multiset(Flatten(Inputs(p, s, t, selected))) == Over(SetOf(selected), ShownF(p, s, t))
  {
    hide Over, Shown;
    var f := ShownF(p, s, t);
    if selected == [] {
      OverNone(f);
      assert SetOf(selected) == {};
    } else {
      var n := |selected| - 1;
      var before, id := selected[..n], selected[n];
      InputsBag(p, s, t, before);
      assert Inputs(p, s, t, selected) == Inputs(p, s, t, before) + [Shown(p, s, t, id)];
      FlattenSnoc(Inputs(p, s, t, before), Shown(p, s, t, id));
      SetOfSnoc(selected, n);
      OverSplit(SetOf(before), {id}, f);
      OverOne(id, f);
    }
  }

  lemma {:induction false} SetOfSnoc(ids: seq<RowsetId>, n: nat)
    requires n == |ids| - 1 && Unique(ids)
    ensures SetOf(ids) == SetOf(ids[..n]) + {ids[n]} && ids[n] !in SetOf(ids[..n])
  {
    assert ids == ids[..n] + [ids[n]];
  }

  /** The surviving rows of each rowset. */
  ghost function AllSurvivors(rowsets: seq<DiskRowset>, dvs: seq<seq<DeleteVector>>): (r: seq<seq<Row>>)
    requires |rowsets| == |dvs|
    ensures |r| == |rowsets|
  {
    seq(|rowsets|, i requires 0 <= i < |rowsets| => Survivors(rowsets[i].rows, Dead(dvs[i]), 0))
  }

  ghost predicate AllValid(sources: seq<seq<Chunk>>) {
    forall k, j :: 0 <= k < |sources| && 0 <= j < |sources[k]| ==> sources[k][j].Valid()
  }

  method ScanAll(rowsets: seq<DiskRowset>, dvs: seq<seq<DeleteVector>>,
                 hint: nat -> nat) returns (sources: seq<seq<Chunk>>)
    requires |rowsets| == |dvs| && (forall i :: 0 <= i < |dvs| ==> AllSorted(dvs[i])) && forall n :: hint(n) > 0
    ensures AllValid(sources) && |sources| == |rowsets|
    ensures forall k :: 0 <= k < |sources| ==> VisibleRows(sources[k]) == AllSurvivors(rowsets, dvs)[k]
  {
    hide Survivors, Dead, VisibleRows, AllSorted;
    sources := [];
    for i := 0 to |rowsets|
      invariant |sources| == i && AllValid(sources)
      invariant forall k :: 0 <= k < i ==> VisibleRows(sources[k]) == AllSurvivors(rowsets, dvs)[k]
    {
      var chunks := Scan(rowsets[i].rows, dvs[i], hint);
      sources := sources + [chunks];
    }
  }

  method MergeAll(sortKey: seq<nat>, sources: seq<seq<Chunk>>, ghost inputs: seq<seq<Row>>) returns (rows: seq<Row>)
    requires AllValid(sources) && |sources| == |inputs|
    requires forall k :: 0 <= k < |sources| ==> VisibleRows(sources[k]) == inputs[k]
    ensures multiset(rows) == multiset(Flatten(inputs))
    ensures (forall i :: 0 <= i < |inputs| ==> Sorted(sortKey, inputs[i])) ==> Sorted(sortKey, rows)
  {
    hide VisibleRows, Flatten, Sorted;
    var iter := new MergeIterator(sources, sortKey);
    ghost var left := iter.Left();
    assert left == inputs;
    var batches, picks := iter.Drain(_ => None);
    rows := Flatten(batches);
  }

  ghost predicate AllSortedBy(sortKey: seq<nat>, inputs: seq<seq<Row>>) {
    forall i :: 0 <= i < |inputs| ==> Sorted(sortKey, inputs[i])
  }

  /** Reads the selected rowsets through a merge over the sort key, or one after the other
      when the table has none; either way the copy is a rearrangement of their visible rows,
      and without a sort key it is their concatenation. */
  method Copy(sortKey: seq<nat>, rowsets: seq<DiskRowset>, dvs: seq<seq<DeleteVector>>,
              hint: nat -> nat) returns (rows: seq<Row>)
    requires |rowsets| == |dvs| && (forall i :: 0 <= i < |dvs| ==> AllSorted(dvs[i])) && forall n :: hint(n) > 0
    ensures var inputs := AllSurvivors(rowsets, dvs);
            && multiset(rows) == multiset(Flatten(inputs))
            && (sortKey == [] ==> rows == Flatten(inputs))
            && (sortKey != [] && AllSortedBy(sortKey, inputs) ==> Sorted(sortKey, rows))
  {
    hide AllSurvivors, AllSorted, VisibleRows, Flatten, Sorted;
    ghost var inputs := AllSurvivors(rowsets, dvs);
    var sources := ScanAll(rowsets, dvs, hint);
    if sortKey != [] {
      rows := MergeAll(sortKey, sources, inputs);
    } else {
      rows := Concat(sources, inputs);
    }
  }

  method Concat(sources: seq<seq<Chunk>>, ghost inputs: seq<seq<Row>>) returns (rows: seq<Row>)
    requires |sources| == |inputs| && forall k :: 0 <= k < |inputs| ==> VisibleRows(sources[k]) == inputs[k]
    ensures rows == Flatten(inputs)
  {
    hide VisibleRows;
    rows := [];
    for k := 0 to |sources|
      invariant rows == Flatten(inputs[..k])
    {
      assert inputs[..k + 1] == inputs[..k] + [inputs[k]];
      FlattenSnoc(inputs[..k], inputs[k]);
      rows := rows + VisibleRows(sources[k]);
    }
    assert inputs[..|inputs|] == inputs;
  }

  // ---- the changeset ----

  function Deletes(t: TableId, selected: seq<RowsetId>): seq<EpochOp> {
    seq(|selected|, i requires 0 <= i < |selected| => DeleteRowSet((t, selected[i])))
  }

  /** The operations a compaction commits: the new rowset unless it is empty, then the
      deletions.  Delete vectors are left where they are. */
  function Changes(t: TableId, newId: RowsetId, rows: seq<Row>, selected: seq<RowsetId>): seq<EpochOp> {
    (if rows == [] then [] else [AddRowSet((t, newId), DiskRowset(rows))]) + Deletes(t, selected)
  }

  lemma {:induction false} StageDeletes(st: Staged, t: TableId, selected: seq<RowsetId>)
    requires Unique(selected) && SetOf(selected) <= IdsOf(st.snapshot, t)
    ensures var r := Stage(st, Deletes(t, selected));
            && r.ok && r.staged.rowsets == st.rowsets && r.staged.dvs == st.dvs
            && IdsOf(r.staged.snapshot, t) == IdsOf(st.snapshot, t) - SetOf(selected)
            && r.staged.snapshot.dvs == st.snapshot.dvs
    decreases |selected|
  {
    if selected == [] {
      assert SetOf(selected) == {};
    } else {
      var id, rest := selected[0], selected[1..];
      assert id in SetOf(selected);
      var next := StageOne(st, DeleteRowSet((t, id))).staged;
      DeleteOneId(st, t, id);
      assert SetOf(selected) == {id} + SetOf(rest) && id !in SetOf(rest);
      StageDeletes(next, t, rest);
      assert Deletes(t, selected)[1..] == Deletes(t, rest);
    }
  }

  lemma {:induction false} DeleteOneId(st: Staged, t: TableId, id: RowsetId)
    requires id in IdsOf(st.snapshot, t)
    ensures var r := StageOne(st, DeleteRowSet((t, id)));
            && r.ok && r.staged.rowsets == st.rowsets && r.staged.dvs == st.dvs
            && IdsOf(r.staged.snapshot, t) == IdsOf(st.snapshot, t) - {id}
            && r.staged.snapshot.dvs == st.snapshot.dvs
  {}

  /** What the new rowset's id may not have been used for. */
  ghost predicate FreshId(s: Snapshot, p: Pools, t: TableId, id: RowsetId) {
    id !in IdsOf(s, t) && (t, id) !in p.rowsets && DeadIn(p, s, t, id) == {}
  }

  /** The state a compaction commit leads to. */
  ghost function After(st: Staged, t: TableId, newId: RowsetId, rows: seq<Row>, selected: seq<RowsetId>): StageResult {
    Stage(st, Changes(t, newId, rows, selected))
  }

  ghost function PoolsOf(st: Staged): Pools {
    Pools(st.rowsets, st.dvs)
  }

  lemma {:induction false} AfterIs(st: Staged, t: TableId, newId: RowsetId, rows: seq<Row>, selected: seq<RowsetId>)
    requires Unique(selected) && SetOf(selected) <= IdsOf(st.snapshot, t) && FreshId(st.snapshot, PoolsOf(st), t, newId)
    ensures var r := After(st, t, newId, rows, selected);
            && r.ok && r.staged.dvs == st.dvs && r.staged.snapshot.dvs == st.snapshot.dvs
            && r.staged.rowsets == (if rows == [] then st.rowsets else st.rowsets[(t, newId) := DiskRowset(rows)])
            && IdsOf(r.staged.snapshot, t) == (IdsOf(st.snapshot, t) - SetOf(selected)) +
               (if rows == [] then {} else {newId})
  {
    if rows == [] {
      assert Changes(t, newId, rows, selected) == Deletes(t, selected);
      StageDeletes(st, t, selected);
    } else {
      var add := AddRowSet((t, newId), DiskRowset(rows));
      var next := StageOne(st, add).staged;
      assert IdsOf(next.snapshot, t) == IdsOf(st.snapshot, t) + {newId};
      StageDeletes(next, t, selected);
      var ops := Changes(t, newId, rows, selected);
      assert ops[0] == add && ops[1..] == Deletes(t, selected);
    }
  }

  // ---- the table before and after ----

  lemma {:induction false} UnchangedShown(st: Staged, t: TableId, newId: RowsetId, rows: seq<Row>,
                                          selected: seq<RowsetId>, id: RowsetId)
    requires Unique(selected) && SetOf(selected) <= IdsOf(st.snapshot, t) && FreshId(st.snapshot, PoolsOf(st), t, newId)
    requires id != newId
    ensures var r := After(st, t, newId, rows, selected).staged;
            Shown(PoolsOf(r), r.snapshot, t, id) == Shown(PoolsOf(st), st.snapshot, t, id)
  {
    hide After, Survivors;
    AfterIs(st, t, newId, rows, selected);
  }

  lemma {:induction false} NewShown(st: Staged, t: TableId, newId: RowsetId, rows: seq<Row>, selected: seq<RowsetId>)
    requires Unique(selected) && SetOf(selected) <= IdsOf(st.snapshot, t) && FreshId(st.snapshot, PoolsOf(st), t, newId)
    requires rows != []
    ensures var r := After(st, t, newId, rows, selected).staged;
            Shown(PoolsOf(r), r.snapshot, t, newId) == rows
  {
    hide After;
    AfterIs(st, t, newId, rows, selected);
    AllSurvive(rows, 0);
  }

  lemma {:induction false} AllSurvive(rows: seq<Row>, i: nat)
    requires i <= |rows|
    ensures Survivors(rows, {}, i) == rows[i..]
    decreases |rows| - i
  {
    if i < |rows| {
      AllSurvive(rows, i + 1);
    }
  }

  /** After a compaction the table shows what the other rowsets show and the copied rows. */
  lemma {:induction false} RowsAfter(st: Staged, t: TableId, newId: RowsetId, rows: seq<Row>, selected: seq<RowsetId>)
    requires Unique(selected) && SetOf(selected) <= IdsOf(st.snapshot, t) && FreshId(st.snapshot, PoolsOf(st), t, newId)
    ensures var r := After(st, t, newId, rows, selected).staged;
            TableRows(PoolsOf(r), r.snapshot, t) ==
            Over(IdsOf(st.snapshot, t) - SetOf(selected), ShownF(PoolsOf(st), st.snapshot, t)) + multiset(rows)
  {
    hide After, Over, Shown, Unique, FreshId;
    var r := After(st, t, newId, rows, selected).staged;
    var kept := IdsOf(st.snapshot, t) - SetOf(selected);
    var f, g := ShownF(PoolsOf(st), st.snapshot, t), ShownF(PoolsOf(r), r.snapshot, t);
    AfterIs(st, t, newId, rows, selected);
    NotUsed(st.snapshot, PoolsOf(st), t, newId);
    forall id | id in kept ensures f(id) == g(id) {
      UnchangedShown(st, t, newId, rows, selected, id);
    }
    OverCong(kept, f, g);
    if rows == [] {
      assert kept + {} == kept;
      assert Over(kept, f) + multiset(rows) == Over(kept, f);
    } else {
      NewShown(st, t, newId, rows, selected);
      OverSplit(kept, {newId}, g);
      OverOne(newId, g);
    }
  }

  lemma {:induction false} NotUsed(s: Snapshot, p: Pools, t: TableId, id: RowsetId)
    requires FreshId(s, p, t, id)
    ensures id !in IdsOf(s, t)
  {}

  lemma {:induction false} RowsBefore(st: Staged, t: TableId, selected: seq<RowsetId>)
    requires SetOf(selected) <= IdsOf(st.snapshot, t)
    ensures var f := ShownF(PoolsOf(st), st.snapshot, t);
            TableRows(PoolsOf(st), st.snapshot, t) ==
            Over(IdsOf(st.snapshot, t) - SetOf(selected), f) + Over(SetOf(selected), f)
  {
    hide Over, Shown;
    var ids, f := IdsOf(st.snapshot, t), ShownF(PoolsOf(st), st.snapshot, t);
    OverSplit(ids - SetOf(selected), SetOf(selected), f);
    assert ids - SetOf(selected) + SetOf(selected) == ids;
  }

  /** The selected rowsets, unchanged since the pinned snapshot: same rows in the pool, and
      the delete vectors of the pin are still there. */
  ghost predicate StillThere(p: Pools, pin: Snapshot, st: Staged, t: TableId, selected: seq<RowsetId>) {
    && SetOf(selected) <= IdsOf(st.snapshot, t)
    && (forall id :: id in selected ==> RowsIn(p, t, id) == RowsIn(PoolsOf(st), t, id))
    && (forall id :: id in selected ==> DeadIn(p, pin, t, id) <= DeadIn(PoolsOf(st), st.snapshot, t, id))
  }

  /** Since the pin, no delete vector took a row of the rowset. */
  ghost predicate NoLaterDeleteOf(p: Pools, pin: Snapshot, st: Staged, t: TableId, id: RowsetId) {
    forall i ::
      0 <= i < |RowsIn(p, t, id)| && i in DeadIn(PoolsOf(st), st.snapshot, t, id) ==> i in DeadIn(p, pin, t, id)
  }

  ghost predicate NoLaterDelete(p: Pools, pin: Snapshot, st: Staged, t: TableId, selected: seq<RowsetId>) {
    forall id :: id in selected ==> NoLaterDeleteOf(p, pin, st, t, id)
  }

  lemma {:induction false} FewerSurvive(rows: seq<Row>, a: set<nat>, b: set<nat>, i: nat)
    requires a <= b
    ensures multiset(Survivors(rows, b, i)) <= multiset(Survivors(rows, a, i))
    ensures |Survivors(rows, b, i)| == |Survivors(rows, a, i)| <==> forall j :: i <= j < |rows| && j in b ==> j in a
    ensures |Survivors(rows, b, i)| <= |Survivors(rows, a, i)|
    ensures |Survivors(rows, b, i)| == |Survivors(rows, a, i)| ==> Survivors(rows, b, i) == Survivors(rows, a, i)
    decreases |rows| - i
  {
    if i < |rows| {
      FewerSurvive(rows, a, b, i + 1);
      var x, y := Survivors(rows, a, i + 1), Survivors(rows, b, i + 1);
      if i in b && i !in a {
        assert Survivors(rows, a, i) == [rows[i]] + x;
      }
    }
  }

  lemma {:induction false} SumShrinks(ids: set<RowsetId>, f: RowsetId -> multiset<Row>, g: RowsetId -> multiset<Row>)
    requires forall id :: id in ids ==> f(id) <= g(id)
    ensures Over(ids, f) <= Over(ids, g)
    ensures Over(ids, f) == Over(ids, g) <==> forall id :: id in ids ==> f(id) == g(id)
    decreases ids
  {
    hide Over;
    if ids == {} {
      OverNone(f);
      OverNone(g);
    } else {
      var id :| id in ids;
      var rest := ids - {id};
      assert rest + {id} == ids;
      OverSplit(rest, {id}, f);
      OverSplit(rest, {id}, g);
      OverOne(id, f);
      OverOne(id, g);
      SumShrinks(rest, f, g);
      SumOfParts(Over(rest, f), f(id), Over(rest, g), g(id));
    }
  }

  lemma {:induction false} SumOfParts(a: multiset<Row>, b: multiset<Row>, c: multiset<Row>, d: multiset<Row>)
    requires a <= c && b <= d
    ensures a + b <= c + d
    ensures a + b == c + d <==> a == c && b == d
  {
    if a + b == c + d {
      forall x: Row ensures a[x] == c[x] && b[x] == d[x] {
        assert (a + b)[x] == (c + d)[x];
      }
    }
  }

  lemma {:induction false} ShownLess(p: Pools, pin: Snapshot, st: Staged, t: TableId, selected: seq<RowsetId>,
                                     id: RowsetId)
    requires StillThere(p, pin, st, t, selected) && id in selected
    ensures var now, then_ := ShownF(PoolsOf(st), st.snapshot, t)(id), ShownF(p, pin, t)(id);
            && now <= then_
            && (now == then_ <==> NoLaterDeleteOf(p, pin, st, t, id))
  {
    hide Survivors, DeadIn;
    var rows, a, b := RowsIn(p, t, id), DeadIn(p, pin, t, id), DeadIn(PoolsOf(st), st.snapshot, t, id);
    FewerSurvive(rows, a, b, 0);
    var x, y := Survivors(rows, b, 0), Survivors(rows, a, 0);
    assert |multiset(x)| == |x| && |multiset(y)| == |y|;
  }

  /** A compaction that commits on top of whatever happened since its pin leaves the table's
      visible rows unchanged if and only if no row of a selected rowset was deleted in
      between.  Inserts and other rowsets do not matter. */
  lemma {:induction false} CompactionKeepsRowsIff(p: Pools, pin: Snapshot, st: Staged, t: TableId, newId: RowsetId,
                                                  rows: seq<Row>, selected: seq<RowsetId>)
    requires Unique(selected) && FreshId(st.snapshot, PoolsOf(st), t, newId)
    requires StillThere(p, pin, st, t, selected)
    requires multiset(rows) == multiset(Flatten(Inputs(p, pin, t, selected)))
    ensures After(st, t, newId, rows, selected).ok
    ensures var r := After(st, t, newId, rows, selected).staged;
            TableRows(PoolsOf(r), r.snapshot, t) == TableRows(PoolsOf(st), st.snapshot, t) <==>
            NoLaterDelete(p, pin, st, t, selected)
  {
    hide After, TableRows, Over, ShownF, FreshId, DeadIn, RowsIn, Flatten, Inputs;
    var now, then_ := ShownF(PoolsOf(st), st.snapshot, t), ShownF(p, pin, t);
    AfterIs(st, t, newId, rows, selected);
    RowsAfter(st, t, newId, rows, selected);
    RowsBefore(st, t, selected);
    InputsBag(p, pin, t, selected);
    forall id | id in SetOf(selected)
      ensures now(id) <= then_(id)
      ensures now(id) == then_(id) <==> NoLaterDeleteOf(p, pin, st, t, id)
    {
      ShownLess(p, pin, st, t, selected, id);
    }
    SumShrinks(SetOf(selected), now, then_);
    Cancel(Over(IdsOf(st.snapshot, t) - SetOf(selected), now), Over(SetOf(selected), then_),
        Over(SetOf(selected), now));
  }

  lemma {:induction false} Cancel(a: multiset<Row>, b: multiset<Row>, c: multiset<Row>)
    ensures a + b == a + c <==> b == c
  {
    if a + b == a + c {
      forall x: Row ensures b[x] == c[x] {
        assert (a + b)[x] == (a + c)[x];
      }
    }
  }

  // ---- a whole compaction ----

  ghost function DvIds(s: Snapshot, t: TableId, id: RowsetId): set<DvId> {
    if t in s.dvs && id in s.dvs[t] then s.dvs[t][id] else {}
  }

  /** The pinned rowset and its delete vectors are in the pools, as they are for every pinned snapshot. */
  ghost predicate InPools(p: Pools, s: Snapshot, t: TableId, id: RowsetId) {
    && (t, id) in p.rowsets
    && forall d :: d in DvIds(s, t, id) ==> (t, d) in p.dvs && StrictlyAscending(p.dvs[(t, d)].deletes)
  }

  /** The delete vectors a snapshot lists for a rowset, read from the pool. */
  ghost predicate VectorsOf(dvs: seq<DeleteVector>, p: Pools, s: Snapshot, t: TableId, id: RowsetId) {
    AllSorted(dvs) && Dead(dvs) == DeadIn(p, s, t, id)
  }

  ghost predicate DeletedBy(p: Pools, t: TableId, ids: set<DvId>, x: nat) {
    exists d :: d in ids && (t, d) in p.dvs && x in p.dvs[(t, d)].deletes
  }

  /** The id set is visited in an arbitrary order. */
  method ReadVectors(p: Pools, s: Snapshot, t: TableId, id: RowsetId) returns (dvs: seq<DeleteVector>)
    requires InPools(p, s, t, id)
    ensures VectorsOf(dvs, p, s, t, id)
  {
    var left: set<DvId> := if t in s.dvs && id in s.dvs[t] then s.dvs[t][id] else {};
    ghost var done: set<DvId> := {};
    dvs := [];
    while left != {}
      invariant done + left == DvIds(s, t, id) && AllSorted(dvs)
      invariant forall x :: x in Dead(dvs) <==> DeletedBy(p, t, done, x)
      decreases |left|
    {
      var d :| d in left;
      DeletedByOne(p, t, done, d);
      DeadOneMore(dvs, p.dvs[(t, d)]);
      dvs := dvs + [p.dvs[(t, d)]];
      left, done := left - {d}, done + {d};
    }
    assert done == DvIds(s, t, id);
    forall x ensures x in Dead(dvs) <==> x in DeadIn(p, s, t, id) {
      DeadInIff(p, s, t, id, x);
    }
  }

  lemma {:induction false} DeadInIff(p: Pools, s: Snapshot, t: TableId, id: RowsetId, x: nat)
    ensures x in DeadIn(p, s, t, id) <==> DeletedBy(p, t, DvIds(s, t, id), x)
  {}

  lemma {:induction false} DeletedByOne(p: Pools, t: TableId, done: set<DvId>, d: DvId)
    requires (t, d) in p.dvs
    ensures forall x :: DeletedBy(p, t, done + {d}, x) <==> DeletedBy(p, t, done, x) || x in p.dvs[(t, d)].deletes
  {
    forall x ensures DeletedBy(p, t, done + {d}, x) <==> DeletedBy(p, t, done, x) || x in p.dvs[(t, d)].deletes {
      if DeletedBy(p, t, done, x) {
        var e :| e in done && (t, e) in p.dvs && x in p.dvs[(t, e)].deletes;
        assert e in done + {d};
      }
      if x in p.dvs[(t, d)].deletes {
        assert d in done + {d};
      }
    }
  }

  lemma {:induction false} DeadOneMore(dvs: seq<DeleteVector>, dv: DeleteVector)
    ensures forall x :: x in Dead(dvs + [dv]) <==> x in Dead(dvs) || x in dv.deletes
  {
    var all := dvs + [dv];
    assert all[..|dvs|] == dvs && all[..|dvs| + 1] == all;
    DeadSnoc(all, |dvs|);
  }

  method ReadAll(p: Pools, s: Snapshot, t: TableId, selected: seq<RowsetId>)
    returns (rowsets: seq<DiskRowset>, dvs: seq<seq<DeleteVector>>)
    requires forall id :: id in selected ==> InPools(p, s, t, id)
    ensures |rowsets| == |dvs| && (forall i :: 0 <= i < |dvs| ==> AllSorted(dvs[i]))
    ensures AllSurvivors(rowsets, dvs) == Inputs(p, s, t, selected)
  {
    hide AllSorted, Dead, DeadIn, Survivors;
    rowsets, dvs := [], [];
    for i := 0 to |selected|
      invariant |rowsets| == |dvs| == i && (forall k :: 0 <= k < i ==> AllSorted(dvs[k]))
      invariant forall k :: 0 <= k < i ==>
        Survivors(rowsets[k].rows, Dead(dvs[k]), 0) == Shown(p, s, t, selected[k])
    {
      assert InPools(p, s, t, selected[i]);
      var vs := ReadVectors(p, s, t, selected[i]);
      rowsets, dvs := rowsets + [p.rowsets[(t, selected[i])]], dvs + [vs];
    }
  }

  lemma {:induction false} UniqueByBag(a: seq<RowsetId>, b: seq<RowsetId>)
    requires Unique(a) && multiset(a) == multiset(b)
    ensures Unique(b)
  {
    forall i, j | 0 <= i < j < |b| ensures b[i] != b[j] {
      if b[i] == b[j] {
        assert b == b[..i] + [b[i]] + b[i + 1..j] + [b[j]] + b[j + 1..];
        assert multiset(a)[b[i]] >= 2;
        OnceEach(a, b[i]);
      }
    }
  }

  lemma {:induction false} SumWithout(size: RowsetId -> nat, ids: seq<RowsetId>, k: nat)
    requires k < |ids|
    ensures Sum(size, ids) == Sum(size, ids[..k] + ids[k + 1..]) + size(ids[k])
  {
    var n, rest := |ids| - 1, ids[..k] + ids[k + 1..];
    if k < n {
      SumWithout(size, ids[..n], k);
      assert rest[..n - 1] == ids[..n][..k] + ids[..n][k + 1..];
    } else {
      assert rest == ids[..n];
    }
  }

  lemma {:induction false} SumByBag(size: RowsetId -> nat, a: seq<RowsetId>, b: seq<RowsetId>)
    requires multiset(a) == multiset(b)
    ensures Sum(size, a) == Sum(size, b)
  {
    SameLength(a, b);
    if a != [] {
      var k := Holder(a, b);
      SumByBag(size, a[..0] + a[0 + 1..], b[..k] + b[k + 1..]);
      SumWithout(size, a, 0);
      SumWithout(size, b, k);
    }
  }

  lemma {:induction false} SameLength(a: seq<RowsetId>, b: seq<RowsetId>)
    requires multiset(a) == multiset(b)
    ensures |a| == |b|
  {
    assert |multiset(a)| == |a| && |multiset(b)| == |b|;
  }

  /** Where the first id of one list is in the other. */
  lemma {:induction false} Holder(a: seq<RowsetId>, b: seq<RowsetId>) returns (k: nat)
    requires multiset(a) == multiset(b) && a != []
    ensures k < |b| && b[k] == a[0] && multiset(a[..0] + a[0 + 1..]) == multiset(b[..k] + b[k + 1..])
  {
    assert a[0] in multiset(a) && a[0] in multiset(b);
    k :| 0 <= k < |b| && b[k] == a[0];
    RestBag(a, 0);
    RestBag(b, k);
  }

  lemma {:induction false} RestBag(ids: seq<RowsetId>, k: nat)
    requires k < |ids|
    ensures multiset(ids[..k] + ids[k + 1..]) == multiset(ids) - multiset{ids[k]}
  {
    var rest := ids[..k] + ids[k + 1..];
    assert ids == ids[..k] + [ids[k]] + ids[k + 1..];
    assert multiset(ids) == multiset(rest) + multiset{ids[k]};
  }

  lemma {:induction false} OnceEach(a: seq<RowsetId>, x: RowsetId)
    requires Unique(a)
    ensures multiset(a)[x] <= 1
  {
    if a != [] {
      var n := |a| - 1;
      assert a == a[..n] + [a[n]];
      OnceEach(a[..n], x);
      if a[n] == x {
        assert x !in a[..n];
      }
    }
  }

  /** What a compaction with these changes does, committed on any later state in which the selected
      rowsets are still there: it goes through, and leaves the table's rows alone if and only if no row
      of a selected rowset was deleted since the pin. */
  ghost predicate KeepsRowsIff(p: Pools, pin: Snapshot, t: TableId, newId: RowsetId, selected: seq<RowsetId>,
                               changes: seq<EpochOp>) {
    forall st: Staged :: StillThere(p, pin, st, t, selected) && FreshId(st.snapshot, PoolsOf(st), t, newId) ==>
      && Stage(st, changes).ok
      && var r := Stage(st, changes).staged;
         (TableRows(PoolsOf(r), r.snapshot, t) == TableRows(PoolsOf(st), st.snapshot, t) <==>
          NoLaterDelete(p, pin, st, t, selected))
  }

  lemma {:induction false} ChangesKeepRowsIff(p: Pools, pin: Snapshot, t: TableId, newId: RowsetId, rows: seq<Row>,
                                              selected: seq<RowsetId>)
    requires Unique(selected) && multiset(rows) == multiset(Flatten(Inputs(p, pin, t, selected)))
    ensures KeepsRowsIff(p, pin, t, newId, selected, Changes(t, newId, rows, selected))
  {
    hide StillThere, FreshId, Changes, Stage, TableRows, NoLaterDelete, Flatten, Inputs, Unique;
    forall st: Staged | StillThere(p, pin, st, t, selected) && FreshId(st.snapshot, PoolsOf(st), t, newId)
      ensures After(st, t, newId, rows, selected).ok
      ensures var r := After(st, t, newId, rows, selected).staged;
              TableRows(PoolsOf(r), r.snapshot, t) == TableRows(PoolsOf(st), st.snapshot, t) <==>
              NoLaterDelete(p, pin, st, t, selected)
    {
      CompactionKeepsRowsIff(p, pin, st, t, newId, rows, selected);
    }
  }

  /** One compaction of a table: `ids` lists its pinned rowsets in any order.  With fewer than two that
      fit together there is nothing to do; otherwise their visible rows are copied, and the changes
      replace them by the copy under whatever was committed since the pin. */
  method CompactTable(p: Pools, pin: Snapshot, t: TableId, ids: seq<RowsetId>, size: RowsetId -> nat, target: nat,
                      sortKey: seq<nat>, hint: nat -> nat, newId: RowsetId)
    returns (changes: Option<seq<EpochOp>>, selected: seq<RowsetId>, rows: seq<Row>)
    requires Unique(ids) && SetOf(ids) == IdsOf(pin, t) && (forall n :: hint(n) > 0)
    requires forall id :: id in ids ==> InPools(p, pin, t, id)
    ensures Unique(selected) && Ascending(selected) && SetOf(selected) <= IdsOf(pin, t)
    ensures Sum(size, selected) <= target
    ensures forall x :: x in ids && x !in selected ==> Sum(size, selected) + size(x) > target
    ensures changes.Some? <==> |selected| > 1
    ensures changes.Some? ==>
              && changes.value == Changes(t, newId, rows, selected)
              && KeepsRowsIff(p, pin, t, newId, selected, changes.value)
              && (sortKey == [] ==> rows == Flatten(Inputs(p, pin, t, selected)))
              && (sortKey != [] && AllSortedBy(sortKey, Inputs(p, pin, t, selected)) ==> Sorted(sortKey, rows))
  {
    hide Unique, AllSorted, AllSurvivors, Inputs, InPools, Flatten, KeepsRowsIff, Changes, Sorted, Ascending, IdsOf,
         Sum;
    var picked := Select(ids, size, target);
    selected := SortIds(picked);
    UniqueByBag(picked, selected);
    SumByBag(size, picked, selected);
    assert |selected| == |multiset(selected)| == |multiset(picked)| == |picked|;
    if |selected| <= 1 {
      return None, selected, [];
    }
    var rowsets, dvs := ReadAll(p, pin, t, selected);
    rows := Copy(sortKey, rowsets, dvs, hint);
    ChangesKeepRowsIff(p, pin, t, newId, rows, selected);
    changes := Some(Changes(t, newId, rows, selected));
  }

  /** A delete that commits between the pin and the compaction's commit comes back.  For any two rows,
      in this run: each is inserted as a rowset of its own, the compactor pins, the first row is deleted,
      the compaction of both rowsets commits, and the table shows the deleted row again. */
  lemma {:induction false} DeletedRowComesBack(a: Row, b: Row)
    returns (st0: Staged, st1: Staged, st2: Staged, st3: Staged, rows: seq<Row>)
    ensures st0 == Staged(EMPTY, map[], map[], [])
    ensures Stage(st0, [AddRowSet((0, 1), DiskRowset([a])), AddRowSet((0, 2), DiskRowset([b]))]) ==
            StageResult(true, st1)
    ensures multiset(rows) == multiset(Flatten(Inputs(PoolsOf(st1), st1.snapshot, 0, [1, 2])))
    ensures Stage(st1, [AddDV((0, 1, 7), DeleteVector([0]))]) == StageResult(true, st2)
    ensures After(st2, 0, 3, rows, [1, 2]) == StageResult(true, st3)
    ensures TableRows(PoolsOf(st2), st2.snapshot, 0) == multiset{b}
    ensures TableRows(PoolsOf(st3), st3.snapshot, 0) == multiset{a, b}
  {
    hide TableRows, Over, After;
    var pool: map<RowsetKey, DiskRowset> := map[(0, 1) := DiskRowset([a]), (0, 2) := DiskRowset([b])];
    var ids: set<RowsetId> := {1, 2};
    st0 := Staged(EMPTY, map[], map[], []);
    st1 := Staged(Snapshot(map[0 := ids], map[]), pool, map[], []);
    st2 := Staged(Snapshot(map[0 := ids], map[0 := map[1 := {7}]]), pool, map[(0, 7) := DeleteVector([0])], []);
    InsertTwo(st0, st1, DiskRowset([a]), DiskRowset([b]));
    DeleteOne(st1, st2);
    rows := Flatten(Inputs(PoolsOf(st1), st1.snapshot, 0, [1, 2]));
    LaterDelete(st1, st2);
    CompactionKeepsRowsIff(PoolsOf(st1), st1.snapshot, st2, 0, 3, rows, [1, 2]);
    st3 := After(st2, 0, 3, rows, [1, 2]).staged;
    OneDeleted(st2, a, b);
    BothCopied(st1, a, b);
    BothBack(st2, rows);
  }

  lemma {:induction false} OneDeleted(st: Staged, a: Row, b: Row)
    requires IdsOf(st.snapshot, 0) == {1, 2} && st.snapshot.dvs == map[0 := map[1 := {7}]]
    requires RowsIn(PoolsOf(st), 0, 1) == [a] && RowsIn(PoolsOf(st), 0, 2) == [b]
    requires st.dvs == map[(0, 7) := DeleteVector([0])]
    ensures TableRows(PoolsOf(st), st.snapshot, 0) == multiset{b}
  {
    hide Over;
    var f := ShownF(PoolsOf(st), st.snapshot, 0);
    var one, two: set<RowsetId> := {1}, {2};
    var p := PoolsOf(st);
    assert st.snapshot.dvs[0][1] == {7} && 2 !in st.snapshot.dvs[0] && p.dvs[(0, 7)].deletes[0] == 0;
    assert 7 in st.snapshot.dvs[0][1] && 0 in p.dvs[(0, 7)].deletes;
    assert 0 in DeadIn(p, st.snapshot, 0, 1) && DeadIn(p, st.snapshot, 0, 2) == {};
    assert Survivors([a], DeadIn(p, st.snapshot, 0, 1), 1) == [];
    assert Shown(p, st.snapshot, 0, 1) == [];
    AllSurvive([b], 0);
    assert one + two == {1, 2};
    OverSplit(one, two, f);
    OverOne(1, f);
    OverOne(2, f);
  }

  lemma {:induction false} BothCopied(st: Staged, a: Row, b: Row)
    requires st.snapshot.dvs == map[] && RowsIn(PoolsOf(st), 0, 1) == [a] && RowsIn(PoolsOf(st), 0, 2) == [b]
    ensures Flatten(Inputs(PoolsOf(st), st.snapshot, 0, [1, 2])) == [a, b]
  {
    AllSurvive([a], 0);
    AllSurvive([b], 0);
    var inputs := Inputs(PoolsOf(st), st.snapshot, 0, [1, 2]);
    assert inputs == [[a], [b]];
    FlattenSnoc([[a]], [b]);
    FlattenSnoc([], [a]);
    assert [] + [[a]] == [[a]] && [[a]] + [[b]] == inputs;
  }

  lemma {:induction false} BothBack(st: Staged, rows: seq<Row>)
    requires IdsOf(st.snapshot, 0) == {1, 2} && FreshId(st.snapshot, PoolsOf(st), 0, 3)
    ensures var r := After(st, 0, 3, rows, [1, 2]).staged; TableRows(PoolsOf(r), r.snapshot, 0) == multiset(rows)
  {
    hide Over, After, TableRows;
    var selected: seq<RowsetId> := [1, 2];
    assert SetOf(selected) == {1, 2};
    RowsAfter(st, 0, 3, rows, selected);
    assert IdsOf(st.snapshot, 0) - SetOf(selected) == {};
    OverNone(ShownF(PoolsOf(st), st.snapshot, 0));
  }

  lemma {:induction false} InsertTwo(st0: Staged, st1: Staged, a: DiskRowset, b: DiskRowset)
    requires st0 == Staged(EMPTY, map[], map[], [])
    requires st1 == Staged(Snapshot(map[0 := {1, 2}], map[]), map[(0, 1) := a, (0, 2) := b], map[], [])
    ensures Stage(st0, [AddRowSet((0, 1), a), AddRowSet((0, 2), b)]) == StageResult(true, st1)
  {
    var x, y := AddRowSet((0, 1), a), AddRowSet((0, 2), b);
    var one: set<RowsetId> := {1};
    assert {} + {1} == one && one + {2} == {1, 2};
    var mid := StageOne(st0, x).staged;
    assert mid.snapshot.rowsets == map[0 := one];
    assert [x, y][1..] == [y] && [y][1..] == [];
    assert StageOne(mid, y).staged == st1;
    assert Stage(mid, [y]) == Stage(st1, []);
  }

  lemma {:induction false} DeleteOne(st1: Staged, st2: Staged)
    requires st1.snapshot.dvs == map[] && st1.dvs == map[]
    requires st2 == st1.(dvs := map[(0, 7) := DeleteVector([0])],
                         snapshot := st1.snapshot.(dvs := map[0 := map[1 := {7}]]))
    ensures Stage(st1, [AddDV((0, 1, 7), DeleteVector([0]))]) == StageResult(true, st2)
  {
    var x := AddDV((0, 1, 7), DeleteVector([0]));
    var none: map<RowsetId, set<DvId>> := map[];
    assert {} + {7} == {7} && none[1 := {7}] == map[1 := {7}];
    assert st1.snapshot.AddDv((0, 1, 7)).dvs == map[0 := none[1 := {7}]];
    assert [x][1..] == [];
    assert Stage(st1, [x]) == Stage(StageOne(st1, x).staged, []);
  }

  lemma {:induction false} LaterDelete(st1: Staged, st2: Staged)
    requires IdsOf(st1.snapshot, 0) == {1, 2} && st1.snapshot.dvs == map[] && (0, 3) !in st1.rowsets
    requires (0, 1) in st1.rowsets && |st1.rowsets[(0, 1)].rows| == 1
    requires st2 == st1.(dvs := map[(0, 7) := DeleteVector([0])],
                         snapshot := st1.snapshot.(dvs := map[0 := map[1 := {7}]]))
    ensures StillThere(PoolsOf(st1), st1.snapshot, st2, 0, [1, 2]) && FreshId(st2.snapshot, PoolsOf(st2), 0, 3)
    ensures !NoLaterDelete(PoolsOf(st1), st1.snapshot, st2, 0, [1, 2])
  {
    var p, q := PoolsOf(st1), PoolsOf(st2);
    var selected: seq<RowsetId> := [1, 2];
    assert SetOf(selected) == {1, 2};
    assert DeadIn(q, st2.snapshot, 0, 3) == {};
    assert st2.snapshot.dvs[0][1] == {7} && q.dvs[(0, 7)].deletes[0] == 0;
    assert 7 in st2.snapshot.dvs[0][1] && 0 in q.dvs[(0, 7)].deletes;
    assert 0 in DeadIn(q, st2.snapshot, 0, 1) && 0 !in DeadIn(p, st1.snapshot, 0, 1);
    assert selected[0] == 1 && |RowsIn(p, 0, 1)| == 1;
  }
}
