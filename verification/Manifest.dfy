/** The Begin/End manifest and the recovery that replays it. */
module Manifests {
  import opened Common
  import opened Snapshots
  import Versions

  datatype ManifestOp =
    | CreateTable(name: string)
    | DropTable(table: TableId)
    | AddRowSet(rowset: RowsetKey)
    | DeleteRowSet(rowset: RowsetKey)
    | AddDV(dv: DvKey)
    | DeleteDV(dv: DvKey)

  datatype Record = Begin | End | Entry(op: ManifestOp)

  /** The records of the file; `torn` says that one of them was cut in the middle, so that the text does
      not parse. */
  datatype ManifestFile = ManifestFile(records: seq<Record>, torn: bool)

  /** The manifest entry of an operation: the object itself is not logged. */
  function Log(op: Versions.EpochOp): ManifestOp {
    match op
    case CreateTable(name) => CreateTable(name)
    case DropTable(t) => DropTable(t)
    case AddRowSet(k, _) => AddRowSet(k)
    case DeleteRowSet(k) => DeleteRowSet(k)
    case AddDV(k, _) => AddDV(k)
    case DeleteDV(k) => DeleteDV(k)
  }

  function LogAll(ops: seq<Versions.EpochOp>): seq<ManifestOp> {
    seq(|ops|, i requires 0 <= i < |ops| => Log(ops[i]))
  }

  function Entries(ops: seq<ManifestOp>): seq<Record> {
    seq(|ops|, i requires 0 <= i < |ops| => Entry(ops[i]))
  }

  function Appended(ops: seq<ManifestOp>): seq<Record> {
    [Begin] + Entries(ops) + [End]
  }

  // ---- replay ----

  datatype Scan = Scan(ops: seq<ManifestOp>, buffered: seq<ManifestOp>, begin: bool)

  function ScanOne(s: Scan, r: Record): Scan {
    match r
    case Begin => s.(begin := true)
    case End => Scan(s.ops + s.buffered, [], false)
    case Entry(op) => if s.begin then s.(buffered := s.buffered + [op]) else s
  }

  function ScanAll(s: Scan, records: seq<Record>): Scan
    decreases |records|
  {
    if records == [] then s else ScanAll(ScanOne(s, records[0]), records[1..])
  }

  const FRESH_SCAN := Scan([], [], false)

  function Replayed(file: ManifestFile): Option<seq<ManifestOp>> {
    if file.torn then None else Some(ScanAll(FRESH_SCAN, file.records).ops)
  }

  method Replay(file: ManifestFile) returns (r: Option<seq<ManifestOp>>)
    ensures r == Replayed(file)
  {
    var ops: seq<ManifestOp> := [];
    var buffered: seq<ManifestOp> := [];
    var begin := false;
    for i := 0 to |file.records|
      invariant ScanAll(Scan(ops, buffered, begin), file.records[i..]) == ScanAll(FRESH_SCAN, file.records)
    {
      match file.records[i] {
        case Begin =>
          begin := true;
        case End =>
          ops := ops + buffered;
          buffered := [];
          begin := false;
        case Entry(op) =>
          if begin {
            buffered := buffered + [op];
          }
      }
    }
    r := if file.torn then None else Some(ops);
  }

  lemma {:induction false} ScanConcat(s: Scan, a: seq<Record>, b: seq<Record>)
    ensures ScanAll(s, a + b) == ScanAll(ScanAll(s, a), b)
    decreases |a|
  {
    if a == [] {
      assert a + b == b;
    } else {
      assert (a + b)[1..] == a[1..] + b;
      ScanConcat(ScanOne(s, a[0]), a[1..], b);
    }
  }

  lemma {:induction false} ScanEntries(s: Scan, ops: seq<ManifestOp>)
    requires s.begin
    ensures ScanAll(s, Entries(ops)) == s.(buffered := s.buffered + ops)
    decreases |ops|
  {
    if ops == [] {
      assert Entries(ops) == [];
      assert s.buffered + ops == s.buffered;
    } else {
      assert Entries(ops)[1..] == Entries(ops[1..]);
      var s' := ScanOne(s, Entries(ops)[0]);
      ScanEntries(s', ops[1..]);
      assert s.buffered + [ops[0]] + ops[1..] == s.buffered + ops;
    }
  }

  /** Any proper record prefix of an append leaves its entries buffered. */
  lemma {:induction false} ScanPrefix(s: Scan, ops: seq<ManifestOp>, n: nat)
    requires n <= |ops|
    ensures ScanAll(s, [Begin] + Entries(ops)[..n]) == Scan(s.ops, s.buffered + ops[..n], true)
  {
    assert Entries(ops)[..n] == Entries(ops[..n]);
    ScanConcat(s, [Begin], Entries(ops[..n]));
    assert ScanAll(s, [Begin]) == ScanAll(ScanOne(s, Begin), []);
    ScanEntries(ScanOne(s, Begin), ops[..n]);
  }

  /** A complete append commits whatever was buffered before it together with its own entries. */
  lemma {:induction false} ScanAppend(s: Scan, ops: seq<ManifestOp>)
    ensures ScanAll(s, Appended(ops)) == Scan(s.ops + (s.buffered + ops), [], false)
  {
    ScanConcat(s, [Begin] + Entries(ops), [End]);
    assert Entries(ops)[..|ops|] == Entries(ops) && ops[..|ops|] == ops;
    ScanPrefix(s, ops, |ops|);
    var m := Scan(s.ops, s.buffered + ops, true);
    assert ScanAll(m, [End]) == ScanAll(ScanOne(m, End), []);
  }

  // ---- the fold that rebuilds the rowset and delete-vector sets ----

  datatype Catalog = Catalog(tables: map<TableId, string>, next: TableId)

  datatype Recovered = Recovered(
    rowsets: set<RowsetKey>,
    dvs: set<DvKey>,
    nextRowset: RowsetId,
    nextDv: DvId,
    catalog: Catalog,
    tableOps: seq<ManifestOp>)

  const NOTHING := Recovered({}, {}, 0, 0, Catalog(map[], 0), [])

  function Max(a: nat, b: nat): nat {
    if a < b then b else a
  }

  /** `None` is the error of creating a table twice or dropping an unknown one. */
  function RecoverOne(r: Recovered, op: ManifestOp): Option<Recovered> {
    match op
    case CreateTable(name) =>
      if name in r.catalog.tables.Values then None
      else Some(r.(catalog := Catalog(r.catalog.tables[r.catalog.next := name], r.catalog.next + 1),
                   tableOps := r.tableOps + [op]))
    case DropTable(t) =>
      if t !in r.catalog.tables then None
      else Some(r.(catalog := r.catalog.(tables := r.catalog.tables - {t}), tableOps := r.tableOps + [op]))
    case AddRowSet(k) => Some(r.(nextRowset := Max(r.nextRowset, k.1 + 1), rowsets := r.rowsets + {k}))
    case DeleteRowSet(k) => Some(r.(rowsets := r.rowsets - {k}))
    case AddDV(k) => Some(r.(nextDv := Max(r.nextDv, k.2 + 1), dvs := r.dvs + {k}))
    case DeleteDV(k) => Some(r.(dvs := r.dvs - {k}))
  }

  function Recover(r: Recovered, ops: seq<ManifestOp>): Option<Recovered>
    decreases |ops|
  {
    if ops == [] then Some(r)
    else
      match RecoverOne(r, ops[0])
      case Some(r') => Recover(r', ops[1..])
      case None => None
  }

  /** Every recovered id belongs to a table that still exists; otherwise opening it panics. */
  predicate AllTablesExist(r: Recovered) {
    && (forall k :: k in r.rowsets ==> k.0 in r.catalog.tables)
    && (forall k :: k in r.dvs ==> k.0 in r.catalog.tables)
  }

  /** `None` when the engine cannot be opened. */
  function Bootstrap(file: ManifestFile): Option<Recovered> {
    match Replayed(file)
    case None => None
    case Some(ops) =>
      match Recover(NOTHING, ops)
      case None => None
      case Some(r) => if AllTablesExist(r) then Some(r) else None
  }

  method RecoverLoop(ops: seq<ManifestOp>) returns (r: Option<Recovered>)
    ensures r == Recover(NOTHING, ops)
  {
    var rowsets: set<RowsetKey>, dvs: set<DvKey> := {}, {};
    var nextRowset: RowsetId, nextDv: DvId := 0, 0;
    var catalog := Catalog(map[], 0);
    var tableOps: seq<ManifestOp> := [];
    for i := 0 to |ops|
      invariant Recover(Recovered(rowsets, dvs, nextRowset, nextDv, catalog, tableOps), ops[i..]) ==
                Recover(NOTHING, ops)
    {
      assert ops[i..][1..] == ops[i + 1..];
      match ops[i] {
        case CreateTable(name) =>
          if name in catalog.tables.Values {
            return None;
          }
          catalog := Catalog(catalog.tables[catalog.next := name], catalog.next + 1);
          tableOps := tableOps + [ops[i]];
        case DropTable(t) =>
          if t !in catalog.tables {
            return None;
          }
          catalog := catalog.(tables := catalog.tables - {t});
          tableOps := tableOps + [ops[i]];
        case AddRowSet(k) =>
          nextRowset := Max(nextRowset, k.1 + 1);
          rowsets := rowsets + {k};
        case DeleteRowSet(k) =>
          rowsets := rowsets - {k};
        case AddDV(k) =>
          nextDv := Max(nextDv, k.2 + 1);
          dvs := dvs + {k};
        case DeleteDV(k) =>
          dvs := dvs - {k};
      }
    }
    r := Some(Recovered(rowsets, dvs, nextRowset, nextDv, catalog, tableOps));
  }

  lemma {:induction false} RecoverConcat(r: Recovered, a: seq<ManifestOp>, b: seq<ManifestOp>)
    ensures Recover(r, a + b) == match Recover(r, a) case Some(m) => Recover(m, b) case None => None
    decreases |a|
  {
    if a == [] {
      assert a + b == b;
    } else {
      assert (a + b)[1..] == a[1..] + b;
      if RecoverOne(r, a[0]).Some? {
        RecoverConcat(RecoverOne(r, a[0]).value, a[1..], b);
      }
    }
  }

  // ---- the manifest a successful bootstrap writes ----

  function AddRowSets(ks: seq<RowsetKey>): seq<ManifestOp> {
    seq(|ks|, i requires 0 <= i < |ks| => AddRowSet(ks[i]))
  }

  function AddDVs(ks: seq<DvKey>): seq<ManifestOp> {
    seq(|ks|, i requires 0 <= i < |ks| => AddDV(ks[i]))
  }

  /** The changeset rebuilt from the recovered sets, listed in the hash maps' arbitrary order. */
  function Rewritten(r: Recovered, ks: seq<RowsetKey>, ds: seq<DvKey>): seq<ManifestOp> {
    AddRowSets(ks) + AddDVs(ds) + r.tableOps
  }

  ghost predicate Lists(r: Recovered, ks: seq<RowsetKey>, ds: seq<DvKey>) {
    && (forall k :: k in ks <==> k in r.rowsets)
    && (forall k :: k in ds <==> k in r.dvs)
  }

  lemma {:induction false} RecoverAddRowSets(r: Recovered, ks: seq<RowsetKey>)
    ensures Recover(r, AddRowSets(ks)).Some?
    ensures var r' := Recover(r, AddRowSets(ks)).value;
            && (forall k :: k in r'.rowsets <==> k in r.rowsets || k in ks)
            && r' == r.(rowsets := r'.rowsets, nextRowset := r'.nextRowset)
            && r.nextRowset <= r'.nextRowset
            && (forall k :: k in ks ==> k.1 < r'.nextRowset)
            && (r'.nextRowset == r.nextRowset || exists k :: k in ks && r'.nextRowset == k.1 + 1)
    decreases |ks|
  {
    if ks != [] {
      assert AddRowSets(ks)[1..] == AddRowSets(ks[1..]);
      var m := RecoverOne(r, AddRowSet(ks[0])).value;
      RecoverAddRowSets(m, ks[1..]);
      assert forall k :: k in ks <==> k == ks[0] || k in ks[1..];
    }
  }

  lemma {:induction false} RecoverAddDVs(r: Recovered, ks: seq<DvKey>)
    ensures Recover(r, AddDVs(ks)).Some?
    ensures var r' := Recover(r, AddDVs(ks)).value;
            && (forall k :: k in r'.dvs <==> k in r.dvs || k in ks)
            && r' == r.(dvs := r'.dvs, nextDv := r'.nextDv)
            && r.nextDv <= r'.nextDv
            && (forall k :: k in ks ==> k.2 < r'.nextDv)
            && (r'.nextDv == r.nextDv || exists k :: k in ks && r'.nextDv == k.2 + 1)
    decreases |ks|
  {
    if ks != [] {
      assert AddDVs(ks)[1..] == AddDVs(ks[1..]);
      RecoverAddDVs(RecoverOne(r, AddDV(ks[0])).value, ks[1..]);
      assert forall k :: k in ks <==> k == ks[0] || k in ks[1..];
    }
  }

  predicate IsTableOp(op: ManifestOp) {
    op.CreateTable? || op.DropTable?
  }

  /** Replaying the table operations alone rebuilds the same catalog, ids included. */
  lemma {:induction false} TableOpsRebuildCatalog(ops: seq<ManifestOp>)
    requires Recover(NOTHING, ops).Some?
    ensures var r := Recover(NOTHING, ops).value;
            && Recover(NOTHING, r.tableOps) == Some(NOTHING.(catalog := r.catalog, tableOps := r.tableOps))
    decreases |ops|
  {
    if ops != [] {
      var init, last := ops[..|ops| - 1], ops[|ops| - 1];
      assert ops == init + [last];
      RecoverConcat(NOTHING, init, [last]);
      TableOpsRebuildCatalog(init);
      var m := Recover(NOTHING, init).value;
      assert Recover(m, [last]) == match RecoverOne(m, last) case Some(r') => Recover(r', []) case None => None;
      if IsTableOp(last) {
        var t := NOTHING.(catalog := m.catalog, tableOps := m.tableOps);
        RecoverConcat(NOTHING, m.tableOps, [last]);
        assert Recover(t, [last]) == match RecoverOne(t, last) case Some(r') => Recover(r', []) case None => None;
      }
    }
  }

  lemma {:induction false} TableOpsCommute(r: Recovered, t: Recovered, ops: seq<ManifestOp>)
    requires forall i :: 0 <= i < |ops| ==> IsTableOp(ops[i])
    requires Recover(t, ops).Some? && r.catalog == t.catalog && r.tableOps == t.tableOps
    ensures Recover(r, ops) == Some(r.(catalog := Recover(t, ops).value.catalog,
            tableOps := Recover(t, ops).value.tableOps))
    decreases |ops|
  {
    if ops != [] {
      assert IsTableOp(ops[0]);
      TableOpsCommute(RecoverOne(r, ops[0]).value, RecoverOne(t, ops[0]).value, ops[1..]);
    }
  }

  lemma {:induction false} TableOpsOnly(r: Recovered, ops: seq<ManifestOp>)
    requires Recover(r, ops).Some?
    requires forall i :: 0 <= i < |r.tableOps| ==> IsTableOp(r.tableOps[i])
    ensures var r' := Recover(r, ops).value; forall i :: 0 <= i < |r'.tableOps| ==> IsTableOp(r'.tableOps[i])
    decreases |ops|
  {
    if ops != [] {
      TableOpsOnly(RecoverOne(r, ops[0]).value, ops[1..]);
    }
  }

  /** The least id above every id of the set. */
  ghost predicate OneAboveAll(n: RowsetId, ks: set<RowsetKey>) {
    && (forall k :: k in ks ==> k.1 < n)
    && (n == 0 || exists k :: k in ks && n == k.1 + 1)
  }

  ghost predicate OneAboveAllDvs(n: DvId, ks: set<DvKey>) {
    && (forall k :: k in ks ==> k.2 < n)
    && (n == 0 || exists k :: k in ks && n == k.2 + 1)
  }

  /** The manifest a bootstrap writes opens again and recovers the same sets, catalog and table
      operations, whatever order the recovered ids were listed in. */
  lemma {:induction false} RewrittenRecoversSame(file: ManifestFile, ks: seq<RowsetKey>, ds: seq<DvKey>)
    requires Bootstrap(file).Some? && Lists(Bootstrap(file).value, ks, ds)
    ensures var r := Bootstrap(file).value;
            var again := Bootstrap(ManifestFile(Appended(Rewritten(r, ks, ds)), false));
            && again.Some?
            && again.value == r.(nextRowset := again.value.nextRowset, nextDv := again.value.nextDv)
            && OneAboveAll(again.value.nextRowset, r.rowsets)
            && OneAboveAllDvs(again.value.nextDv, r.dvs)
  {
    var r := Bootstrap(file).value;
    var ops := Rewritten(r, ks, ds);
    ScanAppend(FRESH_SCAN, ops);
    assert [] + ([] + ops) == ops;
    RecoverConcat(NOTHING, AddRowSets(ks) + AddDVs(ds), r.tableOps);
    RecoverConcat(NOTHING, AddRowSets(ks), AddDVs(ds));
    RecoverAddRowSets(NOTHING, ks);
    var r1 := Recover(NOTHING, AddRowSets(ks)).value;
    RecoverAddDVs(r1, ds);
    var r2 := Recover(r1, AddDVs(ds)).value;
    assert r2.rowsets == r.rowsets && r2.dvs == r.dvs;
    TableOpsRebuildCatalog(Replayed(file).value);
    TableOpsOnly(NOTHING, Replayed(file).value);
    TableOpsCommute(r2, NOTHING, r.tableOps);
  }
}
