/** The engine's own requests as histories: what has to happen for it to open again. */
module Engines {
  import opened Common
  import opened Snapshots
  import V = Versions
  import opened Manifests
  import opened Recovery
  import Compaction

  /** What the engine commits: tables created and dropped, a transaction's rowsets and delete vectors on
      one table, and compactions. */
  datatype Request =
    | Create(name: string)
    | Drop(table: TableId, listed: seq<Listed>)
    | Write(table: TableId, rowsets: seq<(RowsetId, V.DiskRowset)>, dvs: seq<(RowsetId, DvId, V.DeleteVector)>)
    | Compact(table: TableId, newId: RowsetId, rows: seq<Row>, selected: seq<RowsetId>)

  function AddAll(t: TableId, rowsets: seq<(RowsetId, V.DiskRowset)>): seq<V.EpochOp> {
    seq(|rowsets|, i requires 0 <= i < |rowsets| => V.AddRowSet((t, rowsets[i].0), rowsets[i].1))
  }

  function DeleteAll(t: TableId, dvs: seq<(RowsetId, DvId, V.DeleteVector)>): seq<V.EpochOp> {
    seq(|dvs|, i requires 0 <= i < |dvs| => V.AddDV((t, dvs[i].0, dvs[i].1), dvs[i].2))
  }

  function OpsOf(r: Request): seq<V.EpochOp> {
    match r
    case Create(name) => [V.CreateTable(name)]
    case Drop(t, ls) => DropOps(t, ls)
    case Write(t, rowsets, dvs) => AddAll(t, rowsets) + DeleteAll(t, dvs)
    case Compact(t, newId, rows, selected) => Compaction.Changes(t, newId, rows, selected)
  }

  /** `catalog` is the running engine's own. */
  datatype Engine = Engine(db: Db, catalog: Catalog)

  const NO_ENGINE := Engine(EMPTY_DB, NOTHING.catalog)

  /** The listing names rowsets and delete vectors of one table. */
  predicate ListsOf(t: TableId, ls: seq<Listed>) {
    forall i :: 0 <= i < |ls| ==> ls[i].rowset.0 == t && forall d :: d in ls[i].dvs ==> d.0 == t
  }

  /** Requests commit on top of whatever came after they started.  So a drop's listing may be out of date, a
      transaction may add to rowsets that are gone and to a table that has been dropped; only a compaction still
      finds its table. */
  ghost predicate Allowed(e: Engine, r: Request) {
    match r
    case Create(_) => true
    case Drop(t, ls) => t in e.catalog.tables && ListsOf(t, ls)
    case Write(t, _, _) => t < e.catalog.next
    case Compact(t, _, _, _) => t in e.catalog.tables
  }

  /** A table is created in the catalog after the commit; a name in use is an error at that point. */
  function CatalogAfter(c: Catalog, r: Request): Catalog {
    match r
    case Create(name) =>
      if name in c.tables.Values then c else Catalog(c.tables[c.next := name], c.next + 1)
    case Drop(t, _) => c.(tables := c.tables - {t})
    case _ => c
  }

  datatype Event =
    | Serve(r: Request)
    | DieServing(r: Request, n: nat, torn: bool)
    | Die
    | Open(ks: seq<RowsetKey>, ds: seq<DvKey>)
    | DieOpening

  /** The event in the history of the manifest. */
  function EventOf(ev: Event): Recovery.Event {
    match ev
    case Serve(r) => Commit(OpsOf(r))
    case DieServing(r, n, torn) => CrashInAppend(OpsOf(r), n, torn)
    case Die => Crash
    case Open(ks, ds) => Reopen(ks, ds)
    case DieOpening => CrashInReopen
  }

  ghost predicate Can(e: Engine, ev: Event) {
    Enabled(e.db, EventOf(ev)) && (ev.Serve? || ev.DieServing? ==> Allowed(e, ev.r))
  }

  ghost function Next(e: Engine, ev: Event): Engine
    requires Can(e, ev)
  {
    var db := Step(e.db, EventOf(ev));
    match ev
    case Serve(r) => Engine(db, CatalogAfter(e.catalog, r))
    case Open(_, _) => Engine(db, Bootstrap(e.db.file).value.catalog)
    case _ => Engine(db, e.catalog)
  }

  ghost predicate IsRun(es: seq<Engine>, evs: seq<Event>) {
    && |es| == |evs| + 1
    && es[0] == NO_ENGINE
    && forall i :: 0 <= i < |evs| ==> Can(es[i], evs[i]) && es[i + 1] == Next(es[i], evs[i])
  }

  /** Something of the table is not in the listing. */
  ghost predicate Leftover(s: Snapshot, t: TableId, ls: seq<Listed>) {
    || (exists k :: s.Has(k) && k.0 == t && !ListedRowset(ls, k))
    || (exists d :: s.HasDv(d) && d.0 == t && !ListedDv(ls, d))
  }

  /** The request cannot be replayed: its table name is in use, it drops a table of which something stays behind,
      or it adds to a table that has been dropped. */
  ghost predicate Blocks(e: Engine, r: Request) {
    match r
    case Create(name) => name in e.catalog.tables.Values
    case Drop(t, ls) => Leftover(e.db.current, t, ls)
    case Write(t, rowsets, dvs) => t !in e.catalog.tables && (rowsets != [] || dvs != [])
    case Compact(_, _, _, _) => false
  }

  /** The event leaves a manifest that cannot be replayed. */
  ghost predicate Fatal(e: Engine, ev: Event) {
    match ev
    case Serve(r) => Blocks(e, r)
    case DieServing(r, n, torn) => torn || (n == |OpsOf(r)| + 2 && Blocks(e, r))
    case _ => false
  }

  // ---- what requests touch ----

  /** Operations on the rowsets and delete vectors of one table. */
  predicate OnTable(ops: seq<V.EpochOp>, t: TableId) {
    forall i :: 0 <= i < |ops| ==>
      match ops[i]
      case AddRowSet(k, _) => k.0 == t
      case DeleteRowSet(k) => k.0 == t
      case AddDV(d, _) => d.0 == t
      case DeleteDV(d) => d.0 == t
      case _ => false
  }

  lemma {:induction false} OthersStay(st: V.Staged, ops: seq<V.EpochOp>, t: TableId)
    requires OnTable(ops, t) && V.Stage(st, ops).ok
    ensures var s' := V.Stage(st, ops).staged.snapshot;
            && (forall k: RowsetKey :: k.0 != t ==> (s'.Has(k) <==> st.snapshot.Has(k)))
            && (forall d: DvKey :: d.0 != t ==> (s'.HasDv(d) <==> st.snapshot.HasDv(d)))
    decreases |ops|
  {
    if ops != [] {
      match ops[0] {
        case AddRowSet(k, _) => AddRowsetMembers(st.snapshot, k);
        case DeleteRowSet(k) => DeleteRowsetMembers(st.snapshot, k);
        case AddDV(d, _) => AddDvMembers(st.snapshot, d);
        case DeleteDV(d) => DeleteDvMembers(st.snapshot, d);
      }
      OthersStay(V.StageOne(st, ops[0]).staged, ops[1..], t);
    }
  }

  predicate Changes(r: Request) {
    r.Write? || r.Compact?
  }

  lemma {:induction false} ChangesOnTable(r: Request)
    requires Changes(r)
    ensures OnTable(OpsOf(r), r.table)
  {}

  predicate OnlyAdds(ops: seq<V.EpochOp>) {
    forall i :: 0 <= i < |ops| ==> ops[i].AddRowSet? || ops[i].AddDV?
  }

  lemma {:induction false} AddsMembers(st: V.Staged, ops: seq<V.EpochOp>)
    requires OnlyAdds(ops)
    ensures V.Stage(st, ops).ok
    ensures var s' := V.Stage(st, ops).staged.snapshot;
            && (forall k :: st.snapshot.Has(k) ==> s'.Has(k))
            && (forall d :: st.snapshot.HasDv(d) ==> s'.HasDv(d))
            && (forall i :: 0 <= i < |ops| ==> if ops[i].AddRowSet? then s'.Has(ops[i].rowset) else s'.HasDv(ops[i].dv))
    decreases |ops|
  {
    if ops != [] {
      match ops[0] {
        case AddRowSet(k, _) => AddRowsetMembers(st.snapshot, k);
        case AddDV(d, _) => AddDvMembers(st.snapshot, d);
      }
      AddsMembers(V.StageOne(st, ops[0]).staged, ops[1..]);
      assert forall i :: 1 <= i < |ops| ==> ops[i] == ops[1..][i - 1];
    }
  }

  lemma {:induction false} WriteAdds(r: Request)
    requires r.Write?
    ensures OnlyAdds(OpsOf(r)) && |OpsOf(r)| == |r.rowsets| + |r.dvs|
  {}

  /** What a drop leaves. */
  lemma {:induction false} DropMembers(s: Snapshot, t: TableId, ls: seq<Listed>)
    requires After(s, DropOps(t, ls)).ok
    ensures var s' := After(s, DropOps(t, ls)).staged.snapshot;
            && (forall k :: s'.Has(k) <==> s.Has(k) && !ListedRowset(ls, k))
            && (forall d :: s'.HasDv(d) <==> s.HasDv(d) && !ListedDv(ls, d))
  {
    assert DropOps(t, ls)[1..] == DeleteListed(ls);
    DeleteListedMembers(V.Staged(s, map[], map[], []), ls);
  }

  lemma {:induction false} CreateKeepsSnapshot(s: Snapshot, name: string)
    ensures After(s, [V.CreateTable(name)]).ok && After(s, [V.CreateTable(name)]).staged.snapshot == s
  {
    var st := V.Staged(s, map[], map[], []);
    assert [V.CreateTable(name)][1..] == [];
    assert V.Stage(st, [V.CreateTable(name)]) == V.Stage(st, []);
  }

  /** Replaying a request's log does to a replayed catalog what serving it does to the engine's. */
  lemma {:induction false} RequestReplayed(log: seq<ManifestOp>, e: Engine, r: Request)
    requires Recover(NOTHING, log).Some? && Recover(NOTHING, log).value.catalog == e.catalog && Allowed(e, r)
    ensures var after := Recover(NOTHING, log + LogAll(OpsOf(r)));
            if r.Create? && Blocks(e, r) then after.None?
            else after.Some? && after.value.catalog == CatalogAfter(e.catalog, r)
  {
    var ops, m := LogAll(OpsOf(r)), Recover(NOTHING, log).value;
    RecoverConcat(NOTHING, log, ops);
    match r {
      case Create(name) =>
        assert ops == [CreateTable(name)] && ops[1..] == [];
        assert Recover(m, ops) ==
               match RecoverOne(m, ops[0]) case Some(r') => Recover(r', []) case None => None;
      case Drop(t, ls) => DropReplayed(log, t, ls);
      case _ =>
        ChangesOnTable(r);
        KeepsCatalog(m, ops);
    }
  }

  // ---- what holds in every run ----

  ghost predicate NumbersBelow(c: Catalog) {
    forall t :: t in c.tables ==> t < c.next
  }

  ghost predicate Base(e: Engine) {
    && Inv(e.db) && e.db.leaked == 0
    && (e.db.running ==> e.db.stray == [] && NumbersBelow(e.catalog))
  }

  lemma {:induction false} RecoverNumbers(r: Recovered, ops: seq<ManifestOp>)
    requires NumbersBelow(r.catalog) && Recover(r, ops).Some?
    ensures NumbersBelow(Recover(r, ops).value.catalog)
    decreases |ops|
  {
    if ops != [] {
      RecoverNumbers(RecoverOne(r, ops[0]).value, ops[1..]);
    }
  }

  lemma {:induction false} NextBase(e: Engine, ev: Event)
    requires Base(e) && Can(e, ev)
    ensures Base(Next(e, ev))
  {
    StepKeepsInv(e.db, EventOf(ev));
    if ev.Open? {
      RecoverNumbers(NOTHING, Replayed(e.db.file).value);
    }
  }

  // ---- opening again ----

  ghost predicate Opens(e: Engine) {
    && Bootstrap(e.db.file).Some?
    && (e.db.running ==> Bootstrap(e.db.file).value.catalog == e.catalog)
  }

  /** A rowset or a delete vector of a table that is gone for good. */
  ghost predicate StrandedRowset(s: Snapshot, c: Catalog, k: RowsetKey) {
    s.Has(k) && k.0 !in c.tables && k.0 < c.next
  }

  ghost predicate StrandedDv(s: Snapshot, c: Catalog, d: DvKey) {
    s.HasDv(d) && d.0 !in c.tables && d.0 < c.next
  }

  ghost predicate Stranded(s: Snapshot, c: Catalog) {
    (exists k :: StrandedRowset(s, c, k)) || (exists d :: StrandedDv(s, c, d))
  }

  /** The engine is closed, or closes one day, with a manifest that it cannot open. */
  ghost predicate Stuck(e: Engine) {
    var r := Recover(NOTHING, e.db.log);
    || (e.db.file.torn && !e.db.running)
    || r.None?
    || ((e.db.running ==> r.value.catalog == e.catalog) && Stranded(e.db.last, r.value.catalog))
  }

  lemma {:induction false} StuckDoesNotOpen(e: Engine)
    requires Base(e) && Stuck(e)
    ensures Bootstrap(e.db.file).None?
  {
    OpensIff(e.db);
  }

  /** The snapshot and the log after a request that reaches its End record. */
  ghost predicate Served(e: Engine, r: Request, e': Engine) {
    && e.db.running && V.Stage(V.Staged(e.db.current, map[], map[], []), OpsOf(r)).ok && Allowed(e, r)
    && e'.db.last == After(e.db.current, OpsOf(r)).staged.snapshot
    && e'.db.log == e.db.log + LogAll(OpsOf(r))
    && e'.db.file.torn == e.db.file.torn
    && (e'.db.running ==> e'.catalog == CatalogAfter(e.catalog, r))
  }

  lemma {:induction false} DropServed(s: Snapshot, c: Catalog, t: TableId, ls: seq<Listed>)
    requires After(s, DropOps(t, ls)).ok && t in c.tables && NumbersBelow(c)
    requires (forall k :: s.Has(k) ==> k.0 in c.tables) && (forall d :: s.HasDv(d) ==> d.0 in c.tables)
    ensures var s', tables := After(s, DropOps(t, ls)).staged.snapshot, c.tables - {t};
            && (Leftover(s, t, ls) ==> Stranded(s', c.(tables := tables)))
            && (!Leftover(s, t, ls) ==> forall k :: s'.Has(k) ==> k.0 in tables)
            && (!Leftover(s, t, ls) ==> forall d :: s'.HasDv(d) ==> d.0 in tables)
  {
    DropMembers(s, t, ls);
    var s', c' := After(s, DropOps(t, ls)).staged.snapshot, c.(tables := c.tables - {t});
    if Leftover(s, t, ls) {
      if k :| s.Has(k) && k.0 == t && !ListedRowset(ls, k) {
        assert StrandedRowset(s', c', k);
      } else {
        var d :| s.HasDv(d) && d.0 == t && !ListedDv(ls, d);
        assert StrandedDv(s', c', d);
      }
    }
  }

  lemma {:induction false} WriteServed(s: Snapshot, c: Catalog, r: Request)
    requires r.Write? && r.table !in c.tables && r.table < c.next && (r.rowsets != [] || r.dvs != [])
    ensures Stranded(After(s, OpsOf(r)).staged.snapshot, c)
  {
    var st, ops := V.Staged(s, map[], map[], []), OpsOf(r);
    WriteAdds(r);
    ChangesOnTable(r);
    AddsMembers(st, ops);
    var s' := V.Stage(st, ops).staged.snapshot;
    if ops[0].AddRowSet? {
      assert StrandedRowset(s', c, ops[0].rowset);
    } else {
      assert StrandedDv(s', c, ops[0].dv);
    }
  }

  lemma {:induction false} ServedOpens(e: Engine, r: Request, e': Engine)
    requires Base(e) && Opens(e) && Base(e') && Served(e, r, e')
    ensures Blocks(e, r) ==> Stuck(e')
    ensures !Blocks(e, r) ==> Opens(e')
  {
    hide Stranded, Leftover, Recover;
    OpensIff(e.db);
    OpensIff(e'.db);
    RequestReplayed(e.db.log, e, r);
    match r {
      case Create(name) => CreateKeepsSnapshot(e.db.current, name);
      case Drop(t, ls) => DropServed(e.db.current, e.catalog, t, ls);
      case Write(t, rowsets, dvs) =>
        ChangesOnTable(r);
        OthersStay(V.Staged(e.db.current, map[], map[], []), OpsOf(r), t);
        if t !in e.catalog.tables {
          if rowsets == [] && dvs == [] {
            assert OpsOf(r) == [];
          } else {
            WriteServed(e.db.current, e.catalog, r);
          }
        }
      case Compact(t, _, _, _) =>
        ChangesOnTable(r);
        OthersStay(V.Staged(e.db.current, map[], map[], []), OpsOf(r), t);
    }
  }

  /** What belongs to a table that is gone stays through every request. */
  lemma {:induction false} StrandedStays(e: Engine, r: Request)
    requires e.db.running && Allowed(e, r) && After(e.db.current, OpsOf(r)).ok && Stranded(e.db.current, e.catalog)
    ensures Stranded(After(e.db.current, OpsOf(r)).staged.snapshot, CatalogAfter(e.catalog, r))
  {
    var s, s', c' := e.db.current, After(e.db.current, OpsOf(r)).staged.snapshot, CatalogAfter(e.catalog, r);
    RequestKeeps(e, r);
    if k :| StrandedRowset(s, e.catalog, k) {
      assert StrandedRowset(s', c', k);
    } else {
      var d :| StrandedDv(s, e.catalog, d);
      assert StrandedDv(s', c', d);
    }
  }

  lemma {:induction false} RequestKeeps(e: Engine, r: Request)
    requires e.db.running && Allowed(e, r) && After(e.db.current, OpsOf(r)).ok
    ensures var s, s' := e.db.current, After(e.db.current, OpsOf(r)).staged.snapshot;
            && (forall k :: s.Has(k) && k.0 !in e.catalog.tables ==> s'.Has(k))
            && (forall d :: s.HasDv(d) && d.0 !in e.catalog.tables ==> s'.HasDv(d))
  {
    var st := V.Staged(e.db.current, map[], map[], []);
    match r {
      case Create(name) => CreateKeepsSnapshot(e.db.current, name);
      case Drop(t, ls) => DropMembers(e.db.current, t, ls);
      case Write(_, _, _) =>
        WriteAdds(r);
        AddsMembers(st, OpsOf(r));
      case Compact(t, _, _, _) =>
        ChangesOnTable(r);
        OthersStay(st, OpsOf(r), t);
    }
  }

  lemma {:induction false} ServedStuck(e: Engine, r: Request, e': Engine)
    requires Base(e) && Stuck(e) && Base(e') && Served(e, r, e')
    ensures Stuck(e')
  {
    hide Stranded;
    RecoverConcat(NOTHING, e.db.log, LogAll(OpsOf(r)));
    if Recover(NOTHING, e.db.log).Some? {
      RequestReplayed(e.db.log, e, r);
      StrandedStays(e, r);
    }
  }

  lemma {:induction false} NextOpens(e: Engine, ev: Event)
    requires Base(e) && Opens(e) && Can(e, ev)
    ensures Fatal(e, ev) ==> Stuck(Next(e, ev))
    ensures !Fatal(e, ev) ==> Opens(Next(e, ev))
  {
    var e' := Next(e, ev);
    NextBase(e, ev);
    OpensIff(e.db);
    match ev {
      case Serve(r) => ServedOpens(e, r, e');
      case DieServing(r, n, torn) =>
        if n == |OpsOf(r)| + 2 {
          ServedOpens(e, r, e');
        } else {
          OpensIff(e'.db);
        }
      case Open(ks, ds) => RewrittenRecoversSame(e.db.file, ks, ds);
      case _ =>
    }
  }

  lemma {:induction false} NextStuck(e: Engine, ev: Event)
    requires Base(e) && Stuck(e) && Can(e, ev)
    ensures Stuck(Next(e, ev))
  {
    var e' := Next(e, ev);
    NextBase(e, ev);
    StuckDoesNotOpen(e);
    match ev {
      case Serve(r) => ServedStuck(e, r, e');
      case DieServing(r, n, torn) =>
        if n == |OpsOf(r)| + 2 {
          ServedStuck(e, r, e');
        } else {
          assert e'.db.last == e.db.last && e'.db.log == e.db.log;
        }
      case _ =>
    }
  }

  ghost predicate NoFatal(es: seq<Engine>, evs: seq<Event>, i: nat)
    requires i <= |evs| < |es|
  {
    forall j :: 0 <= j < i ==> !Fatal(es[j], evs[j])
  }

  lemma {:induction false} RunStates(es: seq<Engine>, evs: seq<Event>, i: nat)
    requires IsRun(es, evs) && i < |es|
    ensures Base(es[i])
    ensures if NoFatal(es, evs, i) then Opens(es[i]) else Stuck(es[i])
  {
    if i > 0 {
      RunStates(es, evs, i - 1);
      assert Can(es[i - 1], evs[i - 1]) && es[i - 1 + 1] == Next(es[i - 1], evs[i - 1]);
      NextBase(es[i - 1], evs[i - 1]);
      if NoFatal(es, evs, i - 1) {
        NextOpens(es[i - 1], evs[i - 1]);
      } else {
        NextStuck(es[i - 1], evs[i - 1]);
      }
    }
  }

  /** In every run of the engine: it can be opened from its manifest if and only if it has never died in
      the middle of a record, never logged a table name in use, never dropped a table of which something stayed
      behind and never added to a dropped table.  What blocks it once blocks it for good. */
  lemma {:induction false} ReopensIff(es: seq<Engine>, evs: seq<Event>, i: nat)
    requires IsRun(es, evs) && i < |es|
    ensures Bootstrap(es[i].db.file).Some? <==> forall j :: 0 <= j < i ==> !Fatal(es[j], evs[j])
  {
    RunStates(es, evs, i);
    if !NoFatal(es, evs, i) {
      StuckDoesNotOpen(es[i]);
    }
  }

  /** A listing of the table as it is at the commit leaves exactly the delete vectors that outlived their rowset. */
  lemma {:induction false} LeftoverIsOrphan(s: Snapshot, t: TableId, ls: seq<Listed>)
    requires ListsTable(s, t, ls)
    ensures Leftover(s, t, ls) <==> exists d :: Orphan(s, d) && d.0 == t
  {
    if d :| s.HasDv(d) && d.0 == t && !ListedDv(ls, d) {
      assert Orphan(s, d);
    }
    if d :| Orphan(s, d) && d.0 == t {
      assert !ListedDv(ls, d);
    }
  }

  /** A drop of the table as it is leaves an engine that opens if and only if it opened before and the table had no
      delete vector that outlived its rowset; otherwise it never opens again. */
  lemma {:induction false} DropOfOrphanBlocksReopen(es: seq<Engine>, evs: seq<Event>, i: nat, t: TableId,
                                                    ls: seq<Listed>)
    requires IsRun(es, evs) && i < |evs| && evs[i] == Serve(Drop(t, ls)) && ListsTable(es[i].db.current, t, ls)
    ensures Bootstrap(es[i + 1].db.file).Some? <==>
              Bootstrap(es[i].db.file).Some? && !exists d :: Orphan(es[i].db.current, d) && d.0 == t
    ensures (exists d :: Orphan(es[i].db.current, d) && d.0 == t) ==>
              forall k :: i < k < |es| ==> Bootstrap(es[k].db.file).None?
  {
    LeftoverIsOrphan(es[i].db.current, t, ls);
    ReopensIff(es, evs, i);
    ReopensIff(es, evs, i + 1);
    forall k | i < k < |es| && Fatal(es[i], evs[i]) ensures Bootstrap(es[k].db.file).None? {
      ReopensIff(es, evs, k);
    }
  }
}
