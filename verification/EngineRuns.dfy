/** Short runs that reach the failures of recovery. */
module EngineRuns {
  import opened Common
  import opened Snapshots
  import V = Versions
  import opened Manifests
  import opened Recovery
  import opened Engines
  import Compaction

  lemma {:induction false} Extend(es: seq<Engine>, evs: seq<Engines.Event>, ev: Engines.Event)
    requires IsRun(es, evs) && Can(es[|evs|], ev)
    ensures IsRun(es + [Next(es[|evs|], ev)], evs + [ev])
  {
    var es', evs' := es + [Next(es[|evs|], ev)], evs + [ev];
    forall i | 0 <= i < |evs'| ensures Can(es'[i], evs'[i]) && es'[i + 1] == Next(es'[i], evs'[i]) {
      if i < |evs| {
        assert Can(es[i], evs[i]) && es[i + 1] == Next(es[i], evs[i]);
      }
    }
  }

  lemma {:induction false} StageCons(st: V.Staged, op: V.EpochOp, rest: seq<V.EpochOp>)
    ensures V.Stage(st, [op] + rest) == if V.StageOne(st, op).ok then V.Stage(V.StageOne(st, op).staged, rest)
                                        else V.StageOne(st, op)
  {
    assert ([op] + rest)[1..] == rest;
  }

  /** A running engine on a table `0`, with this snapshot. */
  ghost predicate At(e: Engine, s: Snapshot) {
    e.db.running && e.db.current == s && e.catalog.tables == map[0 := "t"]
  }

  ghost function Last(es: seq<Engine>): Engine
    requires es != []
  {
    es[|es| - 1]
  }

  lemma {:induction false} NumbersOf(es: seq<Engine>, evs: seq<Engines.Event>, s: Snapshot)
    requires IsRun(es, evs) && At(Last(es), s)
    ensures Last(es).catalog.next > 0
  {
    RunStates(es, evs, |evs|);
    assert 0 in Last(es).catalog.tables;
  }

  /** Serving one request more. */
  lemma {:induction false} Continue(es: seq<Engine>, evs: seq<Engines.Event>, s: Snapshot, r: Request)
    returns (es': seq<Engine>, evs': seq<Engines.Event>)
    requires IsRun(es, evs) && At(Last(es), s) && Changes(r) && r.table == 0 && After(s, OpsOf(r)).ok
    ensures IsRun(es', evs') && At(Last(es'), After(s, OpsOf(r)).staged.snapshot)
    ensures NoFatal(es, evs, |evs|) ==> NoFatal(es', evs', |evs'|)
  {
    NumbersOf(es, evs, s);
    Extend(es, evs, Serve(r));
    es', evs' := es + [Next(Last(es), Serve(r))], evs + [Serve(r)];
  }

  lemma {:induction false} OpenAndCreate() returns (es: seq<Engine>, evs: seq<Engines.Event>)
    ensures IsRun(es, evs) && At(Last(es), EMPTY) && NoFatal(es, evs, |evs|)
  {
    assert ScanAll(FRESH_SCAN, []) == FRESH_SCAN && Recover(NOTHING, []) == Some(NOTHING);
    assert Bootstrap(EMPTY_DB.file) == Some(NOTHING) && Lists(NOTHING, [], []);
    var open: Engines.Event := Open([], []);
    assert Can(NO_ENGINE, open);
    assert IsRun([NO_ENGINE], []);
    Extend([NO_ENGINE], [], open);
    var e1 := Next(NO_ENGINE, open);
    assert e1.db.running && e1.db.current == EMPTY && e1.catalog == NOTHING.catalog;
    CreateKeepsSnapshot(EMPTY, "t");
    Extend([NO_ENGINE, e1], [open], Serve(Create("t")));
    es, evs := [NO_ENGINE, e1] + [Next(e1, Serve(Create("t")))], [open] + [Serve(Create("t"))];
    assert [NO_ENGINE] + [e1] == [NO_ENGINE, e1];
    assert At(Last(es), EMPTY);
    assert NoFatal(es, evs, |evs|);
  }

  const NO_DVS: map<TableId, map<RowsetId, set<DvId>>> := map[]

  function Two(dvs: map<TableId, map<RowsetId, set<DvId>>>): Snapshot {
    Snapshot(map[0 := {0, 1}], dvs)
  }

  lemma {:induction false} TwoRowsets(a: V.DiskRowset, b: V.DiskRowset)
    returns (es: seq<Engine>, evs: seq<Engines.Event>)
    ensures IsRun(es, evs) && At(Last(es), Two(NO_DVS)) && NoFatal(es, evs, |evs|)
  {
    es, evs := OpenAndCreate();
    var r := Write(0, [(0, a), (1, b)], []);
    var st := V.Staged(EMPTY, map[], map[], []);
    assert OpsOf(r) == [V.AddRowSet((0, 0), a)] + ([V.AddRowSet((0, 1), b)] + []);
    StageCons(st, V.AddRowSet((0, 0), a), [V.AddRowSet((0, 1), b)] + []);
    StageCons(V.StageOne(st, V.AddRowSet((0, 0), a)).staged, V.AddRowSet((0, 1), b), []);
    var one: set<RowsetId> := {0};
    assert {} + {0} == one && one + {1} == {0, 1};
    assert EMPTY.AddRowset((0, 0)).rowsets == map[0 := one];
    assert EMPTY.AddRowset((0, 0)).AddRowset((0, 1)).rowsets == map[0 := one + {1}];
    es, evs := Continue(es, evs, EMPTY, r);
  }

  const ORPHANED: map<TableId, map<RowsetId, set<DvId>>> := map[0 := map[0 := {0}]]

  lemma {:induction false} DeleteFirst(a: V.DiskRowset, b: V.DiskRowset, v: V.DeleteVector)
    returns (es: seq<Engine>, evs: seq<Engines.Event>)
    ensures IsRun(es, evs) && At(Last(es), Two(ORPHANED)) && NoFatal(es, evs, |evs|)
  {
    es, evs := TwoRowsets(a, b);
    var r := Write(0, [], [(0, 0, v)]);
    var st := V.Staged(Two(NO_DVS), map[], map[], []);
    assert OpsOf(r) == [V.AddDV((0, 0, 0), v)] + [];
    StageCons(st, V.AddDV((0, 0, 0), v), []);
    var none: map<RowsetId, set<DvId>> := map[];
    assert {} + {0} == {0} && none[0 := {0}] == map[0 := {0}];
    assert Two(NO_DVS).AddDv((0, 0, 0)).dvs == NO_DVS[0 := none[0 := {0}]];
    assert Two(NO_DVS).AddDv((0, 0, 0)) == Two(ORPHANED);
    es, evs := Continue(es, evs, Two(NO_DVS), r);
  }

  lemma {:induction false} DeleteTwo(st: V.Staged, d0: V.EpochOp, d1: V.EpochOp, ids: set<RowsetId>)
    requires st.snapshot.rowsets == map[0 := ids] && 0 in ids && 1 in ids
    requires d0 == V.DeleteRowSet((0, 0)) && d1 == V.DeleteRowSet((0, 1))
    ensures var r := V.Stage(st, [d0] + ([d1] + []));
            && r.ok && r.staged.snapshot.dvs == st.snapshot.dvs
            && r.staged.snapshot.rowsets == if ids == {0, 1} then map[] else map[0 := ids - {0, 1}]
  {
    StageCons(st, d0, [d1] + []);
    var st1 := V.StageOne(st, d0).staged;
    assert ids - {0} != {} by { assert 1 in ids - {0}; }
    assert st1.snapshot.rowsets == map[0 := ids - {0}];
    StageCons(st1, d1, []);
    assert ids - {0} - {1} == ids - {0, 1};
    assert ids - {0, 1} == {} ==> ids == {0, 1};
    assert map[0 := ids - {0}] - {0} == map[];
  }

  lemma {:induction false} CompactTo(dvs: map<TableId, map<RowsetId, set<DvId>>>, rows: seq<Row>)
    ensures var r := After(Two(dvs), OpsOf(Compact(0, 2, rows, [0, 1])));
            r.ok && r.staged.snapshot == Snapshot(if rows == [] then map[] else map[0 := {2}], dvs)
  {
    var st := V.Staged(Two(dvs), map[], map[], []);
    var d0, d1 := V.DeleteRowSet((0, 0)), V.DeleteRowSet((0, 1));
    assert Compaction.Deletes(0, [0, 1]) == [d0] + ([d1] + []);
    if rows == [] {
      assert OpsOf(Compact(0, 2, rows, [0, 1])) == [d0] + ([d1] + []);
      DeleteTwo(st, d0, d1, {0, 1});
    } else {
      var add := V.AddRowSet((0, 2), V.DiskRowset(rows));
      assert OpsOf(Compact(0, 2, rows, [0, 1])) == [add] + ([d0] + ([d1] + []));
      StageCons(st, add, [d0] + ([d1] + []));
      var st1 := V.StageOne(st, add).staged;
      var ids: set<RowsetId> := {0, 1, 2};
      assert {0, 1} + {2} == ids;
      assert st1.snapshot.rowsets == map[0 := {0, 1}][0 := {0, 1} + {2}];
      DeleteTwo(st1, d0, d1, ids);
      assert ids - {0, 1} == {2};
    }
  }

  /** Two rowsets, a delete, a compaction and a drop: the engine never opens again. */
  lemma {:induction false} OrphanRun(a: Row, b: Row)
    returns (es: seq<Engine>, evs: seq<Engines.Event>)
    ensures IsRun(es, evs) && Bootstrap(Last(es).db.file).None?
  {
    es, evs := DeleteFirst(V.DiskRowset([a]), V.DiskRowset([b]), V.DeleteVector([0]));
    CompactTo(ORPHANED, [b]);
    es, evs := Continue(es, evs, Two(ORPHANED), Compact(0, 2, [b], [0, 1]));
    var e, s := Last(es), Snapshot(map[0 := {2}], ORPHANED);
    var ls := [Listed((0, 2), [])];
    OnlyOneListed(s, ls);
    DropsOne(s, ls);
    Extend(es, evs, Serve(Drop(0, ls)));
    es, evs := es + [Next(e, Serve(Drop(0, ls)))], evs + [Serve(Drop(0, ls))];
    assert Orphan(s, (0, 0, 0));
    DropOfOrphanBlocksReopen(es, evs, |evs| - 1, 0, ls);
  }

  lemma {:induction false} OnlyOneListed(s: Snapshot, ls: seq<Listed>)
    requires s == Snapshot(map[0 := {2}], ORPHANED) && ls == [Listed((0, 2), [])]
    ensures ListsTable(s, 0, ls)
  {
    assert ls[0].rowset == (0, 2);
    forall d: DvKey ensures ListedDv(ls, d) <==> s.HasDv(d) && d.0 == 0 && s.Has((d.0, d.1)) {}
  }

  lemma {:induction false} DropsOne(s: Snapshot, ls: seq<Listed>)
    requires s == Snapshot(map[0 := {2}], ORPHANED) && ls == [Listed((0, 2), [])]
    ensures After(s, DropOps(0, ls)).ok
  {
    var st := V.Staged(s, map[], map[], []);
    assert DeleteListed(ls[1..]) == [] && DeleteDvs(ls[0].dvs) == [];
    assert DeleteListed(ls) == [V.DeleteRowSet((0, 2))] + [];
    StageCons(st, V.DropTable(0), DeleteListed(ls));
    StageCons(st, V.DeleteRowSet((0, 2)), []);
  }

  /** A crash inside the first record after opening. */
  lemma {:induction false} CutRecordRun() returns (es: seq<Engine>, evs: seq<Engines.Event>)
    ensures IsRun(es, evs) && Bootstrap(Last(es).db.file).None?
  {
    es, evs := OpenAndCreate();
    var ev: Engines.Event := DieServing(Create("u"), 0, true);
    CreateKeepsSnapshot(EMPTY, "u");
    Extend(es, evs, ev);
    es, evs := es + [Next(Last(es), ev)], evs + [ev];
  }

  /** A table created twice: the second one is logged before it is refused. */
  lemma {:induction false} SameNameRun() returns (es: seq<Engine>, evs: seq<Engines.Event>)
    ensures IsRun(es, evs) && Bootstrap(Last(es).db.file).None?
  {
    es, evs := OpenAndCreate();
    var e, ev: Engines.Event := Last(es), Serve(Create("t"));
    CreateKeepsSnapshot(EMPTY, "t");
    Extend(es, evs, ev);
    es, evs := es + [Next(e, ev)], evs + [ev];
    assert e.catalog.tables[0] == "t" && "t" in e.catalog.tables.Values;
    assert Fatal(es[|evs| - 1], evs[|evs| - 1]);
    ReopensIff(es, evs, |evs|);
  }

  /** An insert that started before a drop and commits after it. */
  lemma {:induction false} InsertRacesDrop(a: V.DiskRowset) returns (es: seq<Engine>, evs: seq<Engines.Event>)
    ensures IsRun(es, evs) && Bootstrap(Last(es).db.file).None?
  {
    es, evs := OpenAndCreate();
    var e, drop: Engines.Event := Last(es), Serve(Drop(0, []));
    NumbersOf(es, evs, EMPTY);
    DropsNothing();
    Extend(es, evs, drop);
    es, evs := es + [Next(e, drop)], evs + [drop];
    e := Last(es);
    var r := Write(0, [(0, a)], []);
    var insert: Engines.Event := Serve(r);
    AddsMembers(V.Staged(EMPTY, map[], map[], []), OpsOf(r));
    Extend(es, evs, insert);
    es, evs := es + [Next(e, insert)], evs + [insert];
    assert Fatal(es[|evs| - 1], evs[|evs| - 1]);
    ReopensIff(es, evs, |evs|);
  }

  lemma {:induction false} DropsNothing()
    ensures After(EMPTY, DropOps(0, [])).ok && After(EMPTY, DropOps(0, [])).staged.snapshot == EMPTY
  {
    assert DeleteListed([]) == [] && DropOps(0, []) == [V.DropTable(0)] + [];
    StageCons(V.Staged(EMPTY, map[], map[], []), V.DropTable(0), []);
  }

  // ---- a rowset id that is handed out again ----

  const BOTH: map<TableId, map<RowsetId, set<DvId>>> := map[0 := map[0 := {0}, 1 := {1}]]

  lemma {:induction false} DeleteBoth(a: V.DiskRowset, b: V.DiskRowset, v: V.DeleteVector)
    returns (es: seq<Engine>, evs: seq<Engines.Event>)
    ensures IsRun(es, evs) && At(Last(es), Two(BOTH)) && NoFatal(es, evs, |evs|)
  {
    es, evs := DeleteFirst(a, b, v);
    var r := Write(0, [], [(1, 1, v)]);
    var st := V.Staged(Two(ORPHANED), map[], map[], []);
    assert OpsOf(r) == [V.AddDV((0, 1, 1), v)] + [];
    StageCons(st, V.AddDV((0, 1, 1), v), []);
    var first: map<RowsetId, set<DvId>> := map[0 := {0}];
    assert {} + {1} == {1} && first[1 := {1}] == map[0 := {0}, 1 := {1}];
    assert Two(ORPHANED).AddDv((0, 1, 1)).dvs == ORPHANED[0 := first[1 := {1}]];
    es, evs := Continue(es, evs, Two(ORPHANED), r);
  }

  lemma {:induction false} ClosedSets(es: seq<Engine>, evs: seq<Engines.Event>)
    requires IsRun(es, evs) && NoFatal(es, evs, |evs|)
    ensures Bootstrap(Last(es).db.file).Some? && SameSets(Bootstrap(Last(es).db.file).value, Last(es).db.last)
    ensures Last(es).db.running ==> Last(es).db.current == Last(es).db.last
  {
    RunStates(es, evs, |evs|);
    OpensIff(Last(es).db);
    RecoverAgreesWithSets(NOTHING, NOTHING, Last(es).db.log);
  }

  /** Both rowsets are deleted row by row and compacted away; their delete vectors stay.  The second
      time the engine opens, rowset ids start again from 0, where a delete vector is waiting. */
  lemma {:induction false} ReusedIdRun(a: Row, b: Row)
    returns (es: seq<Engine>, evs: seq<Engines.Event>)
    ensures IsRun(es, evs) && Last(es).db.running
    ensures var again := Bootstrap(Last(es).db.file);
            again.Some? && again.value.nextRowset == 0 && (0, 0, 0) in again.value.dvs
  {
    es, evs := DeleteBoth(V.DiskRowset([a]), V.DiskRowset([b]), V.DeleteVector([0]));
    CompactTo(BOTH, []);
    es, evs := Continue(es, evs, Two(BOTH), Compact(0, 2, [], [0, 1]));
    ClosedSets(es, evs);
    var e, s := Last(es), Snapshot(map[], BOTH);
    var r := Bootstrap(e.db.file).value;
    EmptyBut(r, s);
    var die: Engines.Event, open: Engines.Event := Die, Open([], [(0, 0, 0), (0, 1, 1)]);
    Extend(es, evs, die);
    es, evs := es + [Next(e, die)], evs + [die];
    e := Last(es);
    Extend(es, evs, open);
    es, evs := es + [Next(e, open)], evs + [open];
    RewrittenRecoversSame(e.db.file, [], [(0, 0, 0), (0, 1, 1)]);
  }

  lemma {:induction false} EmptyBut(r: Recovered, s: Snapshot)
    requires s == Snapshot(map[], BOTH) && SameSets(r, s)
    ensures r.rowsets == {} && Lists(r, [], [(0, 0, 0), (0, 1, 1)])
  {
    var ds: seq<DvKey> := [(0, 0, 0), (0, 1, 1)];
    assert BOTH[0][0] == {0} && BOTH[0][1] == {1} && BOTH[0].Keys == {0, 1};
    forall d: DvKey ensures s.HasDv(d) <==> d == (0, 0, 0) || d == (0, 1, 1) {
      if s.HasDv(d) {
        assert d.0 == 0 && d.1 in BOTH[0].Keys;
      }
    }
    assert ds[0] == (0, 0, 0) && ds[1] == (0, 1, 1);
    forall k ensures k !in r.rowsets {
      assert !s.Has(k);
    }
  }

  // ---- a failed insert that comes back ----

  lemma {:induction false} RecoverThree(name: string, k0: RowsetKey, k1: RowsetKey)
    ensures Recover(NOTHING, [CreateTable(name), AddRowSet(k0), AddRowSet(k1)]) ==
            Some(NOTHING.(rowsets := {k0, k1}, nextRowset := Max(k0.1 + 1, k1.1 + 1),
                          catalog := Catalog(map[0 := name], 1), tableOps := [CreateTable(name)]))
  {
    var r1 := RecoverOne(NOTHING, CreateTable(name)).value;
    assert r1 == NOTHING.(catalog := Catalog(map[0 := name], 1), tableOps := [CreateTable(name)]);
    var r2 := RecoverOne(r1, AddRowSet(k0)).value;
    assert {} + {k0} == {k0} && {k0} + {k1} == {k0, k1};
    var r3 := RecoverOne(r2, AddRowSet(k1)).value;
    assert Recover(r3, []) == Some(r3);
    assert [AddRowSet(k1)][1..] == [];
    assert Recover(r2, [AddRowSet(k1)]) == Recover(r3, []);
    assert [AddRowSet(k0), AddRowSet(k1)][1..] == [AddRowSet(k1)];
    assert Recover(r1, [AddRowSet(k0), AddRowSet(k1)]) == Recover(r2, [AddRowSet(k1)]);
    assert [CreateTable(name), AddRowSet(k0), AddRowSet(k1)][1..] == [AddRowSet(k0), AddRowSet(k1)];
  }

  lemma {:induction false} AddsOne(s: Snapshot, k: RowsetKey, data: V.DiskRowset)
    ensures After(s, [V.AddRowSet(k, data)]).ok && After(s, [V.AddRowSet(k, data)]).staged.snapshot == s.AddRowset(k)
  {
    var st := V.Staged(s, map[], map[], []);
    assert [V.AddRowSet(k, data)] == [V.AddRowSet(k, data)] + [];
    StageCons(st, V.AddRowSet(k, data), []);
  }

  /** A new manifest, opened. */
  lemma {:induction false} OpenNew()
    ensures Enabled(EMPTY_DB, Reopen([], []))
    ensures var db := Step(EMPTY_DB, Reopen([], []));
            db.running && db.current == EMPTY && db.log == [] && db.leaked == 0
  {
    assert ScanAll(FRESH_SCAN, []) == FRESH_SCAN && Recover(NOTHING, []) == Some(NOTHING);
    assert Bootstrap(EMPTY_DB.file) == Some(NOTHING) && Lists(NOTHING, [], []);
  }

  lemma {:induction false} LeakScans(db: Db, a: seq<ManifestOp>, b: seq<ManifestOp>)
    requires Scanned(db).buffered == [] && |a| == 1
    ensures var w := Written(db, a, 2, false); Scanned(Written(w, b, |b| + 2, false)).ops == Scanned(db).ops + (a + b)
  {
    hide ScanAll;
    ScanWritten(db, a, 2, false);
    ScanWritten(Written(db, a, 2, false), b, |b| + 2, false);
    assert [] + a[..1] == a;
  }

  lemma {:induction false} LeakHistory(a: V.DiskRowset, b: V.DiskRowset)
    returns (dbs: seq<Db>, events: seq<Recovery.Event>)
    ensures IsHistory(dbs, events) && |dbs| == 5 && events[2].FailedAppend? && events[2].n == 2
    ensures dbs[2].log == [CreateTable("t")] && dbs[2].leaked == 0 && dbs[2].stray == []
    ensures dbs[3] == Written(dbs[2], [AddRowSet((0, 0))], 2, false)
    ensures dbs[4].file == Written(dbs[3], [AddRowSet((0, 1))], 3, false).file
    ensures dbs[4].last == EMPTY.AddRowset((0, 1)) && !dbs[2].file.torn
  {
    hide Bootstrap, ScanAll, Recover, After;
    var e0, e1 := Reopen([], []), Commit([V.CreateTable("t")]);
    var e2, e3 := FailedAppend([V.AddRowSet((0, 0), a)], 2, false), Commit([V.AddRowSet((0, 1), b)]);
    OpenNew();
    var db1 := Step(EMPTY_DB, e0);
    CreateKeepsSnapshot(EMPTY, "t");
    AddsOne(EMPTY, (0, 0), a);
    AddsOne(EMPTY, (0, 1), b);
    var db2 := Step(db1, e1);
    assert LogAll(e1.ops) == [CreateTable("t")];
    assert LogAll(e2.ops) == [AddRowSet((0, 0))];
    assert LogAll(e3.ops) == [AddRowSet((0, 1))];
    var db3 := Step(db2, e2);
    var db4 := Step(db3, e3);
    dbs, events := [EMPTY_DB, db1, db2, db3, db4], [e0, e1, e2, e3];
  }

  /** An insert whose commit failed is in the table after the next commit and a restart. */
  lemma {:induction false} FailedInsertComesBack(a: V.DiskRowset, b: V.DiskRowset)
    returns (dbs: seq<Db>, events: seq<Recovery.Event>)
    ensures IsHistory(dbs, events) && |dbs| == 5 && events[2].FailedAppend?
    ensures Bootstrap(dbs[4].file).Some?
    ensures (0, 0) in Bootstrap(dbs[4].file).value.rowsets && !dbs[4].last.Has((0, 0))
  {
    hide ScanAll, Recover, IsHistory;
    dbs, events := LeakHistory(a, b);
    HistoryInv(dbs, events, 2);
    LeakScans(dbs[2], [AddRowSet((0, 0))], [AddRowSet((0, 1))]);
    assert [CreateTable("t")] + ([AddRowSet((0, 0))] + [AddRowSet((0, 1))]) ==
           [CreateTable("t"), AddRowSet((0, 0)), AddRowSet((0, 1))];
    RecoverThree("t", (0, 0), (0, 1));
    AddRowsetMembers(EMPTY, (0, 1));
  }
}
