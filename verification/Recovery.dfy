/** Histories of commits, failed appends, crashes inside an append and reopens, against the manifest file. */
module Recovery {
  import opened Common
  import opened Snapshots
  import V = Versions
  import opened Manifests

  /** `current` is the running engine's snapshot.  The rest is history: `last` is the snapshot of the
      last commit whose End record reached the file, or of the last reopen; `log` holds what the commits
      since the manifest was rewritten have logged; `stray` the entries behind the last End record; and
      `leaked` counts the entries of failed appends in front of it. */
  datatype Db = Db(file: ManifestFile, running: bool, current: Snapshot, last: Snapshot,
                   log: seq<ManifestOp>, stray: seq<ManifestOp>, leaked: nat)

  const EMPTY_DB := Db(ManifestFile([], false), false, EMPTY, EMPTY, [], [], 0)

  datatype Event =
    | Commit(ops: seq<V.EpochOp>)
    /** Writing stops after `n` records of the append, perhaps in the middle of the next one, or the
        final sync fails.  The commit reports the error and the process goes on. */
    | FailedAppend(ops: seq<V.EpochOp>, n: nat, torn: bool)
    /** The process dies after `n` records of the append, perhaps in the middle of the next one. */
    | CrashInAppend(ops: seq<V.EpochOp>, n: nat, torn: bool)
    | Crash
    /** Bootstrap to the end; the recovered ids are listed in the order `ks`, `ds`. */
    | Reopen(ks: seq<RowsetKey>, ds: seq<DvKey>)
    /** The process dies in bootstrap before the rewritten manifest is renamed into place. */
    | CrashInReopen

  function After(s: Snapshot, ops: seq<V.EpochOp>): V.StageResult {
    V.Stage(V.Staged(s, map[], map[], []), ops)
  }

  /** An append of `n` records, perhaps with the next one cut. */
  predicate CanStop(ops: seq<V.EpochOp>, n: nat, torn: bool) {
    n <= |ops| + 2 && (torn ==> n < |ops| + 2)
  }

  ghost predicate Enabled(db: Db, e: Event) {
    match e
    case Commit(ops) => db.running && After(db.current, ops).ok
    case FailedAppend(ops, n, torn) => db.running && After(db.current, ops).ok && CanStop(ops, n, torn)
    case CrashInAppend(ops, n, torn) => db.running && After(db.current, ops).ok && CanStop(ops, n, torn)
    case Crash => db.running
    case Reopen(ks, ds) => !db.running && Bootstrap(db.file).Some? && Lists(Bootstrap(db.file).value, ks, ds)
    case CrashInReopen => !db.running
  }

  /** The snapshot the bootstrap commit builds from nothing. */
  function Rebuilt(ks: seq<RowsetKey>, ds: seq<DvKey>): Snapshot {
    AddAllDvs(AddAllRowsets(EMPTY, ks), ds)
  }

  function AddAllRowsets(s: Snapshot, ks: seq<RowsetKey>): Snapshot
    decreases |ks|
  {
    if ks == [] then s else AddAllRowsets(s.AddRowset(ks[0]), ks[1..])
  }

  function AddAllDvs(s: Snapshot, ks: seq<DvKey>): Snapshot
    decreases |ks|
  {
    if ks == [] then s else AddAllDvs(s.AddDv(ks[0]), ks[1..])
  }

  /** The first `n` records of an append reach the file.  With its End record everything stray before it
      counts as committed. */
  function Written(db: Db, ops: seq<ManifestOp>, n: nat, torn: bool): Db
    requires n <= |ops| + 2
  {
    var file := ManifestFile(db.file.records + Appended(ops)[..n], db.file.torn || torn);
    if n == |ops| + 2 then db.(file := file, stray := [], leaked := db.leaked + |db.stray|)
    else db.(file := file, stray := db.stray + if n == 0 then [] else ops[..n - 1])
  }

  ghost function Step(db: Db, e: Event): Db
    requires Enabled(db, e)
  {
    match e
    case Commit(ops) =>
      var s := After(db.current, ops).staged.snapshot;
      Written(db, LogAll(ops), |ops| + 2, false).(current := s, last := s, log := db.log + LogAll(ops))
    case FailedAppend(ops, n, torn) =>
      var w := Written(db, LogAll(ops), n, torn);
      if n == |ops| + 2 then w.(leaked := w.leaked + |ops|) else w
    case CrashInAppend(ops, n, torn) =>
      var w := Written(db, LogAll(ops), n, torn).(running := false, current := EMPTY);
      if n == |ops| + 2 then w.(last := After(db.current, ops).staged.snapshot, log := db.log + LogAll(ops)) else w
    case Crash => db.(running := false, current := EMPTY)
    case Reopen(ks, ds) =>
      var ops := Rewritten(Bootstrap(db.file).value, ks, ds);
      Db(ManifestFile(Appended(ops), false), true, Rebuilt(ks, ds), Rebuilt(ks, ds), ops, [], 0)
    case CrashInReopen => db
  }

  // ---- replay computes the same sets as the running engine ----

  ghost predicate SameSets(r: Recovered, s: Snapshot) {
    && (forall k :: k in r.rowsets <==> s.Has(k))
    && (forall k :: k in r.dvs <==> s.HasDv(k))
  }

  /** The sets of a fold that ignores the catalog, so that they exist even when it is in error. */
  function SetsOne(r: Recovered, op: ManifestOp): Recovered {
    if IsTableOp(op) then r else RecoverOne(r, op).value
  }

  function Sets(r: Recovered, ops: seq<ManifestOp>): Recovered
    decreases |ops|
  {
    if ops == [] then r else Sets(SetsOne(r, ops[0]), ops[1..])
  }

  lemma {:induction false} SetsConcat(r: Recovered, a: seq<ManifestOp>, b: seq<ManifestOp>)
    ensures Sets(r, a + b) == Sets(Sets(r, a), b)
    decreases |a|
  {
    if a == [] {
      assert a + b == b;
    } else {
      assert (a + b)[1..] == a[1..] + b;
      SetsConcat(SetsOne(r, a[0]), a[1..], b);
    }
  }

  lemma {:induction false} RecoverAgreesWithSets(r: Recovered, t: Recovered, ops: seq<ManifestOp>)
    requires Recover(r, ops).Some? && r.rowsets == t.rowsets && r.dvs == t.dvs
    ensures Recover(r, ops).value.rowsets == Sets(t, ops).rowsets && Recover(r, ops).value.dvs == Sets(t, ops).dvs
    decreases |ops|
  {
    if ops != [] {
      RecoverAgreesWithSets(RecoverOne(r, ops[0]).value, SetsOne(t, ops[0]), ops[1..]);
    }
  }

  lemma {:induction false} StagingMatchesReplay(r: Recovered, st: V.Staged, ops: seq<V.EpochOp>)
    requires SameSets(r, st.snapshot) && st.snapshot.Canonical() && V.Stage(st, ops).ok
    ensures SameSets(Sets(r, LogAll(ops)), V.Stage(st, ops).staged.snapshot)
    ensures V.Stage(st, ops).staged.snapshot.Canonical()
    decreases |ops|
  {
    if ops != [] {
      var st' := V.StageOne(st, ops[0]).staged;
      match ops[0] {
        case AddRowSet(k, _) => AddRowsetMembers(st.snapshot, k);
        case DeleteRowSet(k) => DeleteRowsetMembers(st.snapshot, k);
        case AddDV(k, _) => AddDvMembers(st.snapshot, k);
        case DeleteDV(k) => DeleteDvMembers(st.snapshot, k);
        case _ =>
      }
      assert LogAll(ops)[1..] == LogAll(ops[1..]);
      StagingMatchesReplay(SetsOne(r, Log(ops[0])), st', ops[1..]);
    }
  }

  lemma {:induction false} AddAllRowsetsMembers(s: Snapshot, ks: seq<RowsetKey>)
    requires s.Canonical()
    ensures var s' := AddAllRowsets(s, ks);
            && s'.Canonical()
            && (forall k :: s'.Has(k) <==> s.Has(k) || k in ks)
            && (forall k :: s'.HasDv(k) <==> s.HasDv(k))
    decreases |ks|
  {
    if ks != [] {
      AddRowsetMembers(s, ks[0]);
      AddAllRowsetsMembers(s.AddRowset(ks[0]), ks[1..]);
    }
  }

  lemma {:induction false} AddAllDvsMembers(s: Snapshot, ks: seq<DvKey>)
    requires s.Canonical()
    ensures var s' := AddAllDvs(s, ks);
            && s'.Canonical()
            && (forall k :: s'.Has(k) <==> s.Has(k))
            && (forall k :: s'.HasDv(k) <==> s.HasDv(k) || k in ks)
    decreases |ks|
  {
    if ks != [] {
      AddDvMembers(s, ks[0]);
      AddAllDvsMembers(s.AddDv(ks[0]), ks[1..]);
    }
  }

  // ---- the invariant of every history ----

  ghost function Scanned(db: Db): Scan {
    ScanAll(FRESH_SCAN, db.file.records)
  }

  ghost predicate Inv(db: Db) {
    && db.last.Canonical()
    && SameSets(Sets(NOTHING, db.log), db.last)
    && Scanned(db).buffered == db.stray
    && |Scanned(db).ops| == |db.log| + db.leaked
    && (db.leaked == 0 ==> Scanned(db).ops == db.log)
    && (db.running ==> db.current == db.last)
  }

  /** What replay makes of the file after part of an append. */
  lemma {:induction false} ScanWritten(db: Db, ops: seq<ManifestOp>, n: nat, torn: bool)
    requires n <= |ops| + 2
    ensures var s, s' := Scanned(db), Scanned(Written(db, ops, n, torn));
            if n == |ops| + 2 then s'.ops == s.ops + (s.buffered + ops) && s'.buffered == []
            else s'.ops == s.ops && s'.buffered == s.buffered + if n == 0 then [] else ops[..n - 1]
  {
    var s, a := Scanned(db), Appended(ops);
    ScanConcat(FRESH_SCAN, db.file.records, a[..n]);
    if n == |ops| + 2 {
      assert a[..n] == a;
      ScanAppend(s, ops);
    } else if n == 0 {
      assert a[..n] == [];
    } else {
      assert a[..n] == [Begin] + Entries(ops)[..n - 1];
      ScanPrefix(s, ops, n - 1);
    }
  }

  /** The sets of the log follow a commit. */
  lemma {:induction false} LogFollows(db: Db, ops: seq<V.EpochOp>)
    requires Inv(db) && db.running && After(db.current, ops).ok
    ensures var s := After(db.current, ops).staged.snapshot;
            s.Canonical() && SameSets(Sets(NOTHING, db.log + LogAll(ops)), s)
  {
    SetsConcat(NOTHING, db.log, LogAll(ops));
    StagingMatchesReplay(Sets(NOTHING, db.log), V.Staged(db.current, map[], map[], []), ops);
  }

  lemma {:induction false} CommitKeepsInv(db: Db, ops: seq<V.EpochOp>)
    requires Inv(db) && Enabled(db, Commit(ops))
    ensures Inv(Step(db, Commit(ops)))
  {
    ScanWritten(db, LogAll(ops), |ops| + 2, false);
    LogFollows(db, ops);
    if db.stray == [] {
      assert db.stray + LogAll(ops) == LogAll(ops);
    }
  }

  lemma {:induction false} FailedAppendKeepsInv(db: Db, ops: seq<V.EpochOp>, n: nat, torn: bool)
    requires Inv(db) && Enabled(db, FailedAppend(ops, n, torn))
    ensures Inv(Step(db, FailedAppend(ops, n, torn)))
  {
    ScanWritten(db, LogAll(ops), n, torn);
    if n == |ops| + 2 && db.stray == [] && ops == [] {
      assert Scanned(db).ops + ([] + LogAll(ops)) == Scanned(db).ops;
    }
  }

  lemma {:induction false} CrashInAppendKeepsInv(db: Db, ops: seq<V.EpochOp>, n: nat, torn: bool)
    requires Inv(db) && Enabled(db, CrashInAppend(ops, n, torn))
    ensures Inv(Step(db, CrashInAppend(ops, n, torn)))
  {
    if n == |ops| + 2 {
      CommitKeepsInv(db, ops);
    } else {
      ScanWritten(db, LogAll(ops), n, torn);
    }
  }

  lemma {:induction false} RebuiltMembers(r: Recovered, ks: seq<RowsetKey>, ds: seq<DvKey>)
    requires Lists(r, ks, ds)
    ensures Rebuilt(ks, ds).Canonical() && SameSets(r, Rebuilt(ks, ds))
  {
    AddAllRowsetsMembers(EMPTY, ks);
    AddAllDvsMembers(AddAllRowsets(EMPTY, ks), ds);
  }

  /** What the rewritten manifest holds. */
  lemma {:induction false} RewrittenSets(file: ManifestFile, ks: seq<RowsetKey>, ds: seq<DvKey>)
    requires Bootstrap(file).Some? && Lists(Bootstrap(file).value, ks, ds)
    ensures var r := Bootstrap(file).value;
            var ops := Rewritten(r, ks, ds);
            && Sets(NOTHING, ops).rowsets == r.rowsets && Sets(NOTHING, ops).dvs == r.dvs
            && ScanAll(FRESH_SCAN, Appended(ops)) == Scan(ops, [], false)
  {
    hide Recover, Sets, ScanAll, AllTablesExist, Rewritten, OneAboveAll;
    var ops := Rewritten(Bootstrap(file).value, ks, ds);
    ScanAppend(FRESH_SCAN, ops);
    assert [] + ([] + ops) == ops;
    RewrittenRecoversSame(file, ks, ds);
    RecoverAgreesWithSets(NOTHING, NOTHING, ops);
  }

  lemma {:induction false} ReopenKeepsInv(db: Db, ks: seq<RowsetKey>, ds: seq<DvKey>)
    requires Inv(db) && Enabled(db, Reopen(ks, ds))
    ensures Inv(Step(db, Reopen(ks, ds)))
    ensures db.leaked == 0 ==> Step(db, Reopen(ks, ds)).current == db.last
  {
    hide Recover, Sets, ScanAll, AllTablesExist, Rewritten, Rebuilt, Lists;
    var r := Bootstrap(db.file).value;
    RebuiltMembers(r, ks, ds);
    RewrittenSets(db.file, ks, ds);
    if db.leaked == 0 {
      RecoverAgreesWithSets(NOTHING, NOTHING, Replayed(db.file).value);
      CanonicalUnique(Rebuilt(ks, ds), db.last);
    }
  }

  lemma {:induction false} StepKeepsInv(db: Db, e: Event)
    requires Inv(db) && Enabled(db, e)
    ensures Inv(Step(db, e))
  {
    match e {
      case Commit(ops) => CommitKeepsInv(db, ops);
      case FailedAppend(ops, n, torn) => FailedAppendKeepsInv(db, ops, n, torn);
      case CrashInAppend(ops, n, torn) => CrashInAppendKeepsInv(db, ops, n, torn);
      case Reopen(ks, ds) => ReopenKeepsInv(db, ks, ds);
      case _ =>
    }
  }

  ghost predicate IsHistory(dbs: seq<Db>, events: seq<Event>) {
    && |dbs| == |events| + 1
    && dbs[0] == EMPTY_DB
    && forall i :: 0 <= i < |events| ==> Enabled(dbs[i], events[i]) && dbs[i + 1] == Step(dbs[i], events[i])
  }

  lemma {:induction false} HistoryInv(dbs: seq<Db>, events: seq<Event>, i: nat)
    requires IsHistory(dbs, events) && i < |dbs|
    ensures Inv(dbs[i])
  {
    if i > 0 {
      HistoryInv(dbs, events, i - 1);
      assert Enabled(dbs[i - 1], events[i - 1]);
      StepKeepsInv(dbs[i - 1], events[i - 1]);
    }
  }

  /** In every history, as long as no entry of a failed append has leaked: whenever bootstrap gets
      through, it recovers exactly the rowsets and delete vectors of the last commit whose End record was
      written, and the engine it starts runs on that commit's snapshot. */
  lemma {:induction false} RecoversLastCommit(dbs: seq<Db>, events: seq<Event>, i: nat)
    requires IsHistory(dbs, events) && i < |dbs|
    ensures dbs[i].leaked == 0 && Bootstrap(dbs[i].file).Some? ==>
              SameSets(Bootstrap(dbs[i].file).value, dbs[i].last)
    ensures dbs[i].running ==> dbs[i].current == dbs[i].last
    ensures dbs[i].leaked == 0 && i < |events| && events[i].Reopen? ==> dbs[i + 1].current == dbs[i].last
  {
    HistoryInv(dbs, events, i);
    if Bootstrap(dbs[i].file).Some? {
      RecoverAgreesWithSets(NOTHING, NOTHING, Replayed(dbs[i].file).value);
    }
    if i < |events| && events[i].Reopen? {
      assert Enabled(dbs[i], events[i]);
      ReopenKeepsInv(dbs[i], events[i].ks, events[i].ds);
    }
  }

  // ---- failed appends ----

  /** The event writes the End record of an append. */
  predicate Completes(e: Event) {
    e.Commit? || ((e.FailedAppend? || e.CrashInAppend?) && e.n == |e.ops| + 2)
  }

  /** An append fails with at least one of its entries in the file. */
  predicate FailsWithEntries(e: Event) {
    e.FailedAppend? && e.n >= 2 && e.ops != []
  }

  predicate NoReopen(events: seq<Event>, j: nat, i: nat)
    requires i <= |events|
  {
    forall m :: j <= m < i ==> !events[m].Reopen?
  }

  /** The entries of event `j` are behind the last End record after `i` events. */
  predicate StrayFrom(events: seq<Event>, i: nat, j: nat)
    requires i <= |events|
  {
    && j < i && FailsWithEntries(events[j]) && NoReopen(events, j, i)
    && forall k :: j <= k < i ==> !Completes(events[k])
  }

  /** The entries of event `j` got an End record, its own or a later commit's, by event `k`. */
  predicate LeakFrom(events: seq<Event>, i: nat, j: nat, k: nat)
    requires i <= |events|
  {
    j <= k < i && FailsWithEntries(events[j]) && Completes(events[k]) && NoReopen(events, j, i)
  }

  /** Some entry of a failed append got an End record after `i` events. */
  ghost predicate Leaked(events: seq<Event>, i: nat)
    requires i <= |events|
  {
    exists j, k :: LeakFrom(events, i, j, k)
  }

  lemma {:induction false} StrayIff(dbs: seq<Db>, events: seq<Event>, i: nat)
    requires IsHistory(dbs, events) && i < |dbs| && dbs[i].running
    ensures dbs[i].stray != [] <==> exists j :: StrayFrom(events, i, j)
  {
    if i > 0 {
      var db, e := dbs[i - 1], events[i - 1];
      assert Enabled(db, e) && dbs[i - 1 + 1] == Step(db, e);
      if db.running {
        StrayIff(dbs, events, i - 1);
        if db.stray != [] && !Completes(e) {
          var j :| StrayFrom(events, i - 1, j);
          assert StrayFrom(events, i, j);
        }
        if FailsWithEntries(e) && !Completes(e) {
          assert StrayFrom(events, i, i - 1);
        }
        if j: nat :| StrayFrom(events, i, j) {
          assert j < i - 1 ==> StrayFrom(events, i - 1, j);
        }
      }
    }
  }

  lemma {:induction false} LeakedIff(dbs: seq<Db>, events: seq<Event>, i: nat)
    requires IsHistory(dbs, events) && i < |dbs|
    ensures dbs[i].leaked > 0 <==> Leaked(events, i)
  {
    if i > 0 {
      var db, e := dbs[i - 1], events[i - 1];
      assert Enabled(db, e) && dbs[i - 1 + 1] == Step(db, e);
      LeakedIff(dbs, events, i - 1);
      LeakGrows(dbs, events, i);
    }
  }

  lemma {:induction false} LeakGrows(dbs: seq<Db>, events: seq<Event>, i: nat)
    requires IsHistory(dbs, events) && 0 < i < |dbs|
    requires dbs[i - 1].leaked > 0 <==> Leaked(events, i - 1)
    ensures dbs[i].leaked > 0 <==> Leaked(events, i)
  {
    var db, e := dbs[i - 1], events[i - 1];
    assert Enabled(db, e) && dbs[i - 1 + 1] == Step(db, e);
    if e.Reopen? {
      assert forall j, k :: LeakFrom(events, i, j, k) ==> !NoReopen(events, j, i);
    } else {
      if db.leaked > 0 {
        var j, k :| LeakFrom(events, i - 1, j, k);
        assert LeakFrom(events, i, j, k);
      }
      if Completes(e) {
        StrayIff(dbs, events, i - 1);
        if db.stray != [] {
          var j :| StrayFrom(events, i - 1, j);
          assert LeakFrom(events, i, j, i - 1);
        }
        if FailsWithEntries(e) {
          assert LeakFrom(events, i, i - 1, i - 1);
        }
      }
      if j, k :| LeakFrom(events, i, j, k) {
        LeakOlder(events, i, j, k);
      }
    }
  }

  /** The last event adds a leak only if it completes an append, its own or one that was stray. */
  lemma {:induction false} LeakOlder(events: seq<Event>, i: nat, j: nat, k: nat)
    requires 0 < i <= |events| && LeakFrom(events, i, j, k)
    ensures Leaked(events, i - 1)
         || (Completes(events[i - 1]) && (j == i - 1 || StrayFrom(events, i - 1, j)))
  {
    if k < i - 1 {
      assert LeakFrom(events, i - 1, j, k);
    } else if j < i - 1 && !StrayFrom(events, i - 1, j) {
      var m :| j <= m < i - 1 && Completes(events[m]);
      assert LeakFrom(events, i - 1, j, m);
    }
  }

  /** Replay does not forget the entries of an append that failed, and the next End record commits them.
      In every history it returns what the commits since the last reopen logged if and only if no append
      that failed with an entry in the file, since that reopen, has come before an End record. */
  lemma {:induction false} FailedAppendsLeakIff(dbs: seq<Db>, events: seq<Event>, i: nat)
    requires IsHistory(dbs, events) && i < |dbs|
    ensures Scanned(dbs[i]).ops == dbs[i].log <==> !Leaked(events, i)
  {
    HistoryInv(dbs, events, i);
    LeakedIff(dbs, events, i);
  }

  // ---- DROP TABLE and the delete vectors a compaction leaves behind ----

  /** One rowset of the dropped table and its delete vectors, in the order the snapshot lists them. */
  datatype Listed = Listed(rowset: RowsetKey, dvs: seq<DvKey>)

  function DeleteDvs(ds: seq<DvKey>): seq<V.EpochOp> {
    seq(|ds|, i requires 0 <= i < |ds| => V.DeleteDV(ds[i]))
  }

  function DeleteListed(ls: seq<Listed>): seq<V.EpochOp>
    decreases |ls|
  {
    if ls == [] then [] else [V.DeleteRowSet(ls[0].rowset)] + DeleteDvs(ls[0].dvs) + DeleteListed(ls[1..])
  }

  /** The changeset of `DROP TABLE`: the rowsets of the pinned snapshot, each with its delete vectors. */
  function DropOps(t: TableId, ls: seq<Listed>): seq<V.EpochOp> {
    [V.DropTable(t)] + DeleteListed(ls)
  }

  predicate ListedDv(ls: seq<Listed>, d: DvKey) {
    exists i :: 0 <= i < |ls| && d in ls[i].dvs
  }

  predicate ListedRowset(ls: seq<Listed>, k: RowsetKey) {
    exists i :: 0 <= i < |ls| && ls[i].rowset == k
  }

  /** The listing covers exactly the rowsets of `t` in the snapshot and the delete vectors on them. */
  ghost predicate ListsTable(s: Snapshot, t: TableId, ls: seq<Listed>) {
    && (forall k :: ListedRowset(ls, k) <==> s.Has(k) && k.0 == t)
    && (forall d :: ListedDv(ls, d) <==> s.HasDv(d) && d.0 == t && s.Has((d.0, d.1)))
  }

  lemma {:induction false} StageConcat(st: V.Staged, a: seq<V.EpochOp>, b: seq<V.EpochOp>)
    ensures V.Stage(st, a + b) == if V.Stage(st, a).ok then V.Stage(V.Stage(st, a).staged, b) else V.Stage(st, a)
    decreases |a|
  {
    if a == [] {
      assert a + b == b;
    } else {
      assert (a + b)[1..] == a[1..] + b;
      if V.StageOne(st, a[0]).ok {
        StageConcat(V.StageOne(st, a[0]).staged, a[1..], b);
      }
    }
  }

  lemma {:induction false} DeleteDvsMembers(st: V.Staged, ds: seq<DvKey>)
    requires V.Stage(st, DeleteDvs(ds)).ok
    ensures var s' := V.Stage(st, DeleteDvs(ds)).staged.snapshot;
            && (forall k :: s'.Has(k) <==> st.snapshot.Has(k))
            && (forall d :: s'.HasDv(d) <==> st.snapshot.HasDv(d) && d !in ds)
    decreases |ds|
  {
    if ds != [] {
      assert DeleteDvs(ds)[1..] == DeleteDvs(ds[1..]);
      DeleteDvMembers(st.snapshot, ds[0]);
      DeleteDvsMembers(V.StageOne(st, V.DeleteDV(ds[0])).staged, ds[1..]);
    }
  }

  lemma {:induction false} DeleteListedMembers(st: V.Staged, ls: seq<Listed>)
    requires V.Stage(st, DeleteListed(ls)).ok
    ensures var s' := V.Stage(st, DeleteListed(ls)).staged.snapshot;
            && (forall k :: s'.Has(k) <==> st.snapshot.Has(k) && !ListedRowset(ls, k))
            && (forall d :: s'.HasDv(d) <==> st.snapshot.HasDv(d) && !ListedDv(ls, d))
    decreases |ls|
  {
    if ls != [] {
      var first := [V.DeleteRowSet(ls[0].rowset)];
      StageConcat(st, first + DeleteDvs(ls[0].dvs), DeleteListed(ls[1..]));
      StageConcat(st, first, DeleteDvs(ls[0].dvs));
      assert V.Stage(st, first).ok ==> V.Stage(st, first) == V.Stage(V.StageOne(st, first[0]).staged, []);
      DeleteRowsetMembers(st.snapshot, ls[0].rowset);
      var st1 := V.StageOne(st, first[0]).staged;
      DeleteDvsMembers(st1, ls[0].dvs);
      DeleteListedMembers(V.Stage(st1, DeleteDvs(ls[0].dvs)).staged, ls[1..]);
      forall k ensures ListedRowset(ls, k) <==> k == ls[0].rowset || ListedRowset(ls[1..], k) {
        if ListedRowset(ls, k) && k != ls[0].rowset {
          var i :| 0 <= i < |ls| && ls[i].rowset == k;
          assert ls[1..][i - 1].rowset == k;
        }
      }
      forall d ensures ListedDv(ls, d) <==> d in ls[0].dvs || ListedDv(ls[1..], d) {
        if ListedDv(ls, d) && d !in ls[0].dvs {
          var i :| 0 <= i < |ls| && d in ls[i].dvs;
          assert d in ls[1..][i - 1].dvs;
        }
      }
    }
  }

  /** A committed drop leaves no rowset of the table, and the other tables alone.  It leaves a delete
      vector of the table exactly when, before it, one outlived its rowset. */
  lemma {:induction false} DropLeavesDvIff(s: Snapshot, t: TableId, ls: seq<Listed>)
    requires ListsTable(s, t, ls) && After(s, DropOps(t, ls)).ok
    ensures var s' := After(s, DropOps(t, ls)).staged.snapshot;
            && (forall k :: s'.Has(k) <==> s.Has(k) && k.0 != t)
            && (forall d: DvKey :: d.0 != t ==> (s'.HasDv(d) <==> s.HasDv(d)))
            && (forall d: DvKey :: d.0 == t ==> (s'.HasDv(d) <==> Orphan(s, d)))
  {
    assert DropOps(t, ls)[1..] == DeleteListed(ls);
    DeleteListedMembers(V.Staged(s, map[], map[], []), ls);
  }

  /** A delete vector whose rowset is gone. */
  ghost predicate Orphan(s: Snapshot, d: DvKey) {
    s.HasDv(d) && !s.Has((d.0, d.1))
  }

  /** Changesets without `DeleteDV`, such as a compaction's, keep every delete vector, so deleting a
      rowset that has one makes an orphan. */
  lemma {:induction false} KeepsDvs(st: V.Staged, ops: seq<V.EpochOp>, d: DvKey)
    requires st.snapshot.HasDv(d) && V.Stage(st, ops).ok
    requires forall i :: 0 <= i < |ops| ==> !ops[i].DeleteDV?
    ensures V.Stage(st, ops).staged.snapshot.HasDv(d)
    decreases |ops|
  {
    if ops != [] {
      match ops[0] {
        case AddRowSet(k, _) => AddRowsetMembers(st.snapshot, k);
        case DeleteRowSet(k) => DeleteRowsetMembers(st.snapshot, k);
        case AddDV(k, _) => AddDvMembers(st.snapshot, k);
        case _ =>
      }
      KeepsDvs(V.StageOne(st, ops[0]).staged, ops[1..], d);
    }
  }

  /** Without failed appends, bootstrap gets through exactly when the file parses, the catalog operations
      replay, and no id of the last commit belongs to a dropped table. */
  lemma {:induction false} OpensIff(db: Db)
    requires Inv(db) && db.leaked == 0
    ensures Bootstrap(db.file).Some? <==>
              && !db.file.torn
              && Recover(NOTHING, db.log).Some?
              && var tables := Recover(NOTHING, db.log).value.catalog.tables;
                 && (forall k :: db.last.Has(k) ==> k.0 in tables)
                 && (forall k :: db.last.HasDv(k) ==> k.0 in tables)
    ensures Bootstrap(db.file).Some? ==> Bootstrap(db.file) == Recover(NOTHING, db.log)
  {
    if Recover(NOTHING, db.log).Some? {
      RecoverAgreesWithSets(NOTHING, NOTHING, db.log);
    }
  }

  lemma {:induction false} KeepsCatalog(r: Recovered, ops: seq<ManifestOp>)
    requires forall i :: 0 <= i < |ops| ==> !IsTableOp(ops[i])
    ensures Recover(r, ops).Some? && Recover(r, ops).value.catalog == r.catalog
    decreases |ops|
  {
    if ops != [] {
      KeepsCatalog(RecoverOne(r, ops[0]).value, ops[1..]);
    }
  }

  predicate OnlyDeletes(ops: seq<V.EpochOp>) {
    forall i :: 0 <= i < |ops| ==> ops[i].DeleteRowSet? || ops[i].DeleteDV?
  }

  lemma {:induction false} DeleteListedDeletes(ls: seq<Listed>)
    ensures OnlyDeletes(DeleteListed(ls))
    decreases |ls|
  {
    if ls != [] {
      DeleteListedDeletes(ls[1..]);
    }
  }

  /** A drop takes its table out of the replayed catalog and does nothing else to it. */
  lemma {:induction false} DropReplayed(log: seq<ManifestOp>, t: TableId, ls: seq<Listed>)
    requires Recover(NOTHING, log).Some? && t in Recover(NOTHING, log).value.catalog.tables
    ensures var c, r := Recover(NOTHING, log).value.catalog, Recover(NOTHING, log + LogAll(DropOps(t, ls)));
            r.Some? && r.value.catalog == c.(tables := c.tables - {t})
  {
    var ops := LogAll(DropOps(t, ls));
    RecoverConcat(NOTHING, log, ops);
    var m := Recover(NOTHING, log).value;
    assert ops[0] == DropTable(t) && ops[1..] == LogAll(DeleteListed(ls));
    DeleteListedDeletes(ls);
    KeepsCatalog(RecoverOne(m, ops[0]).value, ops[1..]);
  }

  /** In every history: when a table is dropped, no failed append is in the file, and the engine could be
      opened before the drop, it can be opened right after it if and only if the table had no delete
      vector that outlived its rowset. */
  lemma {:induction false} DropReopensIff(dbs: seq<Db>, events: seq<Event>, i: nat, t: TableId, ls: seq<Listed>)
    requires IsHistory(dbs, events) && i < |events| && events[i] == Commit(DropOps(t, ls))
    requires ListsTable(dbs[i].current, t, ls) && dbs[i].leaked == 0 && dbs[i].stray == []
    requires Bootstrap(dbs[i].file).Some? && t in Bootstrap(dbs[i].file).value.catalog.tables
    ensures Bootstrap(dbs[i + 1].file).Some? <==> !exists d :: Orphan(dbs[i].current, d) && d.0 == t
  {
    HistoryInv(dbs, events, i);
    HistoryInv(dbs, events, i + 1);
    assert Enabled(dbs[i], events[i]) && dbs[i + 1] == Step(dbs[i], events[i]);
    OpensIff(dbs[i]);
    OpensIff(dbs[i + 1]);
    DropLeavesDvIff(dbs[i].current, t, ls);
    DropReplayed(dbs[i].log, t, ls);
    if d :| Orphan(dbs[i].current, d) && d.0 == t {
      assert dbs[i + 1].last.HasDv(d);
    }
  }

  /** Rowset ids restart above the rowsets listed in the rewritten manifest only.  After the next
      bootstrap a newly numbered rowset starts with no delete vector if and only if every recovered
      delete vector names a rowset id no greater than some live one. */
  lemma {:induction false} NewRowsetsStartCleanIff(file: ManifestFile, ks: seq<RowsetKey>, ds: seq<DvKey>)
    requires Bootstrap(file).Some? && Lists(Bootstrap(file).value, ks, ds)
    ensures var r := Bootstrap(file).value;
            var again := Bootstrap(ManifestFile(Appended(Rewritten(r, ks, ds)), false));
            && again.Some?
            && ((forall d :: d in again.value.dvs ==> d.1 < again.value.nextRowset) <==>
                (forall d :: d in r.dvs ==> exists k :: k in r.rowsets && d.1 <= k.1))
  {
    RewrittenRecoversSame(file, ks, ds);
    var r := Bootstrap(file).value;
    var n := Bootstrap(ManifestFile(Appended(Rewritten(r, ks, ds)), false)).value.nextRowset;
    forall d | d in r.dvs ensures d.1 < n <==> exists k :: k in r.rowsets && d.1 <= k.1 {
      if d.1 < n {
        var k :| k in r.rowsets && n == k.1 + 1;
        assert d.1 <= k.1;
      }
    }
  }
}
