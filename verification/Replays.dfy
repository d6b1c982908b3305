/** What a replay rebuilds, read off the positions of the replayed operations. */
module Replays {
  import opened Common
  import opened Snapshots
  import opened Manifests
  import Versions

  /** `add` is there and no later operation is `del`. */
  ghost predicate StandsAt(ops: seq<ManifestOp>, add: ManifestOp, del: ManifestOp, j: int) {
    0 <= j < |ops| && ops[j] == add && forall l :: j < l < |ops| ==> ops[l] != del
  }

  ghost predicate Stands(ops: seq<ManifestOp>, add: ManifestOp, del: ManifestOp) {
    exists j :: StandsAt(ops, add, del, j)
  }

  lemma {:induction false} StandsSnoc(ops: seq<ManifestOp>, op: ManifestOp, add: ManifestOp, del: ManifestOp)
    requires add != del
    ensures Stands(ops + [op], add, del) <==> op == add || (Stands(ops, add, del) && op != del)
  {
    var all := ops + [op];
    assert all[|ops|] == op && forall l :: 0 <= l < |ops| ==> all[l] == ops[l];
    if op == add {
      assert StandsAt(all, add, del, |ops|);
    }
    if j :| StandsAt(ops, add, del, j) {
      assert op != del ==> StandsAt(all, add, del, j);
    }
    if j :| StandsAt(all, add, del, j) {
      assert j < |ops| ==> StandsAt(ops, add, del, j);
    }
  }

  /** How many tables the operations create. */
  function Creates(ops: seq<ManifestOp>): nat {
    if ops == [] then 0
    else Creates(ops[..|ops| - 1]) + if ops[|ops| - 1].CreateTable? then 1 else 0
  }

  /** Operation `j` creates table `t` under this name, ids being given in order, and it is not dropped later. */
  ghost predicate NamedAt(ops: seq<ManifestOp>, t: TableId, name: string, j: int) {
    && 0 <= j < |ops| && ops[j] == CreateTable(name) && t == Creates(ops[..j])
    && forall l :: j < l < |ops| ==> ops[l] != DropTable(t)
  }

  ghost predicate NamedBy(ops: seq<ManifestOp>, t: TableId, name: string) {
    exists j :: NamedAt(ops, t, name, j)
  }

  lemma {:induction false} NamedSnoc(ops: seq<ManifestOp>, op: ManifestOp, t: TableId, name: string)
    ensures NamedBy(ops + [op], t, name) <==>
              (op == CreateTable(name) && t == Creates(ops)) || (NamedBy(ops, t, name) && op != DropTable(t))
  {
    var all := ops + [op];
    assert all[|ops|] == op && all[..|ops|] == ops;
    assert forall l :: 0 <= l < |ops| ==> all[l] == ops[l] && all[..l] == ops[..l];
    if op == CreateTable(name) && t == Creates(ops) {
      assert NamedAt(all, t, name, |ops|);
    }
    if j :| NamedAt(ops, t, name, j) {
      assert op != DropTable(t) ==> NamedAt(all, t, name, j);
    }
    if j :| NamedAt(all, t, name, j) {
      assert j < |ops| ==> NamedAt(ops, t, name, j);
    }
  }

  // ---- sets, catalog and counters ----

  ghost predicate SetsAre(r: Recovered, ops: seq<ManifestOp>) {
    && (forall k :: k in r.rowsets <==> Stands(ops, AddRowSet(k), DeleteRowSet(k)))
    && (forall k :: k in r.dvs <==> Stands(ops, AddDV(k), DeleteDV(k)))
  }

  ghost predicate CatalogIs(c: Catalog, ops: seq<ManifestOp>) {
    && c.next == Creates(ops)
    && (forall t, name :: t in c.tables && c.tables[t] == name <==> NamedBy(ops, t, name))
  }

  /** Each counter is above every id that was added, also of what was deleted again, and not higher than that. */
  ghost predicate CountersAre(r: Recovered, ops: seq<ManifestOp>) {
    && (forall j :: 0 <= j < |ops| && ops[j].AddRowSet? ==> ops[j].rowset.1 < r.nextRowset)
    && (r.nextRowset == 0 || exists j :: 0 <= j < |ops| && ops[j].AddRowSet? && ops[j].rowset.1 + 1 == r.nextRowset)
    && (forall j :: 0 <= j < |ops| && ops[j].AddDV? ==> ops[j].dv.2 < r.nextDv)
    && (r.nextDv == 0 || exists j :: 0 <= j < |ops| && ops[j].AddDV? && ops[j].dv.2 + 1 == r.nextDv)
  }

  lemma {:induction false} SetsStep(r: Recovered, ops: seq<ManifestOp>, op: ManifestOp)
    requires SetsAre(r, ops) && RecoverOne(r, op).Some?
    ensures SetsAre(RecoverOne(r, op).value, ops + [op])
  {
    hide Stands;
    forall k ensures Stands(ops + [op], AddRowSet(k), DeleteRowSet(k)) <==>
                       op == AddRowSet(k) || (Stands(ops, AddRowSet(k), DeleteRowSet(k)) && op != DeleteRowSet(k))
    {
      StandsSnoc(ops, op, AddRowSet(k), DeleteRowSet(k));
    }
    forall k ensures Stands(ops + [op], AddDV(k), DeleteDV(k)) <==>
                       op == AddDV(k) || (Stands(ops, AddDV(k), DeleteDV(k)) && op != DeleteDV(k))
    {
      StandsSnoc(ops, op, AddDV(k), DeleteDV(k));
    }
  }

  lemma {:induction false} CatalogStep(r: Recovered, ops: seq<ManifestOp>, op: ManifestOp)
    requires CatalogIs(r.catalog, ops) && RecoverOne(r, op).Some?
    requires forall t :: t in r.catalog.tables ==> t < r.catalog.next
    ensures CatalogIs(RecoverOne(r, op).value.catalog, ops + [op])
    ensures var c := RecoverOne(r, op).value.catalog; forall t :: t in c.tables ==> t < c.next
  {
    hide NamedBy;
    var all := ops + [op];
    assert all[..|all| - 1] == ops;
    forall t, name
      ensures NamedBy(all, t, name) <==>
                (op == CreateTable(name) && t == Creates(ops)) || (NamedBy(ops, t, name) && op != DropTable(t))
    {
      NamedSnoc(ops, op, t, name);
    }
  }

  lemma {:induction false} CountersStep(r: Recovered, ops: seq<ManifestOp>, op: ManifestOp)
    requires CountersAre(r, ops) && RecoverOne(r, op).Some?
    ensures CountersAre(RecoverOne(r, op).value, ops + [op])
  {
    var all, r' := ops + [op], RecoverOne(r, op).value;
    assert all[|ops|] == op && forall l :: 0 <= l < |ops| ==> all[l] == ops[l];
    if r'.nextRowset == r.nextRowset > 0 {
      var j :| 0 <= j < |ops| && ops[j].AddRowSet? && ops[j].rowset.1 + 1 == r.nextRowset;
      assert all[j].AddRowSet? && all[j].rowset.1 + 1 == r'.nextRowset;
    }
    if r'.nextDv == r.nextDv > 0 {
      var j :| 0 <= j < |ops| && ops[j].AddDV? && ops[j].dv.2 + 1 == r.nextDv;
      assert all[j].AddDV? && all[j].dv.2 + 1 == r'.nextDv;
    }
  }

  /** Replay rebuilds the ids that were added and not deleted later, gives tables the numbers of their creation,
      and sets both counters one above the highest id ever added. */
  lemma {:induction false} RecoveredIs(ops: seq<ManifestOp>)
    requires Recover(NOTHING, ops).Some?
    ensures var r := Recover(NOTHING, ops).value; SetsAre(r, ops) && CatalogIs(r.catalog, ops) && CountersAre(r, ops)
    ensures var c := Recover(NOTHING, ops).value.catalog; forall t :: t in c.tables ==> t < c.next
    decreases |ops|
  {
    hide SetsAre, CatalogIs, CountersAre;
    if ops == [] {
      NothingIs();
    } else {
      var init, last := ops[..|ops| - 1], ops[|ops| - 1];
      assert ops == init + [last];
      RecoverConcat(NOTHING, init, [last]);
      RecoveredIs(init);
      var m := Recover(NOTHING, init).value;
      assert Recover(m, [last]) == match RecoverOne(m, last) case Some(r') => Recover(r', []) case None => None;
      SetsStep(m, init, last);
      CatalogStep(m, init, last);
      CountersStep(m, init, last);
    }
  }

  lemma {:induction false} NothingIs()
    ensures SetsAre(NOTHING, []) && CatalogIs(NOTHING.catalog, []) && CountersAre(NOTHING, [])
  {}

  /** Replay is in error exactly if some operation creates a table under a name in use or drops one that is not
      there. */
  ghost predicate TableError(ops: seq<ManifestOp>, j: int) {
    && 0 <= j < |ops|
    && match ops[j]
       case CreateTable(name) => exists t :: NamedBy(ops[..j], t, name)
       case DropTable(t) => forall name :: !NamedBy(ops[..j], t, name)
       case _ => false
  }

  lemma {:induction false} RecoverFailsIff(ops: seq<ManifestOp>)
    ensures Recover(NOTHING, ops).None? <==> exists j :: TableError(ops, j)
    decreases |ops|
  {
    hide NamedBy;
    if ops != [] {
      var n := |ops| - 1;
      var init, last := ops[..n], ops[n];
      assert ops == init + [last];
      RecoverConcat(NOTHING, init, [last]);
      RecoverFailsIff(init);
      assert forall j :: 0 <= j < n ==> ops[..j] == init[..j];
      assert forall j :: j != n ==> (TableError(ops, j) <==> TableError(init, j));
      if Recover(NOTHING, init).Some? {
        RecoveredIs(init);
        var m := Recover(NOTHING, init).value;
        assert Recover(m, [last]) == match RecoverOne(m, last) case Some(r') => Recover(r', []) case None => None;
        LastFails(m, init, last);
      } else {
        var j :| TableError(init, j);
        assert TableError(ops, j);
      }
    }
  }

  lemma {:induction false} LastFails(m: Recovered, init: seq<ManifestOp>, last: ManifestOp)
    requires CatalogIs(m.catalog, init)
    ensures RecoverOne(m, last).None? <==> TableError(init + [last], |init|)
  {
    hide NamedBy;
    var ops := init + [last];
    assert ops[..|init|] == init;
    match last {
      case CreateTable(name) =>
        if name in m.catalog.tables.Values {
          var t :| t in m.catalog.tables && m.catalog.tables[t] == name;
          assert NamedBy(init, t, name);
        }
      case DropTable(t) =>
        if t in m.catalog.tables {
          assert NamedBy(init, t, m.catalog.tables[t]);
        }
      case _ =>
    }
  }

  /** The ids an engine hands out after it was opened are not those of a rowset it has, nor the pool key of a
      delete vector it has. */
  lemma {:induction false} NextIdsAreFresh(file: ManifestFile, t: TableId, n: nat)
    requires Bootstrap(file).Some?
    ensures var r := Bootstrap(file).value;
            && (t, r.nextRowset + n) !in r.rowsets
            && (t, r.nextDv + n) !in (set k | k in r.dvs :: Versions.PoolKey(k))
  {
    hide RecoverOne, NamedBy;
    RecoveredIs(Replayed(file).value);
  }

  /** Entries outside of an append are dropped. */
  lemma {:induction false} EntriesOutside(s: Scan, ops: seq<ManifestOp>)
    requires !s.begin
    ensures ScanAll(s, Entries(ops)) == s
    decreases |ops|
  {
    if ops != [] {
      assert Entries(ops)[1..] == Entries(ops[1..]);
      EntriesOutside(s, ops[1..]);
    }
  }
}
