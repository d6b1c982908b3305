/** The rowset and delete-vector ids of one epoch, and the catalogue-changing operations. */
module Snapshots {
  import opened Common

  type TableId = nat
  type RowsetId = nat
  type DvId = nat
  type RowsetKey = (TableId, RowsetId)
  type DvKey = (TableId, RowsetId, DvId)

  /** Two-level maps, as in the engine: an id set per table, and per table an id set per rowset.
      Deleting the last id of an inner collection also drops the collection. */
  datatype Snapshot = Snapshot(rowsets: map<TableId, set<RowsetId>>,
                               dvs: map<TableId, map<RowsetId, set<DvId>>>) {

    predicate Has(k: RowsetKey) {
      k.0 in rowsets && k.1 in rowsets[k.0]
    }

    predicate HasDv(k: DvKey) {
      k.0 in dvs && k.1 in dvs[k.0] && k.2 in dvs[k.0][k.1]
    }

    function AddRowset(k: RowsetKey): Snapshot {
      var ids := if k.0 in rowsets then rowsets[k.0] else {};
      this.(rowsets := rowsets[k.0 := ids + {k.1}])
    }

    /** `None` is the panic of deleting from a table that has no rowset. */
    function DeleteRowset(k: RowsetKey): Option<Snapshot> {
      if k.0 !in rowsets then None
      else
        var rest := rowsets[k.0] - {k.1};
        Some(this.(rowsets := if rest == {} then rowsets - {k.0} else rowsets[k.0 := rest]))
    }

    function AddDv(k: DvKey): Snapshot {
      var table: map<RowsetId, set<DvId>> := if k.0 in dvs then dvs[k.0] else map[];
      var ids := if k.1 in table then table[k.1] else {};
      this.(dvs := dvs[k.0 := table[k.1 := ids + {k.2}]])
    }

    /** `None` is the panic of deleting from a rowset that has no delete vector. */
    function DeleteDv(k: DvKey): Option<Snapshot> {
      if k.0 !in dvs || k.1 !in dvs[k.0] then None
      else
        var rest := dvs[k.0][k.1] - {k.2};
        var table: map<RowsetId, set<DvId>> := if rest == {} then dvs[k.0] - {k.1} else dvs[k.0][k.1 := rest];
        Some(this.(dvs := if table == map[] then dvs - {k.0} else dvs[k.0 := table]))
    }

    /** No inner collection is empty. */
    ghost predicate Canonical() {
      && (forall t :: t in rowsets ==> rowsets[t] != {})
      && (forall t :: t in dvs ==> dvs[t] != map[])
      && (forall t, r :: t in dvs && r in dvs[t] ==> dvs[t][r] != {})
    }
  }

  const EMPTY := Snapshot(map[], map[])

  ghost predicate SameMembers(a: Snapshot, b: Snapshot) {
    && (forall k :: a.Has(k) <==> b.Has(k))
    && (forall k :: a.HasDv(k) <==> b.HasDv(k))
  }

  /** Adding and deleting ids behaves like adding and deleting set members, and keeps canonical form. */
  lemma {:induction false} AddRowsetMembers(s: Snapshot, k: RowsetKey)
    ensures forall j :: s.AddRowset(k).Has(j) <==> s.Has(j) || j == k
    ensures forall j :: s.AddRowset(k).HasDv(j) <==> s.HasDv(j)
    ensures s.Canonical() ==> s.AddRowset(k).Canonical()
  {}

  lemma {:induction false} DeleteRowsetMembers(s: Snapshot, k: RowsetKey)
    requires s.DeleteRowset(k).Some?
    ensures var s' := s.DeleteRowset(k).value;
            && (forall j :: s'.Has(j) <==> s.Has(j) && j != k)
            && (forall j :: s'.HasDv(j) <==> s.HasDv(j))
            && (s.Canonical() ==> s'.Canonical())
  {
    var s' := s.DeleteRowset(k).value;
    forall j ensures s'.Has(j) <==> s.Has(j) && j != k {
      if j.0 == k.0 && j.1 != k.1 && s.Has(j) {
        assert j.1 in s.rowsets[k.0] - {k.1};
      }
    }
  }

  lemma {:induction false} AddDvMembers(s: Snapshot, k: DvKey)
    ensures forall j :: s.AddDv(k).Has(j) <==> s.Has(j)
    ensures forall j :: s.AddDv(k).HasDv(j) <==> s.HasDv(j) || j == k
    ensures s.Canonical() ==> s.AddDv(k).Canonical()
  {}

  lemma {:induction false} DeleteDvMembers(s: Snapshot, k: DvKey)
    requires s.DeleteDv(k).Some?
    ensures var s' := s.DeleteDv(k).value;
            && (forall j :: s'.Has(j) <==> s.Has(j))
            && (forall j :: s'.HasDv(j) <==> s.HasDv(j) && j != k)
            && (s.Canonical() ==> s'.Canonical())
  {
    var s' := s.DeleteDv(k).value;
    var rest := s.dvs[k.0][k.1] - {k.2};
    var table: map<RowsetId, set<DvId>> := if rest == {} then s.dvs[k.0] - {k.1} else s.dvs[k.0][k.1 := rest];
    forall j ensures s'.HasDv(j) <==> s.HasDv(j) && j != k {
      if j.0 == k.0 && j != k && s.HasDv(j) {
        if j.1 == k.1 {
          assert j.2 in rest;
        }
        assert j.1 in table;
      }
    }
  }

  /** A canonical snapshot is determined by its members, so the two-level maps carry no hidden state. */
  lemma {:induction false} CanonicalUnique(a: Snapshot, b: Snapshot)
    requires a.Canonical() && b.Canonical() && SameMembers(a, b)
    ensures a == b
  {
    forall t ensures t in a.rowsets <==> t in b.rowsets {
      if t in a.rowsets {
        var r :| r in a.rowsets[t];
        assert b.Has((t, r));
      }
      if t in b.rowsets {
        var r :| r in b.rowsets[t];
        assert a.Has((t, r));
      }
    }
    forall t | t in a.rowsets ensures a.rowsets[t] == b.rowsets[t] {
      forall r ensures r in a.rowsets[t] <==> r in b.rowsets[t] {
        assert a.Has((t, r)) <==> b.Has((t, r));
      }
    }
    assert a.rowsets == b.rowsets;
    forall t ensures t in a.dvs ==> t in b.dvs && a.dvs[t] == b.dvs[t] {
      if t in a.dvs { SameDvTable(a, b, t); }
    }
    forall t ensures t in b.dvs ==> t in a.dvs {
      if t in b.dvs { SameDvTable(b, a, t); }
    }
    assert a.dvs == b.dvs;
  }

  lemma {:induction false} SameDvTable(a: Snapshot, b: Snapshot, t: TableId)
    requires a.Canonical() && b.Canonical() && SameMembers(a, b) && t in a.dvs
    ensures t in b.dvs && a.dvs[t] == b.dvs[t]
  {
    var r0 :| r0 in a.dvs[t];
    var d0 :| d0 in a.dvs[t][r0];
    assert a.HasDv((t, r0, d0)) && b.HasDv((t, r0, d0));
    forall r ensures r in a.dvs[t] <==> r in b.dvs[t] {
      if r in a.dvs[t] {
        var d :| d in a.dvs[t][r];
        assert a.HasDv((t, r, d)) && b.HasDv((t, r, d));
      }
      if r in b.dvs[t] {
        var d :| d in b.dvs[t][r];
        assert b.HasDv((t, r, d)) && a.HasDv((t, r, d));
      }
    }
    forall r | r in a.dvs[t] ensures a.dvs[t][r] == b.dvs[t][r] {
      forall d ensures d in a.dvs[t][r] <==> d in b.dvs[t][r] {
        assert a.HasDv((t, r, d)) <==> b.HasDv((t, r, d));
      }
    }
    assert a.dvs[t].Keys == b.dvs[t].Keys;
  }
}
