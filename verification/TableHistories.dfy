/** What a table shows to a reader, as a function of the commits before its pin. */
module TableHistories {
  import opened Common
  import opened Bags
  import opened Snapshots
  import opened Versions
  import opened VersionProtocol
  import opened VersionTheorems
  import opened VersionHistories
  import opened DeleteVectors
  import C = Compaction

  /** Some delete vector that the operations leave on the rowset has the row. */
  ghost predicate DeletedIn(ops: seq<EpochOp>, t: TableId, r: RowsetId, x: nat) {
    exists j :: 0 <= j < |ops| && DeletesAt(ops, t, r, x, ops[j])
  }

  ghost predicate DeletesAt(ops: seq<EpochOp>, t: TableId, r: RowsetId, x: nat, op: EpochOp) {
    op.AddDV? && op.dv.0 == t && op.dv.1 == r && LeavesDv(ops, op.dv) && x in op.vector.deletes
  }

  lemma {:induction false} DeadIsDeleted(p: C.Pools, s: Snapshot, ops: seq<EpochOp>, t: TableId, r: RowsetId, x: nat)
    requires HasLeft(s, ops)
    requires forall j :: 0 <= j < |ops| && ops[j].AddDV? ==>
               PoolKey(ops[j].dv) in p.dvs && p.dvs[PoolKey(ops[j].dv)] == ops[j].vector
    ensures x in C.DeadIn(p, s, t, r) <==> DeletedIn(ops, t, r, x)
  {
    hide LeavesDv, Leaves;
    if x in C.DeadIn(p, s, t, r) {
      var d :| d in s.dvs[t][r] && (t, d) in p.dvs && x in p.dvs[(t, d)].deletes;
      assert s.HasDv((t, r, d)) && LeavesDv(ops, (t, r, d));
      var j := Added(ops, (t, r, d));
      assert DeletesAt(ops, t, r, x, ops[j]);
    }
    if j :| 0 <= j < |ops| && DeletesAt(ops, t, r, x, ops[j]) {
      assert s.HasDv(ops[j].dv);
    }
  }

  lemma {:induction false} Added(ops: seq<EpochOp>, k: DvKey) returns (j: nat)
    requires LeavesDv(ops, k)
    ensures j < |ops| && ops[j].AddDV? && ops[j].dv == k
  {
    j :| LeavesDvAt(ops, k, j);
  }

  /** As long as a pin is held, every rowset that the commits before it leave shows, in order, exactly the rows it
      was added with that no delete vector of those commits has. */
  lemma {:induction false} PinShowsCommits(states: seq<State>, actions: seq<Action>, id: nat, i: nat, j: nat, l: nat)
    returns (at: seq<nat>)
    requires IsRun(states, actions) && Pinned(actions, id, i, j)
    requires l < |Published(actions[..i])| && Published(actions[..i])[l].AddRowSet?
    requires Leaves(Published(actions[..i]), Published(actions[..i])[l].rowset)
    ensures id in states[j].versions && states[j].versions[id].epoch in states[j].inner.status
    ensures var ops, inner := Published(actions[..i]), states[j].inner;
            var s, p := inner.status[states[j].versions[id].epoch], C.Pools(inner.rowsets, inner.dvs);
            var k, rows := ops[l].rowset, ops[l].data.rows;
            && Selects(rows, at, C.Shown(p, s, k.0, k.1))
            && (forall x: nat :: x in at <==> x < |rows| && !DeletedIn(ops, k.0, k.1, x))
  {
    hide Leaves, LeavesDv, HasLeft, DeletedIn, Selects, Survivors, Step, Enabled;
    PinSeesPublished(states, actions, id, i, j);
    var ops, inner := Published(actions[..i]), states[j].inner;
    var s, p := inner.status[states[j].versions[id].epoch], C.Pools(inner.rowsets, inner.dvs);
    var k := ops[l].rowset;
    var dead := C.DeadIn(p, s, k.0, k.1);
    forall x: nat ensures x in dead <==> DeletedIn(ops, k.0, k.1, x) {
      DeadIsDeleted(p, s, ops, k.0, k.1, x);
    }
    at := SurvivorsAre(ops[l].data.rows, dead, 0);
  }

  /** And the table shows the rows of just these rowsets. */
  lemma {:induction false} PinShowsTable(states: seq<State>, actions: seq<Action>, id: nat, i: nat, j: nat, t: TableId,
                                         row: Row)
    requires IsRun(states, actions) && Pinned(actions, id, i, j)
    ensures id in states[j].versions && states[j].versions[id].epoch in states[j].inner.status
    ensures var ops, inner := Published(actions[..i]), states[j].inner;
            var s, p := inner.status[states[j].versions[id].epoch], C.Pools(inner.rowsets, inner.dvs);
            && (forall r :: r in C.IdsOf(s, t) <==> Leaves(ops, (t, r)))
            && (row in C.TableRows(p, s, t) <==> exists r :: Leaves(ops, (t, r)) && row in C.Shown(p, s, t, r))
  {
    hide Leaves, LeavesDv, Step, Enabled, C.Shown, Bind;
    PinSeesPublished(states, actions, id, i, j);
    var ops, inner := Published(actions[..i]), states[j].inner;
    var s, p := inner.status[states[j].versions[id].epoch], C.Pools(inner.rowsets, inner.dvs);
    forall r ensures r in C.IdsOf(s, t) <==> Leaves(ops, (t, r)) {
      assert s.Has((t, r)) <==> Leaves(ops, (t, r));
    }
    var ids, f := C.IdsOf(s, t), C.ShownF(p, s, t);
    assert forall r :: r in multiset(ids) <==> r in ids;
    assert forall r: nat :: row in f(r) <==> row in C.Shown(p, s, t, r);
    BindMember(multiset(ids), f, row);
  }
}
