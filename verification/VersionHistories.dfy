/** Snapshots and pools as a function of the commits that were published. */
module VersionHistories {
  import opened Common
  import opened Snapshots
  import opened Versions
  import opened VersionProtocol
  import opened VersionTheorems

  // ---- what a list of operations leaves ----

  /** Operation `j` adds the rowset and no later one deletes it. */
  ghost predicate LeavesAt(ops: seq<EpochOp>, k: RowsetKey, j: int) {
    && 0 <= j < |ops| && ops[j].AddRowSet? && ops[j].rowset == k
    && forall l :: j < l < |ops| ==> ops[l] != DeleteRowSet(k)
  }

  ghost predicate Leaves(ops: seq<EpochOp>, k: RowsetKey) {
    exists j :: LeavesAt(ops, k, j)
  }

  ghost predicate LeavesDvAt(ops: seq<EpochOp>, k: DvKey, j: int) {
    && 0 <= j < |ops| && ops[j].AddDV? && ops[j].dv == k
    && forall l :: j < l < |ops| ==> ops[l] != DeleteDV(k)
  }

  ghost predicate LeavesDv(ops: seq<EpochOp>, k: DvKey) {
    exists j :: LeavesDvAt(ops, k, j)
  }

  /** The snapshot has what the operations leave. */
  ghost predicate HasLeft(s: Snapshot, ops: seq<EpochOp>) {
    && (forall k :: s.Has(k) <==> Leaves(ops, k))
    && (forall k :: s.HasDv(k) <==> LeavesDv(ops, k))
  }

  lemma {:induction false} LeavesSnoc(ops: seq<EpochOp>, op: EpochOp, k: RowsetKey)
    ensures Leaves(ops + [op], k) <==> (op.AddRowSet? && op.rowset == k) || (Leaves(ops, k) && op != DeleteRowSet(k))
  {
    var all := ops + [op];
    if op.AddRowSet? && op.rowset == k {
      assert LeavesAt(all, k, |ops|);
    }
    if j :| LeavesAt(ops, k, j) {
      assert op != DeleteRowSet(k) ==> LeavesAt(all, k, j);
    }
    if j :| LeavesAt(all, k, j) {
      assert all[|ops|] == op;
      assert j < |ops| ==> LeavesAt(ops, k, j) by {
        assert forall l :: 0 <= l < |ops| ==> all[l] == ops[l];
      }
    }
  }

  lemma {:induction false} LeavesDvSnoc(ops: seq<EpochOp>, op: EpochOp, k: DvKey)
    ensures LeavesDv(ops + [op], k) <==> (op.AddDV? && op.dv == k) || (LeavesDv(ops, k) && op != DeleteDV(k))
  {
    var all := ops + [op];
    if op.AddDV? && op.dv == k {
      assert LeavesDvAt(all, k, |ops|);
    }
    if j :| LeavesDvAt(ops, k, j) {
      assert op != DeleteDV(k) ==> LeavesDvAt(all, k, j);
    }
    if j :| LeavesDvAt(all, k, j) {
      assert all[|ops|] == op;
      assert j < |ops| ==> LeavesDvAt(ops, k, j) by {
        assert forall l :: 0 <= l < |ops| ==> all[l] == ops[l];
      }
    }
  }

  lemma {:induction false} StageOneLeaves(st: Staged, before: seq<EpochOp>, op: EpochOp)
    requires HasLeft(st.snapshot, before) && StageOne(st, op).ok
    ensures HasLeft(StageOne(st, op).staged.snapshot, before + [op])
  {
    hide Leaves, LeavesDv;
    forall k
      ensures Leaves(before + [op], k) <==>
                (op.AddRowSet? && op.rowset == k) || (Leaves(before, k) && op != DeleteRowSet(k))
    {
      LeavesSnoc(before, op, k);
    }
    forall k
      ensures LeavesDv(before + [op], k) <==> (op.AddDV? && op.dv == k) || (LeavesDv(before, k) && op != DeleteDV(k))
    {
      LeavesDvSnoc(before, op, k);
    }
    match op {
      case AddRowSet(k, _) => AddRowsetMembers(st.snapshot, k);
      case DeleteRowSet(k) => DeleteRowsetMembers(st.snapshot, k);
      case AddDV(k, _) => AddDvMembers(st.snapshot, k);
      case DeleteDV(k) => DeleteDvMembers(st.snapshot, k);
      case _ =>
    }
  }

  /** Staging takes a snapshot of what some operations leave to one of what they and the new ones leave. */
  lemma {:induction false} StageLeaves(st: Staged, before: seq<EpochOp>, ops: seq<EpochOp>)
    requires HasLeft(st.snapshot, before) && Stage(st, ops).ok
    ensures HasLeft(Stage(st, ops).staged.snapshot, before + ops)
    decreases |ops|
  {
    hide HasLeft, StageOne;
    if ops == [] {
      assert before + ops == before;
    } else {
      StageOneLeaves(st, before, ops[0]);
      StageLeaves(StageOne(st, ops[0]).staged, before + [ops[0]], ops[1..]);
      assert before + [ops[0]] + ops[1..] == before + ops;
    }
  }

  // ---- the commits of a run ----

  /** The operations of the last commit that was begun. */
  function LastBegun(actions: seq<Action>): seq<EpochOp> {
    if actions == [] then []
    else
      var n := |actions| - 1;
      if actions[n].Begin? then actions[n].ops else LastBegun(actions[..n])
  }

  /** The operations of all commits that were published, in order. */
  function Published(actions: seq<Action>): seq<EpochOp> {
    if actions == [] then []
    else
      var n := |actions| - 1;
      Published(actions[..n]) + if actions[n].End? then LastBegun(actions[..n]) else []
  }

  /** The objects that the operations add are in these pools. */
  ghost predicate Holds(rowsets: map<RowsetKey, DiskRowset>, dvs: map<(TableId, DvId), DeleteVector>,
                        ops: seq<EpochOp>) {
    && (forall i :: 0 <= i < |ops| && ops[i].AddRowSet? ==>
          ops[i].rowset in rowsets && rowsets[ops[i].rowset] == ops[i].data)
    && (forall i :: 0 <= i < |ops| && ops[i].AddDV? ==>
          PoolKey(ops[i].dv) in dvs && dvs[PoolKey(ops[i].dv)] == ops[i].vector)
  }

  ghost predicate Keeps<K, V>(a: map<K, V>, b: map<K, V>) {
    forall k :: k in a ==> k in b && b[k] == a[k]
  }

  lemma {:induction false} HoldsLonger(a: State, b: State, ops: seq<EpochOp>)
    requires Holds(a.added, a.addedDvs, ops) && Keeps(a.added, b.added) && Keeps(a.addedDvs, b.addedDvs)
    ensures Holds(b.added, b.addedDvs, ops)
  {}

  lemma {:induction false} HoldsBoth(s: State, a: seq<EpochOp>, b: seq<EpochOp>)
    requires Holds(s.added, s.addedDvs, a) && Holds(s.added, s.addedDvs, b)
    ensures Holds(s.added, s.addedDvs, a + b)
  {
    forall i | 0 <= i < |a + b| ensures (a + b)[i] == if i < |a| then a[i] else b[i - |a|] {}
  }

  /** Fresh operations leave every object under its key, and change none that was there. */
  lemma {:induction false} StageHolds(st: Staged, known: set<RowsetKey>, knownDvs: set<(TableId, DvId)>,
                                      ops: seq<EpochOp>)
    requires st.rowsets.Keys <= known && st.dvs.Keys <= knownDvs && FreshOps(known, knownDvs, ops)
    ensures var r := Stage(st, ops);
            && Keeps(st.rowsets, r.staged.rowsets) && Keeps(st.dvs, r.staged.dvs)
            && (r.ok ==> Holds(r.staged.rowsets, r.staged.dvs, ops))
    decreases |ops|
  {
    if ops != [] {
      var r := StageOne(st, ops[0]);
      if r.ok {
        var k := if ops[0].AddRowSet? then known + {ops[0].rowset} else known;
        var d := if ops[0].AddDV? then knownDvs + {PoolKey(ops[0].dv)} else knownDvs;
        StageHolds(r.staged, k, d, ops[1..]);
        assert forall i :: 0 < i < |ops| ==> ops[i] == ops[1..][i - 1];
      }
    }
  }

  lemma {:induction false} BeginHolds(s: State, ops: seq<EpochOp>)
    requires Inv(s) && Enabled(s, Begin(ops))
    ensures var s' := Step(s, Begin(ops));
            && Keeps(s.added, s'.added) && Keeps(s.addedDvs, s'.addedDvs)
            && (s'.inflight.Some? ==> Holds(s'.added, s'.addedDvs, ops))
  {
    hide Stage;
    var st := Staged(Current(s.inner), s.inner.rowsets, s.inner.dvs, []);
    assert Keeps(s.added, Step(s, Begin(ops)).added) by {
      AddedGrows(s, ops);
    }
    StageHolds(st, s.added.Keys, s.addedDvs.Keys, ops);
  }

  // ---- every run ----

  /** Where a run stands after these actions. */
  ghost predicate Tells(s: State, actions: seq<Action>) {
    && HasLeft(Current(s.inner), Published(actions))
    && Holds(s.added, s.addedDvs, Published(actions))
    && (s.inflight.Some? ==>
          && HasLeft(s.inflight.value.snapshot, Published(actions) + LastBegun(actions))
          && Holds(s.added, s.addedDvs, LastBegun(actions)))
  }

  lemma {:induction false} BeginTells(s: State, actions: seq<Action>, ops: seq<EpochOp>)
    requires Inv(s) && Enabled(s, Begin(ops)) && Tells(s, actions)
    ensures Tells(Step(s, Begin(ops)), actions + [Begin(ops)])
  {
    hide HasLeft, Holds, Stage, Inv;
    var s', all := Step(s, Begin(ops)), actions + [Begin(ops)];
    assert all[..|all| - 1] == actions;
    assert Published(all) == Published(actions) + [] == Published(actions) && LastBegun(all) == ops;
    BeginHolds(s, ops);
    HoldsLonger(s, s', Published(actions));
    if s'.inflight.Some? {
      StageLeaves(Staged(Current(s.inner), s.inner.rowsets, s.inner.dvs, []), Published(actions), ops);
    }
  }

  lemma {:induction false} EndTells(s: State, actions: seq<Action>)
    requires Enabled(s, End) && Tells(s, actions)
    ensures Tells(Step(s, End), actions + [End])
  {
    hide HasLeft, Holds;
    var all := actions + [End];
    assert all[..|all| - 1] == actions;
    HoldsBoth(s, Published(actions), LastBegun(actions));
  }

  lemma {:induction false} OtherTells(s: State, actions: seq<Action>, a: Action)
    requires Enabled(s, a) && Tells(s, actions) && !a.Begin? && !a.End?
    ensures Tells(Step(s, a), actions + [a])
  {
    hide HasLeft, Holds;
    var all := actions + [a];
    assert all[..|all| - 1] == actions;
    assert Published(all) == Published(actions) + [] == Published(actions) && LastBegun(all) == LastBegun(actions);
  }

  lemma {:induction false} RunTells(states: seq<State>, actions: seq<Action>, i: nat)
    requires IsRun(states, actions) && i < |states|
    ensures Tells(states[i], actions[..i])
  {
    hide Tells;
    if i == 0 {
      NothingTold();
    } else {
      RunTells(states, actions, i - 1);
      RunInv(states, actions, i - 1);
      var s, a := states[i - 1], actions[i - 1];
      assert Enabled(s, a) && states[i] == Step(s, a);
      assert actions[..i] == actions[..i - 1] + [a];
      match a {
        case Begin(ops) => BeginTells(s, actions[..i - 1], ops);
        case End => EndTells(s, actions[..i - 1]);
        case _ => OtherTells(s, actions[..i - 1], a);
      }
    }
  }

  lemma {:induction false} NothingTold()
    ensures Tells(INIT, [])
  {
    assert Published([]) == [];
  }

  /** In every run the current snapshot has exactly what the published commits leave, and the pools hold the
      objects they added: a rowset as long as it is left, a delete vector for good. */
  lemma {:induction false} CurrentIsPublished(states: seq<State>, actions: seq<Action>, i: nat)
    requires IsRun(states, actions) && i < |states|
    ensures var inner, ops := states[i].inner, Published(actions[..i]);
            && HasLeft(Current(inner), ops)
            && (forall j :: 0 <= j < |ops| && ops[j].AddRowSet? && Leaves(ops, ops[j].rowset) ==>
                  ops[j].rowset in inner.rowsets && inner.rowsets[ops[j].rowset] == ops[j].data)
            && (forall j :: 0 <= j < |ops| && ops[j].AddDV? ==>
                  PoolKey(ops[j].dv) in inner.dvs && inner.dvs[PoolKey(ops[j].dv)] == ops[j].vector)
  {
    hide Leaves, LeavesDv;
    RunTells(states, actions, i);
    RunInv(states, actions, i);
  }

  /** The pin taken at action `i` is still there in state `j`. */
  ghost predicate Pinned(actions: seq<Action>, id: nat, i: nat, j: nat) {
    && i < j <= |actions| && actions[i] == Pin(id)
    && forall l :: i < l < j ==> actions[l] != Unpin(id)
  }

  lemma {:induction false} VersionKept(s: State, a: Action, id: nat)
    requires Enabled(s, a) && id in s.versions && a != Unpin(id)
    ensures id in Step(s, a).versions && Step(s, a).versions[id].epoch == s.versions[id].epoch
  {
    hide StageFrom;
  }

  lemma {:induction false} PinStays(states: seq<State>, actions: seq<Action>, id: nat, i: nat, j: nat)
    requires IsRun(states, actions) && Pinned(actions, id, i, j)
    ensures id in states[j].versions && states[j].versions[id].epoch == states[i].inner.epoch
    ensures states[i].inner.epoch in states[i].inner.status
    decreases j
  {
    assert Enabled(states[j - 1], actions[j - 1]) && states[j] == Step(states[j - 1], actions[j - 1]);
    if i < j - 1 {
      hide Step, Enabled;
      PinStays(states, actions, id, i, j - 1);
      VersionKept(states[j - 1], actions[j - 1], id);
    }
  }

  /** A pin sees what was published before it was taken and nothing else, with the objects as they were added,
      until it is given back. */
  lemma {:induction false} PinSeesPublished(states: seq<State>, actions: seq<Action>, id: nat, i: nat, j: nat)
    requires IsRun(states, actions) && Pinned(actions, id, i, j)
    ensures id in states[j].versions && states[j].versions[id].epoch in states[j].inner.status
    ensures var inner, ops := states[j].inner, Published(actions[..i]);
            && HasLeft(inner.status[states[j].versions[id].epoch], ops)
            && (forall l :: 0 <= l < |ops| && ops[l].AddRowSet? && Leaves(ops, ops[l].rowset) ==>
                  ops[l].rowset in inner.rowsets && inner.rowsets[ops[l].rowset] == ops[l].data)
            && (forall l :: 0 <= l < |ops| && ops[l].AddDV? ==>
                  PoolKey(ops[l].dv) in inner.dvs && inner.dvs[PoolKey(ops[l].dv)] == ops[l].vector)
  {
    hide Leaves, LeavesDv;
    PinStays(states, actions, id, i, j);
    RunTells(states, actions, i);
    RunTells(states, actions, j);
    RunInv(states, actions, j);
    PublishedNeverChange(states, actions, i, j);
    PublishedGrows(actions, i, j);
    var s, e := states[j], states[i].inner.epoch;
    var ops := Published(actions[..i]);
    assert s.inner.status[e] == Current(states[i].inner);
    forall l | 0 <= l < |ops| ensures ops[l] == Published(actions[..j])[l] {}
    forall l | 0 <= l < |ops| && ops[l].AddRowSet? && Leaves(ops, ops[l].rowset)
      ensures ops[l].rowset in s.inner.rowsets && s.inner.rowsets[ops[l].rowset] == ops[l].data
    {
      assert PinnedHas(s, id, ops[l].rowset);
    }
  }

  lemma {:induction false} PublishedGrows(actions: seq<Action>, i: nat, j: nat)
    requires i <= j <= |actions|
    ensures Published(actions[..i]) <= Published(actions[..j])
    decreases j
  {
    if i < j {
      PublishedGrows(actions, i, j - 1);
      assert actions[..j][..j - 1] == actions[..j - 1];
    }
  }
}
