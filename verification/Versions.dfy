/** The version manager's state under its inner lock, and what each critical section does to it. */
module Versions {
  import opened Common
  import opened Snapshots

  type Epoch = nat

  /** A rowset on disk: its rows in row-id order. */
  datatype DiskRowset = DiskRowset(rows: seq<Row>)

  /** The row ids deleted from one rowset. */
  datatype DeleteVector = DeleteVector(deletes: seq<nat>)

  datatype EpochOp =
    | CreateTable(name: string)
    | DropTable(table: TableId)
    | AddRowSet(rowset: RowsetKey, data: DiskRowset)
    | DeleteRowSet(rowset: RowsetKey)
    | AddDV(dv: DvKey, vector: DeleteVector)
    | DeleteDV(dv: DvKey)

  datatype Inner = Inner(
    status: map<Epoch, Snapshot>,
    rowsets: map<RowsetKey, DiskRowset>,
    dvs: map<(TableId, DvId), DeleteVector>,
    refCnt: map<Epoch, nat>,
    deletions: map<Epoch, seq<RowsetKey>>,
    epoch: Epoch)

  const NEW_INNER := Inner(map[], map[], map[], map[], map[], 0)

  function PoolKey(k: DvKey): (TableId, DvId) {
    (k.0, k.2)
  }

  function Current(inner: Inner): Snapshot {
    if inner.epoch in inner.status then inner.status[inner.epoch] else EMPTY
  }

  // ---- the first critical section of a commit: apply the operations to a copy of the snapshot ----

  datatype Staged = Staged(
    snapshot: Snapshot,
    rowsets: map<RowsetKey, DiskRowset>,
    dvs: map<(TableId, DvId), DeleteVector>,
    deletions: seq<RowsetKey>)

  /** `ok` is false when the operation panicked; what reached the pools before that stays there. */
  datatype StageResult = StageResult(ok: bool, staged: Staged)

  function StageOne(st: Staged, op: EpochOp): StageResult {
    match op
    case CreateTable(_) => StageResult(true, st)
    case DropTable(_) => StageResult(true, st)
    case AddRowSet(k, data) =>
      StageResult(true, st.(rowsets := st.rowsets[k := data], snapshot := st.snapshot.AddRowset(k)))
    case DeleteRowSet(k) =>
      (match st.snapshot.DeleteRowset(k)
       case Some(s) => StageResult(true, st.(deletions := st.deletions + [k], snapshot := s))
       case None => StageResult(false, st))
    case AddDV(k, vector) =>
      StageResult(true, st.(dvs := st.dvs[PoolKey(k) := vector], snapshot := st.snapshot.AddDv(k)))
    case DeleteDV(k) =>
      (match st.snapshot.DeleteDv(k)
       case Some(s) => StageResult(true, st.(snapshot := s))
       case None => StageResult(false, st))
  }

  function Stage(st: Staged, ops: seq<EpochOp>): StageResult
    decreases |ops|
  {
    if ops == [] then StageResult(true, st)
    else
      var r := StageOne(st, ops[0]);
      if r.ok then Stage(r.staged, ops[1..]) else r
  }

  function StageFrom(inner: Inner, ops: seq<EpochOp>): StageResult {
    Stage(Staged(Current(inner), inner.rowsets, inner.dvs, []), ops)
  }

  // ---- the other critical sections ----

  function Publish(inner: Inner, snapshot: Snapshot, deletions: seq<RowsetKey>): Inner {
    var epoch := inner.epoch + 1;
    inner.(epoch := epoch, status := inner.status[epoch := snapshot],
           deletions := inner.deletions[epoch := deletions])
  }

  function PinEpoch(inner: Inner): Inner {
    var n := if inner.epoch in inner.refCnt then inner.refCnt[inner.epoch] else 0;
    inner.(refCnt := inner.refCnt[inner.epoch := n + 1])
  }

  function UnpinEpoch(inner: Inner, e: Epoch): Inner
    requires e in inner.refCnt && inner.refCnt[e] > 0
  {
    inner.(refCnt := if inner.refCnt[e] == 1 then inner.refCnt - {e} else inner.refCnt[e := inner.refCnt[e] - 1])
  }

  /** Dropping the last pin of an epoch that is no longer current wakes the vacuum. */
  predicate UnpinNotifies(inner: Inner, e: Epoch)
    requires e in inner.refCnt
  {
    inner.refCnt[e] == 1 && e != inner.epoch
  }

  /** The epoch up to which deletions may be applied: the oldest pinned one, or the current one. */
  ghost predicate IsVacuumEpoch(inner: Inner, v: Epoch) {
    if inner.refCnt == map[] then v == inner.epoch
    else v in inner.refCnt && forall p :: p in inner.refCnt ==> v <= p
  }

  /** The keys a vacuum up to epoch `v` removes. */
  ghost predicate Removes(inner: Inner, v: Epoch, k: RowsetKey) {
    exists e :: e in inner.deletions && e <= v && k in inner.deletions[e]
  }

  ghost function Vacuum(inner: Inner, v: Epoch): Inner {
    inner.(deletions := map e | e in inner.deletions && v < e :: inner.deletions[e],
           rowsets := map k | k in inner.rowsets && !Removes(inner, v, k) :: inner.rowsets[k])
  }
}

/** The version manager object.  Every method is one critical section of the inner lock. */
module VersionManagers {
  import opened Common
  import opened Snapshots
  import opened Versions

  class VersionManager {
    var status: map<Epoch, Snapshot>
    var rowsets: map<RowsetKey, DiskRowset>
    var dvs: map<(TableId, DvId), DeleteVector>
    var refCnt: map<Epoch, nat>
    var deletions: map<Epoch, seq<RowsetKey>>
    var epoch: Epoch
    /** Notifications sent to the vacuum and not yet received. */
    var queue: nat

    function View(): Inner
      reads this
    {
      Inner(status, rowsets, dvs, refCnt, deletions, epoch)
    }

    constructor ()
      ensures View() == NEW_INNER && queue == 0
    {
      status, rowsets, dvs, refCnt, deletions, epoch, queue := map[], map[], map[], map[], map[], 0, 0;
    }

    /** The first half of a commit; `None` is a panic. */
    method CommitBegin(ops: seq<EpochOp>) returns (staged: Option<(Epoch, Snapshot, seq<RowsetKey>)>)
      modifies this`rowsets, this`dvs
      ensures var r := StageFrom(old(View()), ops);
              && View() == old(View()).(rowsets := r.staged.rowsets, dvs := r.staged.dvs)
              && (r.ok <==> staged.Some?)
              && (r.ok ==> staged.value == (epoch, r.staged.snapshot, r.staged.deletions))
    {
      var snapshot := if epoch in status then status[epoch] else EMPTY;
      var toApply: seq<RowsetKey> := [];
      ghost var final := StageFrom(View(), ops);
      for i := 0 to |ops|
        invariant status == old(status) && refCnt == old(refCnt) && deletions == old(deletions) && epoch == old(epoch)
        invariant Stage(Staged(snapshot, rowsets, dvs, toApply), ops[i..]) == final
      {
        assert ops[i..][1..] == ops[i + 1..];
        match ops[i] {
          case CreateTable(_) =>
          case DropTable(_) =>
          case AddRowSet(k, data) =>
            rowsets := rowsets[k := data];
            snapshot := snapshot.AddRowset(k);
          case DeleteRowSet(k) =>
            var s := snapshot.DeleteRowset(k);
            if s.None? {
              return None;
            }
            toApply := toApply + [k];
            snapshot := s.value;
          case AddDV(k, vector) =>
            dvs := dvs[PoolKey(k) := vector];
            snapshot := snapshot.AddDv(k);
          case DeleteDV(k) =>
            var s := snapshot.DeleteDv(k);
            if s.None? {
              return None;
            }
            snapshot := s.value;
        }
      }
      staged := Some((epoch, snapshot, toApply));
    }

    /** The second half, after the manifest append.  The requirement is the engine's own assertion. */
    method CommitPublish(base: Epoch, snapshot: Snapshot, toApply: seq<RowsetKey>) returns (published: Epoch)
      requires base == epoch
      modifies this`epoch, this`status, this`deletions
      ensures View() == Publish(old(View()), snapshot, toApply) && published == epoch
    {
      epoch := epoch + 1;
      status := status[epoch := snapshot];
      deletions := deletions[epoch := toApply];
      published := epoch;
    }

    method Pin() returns (e: Epoch, snapshot: Snapshot)
      requires epoch in status
      modifies this`refCnt
      ensures View() == PinEpoch(old(View())) && e == epoch && snapshot == status[e]
    {
      var n := if epoch in refCnt then refCnt[epoch] else 0;
      refCnt := refCnt[epoch := n + 1];
      return epoch, status[epoch];
    }

    method Unpin(e: Epoch)
      requires e in refCnt && refCnt[e] > 0
      modifies this`refCnt, this`queue
      ensures View() == UnpinEpoch(old(View()), e)
      ensures queue == old(queue) + if UnpinNotifies(old(View()), e) then 1 else 0
    {
      refCnt := refCnt[e := refCnt[e] - 1];
      if refCnt[e] == 0 {
        refCnt := refCnt - {e};
        if e != epoch {
          queue := queue + 1;
        }
      }
    }

    /** Applies every deletion no pin can see.  The hash map is visited in an arbitrary order. */
    method FindVacuum() returns (removed: seq<RowsetKey>, ghost v: Epoch)
      modifies this`deletions, this`rowsets
      ensures IsVacuumEpoch(old(View()), v)
      ensures View() == Vacuum(old(View()), v)
      ensures forall k :: k in removed <==> Removes(old(View()), v, k)
    {
      var vacuumEpoch := MinPinned();
      v := vacuumEpoch;
      removed := Applicable(vacuumEpoch);
      ghost var before := View();
      deletions := map e | e in deletions && vacuumEpoch < e :: deletions[e];
      TakeOut(removed);
      assert rowsets.Keys == Vacuum(before, v).rowsets.Keys;
      assert rowsets == Vacuum(before, v).rowsets;
    }

    /** Takes rowsets out of the pool. */
    method TakeOut(removed: seq<RowsetKey>)
      modifies this`rowsets
      ensures forall k :: k in rowsets <==> k in old(rowsets) && k !in removed
      ensures forall k :: k in rowsets ==> rowsets[k] == old(rowsets)[k]
    {
      for i := 0 to |removed|
        invariant forall k :: k in rowsets <==> k in old(rowsets) && k !in removed[..i]
        invariant forall k :: k in rowsets ==> rowsets[k] == old(rowsets)[k]
      {
        rowsets := rowsets - {removed[i]};
      }
      assert removed[..|removed|] == removed;
    }

    method MinPinned() returns (v: Epoch)
      ensures IsVacuumEpoch(View(), v)
    {
      var todo := refCnt.Keys;
      if todo == {} {
        return epoch;
      }
      v :| v in todo;
      while todo != {}
        invariant todo <= refCnt.Keys && v in refCnt
        invariant forall p :: p in refCnt && p !in todo ==> v <= p
        decreases todo
      {
        var p :| p in todo;
        todo := todo - {p};
        if p < v {
          v := p;
        }
      }
    }

    method Applicable(v: Epoch) returns (removed: seq<RowsetKey>)
      ensures forall k :: k in removed <==> Removes(View(), v, k)
    {
      removed := [];
      var todo := deletions.Keys;
      while todo != {}
        invariant todo <= deletions.Keys
        invariant forall k :: k in removed <==> exists e :: e in deletions && e !in todo && e <= v && k in deletions[e]
        decreases todo
      {
        var e :| e in todo;
        if e <= v {
          removed := removed + deletions[e];
        }
        todo := todo - {e};
      }
    }
  }
}
