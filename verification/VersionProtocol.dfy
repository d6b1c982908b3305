/** Every interleaving of two-phase commits, pins, unpins and vacuums. */
module VersionProtocol {
  import opened Common
  import opened Snapshots
  import opened Versions

  /** A live pin and the rowset objects its holder has fetched and not yet released. */
  datatype Version = Version(epoch: Epoch, handles: set<RowsetKey>)

  /** A commit between its two critical sections; `adds` are the keys it put into the pool. */
  datatype Commit = Commit(base: Epoch, snapshot: Snapshot, deletions: seq<RowsetKey>, adds: set<RowsetKey>)

  /** `added`, `addedDvs` and `orphans` are history: every object ever put into a pool, and the
      keys put there by commits that panicked or whose manifest append failed. */
  datatype State = State(
    inner: Inner,
    inflight: Option<Commit>,
    versions: map<nat, Version>,
    queue: nat,
    vacuuming: bool,
    added: map<RowsetKey, DiskRowset>,
    addedDvs: map<(TableId, DvId), DeleteVector>,
    orphans: set<RowsetKey>)

  const INIT := State(NEW_INNER, None, map[], 0, false, map[], map[], {})

  datatype Action =
    | Begin(ops: seq<EpochOp>)
    | End
    | AppendFails
    | Pin(id: nat)
    | Fetch(id: nat, key: RowsetKey)
    | Release(id: nat, key: RowsetKey)
    | Unpin(id: nat)
    | Receive
    | RunVacuum(v: Epoch)

  /** New ids are fresh, and only rowsets that were added are deleted. */
  predicate FreshOps(known: set<RowsetKey>, knownDvs: set<(TableId, DvId)>, ops: seq<EpochOp>)
    decreases |ops|
  {
    ops == [] ||
    match ops[0]
    case AddRowSet(k, _) => k !in known && FreshOps(known + {k}, knownDvs, ops[1..])
    case DeleteRowSet(k) => k in known && FreshOps(known, knownDvs, ops[1..])
    case AddDV(k, _) => PoolKey(k) !in knownDvs && FreshOps(known, knownDvs + {PoolKey(k)}, ops[1..])
    case _ => FreshOps(known, knownDvs, ops[1..])
  }

  ghost predicate Enabled(s: State, a: Action) {
    match a
    case Begin(ops) => s.inflight.None? && FreshOps(s.added.Keys, s.addedDvs.Keys, ops)
    case End => s.inflight.Some?
    case AppendFails => s.inflight.Some?
    case Pin(id) => id !in s.versions && s.inner.epoch in s.inner.status
    case Fetch(id, k) => id in s.versions && PinnedHas(s, id, k)
    case Release(id, k) => id in s.versions
    case Unpin(id) => id in s.versions && s.versions[id].handles == {}
    case Receive => s.queue > 0 && !s.vacuuming
    case RunVacuum(v) => s.vacuuming && IsVacuumEpoch(s.inner, v)
  }

  ghost predicate PinnedHas(s: State, id: nat, k: RowsetKey)
    requires id in s.versions
  {
    s.versions[id].epoch in s.inner.status && s.inner.status[s.versions[id].epoch].Has(k)
  }

  predicate Registered(inner: Inner, e: Epoch) {
    e in inner.refCnt && inner.refCnt[e] > 0
  }

  ghost function Step(s: State, a: Action): State
    requires Enabled(s, a)
  {
    match a
    case Begin(ops) =>
      var r := StageFrom(s.inner, ops);
      var adds := r.staged.rowsets.Keys - s.inner.rowsets.Keys;
      s.(inner := s.inner.(rowsets := r.staged.rowsets, dvs := r.staged.dvs),
         added := s.added + r.staged.rowsets,
         addedDvs := s.addedDvs + r.staged.dvs,
         inflight := if r.ok then Some(Commit(s.inner.epoch, r.staged.snapshot, r.staged.deletions, adds)) else None,
         orphans := if r.ok then s.orphans else s.orphans + adds)
    case End =>
      var c := s.inflight.value;
      s.(inner := Publish(s.inner, c.snapshot, c.deletions), inflight := None)
    case AppendFails => s.(inflight := None, orphans := s.orphans + s.inflight.value.adds)
    case Pin(id) =>
      s.(inner := PinEpoch(s.inner), versions := s.versions[id := Version(s.inner.epoch, {})])
    case Fetch(id, k) => s.(versions := s.versions[id := s.versions[id].(handles := s.versions[id].handles + {k})])
    case Release(id, k) => s.(versions := s.versions[id := s.versions[id].(handles := s.versions[id].handles - {k})])
    case Unpin(id) =>
      var e := s.versions[id].epoch;
      if !Registered(s.inner, e) then s
      else s.(inner := UnpinEpoch(s.inner, e), versions := s.versions - {id},
              queue := if UnpinNotifies(s.inner, e) then s.queue + 1 else s.queue)
    case Receive => s.(queue := s.queue - 1, vacuuming := true)
    case RunVacuum(v) => s.(inner := Vacuum(s.inner, v), vacuuming := false)
  }

  // ---- invariant ----

  ghost function PinsOf(versions: map<nat, Version>, e: Epoch): set<nat> {
    set id | id in versions && versions[id].epoch == e
  }

  ghost predicate CountsOk(s: State) {
    && (forall id :: id in s.versions ==> s.versions[id].epoch in s.inner.refCnt)
    && (forall e :: e in s.inner.refCnt ==> s.inner.refCnt[e] == |PinsOf(s.versions, e)| > 0)
  }

  ghost predicate EpochsOk(s: State) {
    && (forall e :: e in s.inner.status ==> 1 <= e <= s.inner.epoch)
    && (s.inner.epoch > 0 ==> s.inner.epoch in s.inner.status)
    && (forall e :: e in s.inner.deletions ==> 1 <= e <= s.inner.epoch)
    && (forall id :: id in s.versions ==> s.versions[id].epoch in s.inner.status)
  }

  ghost predicate PoolOk(s: State) {
    && s.inner.dvs == s.addedDvs
    && (forall k :: k in s.inner.rowsets ==> k in s.added && s.inner.rowsets[k] == s.added[k])
    && (forall e, k :: e in s.inner.status && s.inner.status[e].Has(k) ==> k in s.added)
    && (forall e, k :: e in s.inner.status && s.inner.status[e].HasDv(k) ==> PoolKey(k) in s.inner.dvs)
  }

  ghost predicate Pending(inner: Inner, e: Epoch, k: RowsetKey) {
    e in inner.deletions && k in inner.deletions[e]
  }

  /** A deleted key is in no snapshot from its deletion on. */
  ghost predicate DeletedForGood(s: State) {
    && (forall e, k :: Pending(s.inner, e, k) ==> k in s.added)
    && (forall e, k, p :: Pending(s.inner, e, k) && p in s.inner.status && e <= p ==> !s.inner.status[p].Has(k))
    && (s.inflight.Some? ==> forall e, k :: Pending(s.inner, e, k) ==> !s.inflight.value.snapshot.Has(k))
  }

  ghost predicate Resolves(s: State) {
    && (forall id, k :: id in s.versions && PinnedHas(s, id, k) ==> k in s.inner.rowsets)
    && (forall k :: Current(s.inner).Has(k) ==> k in s.inner.rowsets)
    && (s.inflight.Some? ==> forall k :: s.inflight.value.snapshot.Has(k) ==> k in s.inner.rowsets)
    && (forall id, k :: id in s.versions && k in s.versions[id].handles ==> PinnedHas(s, id, k))
  }

  ghost predicate InflightOk(s: State) {
    s.inflight.Some? ==>
      var c := s.inflight.value;
      && c.base == s.inner.epoch
      && (forall k :: k in c.deletions ==> k in s.added && !c.snapshot.Has(k))
      && (forall k :: Current(s.inner).Has(k) ==> c.snapshot.Has(k) || k in c.deletions)
      && (forall k :: k in c.adds ==> c.snapshot.Has(k) || k in c.deletions)
      && (forall k :: k in c.adds ==> k in s.added && !Current(s.inner).Has(k))
      && (forall k :: c.snapshot.Has(k) ==> k in s.added && (Current(s.inner).Has(k) || k in c.adds))
      && (forall k :: c.snapshot.HasDv(k) ==> PoolKey(k) in s.inner.dvs)
      && c.adds !! s.orphans
  }

  /** Nothing is in the pool without a reason. */
  ghost predicate Accounted(s: State) {
    && (forall k :: k in s.inner.rowsets ==>
          || Current(s.inner).Has(k)
          || (exists e :: Pending(s.inner, e, k))
          || (s.inflight.Some? && k in s.inflight.value.adds)
          || k in s.orphans)
    && (forall k :: k in s.orphans ==> k in s.added && !Current(s.inner).Has(k))
  }

  ghost predicate Inv(s: State) {
    CountsOk(s) && EpochsOk(s) && PoolOk(s) && DeletedForGood(s) && Resolves(s) && InflightOk(s) && Accounted(s)
  }

  // ---- staging ----

  /** What staging keeps, relative to the inner state it started from. */
  ghost predicate StageInv(inner: Inner, added: set<RowsetKey>, st: Staged) {
    && (forall k :: k in inner.rowsets ==> k in st.rowsets && st.rowsets[k] == inner.rowsets[k])
    && (forall k :: k in inner.dvs ==> k in st.dvs && st.dvs[k] == inner.dvs[k])
    && (forall k :: k in st.rowsets ==> k in inner.rowsets || k !in added)
    && (forall k :: st.snapshot.Has(k) ==> k in st.rowsets && (Current(inner).Has(k) || k !in added))
    && (forall k :: st.snapshot.HasDv(k) ==> PoolKey(k) in st.dvs)
    && (forall k :: Current(inner).Has(k) ==> st.snapshot.Has(k) || k in st.deletions)
    && (forall k :: k in st.rowsets && k !in inner.rowsets ==> st.snapshot.Has(k) || k in st.deletions)
    && (forall k :: k in st.deletions ==> !st.snapshot.Has(k) && (k in added || k in st.rowsets))
  }

  lemma {:induction false} StageKeepsInv(inner: Inner, added: set<RowsetKey>, st: Staged, ops: seq<EpochOp>)
    requires StageInv(inner, added, st)
    requires inner.rowsets.Keys <= added
    requires FreshOps(added + st.rowsets.Keys, st.dvs.Keys, ops)
    ensures StageInv(inner, added, Stage(st, ops).staged)
    decreases |ops|
  {
    if ops != [] {
      var r := StageOne(st, ops[0]);
      StageOneKeepsInv(inner, added, st, ops[0]);
      if r.ok {
        if ops[0].AddRowSet? {
          assert added + r.staged.rowsets.Keys == added + st.rowsets.Keys + {ops[0].rowset};
        }
        if ops[0].AddDV? {
          assert r.staged.dvs.Keys == st.dvs.Keys + {PoolKey(ops[0].dv)};
        }
        StageKeepsInv(inner, added, r.staged, ops[1..]);
      }
    }
  }

  lemma {:induction false} StageOneKeepsInv(inner: Inner, added: set<RowsetKey>, st: Staged, op: EpochOp)
    requires StageInv(inner, added, st)
    requires inner.rowsets.Keys <= added
    requires op.AddRowSet? ==> op.rowset !in added + st.rowsets.Keys
    requires op.DeleteRowSet? ==> op.rowset in added + st.rowsets.Keys
    requires op.AddDV? ==> PoolKey(op.dv) !in st.dvs
    ensures StageInv(inner, added, StageOne(st, op).staged)
  {
    match op {
      case AddRowSet(k, _) => AddRowsetMembers(st.snapshot, k);
      case DeleteRowSet(k) =>
        if st.snapshot.DeleteRowset(k).Some? { DeleteRowsetMembers(st.snapshot, k); }
      case AddDV(k, _) => AddDvMembers(st.snapshot, k);
      case DeleteDV(k) =>
        if st.snapshot.DeleteDv(k).Some? { DeleteDvMembers(st.snapshot, k); }
      case _ =>
    }
  }

  // ---- every step keeps the invariant ----

  lemma {:induction false} BeginStages(s: State, ops: seq<EpochOp>)
    requires PoolOk(s) && Resolves(s) && Enabled(s, Begin(ops))
    ensures StageInv(s.inner, s.added.Keys, StageFrom(s.inner, ops).staged)
  {
    assert s.added.Keys + s.inner.rowsets.Keys == s.added.Keys;
    StageKeepsInv(s.inner, s.added.Keys, Staged(Current(s.inner), s.inner.rowsets, s.inner.dvs, []), ops);
  }

  lemma {:induction false} BeginPool(s: State, ops: seq<EpochOp>, st: Staged)
    requires PoolOk(s) && EpochsOk(s) && CountsOk(s) && Enabled(s, Begin(ops))
    requires st == StageFrom(s.inner, ops).staged && StageInv(s.inner, s.added.Keys, st)
    ensures var s' := Step(s, Begin(ops)); PoolOk(s') && EpochsOk(s') && CountsOk(s')
  {
    hide Stage;
    var s' := Step(s, Begin(ops));
    assert s'.addedDvs == st.dvs;
  }

  lemma {:induction false} BeginResolves(s: State, ops: seq<EpochOp>, st: Staged)
    requires Resolves(s) && Enabled(s, Begin(ops))
    requires st == StageFrom(s.inner, ops).staged && StageInv(s.inner, s.added.Keys, st)
    ensures Resolves(Step(s, Begin(ops)))
  {
    hide Stage;
    var s' := Step(s, Begin(ops));
    assert forall j, k :: j in s'.versions ==> (PinnedHas(s', j, k) <==> PinnedHas(s, j, k));
  }

  lemma {:induction false} BeginAccounted(s: State, ops: seq<EpochOp>, st: Staged)
    requires PoolOk(s) && Accounted(s) && Enabled(s, Begin(ops))
    requires st == StageFrom(s.inner, ops).staged && StageInv(s.inner, s.added.Keys, st)
    ensures Accounted(Step(s, Begin(ops)))
  {
    hide Stage;
    var s' := Step(s, Begin(ops));
    assert forall e, k :: Pending(s'.inner, e, k) <==> Pending(s.inner, e, k);
  }

  lemma {:induction false} BeginKeepsInv(s: State, ops: seq<EpochOp>)
    requires Inv(s) && Enabled(s, Begin(ops))
    ensures Inv(Step(s, Begin(ops)))
  {
    hide CountsOk, EpochsOk, PoolOk, DeletedForGood, Resolves, InflightOk, Accounted, Step, StageInv, Enabled,
         StageFrom;
    var st := StageFrom(s.inner, ops).staged;
    BeginStages(s, ops);
    BeginPool(s, ops, st);
    BeginResolves(s, ops, st);
    BeginInflight(s, ops, st);
    BeginAccounted(s, ops, st);
  }

  lemma {:induction false} BeginInflight(s: State, ops: seq<EpochOp>, st: Staged)
    requires Inv(s) && Enabled(s, Begin(ops))
    requires st == StageFrom(s.inner, ops).staged && StageInv(s.inner, s.added.Keys, st)
    ensures InflightOk(Step(s, Begin(ops))) && DeletedForGood(Step(s, Begin(ops)))
  {
    var s' := Step(s, Begin(ops));
    assert Current(s'.inner) == Current(s.inner);
    assert s'.addedDvs == s'.inner.dvs;
    assert forall e, k :: Pending(s'.inner, e, k) <==> Pending(s.inner, e, k);
    forall e, k | Pending(s.inner, e, k) ensures !Current(s.inner).Has(k) {}
  }

  lemma {:induction false} EndPending(s: State, e: Epoch, k: RowsetKey)
    requires EpochsOk(s) && Enabled(s, End)
    ensures var s' := Step(s, End);
            Pending(s'.inner, e, k) <==>
            (e == s'.inner.epoch && k in s.inflight.value.deletions) || Pending(s.inner, e, k)
  {}

  lemma {:induction false} EndAccounted(s: State)
    requires EpochsOk(s) && InflightOk(s) && Accounted(s) && Enabled(s, End)
    ensures Accounted(Step(s, End))
  {
    hide Pending;
    var s' := Step(s, End);
    var c := s.inflight.value;
    forall k | k in s'.inner.rowsets
      ensures Current(s'.inner).Has(k) || (exists e :: Pending(s'.inner, e, k)) || k in s'.orphans
    {
      EndPending(s, s'.inner.epoch, k);
      if k !in c.deletions {
        if e :| Pending(s.inner, e, k) {
          EndPending(s, e, k);
        }
      }
    }
  }

  lemma {:induction false} EndDeleted(s: State)
    requires EpochsOk(s) && InflightOk(s) && DeletedForGood(s) && Enabled(s, End)
    ensures DeletedForGood(Step(s, End))
  {
    hide Pending;
    var s' := Step(s, End);
    forall e, k | Pending(s'.inner, e, k)
      ensures k in s'.added && forall p :: p in s'.inner.status && e <= p ==> !s'.inner.status[p].Has(k)
    {
      EndPending(s, e, k);
    }
  }

  lemma {:induction false} EndResolves(s: State)
    requires EpochsOk(s) && InflightOk(s) && Resolves(s) && Enabled(s, End)
    ensures Resolves(Step(s, End))
  {
    var s' := Step(s, End);
    assert forall id, k :: id in s'.versions ==> (PinnedHas(s', id, k) <==> PinnedHas(s, id, k));
  }

  lemma {:induction false} EndKeepsInv(s: State)
    requires Inv(s) && Enabled(s, End)
    ensures Inv(Step(s, End))
  {
    hide Accounted, DeletedForGood, Resolves;
    EndAccounted(s);
    EndDeleted(s);
    EndResolves(s);
  }

  /** The parts of the invariant that do not look at the pins. */
  lemma {:induction false} PinsAreSeparate(s: State, s': State)
    requires Inv(s)
    requires s'.inner.(refCnt := s.inner.refCnt) == s.inner && s'.inflight == s.inflight
    requires s'.added == s.added && s'.addedDvs == s.addedDvs && s'.orphans == s.orphans
    ensures PoolOk(s') && DeletedForGood(s') && InflightOk(s') && Accounted(s')
  {
    assert s'.inner == s.inner.(refCnt := s'.inner.refCnt);
    assert forall e, k :: Pending(s'.inner, e, k) <==> Pending(s.inner, e, k);
    assert Current(s'.inner) == Current(s.inner);
  }

  lemma {:induction false} PinsOfInsert(versions: map<nat, Version>, id: nat, v: Version, e: Epoch)
    requires id !in versions
    ensures |PinsOf(versions[id := v], e)| == |PinsOf(versions, e)| + if v.epoch == e then 1 else 0
  {
    assert PinsOf(versions[id := v], e) == PinsOf(versions, e) + if v.epoch == e then {id} else {};
  }

  lemma {:induction false} PinCounts(s: State, id: nat)
    requires CountsOk(s) && Enabled(s, Pin(id))
    ensures CountsOk(Step(s, Pin(id)))
  {
    var s' := Step(s, Pin(id));
    var e0 := s.inner.epoch;
    if e0 !in s.inner.refCnt {
      assert PinsOf(s.versions, e0) == {};
    }
    forall e | e in s'.inner.refCnt ensures s'.inner.refCnt[e] == |PinsOf(s'.versions, e)| > 0 {
      PinsOfInsert(s.versions, id, Version(e0, {}), e);
    }
  }

  lemma {:induction false} PinKeepsInv(s: State, id: nat)
    requires Inv(s) && Enabled(s, Pin(id))
    ensures Inv(Step(s, Pin(id)))
  {
    var s' := Step(s, Pin(id));
    PinCounts(s, id);
    PinsAreSeparate(s, s');
    assert forall j, k :: j in s.versions ==> (PinnedHas(s', j, k) <==> PinnedHas(s, j, k));
    assert forall k :: PinnedHas(s', id, k) <==> Current(s.inner).Has(k);
  }

  lemma {:induction false} UnpinCounts(s: State, id: nat)
    requires CountsOk(s) && Enabled(s, Unpin(id))
    ensures Registered(s.inner, s.versions[id].epoch) && CountsOk(Step(s, Unpin(id)))
  {
    var s' := Step(s, Unpin(id));
    var v := s.versions[id];
    assert Registered(s.inner, v.epoch);
    assert s.versions == s'.versions[id := v];
    forall e ensures |PinsOf(s.versions, e)| == |PinsOf(s'.versions, e)| + if v.epoch == e then 1 else 0 {
      PinsOfInsert(s'.versions, id, v, e);
    }
    forall j | j in s'.versions ensures s'.versions[j].epoch in s'.inner.refCnt {
      assert j in PinsOf(s'.versions, s'.versions[j].epoch);
      assert s'.versions[j] == s.versions[j];
    }
  }

  lemma {:induction false} UnpinKeepsInv(s: State, id: nat)
    requires Inv(s) && Enabled(s, Unpin(id))
    ensures Registered(s.inner, s.versions[id].epoch) && Inv(Step(s, Unpin(id)))
  {
    var s' := Step(s, Unpin(id));
    UnpinCounts(s, id);
    PinsAreSeparate(s, s');
    assert forall j, k :: j in s'.versions ==> (PinnedHas(s', j, k) <==> PinnedHas(s, j, k));
  }

  lemma {:induction false} HandlesCounts(s: State, a: Action)
    requires CountsOk(s) && Enabled(s, a) && (a.Fetch? || a.Release? || a.Receive?)
    ensures CountsOk(Step(s, a))
  {
    var s' := Step(s, a);
    forall e ensures PinsOf(s'.versions, e) == PinsOf(s.versions, e) {}
  }

  lemma {:induction false} HandlesResolve(s: State, a: Action)
    requires EpochsOk(s) && Resolves(s) && Enabled(s, a) && (a.Fetch? || a.Release? || a.Receive?)
    ensures EpochsOk(Step(s, a)) && Resolves(Step(s, a))
  {
    var s' := Step(s, a);
    forall j, k | j in s'.versions ensures PinnedHas(s', j, k) <==> PinnedHas(s, j, k) {}
  }

  lemma {:induction false} HandlesKeepInv(s: State, a: Action)
    requires Inv(s) && Enabled(s, a) && (a.Fetch? || a.Release? || a.Receive?)
    ensures Inv(Step(s, a))
  {
    hide CountsOk, EpochsOk, PoolOk, DeletedForGood, Resolves, InflightOk, Accounted, PinnedHas;
    PinsAreSeparate(s, Step(s, a));
    HandlesCounts(s, a);
    HandlesResolve(s, a);
  }

  /** The vacuum removes nothing that a pin, the current snapshot or an in-flight commit can see. */
  lemma {:induction false} RemovedIsUnseen(s: State, v: Epoch, k: RowsetKey)
    requires Inv(s) && IsVacuumEpoch(s.inner, v) && Removes(s.inner, v, k)
    ensures forall id :: id in s.versions ==> !PinnedHas(s, id, k) && k !in s.versions[id].handles
    ensures !Current(s.inner).Has(k)
    ensures s.inflight.Some? ==> !s.inflight.value.snapshot.Has(k)
  {
    var e :| e in s.inner.deletions && e <= v && k in s.inner.deletions[e];
    assert Pending(s.inner, e, k);
    if s.inner.refCnt != map[] {
      assert v in s.inner.refCnt;
      var id :| id in PinsOf(s.versions, v);
    }
    assert e <= s.inner.epoch;
  }

  lemma {:induction false} VacuumAccounted(s: State, v: Epoch)
    requires Accounted(s) && Enabled(s, RunVacuum(v))
    ensures Accounted(Step(s, RunVacuum(v)))
  {
    var s' := Step(s, RunVacuum(v));
    forall k | k in s'.inner.rowsets
      ensures || Current(s'.inner).Has(k) || (exists e :: Pending(s'.inner, e, k))
              || (s'.inflight.Some? && k in s'.inflight.value.adds) || k in s'.orphans
    {
      if e :| Pending(s.inner, e, k) {
        assert v < e;
        assert Pending(s'.inner, e, k);
      }
    }
  }

  lemma {:induction false} VacuumResolves(s: State, v: Epoch)
    requires Inv(s) && Enabled(s, RunVacuum(v))
    ensures Resolves(Step(s, RunVacuum(v)))
  {
    hide Accounted, DeletedForGood, CountsOk, PoolOk, InflightOk;
    var s' := Step(s, RunVacuum(v));
    forall k | Removes(s.inner, v, k)
      ensures forall id :: id in s.versions ==> !PinnedHas(s, id, k)
      ensures !Current(s.inner).Has(k)
      ensures s.inflight.Some? ==> !s.inflight.value.snapshot.Has(k)
    {
      RemovedIsUnseen(s, v, k);
    }
    assert forall j, k :: j in s'.versions ==> (PinnedHas(s', j, k) <==> PinnedHas(s, j, k));
  }

  lemma {:induction false} VacuumKeepsInv(s: State, v: Epoch)
    requires Inv(s) && Enabled(s, RunVacuum(v))
    ensures Inv(Step(s, RunVacuum(v)))
  {
    hide Accounted, Resolves, PinnedHas;
    var s' := Step(s, RunVacuum(v));
    VacuumAccounted(s, v);
    VacuumResolves(s, v);
    forall e, k | Pending(s'.inner, e, k) ensures Pending(s.inner, e, k) {}
  }

  lemma {:induction false} FailKeepsInv(s: State)
    requires Inv(s) && Enabled(s, AppendFails)
    ensures Inv(Step(s, AppendFails))
  {
    var s' := Step(s, AppendFails);
    assert forall j, k :: j in s'.versions ==> (PinnedHas(s', j, k) <==> PinnedHas(s, j, k));
  }

  lemma {:induction false} StepKeepsInv(s: State, a: Action)
    requires Inv(s) && Enabled(s, a)
    ensures Inv(Step(s, a))
  {
    hide Inv, Step, Enabled;
    match a {
      case Begin(ops) => BeginKeepsInv(s, ops);
      case End => EndKeepsInv(s);
      case AppendFails => FailKeepsInv(s);
      case Pin(id) => PinKeepsInv(s, id);
      case Unpin(id) => UnpinKeepsInv(s, id);
      case RunVacuum(v) => VacuumKeepsInv(s, v);
      case _ => HandlesKeepInv(s, a);
    }
  }
}
