/** What holds in every run of the version protocol. */
module VersionTheorems {
  import opened Common
  import opened Snapshots
  import opened Versions
  import opened VersionProtocol

  ghost predicate IsRun(states: seq<State>, actions: seq<Action>) {
    && |states| == |actions| + 1
    && states[0] == INIT
    && forall i :: 0 <= i < |actions| ==>
         Enabled(states[i], actions[i]) && states[i + 1] == Step(states[i], actions[i])
  }

  lemma {:induction false} RunInv(states: seq<State>, actions: seq<Action>, i: nat)
    requires IsRun(states, actions) && i < |states|
    ensures Inv(states[i])
  {
    if i > 0 {
      RunInv(states, actions, i - 1);
      assert Enabled(states[i - 1], actions[i - 1]);
      StepKeepsInv(states[i - 1], actions[i - 1]);
    }
  }

  /** Whatever the interleaving, every rowset of a pinned snapshot, of the current snapshot and of an
      in-flight commit's snapshot resolves to the object that was added under its key, and so does
      every delete vector. */
  lemma {:induction false} SnapshotsResolve(states: seq<State>, actions: seq<Action>, i: nat)
    requires IsRun(states, actions) && i < |states|
    ensures var s := states[i];
            && (forall id, k :: id in s.versions && PinnedHas(s, id, k) ==> Resolved(s, k))
            && (forall k :: Current(s.inner).Has(k) ==> Resolved(s, k))
            && (s.inflight.Some? ==> forall k :: s.inflight.value.snapshot.Has(k) ==> Resolved(s, k))
            && (forall e, k :: e in s.inner.status && s.inner.status[e].HasDv(k) ==>
                  PoolKey(k) in s.addedDvs && PoolKey(k) in s.inner.dvs
                  && s.inner.dvs[PoolKey(k)] == s.addedDvs[PoolKey(k)])
  {
    RunInv(states, actions, i);
  }

  ghost predicate Resolved(s: State, k: RowsetKey) {
    k in s.inner.rowsets && k in s.added && s.inner.rowsets[k] == s.added[k]
  }

  /** Published snapshots never change, and neither does the object a key was added with. */
  lemma {:induction false} PublishedNeverChange(states: seq<State>, actions: seq<Action>, i: nat, j: nat)
    requires IsRun(states, actions) && i <= j < |states|
    ensures forall e :: e in states[i].inner.status ==>
              e in states[j].inner.status && states[j].inner.status[e] == states[i].inner.status[e]
    ensures forall k :: k in states[i].added ==> k in states[j].added && states[j].added[k] == states[i].added[k]
    decreases j
  {
    if i < j {
      PublishedNeverChange(states, actions, i, j - 1);
      RunInv(states, actions, j - 1);
      assert Enabled(states[j - 1], actions[j - 1]);
      HistoryGrows(states[j - 1], actions[j - 1]);
    }
  }

  lemma {:induction false} HistoryGrows(s: State, a: Action)
    requires Inv(s) && Enabled(s, a)
    ensures forall e :: e in s.inner.status ==>
              e in Step(s, a).inner.status && Step(s, a).inner.status[e] == s.inner.status[e]
    ensures forall k :: k in s.added ==> k in Step(s, a).added && Step(s, a).added[k] == s.added[k]
  {
    if a.Begin? {
      BeginKeepsInv(s, a.ops);
      AddedGrows(s, a.ops);
    }
  }

  lemma {:induction false} AddedGrows(s: State, ops: seq<EpochOp>)
    requires PoolOk(s) && Resolves(s) && Enabled(s, Begin(ops))
    ensures forall k :: k in s.added ==> s.added[k] == (s.added + StageFrom(s.inner, ops).staged.rowsets)[k]
  {
    assert s.added.Keys + s.inner.rowsets.Keys == s.added.Keys;
    var st0 := Staged(Current(s.inner), s.inner.rowsets, s.inner.dvs, []);
    assert StageInv(s.inner, s.added.Keys, st0);
    StageKeepsInv(s.inner, s.added.Keys, st0, ops);
  }

  /** None of the engine's own assertions can fail: a published commit still sits on the epoch it was
      staged on, an unpinned epoch is registered, and the vacuum never drops a rowset somebody holds. */
  lemma {:induction false} NoPanic(states: seq<State>, actions: seq<Action>, i: nat)
    requires IsRun(states, actions) && i < |actions|
    ensures var s := states[i];
            && (actions[i].End? ==> s.inflight.value.base == s.inner.epoch)
            && (actions[i].Unpin? ==> Registered(s.inner, s.versions[actions[i].id].epoch))
            && (actions[i].RunVacuum? ==>
                  forall id, k :: id in s.versions && k in s.versions[id].handles ==>
                    !Removes(s.inner, actions[i].v, k))
  {
    var s := states[i];
    RunInv(states, actions, i);
    assert Enabled(s, actions[i]);
    if actions[i].Unpin? {
      UnpinCounts(s, actions[i].id);
    }
    if actions[i].RunVacuum? {
      forall id, k | id in s.versions && k in s.versions[id].handles
        ensures !Removes(s.inner, actions[i].v, k)
      {
        if Removes(s.inner, actions[i].v, k) {
          RemovedIsUnseen(s, actions[i].v, k);
        }
      }
    }
  }

  // ---- no deletion is stranded ----

  /** Something will still apply the deletions of epoch `e`. */
  ghost predicate WillApply(s: State, e: Epoch) {
    (exists id :: id in s.versions && s.versions[id].epoch < e) || s.queue > 0 || s.vacuuming
  }

  ghost predicate NoStranded(s: State) {
    forall e, k :: Pending(s.inner, e, k) ==> WillApply(s, e)
  }

  /** Publishing strands a deletion exactly when the commit deletes something while no pin is live and
      no vacuum is due. */
  lemma {:induction false} PublishStrandsIff(s: State)
    requires Inv(s) && NoStranded(s) && Enabled(s, End)
    ensures NoStranded(Step(s, End)) <==>
              s.inflight.value.deletions == [] || s.versions != map[] || s.queue > 0 || s.vacuuming
  {
    var s' := Step(s, End);
    var c := s.inflight.value;
    if c.deletions != [] {
      assert Pending(s'.inner, s'.inner.epoch, c.deletions[0]);
    }
    if s.versions != map[] {
      var id :| id in s.versions;
      assert s.versions[id].epoch in s.inner.status;
      assert s'.versions[id].epoch < s'.inner.epoch;
    }
    forall e, k | Pending(s'.inner, e, k) && e != s'.inner.epoch ensures WillApply(s', e) {
      assert Pending(s.inner, e, k) && WillApply(s, e);
    }
  }

  /** The action publishes a commit that deletes rowsets. */
  ghost predicate DeletesAt(s: State, a: Action) {
    a.End? && s.inflight.Some? && s.inflight.value.deletions != []
  }

  lemma {:induction false} VacuumStrandsNothing(s: State, v: Epoch)
    requires Inv(s) && Enabled(s, RunVacuum(v)) && NoStranded(s)
    ensures NoStranded(Step(s, RunVacuum(v)))
  {
    var s' := Step(s, RunVacuum(v));
    forall e: Epoch, k | Pending(s'.inner, e, k) ensures WillApply(s', e) {
      assert v < e;
      if s.inner.refCnt != map[] {
        var id :| id in PinsOf(s.versions, v);
        assert s'.versions[id].epoch < e;
      }
    }
  }

  lemma {:induction false} OtherStrandsNothing(s: State, a: Action)
    requires Enabled(s, a) && NoStranded(s) && !a.End? && !a.Unpin? && !a.RunVacuum?
    ensures NoStranded(Step(s, a))
  {
    hide StageFrom;
    var s' := Step(s, a);
    forall e: Epoch, k | Pending(s'.inner, e, k) ensures WillApply(s', e) {
      assert Pending(s.inner, e, k) && WillApply(s, e);
      if id :| id in s.versions && s.versions[id].epoch < e {
        assert id in s'.versions && s'.versions[id].epoch < e;
      }
    }
  }

  lemma {:induction false} StepStrandsNothing(s: State, a: Action)
    requires Inv(s) && Enabled(s, a) && NoStranded(s)
    requires DeletesAt(s, a) ==> s.versions != map[]
    ensures NoStranded(Step(s, a))
  {
    match a {
      case End => PublishStrandsIff(s);
      case Unpin(id) => UnpinStrandsNothing(s, id);
      case RunVacuum(v) => VacuumStrandsNothing(s, v);
      case _ => OtherStrandsNothing(s, a);
    }
  }

  lemma {:induction false} UnpinStrandsNothing(s: State, id: nat)
    requires Inv(s) && Enabled(s, Unpin(id)) && NoStranded(s)
    ensures NoStranded(Step(s, Unpin(id)))
  {
    var s' := Step(s, Unpin(id));
    var e0 := s.versions[id].epoch;
    UnpinCounts(s, id);
    forall e: Epoch, k | Pending(s'.inner, e, k) ensures WillApply(s', e) {
      assert Pending(s.inner, e, k) && WillApply(s, e);
      if j :| j in s.versions && s.versions[j].epoch < e {
        if j != id {
          assert j in s'.versions && s'.versions[j].epoch < e;
        } else if s.inner.refCnt[e0] > 1 {
          assert e0 in s'.inner.refCnt;
          var other :| other in PinsOf(s'.versions, e0);
          assert s'.versions[other].epoch < e;
        } else {
          assert e0 < e <= s.inner.epoch;
        }
      }
    }
  }

  /** If every commit that deletes rowsets is published while some pin is live (as the compactor and
      `DROP TABLE` do, holding their own), then at every moment each pending deletion has an older live
      pin, a queued notification or a vacuum about to run. */
  lemma {:induction false} NoDeletionStranded(states: seq<State>, actions: seq<Action>, i: nat)
    requires IsRun(states, actions) && i < |states|
    requires forall j :: 0 <= j < |actions| && DeletesAt(states[j], actions[j]) ==> states[j].versions != map[]
    ensures NoStranded(states[i])
  {
    if i > 0 {
      NoDeletionStranded(states, actions, i - 1);
      RunInv(states, actions, i - 1);
      assert Enabled(states[i - 1], actions[i - 1]);
      StepStrandsNothing(states[i - 1], actions[i - 1]);
    }
  }

  /** After a vacuum with no pin and no commit in flight, the pool is exactly the current snapshot if and
      only if no orphan of a failed commit is left in it. */
  lemma {:induction false} VacuumLeavesCurrent(states: seq<State>, actions: seq<Action>, i: nat)
    requires IsRun(states, actions) && i < |actions| && actions[i].RunVacuum?
    requires states[i].versions == map[] && states[i].inflight.None?
    ensures var s := states[i + 1];
            (forall k :: k in s.inner.rowsets <==> Current(s.inner).Has(k)) <==>
            (forall k :: k in s.orphans ==> k !in s.inner.rowsets)
  {
    var s, s' := states[i], states[i + 1];
    RunInv(states, actions, i);
    RunInv(states, actions, i + 1);
    assert Enabled(s, actions[i]);
    forall e ensures PinsOf(s.versions, e) == {} {}
    assert s.inner.refCnt == map[];
    assert forall e, k :: Pending(s'.inner, e, k) ==> Pending(s.inner, e, k) && s.inner.epoch < e;
  }
}
