/** A run in which a rowset is added, pinned, deleted, kept for the pin, and then vacuumed. */
module VersionRuns {
  import opened Common
  import opened Snapshots
  import opened Versions
  import opened VersionProtocol
  import opened VersionTheorems

  lemma {:induction false} Then(states: seq<State>, actions: seq<Action>, a: Action)
    returns (more: seq<State>, all: seq<Action>)
    requires IsRun(states, actions) && Enabled(states[|actions|], a)
    ensures IsRun(more, all) && all == actions + [a] && more == states + [Step(states[|actions|], a)]
    ensures |more| == |all| + 1
  {
    hide Step, Enabled;
    all := actions + [a];
    more := states + [Step(states[|actions|], a)];
    forall i | 0 <= i < |all| ensures Enabled(more[i], all[i]) && more[i + 1] == Step(more[i], all[i]) {
      if i < |actions| {
        assert more[i] == states[i] && more[i + 1] == states[i + 1] && all[i] == actions[i];
        assert Enabled(states[i], actions[i]);
      }
    }
  }

  const KEY: RowsetKey := (0, 0)
  const ADD: EpochOp := AddRowSet(KEY, DiskRowset([]))
  const POOL: map<RowsetKey, DiskRowset> := map[KEY := DiskRowset([])]
  const ONE := Snapshot(map[0 := {0}], map[])

  /** After the insert, and after the delete, with or without the pin. */
  function Inserted(): State {
    INIT.(inner := NEW_INNER.(status := map[1 := ONE], rowsets := POOL, deletions := map[1 := []], epoch := 1),
          added := POOL)
  }

  function Deleted(refCnt: map<Epoch, nat>, versions: map<nat, Version>, queue: nat): State {
    INIT.(inner := Inner(map[1 := ONE, 2 := EMPTY], POOL, map[], refCnt, map[1 := [], 2 := [KEY]], 2),
          added := POOL, versions := versions, queue := queue)
  }

  lemma {:induction false} Inserts()
    ensures Enabled(INIT, Begin([ADD])) && Enabled(Step(INIT, Begin([ADD])), End)
    ensures Step(Step(INIT, Begin([ADD])), End) == Inserted()
  {
    assert FreshOps({}, {}, [ADD]);
    assert {} + {0} == {0} && EMPTY.AddRowset(KEY) == ONE;
    var st := Staged(EMPTY, map[], map[], []);
    assert Stage(st, [ADD]) == Stage(StageOne(st, ADD).staged, [ADD][1..]);
    assert StageFrom(INIT.inner, [ADD]) == StageResult(true, Staged(ONE, POOL, map[], []));
    var s := Step(INIT, Begin([ADD]));
    assert s.added == POOL && s.addedDvs == map[] && s.inner.rowsets == POOL;
    assert map[][1 := ONE] == map[1 := ONE];
  }

  lemma {:induction false} Deletes()
    ensures var s := Step(Inserted(), Pin(7));
            && Enabled(Inserted(), Pin(7)) && Enabled(s, Begin([DeleteRowSet(KEY)]))
            && var s' := Step(s, Begin([DeleteRowSet(KEY)]));
               Enabled(s', End) && Step(s', End) == Deleted(map[1 := 1], map[7 := Version(1, {})], 0)
  {
    var del := [DeleteRowSet(KEY)];
    var s := Step(Inserted(), Pin(7));
    assert s.inner.refCnt == map[1 := 1] && s.versions == map[7 := Version(1, {})];
    var st := Staged(ONE, POOL, map[], []);
    assert ONE.DeleteRowset(KEY) == Some(EMPTY) by {
      assert {0} - {0} == {};
      assert ONE.rowsets - {0} == map[];
    }
    assert Stage(st, del) == Stage(StageOne(st, del[0]).staged, del[1..]);
    assert StageFrom(s.inner, del) == StageResult(true, Staged(EMPTY, POOL, map[], [KEY]));
    assert KEY in s.added.Keys && FreshOps(s.added.Keys, s.addedDvs.Keys, del);
    var s' := Step(s, Begin(del));
    assert s'.added == POOL && s'.addedDvs == map[] && s'.inner.rowsets == POOL;
    var e := Step(s', End);
    assert e.inner.status == map[1 := ONE, 2 := EMPTY] && e.inner.deletions == map[1 := [], 2 := [KEY]];
  }

  lemma {:induction false} Reads()
    ensures var s := Deleted(map[1 := 1], map[7 := Version(1, {})], 0);
            && Enabled(s, Fetch(7, KEY)) && Enabled(Step(s, Fetch(7, KEY)), Release(7, KEY))
            && Step(Step(s, Fetch(7, KEY)), Release(7, KEY)) == s
            && Enabled(s, Unpin(7)) && Step(s, Unpin(7)) == Deleted(map[], map[], 1)
  {
    var s := Deleted(map[1 := 1], map[7 := Version(1, {})], 0);
    assert PinnedHas(s, 7, KEY);
    assert {} + {KEY} == {KEY};
    var f := Step(s, Fetch(7, KEY));
    assert f.versions == map[7 := Version(1, {KEY})];
    assert Step(f, Release(7, KEY)).versions == s.versions by {
      assert {KEY} - {KEY} == {};
    }
    assert s.versions - {7} == map[] && s.inner.refCnt - {1} == map[];
  }

  lemma {:induction false} Vacuums()
    ensures var s := Deleted(map[], map[], 1);
            && Enabled(s, Receive) && Enabled(Step(s, Receive), RunVacuum(2))
            && Step(Step(s, Receive), RunVacuum(2)).inner.rowsets == map[]
            && Step(Step(s, Receive), RunVacuum(2)).inner.deletions == map[]
  {
    var s := Step(Deleted(map[], map[], 1), Receive);
    assert s.inner.deletions[2] == [KEY];
    assert Removes(s.inner, 2, KEY);
  }

  /** The whole run: the deleted rowset is in the pool as long as the pin is, and gone after the vacuum. */
  lemma {:induction false} DeletedRowsetGoes() returns (states: seq<State>, actions: seq<Action>)
    ensures IsRun(states, actions) && |actions| == 10
    ensures actions[2] == Pin(7) && actions[7] == Unpin(7)
    ensures KEY in states[7].inner.rowsets && !Current(states[7].inner).Has(KEY)
    ensures KEY !in states[10].inner.rowsets
  {
    hide Step, Enabled, Inserted, Deleted;
    Inserts();
    Deletes();
    Reads();
    Vacuums();
    StillPooled();
    states, actions := [INIT], [];
    assert IsRun(states, actions);
    hide IsRun;
    states, actions := Then(states, actions, Begin([ADD]));
    states, actions := Then(states, actions, End);
    states, actions := Then(states, actions, Pin(7));
    states, actions := Then(states, actions, Begin([DeleteRowSet(KEY)]));
    states, actions := Then(states, actions, End);
    states, actions := Then(states, actions, Fetch(7, KEY));
    states, actions := Then(states, actions, Release(7, KEY));
    states, actions := Then(states, actions, Unpin(7));
    states, actions := Then(states, actions, Receive);
    states, actions := Then(states, actions, RunVacuum(2));
  }

  lemma {:induction false} StillPooled()
    ensures var s := Deleted(map[1 := 1], map[7 := Version(1, {})], 0);
            KEY in s.inner.rowsets && !Current(s.inner).Has(KEY)
  {}
}
