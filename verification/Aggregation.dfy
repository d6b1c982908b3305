/** Sort aggregation and hash aggregation for an arbitrary aggregate. */
module Aggregation {
  import opened Common
  import opened Bags
  import opened Chunks
  import opened JoinSpecs
  import opened Grouping

  /** The aggregates of a query taken together: states, one step per row, the results. */
  datatype Agg<!S> = Agg(init: S, step: (S, Row) -> S, result: S -> Row)

  function Fold<S>(g: Agg<S>, rows: seq<Row>): S {
    if rows == [] then g.init
    else
      var n := |rows| - 1;
      g.step(Fold(g, rows[..n]), rows[n])
  }

  lemma {:induction false} FoldSnoc<S>(g: Agg<S>, rows: seq<Row>, r: Row)
    ensures Fold(g, rows + [r]) == g.step(Fold(g, rows), r)
  {
    assert (rows + [r])[..|rows|] == rows;
  }

  /** The fold is the last state when starting with the initial one and taking a step for every row in order. */
  lemma {:induction false} FoldIsRun<S>(g: Agg<S>, rows: seq<Row>, states: seq<S>)
    requires |states| == |rows| + 1 && states[0] == g.init
    requires forall i :: 0 <= i < |rows| ==> states[i + 1] == g.step(states[i], rows[i])
    ensures Fold(g, rows) == states[|rows|]
  {
    if rows != [] {
      var n := |rows| - 1;
      FoldIsRun(g, rows[..n], states[..n + 1]);
    }
  }

  /** The rows with this key, in order. */
  function OfKey(k: KeyFn, rows: seq<Row>, key: Row): seq<Row> {
    if rows == [] then []
    else
      var n := |rows| - 1;
      OfKey(k, rows[..n], key) + (if k(rows[n]) == key then [rows[n]] else [])
  }

  lemma {:induction false} OfKeySnoc(k: KeyFn, rows: seq<Row>, r: Row, key: Row)
    ensures OfKey(k, rows + [r], key) == OfKey(k, rows, key) + (if k(r) == key then [r] else [])
  {
    assert (rows + [r])[..|rows|] == rows;
  }

  /** These are the rows at the positions with the key. */
  lemma {:induction false} OfKeyAre(k: KeyFn, rows: seq<Row>, key: Row, n: nat) returns (at: seq<nat>)
    requires n <= |rows|
    ensures Selects(rows, at, OfKey(k, rows[..n], key))
    ensures forall i: nat :: i in at <==> i < n && k(rows[i]) == key
  {
    hide Selects;
    if n == 0 {
      at := [];
      SelectsNothing(rows);
    } else {
      at := OfKeyAre(k, rows, key, n - 1);
      assert rows[..n] == rows[..n - 1] + [rows[n - 1]];
      OfKeySnoc(k, rows[..n - 1], rows[n - 1], key);
      if k(rows[n - 1]) == key {
        SelectsMore(rows, at, OfKey(k, rows[..n - 1], key), n - 1);
        at := at + [n - 1];
      } else {
        assert OfKey(k, rows[..n], key) == OfKey(k, rows[..n - 1], key);
      }
    }
  }

  function KeySet(k: KeyFn, rows: seq<Row>): set<Row> {
    set r | r in rows :: k(r)
  }

  lemma {:induction false} KeySetSnoc(k: KeyFn, rows: seq<Row>, r: Row)
    ensures KeySet(k, rows + [r]) == KeySet(k, rows) + {k(r)}
  {
    forall key ensures key in KeySet(k, rows + [r]) <==> key in KeySet(k, rows) + {k(r)} {
      if key in KeySet(k, rows) {
        var x :| x in rows && k(x) == key;
        assert x in rows + [r];
      }
      assert r in rows + [r];
    }
  }

  /** The output row of a group. */
  function RowOf<S>(g: Agg<S>, key: Row, rows: seq<Row>): Row {
    key + g.result(Fold(g, rows))
  }

  ghost function AggF<S>(g: Agg<S>, k: KeyFn, rows: seq<Row>): Row -> multiset<Row> {
    (key: Row) => multiset{RowOf(g, key, OfKey(k, rows, key))}
  }

  /** The result of a grouped aggregation: one row for each key. */
  ghost function AggBag<S>(g: Agg<S>, k: KeyFn, rows: seq<Row>): multiset<Row> {
    OverKeys(KeySet(k, rows), AggF(g, k, rows))
  }

  ghost function OverKeys(keys: set<Row>, f: Row -> multiset<Row>): multiset<Row> {
    Bind(multiset(keys), f)
  }

  lemma {:induction false} OverNone(keys: set<Row>, f: Row -> multiset<Row>)
    requires keys == {}
    ensures OverKeys(keys, f) == multiset{}
  {
    hide Bind;
    BindEmpty(f);
    assert multiset(keys) == multiset{};
  }

  lemma {:induction false} OverOneMore(keys: set<Row>, key: Row, f: Row -> multiset<Row>)
    requires key !in keys
    ensures OverKeys(keys + {key}, f) == OverKeys(keys, f) + f(key)
  {
    hide Bind;
    assert multiset(keys + {key}) == multiset(keys) + multiset{key};
    BindAdd(multiset(keys), key, f);
  }

  /** Each key is there once, before the results over its rows, and there is nothing else. */
  lemma {:induction false} AggCount<S>(g: Agg<S>, k: KeyFn, rows: seq<Row>, n: nat, key: Row, results: Row)
    requires (forall r :: r in rows ==> |k(r)| == n) && |key| == n
    ensures AggBag(g, k, rows)[key + results] ==
            if (exists r :: r in rows && k(r) == key) && results == g.result(Fold(g, OfKey(k, rows, key))) then 1 else 0
  {
    hide Bind, Fold, OfKey;
    var keys, f := KeySet(k, rows), AggF(g, k, rows);
    forall x | x in multiset(keys) && x != key ensures key + results !in f(x) {
      SplitAt(key, results, x, g.result(Fold(g, OfKey(k, rows, x))));
    }
    BindCount(multiset(keys), f, key, key + results);
    SplitAt(key, results, key, g.result(Fold(g, OfKey(k, rows, key))));
  }

  // ---- hash aggregation ----

  /** The table holds the state of every key of these rows. */
  ghost predicate Holds<S(!new)>(t: map<Row, S>, g: Agg<S>, k: KeyFn, rows: seq<Row>) {
    t.Keys == KeySet(k, rows) && forall key :: key in t ==> t[key] == Fold(g, OfKey(k, rows, key))
  }

  lemma {:induction false} NotYet(k: KeyFn, rows: seq<Row>, key: Row)
    requires key !in KeySet(k, rows)
    ensures OfKey(k, rows, key) == []
  {
    if rows != [] {
      var n := |rows| - 1;
      assert rows[n] in rows && rows == rows[..n] + [rows[n]];
      KeySetSnoc(k, rows[..n], rows[n]);
      NotYet(k, rows[..n], key);
    }
  }

  function Update<S>(t: map<Row, S>, g: Agg<S>, key: Row, r: Row): map<Row, S> {
    t[key := g.step(if key in t then t[key] else g.init, r)]
  }

  lemma {:induction false} UpdateKey<S(!new)>(t: map<Row, S>, g: Agg<S>, k: KeyFn, rows: seq<Row>, r: Row, key: Row)
    requires Holds(t, g, k, rows) && key in Update(t, g, k(r), r)
    ensures Update(t, g, k(r), r)[key] == Fold(g, OfKey(k, rows + [r], key))
  {
    hide KeySet, OfKey, Fold;
    OfKeySnoc(k, rows, r, key);
    if k(r) == key {
      FoldSnoc(g, OfKey(k, rows, key), r);
      if key !in t {
        NotYet(k, rows, key);
        FoldNone(g);
      }
    } else {
      assert OfKey(k, rows, key) + [] == OfKey(k, rows, key);
    }
  }

  lemma {:induction false} FoldNone<S>(g: Agg<S>)
    ensures Fold(g, []) == g.init
  {}

  lemma {:induction false} UpdateHolds<S(!new)>(t: map<Row, S>, g: Agg<S>, k: KeyFn, rows: seq<Row>, r: Row)
    requires Holds(t, g, k, rows)
    ensures Holds(Update(t, g, k(r), r), g, k, rows + [r])
  {
    hide KeySet, OfKey, Fold;
    var next := Update(t, g, k(r), r);
    KeySetSnoc(k, rows, r);
    forall key | key in next ensures next[key] == Fold(g, OfKey(k, rows + [r], key)) {
      UpdateKey(t, g, k, rows, r, key);
    }
  }

  method UpdateAll<S(!new)>(t: map<Row, S>, g: Agg<S>, k: KeyFn, chunk: seq<Row>,
                            ghost rows: seq<Row>) returns (next: map<Row, S>)
    requires Holds(t, g, k, rows)
    ensures Holds(next, g, k, rows + chunk)
  {
    hide Holds, Update;
    next := t;
    assert rows + chunk[0..0] == rows;
    for i := 0 to |chunk|
      invariant Holds(next, g, k, rows + chunk[0..i])
    {
      SliceSnoc(rows, chunk, 0, i);
      UpdateHolds(next, g, k, rows + chunk[0..i], chunk[i]);
      next := Update(next, g, k(chunk[i]), chunk[i]);
    }
    assert chunk[0..|chunk|] == chunk;
  }

  lemma {:induction false} ChunksUpTo(chunks: seq<seq<Row>>, c: nat)
    requires c <= |chunks|
    ensures Flatten(chunks[..0]) == [] && chunks[..|chunks|] == chunks
    ensures c < |chunks| ==> Flatten(chunks[..c + 1]) == Flatten(chunks[..c]) + chunks[c]
  {
    if c < |chunks| {
      assert chunks[..c + 1] == chunks[..c] + [chunks[c]];
      FlattenSnoc(chunks[..c], chunks[c]);
    }
  }

  method States<S(!new)>(g: Agg<S>, k: KeyFn, chunks: seq<seq<Row>>) returns (t: map<Row, S>)
    ensures Holds(t, g, k, Flatten(chunks))
  {
    hide Flatten;
    t := map[];
    ChunksUpTo(chunks, 0);
    for c := 0 to |chunks|
      invariant Holds(t, g, k, Flatten(chunks[..c]))
    {
      ChunksUpTo(chunks, c);
      t := UpdateAll(t, g, k, chunks[c], Flatten(chunks[..c]));
    }
    ChunksUpTo(chunks, |chunks|);
  }

  method PushResults<S(!new)>(o: Output, t: map<Row, S>, g: Agg<S>, k: KeyFn, ghost rows: seq<Row>)
    requires o.Valid() && o.Sent() == [] && Holds(t, g, k, rows)
    modifies o, o.builder
    ensures o.Valid() && multiset(o.Sent()) == AggBag(g, k, rows)
  {
    hide OverKeys, Flatten, Full, AggF, KeySet, OfKey, Fold, RowOf;
    ghost var f := AggF(g, k, rows);
    ghost var done: set<Row> := {};
    var keys := t.Keys;
    OverNone(done, f);
    while keys != {}
      invariant o.Valid() && keys !! done && keys + done == t.Keys
      invariant multiset(o.Sent()) == OverKeys(done, f)
      decreases keys
    {
      var key :| key in keys;
      OverOneMore(done, key, f);
      ResultOf(t, g, k, rows, key);
      o.Push(key + g.result(t[key]));
      keys := keys - {key};
      done := done + {key};
    }
    assert done == t.Keys;
  }

  lemma {:induction false} ResultOf<S(!new)>(t: map<Row, S>, g: Agg<S>, k: KeyFn, rows: seq<Row>, key: Row)
    requires Holds(t, g, k, rows) && key in t
    ensures AggF(g, k, rows)(key) == multiset{key + g.result(t[key])}
  {
    hide KeySet, OfKey, Fold;
  }

  /** Hash aggregation returns one row for each key, however its input is chunked. */
  method HashAgg<S(!new)>(g: Agg<S>, k: KeyFn, chunks: seq<seq<Row>>) returns (out: seq<seq<Row>>)
    ensures multiset(Flatten(out)) == AggBag(g, k, Flatten(chunks))
    ensures Chunked(out, WINDOW)
  {
    hide Flatten, Full, Holds, AggBag;
    var t := States(g, k, chunks);
    var o := new Output();
    PushResults(o, t, g, k, Flatten(chunks));
    out := o.Close();
  }

  // ---- sort aggregation ----

  function RunRows<S>(g: Agg<S>, gs: seq<Group>): (r: seq<Row>)
    ensures |r| == |gs|
  {
    seq(|gs|, i requires 0 <= i < |gs| => RowOf(g, gs[i].key, gs[i].rows))
  }

  /** The loop of sort aggregation after these rows: the finished groups have been sent, and
      the current one is in the state. */
  ghost predicate Running<S(!new)>(g: Agg<S>, k: KeyFn, rows: seq<Row>, gs: seq<Group>, last: Option<Row>,
                                   pending: seq<Row>, state: S) {
    && state == Fold(g, pending)
    && (if rows == [] then gs == [] && last == None && pending == []
        else last.Some? && IsGrouping(gs + [Group(last.value, pending)], k, rows))
  }

  lemma {:induction false} Continue<S(!new)>(g: Agg<S>, k: KeyFn, rows: seq<Row>, gs: seq<Group>, last: Option<Row>,
                                             pending: seq<Row>, state: S, r: Row)
    requires Running(g, k, rows, gs, last, pending, state) && last == Some(k(r))
    ensures Running(g, k, rows + [r], gs, last, pending + [r], g.step(state, r))
  {
    hide IsGrouping, Fold;
    FoldSnoc(g, pending, r);
    Extend(gs, Group(k(r), pending), k, rows, r);
  }

  lemma {:induction false} StartNext<S(!new)>(g: Agg<S>, k: KeyFn, rows: seq<Row>, gs: seq<Group>, last: Option<Row>,
                                              pending: seq<Row>, state: S, r: Row)
    requires Running(g, k, rows, gs, last, pending, state) && last != Some(k(r))
    ensures var more := if last.Some? then gs + [Group(last.value, pending)] else gs;
            Running(g, k, rows + [r], more, Some(k(r)), [r], g.step(g.init, r))
  {
    hide IsGrouping;
    FoldSnoc(g, [], r);
    assert [] + [r] == [r];
    if rows == [] {
      EmptyGrouping(k);
      Begin([], k, rows, r);
    } else {
      Begin(gs + [Group(last.value, pending)], k, rows, r);
    }
  }

  lemma {:induction false} RunRowsSnoc<S>(g: Agg<S>, gs: seq<Group>, x: Group)
    ensures RunRows(g, gs + [x]) == RunRows(g, gs) + [RowOf(g, x.key, x.rows)]
  {}

  method SortAggChunk<S(!new)>(g: Agg<S>, k: KeyFn, chunk: seq<Row>, o: Output, last0: Option<Row>, state0: S,
                               ghost rows: seq<Row>, ghost gs0: seq<Group>, ghost pending0: seq<Row>)
    returns (last: Option<Row>, state: S, ghost gs: seq<Group>, ghost pending: seq<Row>)
    requires o.Valid() && Running(g, k, rows, gs0, last0, pending0, state0) && o.Sent() == RunRows(g, gs0)
    modifies o, o.builder
    ensures o.Valid() && Running(g, k, rows + chunk, gs, last, pending, state) && o.Sent() == RunRows(g, gs)
  {
    hide Running, Flatten, Full, RunRows;
    last, state, gs, pending := last0, state0, gs0, pending0;
    assert rows + chunk[0..0] == rows;
    for i := 0 to |chunk|
      invariant o.Valid() && o.Sent() == RunRows(g, gs)
      invariant Running(g, k, rows + chunk[0..i], gs, last, pending, state)
    {
      SliceSnoc(rows, chunk, 0, i);
      var key := k(chunk[i]);
      if last != Some(key) {
        StartNext(g, k, rows + chunk[0..i], gs, last, pending, state, chunk[i]);
        if last.Some? {
          StateOf(g, k, rows + chunk[0..i], gs, last, pending, state);
          RunRowsSnoc(g, gs, Group(last.value, pending));
          o.Push(last.value + g.result(state));
          gs := gs + [Group(last.value, pending)];
        }
        last, state, pending := Some(key), g.init, [];
        assert pending + [chunk[i]] == [chunk[i]];
      } else {
        Continue(g, k, rows + chunk[0..i], gs, last, pending, state, chunk[i]);
      }
      state := g.step(state, chunk[i]);
      pending := pending + [chunk[i]];
    }
    assert chunk[0..|chunk|] == chunk;
  }

  lemma {:induction false} StateOf<S(!new)>(g: Agg<S>, k: KeyFn, rows: seq<Row>, gs: seq<Group>, last: Option<Row>,
                                            pending: seq<Row>, state: S)
    requires Running(g, k, rows, gs, last, pending, state) && last.Some?
    ensures RowOf(g, last.value, pending) == last.value + g.result(state)
    ensures IsGrouping(gs + [Group(last.value, pending)], k, rows)
  {
    hide Fold, IsGrouping;
  }

  /** Sort aggregation returns one row for each run of equal keys. */
  method SortAgg<S(!new)>(g: Agg<S>, k: KeyFn, chunks: seq<seq<Row>>) returns (out: seq<seq<Row>>, ghost gs: seq<Group>)
    ensures IsGrouping(gs, k, Flatten(chunks)) && Flatten(out) == RunRows(g, gs)
    ensures Chunked(out, WINDOW)
  {
    hide Flatten, Full, Running, IsGrouping, RunRows, Fold;
    var last: Option<Row>, state: S := None, g.init;
    gs := [];
    ghost var pending: seq<Row> := [];
    var o := new Output();
    NotRunning(g, k);
    ChunksUpTo(chunks, 0);
    for c := 0 to |chunks|
      invariant fresh(o) && fresh(o.builder)
      invariant o.Valid() && o.Sent() == RunRows(g, gs)
      invariant Running(g, k, Flatten(chunks[..c]), gs, last, pending, state)
    {
      ChunksUpTo(chunks, c);
      last, state, gs, pending := SortAggChunk(g, k, chunks[c], o, last, state, Flatten(chunks[..c]), gs, pending);
    }
    ChunksUpTo(chunks, |chunks|);
    if last.Some? {
      StateOf(g, k, Flatten(chunks), gs, last, pending, state);
      RunRowsSnoc(g, gs, Group(last.value, pending));
      o.Push(last.value + g.result(state));
      gs := gs + [Group(last.value, pending)];
    } else {
      NothingRan(g, k, Flatten(chunks), gs, last, pending, state);
    }
    out := o.Close();
  }

  lemma {:induction false} NotRunning<S(!new)>(g: Agg<S>, k: KeyFn)
    ensures Running(g, k, [], [], None, [], g.init) && RunRows(g, []) == []
  {}

  lemma {:induction false} NothingRan<S(!new)>(g: Agg<S>, k: KeyFn, rows: seq<Row>, gs: seq<Group>, last: Option<Row>,
                                               pending: seq<Row>, state: S)
    requires Running(g, k, rows, gs, last, pending, state) && last == None
    ensures IsGrouping(gs, k, rows)
  {
    EmptyGrouping(k);
  }

  // ---- when both agree ----

  ghost predicate DistinctKeys(gs: seq<Group>) {
    forall i, j :: 0 <= i < j < |gs| ==> gs[i].key != gs[j].key
  }

  ghost function GroupKeys(gs: seq<Group>): set<Row> {
    set i | 0 <= i < |gs| :: gs[i].key
  }

  lemma {:induction false} GroupKeysSnoc(gs: seq<Group>, i: nat)
    requires i < |gs|
    ensures GroupKeys(gs[..i + 1]) == GroupKeys(gs[..i]) + {gs[i].key}
  {
    var a, b := gs[..i + 1], gs[..i];
    forall key ensures key in GroupKeys(a) <==> key in GroupKeys(b) + {gs[i].key} {
      if key in GroupKeys(b) {
        var j :| 0 <= j < |b| && b[j].key == key;
        assert a[j] == b[j];
      }
      if key in GroupKeys(a) {
        var j :| 0 <= j < |a| && a[j].key == key;
        if j < i { assert b[j] == a[j]; }
      }
      assert a[i] == gs[i];
    }
  }

  lemma {:induction false} KeysAreGroupKeys(gs: seq<Group>, k: KeyFn, rows: seq<Row>)
    requires IsGrouping(gs, k, rows)
    ensures KeySet(k, rows) == GroupKeys(gs)
  {
    forall key ensures key in KeySet(k, rows) <==> key in GroupKeys(gs) {
      if key in KeySet(k, rows) {
        var r :| r in rows && k(r) == key;
        var i := GroupOfRow(gs, r);
        assert IsGroup(gs[i], k);
      }
      if key in GroupKeys(gs) {
        var i :| 0 <= i < |gs| && gs[i].key == key;
        assert IsGroup(gs[i], k);
        RowOfGroup(gs, i, gs[i].rows[0]);
      }
    }
  }

  lemma {:induction false} NoRowsOfKey(k: KeyFn, key: Row)
    ensures OfKey(k, [], key) == []
  {}

  lemma {:induction false} OfKeyAppend(k: KeyFn, a: seq<Row>, b: seq<Row>, key: Row)
    ensures OfKey(k, a + b, key) == OfKey(k, a, key) + OfKey(k, b, key)
  {
    hide OfKey;
    if b == [] {
      assert a + b == a;
      NoRowsOfKey(k, key);
    } else {
      var n := |b| - 1;
      OfKeyAppend(k, a, b[..n], key);
      OfKeySnoc(k, a + b[..n], b[n], key);
      OfKeySnoc(k, b[..n], b[n], key);
      assert a + b == a + b[..n] + [b[n]] && b == b[..n] + [b[n]];
    }
  }

  lemma {:induction false} OfKeyAll(k: KeyFn, rows: seq<Row>, key: Row)
    requires forall r :: r in rows ==> k(r) == key
    ensures OfKey(k, rows, key) == rows
  {
    if rows != [] {
      var n := |rows| - 1;
      OfKeyAll(k, rows[..n], key);
      assert rows == rows[..n] + [rows[n]];
    }
  }

  lemma {:induction false} OfKeyNone(k: KeyFn, rows: seq<Row>, key: Row)
    requires forall r :: r in rows ==> k(r) != key
    ensures OfKey(k, rows, key) == []
  {
    if rows != [] {
      OfKeyNone(k, rows[..|rows| - 1], key);
    }
  }

  lemma {:induction false} OfNoGroup(gs: seq<Group>, k: KeyFn, key: Row)
    requires forall i :: 0 <= i < |gs| ==> IsGroup(gs[i], k) && gs[i].key != key
    ensures OfKey(k, GroupRows(gs), key) == []
  {
    if gs != [] {
      OfKeyAppend(k, gs[0].rows, GroupRows(gs[1..]), key);
      assert IsGroup(gs[0], k);
      OfKeyNone(k, gs[0].rows, key);
      OfNoGroup(gs[1..], k, key);
    }
  }

  /** With distinct group keys, the rows of a key are those of its group, in order. */
  lemma {:induction false} OfGroup(gs: seq<Group>, k: KeyFn, j: nat)
    requires j < |gs| && (forall i :: 0 <= i < |gs| ==> IsGroup(gs[i], k)) && DistinctKeys(gs)
    ensures OfKey(k, GroupRows(gs), gs[j].key) == gs[j].rows
    decreases |gs|
  {
    var key := gs[j].key;
    OfKeyAppend(k, gs[0].rows, GroupRows(gs[1..]), key);
    assert IsGroup(gs[0], k);
    if j == 0 {
      OfKeyAll(k, gs[0].rows, key);
      OfNoGroup(gs[1..], k, key);
      assert gs[0].rows + [] == gs[0].rows;
    } else {
      OfKeyNone(k, gs[0].rows, key);
      assert gs[1..][j - 1] == gs[j];
      OfGroup(gs[1..], k, j - 1);
    }
  }

  lemma {:induction false} RunsUpTo<S(!new)>(g: Agg<S>, k: KeyFn, gs: seq<Group>, i: nat)
    requires i <= |gs| && (forall j :: 0 <= j < |gs| ==> IsGroup(gs[j], k)) && DistinctKeys(gs)
    ensures multiset(RunRows(g, gs[..i])) == OverKeys(GroupKeys(gs[..i]), AggF(g, k, GroupRows(gs)))
  {
    hide OverKeys, RowOf, OfKey, GroupRows, IsGroup;
    var f := AggF(g, k, GroupRows(gs));
    if i == 0 {
      OverNone(GroupKeys(gs[..0]), f);
    } else {
      var x := gs[i - 1];
      RunsUpTo(g, k, gs, i - 1);
      assert gs[..i] == gs[..i - 1] + [x];
      RunRowsSnoc(g, gs[..i - 1], x);
      GroupKeysSnoc(gs, i - 1);
      NewKey(gs, i - 1);
      OverOneMore(GroupKeys(gs[..i - 1]), x.key, f);
      OfGroup(gs, k, i - 1);
    }
  }

  lemma {:induction false} NewKey(gs: seq<Group>, i: nat)
    requires i < |gs| && DistinctKeys(gs)
    ensures gs[i].key !in GroupKeys(gs[..i])
  {}

  lemma {:induction false} NoGroups(gs: seq<Group>)
    ensures GroupKeys(gs[..0]) == {} && DistinctKeys(gs[..0])
  {}

  lemma {:induction false} KeyCount(gs: seq<Group>, i: nat)
    requires i <= |gs|
    ensures |GroupKeys(gs[..i])| <= i
    ensures |GroupKeys(gs[..i])| == i ==> DistinctKeys(gs[..i])
  {
    hide GroupKeys, DistinctKeys;
    if i == 0 {
      NoGroups(gs);
    } else {
      KeyCount(gs, i - 1);
      GroupKeysSnoc(gs, i - 1);
      var before, key := GroupKeys(gs[..i - 1]), gs[i - 1].key;
      if key in before {
        assert before + {key} == before;
      } else {
        assert |before + {key}| == |before| + 1;
        if DistinctKeys(gs[..i - 1]) {
          DistinctSnoc(gs, i - 1);
        }
      }
    }
  }

  lemma {:induction false} DistinctSnoc(gs: seq<Group>, i: nat)
    requires i < |gs| && DistinctKeys(gs[..i]) && gs[i].key !in GroupKeys(gs[..i])
    ensures DistinctKeys(gs[..i + 1])
  {
    var a, b := gs[..i + 1], gs[..i];
    forall x, y | 0 <= x < y < |a| ensures a[x].key != a[y].key {
      assert a[x] == b[x];
      if y < i {
        assert a[y] == b[y];
      } else {
        assert b[x].key in GroupKeys(b);
      }
    }
  }

  lemma {:induction false} SingletonSum(b: multiset<Row>, f: Row -> multiset<Row>)
    requires forall x :: x in b ==> |f(x)| == 1
    ensures |Bind(b, f)| == |b|
    decreases |b|
  {
    if |b| != 0 {
      var x :| x in b;
      BindPick(b, x, f);
      SingletonSum(b - multiset{x}, f);
    }
  }

  lemma {:induction false} OneRowEach<S(!new)>(g: Agg<S>, k: KeyFn, rows: seq<Row>)
    ensures |AggBag(g, k, rows)| == |KeySet(k, rows)|
  {
    hide Bind, RowOf, OfKey, KeySet;
    SingletonSum(multiset(KeySet(k, rows)), AggF(g, k, rows));
  }

  /** Sort aggregation returns the same bag as hash aggregation if and only if no key has
      more than one run. */
  lemma {:induction false} AggsAgreeIff<S(!new)>(g: Agg<S>, k: KeyFn, gs: seq<Group>, rows: seq<Row>)
    requires IsGrouping(gs, k, rows)
    ensures multiset(RunRows(g, gs)) == AggBag(g, k, rows) <==> DistinctKeys(gs)
  {
    hide OverKeys, RunRows, AggF, KeySet, GroupKeys, GroupRows, IsGroup;
    assert gs[..|gs|] == gs;
    KeysAreGroupKeys(gs, k, rows);
    if DistinctKeys(gs) {
      RunsUpTo(g, k, gs, |gs|);
    } else {
      KeyCount(gs, |gs|);
      OneRowEach(g, k, rows);
      assert |multiset(RunRows(g, gs))| == |gs|;
    }
  }

  // ---- contiguous keys ----

  /** Rows with the same key have no other key between them. */
  ghost predicate Contiguous(k: KeyFn, rows: seq<Row>) {
    forall i, j, l :: 0 <= i < j < l < |rows| && k(rows[i]) == k(rows[l]) ==> k(rows[j]) == k(rows[i])
  }

  ghost function Start(gs: seq<Group>, i: nat): nat
    requires i <= |gs|
  {
    |GroupRows(gs[..i])|
  }

  lemma {:induction false} RowAt(gs: seq<Group>, i: nat, t: nat)
    requires i < |gs| && t < |gs[i].rows|
    ensures Start(gs, i) + |gs[i].rows| == Start(gs, i + 1) <= |GroupRows(gs)|
    ensures GroupRows(gs)[Start(gs, i) + t] == gs[i].rows[t]
  {
    assert gs[..i + 1] == gs[..i] + [gs[i]] && gs == gs[..i + 1] + gs[i + 1..];
    GroupRowsSnoc(gs[..i], gs[i]);
    GroupRowsAppend(gs[..i + 1], gs[i + 1..]);
  }

  lemma {:induction false} StartsGrow(gs: seq<Group>, i: nat, j: nat)
    requires i <= j <= |gs|
    ensures Start(gs, i) <= Start(gs, j)
  {
    assert gs[..j] == gs[..i] + gs[i..j];
    GroupRowsAppend(gs[..i], gs[i..j]);
  }

  lemma {:induction false} GroupAt(gs: seq<Group>, p: nat) returns (i: nat, t: nat)
    requires p < |GroupRows(gs)|
    ensures i < |gs| && t < |gs[i].rows| && p == Start(gs, i) + t
  {
    if p < |gs[0].rows| {
      i, t := 0, p;
      assert gs[..0] == [];
    } else {
      i, t := GroupAt(gs[1..], p - |gs[0].rows|);
      assert gs[..i + 1] == [gs[0]] + gs[1..][..i];
      assert gs[..i + 1][0] == gs[0] && gs[..i + 1][1..] == gs[1..][..i];
      i := i + 1;
    }
  }

  lemma {:induction false} KeyAt(gs: seq<Group>, k: KeyFn, rows: seq<Row>, p: nat) returns (i: nat)
    requires IsGrouping(gs, k, rows) && p < |rows|
    ensures i < |gs| && k(rows[p]) == gs[i].key && Start(gs, i) <= p < Start(gs, i + 1)
  {
    hide GroupRows;
    var t;
    i, t := GroupAt(gs, p);
    RowAt(gs, i, t);
    assert IsGroup(gs[i], k);
  }

  lemma {:induction false} StartsInOrder(gs: seq<Group>, a: nat, b: nat, i: nat, j: nat)
    requires a < |gs| && b < |gs| && Start(gs, a) <= i < j < Start(gs, b + 1)
    ensures a <= b
  {
    hide Start;
    if b < a {
      StartsGrow(gs, b + 1, a);
    }
  }

  lemma {:induction false} DistinctIsContiguous(gs: seq<Group>, k: KeyFn, rows: seq<Row>)
    requires IsGrouping(gs, k, rows) && DistinctKeys(gs)
    ensures Contiguous(k, rows)
  {
    hide GroupRows, Start, IsGrouping;
    forall i, j, l | 0 <= i < j < l < |rows| && k(rows[i]) == k(rows[l]) ensures k(rows[j]) == k(rows[i]) {
      var a := KeyAt(gs, k, rows, i);
      var b := KeyAt(gs, k, rows, j);
      var c := KeyAt(gs, k, rows, l);
      StartsInOrder(gs, a, b, i, j);
      StartsInOrder(gs, b, c, j, l);
      assert a == c;
    }
  }

  lemma {:induction false} ContiguousIsDistinct(gs: seq<Group>, k: KeyFn, rows: seq<Row>)
    requires IsGrouping(gs, k, rows) && Contiguous(k, rows)
    ensures DistinctKeys(gs)
  {
    hide GroupRows;
    forall i, j | 0 <= i < j < |gs| ensures gs[i].key != gs[j].key {
      assert IsGroup(gs[i], k) && IsGroup(gs[i + 1], k) && IsGroup(gs[j], k);
      assert gs[i].key != gs[i + 1].key;
      if i + 1 < j {
        RowAt(gs, i, 0);
        RowAt(gs, i + 1, 0);
        RowAt(gs, j, 0);
        StartsGrow(gs, i + 2, j);
        assert Start(gs, i) < Start(gs, i + 1) < Start(gs, j);
        assert gs[i].rows[0] in gs[i].rows && gs[i + 1].rows[0] in gs[i + 1].rows && gs[j].rows[0] in gs[j].rows;
      }
    }
  }

  /** Both aggregations over the same input agree if and only if equal keys are contiguous. */
  method SortAggAgreesWithHashAgg<S(!new)>(g: Agg<S>, k: KeyFn, chunks: seq<seq<Row>>)
    returns (sorted: seq<seq<Row>>, hashed: seq<seq<Row>>)
    ensures multiset(Flatten(sorted)) == multiset(Flatten(hashed)) <==> Contiguous(k, Flatten(chunks))
  {
    hide Flatten, AggBag, IsGrouping, Contiguous, RunRows, DistinctKeys, Chunked;
    ghost var gs;
    sorted, gs := SortAgg(g, k, chunks);
    hashed := HashAgg(g, k, chunks);
    AggsAgreeIff(g, k, gs, Flatten(chunks));
    if DistinctKeys(gs) {
      DistinctIsContiguous(gs, k, Flatten(chunks));
    }
    if Contiguous(k, Flatten(chunks)) {
      ContiguousIsDistinct(gs, k, Flatten(chunks));
    }
  }
}
