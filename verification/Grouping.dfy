/** Rows in groups of equal adjacent keys. */
module Grouping {
  import opened Common
  import opened Bags
  import opened Orders
  import opened JoinSpecs

  datatype Group = Group(key: Row, rows: seq<Row>)

  function GroupRows(gs: seq<Group>): seq<Row> {
    if gs == [] then [] else gs[0].rows + GroupRows(gs[1..])
  }

  ghost predicate IsGroup(g: Group, k: KeyFn) {
    g.rows != [] && forall r :: r in g.rows ==> k(r) == g.key
  }

  /** The groups partition the rows in order; neighbours have different keys. */
  ghost predicate IsGrouping(gs: seq<Group>, k: KeyFn, rows: seq<Row>) {
    && GroupRows(gs) == rows
    && (forall i :: 0 <= i < |gs| ==> IsGroup(gs[i], k))
    && (forall i {:trigger gs[i]} :: 0 <= i < |gs| - 1 ==> gs[i].key != gs[i + 1].key)
  }

  ghost predicate SortedBy(k: KeyFn, rows: seq<Row>) {
    forall i, j :: 0 <= i <= j < |rows| ==> Le(k(rows[i]), k(rows[j]))
  }

  ghost predicate Ascending(gs: seq<Group>) {
    forall i, j :: 0 <= i < j < |gs| ==> Cmp(gs[i].key, gs[j].key) == Less
  }

  lemma {:induction false} GroupRowsAppend(a: seq<Group>, b: seq<Group>)
    ensures GroupRows(a + b) == GroupRows(a) + GroupRows(b)
  {
    if a == [] {
      assert a + b == b;
    } else {
      assert (a + b)[1..] == a[1..] + b;
      GroupRowsAppend(a[1..], b);
    }
  }

  lemma {:induction false} GroupRowsSnoc(a: seq<Group>, g: Group)
    ensures GroupRows(a + [g]) == GroupRows(a) + g.rows
  {
    GroupRowsAppend(a, [g]);
    assert GroupRows([g]) == g.rows + GroupRows([]);
  }

  /** A row that continues the last group. */
  lemma {:induction false} Extend(gs: seq<Group>, g: Group, k: KeyFn, rows: seq<Row>, r: Row)
    requires IsGrouping(gs + [g], k, rows) && k(r) == g.key
    ensures IsGrouping(gs + [Group(g.key, g.rows + [r])], k, rows + [r])
  {
    hide GroupRows;
    var longer := Group(g.key, g.rows + [r]);
    var was, now := gs + [g], gs + [longer];
    GroupRowsSnoc(gs, g);
    GroupRowsSnoc(gs, longer);
    assert was[|gs|] == g;
    forall i | 0 <= i < |now| ensures IsGroup(now[i], k) {
      assert IsGroup(was[i], k);
    }
    forall i | 0 <= i < |now| - 1 ensures now[i].key != now[i + 1].key {
      assert was[i].key != was[i + 1].key;
    }
  }

  /** A row that starts a group. */
  lemma {:induction false} Begin(gs: seq<Group>, k: KeyFn, rows: seq<Row>, r: Row)
    requires IsGrouping(gs, k, rows) && (gs != [] ==> k(r) != gs[|gs| - 1].key)
    ensures IsGrouping(gs + [Group(k(r), [r])], k, rows + [r])
  {
    hide GroupRows;
    GroupRowsSnoc(gs, Group(k(r), [r]));
  }

  ghost predicate NoEmptyKey(k: KeyFn, rows: seq<Row>) {
    forall r :: r in rows ==> k(r) != []
  }

  ghost predicate OnlyEmptyKeys(k: KeyFn, rows: seq<Row>) {
    forall r :: r in rows ==> k(r) == []
  }

  /** The state of the grouping loop after these rows: the groups given out, and the
      current one, which does not exist before the first row. */
  ghost predicate Grouped(gs: seq<Group>, key: Row, pending: seq<Row>, k: KeyFn, rows: seq<Row>) {
    && (OnlyEmptyKeys(k, rows) ==> gs == [] && key == [])
    && (NoEmptyKey(k, rows) ==>
          (if rows == [] then gs == [] && key == [] && pending == []
           else key != [] && IsGrouping(gs + [Group(key, pending)], k, rows)))
  }

  lemma {:induction false} GroupedStep(gs: seq<Group>, key: Row, pending: seq<Row>, k: KeyFn, rows: seq<Row>, r: Row)
    requires Grouped(gs, key, pending, k, rows)
    ensures k(r) == key ==> Grouped(gs, key, pending + [r], k, rows + [r])
    ensures k(r) != key && key != [] ==> Grouped(gs + [Group(key, pending)], k(r), [r], k, rows + [r])
    ensures k(r) != key && key == [] ==> Grouped(gs, k(r), [r], k, rows + [r])
  {
    hide IsGrouping;
    assert forall x :: x in rows ==> x in rows + [r];
    assert r in rows + [r];
    if NoEmptyKey(k, rows + [r]) {
      if rows == [] {
        EmptyGrouping(k);
        Begin([], k, rows, r);
      } else if k(r) == key {
        Extend(gs, Group(key, pending), k, rows, r);
      } else {
        Begin(gs + [Group(key, pending)], k, rows, r);
      }
    }
  }

  lemma {:induction false} EmptyGrouping(k: KeyFn)
    ensures IsGrouping([], k, [])
  {}

  /** `group_by_keys`, over all chunks of its input.  With an empty key list there are no
      groups at all. */
  method GroupByKeys(k: KeyFn, chunks: seq<seq<Row>>) returns (gs: seq<Group>)
    ensures NoEmptyKey(k, Flatten(chunks)) ==> IsGrouping(gs, k, Flatten(chunks))
    ensures OnlyEmptyKeys(k, Flatten(chunks)) ==> gs == []
  {
    hide IsGrouping, Flatten;
    EmptyGrouping(k);
    var key: Row, pending: seq<Row> := [], [];
    gs := [];
    FlattenStart<Row>();
    ghost var rows: seq<Row> := [];
    for c := 0 to |chunks|
      invariant rows == Flatten(chunks[..c])
      invariant Grouped(gs, key, pending, k, rows)
    {
      gs, key, pending := GroupChunk(k, chunks[c], gs, key, pending, rows);
      rows := rows + chunks[c];
      assert chunks[..c + 1] == chunks[..c] + [chunks[c]];
      FlattenSnoc(chunks[..c], chunks[c]);
    }
    assert chunks[..|chunks|] == chunks;
    if key != [] {
      gs := gs + [Group(key, pending)];
    }
  }

  lemma {:induction false} FlattenStart<T>()
    ensures Flatten<T>([]) == []
  {}

  method GroupChunk(k: KeyFn, chunk: seq<Row>, gs: seq<Group>, key: Row, pending: seq<Row>, ghost rows: seq<Row>)
    returns (gs': seq<Group>, key': Row, pending': seq<Row>)
    requires Grouped(gs, key, pending, k, rows)
    ensures Grouped(gs', key', pending', k, rows + chunk)
  {
    hide Grouped;
    gs', key', pending' := gs, key, pending;
    assert rows + chunk[0..0] == rows;
    for i := 0 to |chunk|
      invariant Grouped(gs', key', pending', k, rows + chunk[0..i])
    {
      GroupedStep(gs', key', pending', k, rows + chunk[0..i], chunk[i]);
      SliceSnoc(rows, chunk, 0, i);
      if k(chunk[i]) != key' {
        if key' != [] {
          gs' := gs' + [Group(key', pending')];
        }
        key', pending' := k(chunk[i]), [];
        assert pending' + [chunk[i]] == [chunk[i]];
      }
      pending' := pending' + [chunk[i]];
    }
    assert chunk[0..|chunk|] == chunk;
  }

  // ---- groups of sorted rows ----

  lemma {:induction false} RowOfGroup(gs: seq<Group>, i: nat, r: Row)
    requires i < |gs| && r in gs[i].rows
    ensures r in GroupRows(gs)
  {
    if i > 0 {
      RowOfGroup(gs[1..], i - 1, r);
    }
  }

  lemma {:induction false} GroupOfRow(gs: seq<Group>, r: Row) returns (i: nat)
    requires r in GroupRows(gs)
    ensures i < |gs| && r in gs[i].rows
  {
    if r in gs[0].rows {
      i := 0;
    } else {
      i := GroupOfRow(gs[1..], r);
      i := i + 1;
    }
  }

  lemma {:induction false} TailGrouping(gs: seq<Group>, k: KeyFn, rows: seq<Row>)
    requires IsGrouping(gs, k, rows) && SortedBy(k, rows) && gs != []
    ensures IsGrouping(gs[1..], k, GroupRows(gs[1..])) && SortedBy(k, GroupRows(gs[1..]))
    ensures forall r :: r in GroupRows(gs[1..]) ==> Le(gs[0].key, k(r))
  {
    hide Le;
    var n, rest := |gs[0].rows|, GroupRows(gs[1..]);
    assert rows == gs[0].rows + rest;
    assert forall i :: 0 <= i < |rest| ==> rest[i] == rows[n + i];
    assert rows[0] == gs[0].rows[0] && IsGroup(gs[0], k);
  }

  lemma {:induction false} FirstIsLeast(gs: seq<Group>, k: KeyFn, rows: seq<Row>, j: nat)
    requires IsGrouping(gs, k, rows) && SortedBy(k, rows) && 0 < j < |gs|
    ensures Le(gs[0].key, gs[j].key)
  {
    hide Le;
    TailGrouping(gs, k, rows);
    assert IsGroup(gs[j], k);
    var r := gs[j].rows[0];
    RowOfGroup(gs[1..], j - 1, r);
  }

  /** The groups of sorted rows have strictly ascending keys. */
  lemma {:induction false} SortedAscends(gs: seq<Group>, k: KeyFn, rows: seq<Row>)
    requires IsGrouping(gs, k, rows) && SortedBy(k, rows)
    ensures Ascending(gs)
    decreases |gs|
  {
    if |gs| > 1 {
      TailGrouping(gs, k, rows);
      SortedAscends(gs[1..], k, GroupRows(gs[1..]));
      forall j | 0 < j < |gs| ensures Cmp(gs[0].key, gs[j].key) == Less {
        FirstBelow(gs, k, rows, j);
      }
      AscendingCons(gs);
    }
  }

  lemma {:induction false} AscendingCons(gs: seq<Group>)
    requires gs != [] && Ascending(gs[1..])
    requires forall j :: 0 < j < |gs| ==> Cmp(gs[0].key, gs[j].key) == Less
    ensures Ascending(gs)
  {
    hide Cmp;
    forall i, j | 0 <= i < j < |gs| ensures Cmp(gs[i].key, gs[j].key) == Less {
      if i > 0 {
        assert gs[i] == gs[1..][i - 1] && gs[j] == gs[1..][j - 1];
      }
    }
  }

  lemma {:induction false} FirstBelow(gs: seq<Group>, k: KeyFn, rows: seq<Row>, j: nat)
    requires IsGrouping(gs, k, rows) && SortedBy(k, rows) && 0 < j < |gs| && Ascending(gs[1..])
    ensures Cmp(gs[0].key, gs[j].key) == Less
  {
    hide Cmp, GroupRows;
    FirstIsLeast(gs, k, rows, 1);
    CmpEqual(gs[0].key, gs[1].key);
    assert gs[0].key != gs[1].key;
    if j > 1 {
      assert gs[1] == gs[1..][0] && gs[j] == gs[1..][j - 1];
      LeTransitive(gs[0].key, gs[1].key, gs[j].key);
    }
  }

  // ---- finding rows by key ----

  ghost function GroupBag(gs: seq<Group>): multiset<Row> {
    multiset(GroupRows(gs))
  }

  lemma {:induction false} WithKeyOne(g: Group, k: KeyFn, key: Row)
    requires IsGroup(g, k)
    ensures WithKey(k, multiset(g.rows), key) == if g.key == key then multiset(g.rows) else multiset{}
  {
    hide Bind;
    if g.key == key {
      KeepAll(multiset(g.rows), KeyIsF(k, key));
    } else {
      KeepNone(multiset(g.rows), KeyIsF(k, key));
    }
  }

  lemma {:induction false} WithKeyCons(gs: seq<Group>, k: KeyFn, key: Row)
    requires gs != []
    ensures WithKey(k, GroupBag(gs), key) == WithKey(k, multiset(gs[0].rows), key) + WithKey(k, GroupBag(gs[1..]), key)
  {
    hide Bind;
    BindUnion(multiset(gs[0].rows), GroupBag(gs[1..]), KeepF(KeyIsF(k, key)));
    assert GroupBag(gs) == multiset(gs[0].rows) + GroupBag(gs[1..]);
  }

  lemma {:induction false} NotAmong(gs: seq<Group>, k: KeyFn, key: Row)
    requires forall i :: 0 <= i < |gs| ==> IsGroup(gs[i], k) && gs[i].key != key
    ensures WithKey(k, GroupBag(gs), key) == multiset{}
  {
    hide Bind;
    if gs == [] {
      KeepNone(GroupBag(gs), KeyIsF(k, key));
    } else {
      WithKeyCons(gs, k, key);
      WithKeyOne(gs[0], k, key);
      NotAmong(gs[1..], k, key);
    }
  }

  /** With distinct keys, the rows of a key are those of its group. */
  lemma {:induction false} RowsOfKey(gs: seq<Group>, k: KeyFn, j: nat)
    requires j < |gs| && (forall i :: 0 <= i < |gs| ==> IsGroup(gs[i], k))
    requires forall i :: 0 <= i < |gs| && i != j ==> gs[i].key != gs[j].key
    ensures WithKey(k, GroupBag(gs), gs[j].key) == multiset(gs[j].rows)
    decreases |gs|
  {
    hide Bind, WithKey, GroupBag;
    var key := gs[j].key;
    WithKeyCons(gs, k, key);
    WithKeyOne(gs[0], k, key);
    if j == 0 {
      NotAmong(gs[1..], k, key);
    } else {
      assert gs[1..][j - 1] == gs[j];
      RowsOfKey(gs[1..], k, j - 1);
    }
  }
}
