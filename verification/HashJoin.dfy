/** Hash join: the left side in a table by key, probed with the right side. */
module HashJoins {
  import opened Common
  import opened Bags
  import opened Chunks
  import opened JoinSpecs

  datatype LeftKeyInfo = LeftKeyInfo(rows: seq<Row>, matched: bool)

  type Table = map<Row, LeftKeyInfo>

  /** The table holds exactly these left rows, by key. */
  ghost predicate Groups(t: Table, lk: KeyFn, ls: multiset<Row>) {
    && (forall l: Row :: l in ls ==> lk(l) in t)
    && (forall k :: k in t ==> multiset(t[k].rows) == WithKey(lk, ls, k) != multiset{})
  }

  /** The keys marked are those that these right rows have. */
  ghost predicate Marks(t: Table, rk: KeyFn, rs: multiset<Row>) {
    forall k :: k in t ==> (t[k].matched <==> HasKey(rk, rs, k))
  }

  function AddRow(t: Table, k: Row, row: Row): Table {
    t[k := if k in t then LeftKeyInfo(t[k].rows + [row], t[k].matched) else LeftKeyInfo([row], false)]
  }

  lemma {:induction false} KeyInTable(t: Table, lk: KeyFn, ls: multiset<Row>, key: Row)
    requires Groups(t, lk, ls)
    ensures key in t <==> HasKey(lk, ls, key)
  {
    hide Bind, WithKey;
    WithKeyEmpty(lk, ls, key);
  }

  lemma {:induction false} AddRowGroup(t: Table, lk: KeyFn, ls: multiset<Row>, row: Row, k: Row)
    requires Groups(t, lk, ls) && k in AddRow(t, lk(row), row)
    ensures multiset(AddRow(t, lk(row), row)[k].rows) == WithKey(lk, ls + multiset{row}, k) != multiset{}
  {
    hide Bind, WithKey, HasKey;
    WithKeyAdd(lk, ls, row, k);
    KeyInTable(t, lk, ls, k);
    WithKeyEmpty(lk, ls, k);
    if k == lk(row) {
      assert row in WithKey(lk, ls, k) + multiset{row};
    }
  }

  lemma {:induction false} AddRowGroups(t: Table, lk: KeyFn, ls: multiset<Row>, row: Row)
    requires Groups(t, lk, ls)
    ensures Groups(AddRow(t, lk(row), row), lk, ls + multiset{row})
  {
    hide Bind, WithKey;
    var next := AddRow(t, lk(row), row);
    forall k | k in next ensures multiset(next[k].rows) == WithKey(lk, ls + multiset{row}, k) != multiset{} {
      AddRowGroup(t, lk, ls, row, k);
    }
  }

  lemma {:induction false} AddRowMarks(t: Table, lk: KeyFn, row: Row)
    requires Marks(t, lk, multiset{})
    ensures Marks(AddRow(t, lk(row), row), lk, multiset{})
  {}

  lemma {:induction false} NoMarks(t: Table, lk: KeyFn, rk: KeyFn)
    requires Marks(t, lk, multiset{})
    ensures Marks(t, rk, multiset{})
  {}

  method AddChunk(t: Table, lk: KeyFn, chunk: seq<Row>, ghost ls: multiset<Row>) returns (next: Table)
    requires Groups(t, lk, ls) && Marks(t, lk, multiset{})
    ensures Groups(next, lk, ls + multiset(chunk)) && Marks(next, lk, multiset{})
  {
    hide Groups, Marks, AddRow;
    next := t;
    assert ls + multiset(chunk[..0]) == ls;
    for i := 0 to |chunk|
      invariant Groups(next, lk, ls + multiset(chunk[..i])) && Marks(next, lk, multiset{})
    {
      BagAt(ls, chunk, i);
      AddRowMarks(next, lk, chunk[i]);
      AddRowGroups(next, lk, ls + multiset(chunk[..i]), chunk[i]);
      next := AddRow(next, lk(chunk[i]), chunk[i]);
    }
    assert chunk[..|chunk|] == chunk;
  }

  lemma {:induction false} BagAt(b: multiset<Row>, rows: seq<Row>, i: nat)
    requires i < |rows|
    ensures b + multiset(rows[..i + 1]) == b + multiset(rows[..i]) + multiset{rows[i]}
  {
    assert rows[..i + 1] == rows[..i] + [rows[i]];
  }

  /** The bag of the rows of the first chunks. */
  ghost function RowsUpTo(chunks: seq<seq<Row>>, c: nat): multiset<Row>
    requires c <= |chunks|
  {
    multiset(Flatten(chunks[..c]))
  }

  lemma {:induction false} NextChunk(chunks: seq<seq<Row>>, c: nat)
    requires c < |chunks|
    ensures RowsUpTo(chunks, c + 1) == RowsUpTo(chunks, c) + multiset(chunks[c])
  {
    assert chunks[..c + 1] == chunks[..c] + [chunks[c]];
    FlattenSnoc(chunks[..c], chunks[c]);
  }

  lemma {:induction false} AllChunks(chunks: seq<seq<Row>>)
    ensures RowsUpTo(chunks, 0) == multiset{}
    ensures RowsUpTo(chunks, |chunks|) == multiset(Flatten(chunks))
  {
    assert chunks[..|chunks|] == chunks;
  }

  method BuildTable(lk: KeyFn, left: seq<seq<Row>>) returns (t: Table)
    ensures Groups(t, lk, multiset(Flatten(left))) && Marks(t, lk, multiset{})
  {
    hide Flatten, RowsUpTo;
    AllChunks(left);
    t := map[];
    for c := 0 to |left|
      invariant Groups(t, lk, RowsUpTo(left, c)) && Marks(t, lk, multiset{})
    {
      NextChunk(left, c);
      t := AddChunk(t, lk, left[c], RowsUpTo(left, c));
    }
  }

  /** What one right row contributes: its pairs, or itself with nulls. */
  ghost function ProbeF(ty: JoinType, s: Sides, ls: multiset<Row>): Row -> multiset<Row> {
    (r: Row) => PairsOfF(s, ls)(r) + (if ty.KeepsRight() then RightAloneF(s, ls)(r) else multiset{})
  }

  method ProbeRow(ty: JoinType, s: Sides, t: Table, r: Row, o: Output, ghost ls: multiset<Row>, ghost rs: multiset<Row>)
    returns (next: Table)
    requires Groups(t, s.lk, ls) && Marks(t, s.rk, rs) && o.Valid()
    modifies o, o.builder
    ensures Groups(next, s.lk, ls) && Marks(next, s.rk, rs + multiset{r}) && o.Valid()
    ensures multiset(o.Sent()) == multiset(old(o.Sent())) + ProbeF(ty, s, ls)(r)
  {
    hide Bind, Groups, Flatten, Full, Marks, ProbeF, BehindF, Nulls;
    var k := s.rk(r);
    ProbeOne(ty, s, t, r, ls);
    MarksAdd(t, s.rk, rs, r);
    GroupsMark(t, s.lk, ls, k);
    if k in t {
      next := t[k := t[k].(matched := true)];
      PushBehind(o, t[k].rows, r);
    } else {
      next := t;
      if ty.KeepsRight() {
        o.Push(Nulls(s.ln) + r);
      }
    }
  }

  lemma {:induction false} GroupsMark(t: Table, lk: KeyFn, ls: multiset<Row>, k: Row)
    requires Groups(t, lk, ls)
    ensures k in t ==> Groups(t[k := t[k].(matched := true)], lk, ls)
  {
    hide WithKey;
  }

  lemma {:induction false} ProbeOne(ty: JoinType, s: Sides, t: Table, r: Row, ls: multiset<Row>)
    requires Groups(t, s.lk, ls)
    ensures ProbeF(ty, s, ls)(r) ==
            if s.rk(r) in t then Bind(multiset(t[s.rk(r)].rows), BehindF(r))
            else if ty.KeepsRight() then multiset{Nulls(s.ln) + r}
            else multiset{}
  {
    hide Bind, WithKey, PairsOfF, ProbeF, RightAloneF, HasKey, BehindF;
    KeyInTable(t, s.lk, ls, s.rk(r));
    ProbeParts(ty, s, r, ls);
    if s.rk(r) in t {
      PairsOfByKey(s, r, ls);
    } else {
      NoPairs(s, r, ls);
    }
  }

  lemma {:induction false} ProbeParts(ty: JoinType, s: Sides, r: Row, ls: multiset<Row>)
    ensures ProbeF(ty, s, ls)(r) ==
            if HasKey(s.lk, ls, s.rk(r)) || !ty.KeepsRight() then PairsOfF(s, ls)(r)
            else PairsOfF(s, ls)(r) + multiset{Nulls(s.ln) + r}
  {
    hide Bind, PairsOfF, HasKey;
  }

  lemma {:induction false} NoPairs(s: Sides, r: Row, ls: multiset<Row>)
    requires !HasKey(s.lk, ls, s.rk(r))
    ensures PairsOfF(s, ls)(r) == multiset{}
  {
    hide Bind, WithKey;
    PairsOfByKey(s, r, ls);
    WithKeyEmpty(s.lk, ls, s.rk(r));
    BindEmpty(BehindF(r));
  }

  lemma {:induction false} MarksAdd(t: Table, rk: KeyFn, rs: multiset<Row>, r: Row)
    requires Marks(t, rk, rs)
    ensures Marks(if rk(r) in t then t[rk(r) := t[rk(r)].(matched := true)] else t, rk, rs + multiset{r})
  {
    hide HasKey;
    var next := if rk(r) in t then t[rk(r) := t[rk(r)].(matched := true)] else t;
    forall k | k in next ensures next[k].matched <==> HasKey(rk, rs + multiset{r}, k) {
      HasKeyAdd(rk, rs, r, k);
    }
  }

  method ProbeChunk(ty: JoinType, s: Sides, t: Table, chunk: seq<Row>, o: Output, ghost ls: multiset<Row>,
                    ghost rs: multiset<Row>)
    returns (next: Table)
    requires Groups(t, s.lk, ls) && Marks(t, s.rk, rs) && o.Valid()
    modifies o, o.builder
    ensures Groups(next, s.lk, ls) && Marks(next, s.rk, rs + multiset(chunk)) && o.Valid()
    ensures multiset(o.Sent()) == multiset(old(o.Sent())) + Bind(multiset(chunk), ProbeF(ty, s, ls))
  {
    hide Bind, Groups, Marks, ProbeF, Flatten, Full;
    ghost var before, f := multiset(o.Sent()), ProbeF(ty, s, ls);
    BindEmpty(f);
    next := t;
    assert rs + multiset(chunk[..0]) == rs;
    for i := 0 to |chunk|
      invariant Groups(next, s.lk, ls) && Marks(next, s.rk, rs + multiset(chunk[..i])) && o.Valid()
      invariant multiset(o.Sent()) == before + Bind(multiset(chunk[..i]), f)
    {
      BagAt(rs, chunk, i);
      BagSnoc(chunk, i, f);
      next := ProbeRow(ty, s, next, chunk[i], o, ls, rs + multiset(chunk[..i]));
    }
    assert chunk[..|chunk|] == chunk;
  }

  method Probe(ty: JoinType, s: Sides, t: Table, right: seq<seq<Row>>, o: Output, ghost ls: multiset<Row>)
    returns (next: Table)
    requires Groups(t, s.lk, ls) && Marks(t, s.rk, multiset{}) && o.Valid()
    modifies o, o.builder
    ensures Groups(next, s.lk, ls) && Marks(next, s.rk, multiset(Flatten(right))) && o.Valid()
    ensures multiset(o.Sent()) == multiset(old(o.Sent())) + Bind(multiset(Flatten(right)), ProbeF(ty, s, ls))
  {
    hide Bind, Groups, Marks, ProbeF, Flatten, Full, RowsUpTo;
    AllChunks(right);
    ghost var before, f := multiset(o.Sent()), ProbeF(ty, s, ls);
    BindEmpty(f);
    next := t;
    for c := 0 to |right|
      invariant Groups(next, s.lk, ls) && Marks(next, s.rk, RowsUpTo(right, c)) && o.Valid()
      invariant multiset(o.Sent()) == before + Bind(RowsUpTo(right, c), f)
    {
      NextChunk(right, c);
      BindUnion(RowsUpTo(right, c), multiset(right[c]), f);
      next := ProbeChunk(ty, s, next, right[c], o, ls, RowsUpTo(right, c));
    }
  }

  // ---- the left rows that found no partner ----

  ghost function KeyOutF(lk: KeyFn, keys: set<Row>): Row -> bool {
    (l: Row) => lk(l) !in keys
  }

  lemma {:induction false} OneKeyLess(lk: KeyFn, ls: multiset<Row>, keys: set<Row>, k: Row)
    requires k in keys
    ensures Keep(ls, KeyOutF(lk, keys - {k})) == Keep(ls, KeyOutF(lk, keys)) + WithKey(lk, ls, k)
  {
    hide Bind;
    var p, q := KeyOutF(lk, keys - {k}), KeyOutF(lk, keys);
    forall x: Row ensures Keep(ls, p)[x] == (Keep(ls, q) + WithKey(lk, ls, k))[x] {
      KeepCount(ls, p, x);
      KeepCount(ls, q, x);
      KeepCount(ls, KeyIsF(lk, k), x);
    }
  }

  lemma {:induction false} AloneByKey(s: Sides, ls: multiset<Row>, rs: multiset<Row>, k: Row)
    ensures Bind(WithKey(s.lk, ls, k), LeftAloneF(s, rs)) ==
            if HasKey(s.rk, rs, k) then multiset{} else Bind(WithKey(s.lk, ls, k), PadRightF(s.rn))
  {
    hide Bind, HasKey, Keep;
    var group := WithKey(s.lk, ls, k);
    forall l | l in group ensures s.lk(l) == k {
      KeepMember(ls, KeyIsF(s.lk, k), l);
    }
    if HasKey(s.rk, rs, k) {
      BindNone(group, LeftAloneF(s, rs));
    } else {
      BindCong(group, LeftAloneF(s, rs), PadRightF(s.rn));
    }
  }

  method PushUnmatched(s: Sides, t: Table, o: Output, ghost ls: multiset<Row>, ghost rs: multiset<Row>)
    requires Groups(t, s.lk, ls) && Marks(t, s.rk, rs) && o.Valid()
    modifies o, o.builder
    ensures o.Valid() && multiset(o.Sent()) == multiset(old(o.Sent())) + Bind(ls, LeftAloneF(s, rs))
  {
    hide Bind, Flatten, Full, HasKey, LeftAloneF, KeyOutF, Keep, WithKey;
    ghost var before, f := multiset(o.Sent()), LeftAloneF(s, rs);
    var keys := t.Keys;
    NoneOut(t, s.lk, ls, f);
    while keys != {}
      invariant keys <= t.Keys && o.Valid()
      invariant multiset(o.Sent()) == before + Bind(Keep(ls, KeyOutF(s.lk, keys)), f)
      decreases keys
    {
      var k :| k in keys;
      OneKeyLess(s.lk, ls, keys, k);
      BindUnion(Keep(ls, KeyOutF(s.lk, keys)), WithKey(s.lk, ls, k), f);
      AloneByKey(s, ls, rs, k);
      if !t[k].matched {
        PushPadRight(o, t[k].rows, s.rn);
      }
      keys := keys - {k};
    }
    AllOut(s.lk, ls);
  }

  lemma {:induction false} NoneOut(t: Table, lk: KeyFn, ls: multiset<Row>, f: Row -> multiset<Row>)
    requires Groups(t, lk, ls)
    ensures Bind(Keep(ls, KeyOutF(lk, t.Keys)), f) == multiset{}
  {
    hide Bind, WithKey;
    KeepNone(ls, KeyOutF(lk, t.Keys));
    BindEmpty(f);
  }

  lemma {:induction false} AllOut(lk: KeyFn, ls: multiset<Row>)
    ensures Keep(ls, KeyOutF(lk, {})) == ls
  {
    hide Bind;
    KeepAll(ls, KeyOutF(lk, {}));
  }

  // ---- the join ----

  lemma {:induction false} ProbeTotal(ty: JoinType, s: Sides, ls: multiset<Row>, rs: multiset<Row>)
    ensures JoinBag(ty, s, ls, rs) ==
            Bind(rs, ProbeF(ty, s, ls)) + (if ty.KeepsLeft() then Bind(ls, LeftAloneF(s, rs)) else multiset{})
  {
    hide Bind, PairsF, PairsOfF, RightAloneF, LeftAloneF, ProbeF;
    PairsSwap(s, ls, rs);
    ProbeIs(ty, s, ls, rs);
    var alone := if ty.KeepsLeft() then Bind(ls, LeftAloneF(s, rs)) else multiset{};
    if ty.KeepsRight() {
      BindSum(rs, PairsOfF(s, ls), RightAloneF(s, ls), ProbeF(ty, s, ls));
      SwapTail(Bind(rs, PairsOfF(s, ls)), alone, Bind(rs, RightAloneF(s, ls)));
    } else {
      BindCong(rs, PairsOfF(s, ls), ProbeF(ty, s, ls));
      SwapTail(Bind(rs, PairsOfF(s, ls)), alone, multiset{});
    }
  }

  lemma {:induction false} SwapTail(a: multiset<Row>, b: multiset<Row>, c: multiset<Row>)
    ensures a + b + c == a + c + b && a + multiset{} == a
  {}

  lemma {:induction false} ProbeIs(ty: JoinType, s: Sides, ls: multiset<Row>, rs: multiset<Row>)
    ensures forall r: Row :: r in rs ==>
              ProbeF(ty, s, ls)(r) == PairsOfF(s, ls)(r) +
                  (if ty.KeepsRight() then RightAloneF(s, ls)(r) else multiset{})
    ensures !ty.KeepsRight() ==> forall r: Row :: r in rs ==> PairsOfF(s, ls)(r) == ProbeF(ty, s, ls)(r)
  {
    hide Bind, PairsOfF, RightAloneF;
  }

  /** Hash join returns the join of the rows of its inputs, however they are chunked, in
      full chunks. */
  method HashJoin(ty: JoinType, s: Sides, left: seq<seq<Row>>, right: seq<seq<Row>>) returns (out: seq<seq<Row>>)
    ensures multiset(Flatten(out)) == JoinBag(ty, s, multiset(Flatten(left)), multiset(Flatten(right)))
    ensures Chunked(out, WINDOW)
  {
    hide Bind, Flatten, Full, Groups, Marks, ProbeF, LeftAloneF, JoinBag;
    ghost var ls, rs := multiset(Flatten(left)), multiset(Flatten(right));
    var t := BuildTable(s.lk, left);
    NoMarks(t, s.lk, s.rk);
    var o := new Output();
    t := Probe(ty, s, t, right, o, ls);
    ProbeTotal(ty, s, ls, rs);
    if ty.KeepsLeft() {
      PushUnmatched(s, t, o, ls, rs);
    }
    out := o.Close();
  }
}
