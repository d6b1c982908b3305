/** Merge join: both sides grouped by key and advanced in step. */
module MergeJoins {
  import opened Common
  import opened Bags
  import opened Orders
  import opened Chunks
  import opened JoinSpecs
  import opened Grouping

  /** Everything one left row contributes. */
  ghost function LeftF(ty: JoinType, s: Sides, rs: multiset<Row>): Row -> multiset<Row> {
    (l: Row) => PairsF(s, rs)(l) + (if ty.KeepsLeft() then LeftAloneF(s, rs)(l) else multiset{})
  }

  /** Everything one right row contributes beyond its pairs. */
  ghost function RightF(ty: JoinType, s: Sides, ls: multiset<Row>): Row -> multiset<Row> {
    (r: Row) => if ty.KeepsRight() then RightAloneF(s, ls)(r) else multiset{}
  }

  lemma {:induction false} LeftParts(ty: JoinType, s: Sides, ls: multiset<Row>, rs: multiset<Row>)
    ensures Bind(ls, LeftF(ty, s, rs)) ==
            Bind(ls, PairsF(s, rs)) + (if ty.KeepsLeft() then Bind(ls, LeftAloneF(s, rs)) else multiset{})
  {
    hide Bind, PairsF, LeftAloneF;
    if ty.KeepsLeft() {
      BindSum(ls, PairsF(s, rs), LeftAloneF(s, rs), LeftF(ty, s, rs));
    } else {
      BindCong(ls, PairsF(s, rs), LeftF(ty, s, rs));
    }
  }

  lemma {:induction false} RightParts(ty: JoinType, s: Sides, ls: multiset<Row>, rs: multiset<Row>)
    ensures Bind(rs, RightF(ty, s, ls)) == if ty.KeepsRight() then Bind(rs, RightAloneF(s, ls)) else multiset{}
  {
    hide Bind, RightAloneF;
    if ty.KeepsRight() {
      BindCong(rs, RightAloneF(s, ls), RightF(ty, s, ls));
    } else {
      BindNone(rs, RightF(ty, s, ls));
    }
  }

  lemma {:induction false} Total(ty: JoinType, s: Sides, ls: multiset<Row>, rs: multiset<Row>)
    ensures JoinBag(ty, s, ls, rs) == Bind(ls, LeftF(ty, s, rs)) + Bind(rs, RightF(ty, s, ls))
  {
    hide Bind, PairsF, LeftAloneF, RightAloneF, LeftF, RightF;
    LeftParts(ty, s, ls, rs);
    RightParts(ty, s, ls, rs);
  }

  /** What the loop has to have sent after the first groups of both sides. */
  ghost function Done(ty: JoinType, s: Sides, lg: seq<Group>, rg: seq<Group>, i: nat, j: nat): multiset<Row>
    requires i <= |lg| && j <= |rg|
  {
    Bind(GroupBag(lg[..i]), LeftF(ty, s, GroupBag(rg))) + Bind(GroupBag(rg[..j]), RightF(ty, s, GroupBag(lg)))
  }

  lemma {:induction false} DoneStart(ty: JoinType, s: Sides, lg: seq<Group>, rg: seq<Group>)
    ensures Done(ty, s, lg, rg, 0, 0) == multiset{}
  {
    hide Bind, LeftF, RightF;
    assert GroupBag(lg[..0]) == multiset{} && GroupBag(rg[..0]) == multiset{};
    BindEmpty(LeftF(ty, s, GroupBag(rg)));
    BindEmpty(RightF(ty, s, GroupBag(lg)));
  }

  lemma {:induction false} DoneEnd(ty: JoinType, s: Sides, lg: seq<Group>, rg: seq<Group>)
    ensures Done(ty, s, lg, rg, |lg|, |rg|) == JoinBag(ty, s, GroupBag(lg), GroupBag(rg))
  {
    hide Bind, LeftF, RightF, JoinBag;
    Total(ty, s, GroupBag(lg), GroupBag(rg));
    assert lg[..|lg|] == lg && rg[..|rg|] == rg;
  }

  lemma {:induction false} OneGroupMore(gs: seq<Group>, i: nat, f: Row -> multiset<Row>)
    requires i < |gs|
    ensures Bind(GroupBag(gs[..i + 1]), f) == Bind(GroupBag(gs[..i]), f) + Bind(multiset(gs[i].rows), f)
  {
    hide Bind, GroupRows;
    assert gs[..i + 1] == gs[..i] + [gs[i]];
    GroupRowsSnoc(gs[..i], gs[i]);
    BindUnion(GroupBag(gs[..i]), multiset(gs[i].rows), f);
  }

  lemma {:induction false} LeftStep(ty: JoinType, s: Sides, lg: seq<Group>, rg: seq<Group>, i: nat, j: nat)
    requires i < |lg| && j <= |rg|
    ensures Done(ty, s, lg, rg, i + 1, j) ==
            Done(ty, s, lg, rg, i, j) + Bind(multiset(lg[i].rows), LeftF(ty, s, GroupBag(rg)))
  {
    hide Bind, LeftF, RightF, GroupBag;
    OneGroupMore(lg, i, LeftF(ty, s, GroupBag(rg)));
  }

  lemma {:induction false} RightStep(ty: JoinType, s: Sides, lg: seq<Group>, rg: seq<Group>, i: nat, j: nat)
    requires i <= |lg| && j < |rg|
    ensures Done(ty, s, lg, rg, i, j + 1) ==
            Done(ty, s, lg, rg, i, j) + Bind(multiset(rg[j].rows), RightF(ty, s, GroupBag(lg)))
  {
    hide Bind, LeftF, RightF, GroupBag;
    OneGroupMore(rg, j, RightF(ty, s, GroupBag(lg)));
  }

  /** A left row joined to each of these right rows. */
  ghost function CrossF(rows: seq<Row>): Row -> multiset<Row> {
    (l: Row) => Bind(multiset(rows), BeforeF(l))
  }

  method PushBefore(o: Output, l: Row, rs: seq<Row>)
    requires o.Valid()
    modifies o, o.builder
    ensures o.Valid() && multiset(o.Sent()) == multiset(old(o.Sent())) + Bind(multiset(rs), BeforeF(l))
  {
    hide Bind, Flatten, Full;
    BindEmpty(BeforeF(l));
    ghost var before := multiset(o.Sent());
    for i := 0 to |rs|
      invariant o.Valid() && multiset(o.Sent()) == before + Bind(multiset(rs[..i]), BeforeF(l))
    {
      BagSnoc(rs, i, BeforeF(l));
      o.Push(l + rs[i]);
    }
    assert rs[..|rs|] == rs;
  }

  /** Every pair of a left and a right row of two groups. */
  method PushCross(o: Output, ls: seq<Row>, rs: seq<Row>)
    requires o.Valid()
    modifies o, o.builder
    ensures o.Valid() && multiset(o.Sent()) == multiset(old(o.Sent())) + Bind(multiset(ls), CrossF(rs))
  {
    hide Bind, Flatten, Full, BeforeF;
    BindEmpty(CrossF(rs));
    ghost var before := multiset(o.Sent());
    for i := 0 to |ls|
      invariant o.Valid() && multiset(o.Sent()) == before + Bind(multiset(ls[..i]), CrossF(rs))
    {
      BagSnoc(ls, i, CrossF(rs));
      PushBefore(o, ls[i], rs);
    }
    assert ls[..|ls|] == ls;
  }

  // ---- what a group contributes ----

  lemma {:induction false} LeftMatched(ty: JoinType, s: Sides, lg: seq<Group>, rg: seq<Group>, i: nat, j: nat)
    requires Sound(s, lg, rg) && i < |lg| && j < |rg| && lg[i].key == rg[j].key
    ensures Bind(multiset(lg[i].rows), LeftF(ty, s, GroupBag(rg))) == Bind(multiset(lg[i].rows), CrossF(rg[j].rows))
    ensures Bind(multiset(rg[j].rows), RightF(ty, s, GroupBag(lg))) == multiset{}
  {
    hide Bind, CrossF, LeftF, RightF, GroupBag, Ascending;
    var key := lg[i].key;
    AscendingDistinct(rg, j);
    RowsOfKey(rg, s.rk, j);
    HasGroupKey(rg, s.rk, j);
    HasGroupKey(lg, s.lk, i);
    forall l | l in multiset(lg[i].rows) ensures LeftF(ty, s, GroupBag(rg))(l) == CrossF(rg[j].rows)(l) {
      assert IsGroup(lg[i], s.lk);
      LeftMatchedRow(ty, s, l, GroupBag(rg), rg[j].rows);
    }
    BindCong(multiset(lg[i].rows), LeftF(ty, s, GroupBag(rg)), CrossF(rg[j].rows));
    forall r | r in multiset(rg[j].rows) ensures RightF(ty, s, GroupBag(lg))(r) == multiset{} {
      assert IsGroup(rg[j], s.rk);
      RightMatchedRow(ty, s, r, GroupBag(lg));
    }
    BindNone(multiset(rg[j].rows), RightF(ty, s, GroupBag(lg)));
  }

  lemma {:induction false} LeftMatchedRow(ty: JoinType, s: Sides, l: Row, rs: multiset<Row>, group: seq<Row>)
    requires WithKey(s.rk, rs, s.lk(l)) == multiset(group) && HasKey(s.rk, rs, s.lk(l))
    ensures LeftF(ty, s, rs)(l) == CrossF(group)(l)
  {
    hide Bind, HasKey, WithKey, BeforeF, PairsF, Nulls;
    PairsByKey(s, l, rs);
    assert LeftAloneF(s, rs)(l) == multiset{};
  }

  lemma {:induction false} RightMatchedRow(ty: JoinType, s: Sides, r: Row, ls: multiset<Row>)
    requires HasKey(s.lk, ls, s.rk(r))
    ensures RightF(ty, s, ls)(r) == multiset{}
  {
    hide HasKey, Nulls;
    assert RightAloneF(s, ls)(r) == multiset{};
  }

  lemma {:induction false} LeftAlone(ty: JoinType, s: Sides, g: Group, rs: multiset<Row>)
    requires IsGroup(g, s.lk) && !HasKey(s.rk, rs, g.key)
    ensures Bind(multiset(g.rows), LeftF(ty, s, rs)) ==
            if ty.KeepsLeft() then Bind(multiset(g.rows), PadRightF(s.rn)) else multiset{}
  {
    hide Bind, HasKey, LeftF, PadRightF;
    var rows := multiset(g.rows);
    forall l | l in rows
      ensures LeftF(ty, s, rs)(l) == if ty.KeepsLeft() then PadRightF(s.rn)(l) else multiset{}
    {
      LeftAloneRow(ty, s, l, rs);
    }
    if ty.KeepsLeft() {
      BindCong(rows, LeftF(ty, s, rs), PadRightF(s.rn));
    } else {
      BindNone(rows, LeftF(ty, s, rs));
    }
  }

  lemma {:induction false} LeftAloneRow(ty: JoinType, s: Sides, l: Row, rs: multiset<Row>)
    requires !HasKey(s.rk, rs, s.lk(l))
    ensures LeftF(ty, s, rs)(l) == if ty.KeepsLeft() then PadRightF(s.rn)(l) else multiset{}
  {
    hide Bind, HasKey, WithKey, BeforeF, PairsF;
    PairsByKey(s, l, rs);
    WithKeyEmpty(s.rk, rs, s.lk(l));
    BindEmpty(BeforeF(l));
  }

  lemma {:induction false} RightAloneRow(ty: JoinType, s: Sides, r: Row, ls: multiset<Row>)
    requires !HasKey(s.lk, ls, s.rk(r))
    ensures RightF(ty, s, ls)(r) == if ty.KeepsRight() then PadLeftF(s.ln)(r) else multiset{}
  {
    hide HasKey, Nulls;
    assert RightAloneF(s, ls)(r) == PadLeftF(s.ln)(r);
  }

  lemma {:induction false} RightAlone(ty: JoinType, s: Sides, g: Group, ls: multiset<Row>)
    requires IsGroup(g, s.rk) && !HasKey(s.lk, ls, g.key)
    ensures Bind(multiset(g.rows), RightF(ty, s, ls)) ==
            if ty.KeepsRight() then Bind(multiset(g.rows), PadLeftF(s.ln)) else multiset{}
  {
    hide Bind, HasKey, RightF, PadLeftF;
    var rows := multiset(g.rows);
    forall r | r in rows
      ensures RightF(ty, s, ls)(r) == if ty.KeepsRight() then PadLeftF(s.ln)(r) else multiset{}
    {
      RightAloneRow(ty, s, r, ls);
    }
    if ty.KeepsRight() {
      BindCong(rows, RightF(ty, s, ls), PadLeftF(s.ln));
    } else {
      BindNone(rows, RightF(ty, s, ls));
    }
  }

  // ---- the two cursors ----

  /** Both sides are groups with strictly ascending keys. */
  ghost predicate Sound(s: Sides, lg: seq<Group>, rg: seq<Group>) {
    && (forall i :: 0 <= i < |lg| ==> IsGroup(lg[i], s.lk))
    && (forall j :: 0 <= j < |rg| ==> IsGroup(rg[j], s.rk))
    && Ascending(lg) && Ascending(rg)
  }

  /** The groups of `a` before `i` come before the groups of `b` from `j` on. */
  ghost predicate Passed(a: seq<Group>, i: nat, b: seq<Group>, j: nat) {
    forall x, y :: 0 <= x < i <= |a| && j <= y < |b| ==> Cmp(a[x].key, b[y].key) == Less
  }

  lemma {:induction false} AscendingDistinct(gs: seq<Group>, j: nat)
    requires Ascending(gs) && j < |gs|
    ensures forall i :: 0 <= i < |gs| && i != j ==> gs[i].key != gs[j].key
  {
    hide Cmp;
    forall i | 0 <= i < |gs| && i != j ensures gs[i].key != gs[j].key {
      CmpEqual(gs[i].key, gs[j].key);
      CmpEqual(gs[j].key, gs[i].key);
    }
  }

  lemma {:induction false} HasGroupKey(gs: seq<Group>, k: KeyFn, j: nat)
    requires (forall i :: 0 <= i < |gs| ==> IsGroup(gs[i], k)) && j < |gs|
    ensures HasKey(k, GroupBag(gs), gs[j].key)
  {
    hide GroupRows;
    assert IsGroup(gs[j], k);
    var r := gs[j].rows[0];
    RowOfGroup(gs, j, r);
    assert r in GroupBag(gs);
  }

  lemma {:induction false} NoGroupKey(gs: seq<Group>, k: KeyFn, key: Row)
    requires forall i :: 0 <= i < |gs| ==> IsGroup(gs[i], k) && gs[i].key != key
    ensures !HasKey(k, GroupBag(gs), key)
  {
    hide GroupBag, WithKey, HasKey;
    NotAmong(gs, k, key);
    WithKeyEmpty(k, GroupBag(gs), key);
  }

  /** A group key below all keys not yet passed on the other side, and above all passed
      ones, does not occur there. */
  lemma {:induction false} NoPartner(a: seq<Group>, i: nat, b: seq<Group>, j: nat, k: KeyFn)
    requires i < |a| && j <= |b| && Passed(b, j, a, i) && Ascending(b)
    requires forall y :: 0 <= y < |b| ==> IsGroup(b[y], k)
    requires j < |b| ==> Cmp(a[i].key, b[j].key) == Less
    ensures !HasKey(k, GroupBag(b), a[i].key)
    ensures Passed(a, i, b, j) ==> Passed(a, i + 1, b, j)
  {
    hide Cmp, HasKey, GroupBag;
    forall y | 0 <= y < |b| ensures b[y].key != a[i].key && (y >= j ==> Cmp(a[i].key, b[y].key) == Less) {
      if y > j {
        LeTransitive(a[i].key, b[j].key, b[y].key);
      }
      CmpEqual(a[i].key, b[y].key);
      CmpEqual(b[y].key, a[i].key);
    }
    NoGroupKey(b, k, a[i].key);
  }

  lemma {:induction false} StepBoth(a: seq<Group>, i: nat, b: seq<Group>, j: nat)
    requires i < |a| && j < |b| && Ascending(a) && Ascending(b) && Passed(a, i, b, j) && a[i].key == b[j].key
    ensures Passed(a, i + 1, b, j + 1)
  {
    hide Cmp;
  }

  method PushLeftAlone(ty: JoinType, s: Sides, o: Output, g: Group, ghost rs: multiset<Row>)
    requires o.Valid() && IsGroup(g, s.lk) && !HasKey(s.rk, rs, g.key)
    modifies o, o.builder
    ensures o.Valid() && multiset(o.Sent()) == multiset(old(o.Sent())) + Bind(multiset(g.rows), LeftF(ty, s, rs))
  {
    hide Bind, LeftF, HasKey, Flatten, Full;
    LeftAlone(ty, s, g, rs);
    if ty.KeepsLeft() {
      PushPadRight(o, g.rows, s.rn);
    }
  }

  method PushRightAlone(ty: JoinType, s: Sides, o: Output, g: Group, ghost ls: multiset<Row>)
    requires o.Valid() && IsGroup(g, s.rk) && !HasKey(s.lk, ls, g.key)
    modifies o, o.builder
    ensures o.Valid() && multiset(o.Sent()) == multiset(old(o.Sent())) + Bind(multiset(g.rows), RightF(ty, s, ls))
  {
    hide Bind, RightF, HasKey, Flatten, Full;
    RightAlone(ty, s, g, ls);
    if ty.KeepsRight() {
      PushPadLeft(o, g.rows, s.ln);
    }
  }

  method MergeGroups(ty: JoinType, s: Sides, lg: seq<Group>, rg: seq<Group>, o: Output)
    requires o.Valid() && o.Sent() == [] && Sound(s, lg, rg)
    modifies o, o.builder
    ensures o.Valid() && multiset(o.Sent()) == JoinBag(ty, s, GroupBag(lg), GroupBag(rg))
  {
    hide Bind, LeftF, RightF, GroupBag, JoinBag, Done, Flatten, Full, IsGroup, Ascending, Passed, Cmp, HasKey, CrossF;
    DoneStart(ty, s, lg, rg);
    DoneEnd(ty, s, lg, rg);
    var i, j := 0, 0;
    PassedNone(lg, rg);
    while true
      invariant 0 <= i <= |lg| && 0 <= j <= |rg| && o.Valid()
      invariant Passed(lg, i, rg, j) && Passed(rg, j, lg, i)
      invariant multiset(o.Sent()) == Done(ty, s, lg, rg, i, j)
      decreases |lg| - i + |rg| - j
    {
      if i < |lg| && j < |rg| && lg[i].key == rg[j].key {
        StepBoth(lg, i, rg, j);
        StepBoth(rg, j, lg, i);
        LeftStep(ty, s, lg, rg, i, j);
        RightStep(ty, s, lg, rg, i + 1, j);
        LeftMatched(ty, s, lg, rg, i, j);
        PushCross(o, lg[i].rows, rg[j].rows);
        i, j := i + 1, j + 1;
      } else if i < |lg| && (j == |rg| || Cmp(lg[i].key, rg[j].key) == Less) {
        NoPartner(lg, i, rg, j, s.rk);
        PassedMore(rg, j, lg, i);
        LeftStep(ty, s, lg, rg, i, j);
        PushLeftAlone(ty, s, o, lg[i], GroupBag(rg));
        i := i + 1;
      } else if j < |rg| && (i == |lg| || Cmp(lg[i].key, rg[j].key) == Greater) {
        if i < |lg| {
          CmpFlip(lg[i].key, rg[j].key);
        }
        NoPartner(rg, j, lg, i, s.lk);
        PassedMore(lg, i, rg, j);
        RightStep(ty, s, lg, rg, i, j);
        PushRightAlone(ty, s, o, rg[j], GroupBag(lg));
        j := j + 1;
      } else {
        if i < |lg| && j < |rg| {
          CmpEqual(lg[i].key, rg[j].key);
        }
        break;
      }
    }
  }

  lemma {:induction false} PassedNone(a: seq<Group>, b: seq<Group>)
    ensures Passed(a, 0, b, 0) && Passed(b, 0, a, 0)
  {}

  lemma {:induction false} PassedMore(a: seq<Group>, i: nat, b: seq<Group>, j: nat)
    requires Passed(a, i, b, j)
    ensures Passed(a, i, b, j + 1)
  {
    hide Cmp;
  }

  /** Over inputs sorted by a non-empty key list, merge join returns the join of their rows,
      however they are chunked.  Over an empty key list it returns nothing. */
  method MergeJoin(ty: JoinType, s: Sides, left: seq<seq<Row>>, right: seq<seq<Row>>) returns (out: seq<seq<Row>>)
    requires SortedBy(s.lk, Flatten(left)) && SortedBy(s.rk, Flatten(right))
    requires
      || (NoEmptyKey(s.lk, Flatten(left)) && NoEmptyKey(s.rk, Flatten(right)))
      || (OnlyEmptyKeys(s.lk, Flatten(left)) && OnlyEmptyKeys(s.rk, Flatten(right)))
    ensures NoEmptyKey(s.lk, Flatten(left)) && NoEmptyKey(s.rk, Flatten(right)) ==>
              multiset(Flatten(out)) == JoinBag(ty, s, multiset(Flatten(left)), multiset(Flatten(right)))
    ensures OnlyEmptyKeys(s.lk, Flatten(left)) && OnlyEmptyKeys(s.rk, Flatten(right)) ==> out == []
    ensures Chunked(out, WINDOW)
  {
    hide Flatten, JoinBag, Full, SortedBy, Ascending, NoEmptyKey, OnlyEmptyKeys, GroupRows, IsGroup;
    var lg := GroupByKeys(s.lk, left);
    var rg := GroupByKeys(s.rk, right);
    var o := new Output();
    if NoEmptyKey(s.lk, Flatten(left)) && NoEmptyKey(s.rk, Flatten(right)) {
      SortedAscends(lg, s.lk, Flatten(left));
      SortedAscends(rg, s.rk, Flatten(right));
    } else {
      EmptyAscends();
    }
    MergeGroups(ty, s, lg, rg, o);
    out := o.Close();
    if lg == [] && rg == [] {
      EmptyJoin(ty, s);
      NothingSent(out);
    }
  }

  lemma {:induction false} EmptyJoin(ty: JoinType, s: Sides)
    ensures JoinBag(ty, s, GroupBag([]), GroupBag([])) == multiset{}
  {
    hide Bind, PairsF, LeftAloneF, RightAloneF;
    BindEmpty(PairsF(s, multiset{}));
    BindEmpty(LeftAloneF(s, multiset{}));
    BindEmpty(RightAloneF(s, multiset{}));
  }

  lemma {:induction false} EmptyAscends()
    ensures Ascending([])
  {}

  lemma {:induction false} NothingSent(out: seq<seq<Row>>)
    requires Chunked(out, WINDOW)
    ensures out != [] ==> multiset(Flatten(out)) != multiset{}
  {
    if out != [] {
      var n := |out| - 1;
      assert out == out[..n] + [out[n]];
      FlattenSnoc(out[..n], out[n]);
      assert out[n][0] in multiset(Flatten(out));
    }
  }
}
