/** The key-based joins let null match null: what SQL wants instead, and exactly when it comes to the same. */
module SqlJoins {
  import opened Common
  import opened Bags
  import opened JoinSpecs

  // ---- the join that SQL asks for ----

  predicate SqlEqual(a: Row, b: Row) {
    a == b && Null !in a
  }

  ghost function SqlF(s: Sides, l: Row): Row -> multiset<Row> {
    (r: Row) => if SqlEqual(s.lk(l), s.rk(r)) then multiset{l + r} else multiset{}
  }

  ghost function SqlPairsF(s: Sides, rs: multiset<Row>): Row -> multiset<Row> {
    (l: Row) => Bind(rs, SqlF(s, l))
  }

  ghost predicate PartnerRight(s: Sides, l: Row, rs: multiset<Row>) {
    exists r :: r in rs && SqlEqual(s.lk(l), s.rk(r))
  }

  ghost predicate PartnerLeft(s: Sides, r: Row, ls: multiset<Row>) {
    exists l :: l in ls && SqlEqual(s.lk(l), s.rk(r))
  }

  ghost function SqlLeftAloneF(s: Sides, rs: multiset<Row>): Row -> multiset<Row> {
    (l: Row) => if PartnerRight(s, l, rs) then multiset{} else multiset{l + Nulls(s.rn)}
  }

  ghost function SqlRightAloneF(s: Sides, ls: multiset<Row>): Row -> multiset<Row> {
    (r: Row) => if PartnerLeft(s, r, ls) then multiset{} else multiset{Nulls(s.ln) + r}
  }

  ghost function SqlJoinBag(ty: JoinType, s: Sides, ls: multiset<Row>, rs: multiset<Row>): multiset<Row> {
    Bind(ls, SqlPairsF(s, rs))
    + (if ty.KeepsLeft() then Bind(ls, SqlLeftAloneF(s, rs)) else multiset{})
    + (if ty.KeepsRight() then Bind(rs, SqlRightAloneF(s, ls)) else multiset{})
  }

  // ---- the difference: null pairs on one side, unmatched rows on the other ----

  predicate NullMatch(s: Sides, l: Row, r: Row) {
    s.lk(l) == s.rk(r) && Null in s.lk(l)
  }

  ghost function NullMatchF(s: Sides, l: Row): Row -> multiset<Row> {
    (r: Row) => if NullMatch(s, l, r) then multiset{l + r} else multiset{}
  }

  ghost function NullPairsF(s: Sides, rs: multiset<Row>): Row -> multiset<Row> {
    (l: Row) => Bind(rs, NullMatchF(s, l))
  }

  /** Rows that find a partner only because null matches null. */
  ghost predicate NullPartnerRight(s: Sides, l: Row, rs: multiset<Row>) {
    exists r :: r in rs && NullMatch(s, l, r)
  }

  ghost predicate NullPartnerLeft(s: Sides, r: Row, ls: multiset<Row>) {
    exists l :: l in ls && NullMatch(s, l, r)
  }

  ghost function LostLeftF(s: Sides, rs: multiset<Row>): Row -> multiset<Row> {
    (l: Row) => if NullPartnerRight(s, l, rs) then multiset{l + Nulls(s.rn)} else multiset{}
  }

  ghost function LostRightF(s: Sides, ls: multiset<Row>): Row -> multiset<Row> {
    (r: Row) => if NullPartnerLeft(s, r, ls) then multiset{Nulls(s.ln) + r} else multiset{}
  }

  ghost function Lost(ty: JoinType, s: Sides, ls: multiset<Row>, rs: multiset<Row>): multiset<Row> {
    (if ty.KeepsLeft() then Bind(ls, LostLeftF(s, rs)) else multiset{})
    + (if ty.KeepsRight() then Bind(rs, LostRightF(s, ls)) else multiset{})
  }

  lemma {:induction false} PairsSplit(s: Sides, ls: multiset<Row>, rs: multiset<Row>)
    ensures Bind(ls, PairsF(s, rs)) == Bind(ls, SqlPairsF(s, rs)) + Bind(ls, NullPairsF(s, rs))
  {
    hide Bind, SqlF, NullMatchF, MatchF;
    forall l | l in ls ensures PairsF(s, rs)(l) == SqlPairsF(s, rs)(l) + NullPairsF(s, rs)(l) {
      RowSplit(s, l, rs);
    }
    BindSum(ls, SqlPairsF(s, rs), NullPairsF(s, rs), PairsF(s, rs));
  }

  lemma {:induction false} RowSplit(s: Sides, l: Row, rs: multiset<Row>)
    ensures Bind(rs, MatchF(s, l)) == Bind(rs, SqlF(s, l)) + Bind(rs, NullMatchF(s, l))
  {
    hide Bind, SqlF, NullMatchF, MatchF;
    forall r | r in rs ensures MatchF(s, l)(r) == SqlF(s, l)(r) + NullMatchF(s, l)(r) {
      PairSplit(s, l, r);
    }
    BindSum(rs, SqlF(s, l), NullMatchF(s, l), MatchF(s, l));
  }

  lemma {:induction false} PairSplit(s: Sides, l: Row, r: Row)
    ensures MatchF(s, l)(r) == SqlF(s, l)(r) + NullMatchF(s, l)(r)
  {
    if s.lk(l) == s.rk(r) {
      if Null in s.lk(l) {
        assert SqlF(s, l)(r) == multiset{} && NullMatchF(s, l)(r) == multiset{l + r};
      } else {
        assert SqlF(s, l)(r) == multiset{l + r} && NullMatchF(s, l)(r) == multiset{};
      }
    } else {
      assert SqlF(s, l)(r) == multiset{} && NullMatchF(s, l)(r) == multiset{};
    }
  }

  lemma {:induction false} LeftPartners(s: Sides, l: Row, rs: multiset<Row>)
    ensures HasKey(s.rk, rs, s.lk(l)) <==> PartnerRight(s, l, rs) || NullPartnerRight(s, l, rs)
    ensures !(PartnerRight(s, l, rs) && NullPartnerRight(s, l, rs))
  {
    if HasKey(s.rk, rs, s.lk(l)) {
      var r :| r in rs && s.rk(r) == s.lk(l);
      assert SqlEqual(s.lk(l), s.rk(r)) || NullMatch(s, l, r);
    }
  }

  lemma {:induction false} RightPartners(s: Sides, r: Row, ls: multiset<Row>)
    ensures HasKey(s.lk, ls, s.rk(r)) <==> PartnerLeft(s, r, ls) || NullPartnerLeft(s, r, ls)
    ensures !(PartnerLeft(s, r, ls) && NullPartnerLeft(s, r, ls))
  {
    if HasKey(s.lk, ls, s.rk(r)) {
      var l :| l in ls && s.lk(l) == s.rk(r);
      assert SqlEqual(s.lk(l), s.rk(r)) || NullMatch(s, l, r);
    }
  }

  lemma {:induction false} LeftAloneRow(s: Sides, l: Row, rs: multiset<Row>)
    ensures SqlLeftAloneF(s, rs)(l) == LeftAloneF(s, rs)(l) + LostLeftF(s, rs)(l)
  {
    hide Nulls, HasKey, PartnerRight, NullPartnerRight;
    LeftPartners(s, l, rs);
  }

  lemma {:induction false} RightAloneRow(s: Sides, r: Row, ls: multiset<Row>)
    ensures SqlRightAloneF(s, ls)(r) == RightAloneF(s, ls)(r) + LostRightF(s, ls)(r)
  {
    hide Nulls, HasKey, PartnerLeft, NullPartnerLeft;
    RightPartners(s, r, ls);
  }

  lemma {:induction false} LeftAloneSplit(s: Sides, ls: multiset<Row>, rs: multiset<Row>)
    ensures Bind(ls, SqlLeftAloneF(s, rs)) == Bind(ls, LeftAloneF(s, rs)) + Bind(ls, LostLeftF(s, rs))
  {
    hide Bind, SqlLeftAloneF, LeftAloneF, LostLeftF;
    forall l | l in ls ensures SqlLeftAloneF(s, rs)(l) == LeftAloneF(s, rs)(l) + LostLeftF(s, rs)(l) {
      LeftAloneRow(s, l, rs);
    }
    BindSum(ls, LeftAloneF(s, rs), LostLeftF(s, rs), SqlLeftAloneF(s, rs));
  }

  lemma {:induction false} RightAloneSplit(s: Sides, ls: multiset<Row>, rs: multiset<Row>)
    ensures Bind(rs, SqlRightAloneF(s, ls)) == Bind(rs, RightAloneF(s, ls)) + Bind(rs, LostRightF(s, ls))
  {
    hide Bind, SqlRightAloneF, RightAloneF, LostRightF;
    forall r | r in rs ensures SqlRightAloneF(s, ls)(r) == RightAloneF(s, ls)(r) + LostRightF(s, ls)(r) {
      RightAloneRow(s, r, ls);
    }
    BindSum(rs, RightAloneF(s, ls), LostRightF(s, ls), SqlRightAloneF(s, ls));
  }

  /** The join is SQL's exactly when the null pairs make up for the rows that are no longer unmatched. */
  lemma {:induction false} SqlIffBalanced(ty: JoinType, s: Sides, ls: multiset<Row>, rs: multiset<Row>)
    ensures JoinBag(ty, s, ls, rs) == SqlJoinBag(ty, s, ls, rs) <==>
            Bind(ls, NullPairsF(s, rs)) == Lost(ty, s, ls, rs)
  {
    hide Bind, PairsF, LeftAloneF, RightAloneF, SqlPairsF, NullPairsF, SqlLeftAloneF, SqlRightAloneF, LostLeftF,
         LostRightF;
    PairsSplit(s, ls, rs);
    LeftAloneSplit(s, ls, rs);
    RightAloneSplit(s, ls, rs);
    var none: multiset<Row> := multiset{};
    var a, n := Bind(ls, SqlPairsF(s, rs)), Bind(ls, NullPairsF(s, rs));
    var l := if ty.KeepsLeft() then Bind(ls, LeftAloneF(s, rs)) else none;
    var r := if ty.KeepsRight() then Bind(rs, RightAloneF(s, ls)) else none;
    var x := if ty.KeepsLeft() then Bind(ls, LostLeftF(s, rs)) else none;
    var y := if ty.KeepsRight() then Bind(rs, LostRightF(s, ls)) else none;
    assert JoinBag(ty, s, ls, rs) == a + n + l + r;
    assert SqlJoinBag(ty, s, ls, rs) == a + (l + x) + (r + y);
    Balance(a, n, l, r, x, y);
  }

  lemma {:induction false} Balance(a: multiset<Row>, n: multiset<Row>, l: multiset<Row>, r: multiset<Row>,
                                   x: multiset<Row>, y: multiset<Row>)
    ensures a + n + l + r == a + (l + x) + (r + y) <==> n == x + y
  {
    var p, q := a + n + l + r, a + (l + x) + (r + y);
    if p == q {
      forall z: Row ensures n[z] == (x + y)[z] {
        assert p[z] == a[z] + n[z] + l[z] + r[z];
        assert q[z] == a[z] + (l[z] + x[z]) + (r[z] + y[z]);
      }
    }
  }

  // ---- counting row by row ----

  /** Every row has its side's number of columns. */
  ghost predicate Widths(s: Sides, ls: multiset<Row>, rs: multiset<Row>) {
    (forall l :: l in ls ==> |l| == s.ln) && (forall r :: r in rs ==> |r| == s.rn)
  }

  ghost function PairCount(s: Sides, ls: multiset<Row>, rs: multiset<Row>, x: Row, z: Row): nat {
    if NullMatch(s, x, z) then ls[x] * rs[z] else 0
  }

  ghost function LostCount(ty: JoinType, s: Sides, ls: multiset<Row>, rs: multiset<Row>, x: Row, z: Row): nat {
    (if ty.KeepsLeft() && z == Nulls(s.rn) && NullPartnerRight(s, x, rs) then ls[x] else 0)
    + (if ty.KeepsRight() && x == Nulls(s.ln) && NullPartnerLeft(s, z, ls) then rs[z] else 0)
  }

  lemma {:induction false} CountPairsOf(s: Sides, rs: multiset<Row>, x: Row, z: Row)
    ensures Bind(rs, NullMatchF(s, x))[x + z] == if NullMatch(s, x, z) then rs[z] else 0
  {
    hide Bind;
    forall r | r in rs && r != z ensures x + z !in NullMatchF(s, x)(r) {
      SplitAt(x, z, x, r);
    }
    BindCount(rs, NullMatchF(s, x), z, x + z);
    assert NullMatchF(s, x)(z)[x + z] == if NullMatch(s, x, z) then 1 else 0;
  }

  lemma {:induction false} PairsOfOthers(s: Sides, rs: multiset<Row>, l: Row, x: Row, z: Row)
    requires |l| == |x| && l != x
    ensures x + z !in NullPairsF(s, rs)(l)
  {
    hide Bind;
    BindMember(rs, NullMatchF(s, l), x + z);
    forall r | r in rs ensures x + z !in NullMatchF(s, l)(r) {
      SplitAt(x, z, l, r);
    }
  }

  lemma {:induction false} CountPairs(s: Sides, ls: multiset<Row>, rs: multiset<Row>, x: Row, z: Row)
    requires Widths(s, ls, rs) && |x| == s.ln
    ensures Bind(ls, NullPairsF(s, rs))[x + z] == PairCount(s, ls, rs, x, z)
  {
    hide Bind, NullMatchF;
    var f := NullPairsF(s, rs);
    assert f(x) == Bind(rs, NullMatchF(s, x));
    hide NullPairsF;
    forall l | l in ls && l != x ensures x + z !in f(l) {
      PairsOfOthers(s, rs, l, x, z);
    }
    BindCount(ls, f, x, x + z);
    CountPairsOf(s, rs, x, z);
  }

  lemma {:induction false} LostLeftHas(s: Sides, rs: multiset<Row>, l: Row, x: Row, z: Row)
    requires |l| == |x|
    ensures LostLeftF(s, rs)(l)[x + z] == if l == x && z == Nulls(s.rn) && NullPartnerRight(s, x, rs) then 1 else 0
  {
    hide Nulls, NullPartnerRight;
    SplitAt(x, z, l, Nulls(s.rn));
  }

  lemma {:induction false} LostRightHas(s: Sides, ls: multiset<Row>, r: Row, x: Row, z: Row)
    requires |x| == s.ln
    ensures LostRightF(s, ls)(r)[x + z] == if r == z && x == Nulls(s.ln) && NullPartnerLeft(s, z, ls) then 1 else 0
  {
    hide NullPartnerLeft;
    SplitAt(x, z, Nulls(s.ln), r);
  }

  lemma {:induction false} CountLostLeft(s: Sides, ls: multiset<Row>, rs: multiset<Row>, x: Row, z: Row)
    requires Widths(s, ls, rs) && |x| == s.ln
    ensures Bind(ls, LostLeftF(s, rs))[x + z] ==
            if z == Nulls(s.rn) && NullPartnerRight(s, x, rs) then ls[x] else 0
  {
    hide Bind, Nulls, NullPartnerRight, LostLeftF;
    forall l | l in ls && l != x ensures x + z !in LostLeftF(s, rs)(l) {
      LostLeftHas(s, rs, l, x, z);
    }
    BindCount(ls, LostLeftF(s, rs), x, x + z);
    LostLeftHas(s, rs, x, x, z);
  }

  lemma {:induction false} CountLostRight(s: Sides, ls: multiset<Row>, rs: multiset<Row>, x: Row, z: Row)
    requires |x| == s.ln
    ensures Bind(rs, LostRightF(s, ls))[x + z] ==
            if x == Nulls(s.ln) && NullPartnerLeft(s, z, ls) then rs[z] else 0
  {
    hide Bind, Nulls, NullPartnerLeft, LostRightF;
    forall r | r in rs && r != z ensures x + z !in LostRightF(s, ls)(r) {
      LostRightHas(s, ls, r, x, z);
    }
    BindCount(rs, LostRightF(s, ls), z, x + z);
    LostRightHas(s, ls, z, x, z);
  }

  lemma {:induction false} CountLost(ty: JoinType, s: Sides, ls: multiset<Row>, rs: multiset<Row>, x: Row, z: Row)
    requires Widths(s, ls, rs) && |x| == s.ln
    ensures Lost(ty, s, ls, rs)[x + z] == LostCount(ty, s, ls, rs, x, z)
  {
    hide Bind, Nulls, NullPartnerLeft, NullPartnerRight, LostLeftF, LostRightF;
    CountLostLeft(s, ls, rs, x, z);
    CountLostRight(s, ls, rs, x, z);
  }

  ghost predicate CountsAgree(ty: JoinType, s: Sides, ls: multiset<Row>, rs: multiset<Row>) {
    forall x, z :: PairCount(s, ls, rs, x, z) == LostCount(ty, s, ls, rs, x, z)
  }

  lemma {:induction false} LongPair(s: Sides, rs: multiset<Row>, l: Row, y: Row)
    ensures y in NullPairsF(s, rs)(l) ==> |y| >= |l|
  {
    hide Bind;
    BindMember(rs, NullMatchF(s, l), y);
  }

  lemma {:induction false} LongPairs(s: Sides, ls: multiset<Row>, rs: multiset<Row>, y: Row)
    requires Widths(s, ls, rs) && y in Bind(ls, NullPairsF(s, rs))
    ensures |y| >= s.ln
  {
    hide Bind, NullPairsF;
    BindMember(ls, NullPairsF(s, rs), y);
    var l :| l in ls && y in NullPairsF(s, rs)(l);
    LongPair(s, rs, l, y);
  }

  lemma {:induction false} LongLostLeft(s: Sides, ls: multiset<Row>, rs: multiset<Row>, y: Row)
    requires Widths(s, ls, rs) && y in Bind(ls, LostLeftF(s, rs))
    ensures |y| >= s.ln
  {
    hide Bind, NullPartnerRight;
    BindMember(ls, LostLeftF(s, rs), y);
  }

  lemma {:induction false} LongLostRight(s: Sides, ls: multiset<Row>, rs: multiset<Row>, y: Row)
    requires y in Bind(rs, LostRightF(s, ls))
    ensures |y| >= s.ln
  {
    hide Bind, NullPartnerLeft;
    BindMember(rs, LostRightF(s, ls), y);
  }

  lemma {:induction false} LongEnough(ty: JoinType, s: Sides, ls: multiset<Row>, rs: multiset<Row>, y: Row)
    requires Widths(s, ls, rs)
    requires y in Bind(ls, NullPairsF(s, rs)) || y in Lost(ty, s, ls, rs)
    ensures |y| >= s.ln
  {
    hide Bind, NullPairsF, LostLeftF, LostRightF, Widths;
    if y in Bind(ls, NullPairsF(s, rs)) {
      LongPairs(s, ls, rs, y);
    } else if y in Bind(ls, LostLeftF(s, rs)) {
      LongLostLeft(s, ls, rs, y);
    } else {
      LongLostRight(s, ls, rs, y);
    }
  }

  lemma {:induction false} NoCount(ty: JoinType, s: Sides, ls: multiset<Row>, rs: multiset<Row>, x: Row, z: Row)
    requires Widths(s, ls, rs) && |x| != s.ln
    ensures PairCount(s, ls, rs, x, z) == LostCount(ty, s, ls, rs, x, z)
  {
    assert x !in ls && ls[x] == 0;
  }

  lemma {:induction false} BalancedIffCounts(ty: JoinType, s: Sides, ls: multiset<Row>, rs: multiset<Row>)
    requires Widths(s, ls, rs)
    ensures Bind(ls, NullPairsF(s, rs)) == Lost(ty, s, ls, rs) <==> CountsAgree(ty, s, ls, rs)
  {
    hide Bind, Lost, LostCount, PairCount, NullPairsF, Widths;
    var a, b := Bind(ls, NullPairsF(s, rs)), Lost(ty, s, ls, rs);
    forall x: Row, z: Row
      ensures |x| == s.ln ==> a[x + z] == PairCount(s, ls, rs, x, z) && b[x + z] == LostCount(ty, s, ls, rs, x, z)
      ensures |x| != s.ln ==> PairCount(s, ls, rs, x, z) == LostCount(ty, s, ls, rs, x, z)
    {
      if |x| == s.ln {
        CountPairs(s, ls, rs, x, z);
        CountLost(ty, s, ls, rs, x, z);
      } else {
        NoCount(ty, s, ls, rs, x, z);
      }
    }
    if CountsAgree(ty, s, ls, rs) {
      forall y: Row ensures a[y] == b[y] {
        if y in a || y in b {
          LongEnough(ty, s, ls, rs, y);
          assert y == y[..s.ln] + y[s.ln..];
          assert PairCount(s, ls, rs, y[..s.ln], y[s.ln..]) == LostCount(ty, s, ls, rs, y[..s.ln], y[s.ln..]);
        }
      }
    }
  }

  // ---- the exact condition ----

  /** What the rows of a shared null key must be for the join to come out as SQL's: nothing will do for
      an inner join; the kept side's partner must be one all-null row; and a full join needs two all-null
      rows on each side. */
  ghost predicate Harmless(ty: JoinType, s: Sides, ls: multiset<Row>, rs: multiset<Row>, key: Row) {
    var nl, nr := Nulls(s.ln), Nulls(s.rn);
    match ty
    case Inner => false
    case LeftOuter => WithKey(s.rk, rs, key) == multiset{nr}
    case RightOuter => WithKey(s.lk, ls, key) == multiset{nl}
    case FullOuter => WithKey(s.lk, ls, key) == multiset{nl, nl} && WithKey(s.rk, rs, key) == multiset{nr, nr}
  }

  ghost predicate OnlyHarmless(ty: JoinType, s: Sides, ls: multiset<Row>, rs: multiset<Row>) {
    forall l, r :: l in ls && r in rs && NullMatch(s, l, r) ==> Harmless(ty, s, ls, rs, s.lk(l))
  }

  lemma {:induction false} WithKeyCount(k: KeyFn, rows: multiset<Row>, key: Row, x: Row)
    ensures WithKey(k, rows, key)[x] == if k(x) == key then rows[x] else 0
  {
    hide Bind;
    KeepCount(rows, KeyIsF(k, key), x);
  }

  /** One row, a number of times, is all there is with a key. */
  ghost predicate AllWithKey(k: KeyFn, rows: multiset<Row>, key: Row, x: Row, n: nat) {
    rows[x] == n && forall y :: y in rows && k(y) == key ==> y == x
  }

  lemma {:induction false} WithKeyIs(k: KeyFn, rows: multiset<Row>, key: Row, x: Row, n: nat)
    requires k(x) == key
    ensures WithKey(k, rows, key) == multiset{}[x := n] <==> AllWithKey(k, rows, key, x, n)
  {
    hide WithKey;
    var w := WithKey(k, rows, key);
    forall y ensures w[y] == if k(y) == key then rows[y] else 0 {
      WithKeyCount(k, rows, key, y);
    }
    if w == multiset{}[x := n] {
      assert w[x] == n;
      forall y | y in rows && k(y) == key ensures y == x {
        assert w[y] > 0;
      }
    }
    if AllWithKey(k, rows, key, x, n) {
      forall y: Row ensures w[y] == multiset{}[x := n][y] {}
    }
  }

  lemma {:induction false} Twice(x: Row)
    ensures multiset{x, x} == multiset{}[x := 2] && multiset{x} == multiset{}[x := 1]
  {}

  lemma {:induction false} SameFactor(a: nat, b: nat)
    requires a > 0
    ensures a * b == a <==> b == 1
  {
    if b == 0 {
      assert a * b == 0;
    } else if b > 1 {
      assert a * b >= a * 2;
    }
  }

  lemma {:induction false} Positive(a: nat, b: nat)
    requires a > 0 && b > 0
    ensures a * b > 0
  {}

  lemma {:induction false} SumIsProduct(a: nat, b: nat)
    requires a > 0 && b > 0
    ensures a * b == a + b <==> a == 2 && b == 2
  {
    assert (a - 1) * (b - 1) == a * b - a - b + 1;
    if a == 1 || b == 1 {
    } else if a > 2 {
      Grows(a - 1, b - 1);
    } else if b > 2 {
      Grows(b - 1, a - 1);
    }
  }

  lemma {:induction false} Grows(a: nat, b: nat)
    requires a > 1 && b > 0
    ensures a * b > 1 && b * a > 1
  {
    assert a * b >= a * 1;
  }

  lemma {:induction false} LeftNeeds(s: Sides, ls: multiset<Row>, rs: multiset<Row>, l: Row, r: Row)
    requires CountsAgree(LeftOuter, s, ls, rs)
    requires l in ls && r in rs && NullMatch(s, l, r)
    ensures WithKey(s.rk, rs, s.lk(l)) == multiset{Nulls(s.rn)}
  {
    hide WithKey, Nulls;
    var nr := Nulls(s.rn);
    forall z | z in rs && NullMatch(s, l, z) ensures z == nr && rs[z] == 1 {
      assert PairCount(s, ls, rs, l, z) == LostCount(LeftOuter, s, ls, rs, l, z);
      Positive(ls[l], rs[z]);
      SameFactor(ls[l], rs[z]);
    }
    WithKeyIs(s.rk, rs, s.lk(l), nr, 1);
    Twice(nr);
  }

  lemma {:induction false} LeftSuffices(s: Sides, ls: multiset<Row>, rs: multiset<Row>, x: Row, z: Row)
    requires OnlyHarmless(LeftOuter, s, ls, rs)
    ensures PairCount(s, ls, rs, x, z) == LostCount(LeftOuter, s, ls, rs, x, z)
  {
    hide WithKey, Nulls;
    var nr := Nulls(s.rn);
    if x in ls && NullPartnerRight(s, x, rs) {
      var r :| r in rs && NullMatch(s, x, r);
      forall y ensures NullMatch(s, x, y) ==> rs[y] == if y == nr then 1 else 0 {
        WithKeyCount(s.rk, rs, s.lk(x), y);
      }
      assert r == nr;
    }
  }

  lemma {:induction false} LeftOuterIff(s: Sides, ls: multiset<Row>, rs: multiset<Row>)
    ensures CountsAgree(LeftOuter, s, ls, rs) <==> OnlyHarmless(LeftOuter, s, ls, rs)
  {
    hide WithKey, Nulls, PairCount, LostCount;
    if CountsAgree(LeftOuter, s, ls, rs) {
      forall l, r | l in ls && r in rs && NullMatch(s, l, r) ensures Harmless(LeftOuter, s, ls, rs, s.lk(l)) {
        LeftNeeds(s, ls, rs, l, r);
      }
    }
    if OnlyHarmless(LeftOuter, s, ls, rs) {
      forall x, z ensures PairCount(s, ls, rs, x, z) == LostCount(LeftOuter, s, ls, rs, x, z) {
        LeftSuffices(s, ls, rs, x, z);
      }
    }
  }

  /** The same join with its sides exchanged. */
  function Flip(s: Sides): Sides {
    Sides(s.rk, s.lk, s.rn, s.ln)
  }

  lemma {:induction false} FlipCount(s: Sides, ls: multiset<Row>, rs: multiset<Row>, x: Row, z: Row)
    ensures PairCount(s, ls, rs, x, z) == PairCount(Flip(s), rs, ls, z, x)
    ensures LostCount(RightOuter, s, ls, rs, x, z) == LostCount(LeftOuter, Flip(s), rs, ls, z, x)
  {
    hide Nulls;
    assert NullMatch(s, x, z) <==> NullMatch(Flip(s), z, x);
    if l :| l in ls && NullMatch(s, l, z) {
      assert NullMatch(Flip(s), z, l);
    }
    if l :| l in ls && NullMatch(Flip(s), z, l) {
      assert NullMatch(s, l, z);
    }
  }

  lemma {:induction false} RightOuterIff(s: Sides, ls: multiset<Row>, rs: multiset<Row>)
    ensures CountsAgree(RightOuter, s, ls, rs) <==> OnlyHarmless(RightOuter, s, ls, rs)
  {
    hide WithKey, Nulls, PairCount, LostCount;
    forall x, z
      ensures PairCount(s, ls, rs, x, z) == PairCount(Flip(s), rs, ls, z, x)
      ensures LostCount(RightOuter, s, ls, rs, x, z) == LostCount(LeftOuter, Flip(s), rs, ls, z, x)
    {
      FlipCount(s, ls, rs, x, z);
    }
    LeftOuterIff(Flip(s), rs, ls);
    forall l, r ensures NullMatch(s, l, r) <==> NullMatch(Flip(s), r, l) {}
  }

  lemma {:induction false} FullHasNulls(s: Sides, ls: multiset<Row>, rs: multiset<Row>, l: Row, r: Row)
    requires CountsAgree(FullOuter, s, ls, rs) && l in ls && r in rs && NullMatch(s, l, r)
    ensures var nl, nr := Nulls(s.ln), Nulls(s.rn);
            && ls[nl] == 2 && rs[nr] == 2
            && s.lk(nl) == s.lk(l) && s.rk(nr) == s.lk(l)
  {
    hide Nulls;
    var nl, nr := Nulls(s.ln), Nulls(s.rn);
    assert PairCount(s, ls, rs, l, nr) == LostCount(FullOuter, s, ls, rs, l, nr);
    assert PairCount(s, ls, rs, nl, r) == LostCount(FullOuter, s, ls, rs, nl, r);
    assert NullMatch(s, l, nr) && NullMatch(s, nl, r);
    assert NullMatch(s, nl, nr);
    assert PairCount(s, ls, rs, nl, nr) == LostCount(FullOuter, s, ls, rs, nl, nr);
    SumIsProduct(ls[nl], rs[nr]);
  }

  lemma {:induction false} FullNeeds(s: Sides, ls: multiset<Row>, rs: multiset<Row>, l: Row, r: Row)
    requires CountsAgree(FullOuter, s, ls, rs) && l in ls && r in rs && NullMatch(s, l, r)
    ensures Harmless(FullOuter, s, ls, rs, s.lk(l))
  {
    hide WithKey, Nulls;
    var nl, nr, key := Nulls(s.ln), Nulls(s.rn), s.lk(l);
    FullHasNulls(s, ls, rs, l, r);
    forall x | x in ls && s.lk(x) == key ensures x == nl {
      assert PairCount(s, ls, rs, x, nr) == LostCount(FullOuter, s, ls, rs, x, nr);
    }
    forall z | z in rs && s.rk(z) == key ensures z == nr {
      assert PairCount(s, ls, rs, nl, z) == LostCount(FullOuter, s, ls, rs, nl, z);
    }
    WithKeyIs(s.lk, ls, key, nl, 2);
    WithKeyIs(s.rk, rs, key, nr, 2);
    Twice(nl);
    Twice(nr);
  }

  lemma {:induction false} FullKey(s: Sides, ls: multiset<Row>, rs: multiset<Row>, x: Row, z: Row)
    requires OnlyHarmless(FullOuter, s, ls, rs) && x in ls && z in rs && NullMatch(s, x, z)
    ensures x == Nulls(s.ln) && z == Nulls(s.rn) && ls[x] == 2 && rs[z] == 2
  {
    hide WithKey, Nulls;
    WithKeyCount(s.lk, ls, s.lk(x), x);
    WithKeyCount(s.rk, rs, s.lk(x), z);
  }

  lemma {:induction false} FullSuffices(s: Sides, ls: multiset<Row>, rs: multiset<Row>, x: Row, z: Row)
    requires OnlyHarmless(FullOuter, s, ls, rs)
    ensures PairCount(s, ls, rs, x, z) == LostCount(FullOuter, s, ls, rs, x, z)
  {
    hide Nulls, OnlyHarmless;
    if x in ls && z in rs && NullMatch(s, x, z) {
      FullKey(s, ls, rs, x, z);
    } else {
      if x in ls && NullPartnerRight(s, x, rs) {
        var r :| r in rs && NullMatch(s, x, r);
        FullKey(s, ls, rs, x, r);
      }
      if z in rs && NullPartnerLeft(s, z, ls) {
        var l :| l in ls && NullMatch(s, l, z);
        FullKey(s, ls, rs, l, z);
      }
      assert PairCount(s, ls, rs, x, z) == 0;
    }
  }

  lemma {:induction false} FullOuterIff(s: Sides, ls: multiset<Row>, rs: multiset<Row>)
    ensures CountsAgree(FullOuter, s, ls, rs) <==> OnlyHarmless(FullOuter, s, ls, rs)
  {
    hide WithKey, Nulls, PairCount, LostCount, Harmless;
    if CountsAgree(FullOuter, s, ls, rs) {
      forall l, r | l in ls && r in rs && NullMatch(s, l, r) ensures Harmless(FullOuter, s, ls, rs, s.lk(l)) {
        FullNeeds(s, ls, rs, l, r);
      }
    }
    if OnlyHarmless(FullOuter, s, ls, rs) {
      forall x, z ensures PairCount(s, ls, rs, x, z) == LostCount(FullOuter, s, ls, rs, x, z) {
        FullSuffices(s, ls, rs, x, z);
      }
    }
  }

  lemma {:induction false} InnerIff(s: Sides, ls: multiset<Row>, rs: multiset<Row>)
    ensures CountsAgree(Inner, s, ls, rs) <==> OnlyHarmless(Inner, s, ls, rs)
  {
    forall l, r | l in ls && r in rs && NullMatch(s, l, r) ensures PairCount(s, ls, rs, l, r) > 0 {
      Positive(ls[l], rs[r]);
    }
  }

  /** The equi-joins return what SQL asks for if and only if every null key that occurs on both sides is
      harmless. */
  lemma {:induction false} JoinIsSqlIff(ty: JoinType, s: Sides, ls: multiset<Row>, rs: multiset<Row>)
    requires Widths(s, ls, rs)
    ensures JoinBag(ty, s, ls, rs) == SqlJoinBag(ty, s, ls, rs) <==> OnlyHarmless(ty, s, ls, rs)
  {
    hide JoinBag, SqlJoinBag, CountsAgree, OnlyHarmless, Bind, Lost, NullPairsF;
    SqlIffBalanced(ty, s, ls, rs);
    BalancedIffCounts(ty, s, ls, rs);
    match ty {
      case Inner => InnerIff(s, ls, rs);
      case LeftOuter => LeftOuterIff(s, ls, rs);
      case RightOuter => RightOuterIff(s, ls, rs);
      case FullOuter => FullOuterIff(s, ls, rs);
    }
  }

  function FirstColumn(r: Row): Row {
    r[..if r == [] then 0 else 1]
  }

  /** Two rows with a null key and a value: no join type treats them as SQL does. */
  lemma {:induction false} NullKeysMeet(ty: JoinType)
    ensures var s := Sides(FirstColumn, FirstColumn, 2, 2);
            var ls, rs := multiset{[Null, Int(1)]}, multiset{[Null, Int(2)]};
            JoinBag(ty, s, ls, rs) != SqlJoinBag(ty, s, ls, rs)
  {
    hide JoinBag, SqlJoinBag, WithKey;
    var s := Sides(FirstColumn, FirstColumn, 2, 2);
    var l, r := [Null, Int(1)], [Null, Int(2)];
    var ls, rs := multiset{l}, multiset{r};
    JoinIsSqlIff(ty, s, ls, rs);
    assert FirstColumn(l) == [Null] && FirstColumn(r) == [Null] && Null in [Null];
    assert NullMatch(s, l, r);
    WithKeyCount(s.rk, rs, s.lk(l), r);
    WithKeyCount(s.lk, ls, s.lk(l), l);
    assert Nulls(2)[1] == Null && r[1] != Null && l[1] != Null;
  }
}
