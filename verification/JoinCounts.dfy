/** How often each row comes out of a join on keys. */
module JoinCounts {
  import opened Common
  import opened Bags
  import opened JoinSpecs

  ghost predicate LeftWidth(s: Sides, ls: multiset<Row>) {
    forall l :: l in ls ==> |l| == s.ln
  }

  lemma {:induction false} MatchCount(s: Sides, rs: multiset<Row>, l: Row, a: Row, b: Row)
    requires |l| == |a|
    ensures Bind(rs, MatchF(s, l))[a + b] == if l == a && s.lk(a) == s.rk(b) then rs[b] else 0
  {
    hide Bind;
    forall r | r in rs && r != b ensures a + b !in MatchF(s, l)(r) {
      SplitAt(a, b, l, r);
    }
    SplitAt(a, b, l, b);
    BindCount(rs, MatchF(s, l), b, a + b);
    assert MatchF(s, l)(b)[a + b] == if l == a && s.lk(a) == s.rk(b) then 1 else 0;
  }

  lemma {:induction false} PairsCount(s: Sides, ls: multiset<Row>, rs: multiset<Row>, a: Row, b: Row)
    requires LeftWidth(s, ls) && |a| == s.ln
    ensures Bind(ls, PairsF(s, rs))[a + b] == if s.lk(a) == s.rk(b) then ls[a] * rs[b] else 0
  {
    hide Bind, MatchF;
    var f := PairsF(s, rs);
    assert f(a) == Bind(rs, MatchF(s, a));
    forall l | l in ls && l != a ensures a + b !in f(l) {
      assert f(l) == Bind(rs, MatchF(s, l));
      MatchCount(s, rs, l, a, b);
    }
    hide PairsF;
    BindCount(ls, f, a, a + b);
    MatchCount(s, rs, a, a, b);
  }

  lemma {:induction false} LeftAloneHas(s: Sides, rs: multiset<Row>, l: Row, a: Row, b: Row)
    requires |l| == |a|
    ensures LeftAloneF(s, rs)(l)[a + b] ==
            if l == a && b == Nulls(s.rn) && !HasKey(s.rk, rs, s.lk(a)) then 1 else 0
  {
    hide Nulls, HasKey;
    SplitAt(a, b, l, Nulls(s.rn));
  }

  lemma {:induction false} RightAloneHas(s: Sides, ls: multiset<Row>, r: Row, a: Row, b: Row)
    requires |a| == s.ln
    ensures RightAloneF(s, ls)(r)[a + b] ==
            if r == b && a == Nulls(s.ln) && !HasKey(s.lk, ls, s.rk(b)) then 1 else 0
  {
    hide HasKey;
    SplitAt(a, b, Nulls(s.ln), r);
  }

  lemma {:induction false} LeftAloneCount(s: Sides, ls: multiset<Row>, rs: multiset<Row>, a: Row, b: Row)
    requires LeftWidth(s, ls) && |a| == s.ln
    ensures Bind(ls, LeftAloneF(s, rs))[a + b] ==
            if b == Nulls(s.rn) && !HasKey(s.rk, rs, s.lk(a)) then ls[a] else 0
  {
    hide Bind, HasKey, Nulls, LeftAloneF;
    forall l | l in ls && l != a ensures a + b !in LeftAloneF(s, rs)(l) {
      LeftAloneHas(s, rs, l, a, b);
    }
    BindCount(ls, LeftAloneF(s, rs), a, a + b);
    LeftAloneHas(s, rs, a, a, b);
  }

  lemma {:induction false} RightAloneCount(s: Sides, ls: multiset<Row>, rs: multiset<Row>, a: Row, b: Row)
    requires |a| == s.ln
    ensures Bind(rs, RightAloneF(s, ls))[a + b] ==
            if a == Nulls(s.ln) && !HasKey(s.lk, ls, s.rk(b)) then rs[b] else 0
  {
    hide Bind, HasKey, Nulls, RightAloneF;
    forall r | r in rs && r != b ensures a + b !in RightAloneF(s, ls)(r) {
      RightAloneHas(s, ls, r, a, b);
    }
    BindCount(rs, RightAloneF(s, ls), b, a + b);
    RightAloneHas(s, ls, b, a, b);
  }

  predicate AllNull(r: Row, n: nat) {
    |r| == n && forall i :: 0 <= i < n ==> r[i] == Null
  }

  lemma {:induction false} NullsAre(r: Row, n: nat)
    ensures r == Nulls(n) <==> AllNull(r, n)
  {}

  /** How often the left row stands before the right row because they have the same key. */
  ghost function Together(s: Sides, ls: multiset<Row>, rs: multiset<Row>, a: Row, b: Row): nat {
    if s.lk(a) == s.rk(b) then ls[a] * rs[b] else 0
  }

  /** How often the left row stands before nulls because no right row has its key. */
  ghost function AloneLeft(s: Sides, ls: multiset<Row>, rs: multiset<Row>, a: Row, b: Row): nat {
    if AllNull(b, s.rn) && forall r :: r in rs ==> s.rk(r) != s.lk(a) then ls[a] else 0
  }

  ghost function AloneRight(s: Sides, ls: multiset<Row>, rs: multiset<Row>, a: Row, b: Row): nat {
    if AllNull(a, s.ln) && forall l :: l in ls ==> s.lk(l) != s.rk(b) then rs[b] else 0
  }

  /** A join bag has the pairs of rows with the same key; of a left outer join also the left rows, of a right outer
      join the right rows, and of a full outer join both, whose key the other side does not have. */
  lemma {:induction false} JoinCount(ty: JoinType, s: Sides, ls: multiset<Row>, rs: multiset<Row>, a: Row, b: Row)
    requires LeftWidth(s, ls) && |a| == s.ln
    ensures JoinBag(ty, s, ls, rs)[a + b] ==
            match ty
            case Inner => Together(s, ls, rs, a, b)
            case LeftOuter => Together(s, ls, rs, a, b) + AloneLeft(s, ls, rs, a, b)
            case RightOuter => Together(s, ls, rs, a, b) + AloneRight(s, ls, rs, a, b)
            case FullOuter => Together(s, ls, rs, a, b) + AloneLeft(s, ls, rs, a, b) + AloneRight(s, ls, rs, a, b)
  {
    hide Bind, PairsF, LeftAloneF, RightAloneF, Nulls, AllNull, LeftWidth;
    PairsCount(s, ls, rs, a, b);
    LeftAloneCount(s, ls, rs, a, b);
    RightAloneCount(s, ls, rs, a, b);
    NullsAre(b, s.rn);
    NullsAre(a, s.ln);
  }

  lemma {:induction false} PairIsLong(s: Sides, rs: multiset<Row>, l: Row, y: Row)
    requires y in PairsF(s, rs)(l)
    ensures |y| >= |l|
  {
    hide Bind;
    BindMember(rs, MatchF(s, l), y);
  }

  lemma {:induction false} LeftAloneIsLong(s: Sides, ls: multiset<Row>, rs: multiset<Row>, y: Row)
    requires LeftWidth(s, ls) && y in Bind(ls, LeftAloneF(s, rs))
    ensures |y| >= s.ln
  {
    hide Bind, HasKey;
    BindMember(ls, LeftAloneF(s, rs), y);
  }

  lemma {:induction false} RightAloneIsLong(s: Sides, ls: multiset<Row>, rs: multiset<Row>, y: Row)
    requires y in Bind(rs, RightAloneF(s, ls))
    ensures |y| >= s.ln
  {
    hide Bind, HasKey;
    BindMember(rs, RightAloneF(s, ls), y);
  }

  /** There are no other rows: each has a left part. */
  lemma {:induction false} JoinRowsAre(ty: JoinType, s: Sides, ls: multiset<Row>, rs: multiset<Row>, y: Row)
    requires LeftWidth(s, ls) && y in JoinBag(ty, s, ls, rs)
    ensures |y| >= s.ln
  {
    hide Bind, PairsF, LeftAloneF, RightAloneF;
    if y in Bind(ls, PairsF(s, rs)) {
      BindMember(ls, PairsF(s, rs), y);
      var l :| l in ls && y in PairsF(s, rs)(l);
      PairIsLong(s, rs, l, y);
    } else if y in Bind(ls, LeftAloneF(s, rs)) {
      LeftAloneIsLong(s, ls, rs, y);
    } else {
      RightAloneIsLong(s, ls, rs, y);
    }
  }
}
