/** Laws of joins over bags of rows: pushing conditions, swapping and rotating. */
module JoinLaws {
  import opened Bags
  import opened Plans

  ghost predicate SameCondition(env: Env, on: Expr, on': Expr, ls: multiset<Named>, rs: multiset<Named>) {
    forall a, b :: a in ls && b in rs ==> Holds(env, on, a + b) == Holds(env, on', a + b)
  }

  lemma {:induction false} MatchesCong(env: Env, on: Expr, on': Expr, a: Named, rs: multiset<Named>)
    requires forall b :: b in rs ==> Holds(env, on, a + b) == Holds(env, on', a + b)
    ensures Matches(env, on, a, rs) == Matches(env, on', a, rs)
  {
    BindCong(rs, PairF(env, on, a), PairF(env, on', a));
  }

  lemma {:induction false} HasMatchCong(env: Env, on: Expr, on': Expr, a: Named, rs: multiset<Named>)
    requires forall b :: b in rs ==> Holds(env, on, a + b) == Holds(env, on', a + b)
    ensures HasMatch(env, on, a, rs) == HasMatch(env, on', a, rs)
  {}

  lemma {:induction false} LeftCong(env: Env, ty: JoinType, on: Expr, on': Expr, ls: multiset<Named>,
                                    rs: multiset<Named>, rc: set<Expr>, a: Named)
    requires SameCondition(env, on, on', ls, rs) && a in ls
    ensures FromLeft(env, ty, on, a, rs, rc) == FromLeft(env, ty, on', a, rs, rc)
  {
    MatchesCong(env, on, on', a, rs);
    HasMatchCong(env, on, on', a, rs);
  }

  // ---- a condition on the left rows ----

  ghost predicate SplitsLeft(env: Env, on: Expr, c1: Expr, c2: Expr, ls: multiset<Named>, rs: multiset<Named>) {
    forall a, b :: a in ls && b in rs ==>
      (Holds(env, on, a + b) <==> Holds(env, c1, a) && Holds(env, c2, a + b))
  }

  ghost function AloneF(ty: JoinType, rc: set<Expr>): Named -> multiset<Named> {
    a => Alone(ty, a, rc)
  }

  ghost function FailsF(env: Env, c: Expr): Named -> bool {
    r => !Holds(env, c, r)
  }

  lemma {:induction false} LeftSplit(env: Env, ty: JoinType, on: Expr, c1: Expr, c2: Expr, ls: multiset<Named>,
                                     rs: multiset<Named>, rc: set<Expr>, a: Named)
    requires SplitsLeft(env, on, c1, c2, ls, rs) && a in ls
    ensures FromLeft(env, ty, on, a, rs, rc) ==
            if Holds(env, c1, a) then FromLeft(env, ty, c2, a, rs, rc) else Alone(ty, a, rc)
  {
    if Holds(env, c1, a) {
      assert SameCondition(env, on, c2, multiset{a}, rs);
      LeftCong(env, ty, on, c2, multiset{a}, rs, rc, a);
    }
  }

  lemma {:induction false} LeftSumSplit(env: Env, ty: JoinType, on: Expr, c1: Expr, c2: Expr, ls: multiset<Named>,
                                        rs: multiset<Named>, rc: set<Expr>)
    requires SplitsLeft(env, on, c1, c2, ls, rs)
    ensures Bind(ls, LeftF(env, ty, on, rs, rc)) ==
            Bind(Keep(ls, HoldsF(env, c1)), LeftF(env, ty, c2, rs, rc)) +
                Bind(Keep(ls, FailsF(env, c1)), AloneF(ty, rc))
  {
    var f, f1, f2 := LeftF(env, ty, on, rs, rc), LeftF(env, ty, c2, rs, rc), AloneF(ty, rc);
    forall a | a in ls ensures f(a) == if HoldsF(env, c1)(a) then f1(a) else f2(a) {
      LeftSplit(env, ty, on, c1, c2, ls, rs, rc, a);
    }
    BindSplit(ls, HoldsF(env, c1), FailsF(env, c1), f, f1, f2);
  }

  lemma {:induction false} SameLeftMatch(env: Env, on: Expr, c1: Expr, c2: Expr, ls: multiset<Named>,
                                         rs: multiset<Named>, b: Named)
    requires SplitsLeft(env, on, c1, c2, ls, rs) && b in rs
    ensures HasLeftMatch(env, on, b, ls) <==> HasLeftMatch(env, c2, b, Keep(ls, HoldsF(env, c1)))
  {
    var kept := Keep(ls, HoldsF(env, c1));
    forall a | a in ls && Holds(env, on, a + b) ensures a in kept && Holds(env, c2, a + b) {
      KeepMember(ls, HoldsF(env, c1), a);
    }
    forall a | a in kept && Holds(env, c2, a + b) ensures a in ls && Holds(env, on, a + b) {
      KeepMember(ls, HoldsF(env, c1), a);
    }
  }

  lemma {:induction false} RightSumKept(env: Env, ty: JoinType, on: Expr, c1: Expr, c2: Expr, ls: multiset<Named>,
                                        rs: multiset<Named>, lc: set<Expr>)
    requires SplitsLeft(env, on, c1, c2, ls, rs)
    ensures Bind(rs, RightF(env, ty, on, ls, lc)) == Bind(rs, RightF(env, ty, c2, Keep(ls, HoldsF(env, c1)), lc))
  {
    var g, g2 := RightF(env, ty, on, ls, lc), RightF(env, ty, c2, Keep(ls, HoldsF(env, c1)), lc);
    forall b | b in rs ensures g(b) == g2(b) {
      SameLeftMatch(env, on, c1, c2, ls, rs, b);
    }
    BindCong(rs, g, g2);
  }

  /** Pushing a condition to the left input loses exactly what the rejected left rows contribute alone. */
  lemma {:induction false} PushLeft(env: Env, ty: JoinType, on: Expr, c1: Expr, c2: Expr, ls: multiset<Named>,
                                    rs: multiset<Named>,
                 lc: set<Expr>, rc: set<Expr>)
    requires SplitsLeft(env, on, c1, c2, ls, rs)
    ensures JoinRows(env, ty, on, ls, rs, lc, rc) ==
            JoinRows(env, ty, c2, Keep(ls, HoldsF(env, c1)), rs, lc, rc) +
                Bind(Keep(ls, FailsF(env, c1)), AloneF(ty, rc))
  {
    LeftSumSplit(env, ty, on, c1, c2, ls, rs, rc);
    RightSumKept(env, ty, on, c1, c2, ls, rs, lc);
  }

  // ---- a condition on the right rows ----

  ghost predicate SplitsRight(env: Env, on: Expr, c1: Expr, c2: Expr, ls: multiset<Named>, rs: multiset<Named>) {
    forall a, b :: a in ls && b in rs ==>
      (Holds(env, on, a + b) <==> Holds(env, c1, b) && Holds(env, c2, a + b))
  }

  ghost function AloneRightF(ty: JoinType, lc: set<Expr>): Named -> multiset<Named> {
    b => AloneRight(ty, b, lc)
  }

  lemma {:induction false} SameMatch(env: Env, on: Expr, c1: Expr, c2: Expr, ls: multiset<Named>, rs: multiset<Named>,
                                     a: Named)
    requires SplitsRight(env, on, c1, c2, ls, rs) && a in ls
    ensures HasMatch(env, on, a, rs) <==> HasMatch(env, c2, a, Keep(rs, HoldsF(env, c1)))
  {
    var kept := Keep(rs, HoldsF(env, c1));
    forall b | b in rs && Holds(env, on, a + b) ensures b in kept && Holds(env, c2, a + b) {
      KeepMember(rs, HoldsF(env, c1), b);
    }
    forall b | b in kept && Holds(env, c2, a + b) ensures b in rs && Holds(env, on, a + b) {
      KeepMember(rs, HoldsF(env, c1), b);
    }
  }

  lemma {:induction false} SameMatches(env: Env, on: Expr, c1: Expr, c2: Expr, ls: multiset<Named>,
                                       rs: multiset<Named>, a: Named)
    requires SplitsRight(env, on, c1, c2, ls, rs) && a in ls
    ensures Matches(env, on, a, rs) == Matches(env, c2, a, Keep(rs, HoldsF(env, c1)))
  {
    BindKeep(rs, HoldsF(env, c1), PairF(env, c2, a), PairF(env, on, a));
  }

  lemma {:induction false} LeftSumKept(env: Env, ty: JoinType, on: Expr, c1: Expr, c2: Expr, ls: multiset<Named>,
                                       rs: multiset<Named>, rc: set<Expr>)
    requires SplitsRight(env, on, c1, c2, ls, rs)
    ensures Bind(ls, LeftF(env, ty, on, rs, rc)) == Bind(ls, LeftF(env, ty, c2, Keep(rs, HoldsF(env, c1)), rc))
  {
    var f, f2 := LeftF(env, ty, on, rs, rc), LeftF(env, ty, c2, Keep(rs, HoldsF(env, c1)), rc);
    forall a | a in ls ensures f(a) == f2(a) {
      SameMatch(env, on, c1, c2, ls, rs, a);
      SameMatches(env, on, c1, c2, ls, rs, a);
    }
    BindCong(ls, f, f2);
  }

  lemma {:induction false} RightRowSplit(env: Env, ty: JoinType, on: Expr, c1: Expr, c2: Expr, ls: multiset<Named>,
                                         rs: multiset<Named>,
                      lc: set<Expr>, b: Named)
    requires SplitsRight(env, on, c1, c2, ls, rs) && b in rs
    ensures RightF(env, ty, on, ls, lc)(b) == if HoldsF(env, c1)(b) then RightF(env, ty, c2, ls, lc)(b)
            else AloneRightF(ty, lc)(b)
  {
    hide HasLeftMatch, SplitsRight, Nulls;
    LeftMatchSplit(env, on, c1, c2, ls, rs, b);
  }

  lemma {:induction false} LeftMatchSplit(env: Env, on: Expr, c1: Expr, c2: Expr, ls: multiset<Named>,
                                          rs: multiset<Named>, b: Named)
    requires SplitsRight(env, on, c1, c2, ls, rs) && b in rs
    ensures HasLeftMatch(env, on, b, ls) <==> Holds(env, c1, b) && HasLeftMatch(env, c2, b, ls)
  {
    hide Eval;
  }

  lemma {:induction false} RightSumSplit(env: Env, ty: JoinType, on: Expr, c1: Expr, c2: Expr, ls: multiset<Named>,
                                         rs: multiset<Named>, lc: set<Expr>)
    requires SplitsRight(env, on, c1, c2, ls, rs)
    ensures Bind(rs, RightF(env, ty, on, ls, lc)) ==
            Bind(Keep(rs, HoldsF(env, c1)), RightF(env, ty, c2, ls, lc)) +
                Bind(Keep(rs, FailsF(env, c1)), AloneRightF(ty, lc))
  {
    hide Bind, RightF, AloneRightF, SplitsRight;
    var g, g1, g2 := RightF(env, ty, on, ls, lc), RightF(env, ty, c2, ls, lc), AloneRightF(ty, lc);
    forall b | b in rs ensures g(b) == if HoldsF(env, c1)(b) then g1(b) else g2(b) {
      RightRowSplit(env, ty, on, c1, c2, ls, rs, lc, b);
    }
    BindSplit(rs, HoldsF(env, c1), FailsF(env, c1), g, g1, g2);
  }

  /** Pushing a condition to the right input loses exactly what the rejected right rows contribute alone. */
  lemma {:induction false} PushRight(env: Env, ty: JoinType, on: Expr, c1: Expr, c2: Expr, ls: multiset<Named>,
                                     rs: multiset<Named>,
                  lc: set<Expr>, rc: set<Expr>)
    requires SplitsRight(env, on, c1, c2, ls, rs)
    ensures JoinRows(env, ty, on, ls, rs, lc, rc) ==
            JoinRows(env, ty, c2, ls, Keep(rs, HoldsF(env, c1)), lc, rc) +
                Bind(Keep(rs, FailsF(env, c1)), AloneRightF(ty, lc))
  {
    LeftSumKept(env, ty, on, c1, c2, ls, rs, rc);
    RightSumSplit(env, ty, on, c1, c2, ls, rs, lc);
  }

  // ---- inner joins as plain double sums ----

  ghost function MatchesF(env: Env, on: Expr, rs: multiset<Named>): Named -> multiset<Named> {
    a => Matches(env, on, a, rs)
  }

  lemma {:induction false} InnerFromLeft(env: Env, on: Expr, a: Named, rs: multiset<Named>, rc: set<Expr>)
    ensures FromLeft(env, Inner, on, a, rs, rc) == Matches(env, on, a, rs)
  {
    if !HasMatch(env, on, a, rs) {
      BindNone(rs, PairF(env, on, a));
    }
  }

  lemma {:induction false} InnerIsDoubleSum(env: Env, on: Expr, ls: multiset<Named>, rs: multiset<Named>,
                                            lc: set<Expr>, rc: set<Expr>)
    ensures JoinRows(env, Inner, on, ls, rs, lc, rc) == Bind(ls, MatchesF(env, on, rs))
  {
    var f := LeftF(env, Inner, on, rs, rc);
    forall a | a in ls ensures f(a) == MatchesF(env, on, rs)(a) {
      InnerFromLeft(env, on, a, rs, rc);
    }
    BindCong(ls, f, MatchesF(env, on, rs));
    BindNone(rs, RightF(env, Inner, on, ls, lc));
  }

  lemma {:induction false} HoldsAnd(env: Env, c1: Expr, c2: Expr, r: Named)
    ensures Holds(env, And(c1, c2), r) <==> Holds(env, c1, r) && Holds(env, c2, r)
  {}

  lemma {:induction false} KeepOne(r: Named, p: Named -> bool)
    ensures Keep(multiset{r}, p) == if p(r) then multiset{r} else multiset{}
  {
    BindOne(r, KeepF(p));
  }

  lemma {:induction false} FilterPair(env: Env, on: Expr, cond: Expr, a: Named, b: Named)
    ensures Keep(PairF(env, on, a)(b), HoldsF(env, cond)) == PairF(env, And(on, cond), a)(b)
  {
    HoldsAnd(env, on, cond, a + b);
    KeepOne(a + b, HoldsF(env, cond));
    BindEmpty(KeepF(HoldsF(env, cond)));
  }

  lemma {:induction false} FilterMatches(env: Env, on: Expr, cond: Expr, a: Named, rs: multiset<Named>)
    ensures Bind(Matches(env, on, a, rs), KeepF(HoldsF(env, cond))) == Matches(env, And(on, cond), a, rs)
  {
    var k, pair, pair' := KeepF(HoldsF(env, cond)), PairF(env, on, a), PairF(env, And(on, cond), a);
    forall b | b in rs ensures pair'(b) == Bind(pair(b), k) {
      FilterPair(env, on, cond, a, b);
    }
    BindBind(rs, pair, k, pair');
  }

  /** A condition on the pairs of an inner join can be checked on the pair or afterwards. */
  lemma {:induction false} FilterInner(env: Env, on: Expr, cond: Expr, ls: multiset<Named>, rs: multiset<Named>)
    ensures Keep(Bind(ls, MatchesF(env, on, rs)), HoldsF(env, cond)) == Bind(ls, MatchesF(env, And(on, cond), rs))
  {
    var f, h := MatchesF(env, on, rs), MatchesF(env, And(on, cond), rs);
    forall a | a in ls ensures h(a) == Bind(f(a), KeepF(HoldsF(env, cond))) {
      FilterMatches(env, on, cond, a, rs);
    }
    BindBind(ls, f, KeepF(HoldsF(env, cond)), h);
  }

  lemma {:induction false} MergeCommutes(a: Named, b: Named)
    requires a.Keys !! b.Keys
    ensures a + b == b + a
  {}

  ghost predicate DisjointRows(ls: multiset<Named>, rs: multiset<Named>) {
    forall a: Named, b: Named :: a in ls && b in rs ==> a.Keys !! b.Keys
  }

  ghost function PairFF(env: Env, on: Expr): Named -> (Named -> multiset<Named>) {
    a => PairF(env, on, a)
  }

  /** An inner join does not depend on which input is called left. */
  lemma {:induction false} SwapInner(env: Env, on: Expr, ls: multiset<Named>, rs: multiset<Named>)
    requires DisjointRows(ls, rs)
    ensures Bind(ls, MatchesF(env, on, rs)) == Bind(rs, MatchesF(env, on, ls))
  {
    var f := PairFF(env, on);
    forall a, b | a in ls && b in rs ensures f(a)(b) == f(b)(a) {
      MergeCommutes(a, b);
    }
    BindSwap(ls, rs, f, f, MatchesF(env, on, rs), MatchesF(env, on, ls));
  }

  lemma {:induction false} MergeAssociates(a: Named, b: Named, c: Named)
    ensures a + b + c == a + (b + c)
  {}

  /** The condition `c2` of the inner of two nested inner joins looks only at the left and middle rows. */
  ghost predicate LooksLeft(env: Env, c2: Expr, ls: multiset<Named>, ms: multiset<Named>, rs: multiset<Named>) {
    forall a, m, b :: a in ls && m in ms && b in rs ==> Holds(env, c2, a + (m + b)) == Holds(env, c2, a + m)
  }

  lemma {:induction false} HoldsTrue(env: Env, r: Named)
    ensures Holds(env, TRUE, r)
  {}

  lemma {:induction false} RotatePair(env: Env, c1: Expr, c2: Expr, a: Named, m: Named, b: Named)
    requires Holds(env, c2, a + (m + b)) == Holds(env, c2, a + m)
    ensures Bind(PairF(env, TRUE, m)(b), PairF(env, And(c1, c2), a)) ==
            if Holds(env, c2, a + m) then PairF(env, c1, a + m)(b) else multiset{}
  {
    MergeAssociates(a, m, b);
    HoldsAnd(env, c1, c2, a + (m + b));
    HoldsTrue(env, m + b);
    BindOne(m + b, PairF(env, And(c1, c2), a));
  }

  lemma {:induction false} RotateOne(env: Env, c1: Expr, c2: Expr, a: Named, m: Named, rs: multiset<Named>)
    requires forall b :: b in rs ==> Holds(env, c2, a + (m + b)) == Holds(env, c2, a + m)
    ensures Bind(Matches(env, TRUE, m, rs), PairF(env, And(c1, c2), a)) ==
            if Holds(env, c2, a + m) then Matches(env, c1, a + m, rs) else multiset{}
  {
    var step, pair := PairF(env, TRUE, m), PairF(env, And(c1, c2), a);
    var direct := (b: Named) => Bind(step(b), pair);
    BindBind(rs, step, pair, direct);
    forall b | b in rs ensures direct(b) == if Holds(env, c2, a + m) then PairF(env, c1, a + m)(b) else multiset{} {
      RotatePair(env, c1, c2, a, m, b);
    }
    if Holds(env, c2, a + m) {
      BindCong(rs, PairF(env, c1, a + m), direct);
    } else {
      BindNone(rs, direct);
    }
  }

  lemma {:induction false} RotateLeft(env: Env, c1: Expr, c2: Expr, a: Named, ms: multiset<Named>, rs: multiset<Named>)
    requires LooksLeft(env, c2, multiset{a}, ms, rs)
    ensures Bind(Matches(env, c2, a, ms), MatchesF(env, c1, rs)) ==
            Matches(env, And(c1, c2), a, Bind(ms, MatchesF(env, TRUE, rs)))
  {
    var each := (m: Named) => Bind(PairF(env, c2, a)(m), MatchesF(env, c1, rs));
    BindBind(ms, PairF(env, c2, a), MatchesF(env, c1, rs), each);
    forall m | m in ms ensures each(m) == Bind(MatchesF(env, TRUE, rs)(m), PairF(env, And(c1, c2), a)) {
      assert a in multiset{a};
      PairThen(env, c2, a, m, MatchesF(env, c1, rs));
      RotateOne(env, c1, c2, a, m, rs);
    }
    BindBind(ms, MatchesF(env, TRUE, rs), PairF(env, And(c1, c2), a), each);
  }

  /** Rotating nested inner joins to the right. */
  lemma {:induction false} RotateInner(env: Env, c1: Expr, c2: Expr, ls: multiset<Named>, ms: multiset<Named>,
                                       rs: multiset<Named>)
    requires LooksLeft(env, c2, ls, ms, rs)
    ensures Bind(Bind(ls, MatchesF(env, c2, ms)), MatchesF(env, c1, rs)) ==
            Bind(ls, MatchesF(env, And(c1, c2), Bind(ms, MatchesF(env, TRUE, rs))))
  {
    var h := MatchesF(env, And(c1, c2), Bind(ms, MatchesF(env, TRUE, rs)));
    forall a | a in ls ensures h(a) == Bind(MatchesF(env, c2, ms)(a), MatchesF(env, c1, rs)) {
      assert LooksLeft(env, c2, multiset{a}, ms, rs);
      RotateLeft(env, c1, c2, a, ms, rs);
    }
    BindBind(ls, MatchesF(env, c2, ms), MatchesF(env, c1, rs), h);
  }
}
