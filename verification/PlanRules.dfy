/** The optimizer's rewrite rules and their soundness. */
module PlanRules {
  import opened Bags
  import opened Plans
  import opened Lookups
  import opened Executions
  import opened JoinLaws
  import opened Pruning

  /** A rewrite keeps a plan well formed and unambiguous, and its columns in their order. */
  predicate Shape(p: Plan, q: Plan) {
    WellFormed(q) && Unambiguous(q) && Schema(q) == Schema(p) && Base(q) == Base(p)
  }

  /** And, in every database, the bag of rows the plan means. */
  ghost predicate Same(env: Env, p: Plan, q: Plan) {
    Shape(p, q) && Rows(env, q) == Rows(env, p)
  }

  /** Such plans that mean the same rows give the same tuples, without a panic. */
  lemma {:induction false} SameRuns(env: Env, p: Plan, q: Plan)
    requires WellFormed(p) && Unambiguous(p) && Same(env, p, q)
    ensures Resolves(p) && Resolves(q) && ExecRows(env, q) == ExecRows(env, p)
  {
    hide Rows, ExecRows, Unambiguous, WellFormed, Fits, Resolves;
    WellFormedFits(p);
    WellFormedFits(q);
    FitsResolves(p);
    FitsResolves(q);
    SameExecIff(env, p, q);
  }

  lemma {:induction false} ShapeProduced(p: Plan, q: Plan)
    requires Shape(p, q)
    ensures Produced(q) == Produced(p)
  {
    ProducedIsSchema(p);
    ProducedIsSchema(q);
  }

  // ---- one level of the meaning of a plan ----

  lemma {:induction false} RowsFilter(env: Env, cond: Expr, c: Plan)
    ensures Rows(env, Filter(cond, c)) == Keep(Rows(env, c), HoldsF(env, cond))
  {
    hide Bind, Produced, ProjRow, Eval, GroupKeys;
  }

  lemma {:induction false} RowsProj(env: Env, es: seq<Expr>, c: Plan)
    ensures Rows(env, Proj(es, c)) == Bind(Rows(env, c), ProjF(env, es))
  {
    hide Bind, Produced, ProjRow, Eval, GroupKeys;
  }

  lemma {:induction false} RowsJoin(env: Env, ty: JoinType, on: Expr, l: Plan, r: Plan)
    ensures Rows(env, Join(ty, on, l, r)) == JoinRows(env, ty, on, Rows(env, l), Rows(env, r), Produced(l), Produced(r))
  {
    hide Bind, Produced, ProjRow, Eval, GroupKeys;
  }

  lemma {:induction false} RowsAgg(env: Env, ks: seq<Expr>, gs: seq<Expr>, c: Plan)
    ensures Rows(env, HashAgg(ks, gs, c)) == Bind(multiset(GroupKeys(env, ks, Rows(env, c))),
            GroupF(env, ks, gs, Rows(env, c)))
  {
    hide Bind, Produced, ProjRow, Eval, GroupKeys;
  }

  // ---- filters ----

  predicate FilterTrue(p: Plan, q: Plan) {
    p.Filter? && p.cond == TRUE && q == p.child
  }

  predicate FilterFalse(p: Plan, q: Plan) {
    p.Filter? && p.cond == FALSE && q == Empty(p.child)
  }

  predicate OrderNull(p: Plan, q: Plan) {
    p.Order? && p.keys == [] && q == p.child
  }

  predicate FilterMerge(p: Plan, q: Plan) {
    p.Filter? && p.child.Filter? && q == Filter(And(p.cond, p.child.cond), p.child.child)
  }

  predicate FilterOrder(p: Plan, q: Plan) {
    p.Filter? && p.child.Order? && q == Order(p.child.keys, Filter(p.cond, p.child.child))
  }

  predicate FilterProj(p: Plan, q: Plan) {
    && p.Filter? && p.child.Proj? && q == Proj(p.child.exprs, Filter(p.cond, p.child.child))
    && Columns(p.cond) <= Produced(p.child.child)
  }

  /** The engine's guard is only that the condition does not use an aggregate. */
  predicate FilterHashAgg(p: Plan, q: Plan) {
    && p.Filter? && p.child.HashAgg?
    && q == HashAgg(p.child.keys, p.child.aggs, Filter(p.cond, p.child.child))
    && Columns(p.cond) !! OutCols(p.child.aggs)
  }

  lemma {:induction false} FilterTrueSound(env: Env, p: Plan, q: Plan)
    requires WellFormed(p) && Unambiguous(p) && FilterTrue(p, q)
    ensures Same(env, p, q)
  {
    KeepAll(Rows(env, q), HoldsF(env, TRUE));
  }

  lemma {:induction false} FilterFalseSound(env: Env, p: Plan, q: Plan)
    requires WellFormed(p) && Unambiguous(p) && FilterFalse(p, q)
    ensures Same(env, p, q)
  {
    KeepNone(Rows(env, p.child), HoldsF(env, FALSE));
  }

  lemma {:induction false} FilterMergeRows(env: Env, c1: Expr, c2: Expr, c: Plan)
    ensures Rows(env, Filter(And(c1, c2), c)) == Rows(env, Filter(c1, Filter(c2, c)))
  {
    hide Rows, Bind, Eval, Keep;
    RowsFilter(env, c1, Filter(c2, c));
    RowsFilter(env, c2, c);
    RowsFilter(env, And(c1, c2), c);
    var rows, both := Rows(env, c), HoldsF(env, And(c1, c2));
    forall r | r in rows ensures both(r) == (HoldsF(env, c1)(r) && HoldsF(env, c2)(r)) {
      HoldsAnd(env, c1, c2, r);
    }
    KeepKeep(rows, HoldsF(env, c1), HoldsF(env, c2), both);
  }

  /** Merging is always sound.  Splitting needs more: a condition that is only a column does not run. */
  lemma {:induction false} FilterMergeSound(env: Env, p: Plan, q: Plan)
    requires FilterMerge(p, q)
    ensures WellFormed(p) <==> WellFormed(q) && !IsCol(p.cond) && !IsCol(p.child.cond)
    ensures Unambiguous(p) <==> Unambiguous(q)
    ensures Schema(q) == Schema(p) && Base(q) == Base(p) && Rows(env, q) == Rows(env, p)
  {
    hide Rows;
    FilterMergeRows(env, p.cond, p.child.cond, p.child.child);
  }

  lemma {:induction false} FilterProjShape(p: Plan, q: Plan)
    requires WellFormed(p) && Unambiguous(p) && FilterProj(p, q)
    ensures Shape(p, q)
  {}

  lemma {:induction false} FilterProjRows(env: Env, cond: Expr, es: seq<Expr>, c: Plan)
    requires WellFormed(c) && Unambiguous(c) && AllPlain(es) && ColumnsOf(es) <= Produced(c)
    requires Plain(cond) && Columns(cond) <= OutCols(es)
    ensures Rows(env, Filter(cond, Proj(es, c))) == Rows(env, Proj(es, Filter(cond, c)))
  {
    hide Rows, Bind, Eval, Consistent, Available, WellFormed, Unambiguous, Fits;
    RowsFilter(env, cond, Proj(es, c));
    RowsProj(env, es, c);
    RowsProj(env, es, Filter(cond, c));
    RowsFilter(env, cond, c);
    RowsTyped(env, c);
    WellFormedFits(c);
    RowsConsistent(env, c);
    PlainAllAvailable(es, Produced(c));
    PlainAvailable(cond, OutCols(es));
    FilterThroughProj(env, cond, es, Rows(env, c), Produced(c));
  }

  lemma {:induction false} FilterProjSound(env: Env, p: Plan, q: Plan)
    requires WellFormed(p) && Unambiguous(p) && FilterProj(p, q)
    ensures Same(env, p, q)
  {
    hide Rows;
    FilterProjShape(p, q);
    FilterProjRows(env, p.cond, p.child.exprs, p.child.child);
  }

  lemma {:induction false} OutAvailable(es: seq<Expr>, cols: set<Expr>, c: Expr)
    requires AllAvailable(es, cols) && c in OutCols(es)
    ensures Available(c, cols)
    decreases |es|
  {
    if OutCol(es[0]) != c {
      OutAvailable(es[1..], cols, c);
    }
  }

  lemma {:induction false} AvailableByColumns(e: Expr, cols: set<Expr>)
    requires Plain(e) && forall c :: c in Columns(e) ==> Available(c, cols)
    ensures Available(e, cols)
  {
    match e {
      case Unary(_, a) => AvailableByColumns(a, cols);
      case Binary(_, a, b) => AvailableByColumns(a, cols); AvailableByColumns(b, cols);
      case And(a, b) => AvailableByColumns(a, cols); AvailableByColumns(b, cols);
      case Column(_) => assert e in Columns(e);
      case Ref(_) => assert e in Columns(e);
      case _ =>
    }
  }

  /** What the columns of a projection give can be computed below it. */
  lemma {:induction false} AvailableBelow(e: Expr, es: seq<Expr>, cols: set<Expr>, other: set<Expr>)
    requires Plain(e) && Columns(e) <= OutCols(es) + other && AllAvailable(es, cols)
    ensures Available(e, cols + other)
  {
    forall c | c in Columns(e) ensures Available(c, cols + other) {
      if c in OutCols(es) {
        OutAvailable(es, cols, c);
        AvailableMono(c, cols, cols + other);
      } else {
        ColumnsAreCols(e, c);
      }
    }
    AvailableByColumns(e, cols + other);
  }

  lemma {:induction false} ColumnsAreCols(e: Expr, c: Expr)
    requires c in Columns(e)
    ensures IsCol(c)
  {
    match e {
      case Unary(_, a) => ColumnsAreCols(a, c);
      case Binary(_, a, b) => if c in Columns(a) { ColumnsAreCols(a, c); } else { ColumnsAreCols(b, c); }
      case And(a, b) => if c in Columns(a) { ColumnsAreCols(a, c); } else { ColumnsAreCols(b, c); }
      case Agg(_, a) => ColumnsAreCols(a, c);
      case _ =>
    }
  }

  lemma {:induction false} FilterHashAggShape(p: Plan, q: Plan)
    requires WellFormed(p) && Unambiguous(p) && FilterHashAgg(p, q)
    ensures Schema(q) == Schema(p) && Base(q) == Base(p) && Fits(q) && Unambiguous(q)
    ensures Columns(p.cond) <= OutCols(p.child.keys)
    ensures WellFormed(q) <==> Columns(p.cond) <= Produced(p.child.child)
  {
    var cond, ks, child := p.cond, p.child.keys, p.child.child;
    WellFormedFits(p);
    AvailableBelow(cond, ks, Produced(child), {});
    assert Produced(child) + {} == Produced(child);
  }

  lemma {:induction false} FilterAggRows(env: Env, cond: Expr, ks: seq<Expr>, gs: seq<Expr>, c: Plan)
    requires Plain(cond) && Columns(cond) <= OutCols(ks) && Fits(HashAgg(ks, gs, c)) && Unambiguous(c)
    ensures Rows(env, Filter(cond, HashAgg(ks, gs, c))) == Rows(env, HashAgg(ks, gs, Filter(cond, c)))
  {
    hide Rows, Bind, Eval, Consistent, Available;
    RowsFilter(env, cond, HashAgg(ks, gs, c));
    RowsAgg(env, ks, gs, c);
    RowsAgg(env, ks, gs, Filter(cond, c));
    RowsFilter(env, cond, c);
    RowsTyped(env, c);
    RowsConsistent(env, c);
    FilterThroughAgg(env, cond, ks, gs, Rows(env, c), Produced(c));
  }

  /** A condition on computed keys commutes with the aggregation too, and runs; but then the pushed filter is
      not well formed: the analysis no longer sees which columns it uses. */
  lemma {:induction false} FilterHashAggRows(env: Env, p: Plan, q: Plan)
    requires WellFormed(p) && Unambiguous(p) && FilterHashAgg(p, q)
    ensures Schema(q) == Schema(p) && Base(q) == Base(p) && Unambiguous(q) && Resolves(q)
    ensures Rows(env, q) == Rows(env, p) && ExecRows(env, q) == ExecRows(env, p)
    ensures WellFormed(q) <==> Columns(p.cond) <= Produced(p.child.child)
  {
    hide Rows, ExecRows, Resolves;
    FilterHashAggShape(p, q);
    WellFormedFits(p);
    FilterAggRows(env, p.cond, p.child.keys, p.child.aggs, p.child.child);
    FitsResolves(q);
    SameExecIff(env, p, q);
  }

  // ---- filters and join conditions ----

  predicate FilterInnerJoin(p: Plan, q: Plan) {
    && p.Filter? && p.child.Join? && p.child.ty.Inner?
    && q == p.child.(on := And(p.child.on, p.cond))
  }

  predicate FilterSemiJoin(p: Plan, q: Plan) {
    && p.Filter? && p.child.Join? && p.child.ty.Semi?
    && q == p.child.(on := And(p.child.on, p.cond))
  }

  /** Through an anti or left outer join, to the left input. */
  predicate FilterLeftJoin(p: Plan, q: Plan) {
    && p.Filter? && p.child.Join? && (p.child.ty.Anti? || p.child.ty.LeftOuter?)
    && q == p.child.(left := Filter(p.cond, p.child.left))
    && Columns(p.cond) !! Produced(p.child.right)
  }

  predicate CondLeft(p: Plan, q: Plan) {
    && p.Join? && p.on.And? && q == p.(on := p.on.b, left := Filter(p.on.a, p.left))
    && Columns(p.on.a) !! Produced(p.right)
  }

  predicate CondLeft1(p: Plan, q: Plan) {
    && p.Join? && q == p.(on := TRUE, left := Filter(p.on, p.left))
    && Columns(p.on) !! Produced(p.right)
  }

  predicate CondRight(p: Plan, q: Plan) {
    && p.Join? && p.on.And? && q == p.(on := p.on.b, right := Filter(p.on.a, p.right))
    && Columns(p.on.a) !! Produced(p.left)
  }

  predicate CondRight1(p: Plan, q: Plan) {
    && p.Join? && q == p.(on := TRUE, right := Filter(p.on, p.right))
    && Columns(p.on) !! Produced(p.left)
  }

  /** The join types in which an unmatched left (right) row leaves no trace. */
  predicate LeftPushable(ty: JoinType) {
    ty.Inner? || ty.Semi? || ty.RightOuter?
  }

  predicate RightPushable(ty: JoinType) {
    ty.Inner? || ty.Semi? || ty.Anti? || ty.LeftOuter?
  }

  lemma {:induction false} HoldsOnLeft(env: Env, c: Expr, a: Named, b: Named)
    requires Columns(c) <= a.Keys && a.Keys !! b.Keys
    ensures Holds(env, c, a + b) == Holds(env, c, a)
  {
    EvalFrame(env, c, a + b, a);
  }

  lemma {:induction false} HoldsOnRight(env: Env, c: Expr, a: Named, b: Named)
    requires Columns(c) <= b.Keys
    ensures Holds(env, c, a + b) == Holds(env, c, b)
  {
    EvalFrame(env, c, a + b, b);
  }

  lemma {:induction false} FilterInnerJoinSound(env: Env, p: Plan, q: Plan)
    requires WellFormed(p) && Unambiguous(p) && FilterInnerJoin(p, q)
    ensures Same(env, p, q)
  {
    var j := p.child;
    var ls, rs, lc, rc := Rows(env, j.left), Rows(env, j.right), Produced(j.left), Produced(j.right);
    RowsFilter(env, p.cond, j);
    RowsJoin(env, Inner, j.on, j.left, j.right);
    RowsJoin(env, Inner, q.on, j.left, j.right);
    InnerIsDoubleSum(env, j.on, ls, rs, lc, rc);
    InnerIsDoubleSum(env, q.on, ls, rs, lc, rc);
    FilterInner(env, j.on, p.cond, ls, rs);
  }

  /** Whatever a left row contributes carries that row's columns. */
  lemma {:induction false} FromLeftExtends(env: Env, ty: JoinType, on: Expr, a: Named, rs: multiset<Named>,
                                           rc: set<Expr>, y: Named)
    requires Typed(rs, rc) && a.Keys !! rc && y in FromLeft(env, ty, on, a, rs, rc)
    ensures AgreeOn(a.Keys, y, a)
  {
    if HasMatch(env, on, a, rs) && !ty.Semi? && !ty.Anti? {
      MatchExtends(env, on, a, rs, rc, y);
    } else {
      NullKeys(rc);
      assert y == a || y == a + Nulls(rc);
    }
  }

  lemma {:induction false} MatchExtends(env: Env, on: Expr, a: Named, rs: multiset<Named>, rc: set<Expr>, y: Named)
    requires Typed(rs, rc) && a.Keys !! rc && y in Matches(env, on, a, rs)
    ensures AgreeOn(a.Keys, y, a)
  {
    BindMember(rs, PairF(env, on, a), y);
    var b :| b in rs && y in PairF(env, on, a)(b);
    JoinedAgrees(a, b, rc);
  }

  lemma {:induction false} JoinedAgrees(a: Named, b: Named, rc: set<Expr>)
    requires b.Keys == rc && a.Keys !! rc
    ensures AgreeOn(a.Keys, a + b, a)
  {}

  lemma {:induction false} CondOnContribution(env: Env, ty: JoinType, on: Expr, cond: Expr, a: Named,
                                              rs: multiset<Named>, rc: set<Expr>, y: Named)
    requires Typed(rs, rc) && a.Keys !! rc && Columns(cond) <= a.Keys && y in FromLeft(env, ty, on, a, rs, rc)
    ensures Holds(env, cond, y) == Holds(env, cond, a)
  {
    FromLeftExtends(env, ty, on, a, rs, rc, y);
    EvalFrame(env, cond, y, a);
  }

  lemma {:induction false} LeftSumFiltered(env: Env, ty: JoinType, on: Expr, cond: Expr, ls: multiset<Named>,
                                           rs: multiset<Named>,
                        lc: set<Expr>, rc: set<Expr>)
    requires Typed(ls, lc) && Typed(rs, rc) && lc !! rc && Columns(cond) <= lc
    ensures Keep(Bind(ls, LeftF(env, ty, on, rs, rc)), HoldsF(env, cond)) ==
            Bind(Keep(ls, HoldsF(env, cond)), LeftF(env, ty, on, rs, rc))
  {
    var f, h := LeftF(env, ty, on, rs, rc), HoldsF(env, cond);
    forall a, y | a in ls && y in f(a) ensures h(y) == h(a) {
      CondOnContribution(env, ty, on, cond, a, rs, rc, y);
    }
    FilterCommutes(ls, f, h, h);
  }

  lemma {:induction false} NoRightSum(env: Env, ty: JoinType, on: Expr, ls: multiset<Named>, rs: multiset<Named>,
                                      lc: set<Expr>, rc: set<Expr>)
    requires RightPushable(ty)
    ensures JoinRows(env, ty, on, ls, rs, lc, rc) == Bind(ls, LeftF(env, ty, on, rs, rc))
  {
    NothingFromRight(env, ty, on, ls, rs, lc);
  }

  lemma {:induction false} NothingFromRight(env: Env, ty: JoinType, on: Expr, ls: multiset<Named>,
                                            rs: multiset<Named>, lc: set<Expr>)
    requires RightPushable(ty)
    ensures Bind(rs, RightF(env, ty, on, ls, lc)) == multiset{}
  {
    BindNone(rs, RightF(env, ty, on, ls, lc));
  }

  lemma {:induction false} FilterThroughLeft(env: Env, ty: JoinType, on: Expr, cond: Expr, ls: multiset<Named>,
                                             rs: multiset<Named>,
                          lc: set<Expr>, rc: set<Expr>)
    requires RightPushable(ty) && Typed(ls, lc) && Typed(rs, rc) && lc !! rc && Columns(cond) <= lc
    ensures Keep(JoinRows(env, ty, on, ls, rs, lc, rc), HoldsF(env, cond)) ==
            JoinRows(env, ty, on, Keep(ls, HoldsF(env, cond)), rs, lc, rc)
  {
    NoRightSum(env, ty, on, ls, rs, lc, rc);
    NoRightSum(env, ty, on, Keep(ls, HoldsF(env, cond)), rs, lc, rc);
    LeftSumFiltered(env, ty, on, cond, ls, rs, lc, rc);
  }

  lemma {:induction false} FilterLeftJoinSound(env: Env, p: Plan, q: Plan)
    requires WellFormed(p) && Unambiguous(p) && FilterLeftJoin(p, q)
    ensures Same(env, p, q)
  {
    var j := p.child;
    RowsFilter(env, p.cond, j);
    RowsJoin(env, j.ty, j.on, j.left, j.right);
    RowsJoin(env, j.ty, j.on, q.left, j.right);
    RowsFilter(env, p.cond, j.left);
    RowsTyped(env, j.left);
    RowsTyped(env, j.right);
    FilterThroughLeft(env, j.ty, j.on, p.cond, Rows(env, j.left), Rows(env, j.right), Produced(j.left),
        Produced(j.right));
  }

  lemma {:induction false} SplitsLeftByColumns(env: Env, on: Expr, c1: Expr, c2: Expr, ls: multiset<Named>,
                                               rs: multiset<Named>, lc: set<Expr>, rc: set<Expr>)
    requires Typed(ls, lc) && Typed(rs, rc) && lc !! rc && Columns(c1) <= lc
    requires forall r :: Holds(env, on, r) <==> Holds(env, c1, r) && Holds(env, c2, r)
    ensures SplitsLeft(env, on, c1, c2, ls, rs)
  {
    forall a, b | a in ls && b in rs ensures Holds(env, on, a + b) <==> Holds(env, c1, a) && Holds(env, c2, a + b) {
      HoldsOnLeft(env, c1, a, b);
    }
  }

  lemma {:induction false} SplitsRightByColumns(env: Env, on: Expr, c1: Expr, c2: Expr, ls: multiset<Named>,
                                                rs: multiset<Named>, lc: set<Expr>, rc: set<Expr>)
    requires Typed(ls, lc) && Typed(rs, rc) && Columns(c1) <= rc
    requires forall r :: Holds(env, on, r) <==> Holds(env, c1, r) && Holds(env, c2, r)
    ensures SplitsRight(env, on, c1, c2, ls, rs)
  {
    forall a, b | a in ls && b in rs ensures Holds(env, on, a + b) <==> Holds(env, c1, b) && Holds(env, c2, a + b) {
      HoldsOnRight(env, c1, a, b);
    }
  }

  lemma {:induction false} SemiAbsorbs(env: Env, on: Expr, cond: Expr, ls: multiset<Named>, rs: multiset<Named>,
                                       lc: set<Expr>, rc: set<Expr>)
    requires Typed(ls, lc) && Typed(rs, rc) && lc !! rc && Columns(cond) <= lc
    ensures JoinRows(env, Semi, And(on, cond), ls, rs, lc, rc) ==
            JoinRows(env, Semi, on, Keep(ls, HoldsF(env, cond)), rs, lc, rc)
  {
    forall r ensures Holds(env, And(on, cond), r) <==> Holds(env, cond, r) && Holds(env, on, r) {
      HoldsAnd(env, on, cond, r);
    }
    SplitsLeftByColumns(env, And(on, cond), cond, on, ls, rs, lc, rc);
    PushLeft(env, Semi, And(on, cond), cond, on, ls, rs, lc, rc);
    BindNone(Keep(ls, FailsF(env, cond)), AloneF(Semi, rc));
  }

  lemma {:induction false} FilterSemiJoinSound(env: Env, p: Plan, q: Plan)
    requires WellFormed(p) && Unambiguous(p) && FilterSemiJoin(p, q)
    ensures Same(env, p, q)
  {
    var j := p.child;
    var ls, rs, lc, rc := Rows(env, j.left), Rows(env, j.right), Produced(j.left), Produced(j.right);
    RowsFilter(env, p.cond, j);
    RowsJoin(env, Semi, j.on, j.left, j.right);
    RowsJoin(env, Semi, q.on, j.left, j.right);
    RowsTyped(env, j.left);
    RowsTyped(env, j.right);
    FilterThroughLeft(env, Semi, j.on, p.cond, ls, rs, lc, rc);
    SemiAbsorbs(env, j.on, p.cond, ls, rs, lc, rc);
  }

  // ---- pushing a join condition to one input: sound for the pushable types, and otherwise exactly when
  //      no row of that input fails it ----

  lemma {:induction false} ResidueEmptyIff(env: Env, c: Expr, rows: multiset<Named>, f: Named -> multiset<Named>)
    requires forall r :: f(r) != multiset{}
    ensures Bind(Keep(rows, FailsF(env, c)), f) == multiset{} <==> forall r :: r in rows ==> Holds(env, c, r)
  {
    if forall r :: r in rows ==> Holds(env, c, r) {
      KeepNone(rows, FailsF(env, c));
      BindEmpty(f);
    } else {
      var r :| r in rows && !Holds(env, c, r);
      KeepMember(rows, FailsF(env, c), r);
      var y :| y in f(r);
      BindMember(Keep(rows, FailsF(env, c)), f, y);
    }
  }

  ghost predicate AllHold(env: Env, c: Expr, p: Plan) {
    forall r :: r in Rows(env, p) ==> Holds(env, c, r)
  }

  /** The general left push, for a condition equivalent to `c1 AND c2`. */
  lemma {:induction false} PushLeftIff(env: Env, p: Plan, c1: Expr, c2: Expr)
    requires WellFormed(p) && p.Join? && Columns(c1) <= Produced(p.left)
    requires forall r :: Holds(env, p.on, r) <==> Holds(env, c1, r) && Holds(env, c2, r)
    ensures Rows(env, p) == Rows(env, p.(on := c2, left := Filter(c1, p.left))) <==>
            LeftPushable(p.ty) || AllHold(env, c1, p.left)
  {
    var ls, rs, lc, rc := Rows(env, p.left), Rows(env, p.right), Produced(p.left), Produced(p.right);
    RowsJoin(env, p.ty, p.on, p.left, p.right);
    RowsJoin(env, p.ty, c2, Filter(c1, p.left), p.right);
    RowsFilter(env, c1, p.left);
    RowsTyped(env, p.left);
    RowsTyped(env, p.right);
    SplitsLeftByColumns(env, p.on, c1, c2, ls, rs, lc, rc);
    PushLeft(env, p.ty, p.on, c1, c2, ls, rs, lc, rc);
    LeftResidue(env, p.ty, c1, ls, rc);
  }

  lemma {:induction false} LeftResidue(env: Env, ty: JoinType, c: Expr, ls: multiset<Named>, rc: set<Expr>)
    ensures Bind(Keep(ls, FailsF(env, c)), AloneF(ty, rc)) == multiset{} <==>
            LeftPushable(ty) || forall r :: r in ls ==> Holds(env, c, r)
  {
    if LeftPushable(ty) {
      BindNone(Keep(ls, FailsF(env, c)), AloneF(ty, rc));
    } else {
      ResidueEmptyIff(env, c, ls, AloneF(ty, rc));
    }
  }

  lemma {:induction false} RightResidue(env: Env, ty: JoinType, c: Expr, rs: multiset<Named>, lc: set<Expr>)
    ensures Bind(Keep(rs, FailsF(env, c)), AloneRightF(ty, lc)) == multiset{} <==>
            RightPushable(ty) || forall r :: r in rs ==> Holds(env, c, r)
  {
    if RightPushable(ty) {
      BindNone(Keep(rs, FailsF(env, c)), AloneRightF(ty, lc));
    } else {
      ResidueEmptyIff(env, c, rs, AloneRightF(ty, lc));
    }
  }

  lemma {:induction false} PushRightIff(env: Env, p: Plan, c1: Expr, c2: Expr)
    requires WellFormed(p) && p.Join? && Columns(c1) <= Produced(p.right)
    requires forall r :: Holds(env, p.on, r) <==> Holds(env, c1, r) && Holds(env, c2, r)
    ensures Rows(env, p) == Rows(env, p.(on := c2, right := Filter(c1, p.right))) <==>
            RightPushable(p.ty) || AllHold(env, c1, p.right)
  {
    var ls, rs, lc, rc := Rows(env, p.left), Rows(env, p.right), Produced(p.left), Produced(p.right);
    RowsJoin(env, p.ty, p.on, p.left, p.right);
    RowsJoin(env, p.ty, c2, p.left, Filter(c1, p.right));
    RowsFilter(env, c1, p.right);
    RowsTyped(env, p.left);
    RowsTyped(env, p.right);
    SplitsRightByColumns(env, p.on, c1, c2, ls, rs, lc, rc);
    PushRight(env, p.ty, p.on, c1, c2, ls, rs, lc, rc);
    RightResidue(env, p.ty, c1, rs, lc);
  }

  lemma {:induction false} CondLeftShape(p: Plan, q: Plan)
    requires WellFormed(p) && Unambiguous(p) && (CondLeft(p, q) || CondLeft1(p, q))
    ensures Schema(q) == Schema(p) && Base(q) == Base(p) && Unambiguous(q)
    ensures WellFormed(q) <==> !IsCol(q.on) && !IsCol(q.left.cond)
  {}

  lemma {:induction false} CondLeftRows(env: Env, p: Plan, q: Plan)
    requires WellFormed(p) && Unambiguous(p) && CondLeft(p, q)
    ensures Rows(env, p) == Rows(env, q) <==> LeftPushable(p.ty) || AllHold(env, p.on.a, p.left)
  {
    forall r ensures Holds(env, p.on, r) <==> Holds(env, p.on.a, r) && Holds(env, p.on.b, r) {
      HoldsAnd(env, p.on.a, p.on.b, r);
    }
    PushLeftIff(env, p, p.on.a, p.on.b);
  }

  lemma {:induction false} CondLeft1Rows(env: Env, p: Plan, q: Plan)
    requires WellFormed(p) && Unambiguous(p) && CondLeft1(p, q)
    ensures Rows(env, p) == Rows(env, q) <==> LeftPushable(p.ty) || AllHold(env, p.on, p.left)
  {
    forall r ensures Holds(env, TRUE, r) {
      HoldsTrue(env, r);
    }
    PushLeftIff(env, p, p.on, TRUE);
  }

  /** The rule is stated for every join type.  It keeps the rows exactly for inner, semi and right outer
      joins, and for the others when no left row fails the pushed condition.  Its result runs exactly when
      no part is only a column. */
  lemma {:induction false} CondLeftSoundIff(env: Env, p: Plan, q: Plan)
    requires WellFormed(p) && Unambiguous(p) && (CondLeft(p, q) || CondLeft1(p, q))
    ensures Schema(q) == Schema(p) && Base(q) == Base(p) && Unambiguous(q)
    ensures WellFormed(q) <==> !IsCol(q.on) && !IsCol(q.left.cond)
    ensures Rows(env, p) == Rows(env, q) <==> LeftPushable(p.ty) || AllHold(env, q.left.cond, p.left)
    ensures WellFormed(q) ==>
              (ExecRows(env, p) == ExecRows(env, q) <==> LeftPushable(p.ty) || AllHold(env, q.left.cond, p.left))
  {
    hide Rows, ExecRows;
    CondLeftShape(p, q);
    if CondLeft(p, q) {
      CondLeftRows(env, p, q);
    } else {
      CondLeft1Rows(env, p, q);
    }
    if WellFormed(q) {
      WellFormedFits(p);
      WellFormedFits(q);
      SameExecIff(env, p, q);
    }
  }

  lemma {:induction false} CondRightShape(p: Plan, q: Plan)
    requires WellFormed(p) && Unambiguous(p) && (CondRight(p, q) || CondRight1(p, q))
    ensures Schema(q) == Schema(p) && Base(q) == Base(p) && Unambiguous(q)
    ensures WellFormed(q) <==> !IsCol(q.on) && !IsCol(q.right.cond)
  {}

  lemma {:induction false} CondRightRows(env: Env, p: Plan, q: Plan)
    requires WellFormed(p) && Unambiguous(p) && CondRight(p, q)
    ensures Rows(env, p) == Rows(env, q) <==> RightPushable(p.ty) || AllHold(env, p.on.a, p.right)
  {
    forall r ensures Holds(env, p.on, r) <==> Holds(env, p.on.a, r) && Holds(env, p.on.b, r) {
      HoldsAnd(env, p.on.a, p.on.b, r);
    }
    PushRightIff(env, p, p.on.a, p.on.b);
  }

  lemma {:induction false} CondRight1Rows(env: Env, p: Plan, q: Plan)
    requires WellFormed(p) && Unambiguous(p) && CondRight1(p, q)
    ensures Rows(env, p) == Rows(env, q) <==> RightPushable(p.ty) || AllHold(env, p.on, p.right)
  {
    forall r ensures Holds(env, TRUE, r) {
      HoldsTrue(env, r);
    }
    PushRightIff(env, p, p.on, TRUE);
  }

  /** Likewise to the right: inner, semi, anti and left outer joins. */
  lemma {:induction false} CondRightSoundIff(env: Env, p: Plan, q: Plan)
    requires WellFormed(p) && Unambiguous(p) && (CondRight(p, q) || CondRight1(p, q))
    ensures Schema(q) == Schema(p) && Base(q) == Base(p) && Unambiguous(q)
    ensures WellFormed(q) <==> !IsCol(q.on) && !IsCol(q.right.cond)
    ensures Rows(env, p) == Rows(env, q) <==> RightPushable(p.ty) || AllHold(env, q.right.cond, p.right)
    ensures WellFormed(q) ==>
              (ExecRows(env, p) == ExecRows(env, q) <==> RightPushable(p.ty) || AllHold(env, q.right.cond, p.right))
  {
    hide Rows, ExecRows;
    CondRightShape(p, q);
    if CondRight(p, q) {
      CondRightRows(env, p, q);
    } else {
      CondRight1Rows(env, p, q);
    }
    if WellFormed(q) {
      WellFormedFits(p);
      WellFormedFits(q);
      SameExecIff(env, p, q);
    }
  }

  // ---- join reordering ----

  predicate JoinRotate(p: Plan, q: Plan) {
    && p.Join? && p.ty.Inner? && p.left.Join? && p.left.ty.Inner?
    && q == Join(Inner, And(p.on, p.left.on), p.left.left, Join(Inner, TRUE, p.left.right, p.right))
  }

  predicate JoinSwap(p: Plan, q: Plan) {
    && p.Proj? && p.child.Join? && p.child.ty.Inner?
    && q == Proj(p.exprs, Join(Inner, p.child.on, p.child.right, p.child.left))
  }

  lemma {:induction false} LooksLeftByColumns(env: Env, c2: Expr, ls: multiset<Named>, ms: multiset<Named>,
                                              rs: multiset<Named>,
                           lc: set<Expr>, mc: set<Expr>, rc: set<Expr>)
    requires Typed(ls, lc) && Typed(ms, mc) && Typed(rs, rc)
    requires lc !! mc && lc + mc !! rc && Columns(c2) <= lc + mc
    ensures LooksLeft(env, c2, ls, ms, rs)
  {
    forall a, m, b | a in ls && m in ms && b in rs ensures Holds(env, c2, a + (m + b)) == Holds(env, c2, a + m) {
      EvalFrame(env, c2, a + (m + b), a + m);
    }
  }

  lemma {:induction false} JoinRotateRows(env: Env, p: Plan, q: Plan)
    requires JoinRotate(p, q) && Produced(p.left.left) !! Produced(p.left.right)
    requires Produced(p.left.left) + Produced(p.left.right) !! Produced(p.right)
    requires Columns(p.left.on) <= Produced(p.left.left) + Produced(p.left.right)
    ensures Rows(env, q) == Rows(env, p)
  {
    var l, m, r := p.left.left, p.left.right, p.right;
    var ls, ms, rs := Rows(env, l), Rows(env, m), Rows(env, r);
    RowsTyped(env, l);
    RowsTyped(env, m);
    RowsTyped(env, r);
    LooksLeftByColumns(env, p.left.on, ls, ms, rs, Produced(l), Produced(m), Produced(r));
    RowsInner(env, p.left.on, l, m);
    RowsInner(env, p.on, p.left, r);
    RowsInner(env, TRUE, m, r);
    RowsInner(env, q.on, l, q.right);
    RotateInner(env, p.on, p.left.on, ls, ms, rs);
  }

  lemma {:induction false} RowsInner(env: Env, on: Expr, l: Plan, r: Plan)
    ensures Rows(env, Join(Inner, on, l, r)) == Bind(Rows(env, l), MatchesF(env, on, Rows(env, r)))
  {
    var ls, rs, lc, rc := Rows(env, l), Rows(env, r), Produced(l), Produced(r);
    RowsJoin(env, Inner, on, l, r);
    InnerIsDoubleSum(env, on, ls, rs, lc, rc);
  }

  lemma {:induction false} JoinRotateShape(p: Plan, q: Plan)
    requires WellFormed(p) && Unambiguous(p) && JoinRotate(p, q)
    ensures Shape(p, q)
  {
    var l, m, r := p.left.left, p.left.right, p.right;
    assert Schema(l) + Schema(m) + Schema(r) == Schema(l) + (Schema(m) + Schema(r));
    assert Base(p) == Base(q);
  }

  lemma {:induction false} JoinRotateSound(env: Env, p: Plan, q: Plan)
    requires WellFormed(p) && Unambiguous(p) && JoinRotate(p, q)
    ensures Same(env, p, q)
  {
    JoinRotateShape(p, q);
    JoinRotateRows(env, p, q);
  }

  /** Rotation under projections: the inner projection is dropped. */
  predicate JoinRotate1(p: Plan, q: Plan) {
    && p.Proj? && p.child.Join? && p.child.ty.Inner?
    && p.child.left.Proj? && p.child.left.child.Join? && p.child.left.child.ty.Inner?
    && var x := p.child.left.child;
       q == Proj(p.exprs, Join(Inner, And(p.child.on, x.on), x.left, Join(Inner, TRUE, x.right, p.child.right)))
  }

  /** What a left row gives to a projected inner join. */
  ghost function PairsProjF(env: Env, on: Expr, es: seq<Expr>, rs: multiset<Named>): Named -> multiset<Named> {
    a => Bind(rs, PairProjF(env, on, es, a))
  }

  lemma {:induction false} ProjectedInner(env: Env, on: Expr, es: seq<Expr>, ls: multiset<Named>, rs: multiset<Named>)
    ensures Bind(Bind(ls, MatchesF(env, on, rs)), ProjF(env, es)) == Bind(ls, PairsProjF(env, on, es, rs))
  {
    hide Bind, Matches, PairProjF, ProjF;
    var f, g, h := MatchesF(env, on, rs), ProjF(env, es), PairsProjF(env, on, es, rs);
    forall a | a in ls ensures h(a) == Bind(f(a), g) {
      MatchesProjected(env, on, es, a, rs);
    }
    BindBind(ls, f, g, h);
  }

  lemma {:induction false} StableRow(env: Env, es: seq<Expr>, s: Named, r: Named)
    requires Consistent(env, r) && Derived(env, s, r) && AllAvailable(es, s.Keys)
    ensures ProjRow(env, es, s) == ProjRow(env, es, r)
    decreases |es|
  {
    if es != [] {
      Stable(env, es[0], s, r);
      StableRow(env, es[1..], s, r);
    }
  }

  /** Joining a row's projection is deriving from the joined row. */
  lemma {:induction false} ProjJoined(env: Env, pl: seq<Expr>, a: Named, b: Named, la: set<Expr>, lb: set<Expr>)
    requires Apart(a, b, la, lb) && Consistent(env, a) && Consistent(env, b)
    requires AllAvailable(pl, a.Keys) && OutCols(pl) !! b.Keys && forall c :: c in b ==> IsCol(c)
    ensures Derived(env, ProjRow(env, pl, a) + b, a + b)
  {
    var s := ProjRow(env, pl, a);
    ProjDerived(env, pl, a);
    ProjRowKeys(env, pl, a);
    OutWithin(pl, a.Keys, la);
    assert (a + b).Keys == a.Keys + b.Keys;
    forall c | c in s + b ensures Available(c, (a + b).Keys) && (s + b)[c] == Eval(env, c, a + b) {
      if c in s {
        AvailableMono(c, a.Keys, (a + b).Keys);
        MergedValue(env, c, a, b, la, lb);
      }
    }
  }

  /** A row of `x` and a row of `r`, and a projection of `x` that the expressions above can do without. */
  ghost predicate Droppable(env: Env, on: Expr, es: seq<Expr>, pl: seq<Expr>, xs: multiset<Named>,
                            rs: multiset<Named>, xc: set<Expr>, rc: set<Expr>, xb: set<Expr>, rb: set<Expr>) {
    && Joinable(env, xs, rs, xc, rc, xb, rb) && (forall c :: c in rc ==> IsCol(c))
    && AllAvailable(pl, xc) && OutCols(pl) !! rc
    && Available(on, OutCols(pl) + rc) && AllAvailable(es, OutCols(pl) + rc)
  }

  lemma {:induction false} UnprojectedPair(env: Env, on: Expr, es: seq<Expr>, pl: seq<Expr>, xs: multiset<Named>,
                                           rs: multiset<Named>, xc: set<Expr>, rc: set<Expr>, xb: set<Expr>,
                                           rb: set<Expr>, a: Named, b: Named)
    requires Droppable(env, on, es, pl, xs, rs, xc, rc, xb, rb) && a in xs && b in rs
    ensures PairProjF(env, on, es, ProjRow(env, pl, a))(b) == PairProjF(env, on, es, a)(b)
  {
    hide Consistent, Eval, Available, Within, SafeToPad;
    var s := ProjRow(env, pl, a);
    assert Apart(a, b, xb, rb);
    ProjJoined(env, pl, a, b, xb, rb);
    MergedConsistent(env, a, b, xb, rb);
    ProjRowKeys(env, pl, a);
    MergeKeys(s, b);
    Stable(env, on, s + b, a + b);
    StableRow(env, es, s + b, a + b);
  }

  lemma {:induction false} UnprojectedRow(env: Env, on: Expr, es: seq<Expr>, pl: seq<Expr>, xs: multiset<Named>,
                                          rs: multiset<Named>, xc: set<Expr>, rc: set<Expr>, xb: set<Expr>,
                                          rb: set<Expr>, a: Named)
    requires Droppable(env, on, es, pl, xs, rs, xc, rc, xb, rb) && a in xs
    ensures PairsProjF(env, on, es, rs)(ProjRow(env, pl, a)) == PairsProjF(env, on, es, rs)(a)
  {
    hide Bind, PairProjF, ProjRow, Droppable;
    var f, g := PairProjF(env, on, es, ProjRow(env, pl, a)), PairProjF(env, on, es, a);
    forall b | b in rs ensures f(b) == g(b) {
      UnprojectedPair(env, on, es, pl, xs, rs, xc, rc, xb, rb, a, b);
    }
    BindCong(rs, f, g);
  }

  /** Below a projected inner join a projection can go. */
  lemma {:induction false} UnprojectLeft(env: Env, on: Expr, es: seq<Expr>, pl: seq<Expr>, xs: multiset<Named>,
                                         rs: multiset<Named>, xc: set<Expr>, rc: set<Expr>, xb: set<Expr>,
                                         rb: set<Expr>)
    requires Droppable(env, on, es, pl, xs, rs, xc, rc, xb, rb)
    ensures Bind(Bind(xs, ProjF(env, pl)), PairsProjF(env, on, es, rs)) == Bind(xs, PairsProjF(env, on, es, rs))
  {
    hide Bind, PairsProjF, ProjRow, Droppable;
    var f, h := ProjF(env, pl), PairsProjF(env, on, es, rs);
    forall a | a in xs ensures h(a) == Bind(f(a), h) {
      UnprojectedRow(env, on, es, pl, xs, rs, xc, rc, xb, rb, a);
      BindOne(ProjRow(env, pl, a), h);
    }
    BindBind(xs, f, h, h);
  }

  lemma {:induction false} RowsProjInner(env: Env, es: seq<Expr>, on: Expr, l: Plan, r: Plan)
    ensures Rows(env, Proj(es, Join(Inner, on, l, r))) == Bind(Rows(env, l), PairsProjF(env, on, es, Rows(env, r)))
  {
    hide Bind, PairsProjF, MatchesF, Rows;
    RowsProj(env, es, Join(Inner, on, l, r));
    RowsInner(env, on, l, r);
    ProjectedInner(env, on, es, Rows(env, l), Rows(env, r));
  }

  /** What is known of a good plan under the rotation. */
  lemma {:induction false} ProjectedShape(es: seq<Expr>, on: Expr, pl: seq<Expr>, x: Plan, r: Plan)
    requires WellFormed(Proj(es, Join(Inner, on, Proj(pl, x), r))) &&
             Unambiguous(Proj(es, Join(Inner, on, Proj(pl, x), r)))
    ensures WellFormed(x) && Unambiguous(x) && WellFormed(r) && Unambiguous(r) && Base(x) !! Base(r) &&
            AllAvailable(pl, Produced(x)) && OutCols(pl) !! Produced(r)
    ensures AllPlain(es) && IsCondition(on) && Columns(on) + ColumnsOf(es) <= OutCols(pl) + Produced(r)
    ensures Available(on, OutCols(pl) + Produced(r)) && AllAvailable(es, OutCols(pl) + Produced(r))
  {
    hide Available, SafeToPad;
    assert WellFormed(Join(Inner, on, Proj(pl, x), r)) && Unambiguous(Join(Inner, on, Proj(pl, x), r));
    assert WellFormed(Proj(pl, x)) && Unambiguous(Proj(pl, x));
    PlainAllAvailable(pl, Produced(x));
    PlainAvailable(on, OutCols(pl) + Produced(r));
    PlainAllAvailable(es, OutCols(pl) + Produced(r));
  }

  lemma {:induction false} ProducedCols(p: Plan)
    ensures forall c :: c in Produced(p) ==> IsCol(c)
  {
    ProducedIsSchema(p);
    forall c | c in Produced(p) ensures IsCol(c) {
      OutColsAreCols(Schema(p), c);
    }
  }

  lemma {:induction false} DroppableRows(env: Env, es: seq<Expr>, on: Expr, pl: seq<Expr>, x: Plan, r: Plan)
    requires WellFormed(Proj(es, Join(Inner, on, Proj(pl, x), r))) &&
             Unambiguous(Proj(es, Join(Inner, on, Proj(pl, x), r))) && Produced(x) !! Produced(r)
    ensures Droppable(env, on, es, pl, Rows(env, x), Rows(env, r), Produced(x), Produced(r), Base(x), Base(r))
  {
    hide Rows, Available, Joinable, WellFormed, Unambiguous, Consistent;
    ProjectedShape(es, on, pl, x, r);
    WellFormedFits(x);
    WellFormedFits(r);
    RowsConsistent(env, x);
    RowsConsistent(env, r);
    JoinableRows(env, x, r);
    ProducedCols(r);
  }

  lemma {:induction false} DropInnerProj(env: Env, es: seq<Expr>, on: Expr, pl: seq<Expr>, x: Plan, r: Plan)
    requires WellFormed(Proj(es, Join(Inner, on, Proj(pl, x), r))) &&
             Unambiguous(Proj(es, Join(Inner, on, Proj(pl, x), r))) && Produced(x) !! Produced(r)
    ensures Rows(env, Proj(es, Join(Inner, on, Proj(pl, x), r))) == Rows(env, Proj(es, Join(Inner, on, x, r)))
  {
    hide Bind, PairsProjF, Rows, Droppable, WellFormed, Unambiguous;
    RowsProjInner(env, es, on, Proj(pl, x), r);
    RowsProjInner(env, es, on, x, r);
    RowsProj(env, pl, x);
    DroppableRows(env, es, on, pl, x, r);
    UnprojectLeft(env, on, es, pl, Rows(env, x), Rows(env, r), Produced(x), Produced(r), Base(x), Base(r));
  }

  /** Without the inner projection the join still has separate sides, and still provides every column used above
      it. */
  predicate KeepsColumns(p: Plan)
    requires p.Proj? && p.child.Join? && p.child.left.Proj?
  {
    var x, r := p.child.left.child, p.child.right;
    && Produced(x) !! Produced(r)
    && Columns(p.child.on) + ColumnsOf(p.exprs) <= Produced(x) + Produced(r)
  }

  lemma {:induction false} JoinRotate1Shape(p: Plan, q: Plan)
    requires WellFormed(p) && Unambiguous(p) && JoinRotate1(p, q)
    ensures Schema(q) == Schema(p) && Base(q) == Base(p) && Unambiguous(q)
    ensures WellFormed(q) <==> KeepsColumns(p)
  {
    hide Available, SafeToPad;
    var x, r := p.child.left.child, p.child.right;
    ProjectedShape(p.exprs, p.child.on, p.child.left.exprs, x, r);
    assert Produced(x) == Produced(x.left) + Produced(x.right) && Base(x) == Base(x.left) + Base(x.right);
    assert Base(p) == Base(x) + Base(r);
    assert Produced(q.child) == Produced(x.left) + (Produced(x.right) + Produced(r)) == Produced(x) + Produced(r);
    assert Base(q.child.right) == Base(x.right) + Base(r);
    assert Base(q) == Base(q.child) == Base(x.left) + Base(q.child.right);
    assert Unambiguous(q.child.right) && Unambiguous(q.child);
    assert WellFormed(q) <==> WellFormed(q.child) && ColumnsOf(q.exprs) <= Produced(q.child);
    assert WellFormed(q.child.right) <==> Produced(x.right) !! Produced(r);
  }

  lemma {:induction false} JoinRotate1Fits(p: Plan, q: Plan)
    requires WellFormed(p) && Unambiguous(p) && JoinRotate1(p, q) &&
             Produced(p.child.left.child) !! Produced(p.child.right)
    ensures Fits(q)
  {
    hide SafeToPad;
    var x, r, pl := p.child.left.child, p.child.right, p.child.left.exprs;
    ProjectedShape(p.exprs, p.child.on, pl, x, r);
    WellFormedFits(x);
    WellFormedFits(r);
    var all := Produced(x) + Produced(r);
    assert Produced(x) == Produced(x.left) + Produced(x.right);
    assert Produced(q.child) == Produced(x.left) + (Produced(x.right) + Produced(r)) == all;
    AvailableBelow(p.child.on, pl, Produced(x), Produced(r));
    AvailableMono(x.on, Produced(x), all);
    forall i | 0 <= i < |p.exprs| ensures Available(p.exprs[i], all) {
      ColumnsOfMember(p.exprs, i);
      AvailableBelow(p.exprs[i], pl, Produced(x), Produced(r));
    }
    assert Fits(q.child.right) && Fits(q.child);
  }

  /** The rule drops a projection unchecked.  With separate sides the rows are kept even where a dropped column
      is used above: it is computed again.  The result runs, but it is well formed exactly when the columns used
      above do not rest on the projection. */
  lemma {:induction false} JoinRotate1Rows(env: Env, p: Plan, q: Plan)
    requires WellFormed(p) && Unambiguous(p) && JoinRotate1(p, q) &&
             Produced(p.child.left.child) !! Produced(p.child.right)
    ensures Schema(q) == Schema(p) && Base(q) == Base(p) && Unambiguous(q) && Resolves(q)
    ensures Rows(env, q) == Rows(env, p) && ExecRows(env, q) == ExecRows(env, p)
    ensures WellFormed(q) <==> KeepsColumns(p)
  {
    hide Rows, ExecRows, Resolves, WellFormed, Unambiguous, Fits;
    var x, r := p.child.left.child, p.child.right;
    var mid := Join(Inner, p.child.on, x, r);
    JoinRotate1Shape(p, q);
    JoinRotate1Fits(p, q);
    DropInnerProj(env, p.exprs, p.child.on, p.child.left.exprs, x, r);
    ProjectedShape(p.exprs, p.child.on, p.child.left.exprs, x, r);
    InnerShape(x);
    JoinRotateRows(env, mid, q.child);
    RowsProj(env, p.exprs, mid);
    RowsProj(env, p.exprs, q.child);
    FitsResolves(q);
    WellFormedFits(p);
    SameExecIff(env, p, q);
  }

  lemma {:induction false} InnerShape(x: Plan)
    requires WellFormed(x) && x.Join? && x.ty.Inner?
    ensures Produced(x) == Produced(x.left) + Produced(x.right) && Produced(x.left) !! Produced(x.right)
    ensures Columns(x.on) <= Produced(x.left) + Produced(x.right)
  {}

  lemma {:induction false} JoinRotate1SoundIff(env: Env, p: Plan, q: Plan)
    requires WellFormed(p) && Unambiguous(p) && JoinRotate1(p, q)
    ensures Same(env, p, q) <==> KeepsColumns(p)
  {
    hide Rows, WellFormed, Unambiguous;
    JoinRotate1Shape(p, q);
    if KeepsColumns(p) {
      JoinRotate1Rows(env, p, q);
    }
  }

  lemma {:induction false} JoinSwapShape(p: Plan, q: Plan)
    requires WellFormed(p) && Unambiguous(p) && JoinSwap(p, q)
    ensures Shape(p, q)
  {
    assert Produced(p.child) == Produced(q.child) && Base(p) == Base(q);
  }

  lemma {:induction false} JoinSwapRows(env: Env, es: seq<Expr>, on: Expr, l: Plan, r: Plan)
    requires Produced(l) !! Produced(r)
    ensures Rows(env, Proj(es, Join(Inner, on, l, r))) == Rows(env, Proj(es, Join(Inner, on, r, l)))
  {
    RowsTyped(env, l);
    RowsTyped(env, r);
    RowsProj(env, es, Join(Inner, on, l, r));
    RowsProj(env, es, Join(Inner, on, r, l));
    RowsInner(env, on, l, r);
    RowsInner(env, on, r, l);
    SwapInner(env, on, Rows(env, l), Rows(env, r));
  }

  lemma {:induction false} JoinSwapSound(env: Env, p: Plan, q: Plan)
    requires WellFormed(p) && Unambiguous(p) && JoinSwap(p, q)
    ensures Same(env, p, q)
  {
    JoinSwapShape(p, q);
    JoinSwapRows(env, p.exprs, p.child.on, p.child.left, p.child.right);
  }

  // ---- projections ----

  /** `cs` lists the used ones among the columns `p` produces. */
  predicate Prunes(cs: seq<Expr>, p: Plan, used: set<Expr>) {
    AllCols(cs) && OutCols(cs) == Produced(p) * used
  }

  predicate PruneFilter(p: Plan, q: Plan) {
    && p.Proj? && p.child.Filter? && q.Proj? && q.child.Filter? && q.child.child.Proj?
    && q == Proj(p.exprs, Filter(p.child.cond, Proj(q.child.child.exprs, p.child.child)))
    && Prunes(q.child.child.exprs, p.child.child, ColumnsOf(p.exprs) + Columns(p.child.cond))
  }

  predicate PruneOrder(p: Plan, q: Plan) {
    && p.Proj? && p.child.Order? && q.Proj? && q.child.Order? && q.child.child.Proj?
    && q == Proj(p.exprs, Order(p.child.keys, Proj(q.child.child.exprs, p.child.child)))
    && Prunes(q.child.child.exprs, p.child.child, ColumnsOf(p.exprs) + ColumnsOf(p.child.keys))
  }

  predicate PruneAgg(p: Plan, q: Plan) {
    && p.HashAgg? && q.HashAgg? && q.child.Proj?
    && q == HashAgg(p.keys, p.aggs, Proj(q.child.exprs, p.child))
    && Prunes(q.child.exprs, p.child, ColumnsOf(p.keys) + ColumnsOf(p.aggs))
  }

  predicate PruneJoin(p: Plan, q: Plan) {
    && p.Proj? && p.child.Join? && q.Proj? && q.child.Join? && q.child.left.Proj? && q.child.right.Proj?
    && q == Proj(p.exprs, p.child.(left := Proj(q.child.left.exprs, p.child.left),
                                   right := Proj(q.child.right.exprs, p.child.right)))
    && Prunes(q.child.left.exprs, p.child.left, ColumnsOf(p.exprs) + Columns(p.child.on))
    && Prunes(q.child.right.exprs, p.child.right, ColumnsOf(p.exprs) + Columns(p.child.on))
  }

  predicate ProjProj(p: Plan, q: Plan) {
    && p.Proj? && p.child.Proj? && q == Proj(p.exprs, p.child.child)
    && ColumnsOf(p.exprs) <= Produced(p.child.child)
  }

  predicate IdenticalProj(p: Plan, q: Plan) {
    p.Proj? && q == p.child && p.exprs == Schema(p.child)
  }

  lemma {:induction false} PruneWellFormed(cs: seq<Expr>, p: Plan, used: set<Expr>)
    requires WellFormed(p) && Unambiguous(p) && Prunes(cs, p, used)
    ensures WellFormed(Proj(cs, p)) && Unambiguous(Proj(cs, p))
  {
    AllColsOut(cs);
  }

  lemma {:induction false} PruneFilterSound(env: Env, p: Plan, q: Plan)
    requires WellFormed(p) && Unambiguous(p) && PruneFilter(p, q)
    ensures Same(env, p, q)
  {
    var child, cs, cond, es := p.child.child, q.child.child.exprs, p.child.cond, p.exprs;
    PruneWellFormed(cs, child, ColumnsOf(es) + Columns(cond));
    assert Base(p.child) == Base(child) == Base(q.child.child) == Base(q.child);
    PruneFilterRows(env, child, cs, cond, es);
  }

  lemma {:induction false} PruneFilterRows(env: Env, child: Plan, cs: seq<Expr>, cond: Expr, es: seq<Expr>)
    requires AllCols(cs) && OutCols(cs) <= Produced(child) && ColumnsOf(es) <= OutCols(cs) &&
             Columns(cond) <= OutCols(cs)
    ensures Rows(env, Proj(es, Filter(cond, Proj(cs, child)))) == Rows(env, Proj(es, Filter(cond, child)))
  {
    var rows := Rows(env, child);
    RowsProj(env, es, Filter(cond, child));
    RowsFilter(env, cond, child);
    RowsProj(env, es, Filter(cond, Proj(cs, child)));
    RowsFilter(env, cond, Proj(cs, child));
    RowsProj(env, cs, child);
    RowsTyped(env, child);
    PruneBelowFilter(env, cond, cs, rows, Produced(child));
    KeepTyped(rows, HoldsF(env, cond), Produced(child));
    PruneBelowProj(env, es, cs, Keep(rows, HoldsF(env, cond)), Produced(child));
  }

  lemma {:induction false} PruneOrderShape(p: Plan, q: Plan)
    requires WellFormed(p) && Unambiguous(p) && PruneOrder(p, q)
    ensures Shape(p, q)
  {
    PruneWellFormed(q.child.child.exprs, p.child.child, ColumnsOf(p.exprs) + ColumnsOf(p.child.keys));
    assert Base(p.child) == Base(p.child.child) == Base(q.child.child) == Base(q.child);
  }

  lemma {:induction false} PruneOrderRows(env: Env, child: Plan, cs: seq<Expr>, ks: seq<Expr>, es: seq<Expr>)
    requires AllCols(cs) && OutCols(cs) <= Produced(child) && ColumnsOf(es) <= OutCols(cs)
    ensures Rows(env, Proj(es, Order(ks, Proj(cs, child)))) == Rows(env, Proj(es, Order(ks, child)))
  {
    RowsTyped(env, child);
    RowsProj(env, es, Order(ks, child));
    RowsProj(env, es, Order(ks, Proj(cs, child)));
    RowsProj(env, cs, child);
    PruneBelowProj(env, es, cs, Rows(env, child), Produced(child));
  }

  lemma {:induction false} PruneOrderSound(env: Env, p: Plan, q: Plan)
    requires WellFormed(p) && Unambiguous(p) && PruneOrder(p, q)
    ensures Same(env, p, q)
  {
    PruneOrderShape(p, q);
    PruneOrderRows(env, p.child.child, q.child.child.exprs, p.child.keys, p.exprs);
  }

  lemma {:induction false} PruneAggSound(env: Env, p: Plan, q: Plan)
    requires WellFormed(p) && Unambiguous(p) && PruneAgg(p, q)
    ensures Same(env, p, q)
  {
    var cs := q.child.exprs;
    PruneWellFormed(cs, p.child, ColumnsOf(p.keys) + ColumnsOf(p.aggs));
    RowsTyped(env, p.child);
    RowsAgg(env, p.keys, p.aggs, p.child);
    RowsAgg(env, p.keys, p.aggs, q.child);
    RowsProj(env, cs, p.child);
    PruneBelowAgg(env, p.keys, p.aggs, cs, Rows(env, p.child), Produced(p.child));
  }

  lemma {:induction false} PruneJoinShape(p: Plan, q: Plan)
    requires WellFormed(p) && Unambiguous(p) && PruneJoin(p, q)
    ensures Shape(p, q)
  {
    hide SafeToPad;
    var j, j', used := p.child, q.child, ColumnsOf(p.exprs) + Columns(p.child.on);
    assert WellFormed(j) && Unambiguous(j);
    PruneWellFormed(j'.left.exprs, j.left, used);
    PruneWellFormed(j'.right.exprs, j.right, used);
    if PadsLeft(j.ty) {
      FewerSafeToPad(Produced(j.left), Produced(j'.left));
    }
    if PadsRight(j.ty) {
      FewerSafeToPad(Produced(j.right), Produced(j'.right));
    }
    assert Produced(j') <= Produced(j) && ColumnsOf(p.exprs) <= Produced(j');
    assert Base(j'.left) == Base(j.left) && Base(j'.right) == Base(j.right);
    assert WellFormed(j') && Unambiguous(j') && Base(j') == Base(j);
  }

  lemma {:induction false} PruneJoinSound(env: Env, p: Plan, q: Plan)
    requires WellFormed(p) && Unambiguous(p) && PruneJoin(p, q)
    ensures Same(env, p, q)
  {
    var j, used := p.child, ColumnsOf(p.exprs) + Columns(p.child.on);
    var cl, cr := q.child.left.exprs, q.child.right.exprs;
    PruneJoinShape(p, q);
    RowsTyped(env, j.left);
    RowsTyped(env, j.right);
    RowsProj(env, p.exprs, j);
    RowsProj(env, p.exprs, q.child);
    RowsJoin(env, j.ty, j.on, j.left, j.right);
    RowsJoin(env, j.ty, j.on, q.child.left, q.child.right);
    RowsProj(env, cl, j.left);
    RowsProj(env, cr, j.right);
    PruneBelowJoin(env, j.ty, j.on, p.exprs, used, Produced(j.left), Produced(j.right), cl, cr,
                   Rows(env, j.left), Rows(env, j.right));
  }

  lemma {:induction false} ProjProjRows(env: Env, es1: seq<Expr>, es2: seq<Expr>, c: Plan)
    requires WellFormed(c) && Unambiguous(c) && AllPlain(es2) && ColumnsOf(es2) <= Produced(c)
    requires AllPlain(es1) && ColumnsOf(es1) <= OutCols(es2)
    ensures Rows(env, Proj(es1, Proj(es2, c))) == Rows(env, Proj(es1, c))
  {
    hide Rows, Bind, Eval, Consistent, Available, WellFormed, Unambiguous, Fits;
    RowsTyped(env, c);
    RowsProj(env, es1, Proj(es2, c));
    RowsProj(env, es2, c);
    RowsProj(env, es1, c);
    WellFormedFits(c);
    RowsConsistent(env, c);
    PlainAllAvailable(es2, Produced(c));
    PlainAllAvailable(es1, OutCols(es2));
    ProjThroughProj(env, es1, es2, Rows(env, c), Produced(c));
  }

  /** Skipping a projection keeps the rows, also where an expression is now read under a name that the plan below
      already produces. */
  lemma {:induction false} ProjProjSound(env: Env, p: Plan, q: Plan)
    requires WellFormed(p) && Unambiguous(p) && ProjProj(p, q)
    ensures Same(env, p, q)
  {
    hide Rows;
    assert WellFormed(p.child) && Unambiguous(p.child) && Base(p.child) == Base(q);
    ProjProjRows(env, p.exprs, p.child.exprs, p.child.child);
  }

  lemma {:induction false} IdenticalProjSound(env: Env, p: Plan, q: Plan)
    requires WellFormed(p) && Unambiguous(p) && IdenticalProj(p, q)
    ensures Same(env, p, q)
  {
    hide Eval, Consistent, Available, SafeToPad;
    RowsTyped(env, q);
    RowsProj(env, p.exprs, q);
    ProducedIsSchema(q);
    WellFormedFits(q);
    RowsConsistent(env, q);
    PlainAllAvailable(p.exprs, Produced(q));
    ProjKeepsAll(env, p.exprs, Rows(env, q));
  }

  lemma {:induction false} ProjKeepsRow(env: Env, es: seq<Expr>, r: Named)
    requires r.Keys == OutCols(es) && Consistent(env, r) && AllAvailable(es, r.Keys)
    ensures ProjRow(env, es, r) == r
  {
    ProjRowKeys(env, es, r);
    forall c | c in r ensures ProjRow(env, es, r)[c] == r[c] {
      ProjValue(env, es, r, c);
      OutColsAreCols(es, c);
    }
  }

  lemma {:induction false} ProjKeepsAll(env: Env, es: seq<Expr>, rows: multiset<Named>)
    requires Typed(rows, OutCols(es)) && AllConsistent(env, rows) && AllAvailable(es, OutCols(es))
    ensures Bind(rows, ProjF(env, es)) == rows
  {
    hide Consistent;
    forall r | r in rows ensures ProjF(env, es)(r) == multiset{r} {
      ProjKeepsRow(env, es, r);
    }
    BindReturn(rows, ProjF(env, es));
  }

  // ---- any rule, at any depth, any number of times ----

  predicate FilterRule(p: Plan, q: Plan) {
    || FilterTrue(p, q) || FilterFalse(p, q) || OrderNull(p, q)
    || FilterMerge(p, q) || (FilterMerge(q, p) && !IsCol(q.cond) && !IsCol(q.child.cond))
    || FilterOrder(p, q) || FilterProj(p, q)
    || (FilterHashAgg(p, q) && Columns(p.cond) <= Produced(p.child.child))
  }

  predicate JoinRule(p: Plan, q: Plan) {
    || FilterInnerJoin(p, q) || FilterSemiJoin(p, q) || FilterLeftJoin(p, q)
    || ((CondLeft(p, q) || CondLeft1(p, q)) && LeftPushable(p.ty) && !IsCol(q.on) && !IsCol(q.left.cond))
    || ((CondRight(p, q) || CondRight1(p, q)) && RightPushable(p.ty) && !IsCol(q.on) && !IsCol(q.right.cond))
    || JoinRotate(p, q) || (JoinRotate1(p, q) && KeepsColumns(p)) || JoinSwap(p, q)
  }

  predicate ProjRule(p: Plan, q: Plan) {
    || PruneFilter(p, q) || PruneOrder(p, q) || PruneAgg(p, q) || PruneJoin(p, q)
    || ProjProj(p, q) || IdenticalProj(p, q)
  }

  /** One of the rules at the root, with the guards under which it is sound. */
  predicate Root(p: Plan, q: Plan) {
    FilterRule(p, q) || JoinRule(p, q) || ProjRule(p, q)
  }

  lemma {:induction false} FilterRuleSound(env: Env, p: Plan, q: Plan)
    requires WellFormed(p) && Unambiguous(p) && FilterRule(p, q)
    ensures Same(env, p, q)
  {
    if FilterTrue(p, q) { FilterTrueSound(env, p, q); }
    else if FilterFalse(p, q) { FilterFalseSound(env, p, q); }
    else if OrderNull(p, q) { OrderNullSound(env, p, q); }
    else if FilterOrder(p, q) { FilterOrderSound(env, p, q); }
    else if FilterMerge(p, q) { FilterMergeSound(env, p, q); }
    else if FilterMerge(q, p) && !IsCol(q.cond) && !IsCol(q.child.cond) { FilterMergeSound(env, q, p); }
    else if FilterProj(p, q) { FilterProjSound(env, p, q); }
    else { FilterHashAggRows(env, p, q); }
  }

  lemma {:induction false} OrderNullSound(env: Env, p: Plan, q: Plan)
    requires WellFormed(p) && Unambiguous(p) && OrderNull(p, q)
    ensures Same(env, p, q)
  {}

  lemma {:induction false} FilterOrderSound(env: Env, p: Plan, q: Plan)
    requires WellFormed(p) && Unambiguous(p) && FilterOrder(p, q)
    ensures Same(env, p, q)
  {
    RowsFilter(env, p.cond, p.child);
    RowsFilter(env, p.cond, p.child.child);
  }

  lemma {:induction false} JoinRuleSound(env: Env, p: Plan, q: Plan)
    requires WellFormed(p) && Unambiguous(p) && JoinRule(p, q)
    ensures Same(env, p, q)
  {
    if FilterInnerJoin(p, q) { FilterInnerJoinSound(env, p, q); }
    else if FilterSemiJoin(p, q) { FilterSemiJoinSound(env, p, q); }
    else if FilterLeftJoin(p, q) { FilterLeftJoinSound(env, p, q); }
    else if (CondLeft(p, q) || CondLeft1(p, q)) && LeftPushable(p.ty) && !IsCol(q.on) && !IsCol(q.left.cond) {
      CondLeftSoundIff(env, p, q);
    } else if (CondRight(p, q) || CondRight1(p, q)) && RightPushable(p.ty) && !IsCol(q.on) && !IsCol(q.right.cond) {
      CondRightSoundIff(env, p, q);
    }
    else if JoinRotate(p, q) { JoinRotateSound(env, p, q); }
    else if JoinRotate1(p, q) && KeepsColumns(p) { JoinRotate1SoundIff(env, p, q); }
    else { JoinSwapSound(env, p, q); }
  }

  lemma {:induction false} ProjRuleSound(env: Env, p: Plan, q: Plan)
    requires WellFormed(p) && Unambiguous(p) && ProjRule(p, q)
    ensures Same(env, p, q)
  {
    if PruneFilter(p, q) { PruneFilterSound(env, p, q); }
    else if PruneOrder(p, q) { PruneOrderSound(env, p, q); }
    else if PruneAgg(p, q) { PruneAggSound(env, p, q); }
    else if PruneJoin(p, q) { PruneJoinSound(env, p, q); }
    else if ProjProj(p, q) { ProjProjSound(env, p, q); }
    else { IdenticalProjSound(env, p, q); }
  }

  lemma {:induction false} RootSound(env: Env, p: Plan, q: Plan)
    requires WellFormed(p) && Unambiguous(p) && Root(p, q)
    ensures Same(env, p, q)
  {
    if FilterRule(p, q) { FilterRuleSound(env, p, q); }
    else if JoinRule(p, q) { JoinRuleSound(env, p, q); }
    else { ProjRuleSound(env, p, q); }
  }

  /** `q` is `p` with one rule applied to one subplan, at any depth. */
  predicate Rewrites(p: Plan, q: Plan) {
    || Root(p, q)
    || match p
       case Scan(_, _) => false
       case Empty(c) => q.Empty? && Rewrites(c, q.child)
       case Filter(cond, c) => q.Filter? && q.cond == cond && Rewrites(c, q.child)
       case Order(ks, c) => q.Order? && q.keys == ks && Rewrites(c, q.child)
       case Proj(es, c) => q.Proj? && q.exprs == es && Rewrites(c, q.child)
       case Join(ty, on, l, r) =>
         && q.Join? && q.ty == ty && q.on == on
         && ((q.right == r && Rewrites(l, q.left)) || (q.left == l && Rewrites(r, q.right)))
       case HashAgg(ks, gs, c) => q.HashAgg? && q.keys == ks && q.aggs == gs && Rewrites(c, q.child)
  }

  lemma {:induction false} BelowShape(p: Plan, q: Plan)
    requires WellFormed(p) && Unambiguous(p) && !p.Scan? && !p.Join? && SameNode(p, q) && Shape(p.child, q.child)
    ensures Shape(p, q)
  {
    ShapeProduced(p.child, q.child);
  }

  lemma {:induction false} LeftShape(p: Plan, q: Plan)
    requires WellFormed(p) && Unambiguous(p) && p.Join? && q.Join? && q == p.(left := q.left)
    requires Shape(p.left, q.left)
    ensures Shape(p, q)
  {
    ShapeProduced(p.left, q.left);
  }

  lemma {:induction false} RightShape(p: Plan, q: Plan)
    requires WellFormed(p) && Unambiguous(p) && p.Join? && q.Join? && q == p.(right := q.right)
    requires Shape(p.right, q.right)
    ensures Shape(p, q)
  {
    ShapeProduced(p.right, q.right);
  }

  /** The same operator over another child. */
  predicate SameNode(p: Plan, q: Plan)
    requires !p.Scan? && !p.Join?
  {
    match p
    case Empty(_) => q.Empty?
    case Filter(cond, _) => q.Filter? && q.cond == cond
    case Order(ks, _) => q.Order? && q.keys == ks
    case Proj(es, _) => q.Proj? && q.exprs == es
    case HashAgg(ks, gs, _) => q.HashAgg? && q.keys == ks && q.aggs == gs
  }

  lemma {:induction false} BelowRows(env: Env, p: Plan, q: Plan)
    requires !p.Scan? && !p.Join? && SameNode(p, q) && Rows(env, p.child) == Rows(env, q.child)
    ensures Rows(env, p) == Rows(env, q)
  {
    hide Bind, Keep;
  }

  lemma {:induction false} JoinRowsBelow(env: Env, p: Plan, q: Plan)
    requires p.Join? && q.Join? && p.ty == q.ty && p.on == q.on
    requires Rows(env, p.left) == Rows(env, q.left) && Produced(p.left) == Produced(q.left)
    requires Rows(env, p.right) == Rows(env, q.right) && Produced(p.right) == Produced(q.right)
    ensures Rows(env, p) == Rows(env, q)
  {
    hide JoinRows;
  }

  /** Rewriting any subplan keeps the whole plan's bag of rows. */
  lemma {:induction false} RewriteSound(env: Env, p: Plan, q: Plan)
    requires WellFormed(p) && Unambiguous(p) && Rewrites(p, q)
    ensures Same(env, p, q)
    decreases p
  {
    hide Root, Rows, Shape, Available, Columns, SafeToPad;
    if Root(p, q) {
      RootSound(env, p, q);
    } else if p.Join? {
      if q.right == p.right && Rewrites(p.left, q.left) {
        RewriteSound(env, p.left, q.left);
        LeftShape(p, q);
        ShapeProduced(p.left, q.left);
      } else {
        RewriteSound(env, p.right, q.right);
        RightShape(p, q);
        ShapeProduced(p.right, q.right);
      }
      JoinRowsBelow(env, p, q);
    } else {
      RewriteSound(env, p.child, q.child);
      BelowShape(p, q);
      BelowRows(env, p, q);
    }
  }

  /** Any sequence of rewrites, at any depths, keeps a well-formed and unambiguous plan so, keeps its columns and
      the rows it means; and the executor returns the same tuples for every plan of the sequence. */
  lemma {:induction false} RewritesSound(env: Env, plans: seq<Plan>, n: nat)
    requires n < |plans| && WellFormed(plans[0]) && Unambiguous(plans[0])
    requires forall i :: 0 <= i < |plans| - 1 ==> Rewrites(plans[i], plans[i + 1])
    ensures Same(env, plans[0], plans[n])
    ensures Resolves(plans[n]) && ExecRows(env, plans[n]) == ExecRows(env, plans[0])
    decreases n
  {
    hide Rows, ExecRows, WellFormed, Unambiguous, Resolves, Rewrites, Schema, Base;
    if n > 0 {
      RewritesSound(env, plans, n - 1);
      assert Rewrites(plans[n - 1], plans[n - 1 + 1]);
      RewriteSound(env, plans[n - 1], plans[n]);
    }
    SameRuns(env, plans[0], plans[n]);
  }
}
