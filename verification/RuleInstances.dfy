/** Where the rewrite rules apply: every plan of the left-hand shape, under the conditions of the source. */
module RuleInstances {
  import opened Plans
  import opened Executions
  import opened Pruning
  import opened PlanRules

  lemma {:induction false} FiltersMove(cond: Expr, c2: Expr, ks: seq<Expr>, es: seq<Expr>, gs: seq<Expr>, c: Plan)
    ensures Root(Filter(TRUE, c), c)
    ensures Root(Filter(FALSE, c), Empty(c))
    ensures Root(Order([], c), c)
    ensures Root(Filter(cond, Filter(c2, c)), Filter(And(cond, c2), c))
    ensures !IsCol(cond) && !IsCol(c2) ==> Root(Filter(And(cond, c2), c), Filter(cond, Filter(c2, c)))
    ensures Root(Filter(cond, Order(ks, c)), Order(ks, Filter(cond, c)))
    ensures Columns(cond) <= Produced(c) ==> Root(Filter(cond, Proj(es, c)), Proj(es, Filter(cond, c)))
    ensures Columns(cond) <= Produced(c) && Columns(cond) !! OutCols(gs) ==>
              Root(Filter(cond, HashAgg(ks, gs, c)), HashAgg(ks, gs, Filter(cond, c)))
  {
    hide Produced, Columns;
  }

  lemma {:induction false} FiltersJoin(cond: Expr, on: Expr, l: Plan, r: Plan)
    ensures Root(Filter(cond, Join(Inner, on, l, r)), Join(Inner, And(on, cond), l, r))
    ensures Root(Filter(cond, Join(Semi, on, l, r)), Join(Semi, And(on, cond), l, r))
    ensures Columns(cond) !! Produced(r) ==>
              Root(Filter(cond, Join(Anti, on, l, r)), Join(Anti, on, Filter(cond, l), r))
    ensures Columns(cond) !! Produced(r) ==>
              Root(Filter(cond, Join(LeftOuter, on, l, r)), Join(LeftOuter, on, Filter(cond, l), r))
  {
    hide Produced, Columns;
  }

  /** A part of a join condition goes to the side it is about, for the join types where that keeps the rows. */
  lemma {:induction false} ConditionsMove(ty: JoinType, c1: Expr, c2: Expr, l: Plan, r: Plan)
    requires !IsCol(c1) && !IsCol(c2)
    ensures Columns(c1) !! Produced(r) && ty in {Inner, Semi, RightOuter} ==>
              && Root(Join(ty, And(c1, c2), l, r), Join(ty, c2, Filter(c1, l), r))
              && Root(Join(ty, c1, l, r), Join(ty, TRUE, Filter(c1, l), r))
    ensures Columns(c1) !! Produced(l) && ty in {Inner, Semi, Anti, LeftOuter} ==>
              && Root(Join(ty, And(c1, c2), l, r), Join(ty, c2, l, Filter(c1, r)))
              && Root(Join(ty, c1, l, r), Join(ty, TRUE, l, Filter(c1, r)))
  {
    hide Produced, Columns;
  }

  lemma {:induction false} JoinsMove(es: seq<Expr>, fs: seq<Expr>, on: Expr, on2: Expr, l: Plan, m: Plan, r: Plan)
    ensures Root(Join(Inner, on, Join(Inner, on2, l, m), r), Join(Inner, And(on, on2), l, Join(Inner, TRUE, m, r)))
    ensures Root(Proj(es, Join(Inner, on, l, r)), Proj(es, Join(Inner, on, r, l)))
    ensures var p := Proj(es, Join(Inner, on, Proj(fs, Join(Inner, on2, l, m)), r));
            KeepsColumns(p) ==> Root(p, Proj(es, Join(Inner, And(on, on2), l, Join(Inner, TRUE, m, r))))
  {
    hide Produced, Columns, ColumnsOf, KeepsColumns;
  }

  lemma {:induction false} ProjectionsGo(es: seq<Expr>, fs: seq<Expr>, c: Plan)
    ensures ColumnsOf(es) <= Produced(c) ==> Root(Proj(es, Proj(fs, c)), Proj(es, c))
    ensures Root(Proj(Schema(c), c), c)
  {
    hide Produced, ColumnsOf, Schema;
  }

  /** A rewrite of a part is a rewrite of the whole. */
  lemma {:induction false} PartsRewrite(c: Plan, d: Plan, cond: Expr, es: seq<Expr>, gs: seq<Expr>, ty: JoinType,
                                        x: Plan)
    requires Rewrites(c, d)
    ensures Rewrites(Empty(c), Empty(d)) && Rewrites(Filter(cond, c), Filter(cond, d))
    ensures Rewrites(Order(es, c), Order(es, d)) && Rewrites(Proj(es, c), Proj(es, d))
    ensures Rewrites(Join(ty, cond, c, x), Join(ty, cond, d, x)) && Rewrites(Join(ty, cond, x, c), Join(ty, cond, x, d))
    ensures Rewrites(HashAgg(es, gs, c), HashAgg(es, gs, d))
  {
    hide Root;
  }

  // ---- pruning ----

  lemma {:induction false} Listed(cols: set<Expr>) returns (cs: seq<Expr>)
    requires forall c :: c in cols ==> IsCol(c)
    ensures AllCols(cs) && OutCols(cs) == cols
    decreases |cols|
  {
    if cols == {} {
      cs := [];
    } else {
      var c :| c in cols;
      cs := Listed(cols - {c});
      cs := [c] + cs;
      assert OutCols(cs) == {c} + (cols - {c});
    }
  }

  lemma {:induction false} OutColsAreColumns(es: seq<Expr>)
    ensures forall c :: c in OutCols(es) ==> IsCol(c)
  {
    if es != [] {
      OutColsAreColumns(es[1..]);
    }
  }

  /** A list of the used columns of a plan. */
  lemma {:induction false} Prunable(p: Plan, used: set<Expr>) returns (cs: seq<Expr>)
    ensures Prunes(cs, p, used)
  {
    ProducedIsSchema(p);
    OutColsAreColumns(Schema(p));
    cs := Listed(Produced(p) * used);
  }

  /** Under a projection every filter, order and join can be pruned, and so can every aggregation. */
  lemma {:induction false} PruningApplies(p: Plan) returns (q: Plan)
    requires p.HashAgg? || (p.Proj? && (p.child.Filter? || p.child.Order? || p.child.Join?))
    ensures Root(p, q) && ProjRule(p, q)
    ensures p.HashAgg? ==> PruneAgg(p, q)
    ensures p.Proj? && p.child.Filter? ==> PruneFilter(p, q)
    ensures p.Proj? && p.child.Order? ==> PruneOrder(p, q)
    ensures p.Proj? && p.child.Join? ==> PruneJoin(p, q)
  {
    hide Prunes, Produced, Columns, ColumnsOf;
    if p.HashAgg? {
      var cs := Prunable(p.child, ColumnsOf(p.keys) + ColumnsOf(p.aggs));
      q := HashAgg(p.keys, p.aggs, Proj(cs, p.child));
    } else if p.child.Filter? {
      var cs := Prunable(p.child.child, ColumnsOf(p.exprs) + Columns(p.child.cond));
      q := Proj(p.exprs, Filter(p.child.cond, Proj(cs, p.child.child)));
    } else if p.child.Order? {
      var cs := Prunable(p.child.child, ColumnsOf(p.exprs) + ColumnsOf(p.child.keys));
      q := Proj(p.exprs, Order(p.child.keys, Proj(cs, p.child.child)));
    } else {
      var used := ColumnsOf(p.exprs) + Columns(p.child.on);
      var cl := Prunable(p.child.left, used);
      var cr := Prunable(p.child.right, used);
      q := Proj(p.exprs, p.child.(left := Proj(cl, p.child.left), right := Proj(cr, p.child.right)));
    }
  }
}
