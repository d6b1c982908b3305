/** Pushing filters through projections and aggregations, and pruning unused columns. */
module Pruning {
  import opened Common
  import opened Bags
  import opened Plans
  import opened Lookups

  // ---- filter through projection ----

  /** A projection changes no value that can be computed above it. */
  lemma {:induction false} ProjKeepsValue(env: Env, es: seq<Expr>, e: Expr, r: Named)
    requires Consistent(env, r) && AllAvailable(es, r.Keys) && Available(e, OutCols(es))
    ensures Eval(env, e, ProjRow(env, es, r)) == Eval(env, e, r)
  {
    ProjDerived(env, es, r);
    ProjRowKeys(env, es, r);
    Stable(env, e, ProjRow(env, es, r), r);
  }

  lemma {:induction false} FilterThroughProj(env: Env, cond: Expr, es: seq<Expr>, rows: multiset<Named>,
                                             cols: set<Expr>)
    requires Typed(rows, cols) && AllConsistent(env, rows) && AllAvailable(es, cols) && Available(cond, OutCols(es))
    ensures Keep(Bind(rows, ProjF(env, es)), HoldsF(env, cond)) == Bind(Keep(rows, HoldsF(env, cond)), ProjF(env, es))
  {
    hide Consistent;
    forall r, y | r in rows && y in ProjF(env, es)(r) ensures HoldsF(env, cond)(y) == HoldsF(env, cond)(r) {
      ProjKeepsValue(env, es, cond, r);
    }
    FilterCommutes(rows, ProjF(env, es), HoldsF(env, cond), HoldsF(env, cond));
  }

  lemma {:induction false} ProjProjRow(env: Env, es1: seq<Expr>, es2: seq<Expr>, r: Named)
    requires Consistent(env, r) && AllAvailable(es2, r.Keys) && AllAvailable(es1, OutCols(es2))
    ensures ProjRow(env, es1, ProjRow(env, es2, r)) == ProjRow(env, es1, r)
    decreases |es1|
  {
    if es1 != [] {
      ProjKeepsValue(env, es2, es1[0], r);
      ProjProjRow(env, es1[1..], es2, r);
    }
  }

  /** A projection of a projection is a projection of the child. */
  lemma {:induction false} ProjThroughProj(env: Env, es1: seq<Expr>, es2: seq<Expr>, rows: multiset<Named>,
                                           cols: set<Expr>)
    requires Typed(rows, cols) && AllConsistent(env, rows) && AllAvailable(es2, cols)
    requires AllAvailable(es1, OutCols(es2))
    ensures Bind(Bind(rows, ProjF(env, es2)), ProjF(env, es1)) == Bind(rows, ProjF(env, es1))
  {
    hide Consistent;
    forall r | r in rows ensures ProjF(env, es1)(r) == Bind(ProjF(env, es2)(r), ProjF(env, es1)) {
      ProjProjRow(env, es1, es2, r);
      BindOne(ProjRow(env, es2, r), ProjF(env, es1));
    }
    BindBind(rows, ProjF(env, es2), ProjF(env, es1), ProjF(env, es1));
  }

  // ---- filter through aggregation ----

  /** The aggregation: consistent rows, keys that can be computed, and a condition on the keys alone. */
  ghost predicate OnKeys(env: Env, cond: Expr, ks: seq<Expr>, rows: multiset<Named>, cols: set<Expr>) {
    && Typed(rows, cols) && AllConsistent(env, rows) && AllAvailable(ks, cols)
    && Plain(cond) && Columns(cond) <= OutCols(ks)
  }

  /** A condition on the group keys has the same value on the group's row as on each of its members. */
  lemma {:induction false} CondOnGroup(env: Env, cond: Expr, ks: seq<Expr>, aggs: Named, r: Named)
    requires Consistent(env, r) && AllAvailable(ks, r.Keys) && Plain(cond) && Columns(cond) <= OutCols(ks)
    ensures Eval(env, cond, aggs + KeyRow(ks, KeyValues(env, ks, r))) == Eval(env, cond, r)
  {
    var keyRow := ProjRow(env, ks, r);
    KeyRowIsProj(env, ks, r);
    ProjRowKeys(env, ks, r);
    EvalFrame(env, cond, aggs + keyRow, keyRow);
    PlainAvailable(cond, OutCols(ks));
    ProjKeepsValue(env, ks, cond, r);
  }

  ghost predicate GoodKey(env: Env, cond: Expr, ks: seq<Expr>, rows: multiset<Named>, k: seq<Value>) {
    exists r :: r in rows && KeyValues(env, ks, r) == k && Holds(env, cond, r)
  }

  ghost function GoodF(env: Env, cond: Expr, ks: seq<Expr>, rows: multiset<Named>): seq<Value> -> bool {
    k => GoodKey(env, cond, ks, rows, k)
  }

  /** The condition does not tell members of one group apart. */
  lemma {:induction false} CondPerGroup(env: Env, cond: Expr, ks: seq<Expr>, rows: multiset<Named>, cols: set<Expr>,
                                        r: Named, s: Named)
    requires OnKeys(env, cond, ks, rows, cols) && r in rows && s in rows
    requires KeyValues(env, ks, r) == KeyValues(env, ks, s)
    ensures Holds(env, cond, r) == Holds(env, cond, s)
  {
    hide Consistent;
    CondOnGroup(env, cond, ks, map[], r);
    CondOnGroup(env, cond, ks, map[], s);
  }

  lemma {:induction false} GroupUnfiltered(env: Env, cond: Expr, ks: seq<Expr>, rows: multiset<Named>,
                                           cols: set<Expr>, k: seq<Value>)
    requires OnKeys(env, cond, ks, rows, cols) && GoodKey(env, cond, ks, rows, k)
    ensures Group(env, ks, Keep(rows, HoldsF(env, cond)), k) == Group(env, ks, rows, k)
  {
    hide OnKeys;
    var inGroup := InGroupF(env, ks, k);
    var s :| s in rows && KeyValues(env, ks, s) == k && Holds(env, cond, s);
    forall r | r in rows ensures inGroup(r) == (inGroup(r) && HoldsF(env, cond)(r)) {
      if inGroup(r) {
        CondPerGroup(env, cond, ks, rows, cols, r, s);
      }
    }
    KeepKeep(rows, inGroup, HoldsF(env, cond), inGroup);
  }

  lemma {:induction false} KeysUnfiltered(env: Env, cond: Expr, ks: seq<Expr>, rows: multiset<Named>)
    ensures multiset(GroupKeys(env, ks, Keep(rows, HoldsF(env, cond)))) ==
            Keep(multiset(GroupKeys(env, ks, rows)), GoodF(env, cond, ks, rows))
  {
    var kept := Keep(rows, HoldsF(env, cond));
    var all := GroupKeys(env, ks, rows);
    var good := GroupKeys(env, ks, kept);
    forall k ensures k in good <==> k in all && GoodKey(env, cond, ks, rows, k) {
      forall r | r in kept ensures r in rows && Holds(env, cond, r) {
        KeepMember(rows, HoldsF(env, cond), r);
      }
      if GoodKey(env, cond, ks, rows, k) {
        var r :| r in rows && KeyValues(env, ks, r) == k && Holds(env, cond, r);
        KeepMember(rows, HoldsF(env, cond), r);
      }
    }
    forall k ensures multiset(good)[k] == Keep(multiset(all), GoodF(env, cond, ks, rows))[k] {
      KeepCount(multiset(all), GoodF(env, cond, ks, rows), k);
    }
  }

  lemma {:induction false} CondOnAggRow(env: Env, cond: Expr, ks: seq<Expr>, gs: seq<Expr>, rows: multiset<Named>,
                                        cols: set<Expr>, k: seq<Value>, y: Named)
    requires OnKeys(env, cond, ks, rows, cols)
    requires k in GroupKeys(env, ks, rows) && y in GroupF(env, ks, gs, rows)(k)
    ensures Holds(env, cond, y) == GoodKey(env, cond, ks, rows, k)
  {
    hide Consistent;
    var aggs := AggRow(env, gs, Group(env, ks, rows, k));
    var s :| s in rows && KeyValues(env, ks, s) == k;
    CondOnGroup(env, cond, ks, aggs, s);
    if GoodKey(env, cond, ks, rows, k) {
      var r :| r in rows && KeyValues(env, ks, r) == k && Holds(env, cond, r);
      CondPerGroup(env, cond, ks, rows, cols, r, s);
    }
  }

  /** A condition on the keys can be checked before grouping, computed keys included. */
  lemma {:induction false} FilterThroughAgg(env: Env, cond: Expr, ks: seq<Expr>, gs: seq<Expr>, rows: multiset<Named>,
                                            cols: set<Expr>)
    requires OnKeys(env, cond, ks, rows, cols)
    ensures Keep(Bind(multiset(GroupKeys(env, ks, rows)), GroupF(env, ks, gs, rows)), HoldsF(env, cond)) ==
            var kept := Keep(rows, HoldsF(env, cond));
            Bind(multiset(GroupKeys(env, ks, kept)), GroupF(env, ks, gs, kept))
  {
    hide OnKeys;
    var keys, f, good := multiset(GroupKeys(env, ks, rows)), GroupF(env, ks, gs, rows), GoodF(env, cond, ks, rows);
    forall k, y | k in keys && y in f(k) ensures HoldsF(env, cond)(y) == good(k) {
      CondOnAggRow(env, cond, ks, gs, rows, cols, k, y);
    }
    FilterCommutes(keys, f, HoldsF(env, cond), good);
    KeysUnfiltered(env, cond, ks, rows);
    var kept := Keep(rows, HoldsF(env, cond));
    forall k | k in Keep(keys, good) ensures f(k) == GroupF(env, ks, gs, kept)(k) {
      KeepMember(keys, good, k);
      GroupUnfiltered(env, cond, ks, rows, cols, k);
    }
    BindCong(Keep(keys, good), f, GroupF(env, ks, gs, kept));
  }

  // ---- pruning ----

  predicate AllCols(cs: seq<Expr>) {
    forall i :: 0 <= i < |cs| ==> IsCol(cs[i])
  }

  lemma {:induction false} AllColsOut(cs: seq<Expr>)
    requires AllCols(cs)
    ensures OutCols(cs) == ColumnsOf(cs) && forall c :: c in OutCols(cs) <==> c in cs
    decreases |cs|
  {
    if cs != [] {
      AllColsOut(cs[1..]);
      assert cs == [cs[0]] + cs[1..];
    }
  }

  lemma {:induction false} ColsPass(env: Env, cs: seq<Expr>, r: Named, c: Expr)
    requires AllCols(cs) && c in OutCols(cs) && c in r
    ensures c in ProjRow(env, cs, r) && ProjRow(env, cs, r)[c] == r[c]
    decreases |cs|
  {
    if cs[0] != c {
      ColsPass(env, cs[1..], r, c);
    }
  }

  /** A pruned row agrees with the row on the columns kept. */
  lemma {:induction false} PrunedAgrees(env: Env, cs: seq<Expr>, r: Named)
    requires AllCols(cs) && OutCols(cs) <= r.Keys
    ensures AgreeOn(OutCols(cs), ProjRow(env, cs, r), r) && ProjRow(env, cs, r).Keys == OutCols(cs)
  {
    ProjRowKeys(env, cs, r);
    forall c | c in OutCols(cs) ensures ProjRow(env, cs, r)[c] == r[c] {
      ColsPass(env, cs, r, c);
    }
  }

  lemma {:induction false} PrunedSame(env: Env, cs: seq<Expr>, e: Expr, r: Named)
    requires AllCols(cs) && OutCols(cs) <= r.Keys && Columns(e) <= OutCols(cs)
    ensures Eval(env, e, ProjRow(env, cs, r)) == Eval(env, e, r)
  {
    PrunedAgrees(env, cs, r);
    EvalFrame(env, e, ProjRow(env, cs, r), r);
  }

  /** Pruning below a filter. */
  lemma {:induction false} PruneBelowFilter(env: Env, cond: Expr, cs: seq<Expr>, rows: multiset<Named>, cols: set<Expr>)
    requires Typed(rows, cols) && AllCols(cs) && OutCols(cs) <= cols && Columns(cond) <= OutCols(cs)
    ensures Keep(Bind(rows, ProjF(env, cs)), HoldsF(env, cond)) == Bind(Keep(rows, HoldsF(env, cond)), ProjF(env, cs))
  {
    forall r, y | r in rows && y in ProjF(env, cs)(r) ensures HoldsF(env, cond)(y) == HoldsF(env, cond)(r) {
      PrunedSame(env, cs, cond, r);
    }
    FilterCommutes(rows, ProjF(env, cs), HoldsF(env, cond), HoldsF(env, cond));
  }

  /** Pruning below a projection. */
  lemma {:induction false} PruneBelowProj(env: Env, es: seq<Expr>, cs: seq<Expr>, rows: multiset<Named>,
                                          cols: set<Expr>)
    requires Typed(rows, cols) && AllCols(cs) && OutCols(cs) <= cols && ColumnsOf(es) <= OutCols(cs)
    ensures Bind(Bind(rows, ProjF(env, cs)), ProjF(env, es)) == Bind(rows, ProjF(env, es))
  {
    forall r | r in rows ensures ProjF(env, es)(r) == Bind(ProjF(env, cs)(r), ProjF(env, es)) {
      PrunedAgrees(env, cs, r);
      ProjRowFrame(env, es, ProjRow(env, cs, r), r);
      BindOne(ProjRow(env, cs, r), ProjF(env, es));
    }
    BindBind(rows, ProjF(env, cs), ProjF(env, es), ProjF(env, es));
  }

  lemma {:induction false} PrunedKeys(env: Env, cs: seq<Expr>, ks: seq<Expr>, r: Named)
    requires AllCols(cs) && OutCols(cs) <= r.Keys && ColumnsOf(ks) <= OutCols(cs)
    ensures KeyValues(env, ks, ProjRow(env, cs, r)) == KeyValues(env, ks, r)
  {
    forall i | 0 <= i < |ks| ensures Eval(env, ks[i], ProjRow(env, cs, r)) == Eval(env, ks[i], r) {
      ColumnsOfMember(ks, i);
      PrunedSame(env, cs, ks[i], r);
    }
  }

  lemma {:induction false} ProjMember(env: Env, es: seq<Expr>, rows: multiset<Named>, y: Named)
    ensures y in Bind(rows, ProjF(env, es)) <==> exists r :: r in rows && y == ProjRow(env, es, r)
  {
    BindMember(rows, ProjF(env, es), y);
    forall r | r in rows ensures y in ProjF(env, es)(r) <==> y == ProjRow(env, es, r) {}
  }

  lemma {:induction false} PrunedGroupKeys(env: Env, cs: seq<Expr>, ks: seq<Expr>, rows: multiset<Named>,
                                           cols: set<Expr>)
    requires Typed(rows, cols) && AllCols(cs) && OutCols(cs) <= cols && ColumnsOf(ks) <= OutCols(cs)
    ensures GroupKeys(env, ks, Bind(rows, ProjF(env, cs))) == GroupKeys(env, ks, rows)
  {
    var pruned := Bind(rows, ProjF(env, cs));
    forall k | k in GroupKeys(env, ks, pruned) ensures k in GroupKeys(env, ks, rows) {
      var y :| y in pruned && KeyValues(env, ks, y) == k;
      ProjMember(env, cs, rows, y);
      var r :| r in rows && y == ProjRow(env, cs, r);
      PrunedKeys(env, cs, ks, r);
    }
    forall k | k in GroupKeys(env, ks, rows) ensures k in GroupKeys(env, ks, pruned) {
      var r :| r in rows && KeyValues(env, ks, r) == k;
      PrunedKeys(env, cs, ks, r);
      ProjMember(env, cs, rows, ProjRow(env, cs, r));
    }
  }

  lemma {:induction false} PrunedGroup(env: Env, cs: seq<Expr>, ks: seq<Expr>, rows: multiset<Named>, cols: set<Expr>,
                                       k: seq<Value>)
    requires Typed(rows, cols) && AllCols(cs) && OutCols(cs) <= cols && ColumnsOf(ks) <= OutCols(cs)
    ensures Group(env, ks, Bind(rows, ProjF(env, cs)), k) == Bind(Group(env, ks, rows, k), ProjF(env, cs))
  {
    var p := InGroupF(env, ks, k);
    forall r, y | r in rows && y in ProjF(env, cs)(r) ensures p(y) == p(r) {
      PrunedKeys(env, cs, ks, r);
    }
    FilterCommutes(rows, ProjF(env, cs), p, p);
  }

  lemma {:induction false} PrunedAgg(env: Env, cs: seq<Expr>, g: Expr, group: multiset<Named>, cols: set<Expr>)
    requires Typed(group, cols) && AllCols(cs) && OutCols(cs) <= cols && Columns(g) <= OutCols(cs)
    ensures AggValue(env, g, Bind(group, ProjF(env, cs))) == AggValue(env, g, group)
  {
    forall r | r in group ensures EvalF(env, g)(r) == Bind(ProjF(env, cs)(r), EvalF(env, g)) {
      PrunedSame(env, cs, g, r);
      BindOne(ProjRow(env, cs, r), EvalF(env, g));
    }
    BindBind(group, ProjF(env, cs), EvalF(env, g), EvalF(env, g));
  }

  lemma {:induction false} PrunedAggRow(env: Env, cs: seq<Expr>, gs: seq<Expr>, group: multiset<Named>, cols: set<Expr>)
    requires Typed(group, cols) && AllCols(cs) && OutCols(cs) <= cols && ColumnsOf(gs) <= OutCols(cs)
    ensures AggRow(env, gs, Bind(group, ProjF(env, cs))) == AggRow(env, gs, group)
    decreases |gs|
  {
    if gs != [] {
      PrunedAgg(env, cs, gs[0], group, cols);
      PrunedAggRow(env, cs, gs[1..], group, cols);
    }
  }

  /** Pruning below an aggregation. */
  lemma {:induction false} PruneBelowAgg(env: Env, ks: seq<Expr>, gs: seq<Expr>, cs: seq<Expr>, rows: multiset<Named>,
                                         cols: set<Expr>)
    requires Typed(rows, cols) && AllCols(cs) && OutCols(cs) <= cols
    requires ColumnsOf(ks) <= OutCols(cs) && ColumnsOf(gs) <= OutCols(cs)
    ensures var pruned := Bind(rows, ProjF(env, cs));
            Bind(multiset(GroupKeys(env, ks, pruned)), GroupF(env, ks, gs, pruned)) ==
            Bind(multiset(GroupKeys(env, ks, rows)), GroupF(env, ks, gs, rows))
  {
    var pruned := Bind(rows, ProjF(env, cs));
    PrunedGroupKeys(env, cs, ks, rows, cols);
    var keys := multiset(GroupKeys(env, ks, rows));
    forall k | k in keys ensures GroupF(env, ks, gs, pruned)(k) == GroupF(env, ks, gs, rows)(k) {
      var group := Group(env, ks, rows, k);
      PrunedGroup(env, cs, ks, rows, cols, k);
      forall r | r in group ensures r in rows { KeepMember(rows, InGroupF(env, ks, k), r); }
      PrunedAggRow(env, cs, gs, group, cols);
    }
    BindCong(keys, GroupF(env, ks, gs, pruned), GroupF(env, ks, gs, rows));
  }

  // ---- pruning below a join ----

  /** Both inputs of a join pruned to the columns `used` above it. */
  ghost predicate PrunesJoin(used: set<Expr>, lc: set<Expr>, rc: set<Expr>, cl: seq<Expr>, cr: seq<Expr>) {
    && AllCols(cl) && AllCols(cr) && lc !! rc
    && OutCols(cl) == lc * used && OutCols(cr) == rc * used
  }

  lemma {:induction false} PrunedPair(env: Env, used: set<Expr>, lc: set<Expr>, rc: set<Expr>, cl: seq<Expr>,
                                      cr: seq<Expr>, a: Named, b: Named)
    requires PrunesJoin(used, lc, rc, cl, cr) && a.Keys == lc && b.Keys == rc && used <= lc + rc
    ensures AgreeOn(used, ProjRow(env, cl, a) + ProjRow(env, cr, b), a + b)
  {
    PrunedAgrees(env, cl, a);
    PrunedAgrees(env, cr, b);
  }

  lemma {:induction false} PrunedAlone(env: Env, used: set<Expr>, lc: set<Expr>, rc: set<Expr>, cl: seq<Expr>,
                                       cr: seq<Expr>, a: Named, b: Named)
    requires PrunesJoin(used, lc, rc, cl, cr) && used <= lc + rc
    ensures a.Keys == lc ==> AgreeOn(used, ProjRow(env, cl, a) + Nulls(OutCols(cr)), a + Nulls(rc))
    ensures b.Keys == rc ==> AgreeOn(used, Nulls(OutCols(cl)) + ProjRow(env, cr, b), Nulls(lc) + b)
  {
    if a.Keys == lc { PrunedAgrees(env, cl, a); }
    if b.Keys == rc { PrunedAgrees(env, cr, b); }
  }

  lemma {:induction false} PrunedHolds(env: Env, on: Expr, used: set<Expr>, lc: set<Expr>, rc: set<Expr>,
                                       cl: seq<Expr>, cr: seq<Expr>, a: Named, b: Named)
    requires PrunesJoin(used, lc, rc, cl, cr) && a.Keys == lc && b.Keys == rc && Columns(on) <= used <= lc + rc
    ensures Holds(env, on, ProjRow(env, cl, a) + ProjRow(env, cr, b)) == Holds(env, on, a + b)
  {
    PrunedPair(env, used, lc, rc, cl, cr, a, b);
    EvalFrame(env, on, ProjRow(env, cl, a) + ProjRow(env, cr, b), a + b);
  }

  lemma {:induction false} MatchThroughProj(env: Env, on: Expr, a: Named, es: seq<Expr>, rs: multiset<Named>)
    ensures HasMatch(env, on, a, Bind(rs, ProjF(env, es))) <==>
            exists b :: b in rs && Holds(env, on, a + ProjRow(env, es, b))
  {
    var rs' := Bind(rs, ProjF(env, es));
    forall b' | b' in rs' && Holds(env, on, a + b')
      ensures exists b :: b in rs && Holds(env, on, a + ProjRow(env, es, b))
    {
      ProjMember(env, es, rs, b');
    }
    forall b | b in rs ensures ProjRow(env, es, b) in rs' {
      ProjMember(env, es, rs, ProjRow(env, es, b));
    }
  }

  lemma {:induction false} LeftMatchThroughProj(env: Env, on: Expr, b: Named, es: seq<Expr>, ls: multiset<Named>)
    ensures HasLeftMatch(env, on, b, Bind(ls, ProjF(env, es))) <==>
            exists a :: a in ls && Holds(env, on, ProjRow(env, es, a) + b)
  {
    var ls' := Bind(ls, ProjF(env, es));
    forall a' | a' in ls' && Holds(env, on, a' + b)
      ensures exists a :: a in ls && Holds(env, on, ProjRow(env, es, a) + b)
    {
      ProjMember(env, es, ls, a');
    }
    forall a | a in ls ensures ProjRow(env, es, a) in ls' {
      ProjMember(env, es, ls, ProjRow(env, es, a));
    }
  }

  lemma {:induction false} PrunedMatch(env: Env, on: Expr, used: set<Expr>, lc: set<Expr>, rc: set<Expr>,
                                       cl: seq<Expr>, cr: seq<Expr>,
                    a: Named, rs: multiset<Named>)
    requires PrunesJoin(used, lc, rc, cl, cr) && Columns(on) <= used <= lc + rc && a.Keys == lc && Typed(rs, rc)
    ensures HasMatch(env, on, ProjRow(env, cl, a), Bind(rs, ProjF(env, cr))) == HasMatch(env, on, a, rs)
  {
    MatchThroughProj(env, on, ProjRow(env, cl, a), cr, rs);
    forall b | b in rs ensures Holds(env, on, ProjRow(env, cl, a) + ProjRow(env, cr, b)) == Holds(env, on, a + b) {
      PrunedHolds(env, on, used, lc, rc, cl, cr, a, b);
    }
  }

  lemma {:induction false} PrunedLeftMatch(env: Env, on: Expr, used: set<Expr>, lc: set<Expr>, rc: set<Expr>,
                                           cl: seq<Expr>, cr: seq<Expr>,
                        b: Named, ls: multiset<Named>)
    requires PrunesJoin(used, lc, rc, cl, cr) && Columns(on) <= used <= lc + rc && b.Keys == rc && Typed(ls, lc)
    ensures HasLeftMatch(env, on, ProjRow(env, cr, b), Bind(ls, ProjF(env, cl))) == HasLeftMatch(env, on, b, ls)
  {
    LeftMatchThroughProj(env, on, ProjRow(env, cr, b), cl, ls);
    forall a | a in ls ensures Holds(env, on, ProjRow(env, cl, a) + ProjRow(env, cr, b)) == Holds(env, on, a + b) {
      PrunedHolds(env, on, used, lc, rc, cl, cr, a, b);
    }
  }

  ghost function PairProjF(env: Env, on: Expr, es: seq<Expr>, a: Named): Named -> multiset<Named> {
    b => if Holds(env, on, a + b) then multiset{ProjRow(env, es, a + b)} else multiset{}
  }

  lemma {:induction false} MatchesProjected(env: Env, on: Expr, es: seq<Expr>, a: Named, rs: multiset<Named>)
    ensures Bind(Matches(env, on, a, rs), ProjF(env, es)) == Bind(rs, PairProjF(env, on, es, a))
  {
    forall b | b in rs ensures PairProjF(env, on, es, a)(b) == Bind(PairF(env, on, a)(b), ProjF(env, es)) {
      PairThen(env, on, a, b, ProjF(env, es));
    }
    BindBind(rs, PairF(env, on, a), ProjF(env, es), PairProjF(env, on, es, a));
  }

  lemma {:induction false} PrunedPairProj(env: Env, on: Expr, es: seq<Expr>, used: set<Expr>, lc: set<Expr>,
                                          rc: set<Expr>,
                       cl: seq<Expr>, cr: seq<Expr>, a: Named, b: Named)
    requires PrunesJoin(used, lc, rc, cl, cr) && Columns(on) <= used <= lc + rc && ColumnsOf(es) <= used
    requires a.Keys == lc && b.Keys == rc
    ensures PairProjF(env, on, es, ProjRow(env, cl, a))(ProjRow(env, cr, b)) == PairProjF(env, on, es, a)(b)
  {
    PrunedHolds(env, on, used, lc, rc, cl, cr, a, b);
    PrunedPair(env, used, lc, rc, cl, cr, a, b);
    ProjRowFrame(env, es, ProjRow(env, cl, a) + ProjRow(env, cr, b), a + b);
  }

  lemma {:induction false} PrunedPairSum(env: Env, on: Expr, es: seq<Expr>, used: set<Expr>, lc: set<Expr>,
                                         rc: set<Expr>,
                      cl: seq<Expr>, cr: seq<Expr>, a: Named, rs: multiset<Named>)
    requires PrunesJoin(used, lc, rc, cl, cr) && Columns(on) <= used <= lc + rc && ColumnsOf(es) <= used
    requires a.Keys == lc && Typed(rs, rc)
    ensures Bind(Bind(rs, ProjF(env, cr)), PairProjF(env, on, es, ProjRow(env, cl, a))) ==
            Bind(rs, PairProjF(env, on, es, a))
  {
    var f, f' := PairProjF(env, on, es, a), PairProjF(env, on, es, ProjRow(env, cl, a));
    forall b | b in rs ensures f(b) == Bind(ProjF(env, cr)(b), f') {
      PrunedPairProj(env, on, es, used, lc, rc, cl, cr, a, b);
      BindOne(ProjRow(env, cr, b), f');
    }
    BindBind(rs, ProjF(env, cr), f', f);
  }

  lemma {:induction false} PrunedMatches(env: Env, on: Expr, es: seq<Expr>, used: set<Expr>, lc: set<Expr>,
                                         rc: set<Expr>,
                      cl: seq<Expr>, cr: seq<Expr>, a: Named, rs: multiset<Named>)
    requires PrunesJoin(used, lc, rc, cl, cr) && Columns(on) <= used <= lc + rc && ColumnsOf(es) <= used
    requires a.Keys == lc && Typed(rs, rc)
    ensures Bind(Matches(env, on, ProjRow(env, cl, a), Bind(rs, ProjF(env, cr))), ProjF(env, es)) ==
            Bind(Matches(env, on, a, rs), ProjF(env, es))
  {
    MatchesProjected(env, on, es, ProjRow(env, cl, a), Bind(rs, ProjF(env, cr)));
    MatchesProjected(env, on, es, a, rs);
    PrunedPairSum(env, on, es, used, lc, rc, cl, cr, a, rs);
  }

  lemma {:induction false} PrunedAloneRow(env: Env, ty: JoinType, es: seq<Expr>, used: set<Expr>, lc: set<Expr>,
                                          rc: set<Expr>,
                       cl: seq<Expr>, cr: seq<Expr>, a: Named)
    requires PrunesJoin(used, lc, rc, cl, cr) && used <= lc + rc && ColumnsOf(es) <= used * JoinCols(ty, lc, rc) &&
             a.Keys == lc
    ensures Bind(Alone(ty, ProjRow(env, cl, a), OutCols(cr)), ProjF(env, es)) == Bind(Alone(ty, a, rc), ProjF(env, es))
  {
    var a' := ProjRow(env, cl, a);
    if ty.LeftOuter? || ty.FullOuter? {
      PrunedAlone(env, used, lc, rc, cl, cr, a, map[]);
      ProjRowFrame(env, es, a' + Nulls(OutCols(cr)), a + Nulls(rc));
      BindOne(a' + Nulls(OutCols(cr)), ProjF(env, es));
      BindOne(a + Nulls(rc), ProjF(env, es));
    } else if ty.Anti? {
      PrunedLeftRow(env, es, used, lc, rc, cl, cr, a);
    }
  }

  lemma {:induction false} PrunedLeftRow(env: Env, es: seq<Expr>, used: set<Expr>, lc: set<Expr>, rc: set<Expr>,
                                         cl: seq<Expr>, cr: seq<Expr>, a: Named)
    requires PrunesJoin(used, lc, rc, cl, cr) && ColumnsOf(es) <= used * lc && a.Keys == lc
    ensures Bind(multiset{ProjRow(env, cl, a)}, ProjF(env, es)) == Bind(multiset{a}, ProjF(env, es))
  {
    PrunedAgrees(env, cl, a);
    ProjRowFrame(env, es, ProjRow(env, cl, a), a);
    BindOne(ProjRow(env, cl, a), ProjF(env, es));
    BindOne(a, ProjF(env, es));
  }

  lemma {:induction false} PrunedMatched(env: Env, ty: JoinType, on: Expr, es: seq<Expr>, used: set<Expr>,
                                         lc: set<Expr>, rc: set<Expr>,
                      cl: seq<Expr>, cr: seq<Expr>, a: Named, rs: multiset<Named>)
    requires PrunesJoin(used, lc, rc, cl, cr) && Columns(on) <= used <= lc + rc
    requires ColumnsOf(es) <= used * JoinCols(ty, lc, rc) && a.Keys == lc && Typed(rs, rc)
    ensures Bind(Matched(env, ty, on, ProjRow(env, cl, a), Bind(rs, ProjF(env, cr))), ProjF(env, es)) ==
            Bind(Matched(env, ty, on, a, rs), ProjF(env, es))
  {
    assert ColumnsOf(es) <= used;
    if ty.Semi? {
      PrunedLeftRow(env, es, used, lc, rc, cl, cr, a);
    } else if !ty.Anti? {
      PrunedMatches(env, on, es, used, lc, rc, cl, cr, a, rs);
    }
  }

  lemma {:induction false} PrunedFromLeft(env: Env, ty: JoinType, on: Expr, es: seq<Expr>, used: set<Expr>,
                                          lc: set<Expr>, rc: set<Expr>,
                       cl: seq<Expr>, cr: seq<Expr>, a: Named, rs: multiset<Named>)
    requires PrunesJoin(used, lc, rc, cl, cr) && Columns(on) <= used <= lc + rc
    requires ColumnsOf(es) <= used * JoinCols(ty, lc, rc) && a.Keys == lc && Typed(rs, rc)
    ensures Bind(FromLeft(env, ty, on, ProjRow(env, cl, a), Bind(rs, ProjF(env, cr)), OutCols(cr)), ProjF(env, es)) ==
            Bind(FromLeft(env, ty, on, a, rs, rc), ProjF(env, es))
  {
    PrunedMatch(env, on, used, lc, rc, cl, cr, a, rs);
    PrunedMatched(env, ty, on, es, used, lc, rc, cl, cr, a, rs);
    PrunedAloneRow(env, ty, es, used, lc, rc, cl, cr, a);
  }

  lemma {:induction false} PrunedFromRight(env: Env, ty: JoinType, on: Expr, es: seq<Expr>, used: set<Expr>,
                                           lc: set<Expr>, rc: set<Expr>,
                        cl: seq<Expr>, cr: seq<Expr>, b: Named, ls: multiset<Named>)
    requires PrunesJoin(used, lc, rc, cl, cr) && Columns(on) <= used <= lc + rc
    requires ColumnsOf(es) <= used && b.Keys == rc && Typed(ls, lc)
    ensures Bind(FromRight(env, ty, on, ProjRow(env, cr, b), Bind(ls, ProjF(env, cl)), OutCols(cl)), ProjF(env, es)) ==
            Bind(FromRight(env, ty, on, b, ls, lc), ProjF(env, es))
  {
    PrunedLeftMatch(env, on, used, lc, rc, cl, cr, b, ls);
    if !HasLeftMatch(env, on, b, ls) && (ty.RightOuter? || ty.FullOuter?) {
      var b' := ProjRow(env, cr, b);
      PrunedAlone(env, used, lc, rc, cl, cr, map[], b);
      ProjRowFrame(env, es, Nulls(OutCols(cl)) + b', Nulls(lc) + b);
      BindOne(Nulls(OutCols(cl)) + b', ProjF(env, es));
      BindOne(Nulls(lc) + b, ProjF(env, es));
    }
  }

  /** Summing over a projected bag. */
  lemma {:induction false} BindProj(env: Env, cs: seq<Expr>, rows: multiset<Named>,
                                    f: Named -> multiset<Named>, f': Named -> multiset<Named>,
                 p: Named -> multiset<Named>, h: Named -> multiset<Named>)
    requires forall r :: r in rows ==> h(r) == Bind(f(r), p) == Bind(f'(ProjRow(env, cs, r)), p)
    ensures Bind(Bind(Bind(rows, ProjF(env, cs)), f'), p) == Bind(Bind(rows, f), p)
  {
    BindBind(rows, f, p, h);
    var g := (r: Named) => Bind(f'(r), p);
    BindBind(Bind(rows, ProjF(env, cs)), f', p, g);
    forall r | r in rows ensures h(r) == Bind(ProjF(env, cs)(r), g) {
      BindOne(ProjRow(env, cs, r), g);
    }
    BindBind(rows, ProjF(env, cs), g, h);
  }

  lemma {:induction false} PrunedLeftSum(env: Env, ty: JoinType, on: Expr, es: seq<Expr>, used: set<Expr>,
                                         lc: set<Expr>, rc: set<Expr>,
                      cl: seq<Expr>, cr: seq<Expr>, ls: multiset<Named>, rs: multiset<Named>)
    requires PrunesJoin(used, lc, rc, cl, cr) && Columns(on) <= used <= lc + rc
    requires ColumnsOf(es) <= used * JoinCols(ty, lc, rc) && Typed(ls, lc) && Typed(rs, rc)
    ensures var ls', rs' := Bind(ls, ProjF(env, cl)), Bind(rs, ProjF(env, cr));
            Bind(Bind(ls', LeftF(env, ty, on, rs', OutCols(cr))), ProjF(env, es)) ==
            Bind(Bind(ls, LeftF(env, ty, on, rs, rc)), ProjF(env, es))
  {
    var f, f', p := LeftF(env, ty, on, rs, rc), LeftF(env, ty, on, Bind(rs, ProjF(env, cr)), OutCols(cr)),
        ProjF(env, es);
    var h := (a: Named) => Bind(f(a), p);
    forall a | a in ls ensures h(a) == Bind(f(a), p) == Bind(f'(ProjRow(env, cl, a)), p) {
      PrunedFromLeft(env, ty, on, es, used, lc, rc, cl, cr, a, rs);
    }
    BindProj(env, cl, ls, f, f', p, h);
  }

  lemma {:induction false} PrunedRightSum(env: Env, ty: JoinType, on: Expr, es: seq<Expr>, used: set<Expr>,
                                          lc: set<Expr>, rc: set<Expr>,
                       cl: seq<Expr>, cr: seq<Expr>, ls: multiset<Named>, rs: multiset<Named>)
    requires PrunesJoin(used, lc, rc, cl, cr) && Columns(on) <= used <= lc + rc
    requires ColumnsOf(es) <= used && Typed(ls, lc) && Typed(rs, rc)
    ensures var ls', rs' := Bind(ls, ProjF(env, cl)), Bind(rs, ProjF(env, cr));
            Bind(Bind(rs', RightF(env, ty, on, ls', OutCols(cl))), ProjF(env, es)) ==
            Bind(Bind(rs, RightF(env, ty, on, ls, lc)), ProjF(env, es))
  {
    var g, g', p := RightF(env, ty, on, ls, lc), RightF(env, ty, on, Bind(ls, ProjF(env, cl)), OutCols(cl)),
        ProjF(env, es);
    var h := (b: Named) => Bind(g(b), p);
    forall b | b in rs ensures h(b) == Bind(g(b), p) == Bind(g'(ProjRow(env, cr, b)), p) {
      PrunedFromRight(env, ty, on, es, used, lc, rc, cl, cr, b, ls);
    }
    BindProj(env, cr, rs, g, g', p, h);
  }

  /** Pruning both inputs of a join of any type to the columns used above it. */
  lemma {:induction false} PruneBelowJoin(env: Env, ty: JoinType, on: Expr, es: seq<Expr>, used: set<Expr>,
                                          lc: set<Expr>, rc: set<Expr>,
                       cl: seq<Expr>, cr: seq<Expr>, ls: multiset<Named>, rs: multiset<Named>)
    requires PrunesJoin(used, lc, rc, cl, cr) && Columns(on) <= used <= lc + rc
    requires ColumnsOf(es) <= used * JoinCols(ty, lc, rc) && Typed(ls, lc) && Typed(rs, rc)
    ensures var ls', rs' := Bind(ls, ProjF(env, cl)), Bind(rs, ProjF(env, cr));
            Bind(JoinRows(env, ty, on, ls', rs', OutCols(cl), OutCols(cr)), ProjF(env, es)) ==
            Bind(JoinRows(env, ty, on, ls, rs, lc, rc), ProjF(env, es))
  {
    var ls', rs', p := Bind(ls, ProjF(env, cl)), Bind(rs, ProjF(env, cr)), ProjF(env, es);
    PrunedLeftSum(env, ty, on, es, used, lc, rc, cl, cr, ls, rs);
    PrunedRightSum(env, ty, on, es, used, lc, rc, cl, cr, ls, rs);
    BindUnion(Bind(ls, LeftF(env, ty, on, rs, rc)), Bind(rs, RightF(env, ty, on, ls, lc)), p);
    BindUnion(Bind(ls', LeftF(env, ty, on, rs', OutCols(cr))), Bind(rs', RightF(env, ty, on, ls', OutCols(cl))), p);
  }
}
