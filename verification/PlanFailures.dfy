/** Small plans and databases on which the optimizer's unguarded rules go wrong. */
module PlanFailures {
  import opened Common
  import opened Bags
  import opened Plans
  import opened Lookups
  import opened Executions
  import opened PlanRules

  /** One column per table, and one row in each: `v0` in the first, `v1` in the second. */
  function TwoTables(v0: Value, v1: Value): Env {
    Env(t => if t == 0 then multiset{map[Column(0) := v0]} else multiset{map[Column(1) := v1]},
        (_, v) => v, (_, _, _) => Null, (_, _) => Null)
  }

  function ScanOf(t: nat): Plan {
    Scan(t, [Column(t)])
  }

  lemma {:induction false} ScanRows(t: nat, v0: Value, v1: Value)
    requires t < 2
    ensures Rows(TwoTables(v0, v1), ScanOf(t)) == multiset{map[Column(t) := if t == 0 then v0 else v1]}
  {
    var env, row := TwoTables(v0, v1), map[Column(t) := if t == 0 then v0 else v1];
    BindOne(row, ProjF(env, [Column(t)]));
    assert ProjRow(env, [Column(t)], row) == ProjRow(env, [], row)[Column(t) := row[Column(t)]];
    assert ProjRow(env, [Column(t)], row) == row;
  }

  lemma {:induction false} OfOne(e: Expr)
    ensures OutCols([e]) == {OutCol(e)} && ColumnsOf([e]) == Columns(e) && SetOf([e]) == {e}
  {
    assert [e][1..] == [];
    assert OutCols([e]) == {OutCol(e)} + OutCols([]);
    assert ColumnsOf([e]) == Columns(e) + ColumnsOf([]);
  }

  lemma {:induction false} ScanShape(t: nat)
    ensures Produced(ScanOf(t)) == {Column(t)} == Base(ScanOf(t))
    ensures WellFormed(ScanOf(t)) && Unambiguous(ScanOf(t)) && SafeToPad({Column(t)})
  {
    OfOne(Column(t));
  }

  // ---- conditions pushed below joins that keep unmatched rows ----

  /** An anti join keeps a left row that fails its condition; with the condition pushed to the left
      the row is gone. */
  lemma {:induction false} AntiJoinLosesRow()
    returns (env: Env, p: Plan, q: Plan)
    ensures WellFormed(p) && Unambiguous(p) && WellFormed(q) && CondLeft1(p, q) && p.ty == Anti
    ensures ExecRows(env, p) != ExecRows(env, q)
  {
    hide Rows, ExecRows;
    env := TwoTables(Bool(false), Null);
    var on := Unary(0, Column(0));
    p := Join(Anti, on, ScanOf(0), ScanOf(1));
    q := Join(Anti, TRUE, Filter(on, ScanOf(0)), ScanOf(1));
    ScanShape(0);
    ScanShape(1);
    ScanRows(0, Bool(false), Null);
    var row := map[Column(0) := Bool(false)];
    assert row in Rows(env, p.left) && !Holds(env, on, row);
    CondLeftSoundIff(env, p, q);
  }

  /** A right outer join likewise loses a right row. */
  lemma {:induction false} RightJoinLosesRow()
    returns (env: Env, p: Plan, q: Plan)
    ensures WellFormed(p) && Unambiguous(p) && WellFormed(q) && CondRight1(p, q) && p.ty == RightOuter
    ensures ExecRows(env, p) != ExecRows(env, q)
  {
    hide Rows, ExecRows;
    env := TwoTables(Null, Bool(false));
    var on := Unary(0, Column(1));
    p := Join(RightOuter, on, ScanOf(0), ScanOf(1));
    q := Join(RightOuter, TRUE, ScanOf(0), Filter(on, ScanOf(1)));
    ScanShape(0);
    ScanShape(1);
    ScanRows(1, Null, Bool(false));
    var row := map[Column(1) := Bool(false)];
    assert row in Rows(env, p.right) && !Holds(env, on, row);
    CondRightSoundIff(env, p, q);
  }

  // ---- columns that the analysis does not see ----

  /** The grouping key: an expression over the right table. */
  const KEY := Unary(0, Column(1))
  const ON_KEY := Unary(1, Ref(KEY))

  function Joined(l: Plan): Plan {
    Join(LeftOuter, TRUE, l, ScanOf(1))
  }

  /** Pushed below the aggregation, a filter on the computed key uses no visible column.  It still runs; but the
      next rule moves it to the wrong side of the join, and the executor panics. */
  lemma {:induction false} PushedFilterLosesColumn()
    returns (p: Plan, mid: Plan, q: Plan)
    ensures WellFormed(p) && Unambiguous(p) && FilterHashAgg(p, mid) && !WellFormed(mid) && Resolves(mid)
    ensures mid.HashAgg? && q.HashAgg? && q == mid.(child := q.child) && FilterLeftJoin(mid.child, q.child)
    ensures !Resolves(q)
  {
    hide Resolves;
    p := Filter(ON_KEY, HashAgg([KEY], [], Joined(ScanOf(0))));
    mid := HashAgg([KEY], [], Filter(ON_KEY, Joined(ScanOf(0))));
    q := HashAgg([KEY], [], Joined(Filter(ON_KEY, ScanOf(0))));
    KeyShapes();
    FilterHashAggShape(p, mid);
    FitsResolves(mid);
    KeyMissing();
  }

  lemma {:induction false} KeyShapes()
    ensures var j := Joined(ScanOf(0)); Produced(j) == {Column(0), Column(1)} && WellFormed(j) && Unambiguous(j)
    ensures ColumnsOf([KEY]) == {Column(1)} && OutCols([KEY]) == {Ref(KEY)} && Columns(ON_KEY) == {Ref(KEY)}
    ensures Produced(ScanOf(1)) == {Column(1)} && SetOf([]) == {}
  {
    OfOne(KEY);
    ScanShape(0);
    ScanShape(1);
  }

  lemma {:induction false} KeyMissing()
    ensures !Resolves(HashAgg([KEY], [], Joined(Filter(ON_KEY, ScanOf(0)))))
  {
    assert !ResolvesAt(Column(1), [Column(0)]);
    assert !ResolvesAt(KEY, [Column(0)]);
    assert !ResolvesAt(Ref(KEY), [Column(0)]);
    assert !Resolves(Filter(ON_KEY, ScanOf(0)));
    assert !Resolves(Joined(Filter(ON_KEY, ScanOf(0))));
  }

  const E0 := Unary(0, Column(0))

  /** A projected expression that is used above, and dropped by the rotation.  The result still runs and gives
      the same tuples; but it uses no visible column of the join, so the next rule prunes them all, and the
      executor panics. */
  lemma {:induction false} RotationLosesColumn()
    returns (p: Plan, q: Plan, r: Plan)
    ensures WellFormed(p) && Unambiguous(p) && JoinRotate1(p, q) && !KeepsColumns(p) && !WellFormed(q)
    ensures Resolves(q) && forall env :: ExecRows(env, q) == ExecRows(env, p)
    ensures PruneJoin(q, r) && !Resolves(r)
  {
    hide ExecRows, Resolves, WellFormed, Unambiguous, KeepsColumns, PruneJoin, JoinRotate1;
    var x, inner := Join(Inner, TRUE, ScanOf(0), ScanOf(1)), Join(Inner, TRUE, ScanOf(1), ScanOf(2));
    p := Proj([Ref(E0)], Join(Inner, TRUE, Proj([E0], x), ScanOf(2)));
    q := Proj([Ref(E0)], Join(Inner, And(TRUE, TRUE), ScanOf(0), inner));
    r := Proj([Ref(E0)], Join(Inner, And(TRUE, TRUE), Proj([], ScanOf(0)), Proj([], inner)));
    Rotated(p, q, x, inner);
    PrunesAll(q, r, x, inner);
    forall env ensures ExecRows(env, q) == ExecRows(env, p) {
      JoinRotate1Rows(env, p, q);
    }
    JoinRotate1Rows(TwoTables(Null, Null), p, q);
    PrunedAway(inner);
  }

  lemma {:induction false} Rotated(p: Plan, q: Plan, x: Plan, inner: Plan)
    requires x == Join(Inner, TRUE, ScanOf(0), ScanOf(1)) && inner == Join(Inner, TRUE, ScanOf(1), ScanOf(2))
    requires p == Proj([Ref(E0)], Join(Inner, TRUE, Proj([E0], x), ScanOf(2)))
    requires q == Proj([Ref(E0)], Join(Inner, And(TRUE, TRUE), ScanOf(0), inner))
    ensures WellFormed(p) && Unambiguous(p) && JoinRotate1(p, q) && !KeepsColumns(p)
    ensures Produced(p.child.left.child) !! Produced(p.child.right)
  {
    RotationShapes(x, inner);
    assert WellFormed(p.child) && Unambiguous(p.child) && Produced(p.child) == {Ref(E0), Column(2)};
  }

  lemma {:induction false} PrunesAll(q: Plan, r: Plan, x: Plan, inner: Plan)
    requires x == Join(Inner, TRUE, ScanOf(0), ScanOf(1)) && inner == Join(Inner, TRUE, ScanOf(1), ScanOf(2))
    requires q == Proj([Ref(E0)], Join(Inner, And(TRUE, TRUE), ScanOf(0), inner))
    requires r == Proj([Ref(E0)], Join(Inner, And(TRUE, TRUE), Proj([], ScanOf(0)), Proj([], inner)))
    ensures PruneJoin(q, r)
  {
    RotationShapes(x, inner);
  }

  lemma {:induction false} RotationShapes(x: Plan, inner: Plan)
    requires x == Join(Inner, TRUE, ScanOf(0), ScanOf(1)) && inner == Join(Inner, TRUE, ScanOf(1), ScanOf(2))
    ensures Produced(x) == {Column(0), Column(1)} == Base(x) && WellFormed(x) && Unambiguous(x)
    ensures Produced(inner) == {Column(1), Column(2)}
    ensures var l := Proj([E0], x);
            WellFormed(l) && Unambiguous(l) && Produced(l) == {Ref(E0)} && Base(l) == {Column(0), Column(1)}
    ensures Produced(ScanOf(0)) == {Column(0)}
    ensures Produced(ScanOf(2)) == {Column(2)} == Base(ScanOf(2)) && WellFormed(ScanOf(2)) && Unambiguous(ScanOf(2))
    ensures ColumnsOf([Ref(E0)]) == {Ref(E0)} && OutCols([Ref(E0)]) == {Ref(E0)} && OutCols([]) == {}
  {
    ScanShape(0);
    ScanShape(1);
    ScanShape(2);
    OfOne(E0);
    OfOne(Ref(E0));
  }

  lemma {:induction false} PrunedAway(inner: Plan)
    ensures !Resolves(Proj([Ref(E0)], Join(Inner, And(TRUE, TRUE), Proj([], ScanOf(0)), Proj([], inner))))
  {
    var j := Join(Inner, And(TRUE, TRUE), Proj([], ScanOf(0)), Proj([], inner));
    assert Schema(j) == [];
    NothingResolves();
    assert !ResolvesAt([Ref(E0)][0], Schema(j));
  }

  lemma {:induction false} NothingResolves()
    ensures !ResolvesAt(E0, []) && !ResolvesAt(Ref(E0), []) && !ResolvesRoot(Unary(1, E0), [])
  {
    assert !ResolvesAt(Column(0), []);
  }

  lemma {:induction false} Computing(e: Expr, p: Plan)
    requires e == Unary(0, Column(0)) && p == Proj([e], ScanOf(0))
    ensures Resolves(p) && Schema(p) == [e] && Produced(p) == {Ref(e)} && Unambiguous(p)
  {
    ScanShape(0);
    OfOne(e);
    assert ResolvesAt(Column(0), [Column(0)]) && ResolvesAt(e, [Column(0)]);
    assert AllResolve([e], [Column(0)]);
  }

  /** A derived table with column aliases is used through its expressions themselves.  That runs, but the
      analysis sees the table column below them: pruning leaves nothing, and the executor panics. */
  lemma {:induction false} AliasLosesColumn()
    returns (p: Plan, q: Plan)
    ensures Resolves(p) && !WellFormed(p) && Unambiguous(p) && PruneFilter(p, q) && !Resolves(q)
  {
    var derived, cond := Proj([E0], ScanOf(0)), Unary(1, E0);
    p := Proj([E0], Filter(cond, derived));
    q := Proj([E0], Filter(cond, Proj([], derived)));
    OfOne(E0);
    Computing(E0, derived);
    assert ResolvesAt(E0, [E0]) && ResolvesRoot(cond, [E0]);
    assert OutCols([]) == {};
    NothingResolves();
    assert !Resolves(q.child);
  }

  /** A conjunct that is only a column runs under `and`, and no longer as a filter of its own. */
  lemma {:induction false} SplitLosesColumn()
    returns (p: Plan, q: Plan)
    ensures Resolves(p) && WellFormed(p) && Unambiguous(p) && FilterMerge(q, p) && !Resolves(q)
  {
    p := Filter(And(Column(0), TRUE), ScanOf(0));
    q := Filter(Column(0), Filter(TRUE, ScanOf(0)));
    ScanShape(0);
    assert ResolvesAt(Column(0), [Column(0)]);
  }

  /** A condition that is only a reference runs above the projection that computes it, and not once a pruned
      projection passes the reference on. */
  lemma {:induction false} ReferenceLosesColumn()
    returns (p: Plan, q: Plan)
    ensures Resolves(p) && Unambiguous(p) && PruneFilter(p, q) && !Resolves(q)
  {
    var computed := Proj([E0], ScanOf(0));
    p := Proj([], Filter(Ref(E0), computed));
    q := Proj([], Filter(Ref(E0), Proj([Ref(E0)], computed)));
    OfOne(Ref(E0));
    Computing(E0, computed);
    assert ResolvesAt(E0, [E0]) && ResolvesRoot(Ref(E0), [E0]);
    var s := [Ref(E0)];
    assert E0 !in s && Column(0) !in s;
    assert !ResolvesAt(Column(0), s);
    assert !ResolvesAt(E0, s);
    assert !ResolvesRoot(Ref(E0), s) && Schema(q.child.child) == s;
    assert !Resolves(q.child);
  }
}
