/** Where reading a computed column is not computing it: rows that an outer join pads with nulls. */
module LookupFailures {
  import opened Common
  import opened Bags
  import opened Plans
  import opened Lookups
  import opened Executions
  import opened Pruning
  import opened PlanRules
  import opened PlanFailures

  /** An operator number above those of the expression. */
  function Above(e: Expr): nat {
    match e
    case Unary(op, a) => Larger(op + 1, Above(a))
    case Binary(_, a, b) => Larger(Above(a), Above(b))
    case And(a, b) => Larger(Above(a), Above(b))
    case Ref(a) => Above(a)
    case Agg(_, a) => Above(a)
    case _ => 0
  }

  function Larger(a: nat, b: nat): nat {
    if a < b then b else a
  }

  /** One row in the first table and none in the others; unary operator `n` and those above it tell whether a
      value is there, the other operators always give `b`. */
  function PadEnv(n: nat, b: bool): Env {
    Env(t => if t == 0 then multiset{map[Column(0) := Null]} else multiset{},
        (op, v) => Bool(if op >= n then v != Null else b), (_, _, _) => Bool(b), (_, _) => Null)
  }

  /** The second table with a computed column beside its own, as the right side of a left outer join. */
  function Padded(cols: seq<Expr>, e: Expr): Plan {
    Join(LeftOuter, TRUE, ScanOf(0), Proj(cols + [e], Scan(1, cols)))
  }

  /** A computed expression, and the columns of the second table that it uses. */
  predicate Over(cols: seq<Expr>, e: Expr) {
    TableColumns(cols) && OutCols(cols) == Columns(e) && Column(0) !in cols && Plain(e) && !IsCol(e)
  }

  /** The expression is null on rows of nulls. */
  predicate StaysNull(e: Expr) {
    OnNulls(e, Columns(e) + {Ref(e)}) == Null
  }

  /** Over table columns that are null, an expression has the value it has on nulls. */
  lemma {:induction false} ComputedOnNulls(n: nat, e: Expr, s: seq<Expr>, cols: set<Expr>)
    requires TableColumns(s) && Plain(e) && (forall c :: c in Columns(e) ==> c in s) && Above(e) <= n
    ensures EvalAt(PadEnv(n, false), e, s, NullRow(|s|)) == OnNulls(e, cols)
    ensures !IsCol(e) ==> EvalRoot(PadEnv(n, false), e, s, NullRow(|s|)) == OnNulls(e, cols)
  {
    match e {
      case And(a, b) => ComputedOnNulls(n, a, s, cols); ComputedOnNulls(n, b, s, cols);
      case Column(_) =>
        assert e in Columns(e);
        ReadsNull(PadEnv(n, false), e, s);
      case _ =>
    }
  }

  lemma {:induction false} AllColumns(cols: seq<Expr>)
    requires TableColumns(cols)
    ensures AllCols(cols) && AllPlain(cols) && ColumnsOf(cols) == OutCols(cols)
    ensures forall c :: c in OutCols(cols) <==> c in cols
  {
    AllColsOut(cols);
  }

  lemma {:induction false} ColumnsOfConcat(a: seq<Expr>, b: seq<Expr>)
    ensures ColumnsOf(a + b) == ColumnsOf(a) + ColumnsOf(b)
    decreases |a|
  {
    if a == [] {
      assert a + b == b;
    } else {
      assert (a + b)[1..] == a[1..] + b;
      ColumnsOfConcat(a[1..], b);
    }
  }

  lemma {:induction false} RightShape(cols: seq<Expr>, e: Expr)
    requires Over(cols, e)
    ensures var r := Proj(cols + [e], Scan(1, cols));
            && WellFormed(r) && Unambiguous(r) && Produced(r) == Columns(e) + {Ref(e)} && Column(0) !in Produced(r)
            && (SafeToPad(Produced(r)) <==> StaysNull(e)) && Column(0) !in Base(r)
  {
    AllColumns(cols);
    OutColsConcat(cols, [e]);
    ColumnsOfConcat(cols, [e]);
    OfOne(e);
    PlainAvailable(e, Columns(e) + {Ref(e)});
    assert Ref(e) in Columns(e) + {Ref(e)};
  }

  lemma {:induction false} PaddedShape(cols: seq<Expr>, e: Expr)
    requires Over(cols, e)
    ensures var j := Padded(cols, e);
            && WellFormed(j) && (Unambiguous(j) <==> StaysNull(e)) && Produced(j) == {Column(0)} + Columns(e) + {Ref(e)}
            && Schema(j) == [Column(0)] + cols + [e]
  {
    hide SafeToPad, Available;
    RightShape(cols, e);
    ScanShape(0);
    assert Schema(Padded(cols, e)) == [Column(0)] + (cols + [e]);
  }

  lemma {:induction false} EmptyRight(n: nat, b: bool, cols: seq<Expr>, e: Expr)
    ensures ExecRows(PadEnv(n, b), Proj(cols + [e], Scan(1, cols))) == multiset{}
  {
    BindEmpty(StoredF(cols));
    BindEmpty(ListAtF(PadEnv(n, b), cols + [e], cols));
  }

  lemma {:induction false} OneLeft(n: nat, b: bool)
    ensures ExecRows(PadEnv(n, b), ScanOf(0)) == multiset{[Null]}
  {
    var row: Named := map[Column(0) := Null];
    BindOne(row, StoredF([Column(0)]));
    assert Stored([Column(0)], row) == [Null];
  }

  lemma {:induction false} PaddedAlone(env: Env, s: seq<Expr>, rn: nat)
    ensures LeftAtF(env, LeftOuter, TRUE, s, multiset{}, rn)([Null]) == multiset{[Null] + NullRow(rn)}
  {
    hide NullRow, EvalRoot;
    var none: multiset<Row> := multiset{};
    assert !MatchAt(env, TRUE, s, [Null], none);
  }

  lemma {:induction false} PaddedJoin(env: Env, sl: seq<Expr>, sr: seq<Expr>)
    ensures JoinAt(env, LeftOuter, TRUE, sl, sr, multiset{[Null]}, multiset{}) == multiset{[Null] + NullRow(|sr|)}
  {
    hide Bind, NullRow, LeftAtF, RightAtF;
    BindOne([Null], LeftAtF(env, LeftOuter, TRUE, sl + sr, multiset{}, |sr|));
    PaddedAlone(env, sl + sr, |sr|);
    BindEmpty(RightAtF(env, LeftOuter, TRUE, sl + sr, multiset{[Null]}, |sl|));
  }

  /** The join returns one row, all nulls. */
  lemma {:induction false} PaddedRow(n: nat, b: bool, cols: seq<Expr>, e: Expr)
    ensures ExecRows(PadEnv(n, b), Padded(cols, e)) == multiset{NullRow(|cols| + 2)}
  {
    hide Bind, JoinAt;
    EmptyRight(n, b, cols, e);
    OneLeft(n, b);
    PaddedJoin(PadEnv(n, b), [Column(0)], cols + [e]);
    assert [Null] + NullRow(|cols| + 1) == NullRow(|cols| + 2);
  }

  lemma {:induction false} OneNull()
    ensures NullRow(1) == [Null]
  {}

  lemma {:induction false} FilterOne(env: Env, cond: Expr, c: Plan, t: Row)
    requires ExecRows(env, c) == multiset{t}
    ensures ExecRows(env, Filter(cond, c)) == if HoldsAt(env, cond, Schema(c), t) then multiset{t} else multiset{}
  {
    hide EvalRoot, EvalAt, Bind, JoinAt, GroupAtF, KeysAt;
    BindOne(t, KeepF(HoldsAtF(env, cond, Schema(c))));
  }

  lemma {:induction false} ProjOne(env: Env, es: seq<Expr>, c: Plan, t: Row)
    requires ExecRows(env, c) == multiset{t}
    ensures ExecRows(env, Proj(es, c)) == multiset{ListAt(env, es, Schema(c), t)}
  {
    hide ListAt, Bind, EvalRoot, EvalAt, JoinAt, GroupAtF, KeysAt;
    BindOne(t, ListAtF(env, es, Schema(c)));
  }

  /** Read from a row of nulls, a column is null. */
  lemma {:induction false} ReadsNull(env: Env, e: Expr, s: seq<Expr>)
    requires e in s
    ensures EvalAt(env, e, s, NullRow(|s|)) == Null
  {}

  lemma {:induction false} EmptyProj(env: Env, es: seq<Expr>, c: Plan)
    requires ExecRows(env, c) == multiset{}
    ensures ExecRows(env, Proj(es, c)) == multiset{}
  {
    BindEmpty(ListAtF(env, es, Schema(c)));
  }

  lemma {:induction false} AllRead(env: Env, es: seq<Expr>, s: seq<Expr>)
    requires forall i :: 0 <= i < |es| ==> es[i] in s
    ensures ListAt(env, es, s, NullRow(|s|)) == NullRow(|es|)
  {
    hide NullRow;
    forall i | 0 <= i < |es| ensures ListAt(env, es, s, NullRow(|s|))[i] == Null {
      ReadsNull(env, es[i], s);
    }
    AllNull(ListAt(env, es, s, NullRow(|s|)));
  }

  lemma {:induction false} AllNull(t: Row)
    requires forall i :: 0 <= i < |t| ==> t[i] == Null
    ensures t == NullRow(|t|)
  {}

  // ---- pruning below a filter ----

  /** A filter that uses the computed column, and the same over the pruned join. */
  function Unpruned(cols: seq<Expr>, e: Expr): Plan {
    Proj([Column(0)], Filter(Unary(Above(e), e), Padded(cols, e)))
  }

  function Pruned(cols: seq<Expr>, e: Expr): Plan {
    Proj([Column(0)], Filter(Unary(Above(e), e), Proj([Column(0)] + cols, Padded(cols, e))))
  }

  lemma {:induction false} PruneFilterPlans(cols: seq<Expr>, e: Expr)
    requires Over(cols, e)
    ensures WellFormed(Unpruned(cols, e)) && WellFormed(Pruned(cols, e))
    ensures PruneFilter(Unpruned(cols, e), Pruned(cols, e))
    ensures Unambiguous(Unpruned(cols, e)) <==> StaysNull(e)
  {
    hide SafeToPad, StaysNull;
    var p, q := Unpruned(cols, e), Pruned(cols, e);
    PaddedShape(cols, e);
    AllColumns(cols);
    OutColsConcat([Column(0)], cols);
    ColumnsOfConcat([Column(0)], cols);
    OfOne(Column(0));
    var pruned := q.child.child;
    assert AllCols(pruned.exprs) && AllPlain(pruned.exprs) && OutCols(pruned.exprs) == {Column(0)} + Columns(e);
    assert WellFormed(pruned) && WellFormed(p.child) && WellFormed(q.child);
    assert Unambiguous(p) <==> Unambiguous(p.child);
  }

  lemma {:induction false} ReadsPadded(n: nat, e: Expr, s: seq<Expr>)
    requires e in s
    ensures !HoldsAt(PadEnv(n, false), Unary(n, e), s, NullRow(|s|))
  {
    hide NullRow;
    ReadsNull(PadEnv(n, false), e, s);
  }

  lemma {:induction false} ComputesPadded(cols: seq<Expr>, e: Expr, s: seq<Expr>)
    requires Over(cols, e) && !StaysNull(e) && s == [Column(0)] + cols
    ensures HoldsAt(PadEnv(Above(e), false), Unary(Above(e), e), s, NullRow(|s|))
  {
    hide NullRow, OnNulls;
    AllColumns(cols);
    ComputedOnNulls(Above(e), e, s, Columns(e) + {Ref(e)});
  }

  /** Before, the condition reads the padded column and gets null; after, it computes it. */
  lemma {:induction false} PruningChangesRows(cols: seq<Expr>, e: Expr)
    requires Over(cols, e) && !StaysNull(e)
    ensures var env := PadEnv(Above(e), false);
            ExecRows(env, Unpruned(cols, e)) == multiset{} && ExecRows(env, Pruned(cols, e)) == multiset{[Null]}
  {
    hide ExecRows, WellFormed, EvalRoot, EvalAt, Bind, StaysNull, HoldsAt;
    var n, j, p, q := Above(e), Padded(cols, e), Unpruned(cols, e), Pruned(cols, e);
    var env, cond, cs := PadEnv(n, false), Unary(n, e), [Column(0)] + cols;
    PaddedShape(cols, e);
    PaddedRow(n, false, cols, e);
    OneNull();
    FilterOne(env, cond, j, NullRow(|cols| + 2));
    ReadsPadded(n, e, Schema(j));
    EmptyProj(env, [Column(0)], p.child);
    ProjOne(env, cs, j, NullRow(|cols| + 2));
    AllRead(env, cs, Schema(j));
    FilterOne(env, cond, q.child.child, NullRow(|cs|));
    ComputesPadded(cols, e, cs);
    ProjOne(env, [Column(0)], q.child, NullRow(|cs|));
    AllRead(env, [Column(0)], cs);
  }

  /** Pruning the column away keeps the rows in every database if and only if the expression is null on rows of
      nulls; that is, if and only if the plan is unambiguous. */
  lemma {:induction false} PruningSafeIff(cols: seq<Expr>, e: Expr)
    requires Over(cols, e)
    ensures var p, q := Unpruned(cols, e), Pruned(cols, e);
            && WellFormed(p) && WellFormed(q) && PruneFilter(p, q) && (Unambiguous(p) <==> StaysNull(e))
            && ((forall env :: ExecRows(env, q) == ExecRows(env, p)) <==> StaysNull(e))
  {
    hide ExecRows, WellFormed, Unambiguous, PruneFilter, StaysNull, Over, Unpruned, Pruned;
    var p, q := Unpruned(cols, e), Pruned(cols, e);
    PruneFilterPlans(cols, e);
    if StaysNull(e) {
      forall env ensures ExecRows(env, q) == ExecRows(env, p) {
        PruneFilterSound(env, p, q);
        SameRuns(env, p, q);
      }
    } else {
      PruningChangesRows(cols, e);
      var env := PadEnv(Above(e), false);
      assert [Null] in ExecRows(env, q) && [Null] !in ExecRows(env, p);
    }
  }

  // ---- skipping a projection ----

  function Unskipped(cols: seq<Expr>, e: Expr): Plan {
    Proj([e], Proj(cols, Padded(cols, e)))
  }

  function Skipped(cols: seq<Expr>, e: Expr): Plan {
    Proj([e], Padded(cols, e))
  }

  lemma {:induction false} SkippingPlans(cols: seq<Expr>, e: Expr)
    requires Over(cols, e)
    ensures WellFormed(Unskipped(cols, e)) && WellFormed(Skipped(cols, e))
    ensures ProjProj(Unskipped(cols, e), Skipped(cols, e))
    ensures Unambiguous(Unskipped(cols, e)) <==> StaysNull(e)
  {
    hide SafeToPad, StaysNull;
    var p := Unskipped(cols, e);
    PaddedShape(cols, e);
    AllColumns(cols);
    OfOne(e);
    assert WellFormed(p.child) && (Unambiguous(p.child) <==> Unambiguous(Padded(cols, e)));
  }

  lemma {:induction false} ComputedItem(cols: seq<Expr>, e: Expr)
    requires Over(cols, e) && !StaysNull(e)
    ensures ListAt(PadEnv(Above(e), false), [e], cols, NullRow(|cols|)) != [Null]
  {
    hide NullRow, OnNulls;
    AllColumns(cols);
    ComputedOnNulls(Above(e), e, cols, Columns(e) + {Ref(e)});
    assert ListAt(PadEnv(Above(e), false), [e], cols, NullRow(|cols|))[0] != Null;
  }

  /** The expression was computed, and is now read. */
  lemma {:induction false} SkippingChangesRows(cols: seq<Expr>, e: Expr)
    requires Over(cols, e) && !StaysNull(e)
    ensures var env := PadEnv(Above(e), false);
            [Null] !in ExecRows(env, Unskipped(cols, e)) && ExecRows(env, Skipped(cols, e)) == multiset{[Null]}
  {
    hide ExecRows, WellFormed, EvalRoot, EvalAt, Bind, StaysNull;
    var n, j, p := Above(e), Padded(cols, e), Unskipped(cols, e);
    var env := PadEnv(n, false);
    PaddedShape(cols, e);
    PaddedRow(n, false, cols, e);
    OneNull();
    ProjOne(env, [e], j, NullRow(|cols| + 2));
    AllRead(env, [e], Schema(j));
    ProjOne(env, cols, j, NullRow(|cols| + 2));
    AllRead(env, cols, Schema(j));
    ProjOne(env, [e], p.child, NullRow(|cols|));
    ComputedItem(cols, e);
  }

  /** Skipping a projection likewise. */
  lemma {:induction false} SkippingSafeIff(cols: seq<Expr>, e: Expr)
    requires Over(cols, e)
    ensures var p, q := Unskipped(cols, e), Skipped(cols, e);
            && WellFormed(p) && WellFormed(q) && ProjProj(p, q) && (Unambiguous(p) <==> StaysNull(e))
            && ((forall env :: ExecRows(env, q) == ExecRows(env, p)) <==> StaysNull(e))
  {
    hide ExecRows, WellFormed, Unambiguous, ProjProj, StaysNull, Over, Unskipped, Skipped;
    var p, q := Unskipped(cols, e), Skipped(cols, e);
    SkippingPlans(cols, e);
    if StaysNull(e) {
      forall env ensures ExecRows(env, q) == ExecRows(env, p) {
        ProjProjSound(env, p, q);
        SameRuns(env, p, q);
      }
    } else {
      SkippingChangesRows(cols, e);
      var env := PadEnv(Above(e), false);
      assert [Null] in ExecRows(env, q) && [Null] !in ExecRows(env, p);
    }
  }

  // ---- merging filters ----

  /** For every operator: the whole of a condition is computed, a part of one is read. */
  lemma {:induction false} MergingChangesRows(cols: seq<Expr>, e: Expr)
    returns (env: Env, p: Plan, q: Plan)
    requires Over(cols, e) && (e.Unary? || e.Binary?)
    ensures WellFormed(p) && WellFormed(q) && !Unambiguous(p) && FilterMerge(p, q)
    ensures ExecRows(env, p) != multiset{} && ExecRows(env, q) == multiset{}
  {
    hide ExecRows, EvalRoot, EvalAt, Bind, SafeToPad, HoldsAt;
    var n, j := Above(e), Padded(cols, e);
    var t := NullRow(|cols| + 2);
    env := PadEnv(n, true);
    p := Filter(e, Filter(TRUE, j));
    q := Filter(And(e, TRUE), j);
    PaddedShape(cols, e);
    assert WellFormed(p.child) && !Unambiguous(p.child);
    PaddedRow(n, true, cols, e);
    WholeAndPart(e, Schema(j));
    FilterOne(env, TRUE, j, t);
    FilterOne(env, e, p.child, t);
    FilterOne(env, And(e, TRUE), j, t);
  }

  lemma {:induction false} WholeAndPart(e: Expr, s: seq<Expr>)
    requires (e.Unary? || e.Binary?) && e in s
    ensures var env, t := PadEnv(Above(e), true), NullRow(|s|);
            HoldsAt(env, TRUE, s, t) && HoldsAt(env, e, s, t) && !HoldsAt(env, And(e, TRUE), s, t)
  {
    ReadsNull(PadEnv(Above(e), true), e, s);
  }
}
