/** Rows on which reading a computed column and computing it again come to the same, and the plans whose rows
    are all of that kind. */
module Lookups {
  import opened Common
  import opened Bags
  import opened Plans

  // ---- what can be computed from which columns ----

  /** The expression can be computed from these columns.  Aggregates can only be read. */
  predicate Available(e: Expr, cols: set<Expr>) {
    match e
    case Column(_) => e in cols
    case Ref(a) => e in cols || Available(a, cols)
    case Const(_) => true
    case Unary(_, a) => Available(a, cols)
    case Binary(_, a, b) => Available(a, cols) && Available(b, cols)
    case And(a, b) => Available(a, cols) && Available(b, cols)
    case Agg(_, _) => false
  }

  predicate AllAvailable(es: seq<Expr>, cols: set<Expr>) {
    forall i :: 0 <= i < |es| ==> Available(es[i], cols)
  }

  lemma {:induction false} AvailableMono(e: Expr, cols: set<Expr>, more: set<Expr>)
    requires Available(e, cols) && cols <= more
    ensures Available(e, more)
  {
    match e {
      case Ref(a) => if e !in cols { AvailableMono(a, cols, more); }
      case Unary(_, a) => AvailableMono(a, cols, more);
      case Binary(_, a, b) => AvailableMono(a, cols, more); AvailableMono(b, cols, more);
      case And(a, b) => AvailableMono(a, cols, more); AvailableMono(b, cols, more);
      case _ =>
    }
  }

  lemma {:induction false} PlainAvailable(e: Expr, cols: set<Expr>)
    requires Plain(e) && Columns(e) <= cols
    ensures Available(e, cols)
  {
    match e {
      case Unary(_, a) => PlainAvailable(a, cols);
      case Binary(_, a, b) => PlainAvailable(a, cols); PlainAvailable(b, cols);
      case And(a, b) => PlainAvailable(a, cols); PlainAvailable(b, cols);
      case _ =>
    }
  }

  lemma {:induction false} ColumnsOfMember(es: seq<Expr>, i: nat)
    requires i < |es|
    ensures Columns(es[i]) <= ColumnsOf(es)
    decreases i
  {
    if i > 0 {
      ColumnsOfMember(es[1..], i - 1);
    }
  }

  lemma {:induction false} PlainAllAvailable(es: seq<Expr>, cols: set<Expr>)
    requires AllPlain(es) && ColumnsOf(es) <= cols
    ensures AllAvailable(es, cols)
  {
    forall i | 0 <= i < |es| ensures Available(es[i], cols) {
      ColumnsOfMember(es, i);
      PlainAvailable(es[i], cols);
    }
  }

  // ---- consistent rows ----

  /** Every computed column that could be computed again holds the value that would give. */
  ghost predicate Consistent(env: Env, r: Named) {
    forall e :: Ref(e) in r && Available(e, r.Keys) ==> r[Ref(e)] == Eval(env, e, r)
  }

  ghost predicate AllConsistent(env: Env, rows: multiset<Named>) {
    forall r :: r in rows ==> Consistent(env, r)
  }

  lemma {:induction false} RefIsValue(env: Env, e: Expr, r: Named)
    requires Consistent(env, r) && Available(e, r.Keys)
    ensures Eval(env, Ref(e), r) == Eval(env, e, r)
  {}

  /** Every column of `s` can be computed from `r`, with the value it has in `s`. */
  ghost predicate Derived(env: Env, s: Named, r: Named) {
    forall c :: c in s ==> Available(c, r.Keys) && s[c] == Eval(env, c, r)
  }

  /** Expressions have the same value on a consistent row and on a row derived from it. */
  lemma {:induction false} Stable(env: Env, e: Expr, s: Named, r: Named)
    requires Consistent(env, r) && Derived(env, s, r) && Available(e, s.Keys)
    ensures Available(e, r.Keys) && Eval(env, e, s) == Eval(env, e, r)
  {
    match e {
      case Column(_) => assert e in s;
      case Ref(a) =>
        if e !in s {
          Stable(env, a, s, r);
          RefIsValue(env, a, r);
        }
      case Unary(_, a) => Stable(env, a, s, r);
      case Binary(_, a, b) => Stable(env, a, s, r); Stable(env, b, s, r);
      case And(a, b) => Stable(env, a, s, r); Stable(env, b, s, r);
      case _ =>
    }
  }

  lemma {:induction false} DerivedConsistent(env: Env, s: Named, r: Named)
    requires Consistent(env, r) && Derived(env, s, r)
    ensures Consistent(env, s)
  {
    forall e | Ref(e) in s && Available(e, s.Keys) ensures s[Ref(e)] == Eval(env, e, s) {
      Stable(env, e, s, r);
      RefIsValue(env, e, r);
    }
  }

  lemma {:induction false} ProjValue(env: Env, es: seq<Expr>, r: Named, c: Expr)
    requires Consistent(env, r) && AllAvailable(es, r.Keys) && c in OutCols(es)
    ensures Available(c, r.Keys)
    ensures c in ProjRow(env, es, r) && ProjRow(env, es, r)[c] == Eval(env, c, r)
    decreases |es|
  {
    if OutCol(es[0]) == c {
      if !IsCol(es[0]) {
        RefIsValue(env, es[0], r);
      }
    } else {
      ProjValue(env, es[1..], r, c);
    }
  }

  lemma {:induction false} ProjDerived(env: Env, es: seq<Expr>, r: Named)
    requires Consistent(env, r) && AllAvailable(es, r.Keys)
    ensures Derived(env, ProjRow(env, es, r), r) && Consistent(env, ProjRow(env, es, r))
  {
    ProjRowKeys(env, es, r);
    forall c | c in OutCols(es)
      ensures c in ProjRow(env, es, r) && Available(c, r.Keys) && ProjRow(env, es, r)[c] == Eval(env, c, r)
    {
      ProjValue(env, es, r, c);
    }
    DerivedConsistent(env, ProjRow(env, es, r), r);
  }

  /** The key columns of a group are those of the projection of any of its members. */
  lemma {:induction false} KeyRowIsProj(env: Env, ks: seq<Expr>, r: Named)
    ensures KeyRow(ks, KeyValues(env, ks, r)) == ProjRow(env, ks, r)
    decreases |ks|
  {
    if ks != [] {
      assert KeyValues(env, ks, r)[1..] == KeyValues(env, ks[1..], r);
      KeyRowIsProj(env, ks[1..], r);
    }
  }

  // ---- where columns come from ----

  /** The table columns and aggregates that an expression rests on, through references. */
  function Atoms(e: Expr): set<Expr> {
    match e
    case Column(_) => {e}
    case Ref(a) => Atoms(a)
    case Const(_) => {}
    case Unary(_, a) => Atoms(a)
    case Binary(_, a, b) => Atoms(a) + Atoms(b)
    case And(a, b) => Atoms(a) + Atoms(b)
    case Agg(_, _) => {e}
  }

  function SetOf(es: seq<Expr>): set<Expr> {
    set e | e in es
  }

  /** The table columns and aggregates a plan starts from. */
  function Base(p: Plan): set<Expr> {
    match p
    case Scan(_, cols) => SetOf(cols)
    case Empty(c) => Base(c)
    case Filter(_, c) => Base(c)
    case Order(_, c) => Base(c)
    case Proj(_, c) => Base(c)
    case Join(_, _, l, r) => Base(l) + Base(r)
    case HashAgg(_, gs, c) => Base(c) + SetOf(gs)
  }

  ghost predicate Within(cols: set<Expr>, base: set<Expr>) {
    forall c :: c in cols ==> Atoms(c) <= base
  }

  lemma {:induction false} AvailableWithin(e: Expr, cols: set<Expr>, base: set<Expr>)
    requires Within(cols, base) && Available(e, cols)
    ensures Atoms(e) <= base
  {
    match e {
      case Ref(a) => if e !in cols { AvailableWithin(a, cols, base); }
      case Unary(_, a) => AvailableWithin(a, cols, base);
      case Binary(_, a, b) => AvailableWithin(a, cols, base); AvailableWithin(b, cols, base);
      case And(a, b) => AvailableWithin(a, cols, base); AvailableWithin(b, cols, base);
      case _ =>
    }
  }

  lemma {:induction false} OutWithin(es: seq<Expr>, cols: set<Expr>, base: set<Expr>)
    requires Within(cols, base) && AllAvailable(es, cols)
    ensures Within(OutCols(es), base)
    decreases |es|
  {
    if es != [] {
      AvailableWithin(es[0], cols, base);
      OutWithin(es[1..], cols, base);
    }
  }

  /** An expression that rests on nothing is a constant. */
  lemma {:induction false} Closed(env: Env, e: Expr, r: Named)
    requires Atoms(e) == {} && Consistent(env, r)
    ensures Available(e, r.Keys) && Eval(env, e, r) == Eval(env, e, map[])
  {
    match e {
      case Ref(a) =>
        Closed(env, a, r);
        RefIsValue(env, a, r);
      case Unary(_, a) => Closed(env, a, r);
      case Binary(_, a, b) => Closed(env, a, r); Closed(env, b, r);
      case And(a, b) => Closed(env, a, r); Closed(env, b, r);
      case _ =>
    }
  }

  /** Two rows whose columns rest on different table columns and aggregates. */
  ghost predicate Apart(a: Named, b: Named, la: set<Expr>, lb: set<Expr>) {
    a.Keys !! b.Keys && Within(a.Keys, la) && Within(b.Keys, lb) && la !! lb
  }

  lemma {:induction false} MergedValue(env: Env, e: Expr, a: Named, b: Named, la: set<Expr>, lb: set<Expr>)
    requires Apart(a, b, la, lb) && Consistent(env, a) && Consistent(env, b)
    requires Atoms(e) <= la && Available(e, a.Keys + b.Keys)
    ensures Available(e, a.Keys) && Eval(env, e, a + b) == Eval(env, e, a)
  {
    match e {
      case Column(_) => assert e in Atoms(e);
      case Ref(x) =>
        if e in b {
          assert Atoms(x) == {};
          Closed(env, x, a);
          Closed(env, x, b);
        } else if e !in a {
          MergedValue(env, x, a, b, la, lb);
        }
      case Unary(_, x) => MergedValue(env, x, a, b, la, lb);
      case Binary(_, x, y) => MergedValue(env, x, a, b, la, lb); MergedValue(env, y, a, b, la, lb);
      case And(x, y) => MergedValue(env, x, a, b, la, lb); MergedValue(env, y, a, b, la, lb);
      case _ =>
    }
  }

  lemma {:induction false} MergedSwap(a: Named, b: Named)
    requires a.Keys !! b.Keys
    ensures a + b == b + a
  {}

  lemma {:induction false} MergedConsistent(env: Env, a: Named, b: Named, la: set<Expr>, lb: set<Expr>)
    requires Apart(a, b, la, lb) && Consistent(env, a) && Consistent(env, b)
    ensures Consistent(env, a + b)
  {
    var r := a + b;
    assert r.Keys == a.Keys + b.Keys == b.Keys + a.Keys;
    MergedSwap(a, b);
    forall e | Ref(e) in r && Available(e, r.Keys) ensures r[Ref(e)] == Eval(env, e, r) {
      if Ref(e) in a {
        assert Atoms(Ref(e)) <= la;
        MergedValue(env, e, a, b, la, lb);
      } else {
        assert Atoms(Ref(e)) <= lb;
        MergedValue(env, e, b, a, lb, la);
      }
    }
  }

  // ---- the guard ----

  /** The value of an expression on a row of nulls over these columns, taking every operator for false. */
  function OnNulls(e: Expr, cols: set<Expr>): Value {
    match e
    case Column(_) => Null
    case Ref(a) => if e in cols then Null else OnNulls(a, cols)
    case Const(v) => v
    case Unary(_, _) => Bool(false)
    case Binary(_, _, _) => Bool(false)
    case And(a, b) => AndValue(OnNulls(a, cols), OnNulls(b, cols))
    case Agg(_, _) => Null
  }

  /** A computed column that could be computed again from the columns beside it is null on a row of nulls,
      whatever the operators do. */
  predicate SafeToPad(cols: set<Expr>) {
    forall c :: c in cols && c.Ref? && Available(c.e, cols) ==> OnNulls(c.e, cols) == Null
  }

  lemma {:induction false} OnNullsValue(env: Env, e: Expr, cols: set<Expr>)
    requires Available(e, cols) && OnNulls(e, cols) != Bool(false)
    ensures Eval(env, e, Nulls(cols)) == OnNulls(e, cols)
  {
    match e {
      case Ref(a) => if e !in cols { OnNullsValue(env, a, cols); }
      case And(a, b) => OnNullsValue(env, a, cols); OnNullsValue(env, b, cols);
      case _ =>
    }
  }

  lemma {:induction false} FewerOnNulls(e: Expr, cols: set<Expr>, fewer: set<Expr>)
    requires SafeToPad(cols) && fewer <= cols && Available(e, fewer)
    ensures OnNulls(e, fewer) == OnNulls(e, cols)
  {
    match e {
      case Ref(a) =>
        if e !in fewer {
          FewerOnNulls(a, cols, fewer);
          AvailableMono(a, fewer, cols);
        }
      case And(a, b) => FewerOnNulls(a, cols, fewer); FewerOnNulls(b, cols, fewer);
      case _ =>
    }
  }

  lemma {:induction false} FewerSafeToPad(cols: set<Expr>, fewer: set<Expr>)
    requires SafeToPad(cols) && fewer <= cols
    ensures SafeToPad(fewer)
  {
    forall c | c in fewer && c.Ref? && Available(c.e, fewer) ensures OnNulls(c.e, fewer) == Null {
      FewerOnNulls(c.e, cols, fewer);
      AvailableMono(c.e, fewer, cols);
    }
  }

  predicate PadsLeft(ty: JoinType) {
    ty.RightOuter? || ty.FullOuter?
  }

  predicate PadsRight(ty: JoinType) {
    ty.LeftOuter? || ty.FullOuter?
  }

  /** Table columns and aggregates come from one place each, and a side that an outer join pads with nulls
      brings no computed column together with what it is computed from, unless that is null there too. */
  predicate Unambiguous(p: Plan) {
    match p
    case Scan(_, _) => true
    case Empty(c) => Unambiguous(c)
    case Filter(_, c) => Unambiguous(c)
    case Order(_, c) => Unambiguous(c)
    case Proj(_, c) => Unambiguous(c)
    case Join(ty, _, l, r) =>
      && Unambiguous(l) && Unambiguous(r) && Base(l) !! Base(r)
      && (PadsLeft(ty) ==> SafeToPad(Produced(l)))
      && (PadsRight(ty) ==> SafeToPad(Produced(r)))
    case HashAgg(_, gs, c) => Unambiguous(c) && SetOf(gs) !! Base(c)
  }

  predicate AggsAvailable(gs: seq<Expr>, cols: set<Expr>) {
    forall i :: 0 <= i < |gs| ==> gs[i].Agg? && Available(gs[i].arg, cols)
  }

  /** Every expression can be computed from the columns below it, read or computed. */
  predicate Fits(p: Plan) {
    match p
    case Scan(_, cols) => TableColumns(cols)
    case Empty(c) => Fits(c)
    case Filter(cond, c) => Fits(c) && !IsCol(cond) && Available(cond, Produced(c))
    case Order(ks, c) => Fits(c) && AllAvailable(ks, Produced(c))
    case Proj(es, c) => Fits(c) && AllAvailable(es, Produced(c))
    case Join(_, on, l, r) =>
      && Fits(l) && Fits(r) && Produced(l) !! Produced(r)
      && !IsCol(on) && Available(on, Produced(l) + Produced(r))
    case HashAgg(ks, gs, c) => Fits(c) && AllAvailable(ks, Produced(c)) && AggsAvailable(gs, Produced(c))
  }

  lemma {:induction false} WellFormedFits(p: Plan)
    requires WellFormed(p)
    ensures Fits(p)
  {
    match p {
      case Scan(_, _) =>
      case Empty(c) => WellFormedFits(c);
      case Filter(cond, c) =>
        WellFormedFits(c);
        PlainAvailable(cond, Produced(c));
      case Order(ks, c) =>
        WellFormedFits(c);
        PlainAllAvailable(ks, Produced(c));
      case Proj(es, c) =>
        WellFormedFits(c);
        PlainAllAvailable(es, Produced(c));
      case Join(_, on, l, r) =>
        WellFormedFits(l);
        WellFormedFits(r);
        PlainAvailable(on, Produced(l) + Produced(r));
      case HashAgg(ks, gs, c) =>
        WellFormedFits(c);
        PlainAllAvailable(ks, Produced(c));
        forall i | 0 <= i < |gs| ensures gs[i].Agg? && Available(gs[i].arg, Produced(c)) {
          ColumnsOfMember(gs, i);
          PlainAvailable(gs[i].arg, Produced(c));
        }
    }
  }

  // ---- every row of such a plan is consistent ----

  lemma {:induction false} AggAtoms(gs: seq<Expr>)
    requires forall i :: 0 <= i < |gs| ==> gs[i].Agg?
    ensures Within(OutCols(gs), SetOf(gs))
    decreases |gs|
  {
    if gs != [] {
      AggAtoms(gs[1..]);
      assert gs == [gs[0]] + gs[1..];
    }
  }

  lemma {:induction false} ProducedWithin(p: Plan)
    requires Fits(p)
    ensures Within(Produced(p), Base(p))
  {
    match p {
      case Scan(_, cols) =>
        forall c | c in OutCols(cols) ensures Atoms(c) <= SetOf(cols) {
          OutColsAreCols(cols, c);
        }
      case Empty(c) => ProducedWithin(c);
      case Filter(_, c) => ProducedWithin(c);
      case Order(_, c) => ProducedWithin(c);
      case Proj(es, c) =>
        ProducedWithin(c);
        OutWithin(es, Produced(c), Base(c));
      case Join(_, _, l, r) =>
        ProducedWithin(l);
        ProducedWithin(r);
      case HashAgg(ks, gs, c) =>
        ProducedWithin(c);
        OutWithin(ks, Produced(c), Base(c));
        AggAtoms(gs);
    }
  }

  lemma {:induction false} NoRefConsistent(env: Env, r: Named)
    requires forall c :: c in r ==> c.Column?
    ensures Consistent(env, r)
  {}

  lemma {:induction false} NullsConsistent(env: Env, cols: set<Expr>)
    requires SafeToPad(cols)
    ensures Consistent(env, Nulls(cols))
  {
    NullKeys(cols);
    forall e | Ref(e) in Nulls(cols) && Available(e, Nulls(cols).Keys)
      ensures Nulls(cols)[Ref(e)] == Eval(env, e, Nulls(cols))
    {
      assert Ref(e) in cols;
      OnNullsValue(env, e, cols);
    }
  }

  lemma {:induction false} AggRowConsistent(env: Env, gs: seq<Expr>, group: multiset<Named>)
    requires forall i :: 0 <= i < |gs| ==> gs[i].Agg?
    ensures Consistent(env, AggRow(env, gs, group))
  {
    AggRowKeys(env, gs, group);
    forall e | Ref(e) in OutCols(gs) ensures e.Agg? {
      OutColsAreCols(gs, Ref(e));
    }
  }

  /** The inputs of a join: consistent rows over separate columns. */
  ghost predicate Joinable(env: Env, ls: multiset<Named>, rs: multiset<Named>, lc: set<Expr>, rc: set<Expr>,
                           lb: set<Expr>, rb: set<Expr>) {
    && Typed(ls, lc) && Typed(rs, rc) && AllConsistent(env, ls) && AllConsistent(env, rs)
    && lc !! rc && Within(lc, lb) && Within(rc, rb) && lb !! rb
  }

  lemma {:induction false} PairConsistent(env: Env, ls: multiset<Named>, rs: multiset<Named>, lc: set<Expr>,
                                          rc: set<Expr>, lb: set<Expr>, rb: set<Expr>, a: Named, b: Named)
    requires Joinable(env, ls, rs, lc, rc, lb, rb) && a in ls && b in rs
    ensures Consistent(env, a + b)
  {
    MergedConsistent(env, a, b, lb, rb);
  }

  lemma {:induction false} PaddedRight(env: Env, ls: multiset<Named>, rs: multiset<Named>, lc: set<Expr>,
                                       rc: set<Expr>, lb: set<Expr>, rb: set<Expr>, a: Named)
    requires Joinable(env, ls, rs, lc, rc, lb, rb) && a in ls && SafeToPad(rc)
    ensures Consistent(env, a + Nulls(rc))
  {
    NullKeys(rc);
    NullsConsistent(env, rc);
    MergedConsistent(env, a, Nulls(rc), lb, rb);
  }

  lemma {:induction false} PaddedLeft(env: Env, ls: multiset<Named>, rs: multiset<Named>, lc: set<Expr>,
                                      rc: set<Expr>, lb: set<Expr>, rb: set<Expr>, b: Named)
    requires Joinable(env, ls, rs, lc, rc, lb, rb) && b in rs && SafeToPad(lc)
    ensures Consistent(env, Nulls(lc) + b)
  {
    NullKeys(lc);
    NullsConsistent(env, lc);
    MergedConsistent(env, Nulls(lc), b, lb, rb);
  }

  lemma {:induction false} FromLeftConsistent(env: Env, ty: JoinType, on: Expr, ls: multiset<Named>,
                                              rs: multiset<Named>, lc: set<Expr>, rc: set<Expr>, lb: set<Expr>,
                                              rb: set<Expr>, a: Named, y: Named)
    requires Joinable(env, ls, rs, lc, rc, lb, rb) && (PadsRight(ty) ==> SafeToPad(rc))
    requires a in ls && y in FromLeft(env, ty, on, a, rs, rc)
    ensures Consistent(env, y)
  {
    hide Consistent, Nulls, Within, Typed, Eval, SafeToPad;
    if HasMatch(env, on, a, rs) && !ty.Semi? && !ty.Anti? {
      BindMember(rs, PairF(env, on, a), y);
      var b :| b in rs && y in PairF(env, on, a)(b);
      PairConsistent(env, ls, rs, lc, rc, lb, rb, a, b);
    } else if PadsRight(ty) {
      PaddedRight(env, ls, rs, lc, rc, lb, rb, a);
    } else {
      assert y == a;
    }
  }

  lemma {:induction false} FromRightConsistent(env: Env, ty: JoinType, on: Expr, ls: multiset<Named>,
                                               rs: multiset<Named>, lc: set<Expr>, rc: set<Expr>, lb: set<Expr>,
                                               rb: set<Expr>, b: Named, y: Named)
    requires Joinable(env, ls, rs, lc, rc, lb, rb) && (PadsLeft(ty) ==> SafeToPad(lc))
    requires b in rs && y in FromRight(env, ty, on, b, ls, lc)
    ensures Consistent(env, y)
  {
    PaddedLeft(env, ls, rs, lc, rc, lb, rb, b);
  }

  lemma {:induction false} BindConsistent(env: Env, rows: multiset<Named>, f: Named -> multiset<Named>)
    requires forall x, y :: x in rows && y in f(x) ==> Consistent(env, y)
    ensures AllConsistent(env, Bind(rows, f))
  {
    hide Consistent;
    forall y | y in Bind(rows, f) ensures Consistent(env, y) {
      BindMember(rows, f, y);
    }
  }

  lemma {:induction false} JoinConsistent(env: Env, ty: JoinType, on: Expr, ls: multiset<Named>, rs: multiset<Named>,
                                          lc: set<Expr>, rc: set<Expr>, lb: set<Expr>, rb: set<Expr>)
    requires Joinable(env, ls, rs, lc, rc, lb, rb)
    requires (PadsLeft(ty) ==> SafeToPad(lc)) && (PadsRight(ty) ==> SafeToPad(rc))
    ensures AllConsistent(env, JoinRows(env, ty, on, ls, rs, lc, rc))
  {
    hide Consistent, Joinable, SafeToPad, FromLeft, FromRight, Bind;
    var f, g := LeftF(env, ty, on, rs, rc), RightF(env, ty, on, ls, lc);
    forall a, y | a in ls && y in f(a) ensures Consistent(env, y) {
      FromLeftConsistent(env, ty, on, ls, rs, lc, rc, lb, rb, a, y);
    }
    BindConsistent(env, ls, f);
    forall b, y | b in rs && y in g(b) ensures Consistent(env, y) {
      FromRightConsistent(env, ty, on, ls, rs, lc, rc, lb, rb, b, y);
    }
    BindConsistent(env, rs, g);
  }

  /** A group's row, seen from one of its members. */
  lemma {:induction false} GroupRowConsistent(env: Env, ks: seq<Expr>, gs: seq<Expr>, group: multiset<Named>,
                                              r: Named, base: set<Expr>)
    requires Consistent(env, r) && AllAvailable(ks, r.Keys) && AggsAvailable(gs, r.Keys)
    requires Within(r.Keys, base) && SetOf(gs) !! base
    ensures OutCols(ks) !! OutCols(gs)
    ensures Consistent(env, AggRow(env, gs, group) + KeyRow(ks, KeyValues(env, ks, r)))
  {
    var a, b := AggRow(env, gs, group), ProjRow(env, ks, r);
    KeyRowIsProj(env, ks, r);
    ProjDerived(env, ks, r);
    ProjRowKeys(env, ks, r);
    OutWithin(ks, r.Keys, base);
    AggRowKeys(env, gs, group);
    AggAtoms(gs);
    AggRowConsistent(env, gs, group);
    forall c | c in OutCols(gs) ensures c !in OutCols(ks) {
      OutColsAreCols(gs, c);
      var i :| 0 <= i < |gs| && OutCol(gs[i]) == c;
      assert gs[i] in Atoms(c) && gs[i] in SetOf(gs);
    }
    MergedConsistent(env, a, b, SetOf(gs), base);
  }

  lemma {:induction false} AggConsistent(env: Env, ks: seq<Expr>, gs: seq<Expr>, rows: multiset<Named>,
                                         cols: set<Expr>, base: set<Expr>)
    requires Typed(rows, cols) && AllConsistent(env, rows) && AllAvailable(ks, cols) && AggsAvailable(gs, cols)
    requires Within(cols, base) && SetOf(gs) !! base
    ensures AllConsistent(env, Bind(multiset(GroupKeys(env, ks, rows)), GroupF(env, ks, gs, rows)))
  {
    hide Consistent, AggRow, KeyRow, Eval, Within, AllAvailable, AggsAvailable;
    var keys, f := multiset(GroupKeys(env, ks, rows)), GroupF(env, ks, gs, rows);
    forall y | y in Bind(keys, f) ensures Consistent(env, y) {
      BindMember(keys, f, y);
      var k :| k in keys && y in f(k);
      var r :| r in rows && KeyValues(env, ks, r) == k;
      GroupRowConsistent(env, ks, gs, Group(env, ks, rows, k), r, base);
    }
  }

  lemma {:induction false} ScanConsistent(env: Env, t: nat, cols: seq<Expr>)
    requires TableColumns(cols)
    ensures AllConsistent(env, Rows(env, Scan(t, cols)))
  {
    RowsTyped(env, Scan(t, cols));
    forall r | r in Rows(env, Scan(t, cols)) ensures Consistent(env, r) {
      forall c | c in r ensures c.Column? {
        OutColsAreCols(cols, c);
      }
      NoRefConsistent(env, r);
    }
  }

  lemma {:induction false} ProjConsistent(env: Env, es: seq<Expr>, rows: multiset<Named>, cols: set<Expr>)
    requires Typed(rows, cols) && AllConsistent(env, rows) && AllAvailable(es, cols)
    ensures AllConsistent(env, Bind(rows, ProjF(env, es)))
  {
    hide Consistent, AllAvailable, ProjRow, Eval;
    forall x, y | x in rows && y in ProjF(env, es)(x) ensures Consistent(env, y) {
      ProjDerived(env, es, x);
    }
    BindConsistent(env, rows, ProjF(env, es));
  }

  lemma {:induction false} KeepConsistent(env: Env, rows: multiset<Named>, h: Named -> bool)
    requires AllConsistent(env, rows)
    ensures AllConsistent(env, Keep(rows, h))
  {
    hide Consistent;
    forall r | r in Keep(rows, h) ensures r in rows {
      KeepMember(rows, h, r);
    }
  }

  lemma {:induction false} JoinableRows(env: Env, l: Plan, r: Plan)
    requires Fits(l) && Fits(r) && Produced(l) !! Produced(r) && Base(l) !! Base(r)
    requires AllConsistent(env, Rows(env, l)) && AllConsistent(env, Rows(env, r))
    ensures Joinable(env, Rows(env, l), Rows(env, r), Produced(l), Produced(r), Base(l), Base(r))
  {
    hide Rows, Consistent;
    RowsTyped(env, l);
    RowsTyped(env, r);
    ProducedWithin(l);
    ProducedWithin(r);
  }

  /** Every row of an unambiguous plan is consistent. */
  lemma {:induction false} RowsConsistent(env: Env, p: Plan)
    requires Fits(p) && Unambiguous(p)
    ensures AllConsistent(env, Rows(env, p))
    decreases p
  {
    hide Consistent, Bind, Eval, Available, SafeToPad, Joinable, JoinRows;
    match p {
      case Scan(t, cols) => ScanConsistent(env, t, cols);
      case Empty(_) =>
      case Filter(cond, c) =>
        RowsConsistent(env, c);
        KeepConsistent(env, Rows(env, c), HoldsF(env, cond));
      case Order(_, c) => RowsConsistent(env, c);
      case Proj(es, c) =>
        RowsConsistent(env, c);
        RowsTyped(env, c);
        ProjConsistent(env, es, Rows(env, c), Produced(c));
      case Join(ty, on, l, r) =>
        RowsConsistent(env, l);
        RowsConsistent(env, r);
        JoinableRows(env, l, r);
        JoinConsistent(env, ty, on, Rows(env, l), Rows(env, r), Produced(l), Produced(r), Base(l), Base(r));
      case HashAgg(ks, gs, c) =>
        RowsConsistent(env, c);
        RowsTyped(env, c);
        ProducedWithin(c);
        AggConsistent(env, ks, gs, Rows(env, c), Produced(c), Base(c));
    }
  }
}
