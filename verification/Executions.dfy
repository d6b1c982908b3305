/** How the executor runs a plan: rows are tuples, and an expression that is found in the schema of its input is
    read from there instead of being computed. */
module Executions {
  import opened Common
  import opened Bags
  import opened Plans
  import opened Lookups

  /** The output expressions of a plan, in order. */
  function Schema(p: Plan): seq<Expr> {
    match p
    case Scan(_, cols) => cols
    case Empty(c) => Schema(c)
    case Filter(_, c) => Schema(c)
    case Order(_, c) => Schema(c)
    case Proj(es, _) => es
    case Join(ty, _, l, r) => if ty.Semi? || ty.Anti? then Schema(l) else Schema(l) + Schema(r)
    case HashAgg(ks, gs, _) => ks + gs
  }

  /** The first position of an expression in a schema. */
  function Find(s: seq<Expr>, e: Expr): (i: nat)
    requires e in s
    ensures i < |s| && s[i] == e && e !in s[..i]
  {
    if s[0] == e then 0 else 1 + Find(s[1..], e)
  }

  function At(t: Row, i: nat): Value {
    if i < |t| then t[i] else Null
  }

  /** The value of an expression, itself read if the schema has it. */
  function EvalAt(env: Env, e: Expr, s: seq<Expr>, t: Row): Value
    decreases e, 1
  {
    if e in s then At(t, Find(s, e)) else EvalRoot(env, e, s, t)
  }

  /** The value of an expression of which only the parts are read.  A table column that is not found is a
      panic, see `Resolves`. */
  function EvalRoot(env: Env, e: Expr, s: seq<Expr>, t: Row): Value
    decreases e, 0
  {
    match e
    case Column(_) => Null
    case Ref(a) => EvalAt(env, a, s, t)
    case Const(v) => v
    case Unary(op, a) => env.unary(op, EvalAt(env, a, s, t))
    case Binary(op, a, b) => env.binary(op, EvalAt(env, a, s, t), EvalAt(env, b, s, t))
    case And(a, b) => AndValue(EvalAt(env, a, s, t), EvalAt(env, b, s, t))
    case Agg(_, a) => EvalAt(env, a, s, t)
  }

  predicate ResolvesAt(e: Expr, s: seq<Expr>)
    decreases e, 1
  {
    e in s || ResolvesRoot(e, s)
  }

  predicate ResolvesRoot(e: Expr, s: seq<Expr>)
    decreases e, 0
  {
    match e
    case Column(_) => false
    case Ref(a) => ResolvesAt(a, s)
    case Const(_) => true
    case Unary(_, a) => ResolvesAt(a, s)
    case Binary(_, a, b) => ResolvesAt(a, s) && ResolvesAt(b, s)
    case And(a, b) => ResolvesAt(a, s) && ResolvesAt(b, s)
    case Agg(_, a) => ResolvesAt(a, s)
  }

  predicate AllResolve(es: seq<Expr>, s: seq<Expr>) {
    forall i :: 0 <= i < |es| ==> ResolvesAt(es[i], s)
  }

  /** An aggregate that is itself found in the schema would no longer be one. */
  predicate AggsResolve(gs: seq<Expr>, s: seq<Expr>) {
    forall i :: 0 <= i < |gs| ==> gs[i].Agg? && gs[i] !in s && ResolvesAt(gs[i].arg, s)
  }

  /** The executor can be built: no column is missing.  Otherwise it panics. */
  predicate Resolves(p: Plan) {
    match p
    case Scan(_, cols) => TableColumns(cols)
    case Empty(_) => true
    case Filter(cond, c) => Resolves(c) && ResolvesRoot(cond, Schema(c))
    case Order(ks, c) => Resolves(c) && AllResolve(ks, Schema(c))
    case Proj(es, c) => Resolves(c) && AllResolve(es, Schema(c))
    case Join(_, on, l, r) => Resolves(l) && Resolves(r) && ResolvesRoot(on, Schema(l) + Schema(r))
    case HashAgg(ks, gs, c) => Resolves(c) && AllResolve(ks, Schema(c)) && AggsResolve(gs, Schema(c))
  }

  // ---- the operators over tuples ----

  predicate HoldsAt(env: Env, cond: Expr, s: seq<Expr>, t: Row) {
    EvalRoot(env, cond, s, t) == Bool(true)
  }

  ghost function HoldsAtF(env: Env, cond: Expr, s: seq<Expr>): Row -> bool {
    t => HoldsAt(env, cond, s, t)
  }

  function ListAt(env: Env, es: seq<Expr>, s: seq<Expr>, t: Row): Row {
    seq(|es|, i requires 0 <= i < |es| => EvalAt(env, es[i], s, t))
  }

  ghost function ListAtF(env: Env, es: seq<Expr>, s: seq<Expr>): Row -> multiset<Row> {
    t => multiset{ListAt(env, es, s, t)}
  }

  ghost function PairAtF(env: Env, on: Expr, s: seq<Expr>, a: Row): Row -> multiset<Row> {
    b => if HoldsAt(env, on, s, a + b) then multiset{a + b} else multiset{}
  }

  ghost predicate MatchAt(env: Env, on: Expr, s: seq<Expr>, a: Row, rs: multiset<Row>) {
    exists b :: b in rs && HoldsAt(env, on, s, a + b)
  }

  ghost predicate LeftMatchAt(env: Env, on: Expr, s: seq<Expr>, b: Row, ls: multiset<Row>) {
    exists a :: a in ls && HoldsAt(env, on, s, a + b)
  }

  function NullRow(n: nat): Row {
    Repeat(Null, n)
  }

  ghost function AloneAt(ty: JoinType, a: Row, rn: nat): multiset<Row> {
    if PadsRight(ty) then multiset{a + NullRow(rn)} else if ty.Anti? then multiset{a} else multiset{}
  }

  ghost function MatchedAt(env: Env, ty: JoinType, on: Expr, s: seq<Expr>, a: Row, rs: multiset<Row>): multiset<Row> {
    if ty.Semi? then multiset{a} else if ty.Anti? then multiset{} else Bind(rs, PairAtF(env, on, s, a))
  }

  ghost function LeftAtF(env: Env, ty: JoinType, on: Expr, s: seq<Expr>, rs: multiset<Row>,
                         rn: nat): Row -> multiset<Row> {
    a => if MatchAt(env, on, s, a, rs) then MatchedAt(env, ty, on, s, a, rs) else AloneAt(ty, a, rn)
  }

  ghost function RightAtF(env: Env, ty: JoinType, on: Expr, s: seq<Expr>, ls: multiset<Row>,
                          ln: nat): Row -> multiset<Row> {
    b => if !LeftMatchAt(env, on, s, b, ls) && PadsLeft(ty) then multiset{NullRow(ln) + b} else multiset{}
  }

  ghost function JoinAt(env: Env, ty: JoinType, on: Expr, sl: seq<Expr>, sr: seq<Expr>, ls: multiset<Row>,
                        rs: multiset<Row>): multiset<Row> {
    Bind(ls, LeftAtF(env, ty, on, sl + sr, rs, |sr|)) + Bind(rs, RightAtF(env, ty, on, sl + sr, ls, |sl|))
  }

  ghost function KeysAt(env: Env, ks: seq<Expr>, s: seq<Expr>, rows: multiset<Row>): set<Row> {
    set t | t in rows :: ListAt(env, ks, s, t)
  }

  ghost function InGroupAtF(env: Env, ks: seq<Expr>, s: seq<Expr>, k: Row): Row -> bool {
    t => ListAt(env, ks, s, t) == k
  }

  ghost function ArgAtF(env: Env, g: Expr, s: seq<Expr>): Row -> multiset<Value> {
    t => multiset{EvalRoot(env, g, s, t)}
  }

  ghost function AggAt(env: Env, g: Expr, s: seq<Expr>, group: multiset<Row>): Value {
    env.agg(if g.Agg? then g.kind else 0, Bind(group, ArgAtF(env, g, s)))
  }

  ghost function AggsAt(env: Env, gs: seq<Expr>, s: seq<Expr>, group: multiset<Row>): Row {
    seq(|gs|, i requires 0 <= i < |gs| => AggAt(env, gs[i], s, group))
  }

  /** One tuple per group: the keys, then the aggregates. */
  ghost function GroupAtF(env: Env, ks: seq<Expr>, gs: seq<Expr>, s: seq<Expr>,
                          rows: multiset<Row>): Row -> multiset<Row> {
    k => multiset{k + AggsAt(env, gs, s, Keep(rows, InGroupAtF(env, ks, s, k)))}
  }

  function Stored(cols: seq<Expr>, r: Named): Row {
    seq(|cols|, i requires 0 <= i < |cols| => if cols[i] in r then r[cols[i]] else Null)
  }

  ghost function StoredF(cols: seq<Expr>): Named -> multiset<Row> {
    r => multiset{Stored(cols, r)}
  }

  /** What the executor returns for a plan. */
  ghost function ExecRows(env: Env, p: Plan): multiset<Row> {
    match p
    case Scan(t, cols) => Bind(env.tables(t), StoredF(cols))
    case Empty(_) => multiset{}
    case Filter(cond, c) => Keep(ExecRows(env, c), HoldsAtF(env, cond, Schema(c)))
    case Order(_, c) => ExecRows(env, c)
    case Proj(es, c) => Bind(ExecRows(env, c), ListAtF(env, es, Schema(c)))
    case Join(ty, on, l, r) => JoinAt(env, ty, on, Schema(l), Schema(r), ExecRows(env, l), ExecRows(env, r))
    case HashAgg(ks, gs, c) =>
      Bind(multiset(KeysAt(env, ks, Schema(c), ExecRows(env, c))), GroupAtF(env, ks, gs, Schema(c), ExecRows(env, c)))
  }

  // ---- schemas and produced columns ----

  lemma {:induction false} OutColsConcat(a: seq<Expr>, b: seq<Expr>)
    ensures OutCols(a + b) == OutCols(a) + OutCols(b)
    decreases |a|
  {
    if a == [] {
      assert a + b == b;
    } else {
      assert (a + b)[1..] == a[1..] + b;
      OutColsConcat(a[1..], b);
    }
  }

  lemma {:induction false} ProducedIsSchema(p: Plan)
    ensures Produced(p) == OutCols(Schema(p))
  {
    match p {
      case Empty(c) => ProducedIsSchema(c);
      case Filter(_, c) => ProducedIsSchema(c);
      case Order(_, c) => ProducedIsSchema(c);
      case Join(_, _, l, r) =>
        ProducedIsSchema(l);
        ProducedIsSchema(r);
        OutColsConcat(Schema(l), Schema(r));
      case HashAgg(ks, gs, _) => OutColsConcat(ks, gs);
      case _ =>
    }
  }

  lemma {:induction false} InOutCols(s: seq<Expr>, e: Expr)
    requires e in s
    ensures OutCol(e) in OutCols(s)
    decreases |s|
  {
    if s[0] != e {
      InOutCols(s[1..], e);
    }
  }

  lemma {:induction false} ColumnInSchema(s: seq<Expr>, e: Expr)
    requires e.Column? && e in OutCols(s)
    ensures e in s
  {
    OutColsAreCols(s, e);
  }

  lemma {:induction false} RefInSchema(s: seq<Expr>, a: Expr)
    requires Ref(a) in OutCols(s)
    ensures a in s || Ref(a) in s
  {
    OutColsAreCols(s, Ref(a));
  }

  // ---- reading and computing come to the same ----

  /** A named row as the tuple of a schema. */
  function TupleOf(s: seq<Expr>, r: Named): Row {
    seq(|s|, i requires 0 <= i < |s| => if OutCol(s[i]) in r then r[OutCol(s[i])] else Null)
  }

  ghost function TupleF(s: seq<Expr>): Named -> multiset<Row> {
    r => multiset{TupleOf(s, r)}
  }

  /** A consistent row over the columns of a schema. */
  ghost predicate RowFor(env: Env, s: seq<Expr>, r: Named) {
    r.Keys == OutCols(s) && Consistent(env, r)
  }

  lemma {:induction false} ReadValue(env: Env, e: Expr, s: seq<Expr>, r: Named)
    requires RowFor(env, s, r) && Available(e, r.Keys) && e in s
    ensures At(TupleOf(s, r), Find(s, e)) == Eval(env, e, r)
  {
    InOutCols(s, e);
    if !IsCol(e) {
      RefIsValue(env, e, r);
    }
  }

  lemma {:induction false} EvalAtAgrees(env: Env, e: Expr, s: seq<Expr>, r: Named)
    requires RowFor(env, s, r) && Available(e, r.Keys)
    ensures EvalAt(env, e, s, TupleOf(s, r)) == Eval(env, e, r)
    decreases e, 1
  {
    hide RowFor, TupleOf;
    if e in s {
      ReadValue(env, e, s, r);
    } else if e.Column? {
      KeysOf(env, s, r);
      ColumnInSchema(s, e);
    } else if e.Ref? {
      RefAtAgrees(env, e.e, s, r);
    } else {
      EvalRootAgrees(env, e, s, r);
    }
  }

  lemma {:induction false} KeysOf(env: Env, s: seq<Expr>, r: Named)
    requires RowFor(env, s, r)
    ensures r.Keys == OutCols(s)
  {}

  lemma {:induction false} RefAtAgrees(env: Env, a: Expr, s: seq<Expr>, r: Named)
    requires RowFor(env, s, r) && Available(Ref(a), r.Keys) && Ref(a) !in s
    ensures EvalAt(env, a, s, TupleOf(s, r)) == Eval(env, Ref(a), r)
    decreases a, 2
  {
    hide TupleOf;
    if Ref(a) in r {
      RefInSchema(s, a);
      if IsCol(a) {
        // A schema holds `Ref(a)` for a column `a` only as itself.
        NotWrapped(s, a);
        assert false;
      }
      ReadColumn(env, a, s, r);
    } else {
      EvalAtAgrees(env, a, s, r);
    }
  }

  lemma {:induction false} NotWrapped(s: seq<Expr>, a: Expr)
    requires IsCol(a) && Ref(a) !in s
    ensures Ref(a) !in OutCols(s)
  {
    if Ref(a) in OutCols(s) {
      OutColsAreCols(s, Ref(a));
    }
  }

  lemma {:induction false} ReadColumn(env: Env, a: Expr, s: seq<Expr>, r: Named)
    requires RowFor(env, s, r) && a in s && !IsCol(a) && Ref(a) in r
    ensures EvalAt(env, a, s, TupleOf(s, r)) == r[Ref(a)]
  {
    InOutCols(s, a);
  }

  lemma {:induction false} EvalRootAgrees(env: Env, e: Expr, s: seq<Expr>, r: Named)
    requires RowFor(env, s, r) && Available(e, r.Keys) && !IsCol(e)
    ensures EvalRoot(env, e, s, TupleOf(s, r)) == Eval(env, e, r)
    decreases e, 0
  {
    hide RowFor, TupleOf;
    match e {
      case Unary(_, a) => EvalAtAgrees(env, a, s, r);
      case Binary(_, a, b) => EvalAtAgrees(env, a, s, r); EvalAtAgrees(env, b, s, r);
      case And(a, b) => EvalAtAgrees(env, a, s, r); EvalAtAgrees(env, b, s, r);
      case Const(_) =>
    }
  }

  ghost predicate RowsFor(env: Env, s: seq<Expr>, rows: multiset<Named>) {
    forall r :: r in rows ==> RowFor(env, s, r)
  }

  lemma {:induction false} ListAgrees(env: Env, es: seq<Expr>, s: seq<Expr>, r: Named)
    requires RowFor(env, s, r) && AllAvailable(es, r.Keys)
    ensures ListAt(env, es, s, TupleOf(s, r)) == KeyValues(env, es, r) == TupleOf(es, ProjRow(env, es, r))
  {
    var row := ProjRow(env, es, r);
    ProjRowKeys(env, es, r);
    forall i | 0 <= i < |es|
      ensures EvalAt(env, es[i], s, TupleOf(s, r)) == Eval(env, es[i], r) == TupleOf(es, row)[i]
    {
      EvalAtAgrees(env, es[i], s, r);
      InOutCols(es, es[i]);
      ProjValue(env, es, r, OutCol(es[i]));
      if !IsCol(es[i]) {
        RefIsValue(env, es[i], r);
      }
    }
  }

  /** Summing over tuples is summing over the rows they stand for. */
  lemma {:induction false} OverTuples<B>(s: seq<Expr>, rows: multiset<Named>, f: Named -> multiset<B>,
                                         g: Row -> multiset<B>)
    requires forall r :: r in rows ==> f(r) == g(TupleOf(s, r))
    ensures Bind(Bind(rows, TupleF(s)), g) == Bind(rows, f)
  {
    hide TupleOf;
    forall r | r in rows ensures f(r) == Bind(TupleF(s)(r), g) {
      BindOne(TupleOf(s, r), g);
    }
    BindBind(rows, TupleF(s), g, f);
  }

  lemma {:induction false} TupleMember(s: seq<Expr>, rows: multiset<Named>, t: Row)
    ensures t in Bind(rows, TupleF(s)) <==> exists r :: r in rows && t == TupleOf(s, r)
  {
    hide TupleOf;
    BindMember(rows, TupleF(s), t);
    forall r | r in rows ensures t in TupleF(s)(r) <==> t == TupleOf(s, r) {}
  }

  lemma {:induction false} ScanAgrees(env: Env, t: nat, cols: seq<Expr>)
    requires TableColumns(cols)
    ensures ExecRows(env, Scan(t, cols)) == Bind(Rows(env, Scan(t, cols)), TupleF(cols))
  {
    forall r ensures StoredF(cols)(r) == Bind(ProjF(env, cols)(r), TupleF(cols)) {
      BindOne(ProjRow(env, cols, r), TupleF(cols));
      StoredTuple(env, cols, r);
    }
    BindBind(env.tables(t), ProjF(env, cols), TupleF(cols), StoredF(cols));
  }

  lemma {:induction false} StoredValue(env: Env, cols: seq<Expr>, r: Named, c: Expr)
    requires TableColumns(cols) && c in cols
    ensures c in ProjRow(env, cols, r) && ProjRow(env, cols, r)[c] == Eval(env, c, r)
    decreases |cols|
  {
    if cols[0] != c {
      StoredValue(env, cols[1..], r, c);
    }
  }

  lemma {:induction false} StoredTuple(env: Env, cols: seq<Expr>, r: Named)
    requires TableColumns(cols)
    ensures TupleOf(cols, ProjRow(env, cols, r)) == Stored(cols, r)
  {
    forall i | 0 <= i < |cols| ensures TupleOf(cols, ProjRow(env, cols, r))[i] == Stored(cols, r)[i] {
      StoredValue(env, cols, r, cols[i]);
    }
  }

  lemma {:induction false} FilterAgrees(env: Env, cond: Expr, s: seq<Expr>, rows: multiset<Named>)
    requires RowsFor(env, s, rows) && !IsCol(cond) && Available(cond, OutCols(s))
    ensures Keep(Bind(rows, TupleF(s)), HoldsAtF(env, cond, s)) == Bind(Keep(rows, HoldsF(env, cond)), TupleF(s))
  {
    hide TupleOf;
    forall r, t | r in rows && t in TupleF(s)(r) ensures HoldsAtF(env, cond, s)(t) == HoldsF(env, cond)(r) {
      EvalRootAgrees(env, cond, s, r);
    }
    FilterCommutes(rows, TupleF(s), HoldsAtF(env, cond, s), HoldsF(env, cond));
  }

  lemma {:induction false} ProjAgrees(env: Env, es: seq<Expr>, s: seq<Expr>, rows: multiset<Named>)
    requires RowsFor(env, s, rows) && AllAvailable(es, OutCols(s))
    ensures Bind(Bind(rows, TupleF(s)), ListAtF(env, es, s)) == Bind(Bind(rows, ProjF(env, es)), TupleF(es))
  {
    hide TupleOf, ListAt, ProjRow, AllAvailable;
    var h := (r: Named) => multiset{TupleOf(es, ProjRow(env, es, r))};
    forall r | r in rows ensures h(r) == ListAtF(env, es, s)(TupleOf(s, r)) {
      ListAgrees(env, es, s, r);
    }
    OverTuples(s, rows, h, ListAtF(env, es, s));
    forall r | r in rows ensures h(r) == Bind(ProjF(env, es)(r), TupleF(es)) {
      BindOne(ProjRow(env, es, r), TupleF(es));
    }
    BindBind(rows, ProjF(env, es), TupleF(es), h);
  }

  // ---- joins ----

  /** Both inputs of a join, as rows and as schemas. */
  ghost predicate Inputs(env: Env, sl: seq<Expr>, sr: seq<Expr>, ls: multiset<Named>, rs: multiset<Named>) {
    && OutCols(sl) !! OutCols(sr)
    && (forall a :: a in ls ==> a.Keys == OutCols(sl))
    && (forall b :: b in rs ==> b.Keys == OutCols(sr))
    && (forall a, b :: a in ls && b in rs ==> Consistent(env, a + b))
  }

  lemma {:induction false} PairTuple(sl: seq<Expr>, sr: seq<Expr>, a: Named, b: Named)
    requires a.Keys == OutCols(sl) && b.Keys == OutCols(sr) && OutCols(sl) !! OutCols(sr)
    ensures TupleOf(sl, a) + TupleOf(sr, b) == TupleOf(sl + sr, a + b)
  {
    var t, u := TupleOf(sl, a) + TupleOf(sr, b), TupleOf(sl + sr, a + b);
    forall i | 0 <= i < |sl| + |sr| ensures t[i] == u[i] {
      if i < |sl| {
        InOutCols(sl, sl[i]);
      } else {
        InOutCols(sr, sr[i - |sl|]);
      }
    }
  }

  lemma {:induction false} NullTuple(s: seq<Expr>)
    ensures TupleOf(s, Nulls(OutCols(s))) == NullRow(|s|)
  {
    forall i | 0 <= i < |s| ensures TupleOf(s, Nulls(OutCols(s)))[i] == Null {
      InOutCols(s, s[i]);
    }
  }

  lemma {:induction false} PairHolds(env: Env, on: Expr, sl: seq<Expr>, sr: seq<Expr>, ls: multiset<Named>,
                                     rs: multiset<Named>, a: Named, b: Named)
    requires Inputs(env, sl, sr, ls, rs) && a in ls && b in rs
    requires !IsCol(on) && Available(on, OutCols(sl) + OutCols(sr))
    ensures HoldsAt(env, on, sl + sr, TupleOf(sl, a) + TupleOf(sr, b)) == Holds(env, on, a + b)
  {
    hide TupleOf, Consistent;
    PairTuple(sl, sr, a, b);
    OutColsConcat(sl, sr);
    MergeKeys(a, b);
    EvalRootAgrees(env, on, sl + sr, a + b);
  }

  lemma {:induction false} MatchAgrees(env: Env, on: Expr, sl: seq<Expr>, sr: seq<Expr>, ls: multiset<Named>,
                                       rs: multiset<Named>, a: Named)
    requires Inputs(env, sl, sr, ls, rs) && a in ls && !IsCol(on) && Available(on, OutCols(sl) + OutCols(sr))
    ensures MatchAt(env, on, sl + sr, TupleOf(sl, a), Bind(rs, TupleF(sr))) == HasMatch(env, on, a, rs)
  {
    hide TupleOf, HoldsAt, Holds, Inputs, Bind;
    var s, ta, ts := sl + sr, TupleOf(sl, a), Bind(rs, TupleF(sr));
    forall b | b in rs
      ensures TupleOf(sr, b) in ts && HoldsAt(env, on, s, ta + TupleOf(sr, b)) == Holds(env, on, a + b)
    {
      TupleMember(sr, rs, TupleOf(sr, b));
      PairHolds(env, on, sl, sr, ls, rs, a, b);
    }
    if t :| t in ts && HoldsAt(env, on, s, ta + t) {
      TupleMember(sr, rs, t);
    }
  }

  lemma {:induction false} LeftMatchAgrees(env: Env, on: Expr, sl: seq<Expr>, sr: seq<Expr>, ls: multiset<Named>,
                                           rs: multiset<Named>, b: Named)
    requires Inputs(env, sl, sr, ls, rs) && b in rs && !IsCol(on) && Available(on, OutCols(sl) + OutCols(sr))
    ensures LeftMatchAt(env, on, sl + sr, TupleOf(sr, b), Bind(ls, TupleF(sl))) == HasLeftMatch(env, on, b, ls)
  {
    hide TupleOf, HoldsAt, Holds, Inputs, Bind;
    var s, tb, ts := sl + sr, TupleOf(sr, b), Bind(ls, TupleF(sl));
    forall a | a in ls
      ensures TupleOf(sl, a) in ts && HoldsAt(env, on, s, TupleOf(sl, a) + tb) == Holds(env, on, a + b)
    {
      TupleMember(sl, ls, TupleOf(sl, a));
      PairHolds(env, on, sl, sr, ls, rs, a, b);
    }
    if t :| t in ts && HoldsAt(env, on, s, t + tb) {
      TupleMember(sl, ls, t);
    }
  }

  lemma {:induction false} PairsAgree(env: Env, on: Expr, sl: seq<Expr>, sr: seq<Expr>, ls: multiset<Named>,
                                      rs: multiset<Named>, a: Named)
    requires Inputs(env, sl, sr, ls, rs) && a in ls && !IsCol(on) && Available(on, OutCols(sl) + OutCols(sr))
    ensures Bind(Bind(rs, TupleF(sr)), PairAtF(env, on, sl + sr, TupleOf(sl, a))) ==
            Bind(Matches(env, on, a, rs), TupleF(sl + sr))
  {
    hide TupleOf, HoldsAt, Holds, Bind;
    var s, g := sl + sr, PairAtF(env, on, sl + sr, TupleOf(sl, a));
    var h := (b: Named) => if Holds(env, on, a + b) then multiset{TupleOf(s, a + b)} else multiset{};
    forall b | b in rs ensures h(b) == g(TupleOf(sr, b)) {
      PairHolds(env, on, sl, sr, ls, rs, a, b);
      PairTuple(sl, sr, a, b);
    }
    OverTuples(sr, rs, h, g);
    forall b | b in rs ensures h(b) == Bind(PairF(env, on, a)(b), TupleF(s)) {
      PairThen(env, on, a, b, TupleF(s));
    }
    BindBind(rs, PairF(env, on, a), TupleF(s), h);
  }

  /** The schema of a join of two schemas. */
  function JoinSchema(ty: JoinType, sl: seq<Expr>, sr: seq<Expr>): seq<Expr> {
    if ty.Semi? || ty.Anti? then sl else sl + sr
  }

  lemma {:induction false} AloneAgrees(ty: JoinType, sl: seq<Expr>, sr: seq<Expr>, a: Named)
    requires a.Keys == OutCols(sl) && OutCols(sl) !! OutCols(sr)
    ensures AloneAt(ty, TupleOf(sl, a), |sr|) == Bind(Alone(ty, a, OutCols(sr)), TupleF(JoinSchema(ty, sl, sr)))
  {
    hide TupleOf, Nulls, NullRow;
    var s, rc := JoinSchema(ty, sl, sr), OutCols(sr);
    NullTuple(sr);
    NullKeys(rc);
    BindOne(a + Nulls(rc), TupleF(s));
    BindOne(a, TupleF(s));
    BindEmpty(TupleF(s));
    if PadsRight(ty) {
      PairTuple(sl, sr, a, Nulls(rc));
    }
  }

  lemma {:induction false} MatchedAgrees(env: Env, ty: JoinType, on: Expr, sl: seq<Expr>, sr: seq<Expr>,
                                         ls: multiset<Named>, rs: multiset<Named>, a: Named)
    requires Inputs(env, sl, sr, ls, rs) && a in ls && !IsCol(on) && Available(on, OutCols(sl) + OutCols(sr))
    ensures MatchedAt(env, ty, on, sl + sr, TupleOf(sl, a), Bind(rs, TupleF(sr))) ==
            Bind(Matched(env, ty, on, a, rs), TupleF(JoinSchema(ty, sl, sr)))
  {
    hide TupleOf, Inputs, Available, PairAtF, Matches;
    var s := JoinSchema(ty, sl, sr);
    BindOne(a, TupleF(s));
    BindEmpty(TupleF(s));
    if !ty.Semi? && !ty.Anti? {
      PairsAgree(env, on, sl, sr, ls, rs, a);
    }
  }

  lemma {:induction false} FromLeftAgrees(env: Env, ty: JoinType, on: Expr, sl: seq<Expr>, sr: seq<Expr>,
                                          ls: multiset<Named>, rs: multiset<Named>, a: Named)
    requires Inputs(env, sl, sr, ls, rs) && a in ls && !IsCol(on) && Available(on, OutCols(sl) + OutCols(sr))
    ensures LeftAtF(env, ty, on, sl + sr, Bind(rs, TupleF(sr)), |sr|)(TupleOf(sl, a)) ==
            Bind(FromLeft(env, ty, on, a, rs, OutCols(sr)), TupleF(JoinSchema(ty, sl, sr)))
  {
    hide TupleOf, MatchAt, HasMatch, MatchedAt, AloneAt, Matched, Alone, Available, Consistent, JoinSchema;
    MatchAgrees(env, on, sl, sr, ls, rs, a);
    MatchedAgrees(env, ty, on, sl, sr, ls, rs, a);
    AloneAgrees(ty, sl, sr, a);
  }

  lemma {:induction false} FromRightAgrees(env: Env, ty: JoinType, on: Expr, sl: seq<Expr>, sr: seq<Expr>,
                                           ls: multiset<Named>, rs: multiset<Named>, b: Named)
    requires Inputs(env, sl, sr, ls, rs) && b in rs && !IsCol(on) && Available(on, OutCols(sl) + OutCols(sr))
    ensures RightAtF(env, ty, on, sl + sr, Bind(ls, TupleF(sl)), |sl|)(TupleOf(sr, b)) ==
            Bind(FromRight(env, ty, on, b, ls, OutCols(sl)), TupleF(JoinSchema(ty, sl, sr)))
  {
    hide TupleOf, LeftMatchAt, HasLeftMatch, Nulls, NullRow, Available, Consistent;
    var s, lc := JoinSchema(ty, sl, sr), OutCols(sl);
    LeftMatchAgrees(env, on, sl, sr, ls, rs, b);
    NullTuple(sl);
    NullKeys(lc);
    BindOne(Nulls(lc) + b, TupleF(s));
    BindEmpty(TupleF(s));
    PairTuple(sl, sr, Nulls(lc), b);
  }

  lemma {:induction false} SumAgrees(s: seq<Expr>, sj: seq<Expr>, rows: multiset<Named>, f: Named -> multiset<Named>,
                                     g: Row -> multiset<Row>)
    requires forall r :: r in rows ==> g(TupleOf(s, r)) == Bind(f(r), TupleF(sj))
    ensures Bind(Bind(rows, TupleF(s)), g) == Bind(Bind(rows, f), TupleF(sj))
  {
    hide TupleOf;
    var h := (r: Named) => Bind(f(r), TupleF(sj));
    OverTuples(s, rows, h, g);
    BindBind(rows, f, TupleF(sj), h);
  }

  lemma {:induction false} JoinAgrees(env: Env, ty: JoinType, on: Expr, sl: seq<Expr>, sr: seq<Expr>,
                                      ls: multiset<Named>, rs: multiset<Named>)
    requires Inputs(env, sl, sr, ls, rs) && !IsCol(on) && Available(on, OutCols(sl) + OutCols(sr))
    ensures JoinAt(env, ty, on, sl, sr, Bind(ls, TupleF(sl)), Bind(rs, TupleF(sr))) ==
            Bind(JoinRows(env, ty, on, ls, rs, OutCols(sl), OutCols(sr)), TupleF(JoinSchema(ty, sl, sr)))
  {
    hide TupleOf, FromLeft, FromRight, Inputs, Available, LeftAtF, RightAtF, TupleF, JoinSchema;
    var s, sj, lc, rc := sl + sr, JoinSchema(ty, sl, sr), OutCols(sl), OutCols(sr);
    var f, f' := LeftF(env, ty, on, rs, rc), LeftAtF(env, ty, on, s, Bind(rs, TupleF(sr)), |sr|);
    var g, g' := RightF(env, ty, on, ls, lc), RightAtF(env, ty, on, s, Bind(ls, TupleF(sl)), |sl|);
    forall a | a in ls ensures f'(TupleOf(sl, a)) == Bind(f(a), TupleF(sj)) {
      FromLeftAgrees(env, ty, on, sl, sr, ls, rs, a);
    }
    SumAgrees(sl, sj, ls, f, f');
    forall b | b in rs ensures g'(TupleOf(sr, b)) == Bind(g(b), TupleF(sj)) {
      FromRightAgrees(env, ty, on, sl, sr, ls, rs, b);
    }
    SumAgrees(sr, sj, rs, g, g');
    BindUnion(Bind(ls, f), Bind(rs, g), TupleF(sj));
  }

  // ---- aggregation ----

  lemma {:induction false} KeysAgree(env: Env, ks: seq<Expr>, s: seq<Expr>, rows: multiset<Named>)
    requires RowsFor(env, s, rows) && AllAvailable(ks, OutCols(s))
    ensures KeysAt(env, ks, s, Bind(rows, TupleF(s))) == GroupKeys(env, ks, rows)
  {
    hide TupleOf, ListAt, AllAvailable, Bind, KeyValues;
    var ts := Bind(rows, TupleF(s));
    forall r | r in rows ensures TupleOf(s, r) in ts && ListAt(env, ks, s, TupleOf(s, r)) == KeyValues(env, ks, r) {
      TupleMember(s, rows, TupleOf(s, r));
      ListAgrees(env, ks, s, r);
    }
    forall k | k in KeysAt(env, ks, s, ts) ensures k in GroupKeys(env, ks, rows) {
      var t :| t in ts && ListAt(env, ks, s, t) == k;
      TupleMember(s, rows, t);
    }
    forall k | k in GroupKeys(env, ks, rows) ensures k in KeysAt(env, ks, s, ts) {
      var r :| r in rows && KeyValues(env, ks, r) == k;
      assert TupleOf(s, r) in ts;
    }
  }

  lemma {:induction false} GroupAgrees(env: Env, ks: seq<Expr>, s: seq<Expr>, rows: multiset<Named>, k: Row)
    requires RowsFor(env, s, rows) && AllAvailable(ks, OutCols(s))
    ensures Keep(Bind(rows, TupleF(s)), InGroupAtF(env, ks, s, k)) == Bind(Group(env, ks, rows, k), TupleF(s))
  {
    hide TupleOf, ListAt, AllAvailable, Bind, KeyValues;
    forall r, t | r in rows && t in TupleF(s)(r) ensures InGroupAtF(env, ks, s, k)(t) == InGroupF(env, ks, k)(r) {
      ListAgrees(env, ks, s, r);
    }
    FilterCommutes(rows, TupleF(s), InGroupAtF(env, ks, s, k), InGroupF(env, ks, k));
  }

  lemma {:induction false} AggAgrees(env: Env, g: Expr, s: seq<Expr>, group: multiset<Named>)
    requires RowsFor(env, s, group) && g.Agg? && Available(g.arg, OutCols(s))
    ensures AggAt(env, g, s, Bind(group, TupleF(s))) == AggValue(env, g, group)
  {
    hide TupleOf, Bind;
    forall r | r in group ensures EvalF(env, g)(r) == ArgAtF(env, g, s)(TupleOf(s, r)) {
      EvalAtAgrees(env, g.arg, s, r);
    }
    OverTuples(s, group, EvalF(env, g), ArgAtF(env, g, s));
  }

  lemma {:induction false} AggRowValue(env: Env, gs: seq<Expr>, group: multiset<Named>, g: Expr)
    requires (forall i :: 0 <= i < |gs| ==> gs[i].Agg?) && g in gs
    ensures Ref(g) in AggRow(env, gs, group) && AggRow(env, gs, group)[Ref(g)] == AggValue(env, g, group)
    decreases |gs|
  {
    hide AggValue;
    if gs[0] != g {
      AggRowValue(env, gs[1..], group, g);
    }
  }

  lemma {:induction false} KeyTuple(env: Env, ks: seq<Expr>, s: seq<Expr>, r: Named, aggs: Named)
    requires RowFor(env, s, r) && AllAvailable(ks, r.Keys)
    ensures TupleOf(ks, aggs + KeyRow(ks, KeyValues(env, ks, r))) == KeyValues(env, ks, r)
  {
    var row := ProjRow(env, ks, r);
    KeyRowIsProj(env, ks, r);
    ListAgrees(env, ks, s, r);
    ProjRowKeys(env, ks, r);
    forall i | 0 <= i < |ks| ensures TupleOf(ks, aggs + row)[i] == TupleOf(ks, row)[i] {
      InOutCols(ks, ks[i]);
    }
  }

  lemma {:induction false} AggTuple(env: Env, gs: seq<Expr>, s: seq<Expr>, group: multiset<Named>, keys: Named)
    requires RowsFor(env, s, group) && AggsAvailable(gs, OutCols(s)) && keys.Keys !! OutCols(gs)
    ensures TupleOf(gs, AggRow(env, gs, group) + keys) == AggsAt(env, gs, s, Bind(group, TupleF(s)))
  {
    hide RowsFor, AggValue, AggAt, Bind;
    var row := AggRow(env, gs, group);
    AggRowKeys(env, gs, group);
    forall i | 0 <= i < |gs|
      ensures TupleOf(gs, row + keys)[i] == AggsAt(env, gs, s, Bind(group, TupleF(s)))[i]
    {
      InOutCols(gs, gs[i]);
      AggRowValue(env, gs, group, gs[i]);
      AggAgrees(env, gs[i], s, group);
    }
  }

  lemma {:induction false} TupleConcat(a: seq<Expr>, b: seq<Expr>, r: Named)
    ensures TupleOf(a + b, r) == TupleOf(a, r) + TupleOf(b, r)
  {}

  lemma {:induction false} GroupRowAgrees(env: Env, ks: seq<Expr>, gs: seq<Expr>, s: seq<Expr>,
                                          rows: multiset<Named>, r: Named)
    requires RowsFor(env, s, rows) && r in rows && AllAvailable(ks, OutCols(s)) && AggsAvailable(gs, OutCols(s))
    requires OutCols(ks) !! OutCols(gs)
    ensures var k := KeyValues(env, ks, r);
            GroupAtF(env, ks, gs, s, Bind(rows, TupleF(s)))(k) ==
            Bind(GroupF(env, ks, gs, rows)(k), TupleF(ks + gs))
  {
    hide TupleOf, Bind, AggRow, KeyRow, AggsAt, Consistent, AllAvailable, AggsAvailable, KeyValues;
    var k, group := KeyValues(env, ks, r), Group(env, ks, rows, KeyValues(env, ks, r));
    KeyCount(env, ks, r);
    var aggs, keys := AggRow(env, gs, group), KeyRow(ks, k);
    forall x | x in group ensures x in rows {
      KeepMember(rows, InGroupF(env, ks, k), x);
    }
    GroupAgrees(env, ks, s, rows, k);
    KeyRowKeys(ks, k);
    KeyTuple(env, ks, s, r, aggs);
    AggTuple(env, gs, s, group, keys);
    TupleConcat(ks, gs, aggs + keys);
    BindOne(aggs + keys, TupleF(ks + gs));
  }

  lemma {:induction false} KeyCount(env: Env, ks: seq<Expr>, r: Named)
    ensures |KeyValues(env, ks, r)| == |ks|
  {}

  lemma {:induction false} HashAggAgrees(env: Env, ks: seq<Expr>, gs: seq<Expr>, s: seq<Expr>, rows: multiset<Named>)
    requires RowsFor(env, s, rows) && AllAvailable(ks, OutCols(s)) && AggsAvailable(gs, OutCols(s))
    requires OutCols(ks) !! OutCols(gs)
    ensures var ts := Bind(rows, TupleF(s));
            Bind(multiset(KeysAt(env, ks, s, ts)), GroupAtF(env, ks, gs, s, ts)) ==
            Bind(Bind(multiset(GroupKeys(env, ks, rows)), GroupF(env, ks, gs, rows)), TupleF(ks + gs))
  {
    hide Bind, RowsFor, AllAvailable, AggsAvailable, GroupAtF, GroupF, KeysAt, KeyValues;
    var ts := Bind(rows, TupleF(s));
    var keys, f, g := GroupKeys(env, ks, rows), GroupF(env, ks, gs, rows), GroupAtF(env, ks, gs, s, ts);
    KeysAgree(env, ks, s, rows);
    forall k | k in multiset(keys) ensures g(k) == Bind(f(k), TupleF(ks + gs)) {
      var r :| r in rows && KeyValues(env, ks, r) == k;
      GroupRowAgrees(env, ks, gs, s, rows, r);
    }
    BindBind(multiset(keys), f, TupleF(ks + gs), g);
  }

  // ---- whole plans ----

  lemma {:induction false} PlanRowsFor(env: Env, p: Plan)
    requires Fits(p) && Unambiguous(p)
    ensures RowsFor(env, Schema(p), Rows(env, p))
  {
    hide Rows, Consistent;
    RowsConsistent(env, p);
    RowsTyped(env, p);
    ProducedIsSchema(p);
  }

  lemma {:induction false} PlanInputs(env: Env, l: Plan, r: Plan)
    requires Fits(l) && Fits(r) && Unambiguous(l) && Unambiguous(r)
    requires Produced(l) !! Produced(r) && Base(l) !! Base(r)
    ensures Inputs(env, Schema(l), Schema(r), Rows(env, l), Rows(env, r))
  {
    hide Rows, Consistent;
    var ls, rs := Rows(env, l), Rows(env, r);
    PlanRowsFor(env, l);
    PlanRowsFor(env, r);
    ProducedIsSchema(l);
    ProducedIsSchema(r);
    RowsConsistent(env, l);
    RowsConsistent(env, r);
    JoinableRows(env, l, r);
    forall a, b | a in ls && b in rs ensures Consistent(env, a + b) {
      PairConsistent(env, ls, rs, Produced(l), Produced(r), Base(l), Base(r), a, b);
    }
  }

  lemma {:induction false} KeysApart(ks: seq<Expr>, gs: seq<Expr>, c: Plan)
    requires Fits(c) && AllAvailable(ks, Produced(c)) && AggsAvailable(gs, Produced(c)) && SetOf(gs) !! Base(c)
    ensures OutCols(ks) !! OutCols(gs)
  {
    ProducedWithin(c);
    OutWithin(ks, Produced(c), Base(c));
    forall x | x in OutCols(gs) ensures x !in OutCols(ks) {
      OutColsAreCols(gs, x);
      var i :| 0 <= i < |gs| && OutCol(gs[i]) == x;
      assert gs[i] in Atoms(x) && gs[i] in SetOf(gs);
    }
  }

  lemma {:induction false} ExecJoin(env: Env, ty: JoinType, on: Expr, l: Plan, r: Plan)
    requires Fits(Join(ty, on, l, r)) && Unambiguous(Join(ty, on, l, r))
    requires ExecRows(env, l) == Bind(Rows(env, l), TupleF(Schema(l)))
    requires ExecRows(env, r) == Bind(Rows(env, r), TupleF(Schema(r)))
    ensures var p := Join(ty, on, l, r); ExecRows(env, p) == Bind(Rows(env, p), TupleF(Schema(p)))
  {
    hide Bind, Available, Inputs, SafeToPad, JoinAt, JoinRows;
    ProducedIsSchema(l);
    ProducedIsSchema(r);
    PlanInputs(env, l, r);
    JoinAgrees(env, ty, on, Schema(l), Schema(r), Rows(env, l), Rows(env, r));
  }

  /** The executor returns the rows the plan means, as tuples of its schema, for every unambiguous plan whose
      expressions can be computed. */
  lemma {:induction false} ExecIsRows(env: Env, p: Plan)
    requires Fits(p) && Unambiguous(p)
    ensures ExecRows(env, p) == Bind(Rows(env, p), TupleF(Schema(p)))
    decreases p
  {
    hide Bind, Available, RowsFor, TupleF, JoinAt, JoinRows, KeysAt, GroupKeys, GroupAtF, GroupF, SafeToPad;
    match p {
      case Scan(t, cols) => ScanAgrees(env, t, cols);
      case Empty(c) => BindEmpty(TupleF(Schema(c)));
      case Filter(cond, c) =>
        ExecIsRows(env, c);
        PlanRowsFor(env, c);
        ProducedIsSchema(c);
        FilterAgrees(env, cond, Schema(c), Rows(env, c));
      case Order(_, c) => ExecIsRows(env, c);
      case Proj(es, c) =>
        ExecIsRows(env, c);
        PlanRowsFor(env, c);
        ProducedIsSchema(c);
        ProjAgrees(env, es, Schema(c), Rows(env, c));
      case Join(ty, on, l, r) =>
        ExecIsRows(env, l);
        ExecIsRows(env, r);
        ExecJoin(env, ty, on, l, r);
      case HashAgg(ks, gs, c) =>
        ExecIsRows(env, c);
        PlanRowsFor(env, c);
        ProducedIsSchema(c);
        KeysApart(ks, gs, c);
        HashAggAgrees(env, ks, gs, Schema(c), Rows(env, c));
    }
  }

  // ---- tuples tell rows apart ----

  lemma {:induction false} TupleInjective(s: seq<Expr>, r: Named, r': Named)
    requires r.Keys == r'.Keys == OutCols(s) && TupleOf(s, r) == TupleOf(s, r')
    ensures r == r'
  {
    forall c | c in r ensures r[c] == r'[c] {
      OutColsAreCols(s, c);
      var i :| 0 <= i < |s| && OutCol(s[i]) == c;
      assert TupleOf(s, r)[i] == TupleOf(s, r')[i];
    }
  }

  lemma {:induction false} TupleCount(s: seq<Expr>, rows: multiset<Named>, r: Named)
    requires Typed(rows, OutCols(s)) && r.Keys == OutCols(s)
    ensures Bind(rows, TupleF(s))[TupleOf(s, r)] == rows[r]
  {
    hide Bind;
    forall x | x in rows && x != r ensures TupleOf(s, r) !in TupleF(s)(x) {
      if TupleOf(s, r) == TupleOf(s, x) {
        TupleInjective(s, r, x);
      }
    }
    BindCount(rows, TupleF(s), r, TupleOf(s, r));
  }

  lemma {:induction false} SameTuplesIff(s: seq<Expr>, a: multiset<Named>, b: multiset<Named>)
    requires Typed(a, OutCols(s)) && Typed(b, OutCols(s))
    ensures Bind(a, TupleF(s)) == Bind(b, TupleF(s)) <==> a == b
  {
    hide Bind, TupleOf;
    if Bind(a, TupleF(s)) == Bind(b, TupleF(s)) {
      forall r: Named ensures a[r] == b[r] {
        if r in a || r in b {
          TupleCount(s, a, r);
          TupleCount(s, b, r);
        }
      }
    }
  }

  /** Two unambiguous plans of one schema return the same tuples if and only if they mean the same rows. */
  lemma {:induction false} SameExecIff(env: Env, p: Plan, q: Plan)
    requires Fits(p) && Unambiguous(p) && Fits(q) && Unambiguous(q) && Schema(p) == Schema(q)
    ensures ExecRows(env, p) == ExecRows(env, q) <==> Rows(env, p) == Rows(env, q)
  {
    hide Bind, Rows, ExecRows, Fits, Unambiguous;
    ExecIsRows(env, p);
    ExecIsRows(env, q);
    RowsTyped(env, p);
    RowsTyped(env, q);
    ProducedIsSchema(p);
    ProducedIsSchema(q);
    SameTuplesIff(Schema(p), Rows(env, p), Rows(env, q));
  }

  // ---- no panic ----

  lemma {:induction false} AvailableResolves(e: Expr, s: seq<Expr>)
    requires Available(e, OutCols(s))
    ensures ResolvesAt(e, s) && (!IsCol(e) ==> ResolvesRoot(e, s))
  {
    match e {
      case Column(_) => ColumnInSchema(s, e);
      case Ref(a) =>
        if e in OutCols(s) {
          RefInSchema(s, a);
        } else {
          AvailableResolves(a, s);
        }
      case Unary(_, a) => AvailableResolves(a, s);
      case Binary(_, a, b) => AvailableResolves(a, s); AvailableResolves(b, s);
      case And(a, b) => AvailableResolves(a, s); AvailableResolves(b, s);
      case _ =>
    }
  }

  lemma {:induction false} AllAvailableResolve(es: seq<Expr>, s: seq<Expr>)
    requires AllAvailable(es, OutCols(s))
    ensures AllResolve(es, s)
  {
    forall i | 0 <= i < |es| ensures ResolvesAt(es[i], s) {
      AvailableResolves(es[i], s);
    }
  }

  lemma {:induction false} AggsAvailableResolve(gs: seq<Expr>, c: Plan)
    requires Fits(c) && AggsAvailable(gs, Produced(c)) && SetOf(gs) !! Base(c)
    ensures AggsResolve(gs, Schema(c))
  {
    ProducedIsSchema(c);
    ProducedWithin(c);
    forall i | 0 <= i < |gs| ensures gs[i] !in Schema(c) && ResolvesAt(gs[i].arg, Schema(c)) {
      AvailableResolves(gs[i].arg, Schema(c));
      assert gs[i] in SetOf(gs) && gs[i] in Atoms(Ref(gs[i]));
      if gs[i] in Schema(c) {
        InOutCols(Schema(c), gs[i]);
      }
    }
  }

  lemma {:induction false} FitsResolves(p: Plan)
    requires Fits(p) && Unambiguous(p)
    ensures Resolves(p)
  {
    match p {
      case Scan(_, _) =>
      case Empty(_) =>
      case Filter(cond, c) =>
        FitsResolves(c);
        ProducedIsSchema(c);
        AvailableResolves(cond, Schema(c));
      case Order(ks, c) =>
        FitsResolves(c);
        ProducedIsSchema(c);
        AllAvailableResolve(ks, Schema(c));
      case Proj(es, c) =>
        FitsResolves(c);
        ProducedIsSchema(c);
        AllAvailableResolve(es, Schema(c));
      case Join(_, on, l, r) =>
        FitsResolves(l);
        FitsResolves(r);
        ProducedIsSchema(l);
        ProducedIsSchema(r);
        OutColsConcat(Schema(l), Schema(r));
        AvailableResolves(on, Schema(l) + Schema(r));
      case HashAgg(ks, gs, c) =>
        FitsResolves(c);
        ProducedIsSchema(c);
        AllAvailableResolve(ks, Schema(c));
        AggsAvailableResolve(gs, c);
    }
  }
}
