/** Query plans, the column analysis and what a plan computes. */
module Plans {
  import opened Common
  import opened Bags

  /** An expression.  `Column` and `Ref` are the columns: a table column, and a reference to an expression
      computed by a plan below.  Operators other than `And` are not interpreted. */
  datatype Expr =
    | Column(id: nat)
    | Ref(e: Expr)
    | Const(v: Value)
    | Unary(op: nat, a: Expr)
    | Binary(op: nat, a: Expr, b: Expr)
    | And(a: Expr, b: Expr)
    | Agg(kind: nat, arg: Expr)

  const TRUE := Const(Bool(true))
  const FALSE := Const(Bool(false))

  predicate IsCol(e: Expr) {
    e.Column? || e.Ref?
  }

  /** The column a plan produces for an expression it computes. */
  function OutCol(e: Expr): Expr {
    if IsCol(e) then e else Ref(e)
  }

  /** The columns an expression uses. */
  function Columns(e: Expr): set<Expr> {
    match e
    case Column(_) => {e}
    case Ref(_) => {e}
    case Const(_) => {}
    case Unary(_, a) => Columns(a)
    case Binary(_, a, b) => Columns(a) + Columns(b)
    case And(a, b) => Columns(a) + Columns(b)
    case Agg(_, a) => Columns(a)
  }

  function ColumnsOf(es: seq<Expr>): set<Expr> {
    if es == [] then {} else Columns(es[0]) + ColumnsOf(es[1..])
  }

  function OutCols(es: seq<Expr>): set<Expr> {
    if es == [] then {} else {OutCol(es[0])} + OutCols(es[1..])
  }

  datatype JoinType = Inner | LeftOuter | RightOuter | FullOuter | Semi | Anti

  datatype Plan =
    | Scan(table: nat, columns: seq<Expr>)
    | Empty(child: Plan)
    | Filter(cond: Expr, child: Plan)
    | Order(keys: seq<Expr>, child: Plan)
    | Proj(exprs: seq<Expr>, child: Plan)
    | Join(ty: JoinType, on: Expr, left: Plan, right: Plan)
    | HashAgg(keys: seq<Expr>, aggs: seq<Expr>, child: Plan)

  function Produced(p: Plan): set<Expr> {
    match p
    case Scan(_, cols) => OutCols(cols)
    case Empty(c) => Produced(c)
    case Filter(_, c) => Produced(c)
    case Order(_, c) => Produced(c)
    case Proj(es, _) => OutCols(es)
    case Join(ty, _, l, r) => JoinCols(ty, Produced(l), Produced(r))
    case HashAgg(ks, gs, _) => OutCols(ks) + OutCols(gs)
  }

  /** No aggregate occurs outside a reference. */
  predicate Plain(e: Expr) {
    match e
    case Unary(_, a) => Plain(a)
    case Binary(_, a, b) => Plain(a) && Plain(b)
    case And(a, b) => Plain(a) && Plain(b)
    case Agg(_, _) => false
    case _ => true
  }

  predicate AllPlain(es: seq<Expr>) {
    forall i :: 0 <= i < |es| ==> Plain(es[i])
  }

  predicate Aggregates(gs: seq<Expr>) {
    forall i :: 0 <= i < |gs| ==> gs[i].Agg? && Plain(gs[i].arg)
  }

  predicate TableColumns(cols: seq<Expr>) {
    forall i :: 0 <= i < |cols| ==> cols[i].Column?
  }

  /** Of a condition the executor resolves the parts only, never the whole: it is not a column. */
  predicate IsCondition(cond: Expr) {
    !IsCol(cond) && Plain(cond)
  }

  /** Every column used, as the analysis sees it, is produced by the plan below, and the two sides of a join
      produce different columns. */
  predicate WellFormed(p: Plan) {
    match p
    case Scan(_, cols) => TableColumns(cols)
    case Empty(c) => WellFormed(c)
    case Filter(cond, c) => WellFormed(c) && IsCondition(cond) && Columns(cond) <= Produced(c)
    case Order(ks, c) => WellFormed(c) && AllPlain(ks) && ColumnsOf(ks) <= Produced(c)
    case Proj(es, c) => WellFormed(c) && AllPlain(es) && ColumnsOf(es) <= Produced(c)
    case Join(_, on, l, r) =>
      && WellFormed(l) && WellFormed(r) && IsCondition(on)
      && Produced(l) !! Produced(r) && Columns(on) <= Produced(l) + Produced(r)
    case HashAgg(ks, gs, c) =>
      && WellFormed(c) && AllPlain(ks) && Aggregates(gs)
      && ColumnsOf(ks) <= Produced(c) && ColumnsOf(gs) <= Produced(c)
  }

  // ---- evaluation ----

  type Named = map<Expr, Value>

  datatype Env = Env(
    tables: nat -> multiset<Named>,
    unary: (nat, Value) -> Value,
    binary: (nat, Value, Value) -> Value,
    agg: (nat, multiset<Value>) -> Value)

  function AndValue(x: Value, y: Value): Value {
    if x == Bool(false) || y == Bool(false) then Bool(false)
    else if x == Bool(true) && y == Bool(true) then Bool(true)
    else Null
  }

  /** The meaning of an expression on a row: columns are read, everything else is computed.  A reference whose
      column is not in the row is computed from the expression it refers to. */
  function Eval(env: Env, e: Expr, r: Named): Value {
    match e
    case Column(_) => if e in r then r[e] else Null
    case Ref(a) => if e in r then r[e] else Eval(env, a, r)
    case Const(v) => v
    case Unary(op, a) => env.unary(op, Eval(env, a, r))
    case Binary(op, a, b) => env.binary(op, Eval(env, a, r), Eval(env, b, r))
    case And(a, b) => AndValue(Eval(env, a, r), Eval(env, b, r))
    case Agg(_, a) => Eval(env, a, r)
  }

  predicate Holds(env: Env, e: Expr, r: Named) {
    Eval(env, e, r) == Bool(true)
  }

  function ProjRow(env: Env, es: seq<Expr>, r: Named): Named {
    if es == [] then map[] else ProjRow(env, es[1..], r)[OutCol(es[0]) := Eval(env, es[0], r)]
  }

  function Nulls(cols: set<Expr>): Named {
    map c | c in cols :: Null
  }

  ghost function HoldsF(env: Env, e: Expr): Named -> bool {
    r => Holds(env, e, r)
  }

  ghost function ProjF(env: Env, es: seq<Expr>): Named -> multiset<Named> {
    r => multiset{ProjRow(env, es, r)}
  }

  ghost function PairF(env: Env, on: Expr, a: Named): Named -> multiset<Named> {
    b => if Holds(env, on, a + b) then multiset{a + b} else multiset{}
  }

  ghost function Matches(env: Env, on: Expr, a: Named, rs: multiset<Named>): multiset<Named> {
    Bind(rs, PairF(env, on, a))
  }

  ghost predicate HasMatch(env: Env, on: Expr, a: Named, rs: multiset<Named>) {
    exists b :: b in rs && Holds(env, on, a + b)
  }

  ghost predicate HasLeftMatch(env: Env, on: Expr, b: Named, ls: multiset<Named>) {
    exists a :: a in ls && Holds(env, on, a + b)
  }

  /** What an unmatched left row contributes. */
  ghost function Alone(ty: JoinType, a: Named, rightCols: set<Expr>): multiset<Named> {
    if ty.LeftOuter? || ty.FullOuter? then multiset{a + Nulls(rightCols)}
    else if ty.Anti? then multiset{a}
    else multiset{}
  }

  /** What a matched left row contributes. */
  ghost function Matched(env: Env, ty: JoinType, on: Expr, a: Named, rs: multiset<Named>): multiset<Named> {
    if ty.Semi? then multiset{a} else if ty.Anti? then multiset{} else Matches(env, on, a, rs)
  }

  /** What a left row contributes. */
  ghost function FromLeft(env: Env, ty: JoinType, on: Expr, a: Named, rs: multiset<Named>,
                          rightCols: set<Expr>): multiset<Named> {
    if HasMatch(env, on, a, rs) then Matched(env, ty, on, a, rs) else Alone(ty, a, rightCols)
  }

  /** What an unmatched right row contributes. */
  ghost function AloneRight(ty: JoinType, b: Named, leftCols: set<Expr>): multiset<Named> {
    if ty.RightOuter? || ty.FullOuter? then multiset{Nulls(leftCols) + b} else multiset{}
  }

  ghost function FromRight(env: Env, ty: JoinType, on: Expr, b: Named, ls: multiset<Named>,
                           leftCols: set<Expr>): multiset<Named> {
    if HasLeftMatch(env, on, b, ls) then multiset{} else AloneRight(ty, b, leftCols)
  }

  ghost function LeftF(env: Env, ty: JoinType, on: Expr, rs: multiset<Named>,
                       rightCols: set<Expr>): Named -> multiset<Named> {
    a => FromLeft(env, ty, on, a, rs, rightCols)
  }

  ghost function RightF(env: Env, ty: JoinType, on: Expr, ls: multiset<Named>,
                        leftCols: set<Expr>): Named -> multiset<Named> {
    b => FromRight(env, ty, on, b, ls, leftCols)
  }

  ghost function JoinRows(env: Env, ty: JoinType, on: Expr, ls: multiset<Named>, rs: multiset<Named>,
                          leftCols: set<Expr>, rightCols: set<Expr>): multiset<Named> {
    Bind(ls, LeftF(env, ty, on, rs, rightCols)) + Bind(rs, RightF(env, ty, on, ls, leftCols))
  }

  function KeyValues(env: Env, ks: seq<Expr>, r: Named): seq<Value> {
    seq(|ks|, i requires 0 <= i < |ks| => Eval(env, ks[i], r))
  }

  ghost function GroupKeys(env: Env, ks: seq<Expr>, rows: multiset<Named>): set<seq<Value>> {
    set r | r in rows :: KeyValues(env, ks, r)
  }

  ghost function InGroupF(env: Env, ks: seq<Expr>, k: seq<Value>): Named -> bool {
    r => KeyValues(env, ks, r) == k
  }

  ghost function Group(env: Env, ks: seq<Expr>, rows: multiset<Named>, k: seq<Value>): multiset<Named> {
    Keep(rows, InGroupF(env, ks, k))
  }

  ghost function EvalF(env: Env, e: Expr): Named -> multiset<Value> {
    r => multiset{Eval(env, e, r)}
  }

  function KeyRow(ks: seq<Expr>, k: seq<Value>): Named
    requires |ks| == |k|
  {
    if ks == [] then map[] else KeyRow(ks[1..], k[1..])[OutCol(ks[0]) := k[0]]
  }

  ghost function AggValue(env: Env, g: Expr, rows: multiset<Named>): Value {
    env.agg(if g.Agg? then g.kind else 0, Bind(rows, EvalF(env, g)))
  }

  ghost function AggRow(env: Env, gs: seq<Expr>, rows: multiset<Named>): Named {
    if gs == [] then map[] else AggRow(env, gs[1..], rows)[OutCol(gs[0]) := AggValue(env, gs[0], rows)]
  }

  /** One row per group: the aggregates, then the keys. */
  ghost function GroupF(env: Env, ks: seq<Expr>, gs: seq<Expr>, rows: multiset<Named>): seq<Value> -> multiset<Named> {
    k => if |k| == |ks| then multiset{AggRow(env, gs, Group(env, ks, rows, k)) + KeyRow(ks, k)} else multiset{}
  }

  ghost function Rows(env: Env, p: Plan): multiset<Named> {
    match p
    case Scan(t, cols) => Bind(env.tables(t), ProjF(env, cols))
    case Empty(_) => multiset{}
    case Filter(cond, c) => Keep(Rows(env, c), HoldsF(env, cond))
    case Order(_, c) => Rows(env, c)
    case Proj(es, c) => Bind(Rows(env, c), ProjF(env, es))
    case Join(ty, on, l, r) => JoinRows(env, ty, on, Rows(env, l), Rows(env, r), Produced(l), Produced(r))
    case HashAgg(ks, gs, c) =>
      Bind(multiset(GroupKeys(env, ks, Rows(env, c))), GroupF(env, ks, gs, Rows(env, c)))
  }

  // ---- frame ----

  ghost predicate AgreeOn(cols: set<Expr>, r: Named, s: Named) {
    forall c :: c in cols ==> c in r && c in s && r[c] == s[c]
  }

  /** An expression's value depends only on its analysed columns. */
  lemma {:induction false} EvalFrame(env: Env, e: Expr, r: Named, s: Named)
    requires AgreeOn(Columns(e), r, s)
    ensures Eval(env, e, r) == Eval(env, e, s)
  {
    match e {
      case Unary(_, a) => EvalFrame(env, a, r, s);
      case Binary(_, a, b) => EvalFrame(env, a, r, s); EvalFrame(env, b, r, s);
      case And(a, b) => EvalFrame(env, a, r, s); EvalFrame(env, b, r, s);
      case Agg(_, a) => EvalFrame(env, a, r, s);
      case _ => assert IsCol(e) ==> e in Columns(e);
    }
  }

  lemma {:induction false} ProjRowFrame(env: Env, es: seq<Expr>, r: Named, s: Named)
    requires AgreeOn(ColumnsOf(es), r, s)
    ensures ProjRow(env, es, r) == ProjRow(env, es, s)
    decreases |es|
  {
    if es != [] {
      EvalFrame(env, es[0], r, s);
      ProjRowFrame(env, es[1..], r, s);
    }
  }

  lemma {:induction false} ProjRowKeys(env: Env, es: seq<Expr>, r: Named)
    ensures ProjRow(env, es, r).Keys == OutCols(es)
    decreases |es|
  {
    if es != [] {
      ProjRowKeys(env, es[1..], r);
    }
  }

  lemma {:induction false} OutColsAreCols(es: seq<Expr>, c: Expr)
    requires c in OutCols(es)
    ensures IsCol(c) && exists i :: 0 <= i < |es| && OutCol(es[i]) == c
    decreases |es|
  {
    if OutCol(es[0]) != c {
      OutColsAreCols(es[1..], c);
      var i :| 0 <= i < |es[1..]| && OutCol(es[1..][i]) == c;
      assert OutCol(es[i + 1]) == c;
    }
  }

  lemma {:induction false} KeyRowKeys(ks: seq<Expr>, k: seq<Value>)
    requires |ks| == |k|
    ensures KeyRow(ks, k).Keys == OutCols(ks)
    decreases |ks|
  {
    if ks != [] {
      KeyRowKeys(ks[1..], k[1..]);
    }
  }

  lemma {:induction false} AggRowKeys(env: Env, gs: seq<Expr>, rows: multiset<Named>)
    ensures AggRow(env, gs, rows).Keys == OutCols(gs)
    decreases |gs|
  {
    if gs != [] {
      AggRowKeys(env, gs[1..], rows);
    }
  }

  ghost predicate Typed(rows: multiset<Named>, cols: set<Expr>) {
    forall r :: r in rows ==> r.Keys == cols
  }

  lemma {:induction false} MergeKeys(a: Named, b: Named)
    ensures (a + b).Keys == a.Keys + b.Keys
  {}

  lemma {:induction false} NullKeys(cols: set<Expr>)
    ensures Nulls(cols).Keys == cols
  {}

  lemma {:induction false} ProjTyped(env: Env, es: seq<Expr>, rows: multiset<Named>)
    ensures Typed(Bind(rows, ProjF(env, es)), OutCols(es))
  {
    var out := Bind(rows, ProjF(env, es));
    forall r | r in out ensures r.Keys == OutCols(es) {
      BindMember(rows, ProjF(env, es), r);
      var x :| x in rows && r in ProjF(env, es)(x);
      ProjRowKeys(env, es, x);
    }
  }

  lemma {:induction false} AggKeyRowTyped(env: Env, ks: seq<Expr>, gs: seq<Expr>, group: multiset<Named>, k: seq<Value>)
    requires |k| == |ks|
    ensures (AggRow(env, gs, group) + KeyRow(ks, k)).Keys == OutCols(ks) + OutCols(gs)
  {
    KeyRowKeys(ks, k);
    AggRowKeys(env, gs, group);
    MergeKeys(AggRow(env, gs, group), KeyRow(ks, k));
  }

  lemma {:induction false} AggTyped(env: Env, ks: seq<Expr>, gs: seq<Expr>, rows: multiset<Named>)
    ensures Typed(Bind(multiset(GroupKeys(env, ks, rows)), GroupF(env, ks, gs, rows)), OutCols(ks) + OutCols(gs))
  {
    var keys := multiset(GroupKeys(env, ks, rows));
    var f := GroupF(env, ks, gs, rows);
    var out := Bind(keys, f);
    forall r | r in out ensures r.Keys == OutCols(ks) + OutCols(gs) {
      BindMember(keys, f, r);
      var k :| k in keys && r in f(k);
      AggKeyRowTyped(env, ks, gs, Group(env, ks, rows, k), k);
    }
  }

  function JoinCols(ty: JoinType, leftCols: set<Expr>, rightCols: set<Expr>): set<Expr> {
    if ty.Semi? || ty.Anti? then leftCols else leftCols + rightCols
  }

  lemma {:induction false} MatchesTyped(env: Env, on: Expr, a: Named, rs: multiset<Named>, rightCols: set<Expr>,
                                        r: Named)
    requires Typed(rs, rightCols) && r in Matches(env, on, a, rs)
    ensures r.Keys == a.Keys + rightCols
  {
    BindMember(rs, PairF(env, on, a), r);
    var b :| b in rs && r in PairF(env, on, a)(b);
    MergeKeys(a, b);
  }

  lemma {:induction false} AloneTyped(ty: JoinType, a: Named, rightCols: set<Expr>, r: Named)
    requires r in Alone(ty, a, rightCols)
    ensures r.Keys == JoinCols(ty, a.Keys, rightCols)
  {
    NullKeys(rightCols);
    MergeKeys(a, Nulls(rightCols));
  }

  lemma {:induction false} FromLeftTyped(env: Env, ty: JoinType, on: Expr, a: Named, rs: multiset<Named>,
                                         rightCols: set<Expr>, r: Named)
    requires Typed(rs, rightCols) && r in FromLeft(env, ty, on, a, rs, rightCols)
    ensures r.Keys == JoinCols(ty, a.Keys, rightCols)
  {
    if !HasMatch(env, on, a, rs) {
      AloneTyped(ty, a, rightCols, r);
    } else if !ty.Semi? && !ty.Anti? {
      MatchesTyped(env, on, a, rs, rightCols, r);
    }
  }

  lemma {:induction false} FromRightTyped(env: Env, ty: JoinType, on: Expr, b: Named, ls: multiset<Named>,
                                          leftCols: set<Expr>, r: Named)
    requires r in FromRight(env, ty, on, b, ls, leftCols)
    ensures r.Keys == JoinCols(ty, leftCols, b.Keys)
  {
    NullKeys(leftCols);
    MergeKeys(Nulls(leftCols), b);
  }

  lemma {:induction false} BindTyped(rows: multiset<Named>, f: Named -> multiset<Named>, cols: set<Expr>)
    requires forall x, r :: x in rows && r in f(x) ==> r.Keys == cols
    ensures Typed(Bind(rows, f), cols)
  {
    forall r: Named | r in Bind(rows, f) ensures r.Keys == cols {
      BindMember(rows, f, r);
    }
  }

  lemma {:induction false} JoinTyped(env: Env, ty: JoinType, on: Expr, ls: multiset<Named>, rs: multiset<Named>,
                  leftCols: set<Expr>, rightCols: set<Expr>)
    requires Typed(ls, leftCols) && Typed(rs, rightCols)
    ensures Typed(JoinRows(env, ty, on, ls, rs, leftCols, rightCols), JoinCols(ty, leftCols, rightCols))
  {
    var f, g, cols := LeftF(env, ty, on, rs, rightCols), RightF(env, ty, on, ls, leftCols),
        JoinCols(ty, leftCols, rightCols);
    forall a, r | a in ls && r in f(a) ensures r.Keys == cols {
      FromLeftTyped(env, ty, on, a, rs, rightCols, r);
    }
    BindTyped(ls, f, cols);
    forall b, r | b in rs && r in g(b) ensures r.Keys == cols {
      FromRightTyped(env, ty, on, b, ls, leftCols, r);
    }
    BindTyped(rs, g, cols);
  }

  /** Every row a plan puts out has exactly the produced columns. */
  lemma {:induction false} KeepTyped(rows: multiset<Named>, h: Named -> bool, cols: set<Expr>)
    requires Typed(rows, cols)
    ensures Typed(Keep(rows, h), cols)
  {
    forall r | r in Keep(rows, h) ensures r in rows {
      KeepMember(rows, h, r);
    }
  }

  lemma {:induction false} NoneTyped(cols: set<Expr>)
    ensures Typed(multiset{}, cols)
  {}

  lemma {:induction false} RowsTyped(env: Env, p: Plan)
    ensures Typed(Rows(env, p), Produced(p))
    decreases p
  {
    hide Typed, Bind, Keep, HoldsF, ProjF, JoinRows, GroupF, GroupKeys;
    match p {
      case Scan(t, cols) => ProjTyped(env, cols, env.tables(t));
      case Filter(cond, c) =>
        RowsTyped(env, c);
        KeepTyped(Rows(env, c), HoldsF(env, cond), Produced(c));
      case Order(_, c) => RowsTyped(env, c);
      case Proj(es, c) => ProjTyped(env, es, Rows(env, c));
      case Join(ty, on, l, r) =>
        RowsTyped(env, l);
        RowsTyped(env, r);
        JoinTyped(env, ty, on, Rows(env, l), Rows(env, r), Produced(l), Produced(r));
      case HashAgg(ks, gs, c) => AggTyped(env, ks, gs, Rows(env, c));
      case Empty(_) => NoneTyped(Produced(p));
    }
  }

  lemma {:induction false} PairThen<B>(env: Env, c2: Expr, a: Named, m: Named, f: Named -> multiset<B>)
    ensures Bind(PairF(env, c2, a)(m), f) == if Holds(env, c2, a + m) then f(a + m) else multiset{}
  {
    BindOne(a + m, f);
    BindEmpty(f);
  }
}
