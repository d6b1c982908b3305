/** What the executor computes, said without its evaluator: each operator by the tuples that go in and come out. */
module ExecutionLaws {
  import opened Common
  import opened Bags
  import opened Plans
  import opened Lookups
  import opened Executions

  lemma {:induction false} Unfold(env: Env, p: Plan)
    ensures p.Filter? ==> ExecRows(env, p) == Keep(ExecRows(env, p.child), HoldsAtF(env, p.cond, Schema(p.child)))
    ensures p.Proj? ==> ExecRows(env, p) == Bind(ExecRows(env, p.child), ListAtF(env, p.exprs, Schema(p.child)))
    ensures p.Join? ==>
              ExecRows(env, p) == JoinAt(env, p.ty, p.on, Schema(p.left), Schema(p.right), ExecRows(env, p.left),
                                         ExecRows(env, p.right))
    ensures p.HashAgg? ==>
              var s, rows := Schema(p.child), ExecRows(env, p.child);
              ExecRows(env, p) == Bind(multiset(KeysAt(env, p.keys, s, rows)), GroupAtF(env, p.keys, p.aggs, s, rows))
  {
    hide Bind, Keep, HoldsAtF, ListAtF, JoinAt, KeysAt, GroupAtF, StoredF;
  }

  /** Every tuple has one value per column of the schema. */
  lemma {:induction false} Widths(env: Env, p: Plan, t: Row)
    requires t in ExecRows(env, p)
    ensures |t| == |Schema(p)|
    decreases p
  {
    hide EvalRoot, EvalAt, HoldsAt, Bind;
    match p {
      case Scan(i, cols) => BindMember(env.tables(i), StoredF(cols), t);
      case Empty(_) =>
      case Filter(cond, c) =>
        KeepMember(ExecRows(env, c), HoldsAtF(env, cond, Schema(c)), t);
        Widths(env, c, t);
      case Order(_, c) => Widths(env, c, t);
      case Proj(es, c) => BindMember(ExecRows(env, c), ListAtF(env, es, Schema(c)), t);
      case Join(_, _, _, _) => JoinWidths(env, p, t);
      case HashAgg(ks, gs, c) =>
        var rows, s := ExecRows(env, c), Schema(c);
        BindMember(multiset(KeysAt(env, ks, s, rows)), GroupAtF(env, ks, gs, s, rows), t);
    }
  }

  lemma {:induction false} JoinWidths(env: Env, p: Plan, t: Row)
    requires p.Join? && t in ExecRows(env, p)
    ensures |t| == |Schema(p)|
    decreases p, 0
  {
    hide EvalRoot, EvalAt, HoldsAt, Bind, LeftAtF, RightAtF;
    var ls, rs, sl, sr := ExecRows(env, p.left), ExecRows(env, p.right), Schema(p.left), Schema(p.right);
    var f, g := LeftAtF(env, p.ty, p.on, sl + sr, rs, |sr|), RightAtF(env, p.ty, p.on, sl + sr, ls, |sl|);
    BindMember(ls, f, t);
    BindMember(rs, g, t);
    if a :| a in ls && t in f(a) {
      Widths(env, p.left, a);
      forall b | b in rs ensures |b| == |sr| { Widths(env, p.right, b); }
      LeftWidth(env, p.ty, p.on, sl, sr, rs, a, t);
    } else {
      var b :| b in rs && t in g(b);
      Widths(env, p.right, b);
      RightWidth(env, p.ty, p.on, sl, sr, ls, b, t);
    }
  }

  lemma {:induction false} LeftWidth(env: Env, ty: JoinType, on: Expr, sl: seq<Expr>, sr: seq<Expr>, rs: multiset<Row>,
                                     a: Row, t: Row)
    requires |a| == |sl| && (forall b :: b in rs ==> |b| == |sr|) && t in LeftAtF(env, ty, on, sl + sr, rs, |sr|)(a)
    ensures |t| == |JoinSchema(ty, sl, sr)|
  {
    hide EvalRoot, EvalAt, HoldsAt, Bind, MatchAt;
    BindMember(rs, PairAtF(env, on, sl + sr, a), t);
  }

  lemma {:induction false} RightWidth(env: Env, ty: JoinType, on: Expr, sl: seq<Expr>, sr: seq<Expr>,
                                      ls: multiset<Row>, b: Row, t: Row)
    requires |b| == |sr| && t in RightAtF(env, ty, on, sl + sr, ls, |sl|)(b)
    ensures |t| == |JoinSchema(ty, sl, sr)|
  {
    hide EvalRoot, EvalAt, HoldsAt, Bind, LeftMatchAt;
  }

  // ---- expressions ----

  ghost function UnaryF(env: Env, op: nat, n: nat): Row -> multiset<Row> {
    t => if n < |t| then multiset{t[n := env.unary(op, t[n])]} else multiset{}
  }

  /** Columns `n` and `n + 1` become one. */
  ghost function BinaryF(env: Env, op: nat, n: nat): Row -> multiset<Row> {
    t => if n + 1 < |t| then multiset{t[..n] + [env.binary(op, t[n], t[n + 1])] + t[n + 2..]} else multiset{}
  }

  ghost function AndF(n: nat): Row -> multiset<Row> {
    t => if n + 1 < |t| then multiset{t[..n] + [AndValue(t[n], t[n + 1])] + t[n + 2..]} else multiset{}
  }

  ghost function InsertF(v: Value, n: nat): Row -> multiset<Row> {
    t => if n <= |t| then multiset{t[..n] + [v] + t[n..]} else multiset{}
  }

  lemma {:induction false} ListParts(env: Env, a: seq<Expr>, b: seq<Expr>, s: seq<Expr>, t: Row)
    ensures ListAt(env, a + b, s, t) == ListAt(env, a, s, t) + ListAt(env, b, s, t)
  {}

  lemma {:induction false} ThreeParts(env: Env, pre: seq<Expr>, mid: seq<Expr>, post: seq<Expr>, s: seq<Expr>, t: Row)
    ensures ListAt(env, pre + mid + post, s, t) ==
              ListAt(env, pre, s, t) + ListAt(env, mid, s, t) + ListAt(env, post, s, t)
  {
    ListParts(env, pre, mid, s, t);
    ListParts(env, pre + mid, post, s, t);
  }

  /** If each tuple of one list is the image of the tuple of another, so are the projections. */
  lemma {:induction false} ProjImage(env: Env, es: seq<Expr>, fs: seq<Expr>, c: Plan, f: Row -> multiset<Row>)
    requires forall t :: t in ExecRows(env, c) ==>
               f(ListAt(env, fs, Schema(c), t)) == multiset{ListAt(env, es, Schema(c), t)}
    ensures ExecRows(env, Proj(es, c)) == Bind(ExecRows(env, Proj(fs, c)), f)
  {
    hide ExecRows, ListAt, Bind;
    Unfold(env, Proj(es, c));
    Unfold(env, Proj(fs, c));
    var rows, s := ExecRows(env, c), Schema(c);
    forall t | t in rows ensures ListAtF(env, es, s)(t) == Bind(ListAtF(env, fs, s)(t), f) {
      BindOne(ListAt(env, fs, s, t), f);
    }
    BindBind(rows, ListAtF(env, fs, s), f, ListAtF(env, es, s));
  }

  lemma {:induction false} UnaryTuple(env: Env, pre: seq<Expr>, op: nat, a: Expr, post: seq<Expr>, s: seq<Expr>, t: Row)
    requires Unary(op, a) !in s
    ensures UnaryF(env, op, |pre|)(ListAt(env, pre + [a] + post, s, t)) ==
              multiset{ListAt(env, pre + [Unary(op, a)] + post, s, t)}
  {
    var u, v, n := ListAt(env, pre + [a] + post, s, t), ListAt(env, pre + [Unary(op, a)] + post, s, t), |pre|;
    ThreeParts(env, pre, [a], post, s, t);
    ThreeParts(env, pre, [Unary(op, a)], post, s, t);
    assert EvalAt(env, Unary(op, a), s, t) == env.unary(op, EvalAt(env, a, s, t));
    assert u[n] == EvalAt(env, a, s, t);
    assert v == u[n := env.unary(op, u[n])];
  }

  /** A unary operation is the operator applied to its operand. */
  lemma {:induction false} UnaryProjected(env: Env, pre: seq<Expr>, op: nat, a: Expr, post: seq<Expr>, c: Plan)
    requires Unary(op, a) !in Schema(c)
    ensures ExecRows(env, Proj(pre + [Unary(op, a)] + post, c)) ==
              Bind(ExecRows(env, Proj(pre + [a] + post, c)), UnaryF(env, op, |pre|))
  {
    hide ExecRows, Bind, ListAt, UnaryF;
    forall t
      ensures UnaryF(env, op, |pre|)(ListAt(env, pre + [a] + post, Schema(c), t)) ==
                multiset{ListAt(env, pre + [Unary(op, a)] + post, Schema(c), t)}
    {
      UnaryTuple(env, pre, op, a, post, Schema(c), t);
    }
    ProjImage(env, pre + [Unary(op, a)] + post, pre + [a] + post, c, UnaryF(env, op, |pre|));
  }

  lemma {:induction false} BinaryTuple(env: Env, pre: seq<Expr>, op: nat, a: Expr, b: Expr, post: seq<Expr>,
                                       s: seq<Expr>, t: Row)
    requires Binary(op, a, b) !in s
    ensures BinaryF(env, op, |pre|)(ListAt(env, pre + [a, b] + post, s, t)) ==
              multiset{ListAt(env, pre + [Binary(op, a, b)] + post, s, t)}
  {
    var u, v, n := ListAt(env, pre + [a, b] + post, s, t), ListAt(env, pre + [Binary(op, a, b)] + post, s, t), |pre|;
    ThreeParts(env, pre, [a, b], post, s, t);
    ThreeParts(env, pre, [Binary(op, a, b)], post, s, t);
    assert EvalAt(env, Binary(op, a, b), s, t) == env.binary(op, EvalAt(env, a, s, t), EvalAt(env, b, s, t));
    assert u[n] == EvalAt(env, a, s, t) && u[n + 1] == EvalAt(env, b, s, t);
    assert v == u[..n] + [env.binary(op, u[n], u[n + 1])] + u[n + 2..];
  }

  /** A binary operation is the operator applied to the left and the right operand, in this order. */
  lemma {:induction false} BinaryProjected(env: Env, pre: seq<Expr>, op: nat, a: Expr, b: Expr, post: seq<Expr>,
                                           c: Plan)
    requires Binary(op, a, b) !in Schema(c)
    ensures ExecRows(env, Proj(pre + [Binary(op, a, b)] + post, c)) ==
              Bind(ExecRows(env, Proj(pre + [a, b] + post, c)), BinaryF(env, op, |pre|))
  {
    hide ExecRows, Bind, ListAt, BinaryF;
    forall t
      ensures BinaryF(env, op, |pre|)(ListAt(env, pre + [a, b] + post, Schema(c), t)) ==
                multiset{ListAt(env, pre + [Binary(op, a, b)] + post, Schema(c), t)}
    {
      BinaryTuple(env, pre, op, a, b, post, Schema(c), t);
    }
    ProjImage(env, pre + [Binary(op, a, b)] + post, pre + [a, b] + post, c, BinaryF(env, op, |pre|));
  }

  lemma {:induction false} AndTuple(env: Env, pre: seq<Expr>, a: Expr, b: Expr, post: seq<Expr>, s: seq<Expr>, t: Row)
    requires And(a, b) !in s
    ensures AndF(|pre|)(ListAt(env, pre + [a, b] + post, s, t)) == multiset{ListAt(env, pre + [And(a, b)] + post, s, t)}
  {
    var u, v, n := ListAt(env, pre + [a, b] + post, s, t), ListAt(env, pre + [And(a, b)] + post, s, t), |pre|;
    hide AndValue;
    ThreeParts(env, pre, [a, b], post, s, t);
    ThreeParts(env, pre, [And(a, b)], post, s, t);
    assert EvalAt(env, And(a, b), s, t) == AndValue(EvalAt(env, a, s, t), EvalAt(env, b, s, t));
    assert u[n] == EvalAt(env, a, s, t) && u[n + 1] == EvalAt(env, b, s, t);
    assert v == u[..n] + [AndValue(u[n], u[n + 1])] + u[n + 2..];
  }

  lemma {:induction false} AndProjected(env: Env, pre: seq<Expr>, a: Expr, b: Expr, post: seq<Expr>, c: Plan)
    requires And(a, b) !in Schema(c)
    ensures ExecRows(env, Proj(pre + [And(a, b)] + post, c)) ==
              Bind(ExecRows(env, Proj(pre + [a, b] + post, c)), AndF(|pre|))
  {
    hide ExecRows, Bind, ListAt, AndF;
    forall t
      ensures AndF(|pre|)(ListAt(env, pre + [a, b] + post, Schema(c), t)) ==
                multiset{ListAt(env, pre + [And(a, b)] + post, Schema(c), t)}
    {
      AndTuple(env, pre, a, b, post, Schema(c), t);
    }
    ProjImage(env, pre + [And(a, b)] + post, pre + [a, b] + post, c, AndF(|pre|));
  }

  /** Three-valued conjunction: true if both are, false if one is, null otherwise. */
  lemma {:induction false} AndTable(x: Value, y: Value)
    ensures AndValue(x, y) == Bool(true) <==> x == Bool(true) && y == Bool(true)
    ensures AndValue(x, y) == Bool(false) <==> x == Bool(false) || y == Bool(false)
    ensures AndValue(x, y) in {Bool(true), Bool(false), Null}
  {}

  lemma {:induction false} ConstTuple(env: Env, pre: seq<Expr>, v: Value, post: seq<Expr>, s: seq<Expr>, t: Row)
    requires Const(v) !in s
    ensures InsertF(v, |pre|)(ListAt(env, pre + post, s, t)) == multiset{ListAt(env, pre + [Const(v)] + post, s, t)}
  {
    var u, w, n := ListAt(env, pre + post, s, t), ListAt(env, pre + [Const(v)] + post, s, t), |pre|;
    ListParts(env, pre, post, s, t);
    ThreeParts(env, pre, [Const(v)], post, s, t);
    assert EvalAt(env, Const(v), s, t) == v;
    assert w == u[..n] + [v] + u[n..];
  }

  lemma {:induction false} ConstProjected(env: Env, pre: seq<Expr>, v: Value, post: seq<Expr>, c: Plan)
    requires Const(v) !in Schema(c)
    ensures ExecRows(env, Proj(pre + [Const(v)] + post, c)) ==
              Bind(ExecRows(env, Proj(pre + post, c)), InsertF(v, |pre|))
  {
    hide ExecRows, Bind, ListAt, InsertF;
    forall t
      ensures InsertF(v, |pre|)(ListAt(env, pre + post, Schema(c), t)) ==
                multiset{ListAt(env, pre + [Const(v)] + post, Schema(c), t)}
    {
      ConstTuple(env, pre, v, post, Schema(c), t);
    }
    ProjImage(env, pre + [Const(v)] + post, pre + post, c, InsertF(v, |pre|));
  }

  /** A reference that the input does not have is the expression itself. */
  lemma {:induction false} RefProjected(env: Env, pre: seq<Expr>, a: Expr, post: seq<Expr>, c: Plan)
    requires Ref(a) !in Schema(c)
    ensures ExecRows(env, Proj(pre + [Ref(a)] + post, c)) == ExecRows(env, Proj(pre + [a] + post, c))
  {
    hide ExecRows, Bind;
    var s := Schema(c);
    var f := KeepF((_: Row) => true);
    forall t | t in ExecRows(env, c)
      ensures f(ListAt(env, pre + [a] + post, s, t)) == multiset{ListAt(env, pre + [Ref(a)] + post, s, t)}
    {
      ThreeParts(env, pre, [a], post, s, t);
      ThreeParts(env, pre, [Ref(a)], post, s, t);
      assert EvalAt(env, Ref(a), s, t) == EvalAt(env, a, s, t);
      assert ListAt(env, [Ref(a)], s, t) == ListAt(env, [a], s, t);
    }
    ProjImage(env, pre + [Ref(a)] + post, pre + [a] + post, c, f);
    BindReturn(ExecRows(env, Proj(pre + [a] + post, c)), f);
  }

  // ---- columns ----

  ghost predicate Distinct(s: seq<Expr>) {
    forall i, j :: 0 <= i < j < |s| ==> s[i] != s[j]
  }

  function Pick<T>(s: seq<T>, idx: seq<nat>): seq<T>
    requires forall i :: 0 <= i < |idx| ==> idx[i] < |s|
  {
    seq(|idx|, i requires 0 <= i < |idx| => s[idx[i]])
  }

  ghost function PickF(idx: seq<nat>): Row -> multiset<Row> {
    t => if forall i :: 0 <= i < |idx| ==> idx[i] < |t| then multiset{Pick(t, idx)} else multiset{}
  }

  lemma {:induction false} FindAt(s: seq<Expr>, i: nat)
    requires Distinct(s) && i < |s|
    ensures Find(s, s[i]) == i
  {
    if i > 0 {
      assert s[0] != s[i];
      FindAt(s[1..], i - 1);
    }
  }

  lemma {:induction false} PickedTuple(env: Env, idx: seq<nat>, s: seq<Expr>, t: Row)
    requires Distinct(s) && |t| == |s| && forall i :: 0 <= i < |idx| ==> idx[i] < |s|
    ensures ListAtF(env, Pick(s, idx), s)(t) == PickF(idx)(t)
  {
    hide EvalRoot, Distinct;
    var es := Pick(s, idx);
    forall i | 0 <= i < |idx| ensures ListAt(env, es, s, t)[i] == t[idx[i]] {
      FindAt(s, idx[i]);
    }
    assert ListAt(env, es, s, t) == Pick(t, idx);
  }

  /** Whatever the input has as a column, computed or not, is read from it. */
  lemma {:induction false} ColumnsProjected(env: Env, idx: seq<nat>, c: Plan)
    requires Distinct(Schema(c)) && forall i :: 0 <= i < |idx| ==> idx[i] < |Schema(c)|
    ensures ExecRows(env, Proj(Pick(Schema(c), idx), c)) == Bind(ExecRows(env, c), PickF(idx))
  {
    hide ExecRows, Bind, ListAtF, PickF, Pick, Distinct;
    Unfold(env, Proj(Pick(Schema(c), idx), c));
    var s, es := Schema(c), Pick(Schema(c), idx);
    forall t | t in ExecRows(env, c) ensures ListAtF(env, es, s)(t) == PickF(idx)(t) {
      Widths(env, c, t);
      PickedTuple(env, idx, s, t);
    }
    BindCong(ExecRows(env, c), ListAtF(env, es, s), PickF(idx));
  }

  ghost function ReadF(cols: seq<Expr>): Named -> multiset<Row> {
    r => if forall i :: 0 <= i < |cols| ==> cols[i] in r
         then multiset{seq(|cols|, i requires 0 <= i < |cols| && cols[i] in r => r[cols[i]])} else multiset{}
  }

  /** A scan returns the listed columns of every row of the table. */
  lemma {:induction false} Scanned(env: Env, t: nat, cols: seq<Expr>)
    requires forall r, i :: r in env.tables(t) && 0 <= i < |cols| ==> cols[i] in r
    ensures ExecRows(env, Scan(t, cols)) == Bind(env.tables(t), ReadF(cols))
  {
    hide Bind;
    forall r | r in env.tables(t) ensures StoredF(cols)(r) == ReadF(cols)(r) {
      assert forall i :: 0 <= i < |cols| ==> cols[i] in r;
      assert Stored(cols, r) == seq(|cols|, i requires 0 <= i < |cols| && cols[i] in r => r[cols[i]]);
    }
    BindCong(env.tables(t), StoredF(cols), ReadF(cols));
  }

  // ---- filters ----

  /** Tuples whose last value is true, without it. */
  ghost function PassF(n: nat): Row -> multiset<Row> {
    u => if |u| == n + 1 && u[n] == Bool(true) then multiset{u[..n]} else multiset{}
  }

  lemma {:induction false} FilteredAt(env: Env, cond: Expr, s: seq<Expr>, rows: multiset<Row>)
    requires Distinct(s) && cond !in s && forall t :: t in rows ==> |t| == |s|
    ensures Keep(rows, HoldsAtF(env, cond, s)) == Bind(Bind(rows, ListAtF(env, s + [cond], s)), PassF(|s|))
  {
    hide Bind, EvalRoot, EvalAt, ListAt, Distinct;
    var es := s + [cond];
    forall t | t in rows
      ensures KeepF(HoldsAtF(env, cond, s))(t) == Bind(ListAtF(env, es, s)(t), PassF(|s|))
    {
      WithValue(env, cond, s, t);
      BindOne(ListAt(env, es, s, t), PassF(|s|));
    }
    BindBind(rows, ListAtF(env, es, s), PassF(|s|), KeepF(HoldsAtF(env, cond, s)));
  }

  /** A filter keeps the tuples for which the condition, put beside them, is true: neither false nor null. */
  lemma {:induction false} Filtered(env: Env, cond: Expr, c: Plan)
    requires Distinct(Schema(c)) && cond !in Schema(c)
    ensures ExecRows(env, Filter(cond, c)) ==
              Bind(ExecRows(env, Proj(Schema(c) + [cond], c)), PassF(|Schema(c)|))
  {
    hide ExecRows, Bind, HoldsAtF, ListAtF, PassF, Keep, Distinct;
    Unfold(env, Filter(cond, c));
    Unfold(env, Proj(Schema(c) + [cond], c));
    forall t | t in ExecRows(env, c) ensures |t| == |Schema(c)| {
      Widths(env, c, t);
    }
    FilteredAt(env, cond, Schema(c), ExecRows(env, c));
  }

  lemma {:induction false} WithValue(env: Env, cond: Expr, s: seq<Expr>, t: Row)
    requires Distinct(s) && cond !in s && |t| == |s|
    ensures ListAt(env, s + [cond], s, t) == t + [EvalRoot(env, cond, s, t)]
  {
    hide EvalRoot;
    forall i | 0 <= i < |s| ensures ListAt(env, s + [cond], s, t)[i] == t[i] {
      FindAt(s, i);
    }
  }

  // ---- over a table ----

  ghost function UnaryOfF(env: Env, op: nat, x: Expr): Named -> multiset<Row> {
    r => if x in r then multiset{[env.unary(op, r[x])]} else multiset{}
  }

  ghost function BinaryOfF(env: Env, op: nat, x: Expr, y: Expr): Named -> multiset<Row> {
    r => if x in r && y in r then multiset{[env.binary(op, r[x], r[y])]} else multiset{}
  }

  ghost function WhereF(env: Env, op: nat, x: Expr, y: Expr): Named -> multiset<Row> {
    r => if x in r && y in r && env.binary(op, r[x], r[y]) == Bool(true) then multiset{[r[x], r[y]]} else multiset{}
  }

  lemma {:induction false} TwoStored(env: Env, x: Expr, y: Expr, r: Named)
    requires x.Column? && y.Column? && x != y && x in r && y in r
    ensures Stored([x, y], r) == [r[x], r[y]]
    ensures EvalAt(env, x, [x, y], [r[x], r[y]]) == r[x] && EvalAt(env, y, [x, y], [r[x], r[y]]) == r[y]
  {
    assert Find([x, y], x) == 0 && Find([x, y], y) == 1;
  }

  lemma {:induction false} BinaryOfRow(env: Env, op: nat, x: Expr, y: Expr, r: Named)
    requires x.Column? && y.Column? && x != y && x in r && y in r
    ensures var s, e := [x, y], Binary(op, x, y);
            && BinaryOfF(env, op, x, y)(r) == ListAtF(env, [e], s)(Stored(s, r))
            && WhereF(env, op, x, y)(r) == KeepF(HoldsAtF(env, e, s))(Stored(s, r))
  {
    var s, e, u := [x, y], Binary(op, x, y), [r[x], r[y]];
    TwoStored(env, x, y, r);
    assert EvalAt(env, e, s, u) == EvalRoot(env, e, s, u) == env.binary(op, r[x], r[y]);
    assert ListAt(env, [e], s, u) == [env.binary(op, r[x], r[y])];
  }

  /** Projecting and filtering by an operation on two columns of a table. */
  lemma {:induction false} BinaryOverScan(env: Env, t: nat, op: nat, x: Expr, y: Expr)
    requires x.Column? && y.Column? && x != y && forall r :: r in env.tables(t) ==> x in r && y in r
    ensures ExecRows(env, Proj([Binary(op, x, y)], Scan(t, [x, y]))) == Bind(env.tables(t), BinaryOfF(env, op, x, y))
    ensures ExecRows(env, Filter(Binary(op, x, y), Scan(t, [x, y]))) == Bind(env.tables(t), WhereF(env, op, x, y))
  {
    hide Bind, EvalAt, EvalRoot, Stored, BinaryOfF, WhereF, ListAtF, HoldsAtF, KeepF;
    var s, e, rows := [x, y], Binary(op, x, y), env.tables(t);
    forall r | r in rows
      ensures BinaryOfF(env, op, x, y)(r) == Bind(StoredF(s)(r), ListAtF(env, [e], s))
      ensures WhereF(env, op, x, y)(r) == Bind(StoredF(s)(r), KeepF(HoldsAtF(env, e, s)))
    {
      BinaryOfRow(env, op, x, y, r);
      BindOne(Stored(s, r), ListAtF(env, [e], s));
      BindOne(Stored(s, r), KeepF(HoldsAtF(env, e, s)));
    }
    BindBind(rows, StoredF(s), ListAtF(env, [e], s), BinaryOfF(env, op, x, y));
    BindBind(rows, StoredF(s), KeepF(HoldsAtF(env, e, s)), WhereF(env, op, x, y));
  }

  lemma {:induction false} UnaryOverScan(env: Env, t: nat, op: nat, x: Expr)
    requires x.Column? && forall r :: r in env.tables(t) ==> x in r
    ensures ExecRows(env, Proj([Unary(op, x)], Scan(t, [x]))) == Bind(env.tables(t), UnaryOfF(env, op, x))
  {
    hide Bind;
    var s, e, rows := [x], Unary(op, x), env.tables(t);
    forall r | r in rows ensures UnaryOfF(env, op, x)(r) == Bind(StoredF(s)(r), ListAtF(env, [e], s)) {
      assert Stored(s, r) == [r[x]];
      BindOne([r[x]], ListAtF(env, [e], s));
      assert Find(s, x) == 0 && EvalAt(env, x, s, [r[x]]) == r[x];
      assert EvalAt(env, e, s, [r[x]]) == env.unary(op, r[x]);
      assert ListAt(env, [e], s, [r[x]]) == [env.unary(op, r[x])];
    }
    BindBind(rows, StoredF(s), ListAtF(env, [e], s), UnaryOfF(env, op, x));
  }

  // ---- aggregation ----

  /** The argument of every aggregate. */
  function Args(gs: seq<Expr>): (es: seq<Expr>)
    requires forall i :: 0 <= i < |gs| ==> gs[i].Agg?
    ensures |es| == |gs|
  {
    seq(|gs|, i requires 0 <= i < |gs| => gs[i].arg)
  }

  ghost function Heads(rows: multiset<Row>, n: nat): set<Row> {
    set u | u in rows && n <= |u| :: u[..n]
  }

  ghost function HeadIsF(k: Row): Row -> bool {
    u => k <= u
  }

  ghost function ColumnF(j: nat): Row -> multiset<Value> {
    u => if j < |u| then multiset{u[j]} else multiset{}
  }

  /** The key, and each aggregate over its column of the rows that begin with the key. */
  ghost function GroupedF(env: Env, gs: seq<Expr>, rows: multiset<Row>): Row -> multiset<Row>
    requires forall i :: 0 <= i < |gs| ==> gs[i].Agg?
  {
    (k: Row) => multiset{k + seq(|gs|, i requires 0 <= i < |gs| =>
                  env.agg(gs[i].kind, Bind(Keep(rows, HeadIsF(k)), ColumnF(|k| + i))))}
  }

  lemma {:induction false} GroupTuple(env: Env, ks: seq<Expr>, gs: seq<Expr>, s: seq<Expr>, t: Row)
    requires forall i :: 0 <= i < |gs| ==> gs[i].Agg?
    ensures var u := ListAt(env, ks + Args(gs), s, t);
            && |u| == |ks| + |gs| && u[..|ks|] == ListAt(env, ks, s, t)
            && forall i :: 0 <= i < |gs| ==> u[|ks| + i] == EvalRoot(env, gs[i], s, t)
  {
    var u := ListAt(env, ks + Args(gs), s, t);
    forall i | 0 <= i < |gs| ensures u[|ks| + i] == EvalRoot(env, gs[i], s, t) {
      assert (ks + Args(gs))[|ks| + i] == gs[i].arg;
    }
  }

  lemma {:induction false} SameHeads(env: Env, ks: seq<Expr>, gs: seq<Expr>, s: seq<Expr>, rows: multiset<Row>)
    requires forall i :: 0 <= i < |gs| ==> gs[i].Agg?
    ensures Heads(Bind(rows, ListAtF(env, ks + Args(gs), s)), |ks|) == KeysAt(env, ks, s, rows)
  {
    hide Bind, EvalRoot, EvalAt, ListAt, Args;
    var es := ks + Args(gs);
    var all := Bind(rows, ListAtF(env, es, s));
    forall t | t in rows
      ensures ListAt(env, es, s, t) in all && |ListAt(env, es, s, t)| == |es|
      ensures ListAt(env, es, s, t)[..|ks|] == ListAt(env, ks, s, t)
    {
      GroupTuple(env, ks, gs, s, t);
      BindMember(rows, ListAtF(env, es, s), ListAt(env, es, s, t));
      assert ListAt(env, es, s, t) in ListAtF(env, es, s)(t);
    }
    forall u | u in all ensures exists t :: t in rows && u == ListAt(env, es, s, t) {
      BindMember(rows, ListAtF(env, es, s), u);
    }
  }

  lemma {:induction false} SameArguments(env: Env, ks: seq<Expr>, gs: seq<Expr>, s: seq<Expr>, rows: multiset<Row>,
                                         k: Row, i: nat)
    requires (forall j :: 0 <= j < |gs| ==> gs[j].Agg?) && |k| == |ks| && i < |gs|
    ensures Bind(Keep(Bind(rows, ListAtF(env, ks + Args(gs), s)), HeadIsF(k)), ColumnF(|k| + i)) ==
            Bind(Keep(rows, InGroupAtF(env, ks, s, k)), ArgAtF(env, gs[i], s))
  {
    hide Bind, EvalRoot, EvalAt, ListAt, Args;
    var es := ks + Args(gs);
    var f := ListAtF(env, es, s);
    forall t ensures HeadIsF(k)(ListAt(env, es, s, t)) == InGroupAtF(env, ks, s, k)(t) {
      GroupTuple(env, ks, gs, s, t);
    }
    FilterCommutes(rows, f, HeadIsF(k), InGroupAtF(env, ks, s, k));
    var group := Keep(rows, InGroupAtF(env, ks, s, k));
    forall t ensures ArgAtF(env, gs[i], s)(t) == Bind(f(t), ColumnF(|k| + i)) {
      GroupTuple(env, ks, gs, s, t);
      BindOne(ListAt(env, es, s, t), ColumnF(|k| + i));
    }
    BindBind(group, f, ColumnF(|k| + i), ArgAtF(env, gs[i], s));
  }

  lemma {:induction false} SameGroup(env: Env, ks: seq<Expr>, gs: seq<Expr>, s: seq<Expr>, rows: multiset<Row>, k: Row)
    requires (forall j :: 0 <= j < |gs| ==> gs[j].Agg?) && |k| == |ks|
    ensures GroupAtF(env, ks, gs, s, rows)(k) == GroupedF(env, gs, Bind(rows, ListAtF(env, ks + Args(gs), s)))(k)
  {
    hide Bind, EvalRoot, EvalAt, Args, Keep, ArgAtF, ListAtF, ColumnF, InGroupAtF, HeadIsF;
    var all := Bind(rows, ListAtF(env, ks + Args(gs), s));
    var aggs := seq(|gs|, i requires 0 <= i < |gs| =>
                  env.agg(gs[i].kind, Bind(Keep(all, HeadIsF(k)), ColumnF(|k| + i))));
    forall i | 0 <= i < |gs|
      ensures AggsAt(env, gs, s, Keep(rows, InGroupAtF(env, ks, s, k)))[i] == aggs[i]
    {
      SameArguments(env, ks, gs, s, rows, k, i);
    }
    assert AggsAt(env, gs, s, Keep(rows, InGroupAtF(env, ks, s, k))) == aggs;
  }

  /** An aggregation returns one tuple for each key among the tuples of keys and arguments: the key, and every
      aggregate of its kind over the bag of its arguments in the tuples with that key. */
  lemma {:induction false} Aggregated(env: Env, ks: seq<Expr>, gs: seq<Expr>, c: Plan)
    requires forall i :: 0 <= i < |gs| ==> gs[i].Agg?
    ensures var all := ExecRows(env, Proj(ks + Args(gs), c));
            ExecRows(env, HashAgg(ks, gs, c)) == Bind(multiset(Heads(all, |ks|)), GroupedF(env, gs, all))
  {
    hide ExecRows, Bind, EvalRoot, EvalAt, Args, Keep, ListAtF, GroupAtF, GroupedF;
    Unfold(env, HashAgg(ks, gs, c));
    Unfold(env, Proj(ks + Args(gs), c));
    var s, rows := Schema(c), ExecRows(env, c);
    var all := ExecRows(env, Proj(ks + Args(gs), c));
    SameHeads(env, ks, gs, s, rows);
    var keys := multiset(KeysAt(env, ks, s, rows));
    forall k | k in keys ensures GroupAtF(env, ks, gs, s, rows)(k) == GroupedF(env, gs, all)(k) {
      assert |k| == |ks|;
      SameGroup(env, ks, gs, s, rows, k);
    }
    BindCong(keys, GroupAtF(env, ks, gs, s, rows), GroupedF(env, gs, all));
  }

  // ---- joins ----

  lemma {:induction false} PairsOf(env: Env, on: Expr, s: seq<Expr>, x: Row, rs: multiset<Row>, t: Row)
    ensures t in Bind(rs, PairAtF(env, on, s, x)) <==> exists y :: y in rs && HoldsAt(env, on, s, x + y) && t == x + y
  {
    hide Bind, HoldsAt;
    BindMember(rs, PairAtF(env, on, s, x), t);
    forall y ensures t in PairAtF(env, on, s, x)(y) <==> HoldsAt(env, on, s, x + y) && t == x + y {}
  }

  /** What a left tuple brings to an inner join: its pairs. */
  lemma {:induction false} InnerLeft(env: Env, on: Expr, s: seq<Expr>, rs: multiset<Row>, rn: nat, a: Row)
    ensures LeftAtF(env, Inner, on, s, rs, rn)(a) == Bind(rs, PairAtF(env, on, s, a))
  {
    hide Bind, HoldsAt;
    if !MatchAt(env, on, s, a, rs) {
      BindNone(rs, PairAtF(env, on, s, a));
    }
  }

  ghost function PairsAtF(env: Env, on: Expr, s: seq<Expr>, rs: multiset<Row>): Row -> multiset<Row> {
    a => Bind(rs, PairAtF(env, on, s, a))
  }

  lemma {:induction false} InnerIsPairs(env: Env, on: Expr, sl: seq<Expr>, sr: seq<Expr>, ls: multiset<Row>,
                                        rs: multiset<Row>)
    ensures JoinAt(env, Inner, on, sl, sr, ls, rs) == Bind(ls, PairsAtF(env, on, sl + sr, rs))
  {
    hide Bind, HoldsAt, LeftAtF;
    var s := sl + sr;
    BindNone(rs, RightAtF(env, Inner, on, s, ls, |sl|));
    forall a ensures LeftAtF(env, Inner, on, s, rs, |sr|)(a) == PairsAtF(env, on, s, rs)(a) {
      InnerLeft(env, on, s, rs, |sr|, a);
    }
    BindCong(ls, LeftAtF(env, Inner, on, s, rs, |sr|), PairsAtF(env, on, s, rs));
  }

  lemma {:induction false} PairsCount(env: Env, s: seq<Expr>, rs: multiset<Row>, a: Row, b: Row)
    ensures Bind(rs, PairAtF(env, TRUE, s, a))[a + b] == rs[b]
  {
    hide Bind;
    var h := PairAtF(env, TRUE, s, a);
    forall y | y in rs && y != b ensures a + b !in h(y) {
      SplitAt(a, b, a, y);
    }
    BindCount(rs, h, b, a + b);
    assert h(b) == multiset{a + b};
  }

  lemma {:induction false} CrossCountAt(env: Env, sl: seq<Expr>, sr: seq<Expr>, ls: multiset<Row>, rs: multiset<Row>,
                                        a: Row, b: Row)
    requires |a| == |sl| && forall x :: x in ls ==> |x| == |sl|
    ensures JoinAt(env, Inner, TRUE, sl, sr, ls, rs)[a + b] == ls[a] * rs[b]
  {
    hide Bind, HoldsAt, JoinAt;
    var s := sl + sr;
    InnerIsPairs(env, TRUE, sl, sr, ls, rs);
    forall x | x in ls && x != a ensures a + b !in PairsAtF(env, TRUE, s, rs)(x) {
      PairsOf(env, TRUE, s, x, rs, a + b);
      if y :| y in rs && a + b == x + y {
        SplitAt(a, b, x, y);
      }
    }
    BindCount(ls, PairsAtF(env, TRUE, s, rs), a, a + b);
    PairsCount(env, s, rs, a, b);
  }

  /** Each left tuple stands beside each right tuple as often as both are there. */
  ghost predicate IsCross(pairs: multiset<Row>, ls: multiset<Row>, rs: multiset<Row>, n: nat) {
    forall a, b :: |a| == n ==> pairs[a + b] == ls[a] * rs[b]
  }

  /** A join on nothing is the cross product. */
  lemma {:induction false} CrossJoined(env: Env, l: Plan, r: Plan)
    ensures IsCross(ExecRows(env, Join(Inner, TRUE, l, r)), ExecRows(env, l), ExecRows(env, r), |Schema(l)|)
  {
    hide ExecRows, Bind, HoldsAt, JoinAt;
    Unfold(env, Join(Inner, TRUE, l, r));
    var sl, sr, ls, rs := Schema(l), Schema(r), ExecRows(env, l), ExecRows(env, r);
    forall x | x in ls ensures |x| == |sl| {
      Widths(env, l, x);
    }
    forall a, b | |a| == |sl| ensures JoinAt(env, Inner, TRUE, sl, sr, ls, rs)[a + b] == ls[a] * rs[b] {
      CrossCountAt(env, sl, sr, ls, rs, a, b);
    }
  }

  /** The inner join is the filtered cross product. */
  lemma {:induction false} InnerJoined(env: Env, on: Expr, l: Plan, r: Plan)
    ensures ExecRows(env, Join(Inner, on, l, r)) == ExecRows(env, Filter(on, Join(Inner, TRUE, l, r)))
  {
    hide ExecRows, Bind, JoinAt, HoldsAt;
    Unfold(env, Join(Inner, on, l, r));
    Unfold(env, Join(Inner, TRUE, l, r));
    Unfold(env, Filter(on, Join(Inner, TRUE, l, r)));
    var sl, sr, ls, rs := Schema(l), Schema(r), ExecRows(env, l), ExecRows(env, r);
    var s := sl + sr;
    InnerIsPairs(env, on, sl, sr, ls, rs);
    InnerIsPairs(env, TRUE, sl, sr, ls, rs);
    forall a ensures PairsAtF(env, on, s, rs)(a) == Bind(PairsAtF(env, TRUE, s, rs)(a), KeepF(HoldsAtF(env, on, s))) {
      KeepPairs(env, on, s, rs, a);
    }
    BindBind(ls, PairsAtF(env, TRUE, s, rs), KeepF(HoldsAtF(env, on, s)), PairsAtF(env, on, s, rs));
  }

  lemma {:induction false} KeepPairs(env: Env, on: Expr, s: seq<Expr>, rs: multiset<Row>, a: Row)
    ensures Bind(rs, PairAtF(env, on, s, a)) == Bind(Bind(rs, PairAtF(env, TRUE, s, a)), KeepF(HoldsAtF(env, on, s)))
  {
    hide Bind;
    var k := KeepF(HoldsAtF(env, on, s));
    forall b ensures PairAtF(env, on, s, a)(b) == Bind(PairAtF(env, TRUE, s, a)(b), k) {
      BindOne(a + b, k);
    }
    BindBind(rs, PairAtF(env, TRUE, s, a), k, PairAtF(env, on, s, a));
  }

  // ---- the other joins, from the inner join ----

  ghost predicate HasRight(inner: multiset<Row>, rs: multiset<Row>, a: Row) {
    exists b :: b in rs && a + b in inner
  }

  ghost predicate HasLeft(inner: multiset<Row>, ls: multiset<Row>, b: Row) {
    exists a :: a in ls && a + b in inner
  }

  /** A left tuple without a partner, with nulls on the right. */
  ghost function LonelyLeftF(inner: multiset<Row>, rs: multiset<Row>, n: nat): Row -> multiset<Row> {
    a => if HasRight(inner, rs, a) then multiset{} else multiset{a + Repeat(Null, n)}
  }

  ghost function LonelyRightF(inner: multiset<Row>, ls: multiset<Row>, n: nat): Row -> multiset<Row> {
    b => if HasLeft(inner, ls, b) then multiset{} else multiset{Repeat(Null, n) + b}
  }

  ghost function HasRightF(inner: multiset<Row>, rs: multiset<Row>, want: bool): Row -> bool {
    a => HasRight(inner, rs, a) == want
  }

  lemma {:induction false} MatchIsPair(env: Env, on: Expr, sl: seq<Expr>, sr: seq<Expr>, ls: multiset<Row>,
                                       rs: multiset<Row>, a: Row, b: Row)
    requires (forall x :: x in ls ==> |x| == |sl|) && a in ls && b in rs
    ensures a + b in JoinAt(env, Inner, on, sl, sr, ls, rs) <==> HoldsAt(env, on, sl + sr, a + b)
  {
    hide Bind, HoldsAt, JoinAt;
    var s, f := sl + sr, PairsAtF(env, on, sl + sr, rs);
    InnerIsPairs(env, on, sl, sr, ls, rs);
    BindMember(ls, f, a + b);
    PairsOf(env, on, s, a, rs, a + b);
    if x :| x in ls && a + b in f(x) {
      PairsOf(env, on, s, x, rs, a + b);
      var y :| y in rs && HoldsAt(env, on, s, x + y) && a + b == x + y;
      SplitAt(a, b, x, y);
    }
  }

  lemma {:induction false} SameMatches(env: Env, on: Expr, sl: seq<Expr>, sr: seq<Expr>, ls: multiset<Row>,
                                       rs: multiset<Row>)
    requires forall x :: x in ls ==> |x| == |sl|
    ensures var inner := JoinAt(env, Inner, on, sl, sr, ls, rs);
            && (forall a :: a in ls ==> (MatchAt(env, on, sl + sr, a, rs) <==> HasRight(inner, rs, a)))
            && (forall b :: b in rs ==> (LeftMatchAt(env, on, sl + sr, b, ls) <==> HasLeft(inner, ls, b)))
  {
    hide HoldsAt, JoinAt;
    var inner := JoinAt(env, Inner, on, sl, sr, ls, rs);
    forall a, b | a in ls && b in rs ensures a + b in inner <==> HoldsAt(env, on, sl + sr, a + b) {
      MatchIsPair(env, on, sl, sr, ls, rs, a, b);
    }
  }

  lemma {:induction false} OuterLeft(env: Env, ty: JoinType, on: Expr, s: seq<Expr>, rn: nat, inner: multiset<Row>,
                                     rs: multiset<Row>, a: Row)
    requires !ty.Semi? && !ty.Anti? && (MatchAt(env, on, s, a, rs) <==> HasRight(inner, rs, a))
    ensures LeftAtF(env, ty, on, s, rs, rn)(a) ==
            PairsAtF(env, on, s, rs)(a) + if PadsRight(ty) then LonelyLeftF(inner, rs, rn)(a) else multiset{}
  {
    hide Bind, HoldsAt, MatchAt, HasRight;
    InnerLeft(env, on, s, rs, rn, a);
  }

  lemma {:induction false} LeftPart(env: Env, ty: JoinType, on: Expr, sl: seq<Expr>, sr: seq<Expr>, ls: multiset<Row>,
                                    rs: multiset<Row>)
    requires (forall x :: x in ls ==> |x| == |sl|) && !ty.Semi? && !ty.Anti?
    ensures var inner := JoinAt(env, Inner, on, sl, sr, ls, rs);
            Bind(ls, LeftAtF(env, ty, on, sl + sr, rs, |sr|)) ==
            inner + if PadsRight(ty) then Bind(ls, LonelyLeftF(inner, rs, |sr|)) else multiset{}
  {
    hide Bind, HoldsAt, JoinAt, MatchAt, HasRight, PairsAtF, LonelyLeftF, LeftAtF;
    var s, inner := sl + sr, JoinAt(env, Inner, on, sl, sr, ls, rs);
    InnerIsPairs(env, on, sl, sr, ls, rs);
    SameMatches(env, on, sl, sr, ls, rs);
    var f, g, h := PairsAtF(env, on, s, rs), LonelyLeftF(inner, rs, |sr|), LeftAtF(env, ty, on, s, rs, |sr|);
    forall a | a in ls ensures h(a) == if PadsRight(ty) then f(a) + g(a) else f(a) {
      OuterLeft(env, ty, on, s, |sr|, inner, rs, a);
    }
    if PadsRight(ty) {
      BindSum(ls, f, g, h);
    } else {
      BindCong(ls, h, f);
    }
  }

  lemma {:induction false} RightPart(env: Env, ty: JoinType, on: Expr, sl: seq<Expr>, sr: seq<Expr>, ls: multiset<Row>,
                                     rs: multiset<Row>)
    requires forall x :: x in ls ==> |x| == |sl|
    ensures var inner := JoinAt(env, Inner, on, sl, sr, ls, rs);
            Bind(rs, RightAtF(env, ty, on, sl + sr, ls, |sl|)) ==
            if PadsLeft(ty) then Bind(rs, LonelyRightF(inner, ls, |sl|)) else multiset{}
  {
    hide Bind, HoldsAt, JoinAt, LeftMatchAt, HasLeft;
    var inner := JoinAt(env, Inner, on, sl, sr, ls, rs);
    SameMatches(env, on, sl, sr, ls, rs);
    var g := RightAtF(env, ty, on, sl + sr, ls, |sl|);
    if PadsLeft(ty) {
      BindCong(rs, g, LonelyRightF(inner, ls, |sl|));
    } else {
      BindNone(rs, g);
    }
  }

  /** The inner join and the tuples without a partner, padded with nulls. */
  ghost function WithLonely(ty: JoinType, inner: multiset<Row>, ls: multiset<Row>, rs: multiset<Row>, ln: nat,
                            rn: nat): multiset<Row> {
    inner
    + (if ty.LeftOuter? || ty.FullOuter? then Bind(ls, LonelyLeftF(inner, rs, rn)) else multiset{})
    + (if ty.RightOuter? || ty.FullOuter? then Bind(rs, LonelyRightF(inner, ls, ln)) else multiset{})
  }

  lemma {:induction false} OuterJoinedAt(env: Env, ty: JoinType, on: Expr, sl: seq<Expr>, sr: seq<Expr>,
                                         ls: multiset<Row>, rs: multiset<Row>)
    requires !ty.Semi? && !ty.Anti? && forall x :: x in ls ==> |x| == |sl|
    ensures JoinAt(env, ty, on, sl, sr, ls, rs) ==
            WithLonely(ty, JoinAt(env, Inner, on, sl, sr, ls, rs), ls, rs, |sl|, |sr|)
  {
    hide Bind, HoldsAt, LeftAtF, RightAtF, LonelyLeftF, LonelyRightF;
    LeftPart(env, ty, on, sl, sr, ls, rs);
    RightPart(env, ty, on, sl, sr, ls, rs);
  }

  /** An outer join adds to the inner join the left tuples without a partner, the right ones, or both. */
  lemma {:induction false} OuterJoined(env: Env, ty: JoinType, on: Expr, l: Plan, r: Plan)
    requires ty.LeftOuter? || ty.RightOuter? || ty.FullOuter?
    ensures ExecRows(env, Join(ty, on, l, r)) ==
            WithLonely(ty, ExecRows(env, Join(Inner, on, l, r)), ExecRows(env, l), ExecRows(env, r), |Schema(l)|,
                       |Schema(r)|)
  {
    hide ExecRows, Bind, HoldsAt, JoinAt, WithLonely;
    Unfold(env, Join(ty, on, l, r));
    Unfold(env, Join(Inner, on, l, r));
    forall x | x in ExecRows(env, l) ensures |x| == |Schema(l)| {
      Widths(env, l, x);
    }
    OuterJoinedAt(env, ty, on, Schema(l), Schema(r), ExecRows(env, l), ExecRows(env, r));
  }

  lemma {:induction false} SemiLeft(env: Env, ty: JoinType, on: Expr, s: seq<Expr>, rn: nat, inner: multiset<Row>,
                                    rs: multiset<Row>, a: Row)
    requires (ty.Semi? || ty.Anti?) && (MatchAt(env, on, s, a, rs) <==> HasRight(inner, rs, a))
    ensures LeftAtF(env, ty, on, s, rs, rn)(a) == KeepF(HasRightF(inner, rs, ty.Semi?))(a)
  {
    hide Bind, HoldsAt, MatchAt, HasRight;
  }

  lemma {:induction false} SemiJoinedAt(env: Env, ty: JoinType, on: Expr, sl: seq<Expr>, sr: seq<Expr>,
                                        ls: multiset<Row>, rs: multiset<Row>)
    requires (ty.Semi? || ty.Anti?) && forall x :: x in ls ==> |x| == |sl|
    ensures JoinAt(env, ty, on, sl, sr, ls, rs) ==
            Keep(ls, HasRightF(JoinAt(env, Inner, on, sl, sr, ls, rs), rs, ty.Semi?))
  {
    hide Bind, HoldsAt, MatchAt, HasRight, LeftMatchAt, HasLeft, LeftAtF, HasRightF, KeepF;
    var s, inner := sl + sr, JoinAt(env, Inner, on, sl, sr, ls, rs);
    SameMatches(env, on, sl, sr, ls, rs);
    BindNone(rs, RightAtF(env, ty, on, s, ls, |sl|));
    var f, k := LeftAtF(env, ty, on, s, rs, |sr|), KeepF(HasRightF(inner, rs, ty.Semi?));
    forall a | a in ls ensures f(a) == k(a) {
      SemiLeft(env, ty, on, s, |sr|, inner, rs, a);
    }
    BindCong(ls, f, k);
  }

  /** A semi join keeps the left tuples with a partner in the inner join, an anti join those without one. */
  lemma {:induction false} SemiJoined(env: Env, ty: JoinType, on: Expr, l: Plan, r: Plan)
    requires ty.Semi? || ty.Anti?
    ensures var ls, rs, inner := ExecRows(env, l), ExecRows(env, r), ExecRows(env, Join(Inner, on, l, r));
            ExecRows(env, Join(ty, on, l, r)) == Keep(ls, HasRightF(inner, rs, ty.Semi?))
  {
    hide ExecRows, Bind, HoldsAt, HasRight, JoinAt, Keep;
    Unfold(env, Join(ty, on, l, r));
    Unfold(env, Join(Inner, on, l, r));
    forall x | x in ExecRows(env, l) ensures |x| == |Schema(l)| {
      Widths(env, l, x);
    }
    SemiJoinedAt(env, ty, on, Schema(l), Schema(r), ExecRows(env, l), ExecRows(env, r));
  }
}
