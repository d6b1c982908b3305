/** Evaluating boolean expressions over a chunk of columns, and filtering by them. */
module BoolExprs {
  import opened Common
  import B = Bitmaps
  import opened Kernels

  datatype CmpOp = Eq | Ne | Gt | Lt | Ge | Le

  function Compare(op: CmpOp, a: int, b: int): bool {
    match op
    case Eq => a == b
    case Ne => a != b
    case Gt => a > b
    case Lt => a < b
    case Ge => a >= b
    case Le => a <= b
  }

  /** The operators in terms of equality and of the order of integers. */
  lemma {:induction false} CompareReads(a: int, b: int)
    ensures (Compare(Eq, a, b) <==> a == b) && (Compare(Ne, a, b) <==> a != b)
    ensures (Compare(Lt, a, b) <==> a < b) && (Compare(Gt, a, b) <==> b < a)
    ensures (Compare(Le, a, b) <==> a < b || a == b) && (Compare(Ge, a, b) <==> b < a || a == b)
  {}

  datatype IntExpr = IntColumn(index: nat) | IntConst(value: Option<int>)

  /** `Like` stands for a match of a column against a constant pattern. */
  datatype BoolExpr =
    | BoolColumn(index: nat)
    | BoolConst(value: Option<bool>)
    | Cmp(op: CmpOp, a: IntExpr, b: IntExpr)
    | And(left: BoolExpr, right: BoolExpr)
    | Or(left: BoolExpr, right: BoolExpr)
    | Not(child: BoolExpr)
    | IntIsNull(a: IntExpr)
    | BoolIsNull(child: BoolExpr)
    | In(a: IntExpr, list: seq<IntExpr>)
    | Like(a: IntExpr, pattern: int -> bool)

  datatype Chunk = Chunk(ints: seq<PrimArray<int>>, bools: seq<BoolArray>, size: nat)

  /** All columns have the size of the chunk, and boolean columns hold false for nulls. */
  ghost predicate WellFormed(c: Chunk) {
    && (forall k :: 0 <= k < |c.ints| ==> c.ints[k].Valid() && |c.ints[k].data| == c.size)
    && (forall k :: 0 <= k < |c.bools| ==> NullsFalse(c.bools[k]) && |c.bools[k].data| == c.size)
  }

  predicate IntFits(e: IntExpr, c: Chunk) {
    e.IntColumn? ==> e.index < |c.ints|
  }

  /** Every column exists, and no list of `In` is empty. */
  predicate Fits(e: BoolExpr, c: Chunk) {
    match e
    case BoolColumn(k) => k < |c.bools|
    case BoolConst(_) => true
    case Cmp(_, a, b) => IntFits(a, c) && IntFits(b, c)
    case And(l, r) => Fits(l, c) && Fits(r, c)
    case Or(l, r) => Fits(l, c) && Fits(r, c)
    case Not(x) => Fits(x, c)
    case IntIsNull(a) => IntFits(a, c)
    case BoolIsNull(x) => Fits(x, c)
    case In(a, list) => IntFits(a, c) && list != [] && forall k :: 0 <= k < |list| ==> IntFits(list[k], c)
    case Like(a, _) => IntFits(a, c)
  }

  // ---- meaning, row by row ----

  ghost function IntAt(e: IntExpr, c: Chunk, i: nat): Option<int>
    requires WellFormed(c) && IntFits(e, c) && i < c.size
  {
    match e
    case IntColumn(k) => c.ints[k].Slot(i)
    case IntConst(v) => v
  }

  /** The disjunction of `a = x` over the list. */
  ghost function AnyEqual(a: Option<int>, xs: seq<Option<int>>): Option<bool> {
    if xs == [] then Some(false)
    else
      var n := |xs| - 1;
      KleeneOr(AnyEqual(a, xs[..n]), Lift2((x: int, y: int) => Compare(Eq, x, y), a, xs[n]))
  }

  ghost function ListAt(list: seq<IntExpr>, c: Chunk, i: nat): (xs: seq<Option<int>>)
    requires WellFormed(c) && i < c.size && forall k :: 0 <= k < |list| ==> IntFits(list[k], c)
  {
    seq(|list|, k requires 0 <= k < |list| => IntAt(list[k], c, i))
  }

  /** The SQL meaning of an expression on row `i`. */
  ghost function Meaning(e: BoolExpr, c: Chunk, i: nat): Option<bool>
    requires WellFormed(c) && Fits(e, c) && i < c.size
  {
    match e
    case BoolColumn(k) => c.bools[k].Slot(i)
    case BoolConst(v) => v
    case Cmp(op, a, b) => Lift2((x: int, y: int) => Compare(op, x, y), IntAt(a, c, i), IntAt(b, c, i))
    case And(l, r) => KleeneAnd(Meaning(l, c, i), Meaning(r, c, i))
    case Or(l, r) => KleeneOr(Meaning(l, c, i), Meaning(r, c, i))
    case Not(x) => KleeneNot(Meaning(x, c, i))
    case IntIsNull(a) => Some(IntAt(a, c, i).None?)
    case BoolIsNull(x) => Some(Meaning(x, c, i).None?)
    case In(a, list) => AnyEqual(IntAt(a, c, i), ListAt(list, c, i))
    case Like(a, p) => Lift(p, IntAt(a, c, i))
  }

  /** The array holds the meaning of the expression on every row, nulls as false. */
  /** Both operands are there, with these values. */
  predicate Are(a: Option<int>, b: Option<int>, x: int, y: int) {
    a == Some(x) && b == Some(y)
  }

  /** A comparison is true or false as its operands compare, and null if one of them is. */
  lemma {:induction false} CmpMeans(op: CmpOp, a: IntExpr, b: IntExpr, c: Chunk, i: nat, v: bool)
    requires WellFormed(c) && Fits(Cmp(op, a, b), c) && i < c.size
    ensures Meaning(Cmp(op, a, b), c, i) == Some(v) <==>
              exists x, y :: Are(IntAt(a, c, i), IntAt(b, c, i), x, y) &&
                v == (match op
                      case Eq => x == y
                      case Ne => x != y
                      case Lt => x < y
                      case Gt => y < x
                      case Le => !(y < x)
                      case Ge => !(x < y))
  {
    if IntAt(a, c, i).Some? && IntAt(b, c, i).Some? {
      var x, y := IntAt(a, c, i).value, IntAt(b, c, i).value;
      CompareReads(x, y);
      assert Are(IntAt(a, c, i), IntAt(b, c, i), x, y);
    }
  }

  /** When the connectives, the null tests and a pattern match are true, and when they are false. */
  lemma {:induction false} ConnectivesMean(l: BoolExpr, r: BoolExpr, a: IntExpr, p: int -> bool, c: Chunk, i: nat)
    requires WellFormed(c) && Fits(l, c) && Fits(r, c) && IntFits(a, c) && i < c.size
    ensures var x, y := Meaning(l, c, i), Meaning(r, c, i);
            && (Meaning(And(l, r), c, i) == Some(true) <==> x == Some(true) && y == Some(true))
            && (Meaning(And(l, r), c, i) == Some(false) <==> x == Some(false) || y == Some(false))
            && (Meaning(Or(l, r), c, i) == Some(true) <==> x == Some(true) || y == Some(true))
            && (Meaning(Or(l, r), c, i) == Some(false) <==> x == Some(false) && y == Some(false))
            && (Meaning(Not(l), c, i) == Some(true) <==> x == Some(false))
            && (Meaning(Not(l), c, i) == Some(false) <==> x == Some(true))
            && Meaning(BoolIsNull(l), c, i) == Some(x == None)
            && Meaning(IntIsNull(a), c, i) == Some(IntAt(a, c, i) == None)
            && (forall v :: IntAt(a, c, i) == Some(v) ==> Meaning(Like(a, p), c, i) == Some(p(v)))
            && (IntAt(a, c, i) == None ==> Meaning(Like(a, p), c, i) == None)
  {
    KleeneTables(Meaning(l, c, i), Meaning(r, c, i));
  }

  lemma {:induction false} EqualReads(a: Option<int>, x: Option<int>)
    ensures var v := Lift2((x: int, y: int) => Compare(Eq, x, y), a, x);
            && (v == Some(true) <==> a.Some? && a == x)
            && (v == Some(false) <==> a.Some? && x.Some? && a != x)
  {}

  lemma {:induction false} InSnoc<T>(xs: seq<T>, n: nat, x: T)
    requires |xs| == n + 1
    ensures x in xs <==> x in xs[..n] || x == xs[n]
  {}

  /** An `In` list is true if some item is equal, false if all items are there and different, null otherwise. */
  lemma {:induction false} AnyEqualReads(a: Option<int>, xs: seq<Option<int>>)
    ensures AnyEqual(a, xs) == Some(true) <==> a.Some? && a in xs
    ensures AnyEqual(a, xs) == Some(false) <==> xs == [] || (a.Some? && None !in xs && a !in xs)
  {
    hide KleeneOr, Lift2, Compare;
    if xs != [] {
      var n := |xs| - 1;
      AnyEqualReads(a, xs[..n]);
      EqualReads(a, xs[n]);
      KleeneTables(AnyEqual(a, xs[..n]), Lift2((x: int, y: int) => Compare(Eq, x, y), a, xs[n]));
      InSnoc(xs, n, a);
      InSnoc(xs, n, None);
    }
  }

  ghost predicate Holds(a: BoolArray, e: BoolExpr, c: Chunk)
    requires WellFormed(c) && Fits(e, c)
  {
    && NullsFalse(a) && |a.data| == c.size
    && forall i :: 0 <= i < c.size ==> a.Slot(i) == Meaning(e, c, i)
  }

  // ---- evaluation ----

  method Constant<T>(n: nat, v: Option<T>, zero: T) returns (a: PrimArray<T>)
    ensures a.Valid() && |a.data| == n && forall i :: 0 <= i < n ==> a.Slot(i) == v
    ensures v.None? ==> forall i :: 0 <= i < n ==> a.data[i] == zero
  {
    var valid := B.FromBools(Repeat(v.Some?, n));
    a := PrimArray(Repeat(if v.Some? then v.value else zero, n), valid);
    forall i | 0 <= i < n ensures valid.Bit(i) == v.Some? {
      assert valid.Bits()[i] == v.Some?;
    }
  }

  lemma {:induction false} ConstantNullsFalse(a: BoolArray, v: Option<bool>)
    requires a.Valid() && (forall i :: 0 <= i < |a.data| ==> a.Slot(i) == v)
    requires v.None? ==> forall i :: 0 <= i < |a.data| ==> !a.data[i]
    ensures NullsFalse(a)
  {
    forall i | 0 <= i < |a.data| && !a.valid.Bit(i) ensures !a.data[i] {
      assert a.Slot(i) == v;
    }
  }

  method EvalInt(e: IntExpr, c: Chunk) returns (a: PrimArray<int>)
    requires WellFormed(c) && IntFits(e, c)
    ensures a.Valid() && |a.data| == c.size && forall i :: 0 <= i < c.size ==> a.Slot(i) == IntAt(e, c, i)
  {
    match e {
      case IntColumn(k) => a := c.ints[k];
      case IntConst(v) => a := Constant(c.size, v, 0);
    }
  }

  /** The `In` loop: a disjunction of equalities. */
  method EvalIn(a: IntExpr, list: seq<IntExpr>, c: Chunk) returns (r: BoolArray)
    requires WellFormed(c) && Fits(In(a, list), c)
    ensures NullsFalse(r) && |r.data| == c.size
    ensures forall i :: 0 <= i < c.size ==> r.Slot(i) == AnyEqual(IntAt(a, c, i), ListAt(list, c, i))
  {
    hide AnyEqual, ListAt, IntAt, Lift2, KleeneOr;
    var eq := (x: int, y: int) => Compare(Eq, x, y);
    var left := EvalInt(a, c);
    var first := EvalInt(list[0], c);
    r := CompareKernel(left, first, eq);
    forall i | 0 <= i < c.size ensures r.Slot(i) == AnyEqual(IntAt(a, c, i), ListAt(list[..1], c, i)) {
      FirstEqual(a, list, c, i);
    }
    for k := 1 to |list|
      invariant NullsFalse(r) && |r.data| == c.size
      invariant forall i :: 0 <= i < c.size ==> r.Slot(i) == AnyEqual(IntAt(a, c, i), ListAt(list[..k], c, i))
    {
      ghost var before := r;
      var next := EvalInt(list[k], c);
      var equal := CompareKernel(left, next, eq);
      r := OrKernel(r, equal);
      forall i | 0 <= i < c.size ensures r.Slot(i) == AnyEqual(IntAt(a, c, i), ListAt(list[..k + 1], c, i)) {
        ListSnoc(a, list, c, i, k);
      }
    }
    assert list[..|list|] == list;
  }

  lemma {:induction false} FirstEqual(a: IntExpr, list: seq<IntExpr>, c: Chunk, i: nat)
    requires WellFormed(c) && i < c.size && list != [] && IntFits(a, c) && forall j :: 0 <= j < |list| ==>
             IntFits(list[j], c)
    ensures AnyEqual(IntAt(a, c, i), ListAt(list[..1], c, i)) ==
            Lift2((x: int, y: int) => Compare(Eq, x, y), IntAt(a, c, i), IntAt(list[0], c, i))
  {
    var xs := ListAt(list[..1], c, i);
    assert AnyEqual(IntAt(a, c, i), xs[..0]) == Some(false);
  }

  lemma {:induction false} ListSnoc(a: IntExpr, list: seq<IntExpr>, c: Chunk, i: nat, k: nat)
    requires WellFormed(c) && i < c.size && k < |list| && IntFits(a, c) && forall j :: 0 <= j < |list| ==>
             IntFits(list[j], c)
    ensures AnyEqual(IntAt(a, c, i), ListAt(list[..k + 1], c, i)) ==
            KleeneOr(AnyEqual(IntAt(a, c, i), ListAt(list[..k], c, i)),
                     Lift2((x: int, y: int) => Compare(Eq, x, y), IntAt(a, c, i), IntAt(list[k], c, i)))
  {
    var xs := ListAt(list[..k + 1], c, i);
    assert xs[..k] == ListAt(list[..k], c, i);
  }

  /** Evaluating an expression gives three-valued logic, slot by slot. */
  method Eval(e: BoolExpr, c: Chunk) returns (r: BoolArray)
    requires WellFormed(c) && Fits(e, c)
    ensures Holds(r, e, c)
    decreases e
  {
    match e {
      case BoolColumn(k) => r := c.bools[k];
      case BoolConst(v) =>
        r := Constant(c.size, v, false);
        ConstantNullsFalse(r, v);
      case Cmp(op, a, b) =>
        var x := EvalInt(a, c);
        var y := EvalInt(b, c);
        r := CompareKernel(x, y, (u: int, v: int) => Compare(op, u, v));
      case And(left, right) =>
        var x := Eval(left, c);
        var y := Eval(right, c);
        r := AndKernel(x, y);
      case Or(left, right) =>
        var x := Eval(left, c);
        var y := Eval(right, c);
        r := OrKernel(x, y);
      case Not(child) =>
        var x := Eval(child, c);
        r := NotKernel(x);
      case IntIsNull(a) =>
        var x := EvalInt(a, c);
        r := IsNullKernel(x);
      case BoolIsNull(child) =>
        var x := Eval(child, c);
        r := IsNullKernel(x);
      case In(a, list) => r := EvalIn(a, list, c);
      case Like(a, p) =>
        var x := EvalInt(a, c);
        r := MatchKernel(x, p);
    }
  }

  /** The rows on which the condition is true, in order. */
  ghost function TrueRows<T>(e: BoolExpr, c: Chunk, rows: seq<T>, n: nat): seq<T>
    requires WellFormed(c) && Fits(e, c) && n <= c.size == |rows|
  {
    if n == 0 then []
    else TrueRows(e, c, rows, n - 1) + (if Meaning(e, c, n - 1) == Some(true) then [rows[n - 1]] else [])
  }

  /** These are the positions where the condition is true. */
  ghost predicate TrueAt(e: BoolExpr, c: Chunk, at: seq<nat>, n: nat)
    requires WellFormed(c) && Fits(e, c) && n <= c.size
  {
    forall i: nat :: i in at <==> i < n && Meaning(e, c, i) == Some(true)
  }

  /** The rows at exactly the positions where the condition is true, in order. */
  lemma {:induction false} TrueRowsAre<T>(e: BoolExpr, c: Chunk, rows: seq<T>, n: nat) returns (at: seq<nat>)
    requires WellFormed(c) && Fits(e, c) && n <= c.size == |rows|
    ensures Selects(rows, at, TrueRows(e, c, rows, n))
    ensures TrueAt(e, c, at, n)
  {
    hide Meaning, Selects;
    if n == 0 {
      at := [];
      SelectsNothing(rows);
    } else {
      at := TrueRowsAre(e, c, rows, n - 1);
      if Meaning(e, c, n - 1) == Some(true) {
        SelectsMore(rows, at, TrueRows(e, c, rows, n - 1), n - 1);
        at := at + [n - 1];
        assert TrueRows(e, c, rows, n) == TrueRows(e, c, rows, n - 1) + [rows[n - 1]];
      } else {
        assert TrueRows(e, c, rows, n) == TrueRows(e, c, rows, n - 1);
      }
    }
  }

  /** A filter looks at the raw slots only, and still keeps exactly the rows on which its
      condition is true: not those where it is false, and not those where it is null. */
  method Filter<T>(e: BoolExpr, c: Chunk, rows: seq<T>) returns (kept: seq<T>, ghost at: seq<nat>)
    requires WellFormed(c) && Fits(e, c) && |rows| == c.size
    ensures kept == TrueRows(e, c, rows, c.size)
    ensures Selects(rows, at, kept) && TrueAt(e, c, at, c.size)
  {
    hide TrueAt, Selects;
    var vis := Eval(e, c);
    kept := [];
    for i := 0 to c.size
      invariant kept == TrueRows(e, c, rows, i)
    {
      RawTellsTrue(vis, i);
      if vis.data[i] {
        kept := kept + [rows[i]];
      }
    }
    at := TrueRowsAre(e, c, rows, c.size);
  }

  // ---- casts ----

  /** The rows under a mask, in order. */
  function Masked<T>(mask: seq<bool>, rows: seq<T>): seq<T>
    requires |mask| == |rows|
  {
    if rows == [] then []
    else
      var n := |rows| - 1;
      Masked(mask[..n], rows[..n]) + (if mask[n] then [rows[n]] else [])
  }

  /** Of two masks, one below the other, the rows are the same exactly when the masks are. */
  lemma {:induction false} MaskedIff<T>(fewer: seq<bool>, more: seq<bool>, rows: seq<T>)
    requires |fewer| == |more| == |rows| && forall i :: 0 <= i < |rows| ==> (fewer[i] ==> more[i])
    ensures |Masked(fewer, rows)| <= |Masked(more, rows)|
    ensures |Masked(fewer, rows)| == |Masked(more, rows)| <==> fewer == more
    ensures Masked(fewer, rows) == Masked(more, rows) <==> fewer == more
  {
    if rows != [] {
      var n := |rows| - 1;
      MaskedIff(fewer[..n], more[..n], rows[..n]);
      assert fewer == fewer[..n] + [fewer[n]] && more == more[..n] + [more[n]];
    }
  }

  /** A cast to boolean goes over all slots and leaves the slots of nulls as they come out. */
  method CastKernel(a: PrimArray<int>) returns (r: BoolArray)
    requires a.Valid()
    ensures r.Valid() && |r.data| == |a.data|
    ensures forall i :: 0 <= i < |a.data| ==> r.Slot(i) == Lift((x: int) => x != 0, a.Slot(i))
    ensures forall i :: 0 <= i < |a.data| ==> r.data[i] == (a.data[i] != 0)
  {
    r := UnaryOp(a, (x: int) => x != 0);
  }

  /** The rows on which the cast is true. */
  function CastTrue(a: PrimArray<int>): (mask: seq<bool>)
    requires a.Valid()
    ensures |mask| == |a.data|
  {
    seq(|a.data|, i requires 0 <= i < |a.data| => a.Slot(i).Some? && a.Slot(i).value != 0)
  }

  /** A filter on a cast keeps exactly the rows on which it is true if and only if no null has another slot than
      zero. */
  method FilterCast<T>(a: PrimArray<int>, rows: seq<T>) returns (kept: seq<T>)
    requires a.Valid() && |rows| == |a.data|
    ensures kept == Masked(CastTrue(a), rows) <==> forall i :: 0 <= i < |a.data| && a.Slot(i).None? ==> a.data[i] == 0
  {
    var vis := CastKernel(a);
    kept := [];
    for i := 0 to |rows|
      invariant kept == Masked(vis.data[..i], rows[..i])
    {
      assert vis.data[..i + 1][..i] == vis.data[..i] && rows[..i + 1][..i] == rows[..i];
      if vis.data[i] {
        kept := kept + [rows[i]];
      }
    }
    assert vis.data[..|rows|] == vis.data && rows[..|rows|] == rows;
    MaskedIff(CastTrue(a), vis.data, rows);
    forall i | 0 <= i < |a.data| ensures CastTrue(a)[i] == vis.data[i] <==> (a.Slot(i).None? ==> a.data[i] == 0) {}
  }

  /** `a + 1` for a null `a` whose slot is zero: the sum is null, and a filter on its cast keeps the row. */
  method NullSumIsKept<T>(row: T) returns (sum: PrimArray<int>, kept: seq<T>)
    ensures sum.Valid() && |sum.data| == 1 && sum.Slot(0) == None && kept != Masked(CastTrue(sum), [row])
  {
    var a := Constant(1, None, 0);
    var one := Constant(1, Some(1), 0);
    sum := BinaryOp(a, one, (x: int, y: int) => x + y);
    assert a.Slot(0) == None && one.Slot(0) == Some(1);
    assert sum.data[0] == 1 && sum.Slot(0) == None;
    kept := FilterCast(sum, [row]);
  }
}
