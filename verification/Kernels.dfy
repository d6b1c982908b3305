/** Boolean kernels over value slots and validity bitmaps, against three-valued logic. */
module Kernels {
  import opened Common
  import B = Bitmaps

  /** Value slots with a validity bit each; the slot of a null holds some value too. */
  datatype PrimArray<+T> = PrimArray(data: seq<T>, valid: B.Bitmap) {
    predicate Valid() {
      valid.Valid() && valid.len == |data|
    }

    function Slot(i: nat): Option<T>
      requires Valid() && i < |data|
    {
      if valid.Bit(i) then Some(data[i]) else None
    }
  }

  type BoolArray = PrimArray<bool>

  /** What the boolean kernels keep, casts excepted: the slots of nulls hold false. */
  ghost predicate NullsFalse(a: BoolArray) {
    a.Valid() && forall i :: 0 <= i < |a.data| && !a.valid.Bit(i) ==> !a.data[i]
  }

  // ---- three-valued logic ----

  function KleeneAnd(a: Option<bool>, b: Option<bool>): Option<bool> {
    if a == Some(false) || b == Some(false) then Some(false)
    else if a.None? || b.None? then None
    else Some(true)
  }

  function KleeneOr(a: Option<bool>, b: Option<bool>): Option<bool> {
    if a == Some(true) || b == Some(true) then Some(true)
    else if a.None? || b.None? then None
    else Some(false)
  }

  function KleeneNot(a: Option<bool>): Option<bool> {
    if a.None? then None else Some(!a.value)
  }

  /** The truth tables of three-valued logic. */
  lemma {:induction false} KleeneTables(a: Option<bool>, b: Option<bool>)
    ensures KleeneAnd(a, b) == Some(true) <==> a == Some(true) && b == Some(true)
    ensures KleeneAnd(a, b) == Some(false) <==> a == Some(false) || b == Some(false)
    ensures KleeneOr(a, b) == Some(true) <==> a == Some(true) || b == Some(true)
    ensures KleeneOr(a, b) == Some(false) <==> a == Some(false) && b == Some(false)
    ensures KleeneNot(a) == Some(true) <==> a == Some(false)
    ensures KleeneNot(a) == Some(false) <==> a == Some(true)
  {
    match (a, b) {
      case (Some(x), Some(y)) => assert x || !x;
      case (_, _) =>
    }
  }

  /** A function of two values, null when either is. */
  function Lift2<T, U, V>(f: (T, U) -> V, a: Option<T>, b: Option<U>): Option<V> {
    if a.None? || b.None? then None else Some(f(a.value, b.value))
  }

  function Lift<T, V>(f: T -> V, a: Option<T>): Option<V> {
    if a.None? then None else Some(f(a.value))
  }

  // ---- the kernels ----

  /** Applies `f` to every pair of slots, valid or not. */
  method BinaryOp<T, U, V>(a: PrimArray<T>, b: PrimArray<U>, f: (T, U) -> V) returns (c: PrimArray<V>)
    requires a.Valid() && b.Valid() && |a.data| == |b.data|
    ensures c.Valid() && |c.data| == |a.data|
    ensures forall i :: 0 <= i < |a.data| ==> c.data[i] == f(a.data[i], b.data[i])
    ensures forall i :: 0 <= i < |a.data| ==> c.valid.Bit(i) == (a.valid.Bit(i) && b.valid.Bit(i))
  {
    var data: seq<V> := [];
    for i := 0 to |a.data|
      invariant |data| == i
      invariant forall k :: 0 <= k < i ==> data[k] == f(a.data[k], b.data[k])
    {
      data := data + [f(a.data[i], b.data[i])];
    }
    var valid := B.And(a.valid, b.valid);
    c := PrimArray(data, valid);
  }

  method UnaryOp<T, V>(a: PrimArray<T>, f: T -> V) returns (c: PrimArray<V>)
    requires a.Valid()
    ensures c.Valid() && |c.data| == |a.data| && c.valid == a.valid
    ensures forall i :: 0 <= i < |a.data| ==> c.data[i] == f(a.data[i])
  {
    var data: seq<V> := [];
    for i := 0 to |a.data|
      invariant |data| == i
      invariant forall k :: 0 <= k < i ==> data[k] == f(a.data[k])
    {
      data := data + [f(a.data[i])];
    }
    c := PrimArray(data, a.valid);
  }

  /** Sets the slots of nulls to false; no item changes. */
  method ClearNull(a: BoolArray) returns (c: BoolArray)
    requires a.Valid()
    ensures NullsFalse(c) && |c.data| == |a.data|
    ensures forall i :: 0 <= i < |a.data| ==> c.Slot(i) == a.Slot(i)
  {
    var data := a.data;
    for i := 0 to |data|
      invariant |data| == |a.data|
      invariant forall k :: 0 <= k < i ==> data[k] == (a.data[k] && a.valid.Bit(k))
      invariant forall k :: i <= k < |data| ==> data[k] == a.data[k]
    {
      data := data[i := data[i] && a.valid.Bit(i)];
    }
    c := PrimArray(data, a.valid);
  }

  /** A comparison, or any function of two columns to booleans. */
  method CompareKernel<T, U>(a: PrimArray<T>, b: PrimArray<U>, f: (T, U) -> bool) returns (c: BoolArray)
    requires a.Valid() && b.Valid() && |a.data| == |b.data|
    ensures NullsFalse(c) && |c.data| == |a.data|
    ensures forall i :: 0 <= i < |a.data| ==> c.Slot(i) == Lift2(f, a.Slot(i), b.Slot(i))
  {
    var raw := BinaryOp(a, b, f);
    c := ClearNull(raw);
  }

  /** A pattern match, or any function of one column to booleans. */
  method MatchKernel<T>(a: PrimArray<T>, f: T -> bool) returns (c: BoolArray)
    requires a.Valid()
    ensures NullsFalse(c) && |c.data| == |a.data|
    ensures forall i :: 0 <= i < |a.data| ==> c.Slot(i) == Lift(f, a.Slot(i))
  {
    var raw := UnaryOp(a, f);
    c := ClearNull(raw);
  }

  /** Conjunction: a slot is also valid where either side is a valid false. */
  method AndKernel(a: BoolArray, b: BoolArray) returns (c: BoolArray)
    requires NullsFalse(a) && NullsFalse(b) && |a.data| == |b.data|
    ensures NullsFalse(c) && |c.data| == |a.data|
    ensures forall i :: 0 <= i < |a.data| ==> c.Slot(i) == KleeneAnd(a.Slot(i), b.Slot(i))
  {
    var raw := BinaryOp(a, b, (x: bool, y: bool) => x && y);
    var aRaw := B.FromBools(a.data);
    var bRaw := B.FromBools(b.data);
    RawBits(a, aRaw);
    RawBits(b, bRaw);
    var aFalse := B.NotThenAnd(aRaw, a.valid);
    var bFalse := B.NotThenAnd(bRaw, b.valid);
    var valid := B.Or(raw.valid, aFalse);
    valid := B.Or(valid, bFalse);
    c := PrimArray(raw.data, valid);
  }

  lemma {:induction false} RawBits(a: BoolArray, raw: B.Bitmap)
    requires a.Valid() && raw.Valid() && raw.Bits() == a.data
    ensures raw.len == |a.data| && forall i :: 0 <= i < |a.data| ==> raw.Bit(i) == a.data[i]
  {
    forall i | 0 <= i < |a.data| ensures raw.Bit(i) == a.data[i] {
      assert raw.Bits()[i] == a.data[i];
    }
  }

  /** Disjunction: a slot is also valid where the raw result is true. */
  method OrKernel(a: BoolArray, b: BoolArray) returns (c: BoolArray)
    requires NullsFalse(a) && NullsFalse(b) && |a.data| == |b.data|
    ensures NullsFalse(c) && |c.data| == |a.data|
    ensures forall i :: 0 <= i < |a.data| ==> c.Slot(i) == KleeneOr(a.Slot(i), b.Slot(i))
  {
    var raw := BinaryOp(a, b, (x: bool, y: bool) => x || y);
    var bitmap := B.FromBools(raw.data);
    RawBits(raw, bitmap);
    var valid := B.Or(raw.valid, bitmap);
    c := PrimArray(raw.data, valid);
  }

  method NotKernel(a: BoolArray) returns (c: BoolArray)
    requires a.Valid()
    ensures NullsFalse(c) && |c.data| == |a.data|
    ensures forall i :: 0 <= i < |a.data| ==> c.Slot(i) == KleeneNot(a.Slot(i))
  {
    var raw := UnaryOp(a, (x: bool) => !x);
    c := ClearNull(raw);
  }

  /** Collects non-null booleans. */
  method FromValues(data: seq<bool>) returns (c: BoolArray)
    ensures NullsFalse(c) && |c.data| == |data|
    ensures forall i :: 0 <= i < |data| ==> c.Slot(i) == Some(data[i])
  {
    var valid := B.FromBools(Repeat(true, |data|));
    c := PrimArray(data, valid);
    forall i | 0 <= i < |data| ensures valid.Bit(i) {
      assert valid.Bits()[i];
    }
  }

  method IsNullKernel<T>(a: PrimArray<T>) returns (c: BoolArray)
    requires a.Valid()
    ensures NullsFalse(c) && |c.data| == |a.data|
    ensures forall i :: 0 <= i < |a.data| ==> c.Slot(i) == Some(a.Slot(i).None?)
  {
    var flags: seq<bool> := [];
    for i := 0 to |a.data|
      invariant |flags| == i
      invariant forall k :: 0 <= k < i ==> flags[k] == !a.valid.Bit(k)
    {
      flags := flags + [!a.valid.Bit(i)];
    }
    c := FromValues(flags);
  }

  /** The raw slots tell apart exactly the items that are true. */
  lemma {:induction false} RawTellsTrue(a: BoolArray, i: nat)
    requires NullsFalse(a) && i < |a.data|
    ensures a.data[i] <==> a.Slot(i) == Some(true)
  {}
}
