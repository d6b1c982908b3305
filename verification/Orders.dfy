/** Comparison of values and of key lists. */
module Orders {
  import opened Common

  datatype Ordering = Less | Equal | Greater {
    function Reverse(): Ordering {
      match this
      case Less => Greater
      case Equal => Equal
      case Greater => Less
    }
  }

  function Rank(v: Value): nat {
    match v
    case Null => 0
    case Bool(_) => 1
    case Int(_) => 2
  }

  /** The derived order of values: by variant first, `Null` least. */
  function CmpValue(a: Value, b: Value): Ordering {
    if Rank(a) < Rank(b) then Less
    else if Rank(a) > Rank(b) then Greater
    else match a
      case Null => Equal
      case Bool(x) => if x == b.b then Equal else if b.b then Less else Greater
      case Int(x) => if x == b.i then Equal else if x < b.i then Less else Greater
  }

  /** Lexicographic order of key lists. */
  function Cmp(a: seq<Value>, b: seq<Value>): Ordering {
    if a == [] then (if b == [] then Equal else Less)
    else if b == [] then Greater
    else if CmpValue(a[0], b[0]) == Equal then Cmp(a[1..], b[1..])
    else CmpValue(a[0], b[0])
  }

  predicate Le(a: seq<Value>, b: seq<Value>) {
    Cmp(a, b) != Greater
  }

  lemma {:induction false} CmpEqual(a: seq<Value>, b: seq<Value>)
    ensures Cmp(a, b) == Equal <==> a == b
    decreases |a|
  {
    if a != [] && b != [] {
      CmpEqual(a[1..], b[1..]);
      assert a == [a[0]] + a[1..] && b == [b[0]] + b[1..];
    }
  }

  lemma {:induction false} CmpFlip(a: seq<Value>, b: seq<Value>)
    ensures Cmp(b, a) == Cmp(a, b).Reverse()
    decreases |a|
  {
    if a != [] && b != [] {
      CmpFlip(a[1..], b[1..]);
    }
  }

  lemma {:induction false} LeTransitive(a: seq<Value>, b: seq<Value>, c: seq<Value>)
    requires Le(a, b) && Le(b, c)
    ensures Le(a, c)
    ensures Cmp(a, b) == Less || Cmp(b, c) == Less ==> Cmp(a, c) == Less
    decreases |a|
  {
    if a != [] && b != [] && c != [] {
      if CmpValue(a[0], b[0]) == Equal && CmpValue(b[0], c[0]) == Equal {
        LeTransitive(a[1..], b[1..], c[1..]);
      }
    }
  }

  // ---- what the order is ----

  /** Null below everything, booleans below integers, false below true, integers by size. */
  predicate Below(a: Value, b: Value) {
    match a
    case Null => b != Null
    case Bool(x) => b.Int? || (b == Bool(true) && !x)
    case Int(x) => b.Int? && x < b.i
  }

  /** The first position at which two key lists differ. */
  predicate DifferAt(a: seq<Value>, b: seq<Value>, i: int) {
    0 <= i < |a| && i < |b| && a[..i] == b[..i] && a[i] != b[i]
  }

  lemma {:induction false} CmpValueReads(a: Value, b: Value)
    ensures CmpValue(a, b) == Less <==> Below(a, b)
    ensures CmpValue(a, b) == Greater <==> Below(b, a)
    ensures CmpValue(a, b) == Equal <==> a == b
  {}

  lemma {:induction false} DifferBehind(x: Value, a: seq<Value>, b: seq<Value>, i: nat)
    requires DifferAt(a, b, i)
    ensures DifferAt([x] + a, [x] + b, i + 1)
  {
    assert ([x] + a)[..i + 1] == [x] + a[..i] && ([x] + b)[..i + 1] == [x] + b[..i];
  }

  lemma {:induction false} FirstDifference(a: seq<Value>, b: seq<Value>) returns (i: nat)
    requires a != b && !(a < b) && !(b < a)
    ensures DifferAt(a, b, i)
    decreases |a|
  {
    if a[0] != b[0] {
      i := 0;
    } else {
      assert a == [a[0]] + a[1..] && b == [b[0]] + b[1..];
      var n := FirstDifference(a[1..], b[1..]);
      DifferBehind(a[0], a[1..], b[1..], n);
      i := n + 1;
    }
  }

  lemma {:induction false} CmpAt(a: seq<Value>, b: seq<Value>, i: nat)
    requires DifferAt(a, b, i)
    ensures Cmp(a, b) == CmpValue(a[i], b[i])
  {
    if i > 0 {
      assert a[0] == a[..i][0] == b[..i][0] == b[0];
      assert a[1..][..i - 1] == a[..i][1..] && b[1..][..i - 1] == b[..i][1..];
      CmpAt(a[1..], b[1..], i - 1);
    }
  }

  lemma {:induction false} CmpPrefix(a: seq<Value>, b: seq<Value>)
    requires a < b
    ensures Cmp(a, b) == Less
  {
    if a != [] {
      CmpPrefix(a[1..], b[1..]);
    }
  }

  /** One key list is less than another if and only if it is a proper prefix, or at the first position where they
      differ its value is below. */
  lemma {:induction false} CmpReads(a: seq<Value>, b: seq<Value>)
    ensures Cmp(a, b) == Less <==> a < b || exists i :: DifferAt(a, b, i) && Below(a[i], b[i])
  {
    CmpEqual(a, b);
    CmpFlip(a, b);
    if a < b {
      CmpPrefix(a, b);
    } else if b < a {
      CmpPrefix(b, a);
    } else if a != b {
      var i := FirstDifference(a, b);
      CmpAt(a, b, i);
      CmpValueReads(a[i], b[i]);
      assert forall j :: DifferAt(a, b, j) ==> j == i;
    }
  }
}
