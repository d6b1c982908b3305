/** Values, rows and small sequence helpers shared by every part of the model. */
module Common {
  datatype Option<+T> = None | Some(value: T)

  /** A SQL value.  As in the engine, `Null` is the least value and equals itself
      when values are compared as data (not with the SQL `=`). */
  datatype Value = Null | Bool(b: bool) | Int(i: int)

  type Row = seq<Value>

  function Least(a: nat, b: nat): nat {
    if a <= b then a else b
  }

  function Flatten<T>(ss: seq<seq<T>>): seq<T> {
    if ss == [] then [] else ss[0] + Flatten(ss[1..])
  }

  lemma {:induction false} FlattenAppend<T>(a: seq<seq<T>>, b: seq<seq<T>>)
    ensures Flatten(a + b) == Flatten(a) + Flatten(b)
  {
    if a == [] {
      assert a + b == b;
    } else {
      assert (a + b)[1..] == a[1..] + b;
      FlattenAppend(a[1..], b);
    }
  }

  lemma {:induction false} FlattenSnoc<T>(a: seq<seq<T>>, x: seq<T>)
    ensures Flatten(a + [x]) == Flatten(a) + x
  {
    FlattenAppend(a, [x]);
    assert Flatten([x]) == x + Flatten<T>([]);
  }

  function Repeat<T>(x: T, n: nat): (r: seq<T>)
    ensures |r| == n
  {
    seq(n, _ => x)
  }

  lemma {:induction false} RepeatSnoc<T>(x: T, n: nat)
    ensures Repeat(x, n + 1) == Repeat(x, n) + [x]
  {}

  /** Two concatenations with first parts of the same length are the same if and only if their parts are. */
  lemma {:induction false} SplitAt<T>(x: seq<T>, z: seq<T>, x': seq<T>, z': seq<T>)
    requires |x| == |x'|
    ensures x + z == x' + z' <==> x == x' && z == z'
  {
    if x + z == x' + z' {
      assert x == (x + z)[..|x|] == (x' + z')[..|x|] == x';
      assert z == (x + z)[|x|..] == (x' + z')[|x|..] == z';
    }
  }

  /** `out` is what `rows` has at these ascending positions. */
  ghost predicate Selects<T>(rows: seq<T>, at: seq<nat>, out: seq<T>) {
    && |at| == |out|
    && (forall i, j :: 0 <= i < j < |at| ==> at[i] < at[j])
    && (forall i :: 0 <= i < |at| ==> at[i] < |rows| && out[i] == rows[at[i]])
  }

  lemma {:induction false} SelectsNothing<T>(rows: seq<T>)
    ensures Selects(rows, [], [])
  {}

  lemma {:induction false} SelectsBefore<T>(rows: seq<T>, at: seq<nat>, out: seq<T>, n: nat)
    requires Selects(rows, at, out) && n < |rows| && forall i :: i in at ==> n < i
    ensures Selects(rows, [n] + at, [rows[n]] + out)
  {
    forall i | 0 <= i < |at| ensures n < at[i] {
      assert at[i] in at;
    }
  }

  lemma {:induction false} SelectsMore<T>(rows: seq<T>, at: seq<nat>, out: seq<T>, n: nat)
    requires Selects(rows, at, out) && n < |rows| && forall i :: i in at ==> i < n
    ensures Selects(rows, at + [n], out + [rows[n]])
  {
    forall i | 0 <= i < |at| ensures at[i] < n {
      assert at[i] in at;
    }
  }

  /** A slice behind some list grows by one element. */
  lemma {:induction false} SliceSnoc<T>(before: seq<T>, s: seq<T>, a: nat, b: nat)
    requires a <= b < |s|
    ensures before + s[a..b + 1] == before + s[a..b] + [s[b]]
  {}

  /** Two adjacent slices behind some list make one. */
  lemma {:induction false} SliceJoin<T>(before: seq<T>, s: seq<T>, a: nat, b: nat, c: nat)
    requires a <= b <= c <= |s|
    ensures before + s[a..c] == before + s[a..b] + s[b..c]
  {}
}
