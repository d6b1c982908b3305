/** Ordering rows by key lists with ascending and descending columns. */
module Sorting {
  import opened Common
  import opened Orders

  /** What a sort compares: the key list of a row, and which key columns descend. */
  datatype Order = Order(key: Row -> Row, desc: seq<bool>)

  ghost predicate Fits(o: Order) {
    forall r: Row :: |o.key(r)| == |o.desc|
  }

  /** Lexicographic comparison with some columns reversed. */
  function CmpBy(desc: seq<bool>, a: Row, b: Row): Ordering {
    if desc == [] || a == [] || b == [] then Equal
    else if CmpValue(a[0], b[0]) == Equal then CmpBy(desc[1..], a[1..], b[1..])
    else if desc[0] then CmpValue(a[0], b[0]).Reverse()
    else CmpValue(a[0], b[0])
  }

  predicate LeBy(desc: seq<bool>, a: Row, b: Row) {
    CmpBy(desc, a, b) != Greater
  }

  lemma {:induction false} CmpByFlip(desc: seq<bool>, a: Row, b: Row)
    ensures CmpBy(desc, b, a) == CmpBy(desc, a, b).Reverse()
  {
    if desc != [] && a != [] && b != [] {
      CmpByFlip(desc[1..], a[1..], b[1..]);
    }
  }

  lemma {:induction false} LeByTotal(desc: seq<bool>, a: Row, b: Row)
    ensures LeBy(desc, a, b) || LeBy(desc, b, a)
  {
    CmpByFlip(desc, a, b);
  }

  lemma {:induction false} LeByAntisymmetric(desc: seq<bool>, a: Row, b: Row)
    requires |a| == |b| == |desc| && LeBy(desc, a, b) && LeBy(desc, b, a)
    ensures a == b
  {
    CmpByFlip(desc, a, b);
    CmpByEqual(desc, a, b);
  }

  lemma {:induction false} CmpByEqual(desc: seq<bool>, a: Row, b: Row)
    requires |a| == |b| == |desc| && CmpBy(desc, a, b) == Equal
    ensures a == b
  {
    if desc != [] {
      CmpByEqual(desc[1..], a[1..], b[1..]);
      assert a == [a[0]] + a[1..] && b == [b[0]] + b[1..];
    }
  }

  lemma {:induction false} LeByTransitive(desc: seq<bool>, a: Row, b: Row, c: Row)
    requires |a| == |b| == |c| == |desc| && LeBy(desc, a, b) && LeBy(desc, b, c)
    ensures LeBy(desc, a, c)
  {
    if desc != [] && CmpValue(a[0], b[0]) == Equal && CmpValue(b[0], c[0]) == Equal {
      LeByTransitive(desc[1..], a[1..], b[1..], c[1..]);
    }
  }

  /** The keys are the same, or at the first column that differs `a` has the lower value, or the higher one if
      the column descends. */
  ghost predicate InOrder(desc: seq<bool>, a: Row, b: Row) {
    a == b || exists i :: DifferAt(a, b, i) && i < |desc| && if desc[i] then Below(b[i], a[i]) else Below(a[i], b[i])
  }

  lemma {:induction false} CmpByAt(desc: seq<bool>, a: Row, b: Row, i: nat)
    requires DifferAt(a, b, i) && i < |desc|
    ensures CmpBy(desc, a, b) == if desc[i] then CmpValue(a[i], b[i]).Reverse() else CmpValue(a[i], b[i])
    decreases i
  {
    if i > 0 {
      assert a[0] == a[..i][0] == b[..i][0] == b[0];
      assert a[1..][..i - 1] == a[..i][1..] && b[1..][..i - 1] == b[..i][1..];
      CmpByAt(desc[1..], a[1..], b[1..], i - 1);
    } else {
      CmpValueReads(a[0], b[0]);
    }
  }

  lemma {:induction false} CmpBySame(desc: seq<bool>, a: Row)
    ensures CmpBy(desc, a, a) == Equal
  {
    if desc != [] && a != [] {
      CmpBySame(desc[1..], a[1..]);
    }
  }

  /** The comparison of a sort, read column by column. */
  lemma {:induction false} LeByReads(desc: seq<bool>, a: Row, b: Row)
    requires |a| == |b| == |desc|
    ensures LeBy(desc, a, b) <==> InOrder(desc, a, b)
  {
    if a == b {
      CmpBySame(desc, a);
    } else {
      var i := FirstDifference(a, b);
      CmpByAt(desc, a, b, i);
      CmpValueReads(a[i], b[i]);
      assert forall j :: DifferAt(a, b, j) ==> j == i;
    }
  }

  predicate LeRow(o: Order, a: Row, b: Row) {
    LeBy(o.desc, o.key(a), o.key(b))
  }

  lemma {:induction false} LeRowTransitive(o: Order, a: Row, b: Row, c: Row)
    requires Fits(o) && LeRow(o, a, b) && LeRow(o, b, c)
    ensures LeRow(o, a, c)
  {
    LeByTransitive(o.desc, o.key(a), o.key(b), o.key(c));
  }

  lemma {:induction false} LeRowTotal(o: Order, a: Row, b: Row)
    ensures LeRow(o, a, b) || LeRow(o, b, a)
  {
    LeByTotal(o.desc, o.key(a), o.key(b));
  }

  ghost predicate Ordered(o: Order, rows: seq<Row>) {
    forall i, j :: 0 <= i < j < |rows| ==> LeRow(o, rows[i], rows[j])
  }

  lemma {:induction false} OrderedReads(o: Order, rows: seq<Row>)
    requires Fits(o)
    ensures Ordered(o, rows) <==> forall i, j :: 0 <= i < j < |rows| ==> InOrder(o.desc, o.key(rows[i]), o.key(rows[j]))
  {
    hide LeBy, InOrder;
    forall i, j | 0 <= i < j < |rows|
      ensures LeRow(o, rows[i], rows[j]) <==> InOrder(o.desc, o.key(rows[i]), o.key(rows[j]))
    {
      LeByReads(o.desc, o.key(rows[i]), o.key(rows[j]));
    }
  }

  function Keys(o: Order, rows: seq<Row>): (ks: seq<Row>)
    ensures |ks| == |rows|
  {
    seq(|rows|, i requires 0 <= i < |rows| => o.key(rows[i]))
  }

  // ---- sorting decides the keys ----

  lemma {:induction false} RemoveAt<T>(s: seq<T>, x: T) returns (i: nat)
    requires x in s
    ensures i < |s| && s[i] == x && multiset(s[..i] + s[i + 1..]) == multiset(s) - multiset{x}
  {
    i :| 0 <= i < |s| && s[i] == x;
    assert s == s[..i] + [x] + s[i + 1..];
  }

  lemma {:induction false} KeysOfBag(o: Order, a: seq<Row>, b: seq<Row>)
    requires multiset(a) == multiset(b)
    ensures multiset(Keys(o, a)) == multiset(Keys(o, b))
    decreases |a|
  {
    if a == [] {
      SizeOfBag(a, b);
    } else {
      assert a[0] in multiset(b);
      var i := RemoveAt(b, a[0]);
      var rest := b[..i] + b[i + 1..];
      assert a == [a[0]] + a[1..];
      assert multiset(a[1..]) == multiset(a) - multiset{a[0]};
      KeysOfBag(o, a[1..], rest);
      assert Keys(o, a) == [o.key(a[0])] + Keys(o, a[1..]);
      assert Keys(o, b) == Keys(o, b[..i]) + [o.key(b[i])] + Keys(o, b[i + 1..]);
      assert Keys(o, rest) == Keys(o, b[..i]) + Keys(o, b[i + 1..]);
    }
  }

  lemma {:induction false} SizeOfBag<T>(a: seq<T>, b: seq<T>)
    requires multiset(a) == multiset(b)
    ensures |a| == |b|
  {
    assert |multiset(a)| == |a| && |multiset(b)| == |b|;
  }

  ghost predicate SortedKeys(desc: seq<bool>, ks: seq<Row>) {
    && (forall i :: 0 <= i < |ks| ==> |ks[i]| == |desc|)
    && (forall i, j :: 0 <= i < j < |ks| ==> LeBy(desc, ks[i], ks[j]))
  }

  lemma {:induction false} SortedKeysUnique(desc: seq<bool>, a: seq<Row>, b: seq<Row>)
    requires SortedKeys(desc, a) && SortedKeys(desc, b) && multiset(a) == multiset(b)
    ensures a == b
  {
    hide LeBy, SortedKeys;
    SizeOfBag(a, b);
    if a != [] {
      SameHead(desc, a, b);
      Tail(desc, a);
      Tail(desc, b);
      SortedKeysUnique(desc, a[1..], b[1..]);
    }
  }

  lemma {:induction false} Tail(desc: seq<bool>, a: seq<Row>)
    requires SortedKeys(desc, a) && a != []
    ensures SortedKeys(desc, a[1..]) && multiset(a[1..]) == multiset(a) - multiset{a[0]} && a == [a[0]] + a[1..]
  {
    hide LeBy;
    assert a == [a[0]] + a[1..];
  }

  lemma {:induction false} SameHead(desc: seq<bool>, a: seq<Row>, b: seq<Row>)
    requires SortedKeys(desc, a) && SortedKeys(desc, b) && multiset(a) == multiset(b) && a != [] && b != []
    ensures a[0] == b[0]
  {
    hide LeBy;
    assert a[0] in multiset(b) && b[0] in multiset(a);
    var i :| 0 <= i < |b| && b[i] == a[0];
    var j :| 0 <= j < |a| && a[j] == b[0];
    if i > 0 && j > 0 {
      LeByAntisymmetric(desc, a[0], b[0]);
    }
  }

  /** Two orderings of the same rows show the same sequence of keys. */
  lemma {:induction false} OrderedKeysUnique(o: Order, a: seq<Row>, b: seq<Row>)
    requires Fits(o) && Ordered(o, a) && Ordered(o, b) && multiset(a) == multiset(b)
    ensures Keys(o, a) == Keys(o, b)
  {
    hide LeBy;
    KeysOfBag(o, a, b);
    SortedKeysUnique(o.desc, Keys(o, a), Keys(o, b));
  }

  // ---- a sort ----

  /** Inserts a row behind the last row that is not greater. */
  method Insert(o: Order, sorted: seq<Row>, r: Row) returns (out: seq<Row>)
    requires Fits(o) && Ordered(o, sorted)
    ensures Ordered(o, out) && multiset(out) == multiset(sorted) + multiset{r}
  {
    hide LeRow;
    var i := |sorted|;
    while i > 0 && !LeRow(o, sorted[i - 1], r)
      invariant 0 <= i <= |sorted|
      invariant forall k :: i <= k < |sorted| ==> LeRow(o, r, sorted[k])
    {
      LeRowTotal(o, sorted[i - 1], r);
      i := i - 1;
    }
    forall k | 0 <= k < i ensures LeRow(o, sorted[k], r) {
      if k < i - 1 {
        LeRowTransitive(o, sorted[k], sorted[i - 1], r);
      }
    }
    assert sorted == sorted[..i] + sorted[i..];
    out := sorted[..i] + [r] + sorted[i..];
  }

  /** Some ordering of the rows.  The sort of the source is unstable: nothing is said about
      rows with equal keys. */
  method Sort(o: Order, rows: seq<Row>) returns (sorted: seq<Row>)
    requires Fits(o)
    ensures Ordered(o, sorted) && multiset(sorted) == multiset(rows)
  {
    sorted := [];
    for i := 0 to |rows|
      invariant Ordered(o, sorted) && multiset(sorted) == multiset(rows[..i])
    {
      sorted := Insert(o, sorted, rows[i]);
      assert rows[..i + 1] == rows[..i] + [rows[i]];
    }
    assert rows[..|rows|] == rows;
  }
}
