/** Order, Limit, and the bounded heap that does both at once. */
module TopN {
  import opened Common
  import opened Chunks
  import opened Sorting

  /** Rows `offset..offset + limit` of the input, as far as there are any. */
  function Window<T>(rows: seq<T>, offset: nat, limit: nat): (w: seq<T>)
    ensures |w| <= limit && forall i :: 0 <= i < |w| ==> offset + i < |rows| && w[i] == rows[offset + i]
    ensures |w| == limit || offset + |w| >= |rows|
  {
    rows[Least(offset, |rows|)..Least(offset + limit, |rows|)]
  }

  lemma {:induction false} WindowBeyond<T>(a: seq<T>, b: seq<T>, offset: nat, limit: nat)
    requires |a| >= offset + limit
    ensures Window(a + b, offset, limit) == Window(a, offset, limit)
  {}

  lemma {:induction false} NoWindow<T>(rows: seq<T>, offset: nat, limit: nat)
    requires limit == 0 || rows == []
    ensures Window(rows, offset, limit) == []
  {}

  /** Where the window starts in a batch before which `processed` rows went by. */
  function StartIn(processed: nat, offset: nat): nat {
    (if processed <= offset then offset else processed) - processed
  }

  /** Where it ends; the subtraction needs rows of the window still to come. */
  function EndIn(processed: nat, size: nat, offset: nat, limit: nat): nat
    requires processed <= offset + limit
  {
    Least(processed + size, offset + limit) - processed
  }

  /** Limit over a stream of chunks returns exactly the window of the concatenated input;
      its subtractions do not underflow. */
  method Limit(offset: nat, limit: nat, batches: seq<seq<Row>>) returns (out: seq<seq<Row>>)
    ensures Flatten(out) == Window(Flatten(batches), offset, limit)
    ensures forall i :: 0 <= i < |out| ==> out[i] != []
  {
    hide Flatten, Window, StartIn, EndIn;
    FlattenNothing();
    NoWindow(Flatten(batches), offset, 0);
    NoWindow<Row>([], offset, limit);
    out := [];
    var processed: nat := 0;
    ghost var rows: seq<Row> := [];
    for c := 0 to |batches|
      invariant rows == Flatten(batches[..c]) && processed == |rows|
      invariant c > 0 ==> limit > 0
      invariant limit > 0 ==> processed < offset + limit
      invariant Flatten(out) == Window(rows, offset, limit)
      invariant forall i :: 0 <= i < |out| ==> out[i] != []
    {
      if limit == 0 {
        return;
      }
      FlattenUpTo(batches, c);
      var batch := batches[c];
      var start := StartIn(processed, offset);
      var end := EndIn(processed, |batch|, offset, limit);
      WindowGrows(rows, batch, offset, limit);
      processed := processed + |batch|;
      rows := rows + batch;
      if start < end {
        FlattenSnoc(out, batch[start..end]);
        out := out + [batch[start..end]];
        if processed >= offset + limit {
          WindowBeyond(rows, Flatten(batches[c + 1..]), offset, limit);
          return;
        }
      }
    }
    assert batches[..|batches|] == batches;
  }

  lemma {:induction false} FlattenNothing()
    ensures Flatten<Row>([]) == []
  {}

  lemma {:induction false} FlattenUpTo(batches: seq<seq<Row>>, c: nat)
    requires c < |batches|
    ensures Flatten(batches[..c + 1]) == Flatten(batches[..c]) + batches[c]
    ensures Flatten(batches) == Flatten(batches[..c]) + batches[c] + Flatten(batches[c + 1..])
  {
    assert batches[..c + 1] == batches[..c] + [batches[c]] && batches == batches[..c + 1] + batches[c + 1..];
    FlattenSnoc(batches[..c], batches[c]);
    FlattenAppend(batches[..c + 1], batches[c + 1..]);
  }

  /** The slice of the next batch that belongs to the window. */
  lemma {:induction false} WindowGrows(rows: seq<Row>, batch: seq<Row>, offset: nat, limit: nat)
    requires limit > 0 && |rows| < offset + limit
    ensures var start, end := StartIn(|rows|, offset), EndIn(|rows|, |batch|, offset, limit);
            && end <= |batch|
            && (start >= end ==> |rows| + |batch| < offset + limit)
            && Window(rows + batch, offset, limit) ==
               if start < end then Window(rows, offset, limit) + batch[start..end] else Window(rows, offset, limit)
  {
    var w, end := Window(rows + batch, offset, limit), EndIn(|rows|, |batch|, offset, limit);
    if |rows| <= offset {
      var start := offset - |rows|;
      assert Window(rows, offset, limit) == [];
      if start < end {
        SliceBehind(rows, batch, start, end);
      } else {
        assert w == [];
      }
    } else {
      assert Window(rows, offset, limit) == rows[offset..];
      SliceAcross(rows, batch, offset, end);
    }
  }

  lemma {:induction false} SliceBehind(a: seq<Row>, b: seq<Row>, i: nat, j: nat)
    requires i <= j <= |b|
    ensures (a + b)[|a| + i..|a| + j] == b[i..j]
  {}

  lemma {:induction false} SliceAcross(a: seq<Row>, b: seq<Row>, i: nat, j: nat)
    requires i <= |a| && j <= |b|
    ensures (a + b)[i..|a| + j] == a[i..] + b[0..j]
    ensures j == 0 ==> (a + b)[i..|a| + j] == a[i..]
  {}

  method PushRows(o: Output, rows: seq<Row>)
    requires o.Valid()
    modifies o, o.builder
    ensures o.Valid() && o.Sent() == old(o.Sent()) + rows
  {
    hide Flatten, Full;
    ghost var before := o.Sent();
    for i := 0 to |rows|
      invariant o.Valid() && o.Sent() == before + rows[0..i]
    {
      SliceSnoc(before, rows, 0, i);
      o.Push(rows[i]);
    }
    assert rows[0..|rows|] == rows;
  }

  /** Order returns its input rows in the order of their keys, in full chunks. */
  method OrderBy(o: Order, batches: seq<seq<Row>>) returns (out: seq<seq<Row>>)
    requires Fits(o)
    ensures Ordered(o, Flatten(out)) && multiset(Flatten(out)) == multiset(Flatten(batches))
    ensures var rows := Flatten(out);
            forall i, j :: 0 <= i < j < |rows| ==> InOrder(o.desc, o.key(rows[i]), o.key(rows[j]))
    ensures Chunked(out, WINDOW)
  {
    hide Ordered, InOrder;
    var sorted := Sort(o, Flatten(batches));
    var output := new Output();
    PushRows(output, sorted);
    assert output.Sent() == sorted;
    out := output.Close();
    OrderedReads(o, Flatten(out));
  }

  // ---- the bounded heap ----

  /** The heap holds the `size` least of these rows, or all of them. */
  ghost predicate Smallest(o: Order, heap: multiset<Row>, rows: multiset<Row>, size: nat) {
    && heap <= rows
    && |heap| == Least(size, |rows|)
    && forall x, y :: x in heap && y in rows - heap ==> LeRow(o, x, y)
  }

  /** Takes one greatest row out of a heap. */
  method Pop(o: Order, heap: seq<Row>) returns (rest: seq<Row>, top: Row)
    requires Fits(o) && heap != []
    ensures multiset(heap) == multiset(rest) + multiset{top}
    ensures forall x :: x in heap ==> LeRow(o, x, top)
  {
    hide LeRow;
    var best := 0;
    LeRowTotal(o, heap[0], heap[0]);
    for i := 1 to |heap|
      invariant 0 <= best < |heap|
      invariant forall k :: 0 <= k < i ==> LeRow(o, heap[k], heap[best])
    {
      LeRowTotal(o, heap[best], heap[i]);
      LeRowTotal(o, heap[i], heap[i]);
      if !LeRow(o, heap[i], heap[best]) {
        forall k | 0 <= k < i ensures LeRow(o, heap[k], heap[i]) {
          LeRowTransitive(o, heap[k], heap[best], heap[i]);
        }
        best := i;
      }
    }
    top := heap[best];
    rest := heap[..best] + heap[best + 1..];
    assert heap == heap[..best] + [heap[best]] + heap[best + 1..];
  }

  lemma {:induction false} PushKeeps(o: Order, heap: multiset<Row>, rows: multiset<Row>, size: nat, r: Row)
    requires Smallest(o, heap, rows, size) && |heap| < size
    ensures Smallest(o, heap + multiset{r}, rows + multiset{r}, size)
  {
    hide LeRow;
    assert |rows - heap| == |rows| - |heap|;
    assert rows - heap == multiset{};
    assert (rows + multiset{r}) - (heap + multiset{r}) == multiset{};
  }

  lemma {:induction false} LeftOut(heap: multiset<Row>, rows: multiset<Row>, r: Row, top: Row, rest: multiset<Row>)
    requires heap <= rows && heap + multiset{r} == rest + multiset{top}
    ensures rest <= rows + multiset{r}
    ensures (rows + multiset{r}) - rest == (rows - heap) + multiset{top}
  {
    forall x: Row ensures ((rows + multiset{r}) - rest)[x] == ((rows - heap) + multiset{top})[x] {
      assert (heap + multiset{r})[x] == (rest + multiset{top})[x];
    }
    forall x: Row ensures rest[x] <= (rows + multiset{r})[x] {
      assert (heap + multiset{r})[x] == (rest + multiset{top})[x];
    }
  }

  lemma {:induction false} PopKeeps(o: Order, heap: multiset<Row>, rows: multiset<Row>, size: nat, r: Row, top: Row,
                                    rest: multiset<Row>)
    requires Fits(o) && Smallest(o, heap, rows, size) && |heap| == size
    requires heap + multiset{r} == rest + multiset{top} && forall x :: x in heap + multiset{r} ==> LeRow(o, x, top)
    ensures Smallest(o, rest, rows + multiset{r}, size)
  {
    hide LeRow;
    LeftOut(heap, rows, r, top, rest);
    assert |heap + multiset{r}| == |rest + multiset{top}|;
    forall x, y | x in rest && y in (rows + multiset{r}) - rest ensures LeRow(o, x, y) {
      assert x in heap + multiset{r};
      if y != top {
        assert y in rows - heap;
        PopOrder(o, heap, rows, size, r, top, rest, x, y);
      }
    }
  }

  lemma {:induction false} PopOrder(o: Order, heap: multiset<Row>, rows: multiset<Row>, size: nat, r: Row, top: Row,
                                    rest: multiset<Row>, x: Row, y: Row)
    requires Fits(o) && Smallest(o, heap, rows, size)
    requires heap + multiset{r} == rest + multiset{top} && forall z :: z in heap + multiset{r} ==> LeRow(o, z, top)
    requires x in rest && y in rows - heap
    ensures LeRow(o, x, y)
  {
    hide LeRow;
    if x !in heap {
      // `x` is the new row, so the row taken out is an old one.
      assert (heap + multiset{r})[x] == (rest + multiset{top})[x];
      assert x == r && heap[x] == 0;
      assert top in heap by {
        assert (heap + multiset{r})[top] == (rest + multiset{top})[top];
      }
      LeRowTransitive(o, x, top, y);
    }
  }

  method PushBounded(o: Order, heap: seq<Row>, size: nat, r: Row, ghost rows: multiset<Row>) returns (next: seq<Row>)
    requires Fits(o) && Smallest(o, multiset(heap), rows, size)
    ensures Smallest(o, multiset(next), rows + multiset{r}, size)
  {
    hide LeRow;
    assert |multiset(heap)| == |heap|;
    next := heap + [r];
    if |next| > size {
      ghost var pushed := next;
      var top;
      next, top := Pop(o, next);
      assert forall x :: x in multiset(heap) + multiset{r} ==> x in pushed;
      PopKeeps(o, multiset(heap), rows, size, r, top, multiset(next));
    } else {
      PushKeeps(o, multiset(heap), rows, size, r);
    }
  }

  method Heap(o: Order, size: nat, batches: seq<seq<Row>>) returns (heap: seq<Row>)
    requires Fits(o)
    ensures Smallest(o, multiset(heap), multiset(Flatten(batches)), size)
  {
    hide Flatten, LeRow;
    FlattenNothing();
    heap := [];
    assert Smallest(o, multiset(heap), multiset{}, size);
    for c := 0 to |batches|
      invariant Smallest(o, multiset(heap), multiset(Flatten(batches[..c])), size)
    {
      FlattenUpTo(batches, c);
      heap := HeapBatch(o, size, heap, batches[c], multiset(Flatten(batches[..c])));
    }
    assert batches[..|batches|] == batches;
  }

  method HeapBatch(o: Order, size: nat, heap: seq<Row>, batch: seq<Row>,
                   ghost rows: multiset<Row>) returns (next: seq<Row>)
    requires Fits(o) && Smallest(o, multiset(heap), rows, size)
    ensures Smallest(o, multiset(next), rows + multiset(batch), size)
  {
    hide Smallest;
    next := heap;
    assert rows + multiset(batch[..0]) == rows;
    for i := 0 to |batch|
      invariant Smallest(o, multiset(next), rows + multiset(batch[..i]), size)
    {
      next := PushBounded(o, next, size, batch[i], rows + multiset(batch[..i]));
      assert batch[..i + 1] == batch[..i] + [batch[i]];
      assert rows + multiset(batch[..i + 1]) == rows + multiset(batch[..i]) + multiset{batch[i]};
    }
    assert batch[..|batch|] == batch;
  }

  // ---- the heap shows the front of the order ----

  lemma {:induction false} OrderedJoin(o: Order, a: seq<Row>, b: seq<Row>)
    requires Ordered(o, a) && Ordered(o, b) && forall x, y :: x in a && y in b ==> LeRow(o, x, y)
    ensures Ordered(o, a + b)
  {
    hide LeRow;
    var s := a + b;
    forall i, j | 0 <= i < j < |s| ensures LeRow(o, s[i], s[j]) {
      if i < |a| <= j {
        assert s[i] in a && s[j] in b;
      }
    }
  }

  lemma {:induction false} DropOne(o: Order, s: seq<Row>, x: Row) returns (rest: seq<Row>)
    requires Ordered(o, s) && x in s
    ensures Ordered(o, rest) && multiset(rest) == multiset(s) - multiset{x}
  {
    hide LeRow;
    var i := RemoveAt(s, x);
    rest := s[..i] + s[i + 1..];
    forall a, b | 0 <= a < b < |rest| ensures LeRow(o, rest[a], rest[b]) {
      var a', b' := if a < i then a else a + 1, if b < i then b else b + 1;
      assert rest[a] == s[a'] && rest[b] == s[b'];
    }
  }

  /** What is left of ordered rows after taking some out is ordered. */
  lemma {:induction false} DropSome(o: Order, s: seq<Row>, taken: multiset<Row>) returns (rest: seq<Row>)
    requires Ordered(o, s) && taken <= multiset(s)
    ensures Ordered(o, rest) && multiset(rest) == multiset(s) - taken
    decreases |taken|
  {
    hide Ordered;
    if taken == multiset{} {
      rest := s;
    } else {
      var x :| x in taken;
      assert x in multiset(s);
      rest := DropOne(o, s, x);
      rest := DropSome(o, rest, taken - multiset{x});
      TakenOff(multiset(s), taken, x);
    }
  }

  lemma {:induction false} TakenOff(s: multiset<Row>, taken: multiset<Row>, x: Row)
    requires taken <= s && x in taken
    ensures s - multiset{x} - (taken - multiset{x}) == s - taken
  {}

  /** The sorted heap shows the keys at the front of any ordering of all the rows. */
  lemma {:induction false} HeapKeys(o: Order, heap: seq<Row>, all: seq<Row>, size: nat)
    requires Fits(o) && Ordered(o, heap) && Ordered(o, all) && Smallest(o, multiset(heap), multiset(all), size)
    ensures |heap| == Least(size, |all|) && Keys(o, heap) == Keys(o, all)[..|heap|]
  {
    hide LeRow, Ordered;
    assert |multiset(heap)| == |heap| && |multiset(all)| == |all|;
    var rest := DropSome(o, all, multiset(heap));
    forall x, y | x in heap && y in rest ensures LeRow(o, x, y) {
      assert x in multiset(heap) && y in multiset(rest);
    }
    OrderedJoin(o, heap, rest);
    PutBack(multiset(heap), multiset(all));
    assert multiset(heap + rest) == multiset(all);
    OrderedKeysUnique(o, heap + rest, all);
    assert Keys(o, heap + rest)[..|heap|] == Keys(o, heap);
  }

  lemma {:induction false} PutBack(a: multiset<Row>, b: multiset<Row>)
    requires a <= b
    ensures a + (b - a) == b
  {}

  /** TopN returns rows of its input whose keys are those of the window of the ordered
      input, in full chunks. */
  method TopN(o: Order, offset: nat, limit: nat, batches: seq<seq<Row>>) returns (out: seq<seq<Row>>,
              ghost heap: seq<Row>)
    requires Fits(o)
    ensures Flatten(out) == Window(heap, offset, limit) && Ordered(o, heap)
    ensures Smallest(o, multiset(heap), multiset(Flatten(batches)), offset + limit)
    ensures forall i, j :: 0 <= i < j < |heap| ==> InOrder(o.desc, o.key(heap[i]), o.key(heap[j]))
    ensures forall x, y :: x in heap && y in multiset(Flatten(batches)) - multiset(heap) ==>
              InOrder(o.desc, o.key(x), o.key(y))
    ensures Chunked(out, WINDOW)
  {
    hide Ordered, InOrder, LeBy;
    hide Flatten, Full;
    var kept := Heap(o, offset + limit, batches);
    var sorted := Sort(o, kept);
    heap := sorted;
    var output := new Output();
    var rows := Window(sorted, offset, limit);
    PushRows(output, rows);
    assert output.Sent() == rows;
    out := output.Close();
    OrderedReads(o, heap);
    forall x, y | x in heap && y in multiset(Flatten(batches)) - multiset(heap)
      ensures InOrder(o.desc, o.key(x), o.key(y))
    {
      assert x in multiset(heap) && LeRow(o, x, y);
      LeByReads(o.desc, o.key(x), o.key(y));
    }
  }

  lemma {:induction false} WindowBag<T>(rows: seq<T>, offset: nat, limit: nat)
    ensures multiset(Window(rows, offset, limit)) <= multiset(rows)
  {
    var a, b := Least(offset, |rows|), Least(offset + limit, |rows|);
    assert rows == rows[..a] + rows[a..b] + rows[b..];
  }

  lemma {:induction false} WindowKeys(o: Order, heap: seq<Row>, all: seq<Row>, offset: nat, limit: nat)
    requires |heap| == Least(offset + limit, |all|) && Keys(o, heap) == Keys(o, all)[..|heap|]
    ensures Keys(o, Window(heap, offset, limit)) == Keys(o, Window(all, offset, limit))
  {
    var a, b := Window(heap, offset, limit), Window(all, offset, limit);
    var skip := Least(offset, |heap|);
    forall i | 0 <= i < |a| ensures o.key(a[i]) == o.key(b[i]) {
      assert Keys(o, heap)[skip + i] == Keys(o, all)[skip + i];
    }
  }

  /** For every input and every chunking, TopN and Order followed by Limit show the same
      sequence of keys, and TopN returns a sub-bag of the input. */
  method TopNAgrees(o: Order, offset: nat, limit: nat, batches: seq<seq<Row>>)
    returns (top: seq<seq<Row>>, limited: seq<seq<Row>>)
    requires Fits(o)
    ensures Keys(o, Flatten(top)) == Keys(o, Flatten(limited))
    ensures multiset(Flatten(top)) <= multiset(Flatten(batches))
  {
    hide Flatten, LeRow, Full, Chunked, Ordered;
    ghost var heap;
    top, heap := TopN(o, offset, limit, batches);
    var ordered := OrderBy(o, batches);
    limited := Limit(offset, limit, ordered);
    HeapKeys(o, heap, Flatten(ordered), offset + limit);
    WindowKeys(o, heap, Flatten(ordered), offset, limit);
    WindowBag(heap, offset, limit);
  }
}
