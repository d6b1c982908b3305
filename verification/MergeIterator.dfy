/** The merge iterator: a hand-written min-heap of cursors over refillable chunk buffers. */
module MergeIterators {
  import opened Common
  import opened Orders
  import opened Merges

  /** A batch of rows with an optional visibility map. */
  datatype Chunk = Chunk(rows: seq<Row>, visibility: Option<seq<bool>>) {
    predicate Visible(i: nat) {
      i < |rows| && (visibility.Some? ==> i < |visibility.value| && visibility.value[i])
    }

    /** The visible rows from index `i` on. */
    function From(i: nat): seq<Row>
      decreases |rows| - i
    {
      if i >= |rows| then [] else (if Visible(i) then [rows[i]] else []) + From(i + 1)
    }

    /** What every constructed chunk satisfies: matching lengths and at least one visible row. */
    predicate Valid() {
      && (visibility.Some? ==> |visibility.value| == |rows|)
      && exists i :: 0 <= i < |rows| && Visible(i)
    }
  }

  function VisibleRows(chunks: seq<Chunk>): seq<Row> {
    if chunks == [] then [] else chunks[0].From(0) + VisibleRows(chunks[1..])
  }

  /** A position in a child's buffered chunk: (child, row in chunk). */
  type Cursor = (nat, nat)

  predicate Points(buffer: seq<Option<Chunk>>, c: Cursor) {
    c.0 < |buffer| && buffer[c.0].Some? && buffer[c.0].value.Visible(c.1)
  }

  function RowAt(buffer: seq<Option<Chunk>>, c: Cursor): Row
    requires Points(buffer, c)
  {
    buffer[c.0].value.rows[c.1]
  }

  function Picked(buffer: seq<Option<Chunk>>, cs: seq<Cursor>): seq<Row>
    requires AllPoint(buffer, cs)
  {
    seq(|cs|, k requires 0 <= k < |cs| => RowAt(buffer, cs[k]))
  }

  ghost predicate CursorLe(idx: seq<nat>, buffer: seq<Option<Chunk>>, a: Cursor, b: Cursor) {
    Points(buffer, a) && Points(buffer, b) && RowLe(idx, RowAt(buffer, a), RowAt(buffer, b))
  }

  lemma {:induction false} CursorLeTransitive(idx: seq<nat>, buffer: seq<Option<Chunk>>, a: Cursor, b: Cursor,
                                              c: Cursor)
    requires CursorLe(idx, buffer, a, b) && CursorLe(idx, buffer, b, c)
    ensures CursorLe(idx, buffer, a, c)
  {
    LeTransitive(KeyOf(RowAt(buffer, a), idx), KeyOf(RowAt(buffer, b), idx), KeyOf(RowAt(buffer, c), idx));
  }

  predicate AllPoint(buffer: seq<Option<Chunk>>, heap: seq<Cursor>) {
    forall k :: 0 <= k < |heap| ==> Points(buffer, heap[k])
  }

  function Parent(k: int): int {
    (k - 1) / 2
  }

  /** Slot `k` is not below its parent. */
  ghost predicate Ordered(idx: seq<nat>, buffer: seq<Option<Chunk>>, heap: seq<Cursor>, k: int) {
    0 < k < |heap| && CursorLe(idx, buffer, heap[Parent(k)], heap[k])
  }

  ghost predicate IsHeap(idx: seq<nat>, buffer: seq<Option<Chunk>>, heap: seq<Cursor>) {
    && AllPoint(buffer, heap)
    && forall k :: 0 < k < |heap| ==> Ordered(idx, buffer, heap, k)
  }

  lemma {:induction false} RootIsLeast(idx: seq<nat>, buffer: seq<Option<Chunk>>, heap: seq<Cursor>, k: nat)
    requires IsHeap(idx, buffer, heap) && k < |heap|
    ensures CursorLe(idx, buffer, heap[0], heap[k])
    decreases k
  {
    if k == 0 {
      CursorLeReflexive(idx, buffer, heap[0]);
    } else {
      RootIsLeast(idx, buffer, heap, Parent(k));
      assert Ordered(idx, buffer, heap, k);
      CursorLeTransitive(idx, buffer, heap[0], heap[Parent(k)], heap[k]);
    }
  }

  lemma {:induction false} CursorLeReflexive(idx: seq<nat>, buffer: seq<Option<Chunk>>, a: Cursor)
    requires Points(buffer, a)
    ensures CursorLe(idx, buffer, a, a)
  {
    CmpEqual(KeyOf(RowAt(buffer, a), idx), KeyOf(RowAt(buffer, a), idx));
  }

  /** The parent of `hole` is not above the children of `hole`. */
  ghost predicate Bridged(idx: seq<nat>, buffer: seq<Option<Chunk>>, heap: seq<Cursor>, hole: nat)
    requires hole < |heap|
  {
    hole > 0 ==>
      && (2 * hole + 1 < |heap| ==> CursorLe(idx, buffer, heap[Parent(hole)], heap[2 * hole + 1]))
      && (2 * hole + 2 < |heap| ==> CursorLe(idx, buffer, heap[Parent(hole)], heap[2 * hole + 2]))
  }

  /** The heap order while `hole` is being moved up: only `hole` may be below its parent. */
  ghost predicate HeapExceptUp(idx: seq<nat>, buffer: seq<Option<Chunk>>, heap: seq<Cursor>, hole: nat) {
    && AllPoint(buffer, heap)
    && (forall k :: 0 < k < |heap| && k != hole ==> Ordered(idx, buffer, heap, k))
    && hole < |heap| && Bridged(idx, buffer, heap, hole)
  }

  /** The heap order while `hole` is being moved down: only `hole` may be above its children. */
  ghost predicate HeapExceptDown(idx: seq<nat>, buffer: seq<Option<Chunk>>, heap: seq<Cursor>, hole: nat) {
    && AllPoint(buffer, heap)
    && (forall k :: 0 < k < |heap| && k != 2 * hole + 1 && k != 2 * hole + 2 ==> Ordered(idx, buffer, heap, k))
    && hole < |heap| && Bridged(idx, buffer, heap, hole)
  }

  function Swap(heap: seq<Cursor>, i: nat, j: nat): seq<Cursor>
    requires i < |heap| && j < |heap|
  {
    heap[i := heap[j]][j := heap[i]]
  }

  lemma {:induction false} SwapBag(heap: seq<Cursor>, i: nat, j: nat)
    requires i < |heap| && j < |heap|
    ensures multiset(Swap(heap, i, j)) == multiset(heap)
  {}

  lemma {:induction false} StrictlyBelow(idx: seq<nat>, buffer: seq<Option<Chunk>>, a: Cursor, b: Cursor)
    requires Points(buffer, a) && Points(buffer, b)
    requires !RowLe(idx, RowAt(buffer, a), RowAt(buffer, b))
    ensures CursorLe(idx, buffer, b, a)
  {
    CmpFlip(KeyOf(RowAt(buffer, a), idx), KeyOf(RowAt(buffer, b), idx));
  }

  lemma {:induction false} SwapUp(idx: seq<nat>, buffer: seq<Option<Chunk>>, heap: seq<Cursor>, hole: nat)
    requires 0 < hole < |heap| && HeapExceptUp(idx, buffer, heap, hole)
    requires !RowLe(idx, RowAt(buffer, heap[Parent(hole)]), RowAt(buffer, heap[hole]))
    ensures HeapExceptUp(idx, buffer, Swap(heap, Parent(hole), hole), Parent(hole))
  {
    var up := Parent(hole);
    var h := Swap(heap, up, hole);
    StrictlyBelow(idx, buffer, heap[up], heap[hole]);
    forall k | 0 < k < |h| && k != up ensures Ordered(idx, buffer, h, k) {
      if k != hole {
        assert Ordered(idx, buffer, heap, k);
        if Parent(k) == up {
          CursorLeTransitive(idx, buffer, heap[hole], heap[up], heap[k]);
        }
      }
    }
    if up > 0 {
      assert Ordered(idx, buffer, heap, up);
      forall k | (k == 2 * up + 1 || k == 2 * up + 2) && k < |h| ensures CursorLe(idx, buffer, h[Parent(up)], h[k]) {
        if k != hole {
          assert Ordered(idx, buffer, heap, k);
          CursorLeTransitive(idx, buffer, heap[Parent(up)], heap[up], heap[k]);
        }
      }
    }
  }

  /** `child` is a child of `hole` that is no greater than its sibling. */
  ghost predicate LeastChild(idx: seq<nat>, buffer: seq<Option<Chunk>>, heap: seq<Cursor>, hole: nat, child: nat) {
    && (child == 2 * hole + 1 || child == 2 * hole + 2) && child < |heap|
    && CursorLe(idx, buffer, heap[child], heap[2 * hole + 1])
    && (2 * hole + 2 < |heap| ==> CursorLe(idx, buffer, heap[child], heap[2 * hole + 2]))
  }

  lemma {:induction false} SwapDown(idx: seq<nat>, buffer: seq<Option<Chunk>>, heap: seq<Cursor>, hole: nat, child: nat)
    requires HeapExceptDown(idx, buffer, heap, hole) && LeastChild(idx, buffer, heap, hole, child)
    requires !RowLe(idx, RowAt(buffer, heap[hole]), RowAt(buffer, heap[child]))
    ensures HeapExceptDown(idx, buffer, Swap(heap, hole, child), child)
  {
    var h := Swap(heap, hole, child);
    StrictlyBelow(idx, buffer, heap[hole], heap[child]);
    forall k | 0 < k < |h| && k != 2 * child + 1 && k != 2 * child + 2 ensures Ordered(idx, buffer, h, k) {
      if k != 2 * hole + 1 && k != 2 * hole + 2 {
        assert Ordered(idx, buffer, heap, k);
      }
    }
    forall k | (k == 2 * child + 1 || k == 2 * child + 2) && k < |h|
        ensures CursorLe(idx, buffer, h[Parent(child)], h[k]) {
      assert Ordered(idx, buffer, heap, k);
    }
  }

  lemma {:induction false} SettledDown(idx: seq<nat>, buffer: seq<Option<Chunk>>, heap: seq<Cursor>, hole: nat)
    requires HeapExceptDown(idx, buffer, heap, hole)
    requires 2 * hole + 1 < |heap| ==>
               exists child: nat :: LeastChild(idx, buffer, heap, hole, child) &&
                   CursorLe(idx, buffer, heap[hole], heap[child])
    ensures IsHeap(idx, buffer, heap)
  {
    forall k | 0 < k < |heap| ensures Ordered(idx, buffer, heap, k) {
      if k == 2 * hole + 1 || k == 2 * hole + 2 {
        var child: nat :| LeastChild(idx, buffer, heap, hole, child) && CursorLe(idx, buffer, heap[hole], heap[child]);
        CursorLeTransitive(idx, buffer, heap[hole], heap[child], heap[k]);
      }
    }
  }

  /** The cursor multiset of one cursor per entry of `pos`. */
  ghost predicate Holds(heap: seq<Cursor>, pos: map<nat, nat>) {
    forall c: Cursor :: multiset(heap)[c] == if c.0 in pos && pos[c.0] == c.1 then 1 else 0
  }

  /** The rows child `i` has still to contribute. */
  ghost function LeftOf(sources: seq<seq<Chunk>>, buffer: seq<Option<Chunk>>, pos: map<nat, nat>, i: nat): seq<Row>
    requires i < |sources|
  {
    (if i in pos && i < |buffer| && buffer[i].Some? then buffer[i].value.From(pos[i]) else []) + VisibleRows(sources[i])
  }

  ghost function AllLeft(sources: seq<seq<Chunk>>, buffer: seq<Option<Chunk>>, pos: map<nat, nat>): seq<seq<Row>> {
    seq(|sources|, i requires 0 <= i < |sources| => LeftOf(sources, buffer, pos, i))
  }

  lemma {:induction false} HoldsAdd(heap: seq<Cursor>, pos: map<nat, nat>, heap': seq<Cursor>, c: Cursor)
    requires Holds(heap, pos) && c.0 !in pos && multiset(heap') == multiset(heap) + multiset{c}
    ensures Holds(heap', pos[c.0 := c.1])
  {}

  lemma {:induction false} HoldsRemove(heap: seq<Cursor>, pos: map<nat, nat>, heap': seq<Cursor>, c: Cursor)
    requires Holds(heap, pos) && c in heap && multiset(heap') == multiset(heap) - multiset{c}
    ensures c.0 in pos && pos[c.0] == c.1 && Holds(heap', pos - {c.0})
  {
    assert multiset(heap)[c] > 0;
  }

  lemma {:induction false} HoldsReplace(heap: seq<Cursor>, pos: map<nat, nat>, heap': seq<Cursor>, c: Cursor, n: nat)
    requires Holds(heap, pos) && c in heap && multiset(heap') == multiset(heap) - multiset{c} + multiset{(c.0, n)}
    ensures c.0 in pos && pos[c.0] == c.1 && Holds(heap', pos[c.0 := n])
  {
    assert multiset(heap)[c] > 0;
  }

  /** The heap does not look at the buffers of children it has no cursor for. */
  lemma {:induction false} HeapIgnoresOthers(idx: seq<nat>, buffer: seq<Option<Chunk>>, buffer': seq<Option<Chunk>>,
                                             heap: seq<Cursor>)
    requires IsHeap(idx, buffer, heap)
    requires forall k :: 0 <= k < |heap| ==> heap[k].0 < |buffer'| && buffer'[heap[k].0] == buffer[heap[k].0]
    ensures IsHeap(idx, buffer', heap)
  {
    forall k | 0 < k < |heap| ensures Ordered(idx, buffer', heap, k) {
      assert Ordered(idx, buffer, heap, k);
    }
  }

  lemma {:induction false} InHeapIff(heap: seq<Cursor>, pos: map<nat, nat>, c: Cursor)
    requires Holds(heap, pos)
    ensures c in heap <==> c.0 in pos && pos[c.0] == c.1
  {
    assert c in heap <==> multiset(heap)[c] > 0;
  }

  lemma {:induction false} FromEmpty(c: Chunk, i: nat, j: nat)
    requires c.From(i) == [] && i <= j
    ensures !c.Visible(j)
    decreases j - i
  {
    if i < |c.rows| && i < j {
      FromEmpty(c, i + 1, j);
    }
  }

  ghost predicate ChunksOk(sources: seq<seq<Chunk>>, buffer: seq<Option<Chunk>>) {
    && |sources| == |buffer|
    && (forall i, j :: 0 <= i < |sources| && 0 <= j < |sources[i]| ==> sources[i][j].Valid())
    && (forall i :: 0 <= i < |buffer| && buffer[i].Some? ==> buffer[i].value.Valid())
  }

  /** The heap holds exactly one cursor per buffered child, except for child `open`, whose chunk has just
      been used up and not yet been dropped. */
  ghost predicate CursorsOk(buffer: seq<Option<Chunk>>, heap: seq<Cursor>, pos: map<nat, nat>, open: int) {
    && Holds(heap, pos)
    && forall i :: i in pos <==> i != open && 0 <= i < |buffer| && buffer[i].Some?
  }

  lemma {:induction false} LeftAfterFill(sources: seq<seq<Chunk>>, buffer: seq<Option<Chunk>>, pos: map<nat, nat>,
                                         i: nat, n: nat)
    requires i < |sources| == |buffer| && buffer[i].None? && sources[i] != [] && i !in pos
    requires sources[i][0].From(n) == sources[i][0].From(0)
    ensures AllLeft(sources[i := sources[i][1..]], buffer[i := Some(sources[i][0])], pos[i := n]) ==
            AllLeft(sources, buffer, pos)
  {
    var sources', buffer', pos' := sources[i := sources[i][1..]], buffer[i := Some(sources[i][0])], pos[i := n];
    forall j | 0 <= j < |sources| ensures LeftOf(sources', buffer', pos', j) == LeftOf(sources, buffer, pos, j) {}
  }

  lemma {:induction false} LeftAfterTake(sources: seq<seq<Chunk>>, buffer: seq<Option<Chunk>>, pos: map<nat, nat>,
                                         i: nat, next: Option<nat>)
    requires i < |sources| == |buffer| && i in pos && Points(buffer, (i, pos[i]))
    requires next.Some? ==> buffer[i].value.From(next.value) == buffer[i].value.From(pos[i] + 1)
    requires next.None? ==> buffer[i].value.From(pos[i] + 1) == []
    ensures var left := AllLeft(sources, buffer, pos);
            && left[i] != [] && left[i][0] == RowAt(buffer, (i, pos[i]))
            && AllLeft(sources, buffer, if next.Some? then pos[i := next.value] else pos - {i}) ==
               left[i := left[i][1..]]
  {
    var left := AllLeft(sources, buffer, pos);
    var pos' := if next.Some? then pos[i := next.value] else pos - {i};
    assert left[i] == [RowAt(buffer, (i, pos[i]))] + (buffer[i].value.From(pos[i] + 1) + VisibleRows(sources[i]));
    forall j | 0 <= j < |sources| ensures LeftOf(sources, buffer, pos', j) == left[i := left[i][1..]][j] {}
  }

  lemma {:induction false} CursorsAfterFill(buffer: seq<Option<Chunk>>, heap: seq<Cursor>, pos: map<nat, nat>, i: nat,
                                            chunk: Chunk, n: nat,
                         heap': seq<Cursor>)
    requires i < |buffer| && buffer[i].None? && CursorsOk(buffer, heap, pos, -1)
    requires multiset(heap') == multiset(heap) + multiset{(i, n)}
    ensures CursorsOk(buffer[i := Some(chunk)], heap', pos[i := n], -1)
  {
    HoldsAdd(heap, pos, heap', (i, n));
  }

  lemma {:induction false} HeapAfterBufferChange(idx: seq<nat>, buffer: seq<Option<Chunk>>, heap: seq<Cursor>,
                                                 pos: map<nat, nat>, i: nat,
                              chunk: Option<Chunk>)
    requires i < |buffer| && IsHeap(idx, buffer, heap) && Holds(heap, pos) && i !in pos
    ensures IsHeap(idx, buffer[i := chunk], heap)
  {
    forall k | 0 <= k < |heap| ensures heap[k].0 != i {
      InHeapIff(heap, pos, heap[k]);
    }
    HeapIgnoresOthers(idx, buffer, buffer[i := chunk], heap);
  }

  lemma {:induction false} ValidChunkHasVisible(c: Chunk)
    requires c.Valid()
    ensures c.From(0) != []
  {
    var i :| 0 <= i < |c.rows| && c.Visible(i);
    if c.From(0) == [] {
      FromEmpty(c, 0, i);
    }
  }

  /** The head of input `i` is below the head of every buffered input. */
  ghost predicate LeastCursor(idx: seq<nat>, buffer: seq<Option<Chunk>>, left: seq<seq<Row>>, i: nat) {
    && i < |left| && left[i] != []
    && forall j :: 0 <= j < |left| && j < |buffer| && buffer[j].Some? ==>
         left[j] != [] && RowLe(idx, left[i][0], left[j][0])
  }

  lemma {:induction false} RootPoints(idx: seq<nat>, sources: seq<seq<Chunk>>, buffer: seq<Option<Chunk>>,
                                      heap: seq<Cursor>, pos: map<nat, nat>)
    requires ChunksOk(sources, buffer) && IsHeap(idx, buffer, heap) && CursorsOk(buffer, heap, pos, -1) && heap != []
    ensures Points(buffer, heap[0]) && heap[0].0 < |sources| == |buffer|
    ensures heap[0].0 in pos && pos[heap[0].0] == heap[0].1
    ensures AllLeft(sources, buffer, pos) != [] && |AllLeft(sources, buffer, pos)| == |sources|
  {
    InHeapIff(heap, pos, heap[0]);
  }

  lemma {:induction false} RootBeatsHeads(idx: seq<nat>, sources: seq<seq<Chunk>>, buffer: seq<Option<Chunk>>,
                                          heap: seq<Cursor>, pos: map<nat, nat>)
    requires |sources| == |buffer| && IsHeap(idx, buffer, heap) && CursorsOk(buffer, heap, pos, -1) && heap != []
    ensures LeastCursor(idx, buffer, AllLeft(sources, buffer, pos), heap[0].0)
  {
    var left := AllLeft(sources, buffer, pos);
    InHeapIff(heap, pos, heap[0]);
    assert left[heap[0].0][0] == RowAt(buffer, heap[0]);
    forall j | 0 <= j < |sources| && buffer[j].Some?
      ensures left[j] != [] && RowLe(idx, left[heap[0].0][0], left[j][0])
    {
      InHeapIff(heap, pos, (j, pos[j]));
      var k :| 0 <= k < |heap| && heap[k] == (j, pos[j]);
      RootIsLeast(idx, buffer, heap, k);
      assert left[j][0] == RowAt(buffer, heap[k]);
    }
  }

  /** No input without a buffered chunk has anything left. */
  ghost predicate AllBuffered(buffer: seq<Option<Chunk>>, left: seq<seq<Row>>) {
    |left| == |buffer| && forall j :: 0 <= j < |left| && buffer[j].None? ==> left[j] == []
  }

  ghost predicate PicksOk(idx: seq<nat>, buffer: seq<Option<Chunk>>, left: seq<seq<Row>>, picks: seq<nat>,
                          pickFrom: seq<Cursor>, now: seq<seq<Row>>) {
    && AllPoint(buffer, pickFrom)
    && Greedy(idx, left, picks, Picked(buffer, pickFrom), now)
    && AllBuffered(buffer, now)
  }

  lemma {:induction false} GreedySnoc(idx: seq<nat>, buffer: seq<Option<Chunk>>, left: seq<seq<Row>>, picks: seq<nat>,
                                      pickFrom: seq<Cursor>,
                   now: seq<seq<Row>>, c: Cursor, next: seq<seq<Row>>)
    requires PicksOk(idx, buffer, left, picks, pickFrom, now)
    requires LeastCursor(idx, buffer, now, c.0) && Points(buffer, c) && now[c.0][0] == RowAt(buffer, c)
    requires next == now[c.0 := now[c.0][1..]]
    ensures PicksOk(idx, buffer, left, picks + [c.0], pickFrom + [c], next)
    ensures |Flatten(next)| < |Flatten(now)|
  {
    var i := c.0;
    assert LeastHead(idx, now, i);
    GreedyOne(idx, now, i);
    GreedyConcat(idx, left, picks, Picked(buffer, pickFrom), now, [i], [now[i][0]], next);
    assert Picked(buffer, pickFrom + [c]) == Picked(buffer, pickFrom) + [now[i][0]];
    FlattenTakeHead(now, i);
    assert |multiset(Flatten(next))| == |Flatten(next)| && |multiset(Flatten(now))| == |Flatten(now)|;
  }

  class MergeIterator {
    /** The chunks each child iterator has yet to return. */
    var sources: seq<seq<Chunk>>
    var buffer: seq<Option<Chunk>>
    var finished: seq<bool>
    const idx: seq<nat>
    var heap: seq<Cursor>
    /** Where each buffered child stands. */
    ghost var pos: map<nat, nat>

    ghost predicate Valid()
      reads this
    {
      ValidExcept(-1)
    }

    ghost predicate ValidExcept(open: int)
      reads this
    {
      && |finished| == |sources|
      && (forall i :: 0 <= i < |finished| && finished[i] ==> sources[i] == [])
      && ChunksOk(sources, buffer)
      && IsHeap(idx, buffer, heap)
      && CursorsOk(buffer, heap, pos, open)
    }

    ghost function Left(): seq<seq<Row>>
      reads this
    {
      AllLeft(sources, buffer, pos)
    }

    constructor (sources: seq<seq<Chunk>>, idx: seq<nat>)
      requires forall i, j :: 0 <= i < |sources| && 0 <= j < |sources[i]| ==> sources[i][j].Valid()
      ensures Valid() && fresh(this) && this.idx == idx
      ensures Left() == seq(|sources|, i requires 0 <= i < |sources| => VisibleRows(sources[i]))
    {
      this.sources := sources;
      this.idx := idx;
      buffer := seq(|sources|, _ => None);
      finished := seq(|sources|, _ => false);
      heap := [];
      pos := map[];
      new;
      assert forall i :: 0 <= i < |sources| ==> LeftOf(sources, buffer, pos, i) == VisibleRows(sources[i]);
    }

    method CompareData(a: Cursor, b: Cursor) returns (o: Ordering)
      requires Points(buffer, a) && Points(buffer, b)
      ensures o == Cmp(KeyOf(RowAt(buffer, a), idx), KeyOf(RowAt(buffer, b), idx))
      ensures var x, y := KeyOf(RowAt(buffer, a), idx), KeyOf(RowAt(buffer, b), idx);
              o == Less <==> exists i :: DifferAt(x, y, i) && Below(x[i], y[i])
    {
      var left, right := RowAt(buffer, a), RowAt(buffer, b);
      ghost var x, y := KeyOf(left, idx), KeyOf(right, idx);
      CmpReads(x, y);
      for i := 0 to |idx|
        invariant Cmp(x[i..], y[i..]) == Cmp(x, y)
      {
        var l := if idx[i] < |left| then left[idx[i]] else Null;
        var r := if idx[i] < |right| then right[idx[i]] else Null;
        var res := CmpValue(l, r);
        assert x[i..][0] == l && y[i..][0] == r;
        assert x[i..][1..] == x[i + 1..] && y[i..][1..] == y[i + 1..];
        if res != Equal {
          return res;
        }
      }
      o := Equal;
    }

    method AddPending(c: Cursor)
      requires Points(buffer, c) && IsHeap(idx, buffer, heap)
      modifies this`heap
      ensures IsHeap(idx, buffer, heap) && multiset(heap) == old(multiset(heap)) + multiset{c}
    {
      AppendHole(c);
      heap := heap + [c];
      var hole := |heap| - 1;
      while hole > 0
        invariant 0 <= hole < |heap|
        invariant HeapExceptUp(idx, buffer, heap, hole)
        invariant multiset(heap) == old(multiset(heap)) + multiset{c}
      {
        var up := (hole - 1) / 2;
        var o := CompareData(heap[up], heap[hole]);
        if o != Greater {
          assert Ordered(idx, buffer, heap, hole);
          break;
        }
        SwapUp(idx, buffer, heap, hole);
        SwapBag(heap, up, hole);
        heap := Swap(heap, up, hole);
        hole := up;
      }
    }

    lemma {:induction false} AppendHole(c: Cursor)
      requires Points(buffer, c) && IsHeap(idx, buffer, heap)
      ensures HeapExceptUp(idx, buffer, heap + [c], |heap|)
    {
      forall k | 0 < k < |heap| ensures Ordered(idx, buffer, heap + [c], k) {
        assert Ordered(idx, buffer, heap, k);
      }
    }

    lemma {:induction false} ReplaceHole(c: Cursor)
      requires Points(buffer, c) && IsHeap(idx, buffer, heap) && heap != []
      ensures HeapExceptDown(idx, buffer, heap[0 := c], 0)
    {
      var h := heap[0 := c];
      forall k | 2 < k < |h| ensures Ordered(idx, buffer, h, k) {
        assert Ordered(idx, buffer, heap, k);
      }
    }

    method SmallerChild(hole: nat) returns (child: nat)
      requires 2 * hole + 1 < |heap| && AllPoint(buffer, heap)
      ensures LeastChild(idx, buffer, heap, hole, child)
    {
      child := 2 * hole + 1;
      CursorLeReflexive(idx, buffer, heap[child]);
      var right := 2 * hole + 2;
      if right < |heap| {
        var o := CompareData(heap[child], heap[right]);
        if o == Greater {
          StrictlyBelow(idx, buffer, heap[child], heap[right]);
          CursorLeReflexive(idx, buffer, heap[right]);
          child := right;
        }
      }
    }

    method ReplacePending(c: Cursor) returns (top: Cursor)
      requires Points(buffer, c) && IsHeap(idx, buffer, heap) && heap != []
      modifies this`heap
      ensures IsHeap(idx, buffer, heap) && top == old(heap[0])
      ensures multiset(heap) == old(multiset(heap)) - multiset{top} + multiset{c}
    {
      top := heap[0];
      ReplaceHole(c);
      heap := heap[0 := c];
      ghost var bag := multiset(heap);
      var hole := 0;
      while 2 * hole + 1 < |heap|
        invariant 0 <= hole < |heap|
        invariant HeapExceptDown(idx, buffer, heap, hole)
        invariant multiset(heap) == bag
        decreases |heap| - hole
      {
        var child := SmallerChild(hole);
        var o := CompareData(heap[hole], heap[child]);
        if o != Greater {
          assert CursorLe(idx, buffer, heap[hole], heap[child]);
          break;
        }
        SwapDown(idx, buffer, heap, hole, child);
        SwapBag(heap, hole, child);
        heap := Swap(heap, hole, child);
        hole := child;
      }
      SettledDown(idx, buffer, heap, hole);
    }

    method PopPending() returns (top: Cursor)
      requires IsHeap(idx, buffer, heap) && heap != []
      modifies this`heap
      ensures IsHeap(idx, buffer, heap) && top == old(heap[0])
      ensures multiset(heap) == old(multiset(heap)) - multiset{top}
    {
      var last := heap[|heap| - 1];
      assert heap == heap[..|heap| - 1] + [last];
      ghost var h := heap[..|heap| - 1];
      forall k | 0 < k < |h| ensures Ordered(idx, buffer, h, k) {
        assert Ordered(idx, buffer, heap, k);
      }
      heap := heap[..|heap| - 1];
      if |heap| > 0 {
        top := ReplacePending(last);
      } else {
        top := last;
      }
    }

    method RequestFill(i: nat) returns (filled: bool)
      requires i < |sources| == |finished| == |buffer|
      modifies this`sources, this`finished, this`buffer
      ensures filled <==> !old(finished[i]) && old(sources[i]) != []
      ensures filled ==> && buffer == old(buffer)[i := Some(old(sources[i][0]))]
                         && sources == old(sources)[i := old(sources[i][1..])] && finished == old(finished)
      ensures !filled ==> buffer == old(buffer) && sources == old(sources) && finished == old(finished)[i := true]
    {
      if !finished[i] {
        if sources[i] != [] {
          buffer := buffer[i := Some(sources[i][0])];
          sources := sources[i := sources[i][1..]];
          return true;
        } else {
          finished := finished[i := true];
        }
      }
      filled := false;
      assert finished[i];
    }

    /** The first visible row at or after the scan start. */
    method NextVisible(i: nat, last: Option<nat>) returns (next: Option<nat>)
      requires i < |buffer| && buffer[i].Some? && buffer[i].value.Valid()
      ensures var from := if last.Some? then last.value + 1 else 0;
              var c := buffer[i].value;
              && (next.Some? ==> from <= next.value && c.Visible(next.value) && c.From(next.value) == c.From(from))
              && (next.None? ==> c.From(from) == [])
    {
      var from := if last.Some? then last.value + 1 else 0;
      var c := buffer[i].value;
      match c.visibility {
        case Some(bits) =>
          var k := from;
          while k < |bits|
            invariant from <= k && (from <= |bits| ==> k <= |bits|)
            invariant c.From(k) == c.From(from)
          {
            if bits[k] {
              return Some(k);
            }
            k := k + 1;
          }
          next := None;
        case None =>
          next := if from >= |c.rows| then None else Some(from);
      }
    }

    /** One round of the refill loop. */
    method FillOne(i: nat)
      requires Valid() && i < |sources|
      modifies this
      ensures Valid() && Left() == old(Left()) && |sources| == old(|sources|)
      ensures buffer[i].None? ==> Left()[i] == []
      ensures forall j :: 0 <= j < |buffer| && j != i ==> buffer[j] == old(buffer[j])
    {
      if buffer[i].None? {
        ghost var before := heap;
        var filled := RequestFill(i);
        if filled {
          HeapAfterBufferChange(idx, old(buffer), heap, pos, i, buffer[i]);
          ValidChunkHasVisible(buffer[i].value);
          var next := NextVisible(i, None);
          AddPending((i, next.value));
          LeftAfterFill(old(sources), old(buffer), pos, i, next.value);
          CursorsAfterFill(old(buffer), before, pos, i, buffer[i].value, next.value, heap);
          pos := pos[i := next.value];
        }
      }
    }

    method Advance(c: Cursor, n: nat)
      requires Valid() && heap != [] && c == heap[0] && Points(buffer, (c.0, n))
      modifies this`heap, this`pos
      ensures Valid() && heap != [] && pos == old(pos)[c.0 := n]
    {
      ghost var before := heap;
      var top := ReplacePending((c.0, n));
      HoldsReplace(before, pos, heap, c, n);
      pos := pos[c.0 := n];
      InHeapIff(heap, pos, (c.0, n));
    }

    method Retire(c: Cursor)
      requires Valid() && heap != [] && c == heap[0]
      modifies this`heap, this`pos
      ensures ValidExcept(c.0) && pos == old(pos) - {c.0}
    {
      ghost var before := heap;
      var top := PopPending();
      HoldsRemove(before, pos, heap, c);
      pos := pos - {c.0};
    }

    /** One round of the merge loop: take the root and put the next visible row of its child in its place,
        or take it out when the chunk has no more. */
    method TakeRoot() returns (c: Cursor, more: bool)
      requires Valid() && heap != []
      modifies this`heap, this`pos
      ensures Points(buffer, c) && c.0 < |sources|
      ensures ValidExcept(if more then -1 else c.0) && (more ==> heap != [])
      ensures old(Left()[c.0]) != [] && old(Left()[c.0])[0] == RowAt(buffer, c)
      ensures Left() == old(Left())[c.0 := old(Left()[c.0])[1..]]
      ensures LeastCursor(idx, buffer, old(Left()), c.0)
    {
      hide IsHeap, CursorsOk, AllLeft, LeastCursor;
      c := heap[0];
      RootPoints(idx, sources, buffer, heap, pos);
      RootBeatsHeads(idx, sources, buffer, heap, pos);
      var next := NextVisible(c.0, Some(c.1));
      LeftAfterTake(sources, buffer, pos, c.0, next);
      if next.Some? {
        Advance(c, next.value);
        more := true;
      } else {
        Retire(c);
        more := false;
      }
    }

    method DropBuffer(i: nat)
      requires ValidExcept(i) && i < |buffer|
      modifies this`buffer
      ensures Valid() && Left() == old(Left()) && |buffer| == old(|buffer|)
    {
      HeapAfterBufferChange(idx, buffer, heap, pos, i, None);
      buffer := buffer[i := None];
      assert forall j :: 0 <= j < |sources| ==>
        LeftOf(sources, buffer, pos, j) == LeftOf(sources, old(buffer), pos, j);
    }

    method FillAll()
      requires Valid()
      modifies this
      ensures Valid() && Left() == old(Left()) && |sources| == old(|sources|)
      ensures AllBuffered(buffer, Left())
    {
      for i := 0 to |sources|
        invariant Valid() && Left() == old(Left()) && |sources| == old(|sources|)
        invariant forall j :: 0 <= j < i && buffer[j].None? ==> Left()[j] == []
      {
        FillOne(i);
      }
    }

    /** The merge loop of a batch: stops at the expected size or when a chunk is used up. */
    method PickRows(expected: Option<nat>) returns (pickFrom: seq<Cursor>, reset: Option<nat>, ghost picks: seq<nat>)
      requires Valid() && heap != [] && (expected.Some? ==> expected.value > 0)
      requires AllBuffered(buffer, Left())
      modifies this`heap, this`pos
      ensures pickFrom != [] && (expected.Some? ==> |pickFrom| <= expected.value)
      ensures reset.Some? ==> reset.value < |buffer|
      ensures ValidExcept(if reset.Some? then reset.value else -1)
      ensures PicksOk(idx, buffer, old(Left()), picks, pickFrom, Left())
    {
      pickFrom, reset, picks := [], None, [];
      ghost var left := Left();
      while reset.None? && (expected.None? || |pickFrom| < expected.value)
        invariant reset.Some? ==> reset.value < |buffer| && pickFrom != []
        invariant ValidExcept(if reset.Some? then reset.value else -1)
        invariant reset.None? ==> heap != []
        invariant expected.Some? ==> |pickFrom| <= expected.value
        invariant PicksOk(idx, buffer, left, picks, pickFrom, Left())
        decreases |Flatten(Left())|
      {
        ghost var now := Left();
        var c, more := TakeRoot();
        GreedySnoc(idx, buffer, left, picks, pickFrom, now, c, Left());
        picks := picks + [c.0];
        pickFrom := pickFrom + [c];
        if !more {
          reset := Some(c.0);
        }
      }
    }

    /** Fetches a batch: at most `expected` rows, stopping early when a child's chunk is used up. */
    method NextBatch(expected: Option<nat>) returns (batch: Option<seq<Row>>, ghost picks: seq<nat>)
      requires Valid() && (expected.Some? ==> expected.value > 0)
      modifies this
      ensures Valid() && |sources| == old(|sources|)
      ensures batch.None? ==> Left() == old(Left()) && forall i :: 0 <= i < |sources| ==> Left()[i] == []
      ensures batch.Some? ==>
                && batch.value != [] && (expected.Some? ==> |batch.value| <= expected.value)
                && Greedy(idx, old(Left()), picks, batch.value, Left())
    {
      FillAll();
      if |heap| == 0 {
        forall i | 0 <= i < |sources| ensures buffer[i].None? {
          if buffer[i].Some? { InHeapIff(heap, pos, (i, pos[i])); }
        }
        return None, [];
      }
      var pickFrom, reset;
      pickFrom, reset, picks := PickRows(expected);
      batch := Some(Picked(buffer, pickFrom));
      if reset.Some? {
        DropBuffer(reset.value);
      }
    }

    /** Reads the iterator to its end with any sequence of positive batch sizes. */
    method Drain(sizes: nat -> Option<nat>) returns (batches: seq<seq<Row>>, ghost picks: seq<nat>)
      requires Valid() && forall n :: sizes(n).Some? ==> sizes(n).value > 0
      modifies this
      ensures IsMerge(idx, old(Left()), picks, Flatten(batches))
      ensures |idx| == 1 && (forall i :: 0 <= i < |old(Left())| ==> AscendingInts(idx[0], old(Left())[i])) ==>
                AscendingInts(idx[0], Flatten(batches))
    {
      hide IsMerge, AscendingInts;
      batches, picks := [], [];
      ghost var left := Left();
      var n := 0;
      while true
        invariant Valid() && Greedy(idx, left, picks, Flatten(batches), Left())
        decreases |Flatten(Left())|
      {
        ghost var now := Left();
        var batch, p := NextBatch(sizes(n));
        if batch.None? {
          GreedyToTheEnd(idx, left, picks, Flatten(batches), now);
          MergesInts(idx, left, picks, Flatten(batches));
          return;
        }
        GreedyConcat(idx, left, picks, Flatten(batches), now, p, batch.value, Left());
        FlattenSnoc(batches, batch.value);
        GreedyKeepsBag(idx, now, p, batch.value, Left());
        assert |multiset(Flatten(Left()))| < |multiset(Flatten(now))|;
        batches, picks, n := batches + [batch.value], picks + p, n + 1;
      }
    }
  }
}
