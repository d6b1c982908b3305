/** Run-length encoding as functions: the runs of a list of items, and the list of a
    list of runs. */
module Runs {
  import opened Common
  import opened Bytes
  import opened Varints
  import opened Blocks

  const MAX_COUNT: nat := 0xFFFF_FFFF

  function Total(counts: seq<nat>): nat {
    if counts == [] then 0 else counts[0] + Total(counts[1..])
  }

  function Expand<T>(counts: seq<nat>, heads: seq<T>): (r: seq<T>)
    requires |counts| == |heads|
    ensures |r| == Total(counts)
  {
    if counts == [] then [] else Repeat(heads[0], counts[0]) + Expand(counts[1..], heads[1..])
  }

  /** The lengths of the runs; a run is cut when its length reaches the largest count. */
  function RunCounts<T(==)>(items: seq<T>): (r: seq<nat>)
    ensures items == [] <==> r == []
  {
    if |items| <= 1 then Repeat(1, |items|)
    else
      var n := |items| - 1;
      var before := RunCounts(items[..n]);
      var m := |before| - 1;
      if items[n] != items[n - 1] || before[m] == MAX_COUNT then before + [1]
      else before[..m] + [before[m] + 1]
  }

  /** The item each run repeats. */
  function RunHeads<T(==)>(items: seq<T>): (r: seq<T>)
    ensures |r| == |RunCounts(items)|
    ensures r != [] ==> r[|r| - 1] == items[|items| - 1]
  {
    if |items| <= 1 then items
    else
      var n := |items| - 1;
      var counts := RunCounts(items[..n]);
      if items[n] != items[n - 1] || counts[|counts| - 1] == MAX_COUNT then RunHeads(items[..n]) + [items[n]]
      else RunHeads(items[..n])
  }

  /** What one more item does to the runs. */
  lemma {:induction false} RunsSnoc<T>(items: seq<T>, x: T, counts: seq<nat>, last: nat)
    requires items != [] && RunCounts(items) == counts + [last]
    ensures var cut := x != items[|items| - 1] || last == MAX_COUNT;
            && RunCounts(items + [x]) == (if cut then counts + [last] + [1] else counts + [last + 1])
            && RunHeads(items + [x]) == (if cut then RunHeads(items) + [x] else RunHeads(items))
  {
    var all := items + [x];
    assert all[..|items|] == items;
    assert (counts + [last])[..|counts|] == counts;
  }

  lemma {:induction false} TotalSnoc(counts: seq<nat>, c: nat)
    ensures Total(counts + [c]) == Total(counts) + c
  {
    if counts == [] {
      assert Total([c]) == c + Total([]);
    } else {
      assert (counts + [c])[1..] == counts[1..] + [c];
      TotalSnoc(counts[1..], c);
    }
  }

  lemma {:induction false} TotalUpTo(counts: seq<nat>, k: nat)
    requires k < |counts|
    ensures Total(counts[..k + 1]) == Total(counts[..k]) + counts[k]
    ensures Total(counts[..k + 1]) <= Total(counts)
  {
    assert counts[..k + 1] == counts[..k] + [counts[k]];
    TotalSnoc(counts[..k], counts[k]);
    TotalPrefix(counts, k + 1);
  }

  lemma {:induction false} TotalPrefix(counts: seq<nat>, k: nat)
    requires k <= |counts|
    ensures Total(counts[..k]) <= Total(counts)
  {
    if k > 0 {
      assert counts[..k][1..] == counts[1..][..k - 1];
      TotalPrefix(counts[1..], k - 1);
    }
  }

  lemma {:induction false} ExpandSnoc<T>(counts: seq<nat>, heads: seq<T>, c: nat, h: T)
    requires |counts| == |heads|
    ensures Expand(counts + [c], heads + [h]) == Expand(counts, heads) + Repeat(h, c)
  {
    if counts == [] {
      assert Expand([c], [h]) == Repeat(h, c) + Expand<T>([], []);
    } else {
      assert (counts + [c])[1..] == counts[1..] + [c] && (heads + [h])[1..] == heads[1..] + [h];
      ExpandSnoc(counts[1..], heads[1..], c, h);
    }
  }

  /** Row `j` of run `k` is that run's head. */
  lemma {:induction false} ExpandAt<T>(counts: seq<nat>, heads: seq<T>, k: nat, j: nat)
    requires |counts| == |heads| && k < |counts| && j < counts[k]
    ensures Total(counts[..k]) + j < Total(counts)
    ensures Expand(counts, heads)[Total(counts[..k]) + j] == heads[k]
  {
    TotalUpTo(counts, k);
    if k > 0 {
      assert counts[..k][1..] == counts[1..][..k - 1];
      ExpandAt(counts[1..], heads[1..], k - 1, j);
    }
  }

  /** Expanding the runs gives the items back. */
  lemma {:induction false} RunsExpand<T>(items: seq<T>)
    ensures Expand(RunCounts(items), RunHeads(items)) == items
  {
    if |items| == 1 {
      assert Expand([1], items) == Repeat(items[0], 1) + Expand<T>([], []);
      assert items == [items[0]];
    } else if |items| > 1 {
      var n := |items| - 1;
      RunsExpand(items[..n]);
      ExpandStep(items[..n], items[n]);
      assert items == items[..n] + [items[n]];
    }
  }

  lemma {:induction false} ExpandStep<T>(items: seq<T>, x: T)
    requires items != [] && Expand(RunCounts(items), RunHeads(items)) == items
    ensures Expand(RunCounts(items + [x]), RunHeads(items + [x])) == items + [x]
  {
    var counts, heads := RunCounts(items), RunHeads(items);
    var m := |counts| - 1;
    assert counts == counts[..m] + [counts[m]];
    RunsSnoc(items, x, counts[..m], counts[m]);
    if x != items[|items| - 1] || counts[m] == MAX_COUNT {
      ExpandSnoc(counts, heads, 1, x);
      assert Repeat(x, 1) == [x];
    } else {
      GrowLast(counts, heads);
    }
  }

  lemma {:induction false} GrowLast<T>(counts: seq<nat>, heads: seq<T>)
    requires |counts| == |heads| > 0
    ensures var m := |counts| - 1;
            Expand(counts[..m] + [counts[m] + 1], heads) == Expand(counts, heads) + [heads[m]]
  {
    var m := |counts| - 1;
    assert heads == heads[..m] + [heads[m]] && counts == counts[..m] + [counts[m]];
    ExpandSnoc(counts[..m], heads[..m], counts[m] + 1, heads[m]);
    ExpandSnoc(counts[..m], heads[..m], counts[m], heads[m]);
    RepeatSnoc(heads[m], counts[m]);
  }

  /** Every run is non-empty and fits 32 bits, and only a full run is followed by its
      own head again. */
  ghost predicate Tight<T(!new)>(counts: seq<nat>, heads: seq<T>) {
    && |counts| == |heads|
    && (forall k :: 0 <= k < |counts| ==> 1 <= counts[k] <= MAX_COUNT)
    && (forall k {:trigger heads[k]} :: 0 <= k < |heads| - 1 && counts[k] < MAX_COUNT ==> heads[k] != heads[k + 1])
  }

  lemma {:induction false} TightSnoc<T(!new)>(counts: seq<nat>, heads: seq<T>, x: T)
    requires Tight(counts, heads) && counts != []
    requires x != heads[|heads| - 1] || counts[|counts| - 1] == MAX_COUNT
    ensures Tight(counts + [1], heads + [x])
  {}

  lemma {:induction false} TightGrow<T(!new)>(counts: seq<nat>, last: nat, heads: seq<T>)
    requires Tight(counts + [last], heads) && last < MAX_COUNT
    ensures Tight(counts + [last + 1], heads)
  {
    var was, now := counts + [last], counts + [last + 1];
    assert forall k :: 0 <= k < |counts| ==> was[k] == now[k];
  }

  lemma {:induction false} RunsTight<T(!new)>(items: seq<T>)
    ensures Tight(RunCounts(items), RunHeads(items))
  {
    if |items| > 1 {
      var n := |items| - 1;
      RunsTight(items[..n]);
      TightStep(items[..n], items[n]);
      assert items == items[..n] + [items[n]];
    }
  }

  lemma {:induction false} TightStep<T(!new)>(items: seq<T>, x: T)
    requires items != [] && Tight(RunCounts(items), RunHeads(items))
    ensures Tight(RunCounts(items + [x]), RunHeads(items + [x]))
  {
    var counts := RunCounts(items);
    var m := |counts| - 1;
    assert counts == counts[..m] + [counts[m]];
    RunsSnoc(items, x, counts[..m], counts[m]);
    if x != items[|items| - 1] || counts[m] == MAX_COUNT {
      TightSnoc(counts, RunHeads(items), x);
    } else {
      TightGrow(counts[..m], counts[m], RunHeads(items));
    }
  }

  /** Somewhere `LIMIT` consecutive items are the same. */
  ghost predicate HasLongRun<T(!new)>(items: seq<T>) {
    exists i: nat :: LongRunAt(items, i)
  }

  ghost predicate LongRunAt<T(!new)>(items: seq<T>, i: nat) {
    i + LIMIT <= |items| && forall j :: i <= j < i + LIMIT ==> items[j] == items[i]
  }

  /** The run of row `p`. */
  lemma {:induction false} FindRun(counts: seq<nat>, p: nat) returns (k: nat)
    requires p < Total(counts)
    ensures k < |counts| && Total(counts[..k]) <= p < Total(counts[..k]) + counts[k]
  {
    if p < counts[0] {
      k := 0;
    } else {
      var m := FindRun(counts[1..], p - counts[0]);
      k := m + 1;
      assert counts[..k][1..] == counts[1..][..m];
    }
  }

  /** Some run is too long for the varint decoder if and only if the items repeat one
      value that many times in a row. */
  lemma {:induction false} LongRunIff<T(!new)>(items: seq<T>)
    ensures AllBelow(RunCounts(items), LIMIT) <==> !HasLongRun(items)
  {
    var counts, heads := RunCounts(items), RunHeads(items);
    RunsExpand(items);
    RunsTight(items);
    if !AllBelow(counts, LIMIT) {
      var k :| 0 <= k < |counts| && counts[k] >= LIMIT;
      LongRunFrom(counts, heads, k);
    } else {
      forall i: nat | i + LIMIT <= |items| ensures !LongRunAt(items, i) {
        var j := ShortRunsChange(counts, heads, i);
      }
    }
  }

  lemma {:induction false} LongRunFrom<T(!new)>(counts: seq<nat>, heads: seq<T>, k: nat)
    requires |counts| == |heads| && k < |counts| && counts[k] >= LIMIT
    ensures LongRunAt(Expand(counts, heads), Total(counts[..k]))
  {
    var i := Total(counts[..k]);
    TotalUpTo(counts, k);
    forall j | i <= j < i + LIMIT ensures Expand(counts, heads)[j] == heads[k] {
      ExpandAt(counts, heads, k, j - i);
    }
  }

  lemma {:induction false} ShortRunsChange<T(!new)>(counts: seq<nat>, heads: seq<T>, i: nat) returns (j: nat)
    requires Tight(counts, heads) && AllBelow(counts, LIMIT) && i + LIMIT <= Total(counts)
    ensures i <= j < i + LIMIT && Expand(counts, heads)[j] != Expand(counts, heads)[i]
  {
    hide Expand, Total;
    var k := FindRun(counts, i);
    j := Total(counts[..k + 1]);
    TotalUpTo(counts, k);
    ExpandAt(counts, heads, k, i - Total(counts[..k]));
    assert counts[..|counts|] == counts;
    ExpandAt(counts, heads, k + 1, 0);
    assert heads[k] != heads[k + 1];
  }

  // ---- the bytes ----

  /** A run-length block: number of runs, length of the counts, the counts, the heads. */
  function RleBlockOf<T(==)>(l: Layout<T>, nullable: bool, items: seq<Option<T>>): seq<Byte> {
    if items == [] then []
    else
      var counts := EncodeAll(RunCounts(items));
      PutU32(|RunCounts(items)|) + PutU32(|counts|) + counts + BlockOf(l, nullable, RunHeads(items))
  }

  /** `decode_rle_block`: the number of runs, the encoded counts and the inner block.
      `None` where slicing the block would fail. */
  function DecodeRle(data: seq<Byte>): (r: Option<(nat, seq<Byte>, seq<Byte>)>) {
    if |data| < 8 then None
    else
      var end := 8 + FromLittleEndian(data[4..8]);
      if end > |data| then None
      else Some((FromLittleEndian(data[..4]), data[8..end], data[end..]))
  }

  lemma {:induction false} EncodedAtLeast(vs: seq<nat>)
    ensures |vs| <= |EncodeAll(vs)|
  {
    if vs != [] {
      EncodedAtLeast(vs[1..]);
    }
  }

  lemma {:induction false} RleParts(n: nat, counts: seq<Byte>, inner: seq<Byte>)
    requires n < U32 && |counts| < U32
    ensures DecodeRle(PutU32(n) + PutU32(|counts|) + counts + inner) == Some((n, counts, inner))
  {
    var data := PutU32(n) + PutU32(|counts|) + counts + inner;
    PutU32RoundTrip(n);
    PutU32RoundTrip(|counts|);
    assert data[..4] == PutU32(n) && data[4..8] == PutU32(|counts|);
    assert data[8..8 + |counts|] == counts && data[8 + |counts|..] == inner;
  }
}
