/** What a k-way merge is, independently of how it is computed. */
module Merges {
  import opened Common
  import opened Orders

  type Key = seq<Value>

  /** The key columns of a row. */
  function KeyOf(row: Row, idx: seq<nat>): Key {
    seq(|idx|, i requires 0 <= i < |idx| => if idx[i] < |row| then row[idx[i]] else Null)
  }

  predicate RowLe(idx: seq<nat>, a: Row, b: Row) {
    Le(KeyOf(a, idx), KeyOf(b, idx))
  }

  predicate Sorted(idx: seq<nat>, rows: seq<Row>) {
    forall i, j :: 0 <= i < j < |rows| ==> RowLe(idx, rows[i], rows[j])
  }

  /** The rows have integers in this column, and these do not descend. */
  predicate AscendingInts(c: nat, rows: seq<Row>) {
    && (forall i :: 0 <= i < |rows| ==> c < |rows[i]| && rows[i][c].Int?)
    && (forall i, j :: 0 <= i < j < |rows| ==> rows[i][c].i <= rows[j][c].i)
  }

  /** Earlier rows of a sorted list have the same key, or the lower value in the first key column that differs. */
  lemma {:induction false} SortedReads(idx: seq<nat>, rows: seq<Row>, i: nat, j: nat)
    requires Sorted(idx, rows) && i < j < |rows|
    ensures var a, b := KeyOf(rows[i], idx), KeyOf(rows[j], idx);
            a == b || exists m :: DifferAt(a, b, m) && Below(a[m], b[m])
  {
    var a, b := KeyOf(rows[i], idx), KeyOf(rows[j], idx);
    assert RowLe(idx, rows[i], rows[j]);
    CmpEqual(a, b);
    CmpReads(a, b);
  }

  lemma {:induction false} IntKeysCompare(c: nat, a: Row, b: Row)
    requires c < |a| && c < |b| && a[c].Int? && b[c].Int?
    ensures RowLe([c], a, b) <==> a[c].i <= b[c].i
  {
    assert KeyOf(a, [c]) == [a[c]] && KeyOf(b, [c]) == [b[c]];
    if a[c] == b[c] {
      CmpEqual([a[c]], [b[c]]);
    } else {
      CmpAt([a[c]], [b[c]], 0);
      CmpValueReads(a[c], b[c]);
    }
  }

  /** Merging lists of rows that ascend in an integer column, with that column as the key, gives such a list. */
  lemma {:induction false} MergeOfInts(c: nat, inputs: seq<seq<Row>>, picks: seq<nat>, out: seq<Row>)
    requires IsMerge([c], inputs, picks, out) && forall i :: 0 <= i < |inputs| ==> AscendingInts(c, inputs[i])
    ensures AscendingInts(c, out)
  {
    hide RowLe;
    forall i | 0 <= i < |inputs| ensures Sorted([c], inputs[i]) {
      forall x, y | 0 <= x < y < |inputs[i]| ensures RowLe([c], inputs[i][x], inputs[i][y]) {
        IntKeysCompare(c, inputs[i][x], inputs[i][y]);
      }
    }
    forall i | 0 <= i < |out| ensures c < |out[i]| && out[i][c].Int? {
      assert out[i] in multiset(Flatten(inputs));
      var k := InOne(inputs, out[i]);
    }
    forall i, j | 0 <= i < j < |out| ensures out[i][c].i <= out[j][c].i {
      assert RowLe([c], out[i], out[j]);
      IntKeysCompare(c, out[i], out[j]);
    }
  }

  /** The same for any key of one column. */
  lemma {:induction false} MergesInts(idx: seq<nat>, inputs: seq<seq<Row>>, picks: seq<nat>, out: seq<Row>)
    requires IsMerge(idx, inputs, picks, out)
    ensures |idx| == 1 && (forall i :: 0 <= i < |inputs| ==> AscendingInts(idx[0], inputs[i])) ==>
              AscendingInts(idx[0], out)
  {
    hide IsMerge, AscendingInts;
    if |idx| == 1 && forall i :: 0 <= i < |inputs| ==> AscendingInts(idx[0], inputs[i]) {
      assert idx == [idx[0]];
      MergeOfInts(idx[0], inputs, picks, out);
    }
  }

  lemma {:induction false} InOne(inputs: seq<seq<Row>>, r: Row) returns (k: nat)
    requires r in Flatten(inputs)
    ensures k < |inputs| && r in inputs[k]
  {
    if r in inputs[0] {
      k := 0;
    } else {
      var n := InOne(inputs[1..], r);
      k := n + 1;
    }
  }

  /** Row `i`'s head is no greater than the head of any other input. */
  predicate LeastHead(idx: seq<nat>, inputs: seq<seq<Row>>, i: nat) {
    && i < |inputs| && inputs[i] != []
    && forall j :: 0 <= j < |inputs| && inputs[j] != [] ==> RowLe(idx, inputs[i][0], inputs[j][0])
  }

  /** Taking the head of input `picks[0]`, then of `picks[1]`, ..., each time a least head, turns `inputs`
      into `rest` and puts out `out`. */
  predicate Greedy(idx: seq<nat>, inputs: seq<seq<Row>>, picks: seq<nat>, out: seq<Row>, rest: seq<seq<Row>>)
    decreases |picks|
  {
    && |picks| == |out|
    && if picks == [] then rest == inputs
       else
         && LeastHead(idx, inputs, picks[0])
         && out[0] == inputs[picks[0]][0]
         && Greedy(idx, inputs[picks[0] := inputs[picks[0]][1..]], picks[1..], out[1..], rest)
  }

  lemma {:induction false} GreedyConcat(idx: seq<nat>, a: seq<seq<Row>>, p: seq<nat>, x: seq<Row>, b: seq<seq<Row>>,
                                        q: seq<nat>, y: seq<Row>, c: seq<seq<Row>>)
    requires Greedy(idx, a, p, x, b) && Greedy(idx, b, q, y, c)
    ensures Greedy(idx, a, p + q, x + y, c)
    decreases |p|
  {
    if p == [] {
      assert p + q == q && x + y == y;
    } else {
      assert (p + q)[1..] == p[1..] + q && (x + y)[1..] == x[1..] + y;
      GreedyConcat(idx, a[p[0] := a[p[0]][1..]], p[1..], x[1..], b, q, y, c);
    }
  }

  lemma {:induction false} GreedyOne(idx: seq<nat>, a: seq<seq<Row>>, i: nat)
    requires LeastHead(idx, a, i)
    ensures Greedy(idx, a, [i], [a[i][0]], a[i := a[i][1..]])
  {
    var b := a[i := a[i][1..]];
    assert Greedy(idx, b, [i][1..], [a[i][0]][1..], b);
  }

  /** The rows of `out` that came from input `i`, in order. */
  function From(picks: seq<nat>, out: seq<Row>, i: nat): seq<Row>
    requires |picks| == |out|
  {
    if out == [] then [] else (if picks[0] == i then [out[0]] else []) + From(picks[1..], out[1..], i)
  }

  /** A greedy run takes from each input a prefix, in that input's own order. */
  lemma {:induction false} GreedyKeepsOrder(idx: seq<nat>, inputs: seq<seq<Row>>, picks: seq<nat>, out: seq<Row>,
                                            rest: seq<seq<Row>>, i: nat)
    requires Greedy(idx, inputs, picks, out, rest) && i < |inputs|
    ensures |rest| == |inputs| && inputs[i] == From(picks, out, i) + rest[i]
    decreases |picks|
  {
    if picks != [] {
      var k := picks[0];
      GreedyKeepsOrder(idx, inputs[k := inputs[k][1..]], picks[1..], out[1..], rest, i);
      if k == i {
        assert inputs[i] == [inputs[i][0]] + inputs[i][1..];
      }
    }
  }

  /** No row is lost, invented or duplicated. */
  lemma {:induction false} GreedyKeepsBag(idx: seq<nat>, inputs: seq<seq<Row>>, picks: seq<nat>, out: seq<Row>,
                                          rest: seq<seq<Row>>)
    requires Greedy(idx, inputs, picks, out, rest)
    ensures multiset(Flatten(inputs)) == multiset(out) + multiset(Flatten(rest))
    decreases |picks|
  {
    if picks != [] {
      var k := picks[0];
      GreedyKeepsBag(idx, inputs[k := inputs[k][1..]], picks[1..], out[1..], rest);
      FlattenTakeHead(inputs, k);
      assert out == [out[0]] + out[1..];
    }
  }

  lemma {:induction false} FlattenTakeHead(inputs: seq<seq<Row>>, k: nat)
    requires k < |inputs| && inputs[k] != []
    ensures multiset(Flatten(inputs)) == multiset{inputs[k][0]} + multiset(Flatten(inputs[k := inputs[k][1..]]))
    decreases k
  {
    var less := inputs[k := inputs[k][1..]];
    if k == 0 {
      assert inputs[0] == [inputs[0][0]] + inputs[0][1..];
      assert less[1..] == inputs[1..];
    } else {
      assert less[1..] == inputs[1..][k - 1 := inputs[1..][k - 1][1..]];
      FlattenTakeHead(inputs[1..], k - 1);
    }
  }

  /** Every row of every input is at least the head of a least input. */
  lemma {:induction false} LeastHeadIsLeast(idx: seq<nat>, inputs: seq<seq<Row>>, i: nat, j: nat, r: nat)
    requires LeastHead(idx, inputs, i) && j < |inputs| && r < |inputs[j]| && Sorted(idx, inputs[j])
    ensures RowLe(idx, inputs[i][0], inputs[j][r])
  {
    if r > 0 {
      LeTransitive(KeyOf(inputs[i][0], idx), KeyOf(inputs[j][0], idx), KeyOf(inputs[j][r], idx));
    }
  }

  /** Greedy runs over sorted inputs put out a sorted sequence, all of it below what is left. */
  lemma {:induction false} GreedySorts(idx: seq<nat>, inputs: seq<seq<Row>>, picks: seq<nat>, out: seq<Row>,
                                       rest: seq<seq<Row>>)
    requires Greedy(idx, inputs, picks, out, rest)
    requires forall i :: 0 <= i < |inputs| ==> Sorted(idx, inputs[i])
    ensures Sorted(idx, out)
    ensures forall row, n :: 0 <= n < |out| && row in Flatten(rest) ==> RowLe(idx, out[n], row)
    ensures forall i :: 0 <= i < |rest| ==> Sorted(idx, rest[i])
    decreases |picks|
  {
    if picks != [] {
      var k := picks[0];
      var less := inputs[k := inputs[k][1..]];
      GreedySorts(idx, less, picks[1..], out[1..], rest);
      GreedyKeepsBag(idx, less, picks[1..], out[1..], rest);
      forall row | row in Flatten(less) ensures RowLe(idx, out[0], row) {
        InFlatten(less, row);
        var j, r :| 0 <= j < |less| && 0 <= r < |less[j]| && less[j][r] == row;
        LeastHeadIsLeast(idx, inputs, k, j, if j == k then r + 1 else r);
      }
      forall n | 0 < n < |out| ensures RowLe(idx, out[0], out[n]) {
        assert out[n] in multiset(out[1..]);
        assert out[n] in multiset(Flatten(less));
      }
      forall row | row in Flatten(rest) ensures RowLe(idx, out[0], row) {
        assert row in multiset(Flatten(less));
      }
      assert forall n :: 0 < n < |out| ==> out[n] == out[1..][n - 1];
    }
  }

  lemma {:induction false} InFlatten(ss: seq<seq<Row>>, x: Row)
    requires x in Flatten(ss)
    ensures exists i, j :: 0 <= i < |ss| && 0 <= j < |ss[i]| && ss[i][j] == x
    decreases |ss|
  {
    if x in ss[0] {
      var j :| 0 <= j < |ss[0]| && ss[0][j] == x;
    } else {
      InFlatten(ss[1..], x);
      var i, j :| 0 <= i < |ss[1..]| && 0 <= j < |ss[1..][i]| && ss[1..][i][j] == x;
      assert ss[i + 1][j] == x;
    }
  }

  lemma {:induction false} FlattenEmpties(ss: seq<seq<Row>>)
    requires forall i :: 0 <= i < |ss| ==> ss[i] == []
    ensures Flatten(ss) == []
    decreases |ss|
  {
    if ss != [] {
      FlattenEmpties(ss[1..]);
    }
  }

  /** `out` is a merge of the inputs: exactly their rows, each input's rows in its own order, and sorted
      when the inputs are.  Equal keys of different inputs come in any order. */
  ghost predicate IsMerge(idx: seq<nat>, inputs: seq<seq<Row>>, picks: seq<nat>, out: seq<Row>) {
    && |picks| == |out|
    && (forall i :: 0 <= i < |inputs| ==> From(picks, out, i) == inputs[i])
    && multiset(out) == multiset(Flatten(inputs))
    && ((forall i :: 0 <= i < |inputs| ==> Sorted(idx, inputs[i])) ==> Sorted(idx, out))
  }

  lemma {:induction false} GreedyToTheEnd(idx: seq<nat>, inputs: seq<seq<Row>>, picks: seq<nat>, out: seq<Row>,
                                          rest: seq<seq<Row>>)
    requires Greedy(idx, inputs, picks, out, rest)
    requires forall i :: 0 <= i < |rest| ==> rest[i] == []
    ensures IsMerge(idx, inputs, picks, out)
  {
    forall i | 0 <= i < |inputs| ensures From(picks, out, i) == inputs[i] {
      GreedyKeepsOrder(idx, inputs, picks, out, rest, i);
    }
    GreedyKeepsBag(idx, inputs, picks, out, rest);
    FlattenEmpties(rest);
    if forall i :: 0 <= i < |inputs| ==> Sorted(idx, inputs[i]) {
      GreedySorts(idx, inputs, picks, out, rest);
    }
  }
}
