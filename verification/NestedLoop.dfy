/** Nested-loop join over an arbitrary condition: the cross product is filtered chunk by
    chunk, and the filter bits tell which left rows found no partner. */
module NestedLoops {
  import opened Common
  import opened Bags
  import opened Chunks
  import opened JoinSpecs

  /** A join condition on a joined row: true, false, or null. */
  type Condition = Row -> Option<bool>

  predicate True(cond: Condition, row: Row) {
    cond(row) == Some(true)
  }

  function Bits(cond: Condition, rows: seq<Row>): (r: seq<Option<bool>>)
    ensures |r| == |rows|
  {
    seq(|rows|, i requires 0 <= i < |rows| => cond(rows[i]))
  }

  /** The rows on which the condition is true, in order. */
  function TrueRows(cond: Condition, rows: seq<Row>): seq<Row> {
    if rows == [] then []
    else
      var n := |rows| - 1;
      TrueRows(cond, rows[..n]) + (if True(cond, rows[n]) then [rows[n]] else [])
  }

  lemma {:induction false} TrueRowsSnoc(cond: Condition, rows: seq<Row>, row: Row)
    ensures TrueRows(cond, rows + [row]) == TrueRows(cond, rows) + (if True(cond, row) then [row] else [])
  {
    assert (rows + [row])[..|rows|] == rows;
  }

  lemma {:induction false} TrueRowsAppend(cond: Condition, a: seq<Row>, b: seq<Row>)
    ensures TrueRows(cond, a + b) == TrueRows(cond, a) + TrueRows(cond, b)
  {
    hide TrueRows;
    if b == [] {
      assert a + b == a;
      NoTrueRows(cond);
    } else {
      var n := |b| - 1;
      TrueRowsAppend(cond, a, b[..n]);
      TrueRowsSnoc(cond, a + b[..n], b[n]);
      TrueRowsSnoc(cond, b[..n], b[n]);
      assert a + b == a + b[..n] + [b[n]] && b == b[..n] + [b[n]];
    }
  }

  // ---- the cross product, right rows outermost ----

  function PairsWith(ls: seq<Row>, r: Row): (ps: seq<Row>)
    ensures |ps| == |ls|
  {
    seq(|ls|, i requires 0 <= i < |ls| => ls[i] + r)
  }

  function Cross(ls: seq<Row>, rs: seq<Row>): (c: seq<Row>)
    ensures |c| == |ls| * |rs|
  {
    if rs == [] then []
    else
      var n := |rs| - 1;
      assert |ls| * n + |ls| == |ls| * |rs|;
      Cross(ls, rs[..n]) + PairsWith(ls, rs[n])
  }

  lemma {:induction false} CrossSnoc(ls: seq<Row>, rs: seq<Row>, r: Row)
    ensures Cross(ls, rs + [r]) == Cross(ls, rs) + PairsWith(ls, r)
  {
    assert (rs + [r])[..|rs|] == rs;
  }

  lemma {:induction false} InBounds(n: nat, m: nat, i: nat, j: nat)
    requires i < n && j < m
    ensures i + n * j < n * m
  {
    assert n * (j + 1) <= n * m;
  }

  /** The pair of left row `i` and right row `j` is at `i + |ls| * j`. */
  lemma {:induction false} CrossAt(ls: seq<Row>, rs: seq<Row>, i: nat, j: nat)
    requires i < |ls| && j < |rs|
    ensures i + |ls| * j < |ls| * |rs|
    ensures Cross(ls, rs)[i + |ls| * j] == ls[i] + rs[j]
  {
    var n := |rs| - 1;
    InBounds(|ls|, |rs|, i, j);
    if j < n {
      CrossAt(ls, rs[..n], i, j);
      assert Cross(ls, rs)[i + |ls| * j] == Cross(ls, rs[..n])[i + |ls| * j];
    } else {
      assert |Cross(ls, rs[..n])| == |ls| * n;
    }
  }

  // ---- filtering while chunking ----

  /** The cross product so far: the chunks filtered, their bits, and the rows waiting. */
  class Matcher {
    const cond: Condition
    const builder: ChunkBuilder
    var chunks: seq<seq<Row>>
    var filter: seq<Option<bool>>
    ghost var flushed: seq<Row>

    constructor (cond: Condition)
      ensures Valid() && flushed == [] && builder.rows == [] && this.cond == cond && fresh(builder)
    {
      this.cond := cond;
      builder := new ChunkBuilder(WINDOW);
      chunks, filter, flushed := [], [], [];
    }

    ghost predicate Valid()
      reads this, builder
    {
      && builder.Valid() && builder.capacity == WINDOW
      && filter == Bits(cond, flushed)
      && Flatten(chunks) == TrueRows(cond, flushed)
    }

    ghost function Seen(): seq<Row>
      reads this, builder
    {
      flushed + builder.rows
    }

    method Flush(chunk: seq<Row>)
      requires Valid()
      modifies this
      ensures Valid() && flushed == old(flushed) + chunk
    {
      hide TrueRows, Flatten;
      var kept := FilterChunk(cond, chunk);
      TrueRowsAppend(cond, flushed, chunk);
      FlattenSnoc(chunks, kept);
      chunks := chunks + [kept];
      filter := filter + Bits(cond, chunk);
      flushed := flushed + chunk;
    }

    method Push(row: Row)
      requires Valid()
      modifies this, builder
      ensures Valid() && Seen() == old(Seen()) + [row]
    {
      hide TrueRows, Flatten, Bits;
      var chunk := builder.PushRow(row);
      if chunk.Some? {
        Flush(chunk.value);
      }
    }

    method Rest()
      requires Valid()
      modifies this, builder
      ensures Valid() && flushed == old(Seen()) && builder.rows == []
    {
      hide TrueRows, Flatten, Bits;
      var chunk := builder.Take();
      if chunk.Some? {
        Flush(chunk.value);
      }
    }
  }

  method FilterChunk(cond: Condition, chunk: seq<Row>) returns (kept: seq<Row>)
    ensures kept == TrueRows(cond, chunk)
  {
    kept := [];
    for i := 0 to |chunk|
      invariant kept == TrueRows(cond, chunk[..i])
    {
      assert chunk[..i + 1] == chunk[..i] + [chunk[i]];
      TrueRowsSnoc(cond, chunk[..i], chunk[i]);
      if True(cond, chunk[i]) {
        kept := kept + [chunk[i]];
      }
    }
    assert chunk[..|chunk|] == chunk;
  }

  method CrossRow(m: Matcher, ls: seq<Row>, r: Row)
    requires m.Valid()
    modifies m, m.builder
    ensures m.Valid() && m.Seen() == old(m.Seen()) + PairsWith(ls, r)
  {
    hide TrueRows, Flatten, Bits;
    ghost var before, ps := m.Seen(), PairsWith(ls, r);
    for i := 0 to |ls|
      invariant m.Valid() && m.Seen() == before + ps[0..i]
    {
      SliceSnoc(before, ps, 0, i);
      m.Push(ls[i] + r);
    }
    assert ps[0..|ls|] == ps;
  }

  method CrossChunk(m: Matcher, ls: seq<Row>, chunk: seq<Row>, ghost rs: seq<Row>)
    requires m.Valid() && m.Seen() == Cross(ls, rs)
    modifies m, m.builder
    ensures m.Valid() && m.Seen() == Cross(ls, rs + chunk)
  {
    hide TrueRows, Flatten, Bits, Cross;
    assert rs + chunk[0..0] == rs;
    for j := 0 to |chunk|
      invariant m.Valid() && m.Seen() == Cross(ls, rs + chunk[0..j])
    {
      SliceSnoc(rs, chunk, 0, j);
      CrossSnoc(ls, rs + chunk[0..j], chunk[j]);
      CrossRow(m, ls, chunk[j]);
    }
    assert chunk[0..|chunk|] == chunk;
  }

  /** The filtered cross product of both inputs. */
  method CrossAll(m: Matcher, ls: seq<Row>, right: seq<seq<Row>>) returns (rightRowNum: nat)
    requires m.Valid() && m.Seen() == []
    modifies m, m.builder
    ensures m.Valid() && m.flushed == Cross(ls, Flatten(right)) && m.builder.rows == []
    ensures rightRowNum == |Flatten(right)|
  {
    hide TrueRows, Bits;
    ghost var rs: seq<Row> := [];
    rightRowNum := 0;
    for c := 0 to |right|
      invariant rs == Flatten(right[..c]) && rightRowNum == |rs|
      invariant m.Valid() && m.Seen() == Cross(ls, rs)
    {
      CrossChunk(m, ls, right[c], rs);
      rightRowNum := rightRowNum + |right[c]|;
      rs := rs + right[c];
      assert right[..c + 1] == right[..c] + [right[c]];
      FlattenSnoc(right[..c], right[c]);
    }
    assert right[..|right|] == right;
    m.Rest();
  }

  // ---- left rows without a partner ----

  predicate Partnered(cond: Condition, l: Row, rs: seq<Row>) {
    exists j :: 0 <= j < |rs| && True(cond, l + rs[j])
  }

  function Unmatched(cond: Condition, ls: seq<Row>, rs: seq<Row>, rn: nat): seq<Row> {
    if ls == [] then []
    else
      var n := |ls| - 1;
      Unmatched(cond, ls[..n], rs, rn) + (if Partnered(cond, ls[n], rs) then [] else [ls[n] + Nulls(rn)])
  }

  lemma {:induction false} UnmatchedSnoc(cond: Condition, ls: seq<Row>, l: Row, rs: seq<Row>, rn: nat)
    ensures Unmatched(cond, ls + [l], rs, rn) ==
            Unmatched(cond, ls, rs, rn) + (if Partnered(cond, l, rs) then [] else [l + Nulls(rn)])
  {
    assert (ls + [l])[..|ls|] == ls;
  }

  /** Looks up the bits of left row `at`, one for each right row, `|ls|` apart. */
  method Matched(filter: seq<Option<bool>>, at: nat, n: nat, rightRowNum: nat,
                 ghost cond: Condition, ghost ls: seq<Row>, ghost rs: seq<Row>) returns (matched: bool)
    requires n == |ls| && rightRowNum == |rs| && at < n && filter == Bits(cond, Cross(ls, rs))
    ensures matched == Partnered(cond, ls[at], rs)
  {
    hide Cross, True;
    matched := false;
    var i := at;
    for j := 0 to rightRowNum
      invariant i == at + n * j
      invariant matched == exists k :: 0 <= k < j && True(cond, ls[at] + rs[k])
    {
      CrossAt(ls, rs, at, j);
      BitIs(cond, ls[at] + rs[j]);
      matched := matched || filter[i] == Some(true);
      i := i + n;
      assert n * (j + 1) == n * j + n;
    }
  }

  lemma {:induction false} BitIs(cond: Condition, row: Row)
    ensures True(cond, row) <==> cond(row) == Some(true)
  {}

  method PushUnmatched(o: Output, filter: seq<Option<bool>>, ls: seq<Row>, rightRowNum: nat, rn: nat,
                       ghost cond: Condition, ghost rs: seq<Row>)
    requires o.Valid() && rightRowNum == |rs| && filter == Bits(cond, Cross(ls, rs))
    modifies o, o.builder
    ensures o.Valid() && o.Sent() == old(o.Sent()) + Unmatched(cond, ls, rs, rn)
  {
    hide Cross, Flatten, Full, Bits, Partnered, Unmatched;
    ghost var before := o.Sent();
    NoLeftRows(cond, rs, rn);
    for i := 0 to |ls|
      invariant o.Valid() && o.Sent() == before + Unmatched(cond, ls[..i], rs, rn)
    {
      assert ls[..i + 1] == ls[..i] + [ls[i]];
      UnmatchedSnoc(cond, ls[..i], ls[i], rs, rn);
      var matched := Matched(filter, i, |ls|, rightRowNum, cond, ls, rs);
      if !matched {
        o.Push(ls[i] + Nulls(rn));
      }
    }
    assert ls[..|ls|] == ls;
  }

  lemma {:induction false} NoLeftRows(cond: Condition, rs: seq<Row>, rn: nat)
    ensures Unmatched(cond, [], rs, rn) == []
  {}

  /** Nested-loop inner and left outer join: the true rows of the cross product, then for
      the outer join each left row without a true pair, once, with nulls. */
  method NestedLoopJoin(outer: bool, cond: Condition, rn: nat, left: seq<seq<Row>>, right: seq<seq<Row>>)
    returns (out: seq<seq<Row>>)
    ensures var ls, rs := Flatten(left), Flatten(right);
            Flatten(out) == TrueRows(cond, Cross(ls, rs)) + if outer then Unmatched(cond, ls, rs, rn) else []
  {
    hide Flatten, Cross, TrueRows, Unmatched, Bits, Full;
    var ls := Flatten(left);
    var m := new Matcher(cond);
    var rightRowNum := CrossAll(m, ls, right);
    var o := new Output();
    if outer {
      PushUnmatched(o, m.filter, ls, rightRowNum, rn, cond, Flatten(right));
    }
    var rest := o.Close();
    out := m.chunks + rest;
    FlattenAppend(m.chunks, rest);
  }

  // ---- as bags ----

  ghost function CondOfF(cond: Condition, r: Row): Row -> multiset<Row> {
    (l: Row) => if True(cond, l + r) then multiset{l + r} else multiset{}
  }

  ghost function CondOfAllF(cond: Condition, ls: multiset<Row>): Row -> multiset<Row> {
    (r: Row) => Bind(ls, CondOfF(cond, r))
  }

  ghost function NoPartnerF(cond: Condition, rs: seq<Row>, rn: nat): Row -> multiset<Row> {
    (l: Row) => if Partnered(cond, l, rs) then multiset{} else multiset{l + Nulls(rn)}
  }

  lemma {:induction false} TruePairs(cond: Condition, ls: seq<Row>, r: Row)
    ensures multiset(TrueRows(cond, PairsWith(ls, r))) == Bind(multiset(ls), CondOfF(cond, r))
  {
    hide Bind, TrueRows;
    if ls == [] {
      BindEmpty(CondOfF(cond, r));
      NoTrueRows(cond);
    } else {
      var n := |ls| - 1;
      TruePairs(cond, ls[..n], r);
      assert PairsWith(ls, r) == PairsWith(ls[..n], r) + [ls[n] + r];
      TrueRowsSnoc(cond, PairsWith(ls[..n], r), ls[n] + r);
      BagSnoc(ls, n, CondOfF(cond, r));
      assert ls[..n + 1] == ls;
    }
  }

  lemma {:induction false} NoTrueRows(cond: Condition)
    ensures TrueRows(cond, []) == []
  {}

  /** As a bag, the filtered cross product is the sum of the true pairs. */
  lemma {:induction false} CrossBag(cond: Condition, ls: seq<Row>, rs: seq<Row>)
    ensures multiset(TrueRows(cond, Cross(ls, rs))) == Bind(multiset(rs), CondOfAllF(cond, multiset(ls)))
  {
    hide Bind, TrueRows, PairsWith;
    var f := CondOfAllF(cond, multiset(ls));
    if rs == [] {
      BindEmpty(f);
      NoTrueRows(cond);
    } else {
      var n := |rs| - 1;
      CrossBag(cond, ls, rs[..n]);
      TrueRowsAppend(cond, Cross(ls, rs[..n]), PairsWith(ls, rs[n]));
      TruePairs(cond, ls, rs[n]);
      BagSnoc(rs, n, f);
      assert rs[..n + 1] == rs;
    }
  }

  lemma {:induction false} UnmatchedBag(cond: Condition, ls: seq<Row>, rs: seq<Row>, rn: nat)
    ensures multiset(Unmatched(cond, ls, rs, rn)) == Bind(multiset(ls), NoPartnerF(cond, rs, rn))
  {
    hide Bind, Partnered;
    var f := NoPartnerF(cond, rs, rn);
    if ls == [] {
      BindEmpty(f);
    } else {
      var n := |ls| - 1;
      UnmatchedBag(cond, ls[..n], rs, rn);
      BagSnoc(ls, n, f);
      assert ls[..n + 1] == ls;
    }
  }

  /** The condition says exactly that the keys are the same. */
  ghost predicate SaysKeysEqual(cond: Condition, s: Sides, ls: multiset<Row>, rs: multiset<Row>) {
    forall l, r :: l in ls && r in rs ==> (True(cond, l + r) <==> s.lk(l) == s.rk(r))
  }

  lemma {:induction false} PairsAgree(cond: Condition, s: Sides, ls: multiset<Row>, rs: multiset<Row>, r: Row)
    requires SaysKeysEqual(cond, s, ls, rs) && r in rs
    ensures CondOfAllF(cond, ls)(r) == PairsOfF(s, ls)(r)
  {
    hide Bind, True, CondOfF, MatchOfF, SaysKeysEqual;
    forall l | l in ls ensures CondOfF(cond, r)(l) == MatchOfF(s, r)(l) {
      PairAgrees(cond, s, ls, rs, l, r);
    }
    BindCong(ls, CondOfF(cond, r), MatchOfF(s, r));
  }

  lemma {:induction false} PairAgrees(cond: Condition, s: Sides, ls: multiset<Row>, rs: multiset<Row>, l: Row, r: Row)
    requires SaysKeysEqual(cond, s, ls, rs) && l in ls && r in rs
    ensures CondOfF(cond, r)(l) == MatchOfF(s, r)(l)
  {
    hide True;
  }

  lemma {:induction false} AloneAgree(cond: Condition, s: Sides, ls: multiset<Row>, rs: seq<Row>, l: Row)
    requires SaysKeysEqual(cond, s, ls, multiset(rs)) && l in ls
    ensures NoPartnerF(cond, rs, s.rn)(l) == LeftAloneF(s, multiset(rs))(l)
  {
    hide True;
    if Partnered(cond, l, rs) {
      var j :| 0 <= j < |rs| && True(cond, l + rs[j]);
      assert rs[j] in multiset(rs);
    }
    if HasKey(s.rk, multiset(rs), s.lk(l)) {
      var r :| r in multiset(rs) && s.rk(r) == s.lk(l);
      var j :| 0 <= j < |rs| && rs[j] == r;
    }
  }

  /** A nested-loop join on key equality returns the same bag as the equi-joins. */
  lemma {:induction false} NestedLoopIsJoin(outer: bool, cond: Condition, s: Sides, ls: seq<Row>, rs: seq<Row>)
    requires SaysKeysEqual(cond, s, multiset(ls), multiset(rs))
    ensures multiset(TrueRows(cond, Cross(ls, rs)) + if outer then Unmatched(cond, ls, rs, s.rn) else []) ==
            JoinBag(if outer then LeftOuter else Inner, s, multiset(ls), multiset(rs))
  {
    hide Bind, SaysKeysEqual, CondOfAllF, NoPartnerF, PairsOfF, PairsF, LeftAloneF, RightAloneF, TrueRows, Cross,
         Unmatched;
    var lb, rb := multiset(ls), multiset(rs);
    CrossBag(cond, ls, rs);
    UnmatchedBag(cond, ls, rs, s.rn);
    PairsSwap(s, lb, rb);
    forall r | r in rb ensures CondOfAllF(cond, lb)(r) == PairsOfF(s, lb)(r) {
      PairsAgree(cond, s, lb, rb, r);
    }
    BindCong(rb, CondOfAllF(cond, lb), PairsOfF(s, lb));
    forall l | l in lb ensures NoPartnerF(cond, rs, s.rn)(l) == LeftAloneF(s, rb)(l) {
      AloneAgree(cond, s, lb, rs, l);
    }
    BindCong(lb, NoPartnerF(cond, rs, s.rn), LeftAloneF(s, rb));
  }
}
