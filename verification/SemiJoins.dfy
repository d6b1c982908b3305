/** Semi and anti joins: three executors that select left rows, and when they agree. */
module SemiJoins {
  import opened Common
  import opened Chunks
  import opened JoinSpecs
  import opened NestedLoops

  ghost function Selected(p: Row -> bool, rows: seq<Row>): seq<Row> {
    if rows == [] then []
    else
      var n := |rows| - 1;
      Selected(p, rows[..n]) + (if p(rows[n]) then [rows[n]] else [])
  }

  lemma {:induction false} SelectedSnoc(p: Row -> bool, rows: seq<Row>, r: Row)
    ensures Selected(p, rows + [r]) == Selected(p, rows) + (if p(r) then [r] else [])
  {
    assert (rows + [r])[..|rows|] == rows;
  }

  lemma {:induction false} SelectedNone(p: Row -> bool)
    ensures Selected(p, []) == []
  {}

  lemma {:induction false} SelectedAppend(p: Row -> bool, a: seq<Row>, b: seq<Row>)
    ensures Selected(p, a + b) == Selected(p, a) + Selected(p, b)
  {
    hide Selected;
    if b == [] {
      assert a + b == a;
      SelectedNone(p);
    } else {
      var n := |b| - 1;
      SelectedAppend(p, a, b[..n]);
      SelectedSnoc(p, a + b[..n], b[n]);
      SelectedSnoc(p, b[..n], b[n]);
      assert a + b == a + b[..n] + [b[n]] && b == b[..n] + [b[n]];
    }
  }

  lemma {:induction false} SelectedMember(p: Row -> bool, rows: seq<Row>, r: Row)
    ensures r in Selected(p, rows) <==> r in rows && p(r)
  {
    if rows != [] {
      SelectedMember(p, rows[..|rows| - 1], r);
    }
  }

  /** The selected rows are those at the positions where the predicate holds, in order. */
  lemma {:induction false} SelectedAre(p: Row -> bool, rows: seq<Row>, n: nat) returns (at: seq<nat>)
    requires n <= |rows|
    ensures Selects(rows, at, Selected(p, rows[..n]))
    ensures forall i: nat :: i in at <==> i < n && p(rows[i])
  {
    hide Selects;
    if n == 0 {
      at := [];
      SelectsNothing(rows);
    } else {
      at := SelectedAre(p, rows, n - 1);
      assert rows[..n] == rows[..n - 1] + [rows[n - 1]];
      SelectedSnoc(p, rows[..n - 1], rows[n - 1]);
      if p(rows[n - 1]) {
        SelectsMore(rows, at, Selected(p, rows[..n - 1]), n - 1);
        at := at + [n - 1];
      } else {
        assert Selected(p, rows[..n]) == Selected(p, rows[..n - 1]);
      }
    }
  }

  lemma {:induction false} SelectedCong(p: Row -> bool, q: Row -> bool, rows: seq<Row>)
    requires forall r :: r in rows ==> p(r) == q(r)
    ensures Selected(p, rows) == Selected(q, rows)
  {
    if rows != [] {
      SelectedCong(p, q, rows[..|rows| - 1]);
    }
  }

  /** Two selections of the same rows are the same list exactly when they agree on every
      row. */
  lemma {:induction false} SameSelectionIff(p: Row -> bool, q: Row -> bool, rows: seq<Row>)
    ensures Selected(p, rows) == Selected(q, rows) <==> forall r :: r in rows ==> p(r) == q(r)
  {
    if forall r :: r in rows ==> p(r) == q(r) {
      SelectedCong(p, q, rows);
    } else {
      var r :| r in rows && p(r) != q(r);
      SelectedMember(p, rows, r);
      SelectedMember(q, rows, r);
    }
  }

  // ---- nested loops ----

  ghost function PartneredF(cond: Condition, rs: seq<Row>, anti: bool): Row -> bool {
    (l: Row) => Partnered(cond, l, rs) != anti
  }

  method AnyTrue(cond: Condition, l: Row, chunk: seq<Row>) returns (any: bool)
    ensures any == Partnered(cond, l, chunk)
  {
    any := false;
    for i := 0 to |chunk|
      invariant any == exists j :: 0 <= j < i && True(cond, l + chunk[j])
    {
      any := any || True(cond, l + chunk[i]);
    }
  }

  lemma {:induction false} PartneredAppend(cond: Condition, l: Row, a: seq<Row>, b: seq<Row>)
    ensures Partnered(cond, l, a + b) <==> Partnered(cond, l, a) || Partnered(cond, l, b)
  {
    hide True;
    if Partnered(cond, l, a) {
      var j :| 0 <= j < |a| && True(cond, l + a[j]);
      assert (a + b)[j] == a[j];
    }
    if Partnered(cond, l, b) {
      var j :| 0 <= j < |b| && True(cond, l + b[j]);
      assert (a + b)[|a| + j] == b[j];
    }
  }

  /** One left row against the right chunks; a semi join stops at the first match. */
  method SemiRow(o: Output, anti: bool, cond: Condition, l: Row, right: seq<seq<Row>>)
    requires o.Valid()
    modifies o, o.builder
    ensures o.Valid()
    ensures o.Sent() == old(o.Sent()) + (if PartneredF(cond, Flatten(right), anti)(l) then [l] else [])
  {
    hide Flatten, Partnered, Full;
    FlattenParts(right, 0);
    NoPartner(cond, l);
    var exist := false;
    for c := 0 to |right|
      invariant exist == Partnered(cond, l, Flatten(right[..c])) && o.Valid() && o.Sent() == old(o.Sent())
    {
      FlattenParts(right, c);
      PartneredAppend(cond, l, Flatten(right[..c]), right[c]);
      PartneredAppend(cond, l, Flatten(right[..c + 1]), Flatten(right[c + 1..]));
      var any := AnyTrue(cond, l, right[c]);
      exist := exist || any;
      if exist && !anti {
        o.Push(l);
        return;
      }
    }
    FlattenParts(right, |right|);
    if exist != anti {
      o.Push(l);
    }
  }

  lemma {:induction false} NoPartner(cond: Condition, l: Row)
    ensures !Partnered(cond, l, [])
  {}

  lemma {:induction false} FlattenParts(right: seq<seq<Row>>, c: nat)
    requires c <= |right|
    ensures Flatten(right[..0]) == [] && right[..|right|] == right
    ensures c < |right| ==> Flatten(right[..c + 1]) == Flatten(right[..c]) + right[c]
    ensures c < |right| ==> Flatten(right) == Flatten(right[..c + 1]) + Flatten(right[c + 1..])
  {
    if c < |right| {
      assert right[..c + 1] == right[..c] + [right[c]] && right == right[..c + 1] + right[c + 1..];
      FlattenSnoc(right[..c], right[c]);
      FlattenAppend(right[..c + 1], right[c + 1..]);
    }
  }

  method SemiChunk(o: Output, anti: bool, cond: Condition, chunk: seq<Row>, right: seq<seq<Row>>)
    requires o.Valid()
    modifies o, o.builder
    ensures o.Valid() && o.Sent() == old(o.Sent()) + Selected(PartneredF(cond, Flatten(right), anti), chunk)
  {
    hide Flatten, Full, Selected, PartneredF;
    ghost var before, p := o.Sent(), PartneredF(cond, Flatten(right), anti);
    SelectedNone(p);
    for i := 0 to |chunk|
      invariant o.Valid() && o.Sent() == before + Selected(p, chunk[..i])
    {
      assert chunk[..i + 1] == chunk[..i] + [chunk[i]];
      SelectedSnoc(p, chunk[..i], chunk[i]);
      SemiRow(o, anti, cond, chunk[i], right);
    }
    assert chunk[..|chunk|] == chunk;
  }

  /** Nested-loop semi/anti join keeps, in order, the left rows that have (or have not) a
      right row on which the condition is true. */
  method NestedLoopSemi(anti: bool, cond: Condition, left: seq<seq<Row>>,
                        right: seq<seq<Row>>) returns (out: seq<seq<Row>>)
    ensures Flatten(out) == Selected(PartneredF(cond, Flatten(right), anti), Flatten(left))
    ensures Chunked(out, WINDOW)
  {
    hide Flatten, Full, Selected, PartneredF;
    ghost var p := PartneredF(cond, Flatten(right), anti);
    var o := new Output();
    FlattenParts(left, 0);
    SelectedNone(p);
    for c := 0 to |left|
      invariant fresh(o) && fresh(o.builder)
      invariant o.Valid() && o.Sent() == Selected(p, Flatten(left[..c]))
    {
      FlattenParts(left, c);
      SelectedAppend(p, Flatten(left[..c]), left[c]);
      SemiChunk(o, anti, cond, left[c], right);
    }
    FlattenParts(left, |left|);
    out := o.Close();
  }

  // ---- by key ----

  ghost predicate KeyIn(rk: KeyFn, rs: seq<Row>, key: Row) {
    exists r :: r in rs && rk(r) == key
  }

  ghost function KeyInF(s: Sides, rs: seq<Row>, anti: bool): Row -> bool {
    (l: Row) => KeyIn(s.rk, rs, s.lk(l)) != anti
  }

  ghost predicate IsKeySet(keys: set<Row>, rk: KeyFn, rs: seq<Row>) {
    forall k :: k in keys <==> KeyIn(rk, rs, k)
  }

  lemma {:induction false} KeySetAdd(keys: set<Row>, rk: KeyFn, rs: seq<Row>, r: Row)
    requires IsKeySet(keys, rk, rs)
    ensures IsKeySet(keys + {rk(r)}, rk, rs + [r])
  {
    forall k ensures k in keys + {rk(r)} <==> KeyIn(rk, rs + [r], k) {
      assert r in rs + [r];
      if KeyIn(rk, rs, k) {
        var x :| x in rs && rk(x) == k;
        assert x in rs + [r];
      }
    }
  }

  method AddKeys(keys: set<Row>, rk: KeyFn, chunk: seq<Row>, ghost rs: seq<Row>) returns (next: set<Row>)
    requires IsKeySet(keys, rk, rs)
    ensures IsKeySet(next, rk, rs + chunk)
  {
    hide IsKeySet;
    next := keys;
    assert rs + chunk[0..0] == rs;
    for i := 0 to |chunk|
      invariant IsKeySet(next, rk, rs + chunk[0..i])
    {
      SliceSnoc(rs, chunk, 0, i);
      KeySetAdd(next, rk, rs + chunk[0..i], chunk[i]);
      next := next + {rk(chunk[i])};
    }
    assert chunk[0..|chunk|] == chunk;
  }

  method KeySet(rk: KeyFn, right: seq<seq<Row>>) returns (keys: set<Row>)
    ensures IsKeySet(keys, rk, Flatten(right))
  {
    hide Flatten;
    keys := {};
    FlattenParts(right, 0);
    for c := 0 to |right|
      invariant IsKeySet(keys, rk, Flatten(right[..c]))
    {
      FlattenParts(right, c);
      keys := AddKeys(keys, rk, right[c], Flatten(right[..c]));
    }
    FlattenParts(right, |right|);
  }

  method FilterByKey(anti: bool, s: Sides, keys: set<Row>, chunk: seq<Row>, ghost rs: seq<Row>) returns (kept: seq<Row>)
    requires IsKeySet(keys, s.rk, rs)
    ensures kept == Selected(KeyInF(s, rs, anti), chunk)
  {
    hide Selected, KeyIn;
    ghost var p := KeyInF(s, rs, anti);
    SelectedNone(p);
    kept := [];
    for i := 0 to |chunk|
      invariant kept == Selected(p, chunk[..i])
    {
      assert chunk[..i + 1] == chunk[..i] + [chunk[i]];
      SelectedSnoc(p, chunk[..i], chunk[i]);
      if (s.lk(chunk[i]) in keys) != anti {
        kept := kept + [chunk[i]];
      }
    }
    assert chunk[..|chunk|] == chunk;
  }

  /** Hash semi/anti join keeps, in order, the left rows whose key some (or no) right row
      has, one output chunk for each left chunk. */
  method HashSemi(anti: bool, s: Sides, left: seq<seq<Row>>, right: seq<seq<Row>>) returns (out: seq<seq<Row>>)
    ensures Flatten(out) == Selected(KeyInF(s, Flatten(right), anti), Flatten(left))
    ensures |out| == |left|
  {
    hide Flatten, Selected, KeyInF, IsKeySet;
    var keys := KeySet(s.rk, right);
    ghost var p := KeyInF(s, Flatten(right), anti);
    FlattenParts(left, 0);
    SelectedNone(p);
    out := [];
    FlattenNone();
    for c := 0 to |left|
      invariant |out| == c && Flatten(out) == Selected(p, Flatten(left[..c]))
    {
      var kept := FilterByKey(anti, s, keys, left[c], Flatten(right));
      FlattenParts(left, c);
      SelectedAppend(p, Flatten(left[..c]), left[c]);
      FlattenSnoc(out, kept);
      out := out + [kept];
    }
    FlattenParts(left, |left|);
  }

  lemma {:induction false} FlattenNone()
    ensures Flatten<Row>([]) == []
  {}

  // ---- by key and a further condition ----

  ghost predicate KeyAndCond(s: Sides, cond: Condition, l: Row, rs: seq<Row>) {
    exists r :: r in rs && s.rk(r) == s.lk(l) && True(cond, l + r)
  }

  ghost function KeyAndCondF(s: Sides, cond: Condition, rs: seq<Row>, anti: bool): Row -> bool {
    (l: Row) => KeyAndCond(s, cond, l, rs) != anti
  }

  /** The right rows by key. */
  ghost predicate IsTable(t: map<Row, seq<Row>>, rk: KeyFn, rs: seq<Row>) {
    && (forall k, r :: k in t && r in t[k] ==> r in rs && rk(r) == k)
    && (forall r :: r in rs ==> rk(r) in t && r in t[rk(r)])
  }

  function Put(t: map<Row, seq<Row>>, k: Row, r: Row): map<Row, seq<Row>> {
    t[k := (if k in t then t[k] else []) + [r]]
  }

  lemma {:induction false} TableAdd(t: map<Row, seq<Row>>, rk: KeyFn, rs: seq<Row>, r: Row)
    requires IsTable(t, rk, rs)
    ensures IsTable(Put(t, rk(r), r), rk, rs + [r])
  {
    var next := Put(t, rk(r), r);
    forall x | x in rs + [r] ensures rk(x) in next && x in next[rk(x)] {
      if x in rs {
        assert rk(x) in t && x in t[rk(x)];
      }
    }
  }

  method AddToTable(t: map<Row, seq<Row>>, rk: KeyFn, chunk: seq<Row>,
                    ghost rs: seq<Row>) returns (next: map<Row, seq<Row>>)
    requires IsTable(t, rk, rs)
    ensures IsTable(next, rk, rs + chunk)
  {
    hide IsTable, Put;
    next := t;
    assert rs + chunk[0..0] == rs;
    for i := 0 to |chunk|
      invariant IsTable(next, rk, rs + chunk[0..i])
    {
      SliceSnoc(rs, chunk, 0, i);
      TableAdd(next, rk, rs + chunk[0..i], chunk[i]);
      next := Put(next, rk(chunk[i]), chunk[i]);
    }
    assert chunk[0..|chunk|] == chunk;
  }

  method BuildTable(rk: KeyFn, right: seq<seq<Row>>) returns (t: map<Row, seq<Row>>)
    ensures IsTable(t, rk, Flatten(right))
  {
    hide Flatten;
    t := map[];
    FlattenParts(right, 0);
    for c := 0 to |right|
      invariant IsTable(t, rk, Flatten(right[..c]))
    {
      FlattenParts(right, c);
      t := AddToTable(t, rk, right[c], Flatten(right[..c]));
    }
    FlattenParts(right, |right|);
  }

  lemma {:induction false} TableAnswers(t: map<Row, seq<Row>>, s: Sides, cond: Condition, l: Row, rs: seq<Row>)
    requires IsTable(t, s.rk, rs)
    ensures KeyAndCond(s, cond, l, rs) <==> s.lk(l) in t && Partnered(cond, l, t[s.lk(l)])
  {
    hide True;
    var k := s.lk(l);
    if KeyAndCond(s, cond, l, rs) {
      var r :| r in rs && s.rk(r) == k && True(cond, l + r);
      var j :| 0 <= j < |t[k]| && t[k][j] == r;
    }
    if k in t && Partnered(cond, l, t[k]) {
      var j :| 0 <= j < |t[k]| && True(cond, l + t[k][j]);
      assert t[k][j] in t[k];
    }
  }

  method FilterByTable(anti: bool, s: Sides, cond: Condition, t: map<Row, seq<Row>>, chunk: seq<Row>,
                       ghost rs: seq<Row>)
    returns (kept: seq<Row>)
    requires IsTable(t, s.rk, rs)
    ensures kept == Selected(KeyAndCondF(s, cond, rs, anti), chunk)
  {
    hide Selected, KeyAndCond, IsTable, Partnered;
    ghost var p := KeyAndCondF(s, cond, rs, anti);
    SelectedNone(p);
    kept := [];
    for i := 0 to |chunk|
      invariant kept == Selected(p, chunk[..i])
    {
      assert chunk[..i + 1] == chunk[..i] + [chunk[i]];
      SelectedSnoc(p, chunk[..i], chunk[i]);
      TableAnswers(t, s, cond, chunk[i], rs);
      var b := false;
      if s.lk(chunk[i]) in t {
        b := AnyTrue(cond, chunk[i], t[s.lk(chunk[i])]);
      }
      if b != anti {
        kept := kept + [chunk[i]];
      }
    }
    assert chunk[..|chunk|] == chunk;
  }

  /** Hash semi/anti join with a further condition on the rows of one key. */
  method HashSemiCond(anti: bool, s: Sides, cond: Condition, left: seq<seq<Row>>,
                      right: seq<seq<Row>>) returns (out: seq<seq<Row>>)
    ensures Flatten(out) == Selected(KeyAndCondF(s, cond, Flatten(right), anti), Flatten(left))
    ensures |out| == |left|
  {
    hide Flatten, Selected, KeyAndCondF, IsTable;
    var t := BuildTable(s.rk, right);
    ghost var p := KeyAndCondF(s, cond, Flatten(right), anti);
    FlattenParts(left, 0);
    SelectedNone(p);
    out := [];
    FlattenNone();
    for c := 0 to |left|
      invariant |out| == c && Flatten(out) == Selected(p, Flatten(left[..c]))
    {
      var kept := FilterByTable(anti, s, cond, t, left[c], Flatten(right));
      FlattenParts(left, c);
      SelectedAppend(p, Flatten(left[..c]), left[c]);
      FlattenSnoc(out, kept);
      out := out + [kept];
    }
    FlattenParts(left, |left|);
  }

  // ---- when they agree ----

  /** The SQL equality of keys: null is equal to nothing. */
  ghost predicate SqlKeys(cond: Condition, s: Sides, ls: seq<Row>, rs: seq<Row>) {
    forall l, r :: l in ls && r in rs ==> (True(cond, l + r) <==> s.lk(l) == s.rk(r) && Null !in s.lk(l))
  }

  lemma {:induction false} PartnerByRow(cond: Condition, l: Row, rs: seq<Row>)
    ensures Partnered(cond, l, rs) <==> exists r :: r in rs && True(cond, l + r)
  {
    hide True;
    if r :| r in rs && True(cond, l + r) {
      var j :| 0 <= j < |rs| && rs[j] == r;
    }
    if Partnered(cond, l, rs) {
      var j :| 0 <= j < |rs| && True(cond, l + rs[j]);
      assert rs[j] in rs;
    }
  }

  /** On the SQL equality of keys, the nested-loop and the hash semi joins (and the anti
      joins) select the same left rows if and only if no left row with a null in its key
      finds that very key on the right. */
  lemma {:induction false} SemiAgreeIff(anti: bool, cond: Condition, s: Sides, ls: seq<Row>, rs: seq<Row>)
    requires SqlKeys(cond, s, ls, rs)
    ensures Selected(PartneredF(cond, rs, anti), ls) == Selected(KeyInF(s, rs, anti), ls) <==>
            !exists l :: l in ls && Null in s.lk(l) && KeyIn(s.rk, rs, s.lk(l))
  {
    hide Selected, True, Partnered;
    SameSelectionIff(PartneredF(cond, rs, anti), KeyInF(s, rs, anti), ls);
    forall l | l in ls
      ensures PartneredF(cond, rs, anti)(l) == KeyInF(s, rs, anti)(l) <==>
              !(Null in s.lk(l) && KeyIn(s.rk, rs, s.lk(l)))
    {
      PartnerByRow(cond, l, rs);
    }
  }

  function Self(r: Row): Row {
    r
  }

  /** `a = b` on rows of two columns. */
  function BothEqual(row: Row): Option<bool> {
    if |row| != 2 || Null in row then None else Some(row[0] == row[1])
  }

  /** Which left rows a semi and an anti join keep: on a condition, on the key, and on both. */
  lemma {:induction false} SemiReads(cond: Condition, ls: seq<Row>, rs: seq<Row>, l: Row)
    requires l in ls
    ensures l in Selected(PartneredF(cond, rs, false), ls) <==> exists r :: r in rs && cond(l + r) == Some(true)
    ensures l in Selected(PartneredF(cond, rs, true), ls) <==> forall r :: r in rs ==> cond(l + r) != Some(true)
  {
    hide Selected;
    SelectedMember(PartneredF(cond, rs, false), ls, l);
    SelectedMember(PartneredF(cond, rs, true), ls, l);
    assert forall j :: 0 <= j < |rs| ==> rs[j] in rs;
  }

  lemma {:induction false} KeySemiReads(s: Sides, ls: seq<Row>, rs: seq<Row>, l: Row)
    requires l in ls
    ensures l in Selected(KeyInF(s, rs, false), ls) <==> exists r :: r in rs && s.rk(r) == s.lk(l)
    ensures l in Selected(KeyInF(s, rs, true), ls) <==> forall r :: r in rs ==> s.rk(r) != s.lk(l)
  {
    hide Selected;
    SelectedMember(KeyInF(s, rs, false), ls, l);
    SelectedMember(KeyInF(s, rs, true), ls, l);
  }

  lemma {:induction false} KeyCondSemiReads(cond: Condition, s: Sides, ls: seq<Row>, rs: seq<Row>, l: Row)
    requires l in ls
    ensures l in Selected(KeyAndCondF(s, cond, rs, false), ls) <==>
              exists r :: r in rs && s.rk(r) == s.lk(l) && cond(l + r) == Some(true)
    ensures l in Selected(KeyAndCondF(s, cond, rs, true), ls) <==>
              forall r :: r in rs && s.rk(r) == s.lk(l) ==> cond(l + r) != Some(true)
  {
    hide Selected;
    SelectedMember(KeyAndCondF(s, cond, rs, false), ls, l);
    SelectedMember(KeyAndCondF(s, cond, rs, true), ls, l);
  }

  /** One null on each side, joined on equality: the nested-loop semi join drops the left row and the
      hash semi join keeps it; the anti joins do the reverse. */
  lemma {:induction false} NullKeysSemi(anti: bool)
    ensures var s, rows: seq<Row> := Sides(Self, Self, 1, 1), [[Null]];
            && SqlKeys(BothEqual, s, rows, rows)
            && Selected(PartneredF(BothEqual, rows, anti), rows) == (if anti then rows else [])
            && Selected(KeyInF(s, rows, anti), rows) == (if anti then [] else rows)
  {
    var s, rows: seq<Row> := Sides(Self, Self, 1, 1), [[Null]];
    assert rows[0] == [Null] && Null in rows[0];
    assert [Null] + [Null] == [Null, Null] && Null in [Null, Null];
    assert !Partnered(BothEqual, rows[0], rows) && KeyIn(s.rk, rows, s.lk(rows[0]));
    assert forall p :: Selected(p, rows[..0]) == [];
  }

  /** The full condition of a semi join is the SQL equality of the keys and a rest. */
  ghost predicate SqlKeysAnd(full: Condition, s: Sides, rest: Condition, ls: seq<Row>, rs: seq<Row>) {
    forall l, r :: l in ls && r in rs ==>
      (True(full, l + r) <==> s.lk(l) == s.rk(r) && Null !in s.lk(l) && True(rest, l + r))
  }

  lemma {:induction false} SemiCondAgreeIff(anti: bool, full: Condition, s: Sides, rest: Condition, ls: seq<Row>,
                                            rs: seq<Row>)
    requires SqlKeysAnd(full, s, rest, ls, rs)
    ensures Selected(PartneredF(full, rs, anti), ls) == Selected(KeyAndCondF(s, rest, rs, anti), ls) <==>
            !exists l :: l in ls && Null in s.lk(l) && KeyAndCond(s, rest, l, rs)
  {
    hide Selected, True, Partnered;
    SameSelectionIff(PartneredF(full, rs, anti), KeyAndCondF(s, rest, rs, anti), ls);
    forall l | l in ls
      ensures PartneredF(full, rs, anti)(l) == KeyAndCondF(s, rest, rs, anti)(l) <==>
              !(Null in s.lk(l) && KeyAndCond(s, rest, l, rs))
    {
      PartnerByRow(full, l, rs);
    }
  }
}
