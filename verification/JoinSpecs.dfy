/** What the equi-joins have to return, as bags of rows, whatever the algorithm. */
module JoinSpecs {
  import opened Common
  import opened Bags
  import opened Chunks

  datatype JoinType = Inner | LeftOuter | RightOuter | FullOuter {
    predicate KeepsLeft() { LeftOuter? || FullOuter? }
    predicate KeepsRight() { RightOuter? || FullOuter? }
  }

  /** The key columns of a row, as the key expressions compute them. */
  type KeyFn = Row -> Row

  function Nulls(n: nat): Row {
    Repeat(Null, n)
  }

  /** Both sides of a join: key expressions and numbers of columns. */
  datatype Sides = Sides(lk: KeyFn, rk: KeyFn, ln: nat, rn: nat)

  ghost predicate HasKey(k: KeyFn, rows: multiset<Row>, key: Row) {
    exists r: Row :: r in rows && k(r) == key
  }

  /** Keys are compared as data, so `Null` matches `Null`. */
  ghost function MatchF(s: Sides, l: Row): Row -> multiset<Row> {
    (r: Row) => if s.lk(l) == s.rk(r) then multiset{l + r} else multiset{}
  }

  ghost function MatchOfF(s: Sides, r: Row): Row -> multiset<Row> {
    (l: Row) => if s.lk(l) == s.rk(r) then multiset{l + r} else multiset{}
  }

  ghost function MatchFs(s: Sides): Row -> (Row -> multiset<Row>) {
    (l: Row) => MatchF(s, l)
  }

  ghost function MatchOfFs(s: Sides): Row -> (Row -> multiset<Row>) {
    (r: Row) => MatchOfF(s, r)
  }

  ghost function PairsF(s: Sides, rs: multiset<Row>): Row -> multiset<Row> {
    (l: Row) => Bind(rs, MatchF(s, l))
  }

  ghost function PairsOfF(s: Sides, ls: multiset<Row>): Row -> multiset<Row> {
    (r: Row) => Bind(ls, MatchOfF(s, r))
  }

  ghost function LeftAloneF(s: Sides, rs: multiset<Row>): Row -> multiset<Row> {
    (l: Row) => if HasKey(s.rk, rs, s.lk(l)) then multiset{} else multiset{l + Nulls(s.rn)}
  }

  ghost function RightAloneF(s: Sides, ls: multiset<Row>): Row -> multiset<Row> {
    (r: Row) => if HasKey(s.lk, ls, s.rk(r)) then multiset{} else multiset{Nulls(s.ln) + r}
  }

  /** The result of a join: the matching pairs, and the rows without a partner on the
      sides that the join type keeps. */
  ghost function JoinBag(ty: JoinType, s: Sides, ls: multiset<Row>, rs: multiset<Row>): multiset<Row> {
    Bind(ls, PairsF(s, rs))
    + (if ty.KeepsLeft() then Bind(ls, LeftAloneF(s, rs)) else multiset{})
    + (if ty.KeepsRight() then Bind(rs, RightAloneF(s, ls)) else multiset{})
  }

  lemma {:induction false} SameMatch(s: Sides, l: Row, r: Row)
    ensures MatchFs(s)(l)(r) == MatchOfFs(s)(r)(l)
  {}

  lemma {:induction false} SameMatches(s: Sides, ls: multiset<Row>, rs: multiset<Row>)
    ensures forall l, r :: l in ls && r in rs ==> MatchFs(s)(l)(r) == MatchOfFs(s)(r)(l)
  {
    hide MatchFs, MatchOfFs;
    forall l, r | l in ls && r in rs ensures MatchFs(s)(l)(r) == MatchOfFs(s)(r)(l) {
      SameMatch(s, l, r);
    }
  }

  lemma {:induction false} PairsAre(s: Sides, ls: multiset<Row>, rs: multiset<Row>)
    ensures forall l :: l in ls ==> PairsF(s, rs)(l) == Bind(rs, MatchFs(s)(l))
    ensures forall r :: r in rs ==> PairsOfF(s, ls)(r) == Bind(ls, MatchOfFs(s)(r))
  {
    hide Bind, MatchF, MatchOfF;
  }

  lemma {:induction false} PairsSwap(s: Sides, ls: multiset<Row>, rs: multiset<Row>)
    ensures Bind(ls, PairsF(s, rs)) == Bind(rs, PairsOfF(s, ls))
  {
    hide Bind, MatchFs, MatchOfFs, PairsF, PairsOfF;
    SameMatches(s, ls, rs);
    PairsAre(s, ls, rs);
    BindSwap(ls, rs, MatchFs(s), MatchOfFs(s), PairsF(s, rs), PairsOfF(s, ls));
  }

  predicate KeyIs(k: KeyFn, key: Row, r: Row) {
    k(r) == key
  }

  ghost function KeyIsF(k: KeyFn, key: Row): Row -> bool {
    (r: Row) => KeyIs(k, key, r)
  }

  /** The rows with one key. */
  ghost function WithKey(k: KeyFn, rows: multiset<Row>, key: Row): multiset<Row> {
    Keep(rows, KeyIsF(k, key))
  }

  lemma {:induction false} WithKeyEmpty(k: KeyFn, rows: multiset<Row>, key: Row)
    ensures WithKey(k, rows, key) == multiset{} <==> !HasKey(k, rows, key)
  {
    if HasKey(k, rows, key) {
      var r :| r in rows && k(r) == key;
      KeepMember(rows, KeyIsF(k, key), r);
    } else {
      KeepNone(rows, KeyIsF(k, key));
    }
  }

  ghost function BehindF(r: Row): Row -> multiset<Row> {
    (l: Row) => multiset{l + r}
  }

  ghost function BeforeF(l: Row): Row -> multiset<Row> {
    (r: Row) => multiset{l + r}
  }

  /** The pairs of a row are made with the rows of the same key. */
  lemma {:induction false} PairsByKey(s: Sides, l: Row, rs: multiset<Row>)
    ensures PairsF(s, rs)(l) == Bind(WithKey(s.rk, rs, s.lk(l)), BeforeF(l))
  {
    BindKeep(rs, KeyIsF(s.rk, s.lk(l)), BeforeF(l), MatchF(s, l));
  }

  lemma {:induction false} PairsOfByKey(s: Sides, r: Row, ls: multiset<Row>)
    ensures PairsOfF(s, ls)(r) == Bind(WithKey(s.lk, ls, s.rk(r)), BehindF(r))
  {
    BindKeep(ls, KeyIsF(s.lk, s.rk(r)), BehindF(r), MatchOfF(s, r));
  }

  // ---- loops that send joined rows ----

  /** One right row behind each of these left rows. */
  method PushBehind(o: Output, ls: seq<Row>, r: Row)
    requires o.Valid()
    modifies o, o.builder
    ensures o.Valid() && multiset(o.Sent()) == multiset(old(o.Sent())) + Bind(multiset(ls), BehindF(r))
  {
    hide Bind, Flatten, Full;
    BindEmpty(BehindF(r));
    ghost var before := multiset(o.Sent());
    for i := 0 to |ls|
      invariant o.Valid() && multiset(o.Sent()) == before + Bind(multiset(ls[..i]), BehindF(r))
    {
      BagSnoc(ls, i, BehindF(r));
      o.Push(ls[i] + r);
    }
    assert ls[..|ls|] == ls;
  }

  lemma {:induction false} BagSnoc(rows: seq<Row>, i: nat, f: Row -> multiset<Row>)
    requires i < |rows|
    ensures Bind(multiset(rows[..i + 1]), f) == Bind(multiset(rows[..i]), f) + f(rows[i])
  {
    assert rows[..i + 1] == rows[..i] + [rows[i]];
    BindAdd(multiset(rows[..i]), rows[i], f);
  }

  ghost function PadRightF(n: nat): Row -> multiset<Row> {
    (l: Row) => multiset{l + Nulls(n)}
  }

  ghost function PadLeftF(n: nat): Row -> multiset<Row> {
    (r: Row) => multiset{Nulls(n) + r}
  }

  /** These left rows, each with nulls for the right columns. */
  method PushPadRight(o: Output, ls: seq<Row>, n: nat)
    requires o.Valid()
    modifies o, o.builder
    ensures o.Valid() && multiset(o.Sent()) == multiset(old(o.Sent())) + Bind(multiset(ls), PadRightF(n))
  {
    hide Bind, Flatten, Full;
    BindEmpty(PadRightF(n));
    ghost var before := multiset(o.Sent());
    for i := 0 to |ls|
      invariant o.Valid() && multiset(o.Sent()) == before + Bind(multiset(ls[..i]), PadRightF(n))
    {
      BagSnoc(ls, i, PadRightF(n));
      o.Push(ls[i] + Nulls(n));
    }
    assert ls[..|ls|] == ls;
  }

  /** These right rows, each with nulls for the left columns. */
  method PushPadLeft(o: Output, rs: seq<Row>, n: nat)
    requires o.Valid()
    modifies o, o.builder
    ensures o.Valid() && multiset(o.Sent()) == multiset(old(o.Sent())) + Bind(multiset(rs), PadLeftF(n))
  {
    hide Bind, Flatten, Full;
    BindEmpty(PadLeftF(n));
    ghost var before := multiset(o.Sent());
    for i := 0 to |rs|
      invariant o.Valid() && multiset(o.Sent()) == before + Bind(multiset(rs[..i]), PadLeftF(n))
    {
      BagSnoc(rs, i, PadLeftF(n));
      o.Push(Nulls(n) + rs[i]);
    }
    assert rs[..|rs|] == rs;
  }

  lemma {:induction false} HasKeyAdd(k: KeyFn, rows: multiset<Row>, r: Row, key: Row)
    ensures HasKey(k, rows + multiset{r}, key) <==> HasKey(k, rows, key) || k(r) == key
  {
    assert r in rows + multiset{r};
    if HasKey(k, rows, key) {
      var x :| x in rows && k(x) == key;
      assert x in rows + multiset{r};
    }
  }

  lemma {:induction false} WithKeyAdd(k: KeyFn, rows: multiset<Row>, r: Row, key: Row)
    ensures WithKey(k, rows + multiset{r}, key) ==
            if k(r) == key then WithKey(k, rows, key) + multiset{r} else WithKey(k, rows, key)
  {
    hide Bind;
    BindAdd(rows, r, KeepF(KeyIsF(k, key)));
  }
}
