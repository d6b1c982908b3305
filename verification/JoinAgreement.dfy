/** When the join algorithms return the same rows, and exactly when they do not. */
module JoinAgreement {
  import opened Common
  import opened Bags
  import opened Chunks
  import opened JoinSpecs
  import opened Grouping
  import opened HashJoins
  import opened MergeJoins

  // ---- an empty key list ----

  /** No row can come out of a join whose keys all match. */
  predicate NothingToJoin(ty: JoinType, ls: multiset<Row>, rs: multiset<Row>) {
    match ty
    case Inner => ls == multiset{} || rs == multiset{}
    case LeftOuter => ls == multiset{}
    case RightOuter => rs == multiset{}
    case FullOuter => ls == multiset{} && rs == multiset{}
  }

  lemma {:induction false} SomePair(s: Sides, ls: multiset<Row>, rs: multiset<Row>, l: Row, r: Row)
    requires l in ls && r in rs && s.lk(l) == s.rk(r)
    ensures l + r in Bind(ls, PairsF(s, rs))
  {
    hide Bind;
    assert l + r in MatchF(s, l)(r);
    BindMember(rs, MatchF(s, l), l + r);
    assert l + r in PairsF(s, rs)(l);
    BindMember(ls, PairsF(s, rs), l + r);
  }

  lemma {:induction false} SomeAlone(s: Sides, ls: multiset<Row>, l: Row)
    requires l in ls
    ensures l + Nulls(s.rn) in Bind(ls, LeftAloneF(s, multiset{}))
  {
    hide Bind, Nulls;
    assert LeftAloneF(s, multiset{})(l) == multiset{l + Nulls(s.rn)};
    BindMember(ls, LeftAloneF(s, multiset{}), l + Nulls(s.rn));
  }

  lemma {:induction false} SomeRightAlone(s: Sides, rs: multiset<Row>, r: Row)
    requires r in rs
    ensures Nulls(s.ln) + r in Bind(rs, RightAloneF(s, multiset{}))
  {
    hide Bind, Nulls;
    assert RightAloneF(s, multiset{})(r) == multiset{Nulls(s.ln) + r};
    BindMember(rs, RightAloneF(s, multiset{}), Nulls(s.ln) + r);
  }

  lemma {:induction false} NoLeftRows(ty: JoinType, s: Sides, rs: multiset<Row>)
    ensures JoinBag(ty, s, multiset{}, rs) == if ty.KeepsRight() then Bind(rs, RightAloneF(s, multiset{}))
            else multiset{}
  {
    hide Bind, PairsF, LeftAloneF, RightAloneF;
    BindEmpty(PairsF(s, rs));
    BindEmpty(LeftAloneF(s, rs));
  }

  lemma {:induction false} NoRightRows(ty: JoinType, s: Sides, ls: multiset<Row>)
    ensures JoinBag(ty, s, ls, multiset{}) == if ty.KeepsLeft() then Bind(ls, LeftAloneF(s, multiset{})) else multiset{}
  {
    hide Bind, PairsF, LeftAloneF, RightAloneF;
    PairsWithNone(s, ls);
    BindEmpty(RightAloneF(s, ls));
  }

  lemma {:induction false} PairsWithNone(s: Sides, ls: multiset<Row>)
    ensures Bind(ls, PairsF(s, multiset{})) == multiset{}
  {
    hide Bind;
    forall l | l in ls ensures PairsF(s, multiset{})(l) == multiset{} {
      BindEmpty(MatchF(s, l));
    }
    BindNone(ls, PairsF(s, multiset{}));
  }

  /** With an empty key list every pair matches, so the join is empty only if there is
      nothing to join. */
  lemma {:induction false} EmptyKeyJoin(ty: JoinType, s: Sides, ls: multiset<Row>, rs: multiset<Row>)
    requires (forall l :: l in ls ==> s.lk(l) == []) && (forall r :: r in rs ==> s.rk(r) == [])
    ensures JoinBag(ty, s, ls, rs) == multiset{} <==> NothingToJoin(ty, ls, rs)
  {
    hide Bind, PairsF, LeftAloneF, RightAloneF, Nulls;
    if ls == multiset{} {
      NoLeftRows(ty, s, rs);
      BindEmpty(RightAloneF(s, multiset{}));
      if rs != multiset{} {
        var r :| r in rs;
        SomeRightAlone(s, rs, r);
      }
    } else if rs == multiset{} {
      var l :| l in ls;
      NoRightRows(ty, s, ls);
      SomeAlone(s, ls, l);
    } else {
      var l :| l in ls;
      var r :| r in rs;
      SomePair(s, ls, rs, l, r);
      assert l + r in JoinBag(ty, s, ls, rs);
    }
  }

  /** Both equi-joins over the same sorted inputs: their outputs are the same bag if and
      only if there are keys to join on or nothing to join. */
  method MergeAgreesWithHash(ty: JoinType, s: Sides, left: seq<seq<Row>>, right: seq<seq<Row>>)
    returns (merged: seq<seq<Row>>, hashed: seq<seq<Row>>)
    requires SortedBy(s.lk, Flatten(left)) && SortedBy(s.rk, Flatten(right))
    requires
      || (NoEmptyKey(s.lk, Flatten(left)) && NoEmptyKey(s.rk, Flatten(right)))
      || (OnlyEmptyKeys(s.lk, Flatten(left)) && OnlyEmptyKeys(s.rk, Flatten(right)))
    ensures multiset(Flatten(merged)) == multiset(Flatten(hashed)) <==>
            || (NoEmptyKey(s.lk, Flatten(left)) && NoEmptyKey(s.rk, Flatten(right)))
            || NothingToJoin(ty, multiset(Flatten(left)), multiset(Flatten(right)))
    ensures multiset(Flatten(hashed)) == JoinBag(ty, s, multiset(Flatten(left)), multiset(Flatten(right)))
  {
    hide SortedBy, JoinBag, Chunked;
    merged := MergeJoin(ty, s, left, right);
    hashed := HashJoin(ty, s, left, right);
    if OnlyEmptyKeys(s.lk, Flatten(left)) && OnlyEmptyKeys(s.rk, Flatten(right)) {
      EmptyKeyJoin(ty, s, multiset(Flatten(left)), multiset(Flatten(right)));
    }
  }

  /** One row on each side and no key: the hash join pairs them, the merge join does not. */
  method EmptyKeysDisagree() returns (merged: seq<seq<Row>>, hashed: seq<seq<Row>>)
    ensures multiset(Flatten(merged)) != multiset(Flatten(hashed))
  {
    var s := Sides(_ => [], _ => [], 1, 1);
    var left, right := [[[Int(1)]]], [[[Int(2)]]];
    assert Flatten(left) == [[Int(1)]] && Flatten(right) == [[Int(2)]];
    assert [Int(1)] in multiset(Flatten(left)) && [Int(2)] in multiset(Flatten(right));
    merged, hashed := MergeAgreesWithHash(Inner, s, left, right);
  }
}
