/** Finite bags with one combinator, `Bind`: the sum of `f(x)` over the elements `x` of a bag. */
module Bags {

  ghost function Choose<A>(b: multiset<A>): (x: A)
    requires |b| != 0
    ensures x in b
  {
    var x :| x in b; x
  }

  ghost function Bind<A(!new), B>(b: multiset<A>, f: A -> multiset<B>): multiset<B>
    decreases |b|
  {
    if |b| == 0 then multiset{}
    else f(Choose(b)) + Bind(b - multiset{Choose(b)}, f)
  }

  /** The choice made by `Bind` does not matter. */
  lemma {:induction false} BindPick<A(!new), B>(b: multiset<A>, x: A, f: A -> multiset<B>)
    requires x in b
    ensures Bind(b, f) == f(x) + Bind(b - multiset{x}, f)
    decreases |b|
  {
    var y := Choose(b);
    if y != x {
      var rest := b - multiset{y} - multiset{x};
      assert rest == b - multiset{x} - multiset{y};
      BindPick(b - multiset{y}, x, f);
      BindPick(b - multiset{x}, y, f);
      assert Bind(b, f) == f(y) + (f(x) + Bind(rest, f));
    }
  }

  lemma {:induction false} BindEmpty<A(!new), B>(f: A -> multiset<B>)
    ensures Bind(multiset{}, f) == multiset{}
  {}

  lemma {:induction false} BindAdd<A(!new), B>(b: multiset<A>, x: A, f: A -> multiset<B>)
    ensures Bind(b + multiset{x}, f) == f(x) + Bind(b, f)
  {
    BindPick(b + multiset{x}, x, f);
    assert b + multiset{x} - multiset{x} == b;
  }

  lemma {:induction false} BindOne<A(!new), B>(x: A, f: A -> multiset<B>)
    ensures Bind(multiset{x}, f) == f(x)
  {
    BindAdd(multiset{}, x, f);
    assert multiset{} + multiset{x} == multiset{x};
  }

  lemma {:induction false} UnionLess<B>(a: multiset<B>, b: multiset<B>, x: B)
    requires x in a
    ensures a + b - multiset{x} == (a - multiset{x}) + b
  {}

  lemma {:induction false} SumAssoc<B>(a: multiset<B>, b: multiset<B>, c: multiset<B>)
    ensures (a + b) + c == a + (b + c)
  {}

  lemma {:induction false} BindUnion<A(!new), B>(a: multiset<A>, b: multiset<A>, f: A -> multiset<B>)
    ensures Bind(a + b, f) == Bind(a, f) + Bind(b, f)
    decreases |a|
  {
    if |a| == 0 {
      assert a + b == b;
    } else {
      var x :| x in a;
      var rest := a - multiset{x};
      BindPick(a, x, f);
      BindPick(a + b, x, f);
      UnionLess(a, b, x);
      BindUnion(rest, b, f);
      SumAssoc(f(x), Bind(rest, f), Bind(b, f));
    }
  }

  lemma {:induction false} BindCong<A(!new), B>(b: multiset<A>, f: A -> multiset<B>, g: A -> multiset<B>)
    requires forall x :: x in b ==> f(x) == g(x)
    ensures Bind(b, f) == Bind(b, g)
    decreases |b|
  {
    if |b| != 0 {
      var x :| x in b;
      BindPick(b, x, f);
      BindPick(b, x, g);
      BindCong(b - multiset{x}, f, g);
    }
  }

  lemma {:induction false} BindSum<A(!new), B>(b: multiset<A>, f: A -> multiset<B>, g: A -> multiset<B>,
                                               h: A -> multiset<B>)
    requires forall x :: x in b ==> h(x) == f(x) + g(x)
    ensures Bind(b, h) == Bind(b, f) + Bind(b, g)
    decreases |b|
  {
    if |b| != 0 {
      var x :| x in b;
      BindPick(b, x, f);
      BindPick(b, x, g);
      BindPick(b, x, h);
      BindSum(b - multiset{x}, f, g, h);
    }
  }

  lemma {:induction false} BindNone<A(!new), B>(b: multiset<A>, f: A -> multiset<B>)
    requires forall x :: x in b ==> f(x) == multiset{}
    ensures Bind(b, f) == multiset{}
    decreases |b|
  {
    if |b| != 0 {
      var x :| x in b;
      BindPick(b, x, f);
      BindNone(b - multiset{x}, f);
    }
  }

  lemma {:induction false} BindReturn<A(!new)>(b: multiset<A>, f: A -> multiset<A>)
    requires forall x :: x in b ==> f(x) == multiset{x}
    ensures Bind(b, f) == b
    decreases |b|
  {
    if |b| != 0 {
      var x :| x in b;
      BindPick(b, x, f);
      BindReturn(b - multiset{x}, f);
    }
  }

  /** Sums of sums associate. */
  lemma {:induction false} BindBind<A(!new), B(!new), C>(b: multiset<A>, f: A -> multiset<B>, g: B -> multiset<C>,
                                                         h: A -> multiset<C>)
    requires forall x :: x in b ==> h(x) == Bind(f(x), g)
    ensures Bind(Bind(b, f), g) == Bind(b, h)
    decreases |b|
  {
    if |b| != 0 {
      var x :| x in b;
      BindPick(b, x, f);
      BindPick(b, x, h);
      BindUnion(f(x), Bind(b - multiset{x}, f), g);
      BindBind(b - multiset{x}, f, g, h);
    }
  }

  /** The order of two independent sums does not matter. */
  lemma {:induction false} BindSwap<A(!new), B(!new), C>(a: multiset<A>, b: multiset<B>,
                                                         f: A -> (B -> multiset<C>), f': B -> (A -> multiset<C>),
                                                         g: A -> multiset<C>, g': B -> multiset<C>)
    requires forall x, y :: x in a && y in b ==> f(x)(y) == f'(y)(x)
    requires forall x :: x in a ==> g(x) == Bind(b, f(x))
    requires forall y :: y in b ==> g'(y) == Bind(a, f'(y))
    ensures Bind(a, g) == Bind(b, g')
    decreases |a|
  {
    if |a| == 0 {
      BindNone(b, g');
    } else {
      var x :| x in a;
      var rest := a - multiset{x};
      var h := (y: B) => Bind(rest, f'(y));
      BindPick(a, x, g);
      BindSwap(rest, b, f, f', g, h);
      forall y | y in b ensures g'(y) == f(x)(y) + h(y) {
        BindPick(a, x, f'(y));
      }
      BindSum(b, f(x), h, g');
    }
  }

  lemma {:induction false} BindMember<A(!new), B>(b: multiset<A>, f: A -> multiset<B>, y: B)
    ensures y in Bind(b, f) <==> exists x :: x in b && y in f(x)
    decreases |b|
  {
    if |b| != 0 {
      var x :| x in b;
      BindPick(b, x, f);
      BindMember(b - multiset{x}, f, y);
      forall z | z in b && y in f(z) ensures y in Bind(b, f) {
        if z != x {
          assert z in b - multiset{x};
        }
      }
    }
  }

  /** How often an element comes out when only one element of the bag can give it. */
  lemma {:induction false} BindCount<A(!new), B>(b: multiset<A>, f: A -> multiset<B>, x: A, y: B)
    requires forall z :: z in b && z != x ==> y !in f(z)
    ensures Bind(b, f)[y] == b[x] * f(x)[y]
    decreases |b|
  {
    hide Bind;
    if |b| == 0 {
      BindEmpty(f);
      assert b == multiset{} && b[x] == 0;
    } else {
      var z :| z in b;
      BindPick(b, z, f);
      BindCount(b - multiset{z}, f, x, y);
      if z == x {
        assert (b - multiset{z})[x] == b[x] - 1;
        Distribute(b[x] - 1, f(x)[y]);
      }
    }
  }

  lemma {:induction false} Distribute(n: nat, m: nat)
    ensures n * m + m == (n + 1) * m
  {}

  // ---- restriction ----

  ghost function KeepF<A(!new)>(p: A -> bool): A -> multiset<A> {
    x => if p(x) then multiset{x} else multiset{}
  }

  ghost function Keep<A(!new)>(b: multiset<A>, p: A -> bool): multiset<A> {
    Bind(b, KeepF(p))
  }

  lemma {:induction false} KeepCount<A(!new)>(b: multiset<A>, p: A -> bool, x: A)
    ensures Keep(b, p)[x] == if p(x) then b[x] else 0
    decreases |b|
  {
    if |b| != 0 {
      var y :| y in b;
      BindPick(b, y, KeepF(p));
      KeepCount(b - multiset{y}, p, x);
    }
  }

  lemma {:induction false} KeepMember<A(!new)>(b: multiset<A>, p: A -> bool, x: A)
    ensures x in Keep(b, p) <==> x in b && p(x)
  {
    KeepCount(b, p, x);
  }

  /** Summing over the kept part is summing with the rest blanked out. */
  lemma {:induction false} BindKeep<A(!new), B>(b: multiset<A>, p: A -> bool, f: A -> multiset<B>, g: A -> multiset<B>)
    requires forall x :: x in b ==> g(x) == if p(x) then f(x) else multiset{}
    ensures Bind(Keep(b, p), f) == Bind(b, g)
  {
    forall x | x in b ensures g(x) == Bind(KeepF(p)(x), f) {
      if p(x) { BindOne(x, f); }
    }
    BindBind(b, KeepF(p), f, g);
  }

  lemma {:induction false} KeepAll<A(!new)>(b: multiset<A>, p: A -> bool)
    requires forall x :: x in b ==> p(x)
    ensures Keep(b, p) == b
  {
    BindReturn(b, KeepF(p));
  }

  lemma {:induction false} KeepNone<A(!new)>(b: multiset<A>, p: A -> bool)
    requires forall x :: x in b ==> !p(x)
    ensures Keep(b, p) == multiset{}
  {
    BindNone(b, KeepF(p));
  }

  /** Keeping twice is keeping once with both conditions. */
  lemma {:induction false} KeepKeep<A(!new)>(b: multiset<A>, p: A -> bool, q: A -> bool, both: A -> bool)
    requires forall x :: x in b ==> both(x) == (p(x) && q(x))
    ensures Keep(Keep(b, q), p) == Keep(b, both)
  {
    forall x ensures Keep(Keep(b, q), p)[x] == Keep(b, both)[x] {
      KeepCount(Keep(b, q), p, x);
      KeepCount(b, q, x);
      KeepCount(b, both, x);
    }
  }

  /** A bag is its kept and its dropped part together. */
  lemma {:induction false} KeepSplit<A(!new)>(b: multiset<A>, p: A -> bool, q: A -> bool)
    requires forall x :: x in b ==> p(x) == !q(x)
    ensures b == Keep(b, p) + Keep(b, q)
  {
    forall x ensures b[x] == (Keep(b, p) + Keep(b, q))[x] {
      KeepCount(b, p, x);
      KeepCount(b, q, x);
    }
  }

  /** A sum over a bag is the sum over its kept part with one function and over the dropped part with another. */
  lemma {:induction false} BindSplit<A(!new), B>(b: multiset<A>, p: A -> bool, q: A -> bool, f: A -> multiset<B>,
                                                 f1: A -> multiset<B>, f2: A -> multiset<B>)
    requires forall x :: x in b ==> p(x) == !q(x)
    requires forall x :: x in b ==> f(x) == if p(x) then f1(x) else f2(x)
    ensures Bind(b, f) == Bind(Keep(b, p), f1) + Bind(Keep(b, q), f2)
  {
    KeepSplit(b, p, q);
    BindUnion(Keep(b, p), Keep(b, q), f);
    forall x | x in Keep(b, p) ensures f(x) == f1(x) { KeepMember(b, p, x); }
    BindCong(Keep(b, p), f, f1);
    forall x | x in Keep(b, q) ensures f(x) == f2(x) { KeepMember(b, q, x); }
    BindCong(Keep(b, q), f, f2);
  }

  /** A filter on the result of a sum is a filter on what is summed, when the two agree. */
  lemma {:induction false} FilterCommutes<A(!new), B(!new)>(b: multiset<A>, f: A -> multiset<B>, p: B -> bool,
                                                            q: A -> bool)
    requires forall x, y :: x in b && y in f(x) ==> p(y) == q(x)
    ensures Keep(Bind(b, f), p) == Bind(Keep(b, q), f)
  {
    var h := x => Bind(f(x), KeepF(p));
    BindBind(b, f, KeepF(p), h);
    forall x | x in b ensures h(x) == if q(x) then f(x) else multiset{} {
      if q(x) {
        BindReturn(f(x), KeepF(p));
      } else {
        BindNone(f(x), KeepF(p));
      }
    }
    BindKeep(b, q, f, h);
  }
}
