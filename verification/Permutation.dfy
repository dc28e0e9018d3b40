/** Rearranging a sequence rearranges what is chosen from it and what is made of it. */
module Permutation {
  import T = Tally

  function Map<X, Y>(xs: seq<X>, f: X -> Y): seq<Y> {
    seq(|xs|, i requires 0 <= i < |xs| => f(xs[i]))
  }

  lemma MapConcat<X, Y>(a: seq<X>, b: seq<X>, f: X -> Y)
    ensures Map(a + b, f) == Map(a, f) + Map(b, f)
  {
  }

  /** Choosing by what elements become is choosing, and then making. */
  lemma {:induction false} MapWhere<X, Y>(xs: seq<X>, f: X -> Y, p: X -> bool, q: Y -> bool)
    requires forall i :: 0 <= i < |xs| ==> p(xs[i]) == q(f(xs[i]))
    ensures T.Where(Map(xs, f), q) == Map(T.Where(xs, p), f)
    decreases |xs|
  {
    if xs != [] {
      var n := |xs| - 1;
      assert forall i :: 0 <= i < n ==> xs[..n][i] == xs[i];
      MapWhere(xs[..n], f, p, q);
      assert Map(xs, f)[..n] == Map(xs[..n], f);
    }
  }

  /** Takes one occurrence of an element out. */
  lemma TakenOut<X>(xs: seq<X>, x: X) returns (a: seq<X>, b: seq<X>)
    requires x in xs
    ensures xs == a + [x] + b && multiset(a + b) == multiset(xs) - multiset{x}
  {
    var i :| 0 <= i < |xs| && xs[i] == x;
    a, b := xs[..i], xs[i + 1..];
    assert xs == a + [x] + b;
  }

  lemma LastInOther<X>(a: seq<X>, b: seq<X>)
    requires a != [] && multiset(a) == multiset(b)
    ensures a[|a| - 1] in b && multiset(a[..|a| - 1]) == multiset(b) - multiset{a[|a| - 1]}
  {
    var n := |a| - 1;
    assert a == a[..n] + [a[n]];
    assert a[n] in multiset(b);
  }

  lemma Empty<X>(b: seq<X>)
    requires multiset(b) == multiset{}
    ensures b == []
  {
    assert |b| == |multiset(b)|;
  }

  lemma {:induction false} WherePermuted<X>(a: seq<X>, b: seq<X>, p: X -> bool)
    requires multiset(a) == multiset(b)
    ensures multiset(T.Where(a, p)) == multiset(T.Where(b, p))
    decreases |a|
  {
    hide T.Where;
    if a == [] {
      Empty(b);
    } else {
      var n := |a| - 1;
      LastInOther(a, b);
      var c, d := TakenOut(b, a[n]);
      assert a[..n + 1] == a;
      T.WhereStep(a, p, n);
      WherePermuted(a[..n], c + d, p);
      T.WhereConcat(c, d, p);
      T.WhereConcat(c + [a[n]], d, p);
      T.WhereConcat(c, [a[n]], p);
      One(a[n], p);
    }
  }

  lemma One<X>(x: X, p: X -> bool)
    ensures T.Where([x], p) == if p(x) then [x] else []
  {
    assert [x][..0] == [];
  }

  lemma {:induction false} SumPermuted<X>(a: seq<X>, b: seq<X>, p: X -> bool, f: X -> int)
    requires multiset(a) == multiset(b)
    ensures T.Sum(a, p, f) == T.Sum(b, p, f)
    decreases |a|
  {
    hide T.Sum;
    if a == [] {
      Empty(b);
    } else {
      var n := |a| - 1;
      LastInOther(a, b);
      var c, d := TakenOut(b, a[n]);
      SumPermuted(a[..n], c + d, p, f);
      assert a == a[..n] + [a[n]];
      T.SumSnoc(a[..n], a[n], p, f);
      T.SumConcat(c, d, p, f);
      T.SumConcat(c + [a[n]], d, p, f);
      T.SumSnoc(c, a[n], p, f);
    }
  }

  lemma {:induction false} MapPermuted<X, Y>(a: seq<X>, b: seq<X>, f: X -> Y)
    requires multiset(a) == multiset(b)
    ensures multiset(Map(a, f)) == multiset(Map(b, f))
    decreases |a|
  {
    hide Map;
    if a == [] {
      Empty(b);
    } else {
      var n := |a| - 1;
      LastInOther(a, b);
      var c, d := TakenOut(b, a[n]);
      MapPermuted(a[..n], c + d, f);
      assert a == a[..n] + [a[n]];
      MapConcat(a[..n], [a[n]], f);
      MapConcat(c, d, f);
      MapConcat(c + [a[n]], d, f);
      MapConcat(c, [a[n]], f);
    }
  }
}
