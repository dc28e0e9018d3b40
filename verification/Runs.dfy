/** Runs of consecutive elements with one key. */
module Runs {
  import T = Tally

  /** How many elements from the start share the first one's key. */
  function RunLength<X, K(==)>(xs: seq<X>, key: X -> K): (n: nat)
    requires xs != []
    ensures 1 <= n <= |xs| && forall i :: 0 <= i < n ==> key(xs[i]) == key(xs[0])
    ensures n < |xs| ==> key(xs[n]) != key(xs[0])
  {
    RunFrom(xs, key, 1)
  }

  function RunFrom<X, K(==)>(xs: seq<X>, key: X -> K, i: nat): (n: nat)
    requires 1 <= i <= |xs| && forall j :: 0 <= j < i ==> key(xs[j]) == key(xs[0])
    ensures i <= n <= |xs| && forall j :: 0 <= j < n ==> key(xs[j]) == key(xs[0])
    ensures n < |xs| ==> key(xs[n]) != key(xs[0])
    decreases |xs| - i
  {
    if i == |xs| || key(xs[i]) != key(xs[0]) then i else RunFrom(xs, key, i + 1)
  }

  /** What a function makes of every run, one after the other. */
  function FlatRuns<X, K(==), Y>(xs: seq<X>, key: X -> K, f: seq<X> -> seq<Y>): seq<Y>
    decreases |xs|
  {
    if xs == [] then []
    else
      var n := RunLength(xs, key);
      f(xs[..n]) + FlatRuns(xs[n..], key, f)
  }

  /** The run at the start is the one of its length. */
  lemma RunIs<X, K>(xs: seq<X>, key: X -> K, n: nat)
    requires 1 <= n <= |xs| && (forall i :: 0 <= i < n ==> key(xs[i]) == key(xs[0]))
             && (n < |xs| ==> key(xs[n]) != key(xs[0]))
    ensures RunLength(xs, key) == n
  {
  }

  /** Elements with one key are next to each other. */
  ghost predicate Together<X, K(!new)>(xs: seq<X>, key: X -> K) {
    forall i, k, j :: 0 <= i <= k <= j < |xs| && key(xs[i]) == key(xs[j]) ==> key(xs[k]) == key(xs[i])
  }

  /** Whatever is made of a run carries the run's key. */
  ghost predicate Carries<X(!new), K(!new), Y(!new)>(key: X -> K, f: seq<X> -> seq<Y>, outKey: Y -> K) {
    forall xs, y :: xs != [] && y in f(xs) ==> outKey(y) == key(xs[0])
  }

  /** Where keys are together, what is made under a key is made of all the elements with that key. */
  lemma {:induction false} RunsByKey<X(!new), K(!new), Y(!new)>(xs: seq<X>, key: X -> K, f: seq<X> -> seq<Y>,
                                                                outKey: Y -> K, k: K)
    requires Together(xs, key) && Carries(key, f, outKey)
    ensures var run := T.Where(xs, T.Keyed(key, k));
            T.Where(FlatRuns(xs, key, f), T.Keyed(outKey, k)) == if run == [] then [] else f(run)
    decreases |xs|
  {
    hide T.Where, FlatRuns, Carries, Together;
    if xs == [] {
      Nothing(xs, key, f, outKey, k);
    } else {
      var n := RunLength(xs, key);
      var a, b := xs[..n], xs[n..];
      Rest(xs, key, f, n);
      RunsByKey(b, key, f, outKey, k);
      T.WhereConcat(a, b, T.Keyed(key, k));
      T.WhereConcat(f(a), FlatRuns(b, key, f), T.Keyed(outKey, k));
      OneKey(a, key, f, outKey);
      if key(xs[0]) == k {
        T.WhereEvery(a, T.Keyed(key, k));
        Elsewhere(xs, key, n);
        T.WhereNothing(b, T.Keyed(key, k));
        T.WhereEvery(f(a), T.Keyed(outKey, k));
        assert a + [] == a && f(a) + [] == f(a);
      } else {
        T.WhereNothing(a, T.Keyed(key, k));
        T.WhereNothing(f(a), T.Keyed(outKey, k));
        var rows, made := T.Where(b, T.Keyed(key, k)), T.Where(FlatRuns(b, key, f), T.Keyed(outKey, k));
        assert [] + rows == rows && [] + made == made;
      }
    }
  }

  lemma Nothing<X, K, Y>(xs: seq<X>, key: X -> K, f: seq<X> -> seq<Y>, outKey: Y -> K, k: K)
    requires xs == []
    ensures T.Where(xs, T.Keyed(key, k)) == [] && FlatRuns(xs, key, f) == []
    ensures T.Where(FlatRuns(xs, key, f), T.Keyed(outKey, k)) == []
  {
  }

  lemma Rest<X, K(!new), Y>(xs: seq<X>, key: X -> K, f: seq<X> -> seq<Y>, n: nat)
    requires xs != [] && Together(xs, key) && n == RunLength(xs, key)
    ensures xs == xs[..n] + xs[n..] && FlatRuns(xs, key, f) == f(xs[..n]) + FlatRuns(xs[n..], key, f)
            && Together(xs[n..], key)
  {
    hide Together;
    TogetherRest(xs, key, n);
  }

  lemma TogetherRest<X, K(!new)>(xs: seq<X>, key: X -> K, n: nat)
    requires n <= |xs| && Together(xs, key)
    ensures Together(xs[n..], key)
  {
    hide RunLength;
    var b := xs[n..];
    forall i, k, j | 0 <= i <= k <= j < |b| && key(b[i]) == key(b[j]) ensures key(b[k]) == key(b[i]) {
      assert key(xs[n + k]) == key(xs[n + i]);
    }
  }

  lemma OneKey<X(!new), K(!new), Y(!new)>(a: seq<X>, key: X -> K, f: seq<X> -> seq<Y>, outKey: Y -> K)
    requires a != [] && Carries(key, f, outKey)
    ensures forall i :: 0 <= i < |f(a)| ==> outKey(f(a)[i]) == key(a[0])
  {
    forall i | 0 <= i < |f(a)| ensures outKey(f(a)[i]) == key(a[0]) {
      assert f(a)[i] in f(a);
    }
  }

  /** A key that is together does not come back after its run. */
  lemma Elsewhere<X, K(!new)>(xs: seq<X>, key: X -> K, n: nat)
    requires Together(xs, key) && xs != [] && n == RunLength(xs, key)
    ensures forall j :: n <= j < |xs| ==> key(xs[j]) != key(xs[0])
  {
    forall j | n <= j < |xs| ensures key(xs[j]) != key(xs[0]) {
      assert key(xs[n]) != key(xs[0]);
    }
  }
}
