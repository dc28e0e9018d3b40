/** Sums over the elements of a sequence that satisfy a predicate. */
module Tally {
  function Sum<T>(items: seq<T>, p: T -> bool, amount: T -> int): int {
    if items == [] then 0
    else
      var last := items[|items| - 1];
      Sum(items[..|items| - 1], p, amount) + if p(last) then amount(last) else 0
  }

  /** The elements that satisfy `p`, in order. */
  function Where<T>(items: seq<T>, p: T -> bool): seq<T> {
    if items == [] then []
    else
      var n := |items| - 1;
      Where(items[..n], p) + if p(items[n]) then [items[n]] else []
  }

  /** The elements with one key. */
  function Keyed<T, K(==)>(key: T -> K, k: K): T -> bool {
    x => key(x) == k
  }

  lemma WhereStep<T>(items: seq<T>, p: T -> bool, i: nat)
    requires i < |items|
    ensures Where(items[..i + 1], p) == if p(items[i]) then Where(items[..i], p) + [items[i]] else Where(items[..i], p)
  {
    assert items[..i + 1][..i] == items[..i];
  }

  lemma {:induction false} WherePrefix<T>(items: seq<T>, p: T -> bool, i: nat)
    requires i <= |items|
    ensures Where(items[..i], p) <= Where(items, p)
    decreases |items| - i
  {
    if i < |items| {
      WhereStep(items, p, i);
      WherePrefix(items, p, i + 1);
    } else {
      assert items[..i] == items;
    }
  }

  lemma {:induction false} WhereEvery<T>(items: seq<T>, p: T -> bool)
    requires forall i :: 0 <= i < |items| ==> p(items[i])
    ensures Where(items, p) == items
    decreases |items|
  {
    if items != [] {
      hide Where;
      var n := |items| - 1;
      WhereEvery(items[..n], p);
      WhereStep(items, p, n);
      assert items[..n + 1] == items == items[..n] + [items[n]];
    }
  }

  lemma {:induction false} WhereNothing<T>(items: seq<T>, p: T -> bool)
    requires forall i :: 0 <= i < |items| ==> !p(items[i])
    ensures Where(items, p) == []
    decreases |items|
  {
    if items != [] {
      var n := |items| - 1;
      assert forall i :: 0 <= i < n ==> items[..n][i] == items[i];
      WhereNothing(items[..n], p);
    }
  }

  /** Every chosen element is one of the elements. */
  lemma {:induction false} WhereFrom<T>(items: seq<T>, p: T -> bool)
    ensures forall x :: x in Where(items, p) ==> x in items
    decreases |items|
  {
    if items != [] {
      WhereFrom(items[..|items| - 1], p);
    }
  }

  lemma {:induction false} WhereOnly<T>(items: seq<T>, p: T -> bool)
    ensures forall x :: x in Where(items, p) ==> p(x)
    decreases |items|
  {
    if items != [] {
      WhereOnly(items[..|items| - 1], p);
    }
  }

  lemma {:induction false} WhereHas<T>(items: seq<T>, p: T -> bool, x: T)
    requires x in items && p(x)
    ensures x in Where(items, p)
    decreases |items|
  {
    var n := |items| - 1;
    if items[n] != x {
      assert items == items[..n] + [items[n]];
      WhereHas(items[..n], p, x);
    }
  }

  lemma {:induction false} WhereConcat<T>(a: seq<T>, b: seq<T>, p: T -> bool)
    ensures Where(a + b, p) == Where(a, p) + Where(b, p)
    decreases |b|
  {
    if b == [] {
      assert a + b == a;
    } else {
      var n := |b| - 1;
      assert (a + b)[..|a + b| - 1] == a + b[..n];
      WhereConcat(a, b[..n], p);
    }
  }

  /** Summing the chosen elements is summing under both predicates. */
  lemma {:induction false} SumWhere<T>(items: seq<T>, p: T -> bool, q: T -> bool, both: T -> bool, f: T -> int)
    requires forall i :: 0 <= i < |items| ==> both(items[i]) == (p(items[i]) && q(items[i]))
    ensures Sum(Where(items, p), q, f) == Sum(items, both, f)
    decreases |items|
  {
    if items != [] {
      var n := |items| - 1;
      forall i | 0 <= i < n ensures both(items[..n][i]) == (p(items[..n][i]) && q(items[..n][i])) {
        assert items[..n][i] == items[i];
      }
      SumWhere(items[..n], p, q, both, f);
      if p(items[n]) {
        SumSnoc(Where(items[..n], p), items[n], q, f);
      } else {
        assert Where(items, p) == Where(items[..n], p);
      }
    }
  }

  lemma {:induction false} AnyWhere<T>(items: seq<T>, p: T -> bool, q: T -> bool)
    ensures Any(Where(items, p), q) <==> exists i :: 0 <= i < |items| && p(items[i]) && q(items[i])
    decreases |items|
  {
    if items != [] {
      var n := |items| - 1;
      AnyWhere(items[..n], p, q);
      if p(items[n]) {
        AnySnoc(Where(items[..n], p), items[n], q);
      } else {
        assert Where(items, p) == Where(items[..n], p);
      }
      if i :| 0 <= i < n && p(items[..n][i]) && q(items[..n][i]) {
        assert items[i] == items[..n][i];
      }
      if i :| 0 <= i < n && p(items[i]) && q(items[i]) {
        assert items[..n][i] == items[i];
      }
    }
  }

  lemma AnySnoc<T>(items: seq<T>, x: T, p: T -> bool)
    ensures Any(items + [x], p) <==> Any(items, p) || p(x)
  {
    if Any(items, p) {
      var i :| 0 <= i < |items| && p(items[i]);
      assert (items + [x])[i] == items[i];
    }
    if p(x) {
      assert (items + [x])[|items|] == x;
    }
  }

  ghost predicate Any<T>(items: seq<T>, p: T -> bool) {
    exists i :: 0 <= i < |items| && p(items[i])
  }

  lemma SumSnoc<T>(items: seq<T>, x: T, p: T -> bool, amount: T -> int)
    ensures Sum(items + [x], p, amount) == Sum(items, p, amount) + if p(x) then amount(x) else 0
  {
    assert (items + [x])[..|items|] == items;
  }

  lemma {:induction false} SumConcat<T>(a: seq<T>, b: seq<T>, p: T -> bool, amount: T -> int)
    ensures Sum(a + b, p, amount) == Sum(a, p, amount) + Sum(b, p, amount)
    decreases |b|
  {
    if b == [] {
      assert a + b == a;
    } else {
      var n := |b| - 1;
      assert a + b == (a + b[..n]) + [b[n]];
      SumSnoc(a + b[..n], b[n], p, amount);
      SumConcat(a, b[..n], p, amount);
    }
  }

  /** Predicates and amounts that agree on the elements give the same sum. */
  lemma {:induction false} SumSame<T>(items: seq<T>, p: T -> bool, q: T -> bool, f: T -> int, g: T -> int)
    requires forall i :: 0 <= i < |items| ==> p(items[i]) == q(items[i]) && (p(items[i]) ==> f(items[i]) == g(items[i]))
    ensures Sum(items, p, f) == Sum(items, q, g)
    decreases |items|
  {
    if items != [] {
      var n := |items| - 1;
      forall i | 0 <= i < n
        ensures p(items[..n][i]) == q(items[..n][i]) && (p(items[..n][i]) ==> f(items[..n][i]) == g(items[..n][i]))
      {
        assert items[..n][i] == items[i];
      }
      SumSame(items[..n], p, q, f, g);
    }
  }

  /** A predicate that splits into two exclusive ones splits the sum. */
  lemma {:induction false} SumSplit<T>(items: seq<T>, p: T -> bool, q: T -> bool, r: T -> bool, f: T -> int)
    requires forall i :: 0 <= i < |items| ==>
               p(items[i]) == (q(items[i]) || r(items[i])) && !(q(items[i]) && r(items[i]))
    ensures Sum(items, p, f) == Sum(items, q, f) + Sum(items, r, f)
    decreases |items|
  {
    if items != [] {
      var n := |items| - 1;
      forall i | 0 <= i < n
        ensures p(items[..n][i]) == (q(items[..n][i]) || r(items[..n][i])) && !(q(items[..n][i]) && r(items[..n][i]))
      {
        assert items[..n][i] == items[i];
      }
      SumSplit(items[..n], p, q, r, f);
    }
  }

  lemma {:induction false} SumNone<T>(items: seq<T>, p: T -> bool, f: T -> int)
    requires !Any(items, p)
    ensures Sum(items, p, f) == 0
    decreases |items|
  {
    if items != [] {
      var n := |items| - 1;
      assert !p(items[n]);
      forall i | 0 <= i < n ensures !p(items[..n][i]) {
        assert items[..n][i] == items[i];
      }
      SumNone(items[..n], p, f);
    }
  }

  /** A sum of amounts that are not negative is positive exactly when one of them is. */
  lemma {:induction false} SumPositive<T>(items: seq<T>, p: T -> bool, f: T -> int)
    requires forall i :: 0 <= i < |items| && p(items[i]) ==> f(items[i]) >= 0
    ensures Sum(items, p, f) >= 0
    ensures Sum(items, p, f) > 0 <==> exists i :: 0 <= i < |items| && p(items[i]) && f(items[i]) > 0
    decreases |items|
  {
    if items != [] {
      var n := |items| - 1;
      forall i | 0 <= i < n && p(items[..n][i]) ensures f(items[..n][i]) >= 0 {
        assert items[..n][i] == items[i];
      }
      SumPositive(items[..n], p, f);
      if i :| 0 <= i < n && p(items[..n][i]) && f(items[..n][i]) > 0 {
        assert items[..n][i] == items[i];
      }
      if i :| 0 <= i < n && p(items[i]) && f(items[i]) > 0 {
        assert items[..n][i] == items[i];
      }
    }
  }

  lemma {:induction false} SumOrder<T>(items: seq<T>, p: T -> bool, f: T -> int, g: T -> int)
    requires forall i :: 0 <= i < |items| && p(items[i]) ==> f(items[i]) <= g(items[i])
    ensures Sum(items, p, f) <= Sum(items, p, g)
    decreases |items|
  {
    if items != [] {
      var n := |items| - 1;
      forall i | 0 <= i < n && p(items[..n][i]) ensures f(items[..n][i]) <= g(items[..n][i]) {
        assert items[..n][i] == items[i];
      }
      SumOrder(items[..n], p, f, g);
    }
  }

  /** The sum of the items with one key. */
  function SumAt<T, K(==)>(items: seq<T>, key: T -> K, amount: T -> int, k: K): int {
    Sum(items, x => key(x) == k, amount)
  }

  lemma SumAtSnoc<T, K>(items: seq<T>, x: T, key: T -> K, amount: T -> int, k: K)
    ensures SumAt(items + [x], key, amount, k) == SumAt(items, key, amount, k) + if key(x) == k then amount(x) else 0
  {
    SumSnoc(items, x, y => key(y) == k, amount);
  }

  lemma SumAtConcat<T, K>(a: seq<T>, b: seq<T>, key: T -> K, amount: T -> int, k: K)
    ensures SumAt(a + b, key, amount, k) == SumAt(a, key, amount, k) + SumAt(b, key, amount, k)
  {
    SumConcat(a, b, y => key(y) == k, amount);
  }

  lemma SumAtIs<T, K>(items: seq<T>, key: T -> K, amount: T -> int, k: K, p: T -> bool)
    requires forall i :: 0 <= i < |items| ==> p(items[i]) == (key(items[i]) == k)
    ensures SumAt(items, key, amount, k) == Sum(items, p, amount)
  {
    SumSame(items, x => key(x) == k, p, amount, amount);
  }

  function Flat<T>(parts: seq<seq<T>>): seq<T> {
    if parts == [] then [] else Flat(parts[..|parts| - 1]) + parts[|parts| - 1]
  }

  lemma FlatSnoc<T>(parts: seq<seq<T>>, part: seq<T>)
    ensures Flat(parts + [part]) == Flat(parts) + part
  {
    assert (parts + [part])[..|parts|] == parts;
  }

  lemma FlatStep<T>(parts: seq<seq<T>>, k: nat)
    requires k < |parts|
    ensures Flat(parts[..k + 1]) == Flat(parts[..k]) + parts[k]
  {
    assert parts[..k + 1][..k] == parts[..k];
  }

  lemma {:induction false} FlatPrefix<T>(parts: seq<seq<T>>, k: nat)
    requires k <= |parts|
    ensures Flat(parts[..k]) <= Flat(parts)
    decreases |parts| - k
  {
    if k < |parts| {
      FlatStep(parts, k);
      FlatPrefix(parts, k + 1);
    } else {
      assert parts[..k] == parts;
    }
  }

  /** Rows with distinct keys, each row holding the sum of the items with its key. */
  ghost predicate Summarizes<T, R, K(!new)>(rows: seq<R>, items: seq<T>, rowKey: R -> K, key: T -> K, held: R -> int,
                                            amount: T -> int) {
    && (forall i, j :: 0 <= i < j < |rows| ==> rowKey(rows[i]) != rowKey(rows[j]))
    && (forall i :: 0 <= i < |rows| ==> held(rows[i]) == SumAt(items, key, amount, rowKey(rows[i])))
  }

  /** Double counting: summing chosen rows sums the items whose keys those rows hold. */
  lemma {:induction false} Regrouped<T, R, K(!new)>(rows: seq<R>, items: seq<T>, rowKey: R -> K, key: T -> K,
                                                    held: R -> int, amount: T -> int, chosen: K -> bool)
    requires Summarizes(rows, items, rowKey, key, held, amount)
    ensures Sum(rows, r => chosen(rowKey(r)), held) ==
            Sum(items, x => chosen(key(x)) && Any(rows, r => rowKey(r) == key(x)), amount)
    decreases |rows|
  {
    if rows == [] {
      SumNone(items, x => chosen(key(x)) && Any(rows, r => rowKey(r) == key(x)), amount);
    } else {
      var n := |rows| - 1;
      var rest, row := rows[..n], rows[n];
      assert Summarizes(rest, items, rowKey, key, held, amount);
      Regrouped(rest, items, rowKey, key, held, amount, chosen);
      var whole := x => chosen(key(x)) && Any(rows, r => rowKey(r) == key(x));
      var before := x => chosen(key(x)) && Any(rest, r => rowKey(r) == key(x));
      var here := x => chosen(rowKey(row)) && key(x) == rowKey(row);
      forall i | 0 <= i < |items|
        ensures whole(items[i]) == (before(items[i]) || here(items[i])) && !(before(items[i]) && here(items[i]))
      {
        OneMore(rows, key(items[i]), rowKey);
      }
      SumSplit(items, whole, before, here, amount);
      if chosen(rowKey(row)) {
        SumSame(items, here, x => key(x) == rowKey(row), amount, amount);
      } else {
        SumNone(items, here, amount);
      }
    }
  }

  /** When every item's key has a row, chosen rows sum to the chosen items. */
  lemma Answered<T, R, K(!new)>(rows: seq<R>, items: seq<T>, rowKey: R -> K, key: T -> K, held: R -> int,
                                amount: T -> int, chosen: K -> bool, p: R -> bool, q: T -> bool)
    requires Summarizes(rows, items, rowKey, key, held, amount)
    requires forall i :: 0 <= i < |items| ==> Any(rows, r => rowKey(r) == key(items[i]))
    requires forall i :: 0 <= i < |rows| ==> p(rows[i]) == chosen(rowKey(rows[i]))
    requires forall i :: 0 <= i < |items| ==> q(items[i]) == chosen(key(items[i]))
    ensures Sum(rows, p, held) == Sum(items, q, amount)
  {
    Regrouped(rows, items, rowKey, key, held, amount, chosen);
    SumSame(rows, r => chosen(rowKey(r)), p, held, held);
    SumSame(items, x => chosen(key(x)) && Any(rows, r => rowKey(r) == key(x)), q, amount, amount);
  }

  lemma OneMore<R, K(!new)>(rows: seq<R>, k: K, rowKey: R -> K)
    requires rows != [] && forall i, j :: 0 <= i < j < |rows| ==> rowKey(rows[i]) != rowKey(rows[j])
    ensures var n := |rows| - 1;
            && Any(rows, r => rowKey(r) == k) == (Any(rows[..n], r => rowKey(r) == k) || rowKey(rows[n]) == k)
            && !(Any(rows[..n], r => rowKey(r) == k) && rowKey(rows[n]) == k)
  {
    var n := |rows| - 1;
    if rowKey(rows[n]) == k {
      assert Any(rows, r => rowKey(r) == k);
    }
    if Any(rows, r => rowKey(r) == k) && rowKey(rows[n]) != k {
      var i :| 0 <= i < |rows| && rowKey(rows[i]) == k;
      assert rows[..n][i] == rows[i];
      assert Any(rows[..n], r => rowKey(r) == k);
    }
    if Any(rows[..n], r => rowKey(r) == k) {
      var i :| 0 <= i < n && rowKey(rows[..n][i]) == k;
      assert rows[..n][i] == rows[i];
    }
  }
}
