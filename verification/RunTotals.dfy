/** Summing runs of equal buckets in a sorted listing (`log_rollup.rs`, `finish`). */
module RunTotals {
  import T = Tally

  type Counts = seq<(int, int)>

  predicate Ordered(s: Counts) {
    forall i, j :: 0 <= i < j < |s| ==> s[i].0 <= s[j].0
  }

  predicate Increasing(s: Counts) {
    forall i, j :: 0 <= i < j < |s| ==> s[i].0 < s[j].0
  }

  /** Everything counted under one bucket. */
  function Amount(s: Counts, bucket: int): int {
    T.Sum(s, (e: (int, int)) => e.0 == bucket, (e: (int, int)) => e.1)
  }

  lemma AmountSnoc(s: Counts, e: (int, int), bucket: int)
    ensures Amount(s + [e], bucket) == Amount(s, bucket) + if e.0 == bucket then e.1 else 0
  {
    T.SumSnoc(s, e, (x: (int, int)) => x.0 == bucket, (x: (int, int)) => x.1);
  }

  lemma AmountNone(s: Counts, bucket: int)
    requires forall i :: 0 <= i < |s| ==> s[i].0 != bucket
    ensures Amount(s, bucket) == 0
  {
    T.SumNone(s, (x: (int, int)) => x.0 == bucket, (x: (int, int)) => x.1);
  }

  /** The last total takes more of its own bucket. */
  lemma AmountUpdate(s: Counts, extra: int, bucket: int)
    requires s != []
    ensures var n := |s| - 1; var (b, v) := s[n];
            Amount(s[..n] + [(b, v + extra)], bucket) == Amount(s, bucket) + if b == bucket then extra else 0
  {
    var n := |s| - 1;
    AmountSnoc(s[..n], s[n], bucket);
    assert s == s[..n] + [s[n]];
    AmountSnoc(s[..n], (s[n].0, s[n].1 + extra), bucket);
  }

  /** In increasing totals each entry is its bucket's whole amount. */
  lemma {:induction false} AmountAt(s: Counts, i: nat)
    requires Increasing(s) && i < |s|
    ensures Amount(s, s[i].0) == s[i].1
    decreases |s|
  {
    var n := |s| - 1;
    assert s == s[..n] + [s[n]];
    AmountSnoc(s[..n], s[n], s[i].0);
    if i < n {
      AmountAt(s[..n], i);
    } else {
      AmountNone(s[..n], s[n].0);
    }
  }

  /** Every bucket of positive counts has its total. */
  lemma Complete(totals: Counts, rows: Counts, i: nat)
    requires i < |rows| && (forall j :: 0 <= j < |rows| ==> rows[j].1 > 0)
    requires Amount(totals, rows[i].0) == Amount(rows, rows[i].0)
    ensures exists j :: 0 <= j < |totals| && totals[j].0 == rows[i].0
  {
    var p, f := (x: (int, int)) => x.0 == rows[i].0, (x: (int, int)) => x.1;
    assert p(rows[i]) && f(rows[i]) > 0;
    T.SumPositive(rows, p, f);
    if forall j :: 0 <= j < |totals| ==> totals[j].0 != rows[i].0 {
      AmountNone(totals, rows[i].0);
    }
  }

  /** One total per bucket, in bucket order, each the sum of its bucket's counts. */
  method Totals(rows: Counts) returns (totals: Counts)
    requires Ordered(rows)
    ensures Increasing(totals) && forall b :: Amount(totals, b) == Amount(rows, b)
  {
    hide Amount;
    totals := [];
    var i := 0;
    while i < |rows|
      invariant i <= |rows| && Increasing(totals)
      invariant forall b :: Amount(totals, b) == Amount(rows[..i], b)
      invariant totals == [] <==> i == 0
      invariant i > 0 ==> totals[|totals| - 1].0 == rows[i - 1].0
    {
      var n := |totals| - 1;
      assert rows[..i + 1] == rows[..i] + [rows[i]];
      forall b ensures Amount(rows[..i + 1], b) == Amount(rows[..i], b) + if rows[i].0 == b then rows[i].1 else 0 {
        AmountSnoc(rows[..i], rows[i], b);
      }
      ghost var was := totals;
      if n >= 0 && totals[n].0 == rows[i].0 {
        totals := totals[..n] + [(totals[n].0, totals[n].1 + rows[i].1)];
        forall b ensures Amount(totals, b) == Amount(was, b) + if rows[i].0 == b then rows[i].1 else 0 {
          AmountUpdate(was, rows[i].1, b);
        }
      } else {
        totals := totals + [rows[i]];
        forall b ensures Amount(totals, b) == Amount(was, b) + if rows[i].0 == b then rows[i].1 else 0 {
          AmountSnoc(was, rows[i], b);
        }
      }
      i := i + 1;
    }
    assert rows[..i] == rows;
  }

  // ---- Counters --------------------------------------------------------------

  /** `n` more under one bucket of an increasing listing. */
  function AddTo(s: Counts, bucket: int, n: int): Counts {
    if s == [] then [(bucket, n)]
    else
      var last := s[|s| - 1];
      if last.0 < bucket then s + [(bucket, n)]
      else if last.0 == bucket then s[..|s| - 1] + [(bucket, last.1 + n)]
      else AddTo(s[..|s| - 1], bucket, n) + [last]
  }

  lemma {:induction false} AddToKeys(s: Counts, bucket: int, n: int)
    ensures Increasing(s) ==> Increasing(AddTo(s, bucket, n))
    ensures AddTo(s, bucket, n) != []
    ensures s != [] && s[|s| - 1].0 > bucket ==> AddTo(s, bucket, n)[|AddTo(s, bucket, n)| - 1] == s[|s| - 1]
    ensures (s == [] || s[|s| - 1].0 <= bucket) ==> AddTo(s, bucket, n)[|AddTo(s, bucket, n)| - 1].0 == bucket
    decreases |s|
  {
    if s != [] {
      AddToKeys(s[..|s| - 1], bucket, n);
    }
  }

  lemma {:induction false} AddToAmount(s: Counts, bucket: int, n: int, b: int)
    ensures Amount(AddTo(s, bucket, n), b) == Amount(s, b) + if b == bucket then n else 0
    decreases |s|
  {
    hide Amount;
    if s == [] {
      AmountSnoc([], (bucket, n), b);
      assert [] + [(bucket, n)] == [(bucket, n)];
    } else {
      var m, last := |s| - 1, s[|s| - 1];
      if last.0 < bucket {
        AmountSnoc(s, (bucket, n), b);
      } else if last.0 == bucket {
        AmountUpdate(s, n, b);
      } else {
        AddToAmount(s[..m], bucket, n, b);
        AmountSnoc(AddTo(s[..m], bucket, n), last, b);
        AmountSnoc(s[..m], last, b);
        assert s == s[..m] + [last];
      }
    }
  }

  function CountTotal(s: Counts): int {
    if s == [] then 0 else CountTotal(s[..|s| - 1]) + s[|s| - 1].1
  }

  lemma CountTotalSnoc(s: Counts, e: (int, int))
    ensures CountTotal(s + [e]) == CountTotal(s) + e.1
  {
    assert (s + [e])[..|s|] == s;
  }

  lemma {:induction false} AddToTotal(s: Counts, bucket: int, n: int)
    ensures CountTotal(AddTo(s, bucket, n)) == CountTotal(s) + n
    decreases |s|
  {
    if s == [] {
      assert [(bucket, n)][..0] == [];
    } else {
      var m, last := |s| - 1, s[|s| - 1];
      if last.0 < bucket {
        CountTotalSnoc(s, (bucket, n));
      } else if last.0 == bucket {
        CountTotalSnoc(s[..m], (bucket, last.1 + n));
      } else {
        AddToTotal(s[..m], bucket, n);
        CountTotalSnoc(AddTo(s[..m], bucket, n), last);
      }
    }
  }

  /** Two listings added bucket by bucket. */
  method Combine(a: Counts, b: Counts) returns (sum: Counts)
    requires Increasing(a)
    ensures Increasing(sum) && CountTotal(sum) == CountTotal(a) + CountTotal(b)
    ensures forall k :: Amount(sum, k) == Amount(a, k) + Amount(b, k)
  {
    hide Amount, AddTo, CountTotal, Increasing;
    sum := a;
    var i := 0;
    Nothing(b);
    while i < |b|
      invariant i <= |b| && Increasing(sum) && CountTotal(sum) == CountTotal(a) + CountTotal(b[..i])
      invariant forall k :: Amount(sum, k) == Amount(a, k) + Amount(b[..i], k)
    {
      assert b[..i + 1] == b[..i] + [b[i]];
      AddToKeys(sum, b[i].0, b[i].1);
      AddToTotal(sum, b[i].0, b[i].1);
      CountTotalSnoc(b[..i], b[i]);
      forall k ensures Amount(AddTo(sum, b[i].0, b[i].1), k) == Amount(a, k) + Amount(b[..i + 1], k) {
        AddToAmount(sum, b[i].0, b[i].1, k);
        AmountSnoc(b[..i], b[i], k);
      }
      sum, i := AddTo(sum, b[i].0, b[i].1), i + 1;
    }
    assert b[..i] == b;
  }

  lemma Nothing(b: Counts)
    ensures CountTotal(b[..0]) == 0 && forall k :: Amount(b[..0], k) == 0
  {
  }

  /** An increasing listing that counts items by bucket counts each of them once. */
  lemma CountsAll<X(!new)>(s: Counts, items: seq<X>, bucket: X -> int, one: X -> int, all: X -> bool)
    requires Increasing(s) && forall b :: Amount(s, b) == T.SumAt(items, bucket, one, b)
    requires forall i :: 0 <= i < |items| ==> one(items[i]) == 1 && all(items[i])
    ensures CountTotal(s) == T.Sum(items, all, one)
  {
    var rowKey, held, every := (e: (int, int)) => e.0, (e: (int, int)) => e.1, (e: (int, int)) => true;
    forall i | 0 <= i < |s| ensures held(s[i]) == T.SumAt(items, bucket, one, rowKey(s[i])) {
      AmountAt(s, i);
    }
    forall i | 0 <= i < |items| ensures T.Any(s, r => rowKey(r) == bucket(items[i])) {
      Represented(s, items, bucket, one, i);
    }
    T.Answered(s, items, rowKey, bucket, held, one, (b: int) => true, every, all);
    TotalIsSum(s, every, held);
  }

  lemma Represented<X(!new)>(s: Counts, items: seq<X>, bucket: X -> int, one: X -> int, i: nat)
    requires i < |items| && (forall b :: Amount(s, b) == T.SumAt(items, bucket, one, b))
    requires forall j :: 0 <= j < |items| ==> one(items[j]) == 1
    ensures exists j :: 0 <= j < |s| && s[j].0 == bucket(items[i])
  {
    var here := x => bucket(x) == bucket(items[i]);
    T.SumAtIs(items, bucket, one, bucket(items[i]), here);
    assert here(items[i]) && one(items[i]) > 0;
    T.SumPositive(items, here, one);
    if forall j :: 0 <= j < |s| ==> s[j].0 != bucket(items[i]) {
      AmountNone(s, bucket(items[i]));
    }
  }

  lemma {:induction false} TotalIsSum(s: Counts, every: ((int, int)) -> bool, held: ((int, int)) -> int)
    requires forall e :: every(e) && held(e) == e.1
    ensures CountTotal(s) == T.Sum(s, every, held)
    decreases |s|
  {
    if s != [] { TotalIsSum(s[..|s| - 1], every, held); }
  }
}
