/** Rust's `BTreeMap` keyed by octet strings, as the sequence its iteration yields. */
module Table {
  import opened Prelude
  import opened Text

  type Table<V> = seq<(Bytes, V)>

  ghost predicate Sorted<V>(t: Table<V>) {
    forall i, j :: 0 <= i < j < |t| ==> Less(t[i].0, t[j].0)
  }

  predicate Has<V>(t: Table<V>, k: Bytes) {
    exists i :: 0 <= i < |t| && t[i].0 == k
  }

  function Find<V>(t: Table<V>, k: Bytes): Option<V> {
    if t == [] then None else if t[0].0 == k then Some(t[0].1) else Find(t[1..], k)
  }

  /** Insert a key or replace its value. */
  function Put<V>(t: Table<V>, k: Bytes, v: V): Table<V> {
    if t == [] then [(k, v)]
    else if t[0].0 == k then [(k, v)] + t[1..]
    else if Less(k, t[0].0) then [(k, v)] + t
    else [t[0]] + Put(t[1..], k, v)
  }

  /** Insert a key unless it is present. */
  function Insert<V>(t: Table<V>, k: Bytes, v: V): Table<V> {
    if Has(t, k) then t else Put(t, k, v)
  }

  lemma {:induction false} FindHas<V>(t: Table<V>, k: Bytes)
    ensures Find(t, k).Some? <==> Has(t, k)
    decreases |t|
  {
    if t != [] && t[0].0 != k {
      FindHas(t[1..], k);
      if Has(t, k) {
        var i :| 0 <= i < |t| && t[i].0 == k;
        assert t[1..][i - 1] == t[i];
      }
      if Has(t[1..], k) {
        var i :| 0 <= i < |t[1..]| && t[1..][i].0 == k;
        assert t[i + 1] == t[1..][i];
      }
    }
  }

  lemma {:induction false} FindAt<V>(t: Table<V>, i: nat)
    requires Sorted(t) && i < |t|
    ensures Find(t, t[i].0) == Some(t[i].1)
    decreases |t|
  {
    if i > 0 {
      Trichotomy(t[0].0, t[i].0);
      FindAt(t[1..], i - 1);
    }
  }

  lemma {:induction false} FindIndex<V>(t: Table<V>, k: Bytes) returns (i: nat)
    requires Find(t, k).Some?
    ensures i < |t| && t[i] == (k, Find(t, k).value)
    decreases |t|
  {
    if t[0].0 == k {
      i := 0;
    } else {
      i := FindIndex(t[1..], k);
      i := i + 1;
    }
  }

  /** Every key of `Put(t, k, v)` is `k` or a key of `t`, with its own value. */
  lemma {:induction false} PutElement<V>(t: Table<V>, k: Bytes, v: V, i: nat)
    requires i < |Put(t, k, v)|
    ensures Put(t, k, v)[i] == (k, v) || exists j :: 0 <= j < |t| && Put(t, k, v)[i] == t[j]
    decreases |t|
  {
    if t != [] {
      var r := Put(t, k, v);
      if t[0].0 == k {
        if i > 0 { assert r[i] == t[i]; }
      } else if Less(k, t[0].0) {
        if i > 0 { assert r[i] == t[i - 1]; }
      } else if i > 0 {
        PutElement(t[1..], k, v, i - 1);
        if r[i] != (k, v) {
          var j :| 0 <= j < |t[1..]| && r[i] == t[1..][j];
          assert r[i] == t[j + 1];
        }
      } else {
        assert r[0] == t[0];
      }
    }
  }

  lemma {:induction false} PutSorted<V>(t: Table<V>, k: Bytes, v: V)
    requires Sorted(t)
    ensures Sorted(Put(t, k, v))
    decreases |t|
  {
    if t != [] {
      Trichotomy(k, t[0].0);
      assert Sorted(t[1..]);
      if t[0].0 == k {
      } else if Less(k, t[0].0) {
        forall j | 0 < j < |t| ensures Less(k, t[j].0) { LessTransitive(k, t[0].0, t[j].0); }
      } else {
        PutSorted(t[1..], k, v);
        var r := Put(t[1..], k, v);
        forall i | 0 <= i < |r| ensures Less(t[0].0, r[i].0) { PutElement(t[1..], k, v, i); }
      }
    }
  }

  lemma {:induction false} PutFind<V>(t: Table<V>, k: Bytes, v: V, x: Bytes)
    requires Sorted(t)
    ensures Find(Put(t, k, v), x) == if x == k then Some(v) else Find(t, x)
    decreases |t|
  {
    if t != [] {
      Trichotomy(k, t[0].0);
      if t[0].0 == k {
        assert ([(k, v)] + t[1..])[1..] == t[1..];
      } else if Less(k, t[0].0) {
        assert ([(k, v)] + t)[1..] == t;
      } else {
        assert Sorted(t[1..]);
        PutFind(t[1..], k, v, x);
        assert ([t[0]] + Put(t[1..], k, v))[1..] == Put(t[1..], k, v);
      }
    }
  }

  lemma {:induction false} PutSize<V>(t: Table<V>, k: Bytes, v: V)
    requires Sorted(t)
    ensures |Put(t, k, v)| == |t| + (if Find(t, k).Some? then 0 else 1)
    decreases |t|
  {
    if t != [] {
      Trichotomy(k, t[0].0);
      assert Sorted(t[1..]);
      if t[0].0 != k {
        if Less(k, t[0].0) {
          Absent(t, k);
        } else {
          PutSize(t[1..], k, v);
        }
      }
    }
  }

  /** A key below the first is not in the table. */
  lemma Absent<V>(t: Table<V>, k: Bytes)
    requires Sorted(t) && t != [] && Less(k, t[0].0)
    ensures !Has(t, k) && Find(t, k).None?
  {
    forall j | 0 <= j < |t| ensures t[j].0 != k {
      Trichotomy(k, t[j].0);
      if j > 0 { LessTransitive(k, t[0].0, t[j].0); Trichotomy(k, t[j].0); }
    }
    FindHas(t, k);
  }
}
