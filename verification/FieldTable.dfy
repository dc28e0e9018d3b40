/** A message's fields by number: Rust's `BTreeMap<u64, V>` as the sequence its iteration yields. */
module FieldTable {
  import opened Prelude

  type Fields<V> = seq<(nat, V)>

  function Find<V>(t: Fields<V>, k: nat): Option<V> {
    if t == [] then None else if t[0].0 == k then Some(t[0].1) else Find(t[1..], k)
  }

  /** Replaces the value under a present key. */
  function Replace<V>(t: Fields<V>, k: nat, v: V): Fields<V> {
    if t == [] then [] else if t[0].0 == k then [(k, v)] + t[1..] else [t[0]] + Replace(t[1..], k, v)
  }

  /** Adds an absent key at its place. */
  function Insert<V>(t: Fields<V>, k: nat, v: V): Fields<V> {
    if t == [] || k < t[0].0 then [(k, v)] + t else [t[0]] + Insert(t[1..], k, v)
  }

  function Put<V>(t: Fields<V>, k: nat, v: V): Fields<V> {
    if Find(t, k).Some? then Replace(t, k, v) else Insert(t, k, v)
  }

  function Keep<V>(t: Fields<V>, p: nat -> bool): Fields<V> {
    if t == [] then [] else (if p(t[0].0) then [t[0]] else []) + Keep(t[1..], p)
  }

  /** Numbers come in order, each once. */
  ghost predicate Ascending<V>(t: Fields<V>) {
    forall i, j :: 0 <= i < j < |t| ==> t[i].0 < t[j].0
  }

  lemma AscendingRest<V>(t: Fields<V>)
    requires Ascending(t) && t != []
    ensures Ascending(t[1..]) && forall i :: 0 <= i < |t[1..]| ==> t[0].0 < t[1..][i].0
  {
  }

  lemma AscendingCons<V>(e: (nat, V), t: Fields<V>)
    requires Ascending(t) && (t != [] ==> e.0 < t[0].0)
    ensures Ascending([e] + t)
  {
  }

  lemma {:induction false} AscendingReplace<V>(t: Fields<V>, k: nat, v: V)
    requires Ascending(t)
    ensures Ascending(Replace(t, k, v)) && |Replace(t, k, v)| == |t|
    ensures t != [] ==> Replace(t, k, v)[0].0 == t[0].0
    decreases |t|
  {
    hide Ascending;
    if t != [] {
      AscendingRest(t);
      AscendingReplace(t[1..], k, v);
      if t[0].0 == k {
        AscendingCons((k, v), t[1..]);
      } else {
        AscendingCons(t[0], Replace(t[1..], k, v));
      }
    }
  }

  lemma {:induction false} AscendingInsert<V>(t: Fields<V>, k: nat, v: V)
    requires Ascending(t) && Find(t, k).None?
    ensures Ascending(Insert(t, k, v)) && Insert(t, k, v) != []
    ensures Insert(t, k, v)[0].0 == if t == [] || k < t[0].0 then k else t[0].0
    decreases |t|
  {
    hide Ascending;
    if t == [] || k < t[0].0 {
      AscendingCons((k, v), t);
    } else {
      AscendingRest(t);
      AscendingInsert(t[1..], k, v);
      AscendingCons(t[0], Insert(t[1..], k, v));
    }
  }

  lemma AscendingPut<V>(t: Fields<V>, k: nat, v: V)
    requires Ascending(t)
    ensures Ascending(Put(t, k, v))
  {
    if Find(t, k).Some? { AscendingReplace(t, k, v); } else { AscendingInsert(t, k, v); }
  }

  lemma {:induction false} AscendingKeep<V>(t: Fields<V>, p: nat -> bool)
    requires Ascending(t)
    ensures Ascending(Keep(t, p)) && (t != [] && Keep(t, p) != [] ==> t[0].0 <= Keep(t, p)[0].0)
    decreases |t|
  {
    hide Ascending;
    if t != [] {
      AscendingRest(t);
      AscendingKeep(t[1..], p);
      if p(t[0].0) {
        AscendingCons(t[0], Keep(t[1..], p));
      } else {
        assert Keep(t, p) == Keep(t[1..], p);
      }
    }
  }

  lemma {:induction false} FindReplace<V>(t: Fields<V>, k: nat, v: V, j: nat)
    ensures Find(Replace(t, k, v), j) == if j == k && Find(t, k).Some? then Some(v) else Find(t, j)
    decreases |t|
  {
    if t != [] && t[0].0 != k {
      FindReplace(t[1..], k, v, j);
      assert Replace(t, k, v)[1..] == Replace(t[1..], k, v);
    } else if t != [] {
      assert Replace(t, k, v)[1..] == t[1..];
    }
  }

  lemma {:induction false} FindInsert<V>(t: Fields<V>, k: nat, v: V, j: nat)
    requires Find(t, k).None?
    ensures Find(Insert(t, k, v), j) == if j == k then Some(v) else Find(t, j)
    decreases |t|
  {
    if t == [] || k < t[0].0 {
      assert Insert(t, k, v)[1..] == t;
    } else {
      FindInsert(t[1..], k, v, j);
      assert Insert(t, k, v)[1..] == Insert(t[1..], k, v);
    }
  }

  lemma FindPut<V>(t: Fields<V>, k: nat, v: V, j: nat)
    ensures Find(Put(t, k, v), j) == if j == k then Some(v) else Find(t, j)
  {
    if Find(t, k).Some? { FindReplace(t, k, v, j); } else { FindInsert(t, k, v, j); }
  }

  lemma {:induction false} ReplaceReplace<V>(t: Fields<V>, k: nat, v: V, w: V)
    ensures Replace(Replace(t, k, v), k, w) == Replace(t, k, w)
    decreases |t|
  {
    if t != [] && t[0].0 != k {
      ReplaceReplace(t[1..], k, v, w);
      assert Replace(t, k, v)[1..] == Replace(t[1..], k, v);
    } else if t != [] {
      assert Replace(t, k, v)[1..] == t[1..];
    }
  }

  lemma {:induction false} ReplaceSame<V>(t: Fields<V>, k: nat)
    requires Find(t, k).Some?
    ensures Replace(t, k, Find(t, k).value) == t
    decreases |t|
  {
    if t[0].0 != k { ReplaceSame(t[1..], k); }
    assert t == [t[0]] + t[1..];
  }

  lemma {:induction false} ReplaceInsert<V>(t: Fields<V>, k: nat, v: V, w: V)
    requires Find(t, k).None?
    ensures Replace(Insert(t, k, v), k, w) == Insert(t, k, w)
    decreases |t|
  {
    if t == [] || k < t[0].0 {
      assert Insert(t, k, v)[1..] == t;
    } else {
      ReplaceInsert(t[1..], k, v, w);
      assert Insert(t, k, v)[1..] == Insert(t[1..], k, v);
    }
  }

  /** A later value under the same key is all that remains. */
  lemma PutPut<V>(t: Fields<V>, k: nat, v: V, w: V)
    ensures Put(Put(t, k, v), k, w) == Put(t, k, w)
  {
    FindPut(t, k, v, k);
    if Find(t, k).Some? { ReplaceReplace(t, k, v, w); } else { ReplaceInsert(t, k, v, w); }
  }

  lemma {:induction false} FindKeep<V>(t: Fields<V>, p: nat -> bool, j: nat)
    ensures Find(Keep(t, p), j) == if p(j) then Find(t, j) else None
    decreases |t|
  {
    if t != [] {
      FindKeep(t[1..], p, j);
      if p(t[0].0) {
        assert Keep(t, p)[1..] == Keep(t[1..], p);
      } else {
        assert Keep(t, p) == Keep(t[1..], p);
      }
    }
  }

  /** Only keys that satisfy `p`. */
  ghost predicate Only<V>(t: Fields<V>, p: nat -> bool) {
    forall i :: 0 <= i < |t| ==> p(t[i].0)
  }

  lemma {:induction false} KeepOnly<V>(t: Fields<V>, p: nat -> bool)
    ensures Only(Keep(t, p), p)
    ensures Only(t, p) ==> Keep(t, p) == t
    decreases |t|
  {
    if t != [] {
      KeepOnly(t[1..], p);
      if Only(t, p) {
        assert forall i :: 0 <= i < |t[1..]| ==> t[1..][i] == t[i + 1];
        assert t == [t[0]] + t[1..];
      }
    }
  }

  lemma {:induction false} OnlyReplace<V>(t: Fields<V>, p: nat -> bool, k: nat, v: V)
    requires Only(t, p)
    ensures Only(Replace(t, k, v), p)
    decreases |t|
  {
    if t != [] && t[0].0 != k {
      assert forall i :: 0 <= i < |t[1..]| ==> t[1..][i] == t[i + 1];
      OnlyReplace(t[1..], p, k, v);
    }
  }

  lemma {:induction false} OnlyInsert<V>(t: Fields<V>, p: nat -> bool, k: nat, v: V)
    requires Only(t, p) && p(k)
    ensures Only(Insert(t, k, v), p)
    decreases |t|
  {
    if t != [] && k >= t[0].0 {
      assert forall i :: 0 <= i < |t[1..]| ==> t[1..][i] == t[i + 1];
      OnlyInsert(t[1..], p, k, v);
    }
  }

  lemma OnlyPut<V>(t: Fields<V>, p: nat -> bool, k: nat, v: V)
    requires Only(t, p) && p(k)
    ensures Only(Put(t, k, v), p)
  {
    if Find(t, k).Some? { OnlyReplace(t, p, k, v); } else { OnlyInsert(t, p, k, v); }
  }

  ghost predicate Every<V>(t: Fields<V>, good: (nat, V) -> bool) {
    forall i :: 0 <= i < |t| ==> good(t[i].0, t[i].1)
  }

  lemma {:induction false} EveryFind<V>(t: Fields<V>, good: (nat, V) -> bool, k: nat)
    requires Every(t, good) && Find(t, k).Some?
    ensures good(k, Find(t, k).value)
    decreases |t|
  {
    if t[0].0 != k {
      assert forall i :: 0 <= i < |t[1..]| ==> t[1..][i] == t[i + 1];
      EveryFind(t[1..], good, k);
    }
  }

  lemma {:induction false} EveryReplace<V>(t: Fields<V>, good: (nat, V) -> bool, k: nat, v: V)
    requires Every(t, good) && good(k, v)
    ensures Every(Replace(t, k, v), good)
    decreases |t|
  {
    if t != [] && t[0].0 != k {
      assert forall i :: 0 <= i < |t[1..]| ==> t[1..][i] == t[i + 1];
      EveryReplace(t[1..], good, k, v);
    }
  }

  lemma {:induction false} EveryInsert<V>(t: Fields<V>, good: (nat, V) -> bool, k: nat, v: V)
    requires Every(t, good) && good(k, v)
    ensures Every(Insert(t, k, v), good)
    decreases |t|
  {
    if t != [] && k >= t[0].0 {
      assert forall i :: 0 <= i < |t[1..]| ==> t[1..][i] == t[i + 1];
      EveryInsert(t[1..], good, k, v);
    }
  }

  lemma EveryPut<V>(t: Fields<V>, good: (nat, V) -> bool, k: nat, v: V)
    requires Every(t, good) && good(k, v)
    ensures Every(Put(t, k, v), good)
  {
    if Find(t, k).Some? { EveryReplace(t, good, k, v); } else { EveryInsert(t, good, k, v); }
  }

  lemma {:induction false} EveryKeep<V>(t: Fields<V>, good: (nat, V) -> bool, p: nat -> bool)
    requires Every(t, good)
    ensures Every(Keep(t, p), good)
    decreases |t|
  {
    if t != [] {
      assert forall i :: 0 <= i < |t[1..]| ==> t[1..][i] == t[i + 1];
      EveryKeep(t[1..], good, p);
    }
  }

  // ---- Mapping values --------------------------------------------------------

  function MapValues<V, W>(t: Fields<V>, f: V -> W): Fields<W> {
    if t == [] then [] else [(t[0].0, f(t[0].1))] + MapValues(t[1..], f)
  }

  lemma {:induction false} FindMap<V, W>(t: Fields<V>, f: V -> W, k: nat)
    ensures Find(MapValues(t, f), k) == match Find(t, k) case None => None case Some(v) => Some(f(v))
    decreases |t|
  {
    if t != [] {
      FindMap(t[1..], f, k);
      assert MapValues(t, f)[1..] == MapValues(t[1..], f);
    }
  }

  lemma {:induction false} ReplaceMap<V, W>(t: Fields<V>, f: V -> W, k: nat, v: V)
    ensures MapValues(Replace(t, k, v), f) == Replace(MapValues(t, f), k, f(v))
    decreases |t|
  {
    if t != [] {
      assert MapValues(t, f)[1..] == MapValues(t[1..], f);
      if t[0].0 == k {
        assert Replace(t, k, v)[1..] == t[1..];
      } else {
        ReplaceMap(t[1..], f, k, v);
        assert Replace(t, k, v)[1..] == Replace(t[1..], k, v);
      }
    }
  }

  lemma {:induction false} InsertMap<V, W>(t: Fields<V>, f: V -> W, k: nat, v: V)
    ensures MapValues(Insert(t, k, v), f) == Insert(MapValues(t, f), k, f(v))
    decreases |t|
  {
    if t == [] || k < t[0].0 {
      assert Insert(t, k, v)[1..] == t;
    } else {
      assert MapValues(t, f)[1..] == MapValues(t[1..], f);
      InsertMap(t[1..], f, k, v);
      assert Insert(t, k, v)[1..] == Insert(t[1..], k, v);
    }
  }

  lemma PutMap<V, W>(t: Fields<V>, f: V -> W, k: nat, v: V)
    ensures MapValues(Put(t, k, v), f) == Put(MapValues(t, f), k, f(v))
  {
    FindMap(t, f, k);
    if Find(t, k).Some? { ReplaceMap(t, f, k, v); } else { InsertMap(t, f, k, v); }
  }

  lemma {:induction false} KeepMap<V, W>(t: Fields<V>, f: V -> W, p: nat -> bool)
    ensures MapValues(Keep(t, p), f) == Keep(MapValues(t, f), p)
    decreases |t|
  {
    if t != [] {
      assert MapValues(t, f)[1..] == MapValues(t[1..], f);
      KeepMap(t[1..], f, p);
      if p(t[0].0) {
        assert Keep(t, p)[1..] == Keep(t[1..], p);
      } else {
        assert Keep(t, p) == Keep(t[1..], p);
      }
    }
  }

  // ---- Sums over fields ------------------------------------------------------

  function Weight<V>(t: Fields<V>, w: V -> nat): nat {
    if t == [] then 0 else w(t[0].1) + Weight(t[1..], w)
  }

  function WeightAt<V>(t: Fields<V>, w: V -> nat, k: nat): nat {
    match Find(t, k)
    case None => 0
    case Some(v) => w(v)
  }

  lemma {:induction false} WeightReplace<V>(t: Fields<V>, w: V -> nat, k: nat, v: V)
    requires Find(t, k).Some?
    ensures Weight(Replace(t, k, v), w) + WeightAt(t, w, k) == Weight(t, w) + w(v)
    decreases |t|
  {
    if t[0].0 != k {
      WeightReplace(t[1..], w, k, v);
      assert Replace(t, k, v)[1..] == Replace(t[1..], k, v);
    } else {
      assert Replace(t, k, v)[1..] == t[1..];
    }
  }

  lemma {:induction false} WeightInsert<V>(t: Fields<V>, w: V -> nat, k: nat, v: V)
    ensures Weight(Insert(t, k, v), w) == Weight(t, w) + w(v)
    decreases |t|
  {
    if t == [] || k < t[0].0 {
      assert Insert(t, k, v)[1..] == t;
    } else {
      WeightInsert(t[1..], w, k, v);
      assert Insert(t, k, v)[1..] == Insert(t[1..], k, v);
    }
  }

  lemma WeightPut<V>(t: Fields<V>, w: V -> nat, k: nat, v: V)
    ensures Weight(Put(t, k, v), w) + WeightAt(t, w, k) == Weight(t, w) + w(v)
  {
    if Find(t, k).Some? { WeightReplace(t, w, k, v); } else { WeightInsert(t, w, k, v); }
  }

  lemma {:induction false} WeightKeep<V>(t: Fields<V>, w: V -> nat, p: nat -> bool)
    ensures Weight(Keep(t, p), w) <= Weight(t, w)
    decreases |t|
  {
    if t != [] {
      WeightKeep(t[1..], w, p);
      if p(t[0].0) {
        assert Keep(t, p)[1..] == Keep(t[1..], p);
      } else {
        assert Keep(t, p) == Keep(t[1..], p);
      }
    }
  }
}
