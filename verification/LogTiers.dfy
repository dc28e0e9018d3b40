/**
 * Regrouping log rows by service into new segments (`log_tiers.rs`, `Grouper`).
 * Rows and group keys are type parameters; a row's key, the order of keys and the
 * decoded string bytes of a batch are given by functions.
 */
module LogTiers {
  import opened Prelude
  import T = Tally

  type Batch<R> = seq<R>

  datatype Group<R> = Group(batches: seq<Batch<R>>, rows: nat, bytes: nat)

  datatype Limits = Limits(targetRows: nat, targetBytes: nat, packBytes: nat, maxHeld: nat)

  // ---- Sums over batches and groups ------------------------------------------

  function Rows<R>(batches: seq<Batch<R>>): nat {
    if batches == [] then 0 else Rows(batches[..|batches| - 1]) + |batches[|batches| - 1]|
  }

  function Size<R>(batches: seq<Batch<R>>, bytes: Batch<R> -> nat): nat {
    if batches == [] then 0 else Size(batches[..|batches| - 1], bytes) + bytes(batches[|batches| - 1])
  }

  lemma {:induction false} SumsConcat<R>(a: seq<Batch<R>>, b: seq<Batch<R>>, bytes: Batch<R> -> nat)
    ensures Rows(a + b) == Rows(a) + Rows(b) && Size(a + b, bytes) == Size(a, bytes) + Size(b, bytes)
    ensures T.Flat(a + b) == T.Flat(a) + T.Flat(b)
    decreases |b|
  {
    if b == [] {
      assert a + b == a;
    } else {
      var n := |b| - 1;
      assert (a + b)[..|a + b| - 1] == a + b[..n];
      SumsConcat(a, b[..n], bytes);
    }
  }

  lemma SumsOne<R>(batch: Batch<R>, bytes: Batch<R> -> nat)
    ensures Rows([batch]) == |batch| && Size([batch], bytes) == bytes(batch) && T.Flat([batch]) == batch
  {
    assert [batch][..0] == [];
  }

  type Groups<K, R> = seq<(K, Group<R>)>

  function Held<K, R>(groups: Groups<K, R>): nat {
    if groups == [] then 0 else Held(groups[..|groups| - 1]) + groups[|groups| - 1].1.bytes
  }

  function All<K, R>(groups: Groups<K, R>): seq<Batch<R>> {
    if groups == [] then [] else All(groups[..|groups| - 1]) + groups[|groups| - 1].1.batches
  }

  lemma {:induction false} HeldConcat<K, R>(a: Groups<K, R>, b: Groups<K, R>)
    ensures Held(a + b) == Held(a) + Held(b) && All(a + b) == All(a) + All(b)
    decreases |b|
  {
    if b == [] {
      assert a + b == a;
    } else {
      var n := |b| - 1;
      assert (a + b)[..|a + b| - 1] == a + b[..n];
      HeldConcat(a, b[..n]);
    }
  }

  lemma Parted<K, R>(groups: Groups<K, R>, i: nat, g: Group<R>)
    requires i < |groups| && groups[i].1 == g
    ensures Held(groups) == Held(groups[..i]) + g.bytes + Held(groups[i + 1..])
    ensures |All(groups)| == |All(groups[..i])| + |g.batches| + |All(groups[i + 1..])|
  {
    var a, one, b := groups[..i], [groups[i]], groups[i + 1..];
    assert groups == a + one + b && one[..0] == [];
    HeldConcat(a + one, b);
    HeldConcat(a, one);
    assert All(one) == g.batches;
  }

  /** One group replaced by what is left of it, or by more. */
  lemma Swapped<K, R>(groups: Groups<K, R>, i: nat, g: Group<R>)
    requires i < |groups|
    ensures var next := groups[i := (groups[i].0, g)];
            && Held(next) + groups[i].1.bytes == Held(groups) + g.bytes
            && |All(next)| + |groups[i].1.batches| == |All(groups)| + |g.batches|
  {
    hide Held, All;
    Parted(groups, i, groups[i].1);
    Parted(groups[i := (groups[i].0, g)], i, g);
    assert groups[i := (groups[i].0, g)][..i] == groups[..i]
           && groups[i := (groups[i].0, g)][i + 1..] == groups[i + 1..];
  }

  lemma Inserted<K, R>(groups: Groups<K, R>, i: nat, k: K, g: Group<R>)
    requires i <= |groups|
    ensures Held(groups[..i] + [(k, g)] + groups[i..]) == Held(groups) + g.bytes
  {
    hide Held, All;
    var next := groups[..i] + [(k, g)] + groups[i..];
    assert next[..i] == groups[..i] && next[i + 1..] == groups[i..] && next[i] == (k, g);
    Parted(next, i, g);
    assert groups == groups[..i] + groups[i..];
    HeldConcat(groups[..i], groups[i..]);
  }

  // ---- The rows held under a key ---------------------------------------------

  /** The rows held under one key, in the order they were added. */
  function Of<K(==), R>(groups: Groups<K, R>, k: K): seq<R> {
    if groups == [] then []
    else
      var n := |groups| - 1;
      Of(groups[..n], k) + if groups[n].0 == k then T.Flat(groups[n].1.batches) else []
  }

  lemma {:induction false} OfNone<K, R>(groups: Groups<K, R>, k: K)
    requires forall j :: 0 <= j < |groups| ==> groups[j].0 != k
    ensures Of(groups, k) == []
    decreases |groups|
  {
    if groups != [] {
      var n := |groups| - 1;
      assert forall j :: 0 <= j < n ==> groups[..n][j] == groups[j];
      OfNone(groups[..n], k);
    }
  }

  ghost predicate Distinct<K(!new), R>(groups: Groups<K, R>) {
    forall i, j :: 0 <= i < j < |groups| ==> groups[i].0 != groups[j].0
  }

  lemma {:induction false} OfOne<K(!new), R>(groups: Groups<K, R>, i: nat)
    requires Distinct(groups) && i < |groups|
    ensures Of(groups, groups[i].0) == T.Flat(groups[i].1.batches)
    decreases |groups|
  {
    var n := |groups| - 1;
    if i == n {
      OfNone(groups[..n], groups[n].0);
    } else {
      assert groups[..n][i] == groups[i];
      OfOne(groups[..n], i);
    }
  }

  /** What a key holds is what its group holds. */
  lemma OfIs<K(!new), R(!new)>(groups: Groups<K, R>, k: K)
    requires Distinct(groups)
    ensures forall e :: e in groups && e.0 == k ==> Of(groups, k) == T.Flat(e.1.batches)
    ensures (forall e :: e in groups ==> e.0 != k) ==> Of(groups, k) == []
  {
    hide Of;
    forall e | e in groups && e.0 == k ensures Of(groups, k) == T.Flat(e.1.batches) {
      var i :| 0 <= i < |groups| && groups[i] == e;
      OfOne(groups, i);
    }
    if forall e :: e in groups ==> e.0 != k {
      OfNone(groups, k);
    }
  }

  /** Groups with the same entry for a key hold the same under it. */
  lemma OfSame<K(!new), R(!new)>(a: Groups<K, R>, b: Groups<K, R>, m: K)
    requires Distinct(a) && Distinct(b) && forall e: (K, Group<R>) :: e.0 == m ==> (e in a <==> e in b)
    ensures Of(a, m) == Of(b, m)
  {
    hide Of, T.Flat, Distinct;
    OfIs(a, m);
    OfIs(b, m);
    if e :| e in a && e.0 == m {
      assert e in b;
    } else {
      assert forall e :: e in b ==> e.0 != m;
    }
  }

  lemma SwappedIn<K(!new), R(!new)>(groups: Groups<K, R>, i: nat, g: Group<R>)
    requires Distinct(groups) && i < |groups|
    ensures var next := groups[i := (groups[i].0, g)];
            Distinct(next) && forall e: (K, Group<R>) :: e.0 != groups[i].0 ==> (e in groups <==> e in next)
  {
    var next := groups[i := (groups[i].0, g)];
    assert forall j :: 0 <= j < |next| ==> next[j].0 == groups[j].0;
    forall e: (K, Group<R>) | e.0 != groups[i].0 ensures e in groups <==> e in next {
      if e in groups {
        var j :| 0 <= j < |groups| && groups[j] == e;
        assert next[j] == e;
      }
    }
  }

  /** Groups that differ only in what one of them holds. */
  lemma OfSwapped<K(!new), R(!new)>(groups: Groups<K, R>, i: nat, g: Group<R>, m: K)
    requires Distinct(groups) && i < |groups|
    ensures Of(groups[i := (groups[i].0, g)], m) == if m == groups[i].0 then T.Flat(g.batches) else Of(groups, m)
    ensures m == groups[i].0 ==> Of(groups, m) == T.Flat(groups[i].1.batches)
  {
    hide Of, T.Flat, Distinct;
    var next := groups[i := (groups[i].0, g)];
    SwappedIn(groups, i, g);
    if m == groups[i].0 {
      assert groups[i] in groups && next[i] in next;
      OfIs(groups, m);
      OfIs(next, m);
    } else {
      OfSame(next, groups, m);
    }
  }

  lemma InsertedIn<K(!new), R(!new)>(groups: Groups<K, R>, i: nat, k: K, g: Group<R>)
    requires i <= |groups| && Distinct(groups) && forall j :: 0 <= j < |groups| ==> groups[j].0 != k
    ensures var next := groups[..i] + [(k, g)] + groups[i..];
            Distinct(next) && forall e :: e in next <==> e in groups || e == (k, g)
  {
    DistinctInserted(groups, i, k, g);
    assert groups == groups[..i] + groups[i..];
  }

  lemma DistinctInserted<K(!new), R>(groups: Groups<K, R>, i: nat, k: K, g: Group<R>)
    requires i <= |groups| && Distinct(groups) && forall j :: 0 <= j < |groups| ==> groups[j].0 != k
    ensures Distinct(groups[..i] + [(k, g)] + groups[i..])
  {
    var next := groups[..i] + [(k, g)] + groups[i..];
    forall p, q | 0 <= p < q < |next| ensures next[p].0 != next[q].0 {
      var a, b := if p < i then p else p - 1, if q < i then q else q - 1;
      assert p != i ==> next[p] == groups[a];
      assert q != i ==> next[q] == groups[b];
    }
  }

  lemma OfInserted<K(!new), R(!new)>(groups: Groups<K, R>, i: nat, k: K, g: Group<R>, m: K)
    requires i <= |groups| && Distinct(groups) && forall j :: 0 <= j < |groups| ==> groups[j].0 != k
    ensures Of(groups[..i] + [(k, g)] + groups[i..], m) == if m == k then T.Flat(g.batches) else Of(groups, m)
    ensures Of(groups, k) == []
  {
    hide Of, T.Flat, Distinct;
    var next := groups[..i] + [(k, g)] + groups[i..];
    InsertedIn(groups, i, k, g);
    OfNone(groups, k);
    if m == k {
      assert (k, g) in next;
      OfIs(next, m);
    } else {
      OfSame(next, groups, m);
    }
  }

  lemma RemovedIn<K(!new), R(!new)>(groups: Groups<K, R>, i: nat)
    requires i < |groups| && Distinct(groups)
    ensures var next := groups[..i] + groups[i + 1..];
            Distinct(next) && forall e :: e in next <==> e in groups && e != groups[i]
    ensures forall e :: e in groups[..i] + groups[i + 1..] ==> e.0 != groups[i].0
  {
    var next := groups[..i] + groups[i + 1..];
    assert forall j :: 0 <= j < |next| ==> next[j] == if j < i then groups[j] else groups[j + 1];
    forall e | e in groups && e != groups[i] ensures e in next {
      var j :| 0 <= j < |groups| && groups[j] == e;
      assert next[if j < i then j else j - 1] == e;
    }
  }

  lemma OfRemoved<K(!new), R(!new)>(groups: Groups<K, R>, i: nat, m: K)
    requires i < |groups| && Distinct(groups)
    ensures Of(groups[..i] + groups[i + 1..], m) == if m == groups[i].0 then [] else Of(groups, m)
    ensures m == groups[i].0 ==> Of(groups, m) == T.Flat(groups[i].1.batches)
  {
    hide Of, T.Flat, Distinct;
    var next := groups[..i] + groups[i + 1..];
    RemovedIn(groups, i);
    if m == groups[i].0 {
      assert groups[i] in groups;
      OfIs(groups, m);
      OfIs(next, m);
    } else {
      OfSame(next, groups, m);
    }
  }

  // ---- First in, first out ---------------------------------------------------

  /** Key by key, the rows added are those handed out followed by those held, in the same order. */
  ghost predicate Fifo<K(!new), R>(groups: Groups<K, R>, key: R -> K, added: seq<R>, emitted: seq<R>) {
    forall k :: T.Where(added, T.Keyed(key, k)) == T.Where(emitted, T.Keyed(key, k)) + Of(groups, k)
  }

  lemma FifoAdded<K(!new), R>(groups: Groups<K, R>, next: Groups<K, R>, key: R -> K, added: seq<R>, emitted: seq<R>,
                              batch: seq<R>)
    requires Fifo(groups, key, added, emitted)
    requires forall k :: Of(next, k) == Of(groups, k) + T.Where(batch, T.Keyed(key, k))
    ensures Fifo(next, key, added + batch, emitted)
  {
    hide T.Where, T.Keyed, Of;
    forall k ensures T.Where(added + batch, T.Keyed(key, k)) == T.Where(emitted, T.Keyed(key, k)) + Of(next, k) {
      T.WhereConcat(added, batch, T.Keyed(key, k));
      assert Of(next, k) == Of(groups, k) + T.Where(batch, T.Keyed(key, k));
    }
  }

  lemma FifoTaken<K(!new), R>(groups: Groups<K, R>, next: Groups<K, R>, key: R -> K, added: seq<R>, emitted: seq<R>,
                              k: K, front: seq<R>)
    requires Fifo(groups, key, added, emitted) && forall j :: 0 <= j < |front| ==> key(front[j]) == k
    requires forall m :: Of(groups, m) == if m == k then front + Of(next, m) else Of(next, m)
    ensures Fifo(next, key, added, emitted + front)
  {
    hide T.Where, Of;
    forall m ensures T.Where(added, T.Keyed(key, m)) == T.Where(emitted + front, T.Keyed(key, m)) + Of(next, m) {
      T.WhereConcat(emitted, front, T.Keyed(key, m));
      if m == k {
        T.WhereEvery(front, T.Keyed(key, m));
      } else {
        T.WhereNothing(front, T.Keyed(key, m));
      }
      assert T.Where(added, T.Keyed(key, m)) == T.Where(emitted, T.Keyed(key, m)) + Of(groups, m);
    }
  }

  lemma {:induction false} SameCount<K, R>(rows: seq<R>, key: R -> K, x: R)
    ensures multiset(T.Where(rows, T.Keyed(key, key(x))))[x] == multiset(rows)[x]
    decreases |rows|
  {
    if rows != [] {
      var n := |rows| - 1;
      SameCount(rows[..n], key, x);
      assert rows == rows[..n] + [rows[n]];
    }
  }

  lemma {:induction false} HeldCount<K, R>(groups: Groups<K, R>, key: R -> K, bytes: Batch<R> -> nat, x: R)
    requires GoodGroups(groups, key, bytes)
    ensures multiset(T.Flat(All(groups)))[x] == multiset(Of(groups, key(x)))[x]
    decreases |groups|
  {
    hide GoodGroup, T.Flat, All, Of;
    if groups == [] {
      NoGroups(groups);
      OfNone(groups, key(x));
    } else {
      var n := |groups| - 1;
      var (k, g) := groups[n];
      assert forall j :: 0 <= j < n ==> groups[..n][j] == groups[j];
      HeldCount(groups[..n], key, bytes, x);
      HeldLast(groups, key(x));
      SumsConcat(All(groups[..n]), g.batches, bytes);
      GroupKeyed(k, g, key, bytes);
      if k != key(x) {
        assert multiset(T.Flat(g.batches))[x] == 0;
      }
    }
  }

  lemma HeldLast<K, R>(groups: Groups<K, R>, k: K)
    requires groups != []
    ensures var n := |groups| - 1;
            && All(groups) == All(groups[..n]) + groups[n].1.batches
            && Of(groups, k) == Of(groups[..n], k) + if groups[n].0 == k then T.Flat(groups[n].1.batches) else []
  {
  }

  lemma {:induction false} FlatKeyed<K, R>(batches: seq<Batch<R>>, key: R -> K, k: K)
    requires forall i :: 0 <= i < |batches| ==> forall j :: 0 <= j < |batches[i]| ==> key(batches[i][j]) == k
    ensures forall j :: 0 <= j < |T.Flat(batches)| ==> key(T.Flat(batches)[j]) == k
    decreases |batches|
  {
    if batches != [] {
      var n := |batches| - 1;
      assert forall i :: 0 <= i < n ==> batches[..n][i] == batches[i];
      FlatKeyed(batches[..n], key, k);
    }
  }

  /** No row is lost and none comes out twice. */
  lemma Conserved<K(!new), R(!new)>(groups: Groups<K, R>, key: R -> K, bytes: Batch<R> -> nat, added: seq<R>,
                                    emitted: seq<R>)
    requires Fifo(groups, key, added, emitted) && GoodGroups(groups, key, bytes)
    ensures multiset(added) == multiset(emitted) + multiset(T.Flat(All(groups)))
  {
    hide T.Where, T.Keyed, Of, T.Flat, All, GoodGroups;
    forall x ensures multiset(added)[x] == (multiset(emitted) + multiset(T.Flat(All(groups))))[x] {
      SameCount(added, key, x);
      SameCount(emitted, key, x);
      HeldCount(groups, key, bytes, x);
      assert T.Where(added, T.Keyed(key, key(x))) == T.Where(emitted, T.Keyed(key, key(x))) + Of(groups, key(x));
    }
  }

  // ---- Outputs ---------------------------------------------------------------

  ghost predicate Order<K(!new)>(less: (K, K) -> bool) {
    && (forall a :: !less(a, a))
    && (forall a, b, c :: less(a, b) && less(b, c) ==> less(a, c))
    && (forall a, b :: less(a, b) || a == b || less(b, a))
  }

  ghost predicate Sorted<K(!new), R>(groups: Groups<K, R>, less: (K, K) -> bool) {
    forall i, j :: 0 <= i < j < |groups| ==> less(groups[i].0, groups[j].0)
  }

  /** A group holds rows of its own key only, and knows how many and how large they are. */
  ghost predicate GoodGroup<K, R>(k: K, g: Group<R>, key: R -> K, bytes: Batch<R> -> nat) {
    && g.batches != [] && g.rows == Rows(g.batches) && g.bytes == Size(g.batches, bytes)
    && forall i :: 0 <= i < |g.batches| ==> g.batches[i] != [] && forall j :: 0 <= j < |g.batches[i]| ==>
         key(g.batches[i][j]) == k
  }

  ghost predicate GoodGroups<K, R>(groups: Groups<K, R>, key: R -> K, bytes: Batch<R> -> nat) {
    forall i :: 0 <= i < |groups| ==> GoodGroup(groups[i].0, groups[i].1, key, bytes)
  }

  predicate Full<R>(g: Group<R>, limits: Limits) {
    g.rows >= limits.targetRows || g.bytes >= limits.targetBytes
  }

  ghost predicate NoneFull<K, R>(groups: Groups<K, R>, limits: Limits) {
    forall j :: 0 <= j < |groups| ==> !Full(groups[j].1, limits)
  }

  /** The first `count` batches are as many as fit a target, and at least one. */
  ghost predicate IsChunk<R>(batches: seq<Batch<R>>, limits: Limits, bytes: Batch<R> -> nat, count: nat) {
    && 1 <= count <= |batches|
    && (count >= 2 ==>
          Rows(batches[..count]) <= limits.targetRows && Size(batches[..count], bytes) <= limits.targetBytes)
    && (count < |batches| ==>
          Rows(batches[..count + 1]) > limits.targetRows || Size(batches[..count + 1], bytes) > limits.targetBytes)
  }

  /** The first `count` groups are as many as fit a pack, and at least one. */
  ghost predicate IsPack<K, R>(groups: Groups<K, R>, limits: Limits, bytes: Batch<R> -> nat, count: nat) {
    && 1 <= count <= |groups|
    && (count >= 2 ==>
          Rows(All(groups[..count])) <= limits.targetRows && Size(All(groups[..count]), bytes) <= limits.packBytes)
    && (count < |groups| ==>
          Rows(All(groups[..count + 1])) > limits.targetRows
          || Size(All(groups[..count + 1]), bytes) > limits.packBytes)
  }

  ghost predicate IsLargest<K, R>(groups: Groups<K, R>, i: nat) {
    && i < |groups| && (forall j :: 0 <= j < |groups| ==> groups[j].1.bytes <= groups[i].1.bytes)
    && forall j :: i < j < |groups| ==> groups[j].1.bytes < groups[i].1.bytes
  }

  /** What is left of the groups when one of them loses its first `count` batches. */
  ghost function Without<K, R>(groups: Groups<K, R>, i: nat, count: nat, bytes: Batch<R> -> nat): Groups<K, R>
    requires i < |groups| && count <= |groups[i].1.batches|
  {
    var rest := groups[i].1.batches[count..];
    if rest == [] then groups[..i] + groups[i + 1..]
    else groups[i := (groups[i].0, Group(rest, Rows(rest), Size(rest, bytes)))]
  }

  /** A chunk of the first full group. */
  ghost predicate ChunkOut<K, R>(was: Groups<K, R>, now: Groups<K, R>, limits: Limits, bytes: Batch<R> -> nat,
                                 out: seq<Batch<R>>) {
    exists i: nat ::
      && i < |was| && Full(was[i].1, limits) && NoneFull(was[..i], limits)
      && IsChunk(was[i].1.batches, limits, bytes, |out|) && out == was[i].1.batches[..|out|]
      && now == Without(was, i, |out|, bytes)
  }

  /** The largest group whole, when it is worth leaving alone. */
  ghost predicate LargestOut<K, R>(was: Groups<K, R>, now: Groups<K, R>, limits: Limits, out: seq<Batch<R>>) {
    exists i: nat ::
      && IsLargest(was, i) && was[i].1.bytes >= limits.targetBytes / 4
      && out == was[i].1.batches && now == was[..i] + was[i + 1..]
  }

  /** The first groups whole, as many as fit a pack. */
  ghost predicate PackOut<K, R>(was: Groups<K, R>, now: Groups<K, R>, limits: Limits, bytes: Batch<R> -> nat,
                                out: seq<Batch<R>>) {
    exists n: nat :: IsPack(was, limits, bytes, n) && out == All(was[..n]) && now == was[n..]
  }

  /** A part pushed on a group keeps it good. */
  lemma GoodPush<K, R>(k: K, g: Group<R>, part: Batch<R>, key: R -> K, bytes: Batch<R> -> nat)
    requires (g.batches == [] && g.rows == 0 && g.bytes == 0) || GoodGroup(k, g, key, bytes)
    requires part != [] && forall j :: 0 <= j < |part| ==> key(part[j]) == k
    ensures GoodGroup(k, Group(g.batches + [part], g.rows + |part|, g.bytes + bytes(part)), key, bytes)
    ensures T.Flat(g.batches + [part]) == T.Flat(g.batches) + part
  {
    SumsConcat(g.batches, [part], bytes);
    SumsOne(part, bytes);
  }

  /** A group without its first batches is good while some are left. */
  lemma GoodDrain<K, R>(k: K, g: Group<R>, count: nat, key: R -> K, bytes: Batch<R> -> nat)
    requires GoodGroup(k, g, key, bytes) && count <= |g.batches|
    ensures var a, b := g.batches[..count], g.batches[count..];
            && g.rows == Rows(a) + Rows(b) && g.bytes == Size(a, bytes) + Size(b, bytes)
            && T.Flat(g.batches) == T.Flat(a) + T.Flat(b)
            && (b != [] ==> GoodGroup(k, Group(b, Rows(b), Size(b, bytes)), key, bytes))
    ensures forall j :: 0 <= j < |T.Flat(g.batches[..count])| ==> key(T.Flat(g.batches[..count])[j]) == k
  {
    assert g.batches == g.batches[..count] + g.batches[count..];
    SumsConcat(g.batches[..count], g.batches[count..], bytes);
    FlatKeyed(g.batches[..count], key, k);
  }

  class Grouper<K(==, !new), R(==, !new)> {
    const key: R -> K
    const bytes: Batch<R> -> nat
    const less: (K, K) -> bool
    const limits: Limits
    var groups: Groups<K, R>
    var held: nat
    /** Every row ever added, and every row ever handed out. */
    ghost var added: seq<R>
    ghost var emitted: seq<R>

    constructor (key: R -> K, bytes: Batch<R> -> nat, less: (K, K) -> bool, targetRows: nat, targetBytes: nat,
                 packBytes: nat, maxHeld: nat)
      requires Order(less)
      ensures Valid() && groups == [] && added == emitted == []
      ensures limits ==
                Limits(targetRows, targetBytes, if packBytes < targetBytes then packBytes else targetBytes, maxHeld)
    {
      this.key, this.bytes, this.less := key, bytes, less;
      limits := Limits(targetRows, targetBytes, if packBytes < targetBytes then packBytes else targetBytes, maxHeld);
      groups, held := [], 0;
      added, emitted := [], [];
    }

    /** Groups in key order, each with its own rows; `held` is the size of what is held. */
    ghost predicate Sound()
      reads this`groups, this`held
    {
      && Order(less) && Sorted(groups, less) && GoodGroups(groups, key, bytes)
      && held == Held(groups) && limits.packBytes <= limits.targetBytes
    }

    ghost predicate Valid()
      reads this
    {
      Sound() && Fifo(groups, key, added, emitted)
    }

    /** Where a key's group is, or belongs. */
    method Place(k: K) returns (i: nat, found: bool)
      requires Sound()
      ensures i <= |groups| && (found <==> i < |groups| && groups[i].0 == k)
      ensures forall j :: 0 <= j < i ==> less(groups[j].0, k)
      ensures !found ==> forall j :: i <= j < |groups| ==> less(k, groups[j].0)
    {
      hide GoodGroups;
      i := 0;
      while i < |groups| && less(groups[i].0, k)
        invariant i <= |groups| && forall j :: 0 <= j < i ==> less(groups[j].0, k)
      {
        i := i + 1;
      }
      found := i < |groups| && groups[i].0 == k;
    }

    /** Pushes one part on its group, which is created when there is none. */
    method AddPart(k: K, part: Batch<R>)
      requires Sound() && part != [] && forall j :: 0 <= j < |part| ==> key(part[j]) == k
      modifies this`groups, this`held
      ensures Sound() && forall m :: Of(groups, m) == Of(old(groups), m) + if m == k then part else []
    {
      var i, found := Place(k);
      if found {
        Extend(i, part);
      } else {
        Create(i, k, part);
      }
    }

    method Extend(i: nat, part: Batch<R>)
      requires Sound() && i < |groups| && part != [] && forall j :: 0 <= j < |part| ==> key(part[j]) == groups[i].0
      modifies this`groups, this`held
      ensures Sound() && forall m :: Of(groups, m) == Of(old(groups), m) + if m == old(groups)[i].0 then part else []
    {
      hide GoodGroup, Order, Held, All, Of, T.Flat;
      var size := bytes(part);
      var (k, g) := groups[i];
      var more := Group(g.batches + [part], g.rows + |part|, g.bytes + size);
      GoodPush(k, g, part, key, bytes);
      Swapped(groups, i, more);
      Apart(groups, less);
      forall m {
        OfSwapped(groups, i, more, m);
      }
      groups, held := groups[i := (k, more)], held + size;
    }

    method Create(i: nat, k: K, part: Batch<R>)
      requires Sound() && i <= |groups| && part != [] && forall j :: 0 <= j < |part| ==> key(part[j]) == k
      requires forall j :: 0 <= j < i ==> less(groups[j].0, k)
      requires forall j :: i <= j < |groups| ==> less(k, groups[j].0)
      modifies this`groups, this`held
      ensures Sound() && forall m :: Of(groups, m) == Of(old(groups), m) + if m == k then part else []
    {
      hide GoodGroup, GoodGroups, Sorted, Held, All, Rows, Size, Of, T.Flat;
      var size := bytes(part);
      var none: Group<R> := Group([], 0, 0);
      var more := Group([part], |part|, size);
      assert none.batches + [part] == [part];
      GoodPush(k, none, part, key, bytes);
      SumsOne(part, bytes);
      Inserted(groups, i, k, more);
      StillGood(groups, i, k, more, key, bytes, less);
      Apart(groups, less);
      forall m {
        OfInserted(groups, i, k, more, m);
      }
      groups, held := groups[..i] + [(k, more)] + groups[i..], held + size;
    }

    /** A batch's rows by key. */
    method Split(batch: Batch<R>) returns (parts: map<K, seq<R>>)
      ensures forall k :: k in parts ==> parts[k] == T.Where(batch, T.Keyed(key, k)) && parts[k] != []
      ensures forall j :: 0 <= j < |batch| ==> key(batch[j]) in parts
    {
      hide T.Where, T.Keyed;
      parts := map[];
      var i := 0;
      while i < |batch|
        invariant i <= |batch|
        invariant forall k :: k in parts ==> parts[k] == T.Where(batch[..i], T.Keyed(key, k)) && parts[k] != []
        invariant forall j :: 0 <= j < i ==> key(batch[j]) in parts
      {
        var k := key(batch[i]);
        StepKeyed(batch, key, i);
        if k !in parts {
          NoneYet(batch[..i], key, k, parts.Keys);
        }
        parts := parts[k := (if k in parts then parts[k] else []) + [batch[i]]];
        i := i + 1;
      }
      assert batch[..i] == batch;
    }

    /** Splits one batch's rows by group; every key's rows follow the ones it holds. */
    method AddBatch(batch: Batch<R>)
      requires Valid()
      modifies this`groups, this`held, this`added
      ensures Valid() && added == old(added) + batch
    {
      hide Sound, Fifo, Of, T.Where, T.Keyed;
      var parts := Split(batch);
      AddParts(batch, parts);
      FifoAdded(old(groups), groups, key, added, emitted, batch);
      added := added + batch;
    }

    method AddParts(batch: Batch<R>, parts: map<K, seq<R>>)
      requires Sound()
      requires forall k :: k in parts ==> parts[k] == T.Where(batch, T.Keyed(key, k)) && parts[k] != []
      requires forall j :: 0 <= j < |batch| ==> key(batch[j]) in parts
      modifies this`groups, this`held
      ensures Sound() && forall k :: Of(groups, k) == Of(old(groups), k) + T.Where(batch, T.Keyed(key, k))
    {
      hide Sound, T.Where, T.Keyed, Of;
      var todo := parts.Keys;
      ghost var keys := parts.Keys;
      while todo != {}
        invariant Sound() && todo <= keys
        invariant forall k ::
                    Of(groups, k) == Of(old(groups), k) +
                      if k in keys - todo then T.Where(batch, T.Keyed(key, k)) else []
        decreases |todo|
      {
        var k :| k in todo;
        PartKeyed(batch, key, k);
        AddPart(k, parts[k]);
        todo := todo - {k};
      }
      forall k ensures Of(groups, k) == Of(old(groups), k) + T.Where(batch, T.Keyed(key, k)) {
        if k !in keys {
          NoneYet(batch, key, k, keys);
        }
      }
    }

    // Handing rows out.

    /** Takes a whole group out. */
    method RemoveAt(i: nat) returns (g: Group<R>)
      requires Valid() && i < |groups|
      modifies this`groups, this`held, this`emitted
      ensures Valid() && g == old(groups[i].1) && groups == old(groups[..i] + groups[i + 1..])
      ensures emitted == old(emitted) + T.Flat(g.batches) && |All(groups)| + |g.batches| == |All(old(groups))|
    {
      hide GoodGroup, Held, All, Of, T.Flat, Fifo;
      g := groups[i].1;
      Parted(groups, i, g);
      HeldConcat(groups[..i], groups[i + 1..]);
      Apart(groups, less);
      ghost var next := groups[..i] + groups[i + 1..];
      forall m {
        OfRemoved(groups, i, m);
      }
      GroupKeyed(groups[i].0, g, key, bytes);
      FifoTaken(groups, next, key, added, emitted, groups[i].0, T.Flat(g.batches));
      groups, held := groups[..i] + groups[i + 1..], held - g.bytes;
      emitted := emitted + T.Flat(g.batches);
    }

    /** As many of a group's batches as fit a target, but at least one. */
    method ChunkSize(g: Group<R>) returns (count: nat, rows: nat, size: nat)
      requires g.batches != []
      ensures IsChunk(g.batches, limits, bytes, count)
      ensures rows == Rows(g.batches[..count]) && size == Size(g.batches[..count], bytes)
    {
      count, rows, size := 0, 0, 0;
      while count < |g.batches|
        invariant count <= |g.batches| && rows == Rows(g.batches[..count]) && size == Size(g.batches[..count], bytes)
        invariant count >= 2 ==> rows <= limits.targetRows && size <= limits.targetBytes
      {
        var batch := g.batches[count];
        assert g.batches[..count + 1][..count] == g.batches[..count];
        if count > 0 && (rows + |batch| > limits.targetRows || size + bytes(batch) > limits.targetBytes) {
          break;
        }
        rows, size, count := rows + |batch|, size + bytes(batch), count + 1;
      }
    }

    /** Takes the first batches of one group, as many as fit a target, and leaves it the rest. */
    method TakeChunk(i: nat) returns (taken: seq<Batch<R>>)
      requires Valid() && i < |groups|
      modifies this`groups, this`held, this`emitted
      ensures Valid() && IsChunk(old(groups[i].1.batches), limits, bytes, |taken|)
              && taken == old(groups[i].1.batches)[..|taken|]
      ensures groups == Without(old(groups), i, |taken|, bytes)
      ensures emitted == old(emitted) + T.Flat(taken) && |All(groups)| + |taken| == |All(old(groups))|
    {
      hide GoodGroup, Order, Held, All, Rows, Size, Of, T.Flat, Fifo;
      var (k, g) := groups[i];
      GroupSums(k, g, key, bytes);
      var count, rows, size := ChunkSize(g);
      GoodDrain(k, g, count, key, bytes);
      taken := g.batches[..count];
      var rest := g.batches[count..];
      if rest == [] {
        assert taken == g.batches;
        var _ := RemoveAt(i);
        return;
      }
      var left := Group(rest, g.rows - rows, g.bytes - size);
      Swapped(groups, i, left);
      Apart(groups, less);
      forall m {
        OfSwapped(groups, i, left, m);
      }
      FifoTaken(groups, groups[i := (k, left)], key, added, emitted, k, T.Flat(taken));
      groups, held := groups[i := (k, left)], held - size;
      emitted := emitted + T.Flat(taken);
    }

    /** The first full group. */
    method FindFull() returns (r: Option<nat>)
      ensures r.Some? ==> r.value < |groups| && Full(groups[r.value].1, limits) && NoneFull(groups[..r.value], limits)
      ensures r.None? ==> NoneFull(groups, limits)
    {
      for i := 0 to |groups|
        invariant forall j :: 0 <= j < i ==> !Full(groups[j].1, limits)
      {
        if Full(groups[i].1, limits) {
          return Some(i);
        }
      }
      r := None;
    }

    /** The last of the groups with the most bytes. */
    method FindLargest() returns (best: nat)
      requires groups != []
      ensures IsLargest(groups, best)
    {
      best := 0;
      for i := 1 to |groups|
        invariant best < i <= |groups| && forall j :: 0 <= j < i ==> groups[j].1.bytes <= groups[best].1.bytes
        invariant forall j :: best < j < i ==> groups[j].1.bytes < groups[best].1.bytes
      {
        if groups[i].1.bytes >= groups[best].1.bytes {
          best := i;
        }
      }
    }

    /** How many whole groups, in order, fit one pack: at least one. */
    method PackSize() returns (count: nat)
      requires Valid() && groups != []
      ensures IsPack(groups, limits, bytes, count)
    {
      hide Order, Sorted, GoodGroup, Held, All, Rows, Size, Fifo;
      count := 0;
      var rows, size := 0, 0;
      assert groups[..0] == [];
      NoSums(groups[..0], bytes);
      while count < |groups|
        invariant count <= |groups| && rows == Rows(All(groups[..count])) && size == Size(All(groups[..count]), bytes)
        invariant count >= 2 ==> rows <= limits.targetRows && size <= limits.packBytes
      {
        var g := groups[count].1;
        NextGroup(groups, count);
        GroupSums(groups[count].0, g, key, bytes);
        SumsConcat(All(groups[..count]), g.batches, bytes);
        if count > 0 && (rows + g.rows > limits.targetRows || size + g.bytes > limits.packBytes) {
          break;
        }
        rows, size, count := rows + g.rows, size + g.bytes, count + 1;
      }
    }

    /** Takes the first groups out, whole and in order. */
    method TakeFirst(count: nat) returns (batches: seq<Batch<R>>)
      requires Valid() && count <= |groups|
      modifies this`groups, this`held, this`emitted
      ensures Valid() && batches == All(old(groups)[..count]) && groups == old(groups)[count..]
      ensures emitted == old(emitted) + T.Flat(batches) && |All(groups)| + |batches| == |All(old(groups))|
    {
      hide Sound, Fifo, T.Flat, All;
      batches := [];
      ghost var was := groups;
      assert was[..0] == [] && was[0..] == was;
      NoGroups(was[..0]);
      for n := 0 to count
        invariant Valid() && groups == was[n..] && batches == All(was[..n])
        invariant emitted == old(emitted) + T.Flat(batches) && |All(groups)| + |batches| == |All(was)|
      {
        var g := RemoveAt(0);
        NextGroup(was, n);
        SumsConcat(batches, g.batches, bytes);
        batches := batches + g.batches;
      }
    }

    /** The next output, if any: a chunk of a full group, a large group or a pack of groups. */
    method Next(finish: bool) returns (r: Option<seq<Batch<R>>>)
      requires Valid()
      modifies this`groups, this`held, this`emitted
      ensures Valid()
      ensures r.None? <==>
                NoneFull(old(groups), limits) && (old(groups) == [] || (!finish && old(held) <= limits.maxHeld))
      ensures r.None? ==> groups == old(groups) && held == old(held) && emitted == old(emitted)
      ensures r.Some? ==>
                r.value != [] && emitted == old(emitted) + T.Flat(r.value)
                && |All(groups)| + |r.value| == |All(old(groups))|
      ensures r.Some? && !NoneFull(old(groups), limits) ==> ChunkOut(old(groups), groups, limits, bytes, r.value)
      ensures r.Some? && NoneFull(old(groups), limits) ==>
                if !finish && exists j :: 0 <= j < |old(groups)| && old(groups)[j].1.bytes >= limits.targetBytes / 4
                then LargestOut(old(groups), groups, limits, r.value)
                else PackOut(old(groups), groups, limits, bytes, r.value)
    {
      hide Sound, Fifo, IsChunk, IsPack, T.Flat, All, Rows, Size, Without;
      var full := FindFull();
      if full.Some? {
        var chunk := TakeChunk(full.value);
        ChunkNonempty(old(groups)[full.value].1.batches, limits, bytes, |chunk|);
        return Some(chunk);
      }
      if groups == [] || !(finish || held > limits.maxHeld) {
        return None;
      }
      if !finish {
        var largest := FindLargest();
        if groups[largest].1.bytes >= limits.targetBytes / 4 {
          GoodAt(largest);
          var g := RemoveAt(largest);
          return Some(g.batches);
        }
      }
      var count := PackSize();
      PackNonempty(count);
      var batches := TakeFirst(count);
      r := Some(batches);
    }

    lemma GoodAt(i: nat)
      requires Sound() && i < |groups|
      ensures groups[i].1.batches != []
    {
    }

    lemma PackNonempty(count: nat)
      requires Sound() && IsPack(groups, limits, bytes, count)
      ensures count <= |groups| && All(groups[..count]) != []
    {
      NextGroup(groups, count - 1);
      GoodAt(count - 1);
    }

    /** Handing out until nothing is left: every row added and not yet handed out comes out, each key's in order. */
    method Drain() returns (outputs: seq<seq<Batch<R>>>)
      requires Valid()
      modifies this`groups, this`held, this`emitted
      ensures Valid() && groups == [] && held == 0
      ensures emitted == old(emitted) + T.Flat(T.Flat(outputs)) && multiset(emitted) == multiset(added)
      ensures forall k :: T.Where(emitted, T.Keyed(key, k)) == T.Where(added, T.Keyed(key, k))
    {
      hide Sound, Fifo, ChunkOut, LargestOut, PackOut, T.Flat, T.Where, T.Keyed;
      outputs := [];
      NoBatches<R>();
      var done := false;
      while !done
        invariant Valid() && (done ==> groups == []) && emitted == old(emitted) + T.Flat(T.Flat(outputs))
        decreases |All(groups)| + (if done then 0 else 1)
      {
        var next := Next(true);
        if next.None? {
          done := true;
        } else {
          FlatSnoc(outputs, next.value, bytes);
          outputs := outputs + [next.value];
        }
      }
      Nothing();
    }

    /** With nothing held, what was added has been handed out. */
    lemma Nothing()
      requires Valid() && groups == []
      ensures held == 0 && multiset(emitted) == multiset(added)
      ensures forall k :: T.Where(emitted, T.Keyed(key, k)) == T.Where(added, T.Keyed(key, k))
    {
      hide T.Where, T.Keyed;
      Conserved(groups, key, bytes, added, emitted);
    }
  }

  lemma NoBatches<R>()
    ensures T.Flat<Batch<R>>([]) == [] && T.Flat<R>([]) == []
    ensures T.Flat(T.Flat<Batch<R>>([])) == []
  {
  }

  lemma FlatSnoc<R>(outputs: seq<seq<Batch<R>>>, out: seq<Batch<R>>, bytes: Batch<R> -> nat)
    ensures T.Flat(T.Flat(outputs + [out])) == T.Flat(T.Flat(outputs)) + T.Flat(out)
  {
    assert (outputs + [out])[..|outputs|] == outputs;
    SumsConcat(T.Flat(outputs), out, bytes);
  }

  lemma Apart<K(!new), R>(groups: Groups<K, R>, less: (K, K) -> bool)
    requires Order(less) && Sorted(groups, less)
    ensures Distinct(groups)
  {
  }

  lemma ChunkNonempty<R>(batches: seq<Batch<R>>, limits: Limits, bytes: Batch<R> -> nat, count: nat)
    requires IsChunk(batches, limits, bytes, count)
    ensures count >= 1
  {
  }

  lemma GroupSums<K, R>(k: K, g: Group<R>, key: R -> K, bytes: Batch<R> -> nat)
    requires GoodGroup(k, g, key, bytes)
    ensures g.batches != [] && g.rows == Rows(g.batches) && g.bytes == Size(g.batches, bytes)
  {
  }

  lemma GroupKeyed<K, R>(k: K, g: Group<R>, key: R -> K, bytes: Batch<R> -> nat)
    requires GoodGroup(k, g, key, bytes)
    ensures forall j :: 0 <= j < |T.Flat(g.batches)| ==> key(T.Flat(g.batches)[j]) == k
  {
    FlatKeyed(g.batches, key, k);
  }

  lemma NoGroups<K, R>(groups: Groups<K, R>)
    requires groups == []
    ensures All(groups) == [] && T.Flat(All(groups)) == []
  {
  }

  lemma NoSums<K, R>(groups: Groups<K, R>, bytes: Batch<R> -> nat)
    requires groups == []
    ensures Rows(All(groups)) == 0 && Size(All(groups), bytes) == 0
  {
  }

  lemma NextGroup<K, R>(groups: Groups<K, R>, n: nat)
    requires n < |groups|
    ensures All(groups[..n + 1]) == All(groups[..n]) + groups[n].1.batches && groups[n..][1..] == groups[n + 1..]
  {
    assert groups[..n + 1][..n] == groups[..n];
  }

  lemma StepKeyed<K(!new), R>(batch: seq<R>, key: R -> K, i: nat)
    requires i < |batch|
    ensures forall m :: T.Where(batch[..i + 1], T.Keyed(key, m)) ==
                        if m == key(batch[i]) then T.Where(batch[..i], T.Keyed(key, m)) + [batch[i]]
                        else T.Where(batch[..i], T.Keyed(key, m))
  {
    forall m ensures T.Where(batch[..i + 1], T.Keyed(key, m)) ==
                     if m == key(batch[i]) then T.Where(batch[..i], T.Keyed(key, m)) + [batch[i]]
                     else T.Where(batch[..i], T.Keyed(key, m)) {
      T.WhereStep(batch, T.Keyed(key, m), i);
    }
  }

  lemma {:induction false} WhereAll<R>(rows: seq<R>, p: R -> bool)
    ensures forall i :: 0 <= i < |T.Where(rows, p)| ==> p(T.Where(rows, p)[i])
    decreases |rows|
  {
    if rows != [] {
      WhereAll(rows[..|rows| - 1], p);
    }
  }

  lemma PartKeyed<K, R>(batch: seq<R>, key: R -> K, k: K)
    ensures forall j :: 0 <= j < |T.Where(batch, T.Keyed(key, k))| ==> key(T.Where(batch, T.Keyed(key, k))[j]) == k
  {
    WhereAll(batch, T.Keyed(key, k));
  }

  lemma NoneYet<K, R>(rows: seq<R>, key: R -> K, k: K, keys: set<K>)
    requires k !in keys && forall j :: 0 <= j < |rows| ==> key(rows[j]) in keys
    ensures T.Where(rows, T.Keyed(key, k)) == []
  {
    T.WhereNothing(rows, T.Keyed(key, k));
  }

  lemma StillGood<K(!new), R>(groups: Groups<K, R>, i: nat, k: K, g: Group<R>, key: R -> K, bytes: Batch<R> -> nat,
                              less: (K, K) -> bool)
    requires i <= |groups| && GoodGroups(groups, key, bytes) && Sorted(groups, less) && GoodGroup(k, g, key, bytes)
    requires forall j :: 0 <= j < i ==> less(groups[j].0, k)
    requires forall j :: i <= j < |groups| ==> less(k, groups[j].0)
    ensures GoodGroups(groups[..i] + [(k, g)] + groups[i..], key, bytes)
            && Sorted(groups[..i] + [(k, g)] + groups[i..], less)
  {
    hide GoodGroup;
  }
}
