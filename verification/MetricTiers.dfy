/**
 * Planning an hour of metric rows (`metric_tiers.rs`, `prepare`): rows are ordered and cut
 * into outputs. Series and metric names are type parameters.
 */
module MetricTiers {
  import opened Prelude
  import opened MetricGroups
  import T = Tally

  const TWO_64: nat := 0x1_0000_0000_0000_0000

  datatype Row<L> = Row(seriesId: int, ts: int, value: nat, labels: L, extra: nat)

  datatype Kind = Final | Before | After

  datatype TierError = Invalid | TooLarge

  // ---- Name partitions -------------------------------------------------------

  /** The partition of `count` equal hash ranges that holds a hash. */
  function NamePartition(hash: nat, count: nat): nat {
    hash * count / TWO_64
  }

  lemma PartitionInRange(hash: nat, count: nat)
    requires hash < TWO_64 && count > 0
    ensures NamePartition(hash, count) < count
  {
    Product(hash, count);
  }

  lemma Product(hash: nat, count: nat)
    requires hash < TWO_64 && count > 0
    ensures hash * count < TWO_64 * count
  {
  }

  /** Partitions are ranges of hashes: a larger hash is in no earlier partition. */
  lemma PartitionMonotone(a: nat, b: nat, count: nat)
    requires a <= b
    ensures NamePartition(a, count) <= NamePartition(b, count)
  {
    assert a * count <= b * count;
  }

  function In<K(==), R>(key: R -> K, keys: set<K>): R -> bool {
    r => key(r) in keys
  }

  lemma {:induction false} SplitKey<K, R>(rows: seq<R>, key: R -> K, keys: set<K>, k: K)
    requires k !in keys
    ensures multiset(T.Where(rows, In(key, keys + {k}))) ==
              multiset(T.Where(rows, In(key, keys))) + multiset(T.Where(rows, T.Keyed(key, k)))
    decreases |rows|
  {
    if rows != [] {
      SplitKey(rows[..|rows| - 1], key, keys, k);
    }
  }

  lemma {:induction false} AllKeys<K, R>(rows: seq<R>, key: R -> K, keys: set<K>)
    ensures (forall i :: 0 <= i < |rows| ==> key(rows[i]) in keys) ==> T.Where(rows, In(key, keys)) == rows
    ensures keys == {} ==> T.Where(rows, In(key, keys)) == []
    decreases |rows|
  {
    if rows != [] {
      AllKeys(rows[..|rows| - 1], key, keys);
      assert rows == rows[..|rows| - 1] + [rows[|rows| - 1]];
    }
  }

  /** What the first `n` partitions keep, together. */
  ghost function Together<R>(rows: seq<R>, part: R -> nat, n: nat): multiset<R> {
    if n == 0 then multiset{} else Together(rows, part, n - 1) + multiset(T.Where(rows, T.Keyed<R, nat>(part, n - 1)))
  }

  function Upto(n: nat): set<nat> {
    if n == 0 then {} else Upto(n - 1) + {n - 1}
  }

  lemma {:induction false} UptoHas(n: nat)
    ensures forall p: nat :: p in Upto(n) <==> p < n
  {
    if n > 0 { UptoHas(n - 1); }
  }

  lemma {:induction false} TogetherIs<R>(rows: seq<R>, part: R -> nat, n: nat)
    ensures Together(rows, part, n) == multiset(T.Where(rows, In(part, Upto(n))))
    decreases n
  {
    hide T.Where, In, T.Keyed;
    if n == 0 {
      AllKeys(rows, part, {});
    } else {
      TogetherIs(rows, part, n - 1);
      UptoHas(n - 1);
      var last: nat := n - 1;
      SplitKey<nat, R>(rows, part, Upto(n - 1), last);
      assert Upto(n) == Upto(n - 1) + {last};
    }
  }

  /** Every row is kept by exactly one of the partitions. */
  lemma KeptOnce<R>(rows: seq<R>, part: R -> nat, count: nat)
    requires forall i :: 0 <= i < |rows| ==> part(rows[i]) < count
    ensures Together(rows, part, count) == multiset(rows)
  {
    hide T.Where;
    TogetherIs(rows, part, count);
    UptoHas(count);
    AllKeys(rows, part, Upto(count));
  }

  // ---- Ordering rows ---------------------------------------------------------

  /** The place of a row relative to the hour: in it, before it or after it. */
  function Class(start: int, end: int, ts: int): nat {
    if ts < start then 1 else if ts >= end then 2 else 0
  }

  function KindOf(start: int, end: int, ts: int): Kind {
    if ts < start then Before else if ts >= end then After else Final
  }

  /** Lexicographic order of equally long keys. */
  predicate Leq(a: seq<int>, b: seq<int>)
    requires |a| == |b|
    decreases |a|
  {
    a == [] || a[0] < b[0] || (a[0] == b[0] && Leq(a[1..], b[1..]))
  }

  lemma {:induction false} LeqTotal(a: seq<int>, b: seq<int>)
    requires |a| == |b|
    ensures Leq(a, b) || Leq(b, a)
    decreases |a|
  {
    if a != [] { LeqTotal(a[1..], b[1..]); }
  }

  lemma {:induction false} LeqTransitive(a: seq<int>, b: seq<int>, c: seq<int>)
    requires |a| == |b| == |c| && Leq(a, b) && Leq(b, c)
    ensures Leq(a, c)
    decreases |a|
  {
    if a != [] && a[0] == b[0] == c[0] { LeqTransitive(a[1..], b[1..], c[1..]); }
  }

  function SortKey<L>(start: int, end: int, rank: L -> int, r: Row<L>): seq<int> {
    [Class(start, end, r.ts), rank(r.labels), r.ts, r.seriesId, r.value, r.extra]
  }

  function Keys<L>(start: int, end: int, rank: L -> int): Row<L> -> seq<int> {
    (r: Row<L>) => SortKey(start, end, rank, r)
  }

  ghost predicate SortedBy<R>(rows: seq<R>, key: R -> seq<int>) {
    forall i, j :: 0 <= i < j < |rows| ==> |key(rows[i])| == |key(rows[j])| && Leq(key(rows[i]), key(rows[j]))
  }

  /** Puts one row in its place among sorted rows. */
  method InsertRow<R>(rows: seq<R>, r: R, key: R -> seq<int>) returns (out: seq<R>)
    requires SortedBy(rows, key) && forall i :: 0 <= i < |rows| ==> |key(rows[i])| == |key(r)|
    ensures SortedBy(out, key) && multiset(out) == multiset(rows) + multiset{r} && |out| == |rows| + 1
    ensures forall i :: 0 <= i < |out| ==> |key(out[i])| == |key(r)|
  {
    hide SortedBy, Leq;
    var n := |rows|;
    while n > 0 && !Leq(key(rows[n - 1]), key(r))
      invariant 0 <= n <= |rows|
      invariant forall i :: n <= i < |rows| ==> |key(rows[i])| == |key(r)| && Leq(key(r), key(rows[i]))
    {
      LeqTotal(key(rows[n - 1]), key(r));
      n := n - 1;
    }
    out := rows[..n] + [r] + rows[n..];
    Fitted(rows, r, n, key);
    PutIn(rows, r, n);
    forall i | 0 <= i < |out| ensures |key(out[i])| == |key(r)| {
      assert out[i] == if i < n then rows[i] else if i == n then r else rows[i - 1];
    }
  }

  lemma PutIn<R>(rows: seq<R>, r: R, n: nat)
    requires n <= |rows|
    ensures multiset(rows[..n] + [r] + rows[n..]) == multiset(rows) + multiset{r}
  {
    assert rows == rows[..n] + rows[n..];
  }

  lemma Fitted<R>(rows: seq<R>, r: R, n: nat, key: R -> seq<int>)
    requires n <= |rows| && SortedBy(rows, key) && forall i :: 0 <= i < |rows| ==> |key(rows[i])| == |key(r)|
    requires n > 0 ==> Leq(key(rows[n - 1]), key(r))
    requires forall i :: n <= i < |rows| ==> Leq(key(r), key(rows[i]))
    ensures SortedBy(rows[..n] + [r] + rows[n..], key)
  {
    hide Leq;
    forall i | 0 <= i < n ensures Leq(key(rows[i]), key(r)) {
      if i < n - 1 { LeqTransitive(key(rows[i]), key(rows[n - 1]), key(r)); }
    }
  }

  method Sort<R>(rows: seq<R>, key: R -> seq<int>) returns (out: seq<R>)
    requires forall i, j :: 0 <= i < |rows| && 0 <= j < |rows| ==> |key(rows[i])| == |key(rows[j])|
    ensures SortedBy(out, key) && multiset(out) == multiset(rows) && |out| == |rows|
  {
    hide SortedBy;
    out := [];
    Trivial(out, key);
    for i := 0 to |rows|
      invariant SortedBy(out, key) && multiset(out) == multiset(rows[..i]) && |out| == i
      invariant forall k, j :: 0 <= k < |out| && 0 <= j < |rows| ==> |key(out[k])| == |key(rows[j])|
    {
      assert rows[..i + 1] == rows[..i] + [rows[i]];
      out := InsertRow(out, rows[i], key);
    }
    assert rows[..|rows|] == rows;
  }

  lemma Trivial<R>(rows: seq<R>, key: R -> seq<int>)
    requires rows == []
    ensures SortedBy(rows, key)
  {
  }

  // ---- The builder -----------------------------------------------------------

  function NamesOf<L, N>(rows: seq<Row<L>>, name: L -> N): seq<N> {
    seq(|rows|, i requires 0 <= i < |rows| => name(rows[i].labels))
  }

  function LabelsOf<L>(rows: seq<Row<L>>): seq<L> {
    seq(|rows|, i requires 0 <= i < |rows| => rows[i].labels)
  }

  /** Every planned range holds rows of its kind. */
  ghost predicate Kinds<L>(plan: seq<(Kind, Range)>, rows: seq<Row<L>>, start: int, end: int) {
    forall k :: 0 <= k < |plan| ==>
      plan[k].1.start <= plan[k].1.end <= |rows|
      && forall i :: plan[k].1.start <= i < plan[k].1.end ==> KindOf(start, end, rows[i].ts) == plan[k].0
  }

  function Ranges(plan: seq<(Kind, Range)>): seq<Range> {
    seq(|plan|, i requires 0 <= i < |plan| => plan[i].1)
  }

  /** The first row at or after `from` whose class is not `c`. */
  method ClassEnd<L>(sorted: seq<Row<L>>, start: int, end: int, from: nat, c: nat) returns (n: nat)
    requires from <= |sorted|
    ensures from <= n <= |sorted| && forall i :: from <= i < n ==> Class(start, end, sorted[i].ts) == c
    ensures n < |sorted| ==> Class(start, end, sorted[n].ts) != c
  {
    n := from;
    while n < |sorted| && Class(start, end, sorted[n].ts) == c
      invariant from <= n <= |sorted| && forall i :: from <= i < n ==> Class(start, end, sorted[i].ts) == c
    {
      n := n + 1;
    }
  }

  /**
   The ranges hold the rows kind by kind: first the hour's, `finals` outputs that respect series,
   metrics and limits.
   */
  ghost predicate IsPlan<L, N>(pending: seq<(Kind, Range)>, rows: seq<Row<L>>, start: int, end: int, name: L -> N,
                               inside: nat, finals: nat, targetRows: nat, maxNames: nat) {
    && Tile(Ranges(pending), |rows|) && Kinds(pending, rows, start, end)
    && inside <= |rows| && finals <= |pending| && Tile(Ranges(pending)[..finals], inside)
    && GoodRanges(NamesOf(rows[..inside], name), LabelsOf(rows[..inside]), Ranges(pending)[..finals],
                  if targetRows < 1 then 1 else targetRows, maxNames)
    && forall i :: 0 <= i < |rows| ==> (KindOf(start, end, rows[i].ts) == Final <==> i < inside)
  }

  /** Orders the rows and plans the outputs: the hour's rows by metric, then the rows before and after it. */
  method PlanRows<L(==, !new), N(==, !new)>(rows: seq<Row<L>>, start: int, end: int, targetRows: nat, maxNames: nat,
                                            name: L -> N, rank: L -> int)
    returns (sorted: seq<Row<L>>, pending: seq<(Kind, Range)>, inside: nat, ghost finals: nat)
    ensures multiset(sorted) == multiset(rows) && SortedBy(sorted, Keys(start, end, rank))
    ensures IsPlan(pending, sorted, start, end, name, inside, finals, targetRows, maxNames)
  {
    hide SortedBy, GoodRanges, Tile, Class, Kinds;
    sorted := Sort(rows, Keys(start, end, rank));
    inside := ClassEnd(sorted, start, end, 0, 0);
    var before := ClassEnd(sorted, start, end, inside, 1);
    Ordered(sorted, start, end, rank, inside, before);
    NamesFollow(sorted[..inside], name);
    var ranges := Groups(NamesOf(sorted[..inside], name), LabelsOf(sorted[..inside]), targetRows, maxNames);
    pending := Tagged(Final, ranges) + Tail(Before, inside, before) + Tail(After, before, |sorted|);
    Planned(ranges, sorted, start, end, inside, before);
    finals := |ranges|;
  }

  function IsKind<L>(start: int, end: int, kind: Kind): Row<L> -> bool {
    (r: Row<L>) => KindOf(start, end, r.ts) == kind
  }

  /** The rows of the planned outputs of one kind, in order. */
  ghost function Emitted<L>(plan: seq<(Kind, Range)>, rows: seq<Row<L>>, kind: Kind): seq<Row<L>>
    requires forall k :: 0 <= k < |plan| ==> plan[k].1.start <= plan[k].1.end <= |rows|
  {
    if plan == [] then []
    else
      var n := |plan| - 1;
      Emitted(plan[..n], rows, kind) + if plan[n].0 == kind then rows[plan[n].1.start..plan[n].1.end] else []
  }

  /** A plan's outputs of a kind are exactly the rows of that kind: each once, none other. */
  lemma {:induction false} EmittedOnce<L>(plan: seq<(Kind, Range)>, rows: seq<Row<L>>, start: int, end: int,
                                          kind: Kind, n: nat)
    requires n <= |rows| && Tile(Ranges(plan), n) && Kinds(plan, rows, start, end)
    ensures Emitted(plan, rows, kind) == T.Where(rows[..n], IsKind(start, end, kind))
    decreases |plan|
  {
    hide T.Where, KindOf;
    if plan == [] {
      assert rows[..n] == [];
      T.WhereNothing(rows[..n], IsKind(start, end, kind));
    } else {
      var m := |plan| - 1;
      var r := plan[m].1;
      assert Ranges(plan)[m] == r && forall k :: 0 <= k < m ==> Ranges(plan[..m])[k] == Ranges(plan)[k];
      assert r.end == n && Tile(Ranges(plan[..m]), r.start);
      EmittedOnce(plan[..m], rows, start, end, kind, r.start);
      assert rows[..n] == rows[..r.start] + rows[r.start..n];
      T.WhereConcat(rows[..r.start], rows[r.start..n], IsKind(start, end, kind));
      Uniform(rows[r.start..n], start, end, plan[m].0, kind);
    }
  }

  lemma Uniform<L>(rows: seq<Row<L>>, start: int, end: int, have: Kind, kind: Kind)
    requires forall i :: 0 <= i < |rows| ==> KindOf(start, end, rows[i].ts) == have
    ensures T.Where(rows, IsKind(start, end, kind)) == if have == kind then rows else []
  {
    hide T.Where, KindOf;
    if have == kind {
      T.WhereEvery(rows, IsKind(start, end, kind));
    } else {
      T.WhereNothing(rows, IsKind(start, end, kind));
    }
  }

  function Tagged(kind: Kind, ranges: seq<Range>): seq<(Kind, Range)> {
    seq(|ranges|, i requires 0 <= i < |ranges| => (kind, ranges[i]))
  }

  /** One output for the rows between two places, unless there are none. */
  function Tail(kind: Kind, from: nat, to: nat): seq<(Kind, Range)> {
    if from < to then [(kind, Range(from, to))] else []
  }

  /** Sorted rows are the hour's, then earlier ones, then later ones. */
  lemma Ordered<L>(sorted: seq<Row<L>>, start: int, end: int, rank: L -> int, inside: nat, before: nat)
    requires SortedBy(sorted, Keys(start, end, rank))
    requires inside <= before <= |sorted|
    requires forall i :: 0 <= i < inside ==> Class(start, end, sorted[i].ts) == 0
    requires forall i :: inside <= i < before ==> Class(start, end, sorted[i].ts) == 1
    requires inside < |sorted| ==> Class(start, end, sorted[inside].ts) != 0
    requires before < |sorted| ==> Class(start, end, sorted[before].ts) != 1
    ensures forall i :: before <= i < |sorted| ==> Class(start, end, sorted[i].ts) == 2
  {
    hide Class;
    var key := Keys(start, end, rank);
    forall i | before <= i < |sorted| ensures Class(start, end, sorted[i].ts) == 2 {
      ClassRange(start, end, sorted[before].ts);
      ClassRange(start, end, sorted[i].ts);
      ClassRange(start, end, sorted[inside].ts);
      if before < i {
        assert Leq(key(sorted[before]), key(sorted[i]));
      }
      if inside < before {
        assert Leq(key(sorted[inside]), key(sorted[before]));
      }
    }
  }

  lemma ClassRange(start: int, end: int, ts: int)
    ensures Class(start, end, ts) in {0, 1, 2}
  {
  }

  lemma NamesFollow<L, N>(rows: seq<Row<L>>, name: L -> N)
    ensures var names, labels := NamesOf(rows, name), LabelsOf(rows);
            |names| == |labels| && forall i :: 0 < i < |labels| && names[i - 1] != names[i] ==>
              labels[i - 1] != labels[i]
  {
  }

  lemma Planned<L>(ranges: seq<Range>, sorted: seq<Row<L>>, start: int, end: int, inside: nat, before: nat)
    requires Tile(ranges, inside) && inside <= before <= |sorted|
    requires forall i :: 0 <= i < inside ==> Class(start, end, sorted[i].ts) == 0
    requires forall i :: inside <= i < before ==> Class(start, end, sorted[i].ts) == 1
    requires forall i :: before <= i < |sorted| ==> Class(start, end, sorted[i].ts) == 2
    ensures var pending := Tagged(Final, ranges) + Tail(Before, inside, before) + Tail(After, before, |sorted|);
            && Tile(Ranges(pending), |sorted|) && Kinds(pending, sorted, start, end)
            && Ranges(pending)[..|ranges|] == ranges
    ensures forall i :: 0 <= i < |sorted| ==> (KindOf(start, end, sorted[i].ts) == Final <==> i < inside)
  {
    var first, second := Tagged(Final, ranges), Tail(Before, inside, before);
    var third := Tail(After, before, |sorted|);
    TilePlan(ranges, first, second, third, inside, before, |sorted|);
    TileInside(ranges, inside);
    hide Tile, Ranges;
    KindsAt(first, sorted, start, end, Final, 0, inside);
    KindsAt(second, sorted, start, end, Before, inside, before);
    KindsAt(third, sorted, start, end, After, before, |sorted|);
  }

  lemma KindsAt<L>(plan: seq<(Kind, Range)>, rows: seq<Row<L>>, start: int, end: int, kind: Kind, from: nat, to: nat)
    requires from <= to <= |rows| && forall i :: from <= i < to ==> KindOf(start, end, rows[i].ts) == kind
    requires forall k :: 0 <= k < |plan| ==> plan[k].0 == kind && from <= plan[k].1.start <= plan[k].1.end <= to
    ensures Kinds(plan, rows, start, end)
  {
  }

  lemma TilePlan(ranges: seq<Range>, first: seq<(Kind, Range)>, second: seq<(Kind, Range)>, third: seq<(Kind, Range)>,
                 inside: nat, before: nat, n: nat)
    requires Tile(ranges, inside) && inside <= before <= n
    requires first == Tagged(Final, ranges) && second == Tail(Before, inside, before) && third == Tail(After, before, n)
    ensures Tile(Ranges(first + second + third), n) && Ranges(first + second + third)[..|ranges|] == ranges
  {
    assert Ranges(first) == ranges;
    assert Ranges(first + second + third) == ranges + Ranges(second) + Ranges(third);
    hide Tile;
    TileMore(ranges, inside, before);
    TileMore(ranges + Ranges(second), before, n);
  }

  lemma TileMore(ranges: seq<Range>, from: nat, to: nat)
    requires Tile(ranges, from) && from <= to
    ensures Tile(ranges + Ranges(Tail(Final, from, to)), to)
    ensures forall k :: Ranges(Tail(k, from, to)) == Ranges(Tail(Final, from, to))
  {
    forall k ensures Ranges(Tail(k, from, to)) == if from < to then [Range(from, to)] else [] {
    }
    assert from == to ==> ranges + [] == ranges;
  }

  lemma TileInside(ranges: seq<Range>, n: nat)
    requires Tile(ranges, n)
    ensures forall k :: 0 <= k < |ranges| ==> ranges[k].end <= n
  {
    forall k | 0 <= k < |ranges| ensures ranges[k].end <= n {
      if k + 1 < |ranges| { EndsInside(ranges, n, k); }
    }
  }
}
