/** Interned label sets and their order (`metric_tiers.rs`, `Series`), and what it gives a finalized hour. */
module MetricSeries {
  import opened Prelude
  import opened Text
  import opened MetricGroups
  import opened MetricTiers
  import Canonical
  import M = MetricRollup
  import Runs

  const MAX_SERIES: nat := 4_000_000
  /** The octets of `__name__`. */
  const NAME: Bytes := [95, 95, 110, 97, 109, 101, 95, 95]

  /** Strictly sorted names, and text everywhere. */
  predicate Ordered(pairs: Canonical.Pairs) {
    && (forall i :: 0 < i < |pairs| ==> Less(pairs[i - 1].0, pairs[i].0))
    && (forall i :: 0 <= i < |pairs| ==> Utf8(pairs[i].0) && Utf8(pairs[i].1))
  }

  /** The metric name of canonical labels, empty when they have none; none for bytes that are no such labels. */
  function NameOf(canonical: Bytes): Option<Bytes> {
    var pairs :- Canonical.Parse(canonical);
    if !Ordered(pairs) then None
    else
      var got := Canonical.Get(pairs, NAME);
      Some(if got.Some? then got.value else [])
  }

  // ---- Ranking ---------------------------------------------------------------

  /** A strict total order on the numbers below `n`. */
  ghost predicate Total(n: nat, less: (nat, nat) -> bool) {
    && (forall a: nat :: a < n ==> !less(a, a))
    && (forall a: nat, b: nat, c: nat :: a < n && b < n && c < n && less(a, b) && less(b, c) ==> less(a, c))
    && (forall a: nat, b: nat :: a < n && b < n && a != b ==> less(a, b) || less(b, a))
  }

  ghost predicate Ascending(order: seq<nat>, n: nat, less: (nat, nat) -> bool) {
    && (forall i :: 0 <= i < |order| ==> order[i] < n)
    && (forall i, j :: 0 <= i < j < |order| ==> less(order[i], order[j]))
  }

  /** Puts one more number in its place. */
  method Insert(order: seq<nat>, x: nat, n: nat, less: (nat, nat) -> bool) returns (out: seq<nat>)
    requires Total(n, less) && Ascending(order, n, less) && x < n && x !in order
    ensures Ascending(out, n, less) && |out| == |order| + 1 && forall y :: y in out <==> y == x || y in order
  {
    var i := |order|;
    while i > 0 && less(x, order[i - 1])
      invariant 0 <= i <= |order| && forall j :: i <= j < |order| ==> less(x, order[j])
    {
      i := i - 1;
    }
    out := order[..i] + [x] + order[i..];
    assert order == order[..i] + order[i..];
    Placed(order, x, i, n, less);
  }

  lemma Placed(order: seq<nat>, x: nat, i: nat, n: nat, less: (nat, nat) -> bool)
    requires Total(n, less) && Ascending(order, n, less) && x < n && x !in order && i <= |order|
    requires (i > 0 ==> !less(x, order[i - 1])) && forall j :: i <= j < |order| ==> less(x, order[j])
    ensures Ascending(order[..i] + [x] + order[i..], n, less)
  {
    forall j | 0 <= j < i ensures less(order[j], x) {
      assert order[i - 1] in order && less(order[i - 1], x);
      if j < i - 1 {
        assert less(order[j], order[i - 1]);
      }
    }
  }

  /** The place of every number in the order. */
  method Rank(n: nat, less: (nat, nat) -> bool) returns (ranks: seq<nat>)
    requires Total(n, less)
    ensures |ranks| == n && forall a: nat, b: nat :: a < n && b < n ==> (ranks[a] < ranks[b] <==> less(a, b))
  {
    hide Total, Ascending;
    var order: seq<nat> := [];
    Begin(n, less);
    for x := 0 to n
      invariant Ascending(order, n, less) && |order| == x && forall y: nat :: y in order <==> y < x
    {
      order := Insert(order, x, n, less);
    }
    ranks := seq(n, i => 0);
    var i := 0;
    while i < n
      invariant i <= n && |ranks| == n && forall j :: 0 <= j < i ==> order[j] < n && ranks[order[j]] == j
    {
      Apart(order, n, less, i);
      ranks, i := ranks[order[i] := i], i + 1;
    }
    Ranked(order, ranks, n, less);
  }

  lemma Begin(n: nat, less: (nat, nat) -> bool)
    ensures Ascending([], n, less)
  {
  }

  lemma Apart(order: seq<nat>, n: nat, less: (nat, nat) -> bool, i: nat)
    requires Total(n, less) && Ascending(order, n, less) && i < |order|
    ensures order[i] < n && forall j :: 0 <= j < i ==> order[j] != order[i]
  {
  }

  lemma Ranked(order: seq<nat>, ranks: seq<nat>, n: nat, less: (nat, nat) -> bool)
    requires Total(n, less) && Ascending(order, n, less) && |order| == |ranks| == n
    requires forall y: nat :: y in order <==> y < n
    requires forall j :: 0 <= j < n ==> order[j] < n && ranks[order[j]] == j
    ensures forall a: nat, b: nat :: a < n && b < n ==> (ranks[a] < ranks[b] <==> less(a, b))
  {
    forall a: nat, b: nat | a < n && b < n ensures ranks[a] < ranks[b] <==> less(a, b) {
      assert a in order && b in order;
      var i :| 0 <= i < n && order[i] == a;
      var j :| 0 <= j < n && order[j] == b;
    }
  }

  // ---- Interned label sets ---------------------------------------------------

  /** Byte order, then what follows. */
  predicate KeyLess(a: (nat, Bytes, Bytes), b: (nat, Bytes, Bytes)) {
    a.0 < b.0 || (a.0 == b.0 && (Less(a.1, b.1) || (a.1 == b.1 && Less(a.2, b.2))))
  }

  lemma KeyTotal(a: (nat, Bytes, Bytes), b: (nat, Bytes, Bytes), c: (nat, Bytes, Bytes))
    ensures !KeyLess(a, a) && (KeyLess(a, b) && KeyLess(b, c) ==> KeyLess(a, c))
    ensures a.2 != b.2 ==> KeyLess(a, b) || KeyLess(b, a)
    ensures KeyLess(a, b) ==> !KeyLess(b, a)
  {
    hide Less;
    Trichotomy(a.1, a.1);
    Trichotomy(a.2, a.2);
    Trichotomy(a.1, b.1);
    Trichotomy(a.2, b.2);
    Trichotomy(b.1, c.1);
    if Less(a.1, b.1) && Less(b.1, c.1) { LessTransitive(a.1, b.1, c.1); }
    if Less(a.2, b.2) && Less(b.2, c.2) { LessTransitive(a.2, b.2, c.2); }
  }

  class Series {
    const hash: Bytes -> nat
    var canonical: seq<Bytes>
    var names: seq<Bytes>
    var index: map<Bytes, nat>

    constructor (hash: Bytes -> nat)
      ensures Valid() && canonical == [] && this.hash == hash
    {
      this.hash := hash;
      canonical, names, index := [], [], map[];
    }

    /** Distinct label sets with their names, and the table that finds them. */
    ghost predicate Valid()
      reads this
    {
      && |names| == |canonical| == |index.Keys| <= MAX_SERIES
      && (forall i :: 0 <= i < |canonical| ==>
            canonical[i] in index && index[canonical[i]] == i && NameOf(canonical[i]) == Some(names[i]))
      && forall c :: c in index ==> index[c] < |canonical| && canonical[index[c]] == c
    }

    /** The number of a label set, a new one for a new label set. */
    method Intern(labels: Bytes) returns (r: Result<nat, TierError>)
      requires Valid()
      modifies this`canonical, this`names, this`index
      ensures Valid() && old(canonical) <= canonical
      ensures r.Ok? ==> r.value < |canonical| && canonical[r.value] == labels
      ensures r.Ok? <==> labels in old(canonical) || (|old(canonical)| < MAX_SERIES && NameOf(labels).Some?)
      ensures r.Err? || labels in old(canonical) ==> canonical == old(canonical)
      ensures index.Keys == old(index.Keys) + if r.Ok? then {labels} else {}
      ensures r.Err? ==> r.error == if |canonical| >= MAX_SERIES then TooLarge else Invalid
    {
      hide NameOf;
      if labels in index {
        return Ok(index[labels]);
      }
      if |canonical| >= MAX_SERIES {
        return Err(TooLarge);
      }
      var name := NameOf(labels);
      if name.None? {
        return Err(Invalid);
      }
      r := Ok(|canonical|);
      canonical, names, index := canonical + [labels], names + [name.value], index[labels := |canonical|];
    }

    function KeyOf(i: nat): (nat, Bytes, Bytes)
      requires i < |names| && i < |canonical|
      reads this
    {
      (hash(names[i]), names[i], canonical[i])
    }

    /** Each label set's place in the order of name hash, name and labels. */
    method Ranks() returns (ranks: seq<nat>)
      requires Valid()
      ensures |ranks| == |canonical|
      ensures forall a: nat, b: nat :: a < |canonical| && b < |canonical| ==>
                (ranks[a] < ranks[b] <==> KeyLess(KeyOf(a), KeyOf(b)))
    {
      hide KeyLess, NameOf;
      var keys := seq(|canonical|,
                      i requires 0 <= i < |canonical| reads this requires |names| == |canonical| => KeyOf(i));
      var less := (a: nat, b: nat) => a < |keys| && b < |keys| && KeyLess(keys[a], keys[b]);
      forall a: nat, b: nat, c: nat | a < |keys| && b < |keys| && c < |keys|
        ensures !less(a, a) && (less(a, b) && less(b, c) ==> less(a, c)) && (a != b ==> less(a, b) || less(b, a))
      {
        KeyTotal(keys[a], keys[b], keys[c]);
      }
      ranks := Rank(|canonical|, less);
    }
  }

  // ---- The order of an hour's rows -------------------------------------------

  function RankOf(ranks: seq<nat>): nat -> int {
    (i: nat) => if i < |ranks| then ranks[i] else 0
  }

  function NameAt(names: seq<Bytes>): nat -> Bytes {
    (i: nat) => if i < |names| then names[i] else []
  }

  /** Ranks tell series apart, and keep the series of one name next to each other. */
  ghost predicate Orders(rank: nat -> int, name: nat -> Bytes, n: nat) {
    && (forall a: nat, b: nat :: a < n && b < n && rank(a) == rank(b) ==> a == b)
    && (forall a: nat, b: nat, c: nat ::
          a < n && b < n && c < n && rank(a) <= rank(b) <= rank(c) && name(a) == name(c) ==> name(b) == name(a))
  }

  lemma KeyBetween(a: (nat, Bytes, Bytes), b: (nat, Bytes, Bytes), c: (nat, Bytes, Bytes))
    requires (a == b || KeyLess(a, b)) && (b == c || KeyLess(b, c)) && a.0 == c.0 && a.1 == c.1
    ensures b.1 == a.1
  {
    hide Less;
    Trichotomy(a.1, b.1);
  }

  /** Larger ranks have larger name hashes, so no earlier partition. */
  lemma RankedHashes(s: Series, ranks: seq<nat>, a: nat, b: nat, count: nat)
    requires s.Valid() && |ranks| == |s.canonical| && a < |ranks| && b < |ranks| && ranks[a] < ranks[b]
    requires ranks[a] < ranks[b] <==> KeyLess(s.KeyOf(a), s.KeyOf(b))
    ensures NamePartition(s.hash(s.names[a]), count) <= NamePartition(s.hash(s.names[b]), count)
  {
    hide NamePartition, NameOf;
    PartitionMonotone(s.hash(s.names[a]), s.hash(s.names[b]), count);
  }

  lemma RanksOrder(s: Series, ranks: seq<nat>)
    requires s.Valid() && |ranks| == |s.canonical|
    requires forall a: nat, b: nat :: a < |ranks| && b < |ranks| ==>
               (ranks[a] < ranks[b] <==> KeyLess(s.KeyOf(a), s.KeyOf(b)))
    ensures Orders(RankOf(ranks), NameAt(s.names), |s.canonical|)
  {
    hide KeyLess, NameOf;
    var n := |s.canonical|;
    forall a: nat, b: nat | a < n && b < n && ranks[a] == ranks[b] ensures a == b {
      KeyTotal(s.KeyOf(a), s.KeyOf(b), s.KeyOf(a));
    }
    forall a: nat, b: nat, c: nat | a < n && b < n && c < n && ranks[a] <= ranks[b] <= ranks[c]
                                    && s.names[a] == s.names[c]
      ensures s.names[b] == s.names[a]
    {
      KeyTotal(s.KeyOf(a), s.KeyOf(b), s.KeyOf(a));
      KeyTotal(s.KeyOf(b), s.KeyOf(c), s.KeyOf(b));
      KeyBetween(s.KeyOf(a), s.KeyOf(b), s.KeyOf(c));
    }
  }

  /** In sorted rows of the hour, series and metrics are whole runs, and each series is in time order. */
  lemma HourInOrder(rows: seq<Row<nat>>, start: int, end: int, rank: nat -> int, name: nat -> Bytes, n: nat)
    requires SortedBy(rows, Keys(start, end, rank)) && Orders(rank, name, n)
    requires forall i :: 0 <= i < |rows| ==> Class(start, end, rows[i].ts) == 0 && rows[i].labels < n
    ensures M.InOrder(rows) && Grouped(LabelsOf(rows)) && Grouped(NamesOf(rows, name))
  {
    hide Class, Orders, SortedBy;
    Climb(rows, start, end, rank);
    SeriesTogether(rows, rank, name, n);
    MetricsTogether(rows, rank, name, n);
  }

  ghost predicate Climbs(rows: seq<Row<nat>>, rank: nat -> int) {
    forall i, j :: 0 <= i < j < |rows| ==>
      rank(rows[i].labels) <= rank(rows[j].labels)
      && (rank(rows[i].labels) == rank(rows[j].labels) ==> rows[i].ts <= rows[j].ts)
  }

  lemma Climb(rows: seq<Row<nat>>, start: int, end: int, rank: nat -> int)
    requires SortedBy(rows, Keys(start, end, rank))
    requires forall i :: 0 <= i < |rows| ==> Class(start, end, rows[i].ts) == 0
    ensures Climbs(rows, rank)
  {
    hide Class, Leq;
    forall i, j | 0 <= i < j < |rows|
      ensures rank(rows[i].labels) <= rank(rows[j].labels)
              && (rank(rows[i].labels) == rank(rows[j].labels) ==> rows[i].ts <= rows[j].ts)
    {
      RankThenTime(rows[i], rows[j], start, end, rank);
    }
  }

  lemma SeriesTogether(rows: seq<Row<nat>>, rank: nat -> int, name: nat -> Bytes, n: nat)
    requires Climbs(rows, rank) && Orders(rank, name, n) && forall i :: 0 <= i < |rows| ==> rows[i].labels < n
    ensures M.InOrder(rows) && Grouped(LabelsOf(rows))
  {
    hide Orders;
    forall i, k, j | 0 <= i <= k <= j < |rows| && rows[i].labels == rows[j].labels
      ensures rows[k].labels == rows[i].labels
    {
      SameRank(rank, name, n, rows[i].labels, rows[k].labels);
    }
    assert Runs.Together(rows, M.LabelsAt());
  }

  lemma MetricsTogether(rows: seq<Row<nat>>, rank: nat -> int, name: nat -> Bytes, n: nat)
    requires Climbs(rows, rank) && Orders(rank, name, n) && forall i :: 0 <= i < |rows| ==> rows[i].labels < n
    ensures Grouped(NamesOf(rows, name))
  {
    hide Orders;
    forall i, k, j | 0 <= i <= k <= j < |rows| && name(rows[i].labels) == name(rows[j].labels)
      ensures name(rows[k].labels) == name(rows[i].labels)
    {
      NameBetween(rank, name, n, rows[i].labels, rows[k].labels, rows[j].labels);
    }
  }

  lemma RankThenTime(a: Row<nat>, b: Row<nat>, start: int, end: int, rank: nat -> int)
    requires Class(start, end, a.ts) == Class(start, end, b.ts)
    requires Leq(SortKey(start, end, rank, a), SortKey(start, end, rank, b))
    ensures rank(a.labels) <= rank(b.labels) && (rank(a.labels) == rank(b.labels) ==> a.ts <= b.ts)
  {
    hide Class;
    var x, y := SortKey(start, end, rank, a), SortKey(start, end, rank, b);
    assert Leq(x[1..], y[1..]);
    assert x[1..][0] == rank(a.labels) && y[1..][0] == rank(b.labels);
    assert x[1..][1..] == x[2..] && y[1..][1..] == y[2..] && x[2..][0] == a.ts && y[2..][0] == b.ts;
    if rank(a.labels) == rank(b.labels) {
      assert Leq(x[2..], y[2..]);
    }
  }

  lemma SameRank(rank: nat -> int, name: nat -> Bytes, n: nat, a: nat, b: nat)
    requires Orders(rank, name, n) && a < n && b < n
    ensures rank(a) == rank(b) ==> a == b
  {
  }

  lemma NameBetween(rank: nat -> int, name: nat -> Bytes, n: nat, a: nat, b: nat, c: nat)
    requires Orders(rank, name, n) && a < n && b < n && c < n && name(a) == name(c)
    ensures rank(a) <= rank(b) <= rank(c) ==> name(b) == name(a)
  {
  }

  /** The first rows are the hour's, sorted. */
  lemma HourRows(rows: seq<Row<nat>>, inside: nat, start: int, end: int, rank: nat -> int)
    requires SortedBy(rows, Keys(start, end, rank)) && inside <= |rows|
    requires forall i :: 0 <= i < |rows| ==> (KindOf(start, end, rows[i].ts) == Final <==> i < inside)
    ensures SortedBy(rows[..inside], Keys(start, end, rank))
    ensures forall i :: 0 <= i < inside ==> Class(start, end, rows[i].ts) == 0
  {
    hide Leq;
  }
}
