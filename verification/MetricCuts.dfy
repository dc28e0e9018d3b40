/**
 * What the cut of sorted rows into outputs means for the outputs themselves:
 * whole series, metrics whole unless they do not fit, and bounded sizes.
 */
module MetricCuts {
  import opened MetricGroups
  import T = Tally

  function Keys<X, K>(xs: seq<X>, key: X -> K): seq<K> {
    seq(|xs|, i requires 0 <= i < |xs| => key(xs[i]))
  }

  lemma KeyAt<X, K>(xs: seq<X>, n: nat, i: nat, key: X -> K)
    requires i < n <= |xs|
    ensures Keys(xs[..n], key)[i] == key(xs[i])
  {
  }

  ghost predicate Uniform<X, L>(xs: seq<X>, series: X -> L) {
    forall x, y :: x in xs && y in xs ==> series(x) == series(y)
  }

  ghost function KeySet<X, K>(xs: seq<X>, key: X -> K): set<K> {
    set x | x in xs :: key(x)
  }

  /** An output has rows, no more than the target unless of one series, and of few enough names. */
  ghost predicate WellSized<X, L, N>(rows: seq<X>, series: X -> L, name: X -> N, target: nat, maxNames: nat) {
    && rows != [] && (|rows| <= target || Uniform(rows, series))
    && |KeySet(rows, name)| <= (if maxNames < 1 then 1 else maxNames)
  }

  /** Rows of different outputs are of different series; of one metric only when its rows pass the target. */
  ghost predicate Separate<X, L, N>(all: seq<X>, a: seq<X>, b: seq<X>, series: X -> L, name: X -> N, target: nat) {
    forall x, y :: x in a && y in b ==>
      series(x) != series(y) && (name(x) == name(y) ==> |T.Where(all, T.Keyed(name, name(x)))| > target)
  }

  ghost predicate WellCut<X, L, N>(outs: seq<seq<X>>, series: X -> L, name: X -> N, target: nat, maxNames: nat) {
    && (forall k :: 0 <= k < |outs| ==> WellSized(outs[k], series, name, target, maxNames))
    && forall j, k :: 0 <= j < k < |outs| ==> Separate(T.Flat(outs), outs[j], outs[k], series, name, target)
  }

  /** The rows of each range. */
  ghost function Pieces<X>(rows: seq<X>, ranges: seq<Range>): seq<seq<X>>
    requires forall k :: 0 <= k < |ranges| ==> ranges[k].start <= ranges[k].end <= |rows|
  {
    seq(|ranges|, k requires 0 <= k < |ranges| => rows[ranges[k].start..ranges[k].end])
  }

  // ---- Sizes -----------------------------------------------------------------

  /** Rows touch at least as many runs of names as they have names. */
  lemma {:induction false} NamesBelowRuns<X, N>(rows: seq<X>, name: X -> N, a: nat, b: nat)
    requires a < b <= |rows|
    ensures |KeySet(rows[a..b], name)| <= Runs(Keys(rows, name), a, b)
    decreases b - a
  {
    hide KeySet;
    if a + 1 == b {
      assert |rows[a..b]| == 1 && rows[a..b][0] == rows[a];
      assert rows[a..b] == [rows[a]] && [] + [rows[a]] == [rows[a]];
      KeysMore([], rows[a], name);
      NoKeys(name);
    } else {
      var less, x := rows[a..b - 1], rows[b - 1];
      assert rows[a..b] == less + [x];
      KeysMore(less, x, name);
      NamesBelowRuns(rows, name, a, b - 1);
      if name(rows[b - 2]) == name(x) {
        assert rows[b - 2] == less[b - 2 - a];
        KeyHas(less, rows[b - 2], name);
        assert KeySet(less, name) + {name(x)} == KeySet(less, name);
      }
    }
  }

  lemma NoKeys<X, K>(key: X -> K)
    ensures KeySet([], key) == {}
  {
  }

  lemma KeyHas<X, K>(xs: seq<X>, x: X, key: X -> K)
    requires x in xs
    ensures key(x) in KeySet(xs, key)
  {
  }

  lemma KeysMore<X, K>(xs: seq<X>, x: X, key: X -> K)
    ensures KeySet(xs + [x], key) == KeySet(xs, key) + {key(x)}
  {
    assert x in xs + [x];
    forall y | y in xs ensures y in xs + [x] {
    }
  }

  lemma SizedRange<X, L, N>(rows: seq<X>, r: Range, series: X -> L, name: X -> N, target: nat, maxNames: nat)
    requires r.start < r.end <= |rows| && GoodRange(Keys(rows, name), Keys(rows, series), r, target, maxNames)
    ensures WellSized(rows[r.start..r.end], series, name, target, maxNames)
  {
    hide Runs, KeySet;
    NamesBelowRuns(rows, name, r.start, r.end);
    var here, labels := rows[r.start..r.end], Keys(rows, series);
    if |here| > target {
      forall x, y | x in here && y in here ensures series(x) == series(y) {
        var i :| 0 <= i < |here| && here[i] == x;
        var j :| 0 <= j < |here| && here[j] == y;
        assert labels[r.start + i] == labels[r.start] == labels[r.start + j];
      }
    }
  }

  // ---- Metrics ---------------------------------------------------------------

  /** The run a row is in. */
  lemma RunOf<K>(keys: seq<K>, i: nat) returns (a: nat, b: nat)
    requires i < |keys|
    ensures Run(keys, a, b) && a <= i < b
  {
    a, b := i, i + 1;
    while a > 0 && keys[a - 1] == keys[i]
      invariant a <= i && forall k :: a <= k <= i ==> keys[k] == keys[i]
    {
      a := a - 1;
    }
    while b < |keys| && keys[b] == keys[i]
      invariant i < b <= |keys| && forall k :: i <= k < b ==> keys[k] == keys[i]
    {
      b := b + 1;
    }
  }

  /** A run's rows are among the rows with its key. */
  lemma RunCounted<X, K>(rows: seq<X>, key: X -> K, a: nat, b: nat)
    requires Run(Keys(rows, key), a, b)
    ensures |T.Where(rows, T.Keyed(key, key(rows[a])))| >= b - a
  {
    hide T.Where;
    var here, keys := T.Keyed(key, key(rows[a])), Keys(rows, key);
    var x, y, z := rows[..a], rows[a..b], rows[b..];
    assert rows == (x + y) + z;
    forall i | 0 <= i < |y| ensures here(y[i]) {
      assert keys[a + i] == keys[a];
    }
    T.WhereEvery(y, here);
    T.WhereConcat(x + y, z, here);
    T.WhereConcat(x, y, here);
  }

  lemma SharedMetric<X, L, N>(rows: seq<X>, ranges: seq<Range>, series: X -> L, name: X -> N, target: nat,
                              maxNames: nat, j: nat, i: nat, m: nat)
    requires Tile(ranges, |rows|) && j < |ranges| && i < ranges[j].end <= m < |rows|
    requires GoodRanges(Keys(rows, name), Keys(rows, series), ranges, target, maxNames)
    requires Grouped(Keys(rows, name)) && name(rows[i]) == name(rows[m])
    ensures |T.Where(rows, T.Keyed(name, name(rows[i])))| > target
  {
    hide Tile, GoodRanges, T.Where;
    var names := Keys(rows, name);
    var a, b := RunOf(names, i);
    assert names[i] == names[m];
    MetricWhole(names, Keys(rows, series), ranges, target, maxNames, j, a, b);
    RunCounted(rows, name, a, b);
    assert names[a] == names[i];
  }

  // ---- Outputs ---------------------------------------------------------------

  lemma {:induction false} TileUpto<X>(rows: seq<X>, ranges: seq<Range>, k: nat)
    requires Tile(ranges, |rows|) && k <= |ranges|
    ensures k < |ranges| ==> ranges[k].end <= |rows|
    ensures forall i, j :: 0 <= i < j < |ranges| && j <= k ==> ranges[i].end <= ranges[j].start
    decreases k
  {
    if k > 0 { TileUpto(rows, ranges, k - 1); }
    if k < |ranges| { InTile(ranges, |rows|, k); }
  }

  lemma {:induction false} InTile(ranges: seq<Range>, n: nat, k: nat)
    requires Tile(ranges, n) && k < |ranges|
    ensures ranges[k].end <= n
    decreases |ranges| - k
  {
    if k + 1 < |ranges| { InTile(ranges, n, k + 1); }
  }

  lemma TileOrder<X>(rows: seq<X>, ranges: seq<Range>)
    requires Tile(ranges, |rows|)
    ensures forall k :: 0 <= k < |ranges| ==> ranges[k].start < ranges[k].end <= |rows|
    ensures forall i, j :: 0 <= i < j < |ranges| ==> ranges[i].end <= ranges[j].start
  {
    forall k | 0 <= k < |ranges| ensures ranges[k].end <= |rows| {
      TileUpto(rows, ranges, k);
    }
    if ranges != [] { TileUpto(rows, ranges, |ranges| - 1); }
  }

  lemma {:induction false} FlatUpto<X>(rows: seq<X>, ranges: seq<Range>, k: nat)
    requires Tile(ranges, |rows|) && k <= |ranges|
    requires forall k :: 0 <= k < |ranges| ==> ranges[k].start <= ranges[k].end <= |rows|
    ensures T.Flat(Pieces(rows, ranges)[..k]) == rows[..if k == 0 then 0 else ranges[k - 1].end]
    decreases k
  {
    hide T.Flat;
    var pieces := Pieces(rows, ranges);
    if k == 0 {
      FlatNone(pieces[..0]);
    } else {
      FlatUpto(rows, ranges, k - 1);
      T.FlatStep(pieces, k - 1);
      var r := ranges[k - 1];
      assert rows[..r.end] == rows[..r.start] + rows[r.start..r.end];
    }
  }

  lemma FlatNone<X>(parts: seq<seq<X>>)
    requires parts == []
    ensures T.Flat(parts) == []
  {
  }

  lemma FlatPieces<X>(rows: seq<X>, ranges: seq<Range>)
    requires Tile(ranges, |rows|)
    ensures forall k :: 0 <= k < |ranges| ==> ranges[k].start <= ranges[k].end <= |rows|
    ensures T.Flat(Pieces(rows, ranges)) == rows
  {
    hide T.Flat;
    TileOrder(rows, ranges);
    FlatUpto(rows, ranges, |ranges|);
    assert Pieces(rows, ranges)[..|ranges|] == Pieces(rows, ranges);
    assert rows[..|rows|] == rows;
  }

  lemma SeparateRanges<X, L, N>(rows: seq<X>, ranges: seq<Range>, series: X -> L, name: X -> N, target: nat,
                                maxNames: nat, j: nat, k: nat)
    requires Tile(ranges, |rows|) && Grouped(Keys(rows, series)) && Grouped(Keys(rows, name))
    requires GoodRanges(Keys(rows, name), Keys(rows, series), ranges, target, maxNames)
    requires j < k < |ranges|
    ensures ranges[j].end <= ranges[k].start && ranges[k].end <= |rows|
    ensures Separate(rows, rows[ranges[j].start..ranges[j].end], rows[ranges[k].start..ranges[k].end], series, name,
                     target)
  {
    TileOrder(rows, ranges);
    hide Tile, GoodRanges, Grouped, T.Where;
    var a, b := rows[ranges[j].start..ranges[j].end], rows[ranges[k].start..ranges[k].end];
    forall x, y | x in a && y in b
      ensures series(x) != series(y) && (name(x) == name(y) ==> |T.Where(rows, T.Keyed(name, name(x)))| > target)
    {
      var i :| 0 <= i < |a| && a[i] == x;
      var m :| 0 <= m < |b| && b[m] == y;
      var at, later := ranges[j].start + i, ranges[k].start + m;
      assert rows[at] == x && rows[later] == y;
      NeverSplit(Keys(rows, name), Keys(rows, series), ranges, target, maxNames, j, at, later);
      assert Keys(rows, series)[at] != Keys(rows, series)[later];
      if name(x) == name(y) {
        SharedMetric(rows, ranges, series, name, target, maxNames, j, at, later);
      }
    }
  }

  /** Good ranges of grouped rows give well-cut outputs. */
  lemma PiecesCut<X, L, N>(rows: seq<X>, ranges: seq<Range>, series: X -> L, name: X -> N, target: nat, maxNames: nat)
    requires Tile(ranges, |rows|) && Grouped(Keys(rows, series)) && Grouped(Keys(rows, name))
    requires GoodRanges(Keys(rows, name), Keys(rows, series), ranges, target, maxNames)
    ensures forall k :: 0 <= k < |ranges| ==> ranges[k].start <= ranges[k].end <= |rows|
    ensures WellCut(Pieces(rows, ranges), series, name, target, maxNames)
  {
    TileOrder(rows, ranges);
    FlatPieces(rows, ranges);
    hide Tile, Grouped, WellSized, Separate, GoodRange, GoodCut;
    var outs := Pieces(rows, ranges);
    forall k | 0 <= k < |outs| ensures WellSized(outs[k], series, name, target, maxNames) {
      SizedRange(rows, ranges[k], series, name, target, maxNames);
    }
    forall j, k | 0 <= j < k < |outs| ensures Separate(T.Flat(outs), outs[j], outs[k], series, name, target) {
      SeparateRanges(rows, ranges, series, name, target, maxNames, j, k);
    }
  }

  /** Ranges that are good for some keys are good for keys that are equal where those are. */
  lemma GoodSame<N, S, M, R>(names: seq<N>, series: seq<S>, ranges: seq<Range>, target: nat, maxNames: nat,
                             other: seq<M>, labels: seq<R>)
    requires |names| == |series| == |other| == |labels| && GoodRanges(names, series, ranges, target, maxNames)
    requires SameKeys(names, other) && SameKeys(series, labels)
    ensures GoodRanges(other, labels, ranges, target, maxNames)
  {
    hide Runs, Run;
    forall k | 0 <= k < |ranges|
      ensures GoodRange(other, labels, ranges[k], target, maxNames)
      ensures ranges[k].end < |labels| ==> GoodCut(other, labels, ranges[k].end, target)
    {
      var r := ranges[k];
      RunsAs(names, other, r.start, r.end);
      if r.end < |labels| && other[r.end - 1] == other[r.end] {
        var a: nat, b: nat :| Run(names, a, b) && a < r.end < b && b - a > target;
        RunAs(names, other, a, b);
      }
    }
  }

  ghost predicate SameKeys<N, M>(a: seq<N>, b: seq<M>) {
    |a| == |b| && forall i, j :: 0 <= i < |a| && 0 <= j < |a| ==> (a[i] == a[j] <==> b[i] == b[j])
  }

  lemma {:induction false} RunsAs<N, M>(a: seq<N>, b: seq<M>, start: nat, end: nat)
    requires SameKeys(a, b) && start <= end <= |a|
    ensures Runs(a, start, end) == Runs(b, start, end)
    decreases end
  {
    if end > start + 1 { RunsAs(a, b, start, end - 1); }
  }

  lemma RunAs<N, M>(a: seq<N>, b: seq<M>, start: nat, end: nat)
    requires SameKeys(a, b) && Run(a, start, end)
    ensures Run(b, start, end)
  {
  }

  lemma GroupedSame<N, M>(a: seq<N>, b: seq<M>)
    requires SameKeys(a, b) && Grouped(a)
    ensures Grouped(b)
  {
  }

  // ---- Several parts ---------------------------------------------------------

  lemma {:induction false} FlatConcat<X>(a: seq<seq<X>>, b: seq<seq<X>>)
    ensures T.Flat(a + b) == T.Flat(a) + T.Flat(b)
    decreases |b|
  {
    if b == [] {
      assert a + b == a;
    } else {
      var n := |b| - 1;
      assert (a + b)[..|a + b| - 1] == a + b[..n];
      FlatConcat(a, b[..n]);
    }
  }

  lemma {:induction false} InFlat<X>(outs: seq<seq<X>>, k: nat, x: X)
    requires k < |outs| && x in outs[k]
    ensures x in T.Flat(outs)
    decreases |outs|
  {
    if k < |outs| - 1 { InFlat(outs[..|outs| - 1], k, x); }
  }

  /** More rows beside take nothing apart. */
  lemma SeparateMore<X, L, N>(all: seq<X>, more: seq<X>, a: seq<X>, b: seq<X>, series: X -> L, name: X -> N,
                              target: nat)
    requires Separate(all, a, b, series, name, target)
    ensures Separate(all + more, a, b, series, name, target) && Separate(more + all, a, b, series, name, target)
  {
    hide T.Where;
    forall x, y | x in a && y in b && name(x) == name(y)
      ensures |T.Where(all + more, T.Keyed(name, name(x)))| > target
      ensures |T.Where(more + all, T.Keyed(name, name(x)))| > target
    {
      T.WhereConcat(all, more, T.Keyed(name, name(x)));
      T.WhereConcat(more, all, T.Keyed(name, name(x)));
    }
  }

  /** Parts without a common metric are well cut together. */
  lemma WellCutTogether<X, L, N>(a: seq<seq<X>>, b: seq<seq<X>>, series: X -> L, name: X -> N, target: nat,
                                 maxNames: nat)
    requires WellCut(a, series, name, target, maxNames) && WellCut(b, series, name, target, maxNames)
    requires forall x, y :: x in T.Flat(a) && y in T.Flat(b) ==> series(x) != series(y) && name(x) != name(y)
    ensures WellCut(a + b, series, name, target, maxNames)
  {
    hide WellSized, Separate, T.Flat;
    var both, n := a + b, |a|;
    FlatConcat(a, b);
    forall j, k | 0 <= j < k < |both|
      ensures Separate(T.Flat(both), both[j], both[k], series, name, target)
    {
      if k < n {
        SeparateMore(T.Flat(a), T.Flat(b), a[j], a[k], series, name, target);
      } else if n <= j {
        SeparateMore(T.Flat(b), T.Flat(a), b[j - n], b[k - n], series, name, target);
      } else {
        Apart(a, b, j, k - n, series, name, target);
      }
    }
  }

  lemma Apart<X, L, N>(a: seq<seq<X>>, b: seq<seq<X>>, j: nat, k: nat, series: X -> L, name: X -> N, target: nat)
    requires j < |a| && k < |b|
    requires forall x, y :: x in T.Flat(a) && y in T.Flat(b) ==> series(x) != series(y) && name(x) != name(y)
    ensures Separate(T.Flat(a + b), a[j], b[k], series, name, target)
  {
    hide T.Flat, T.Where;
    forall x, y | x in a[j] && y in b[k] ensures series(x) != series(y) && name(x) != name(y) {
      InFlat(a, j, x);
      InFlat(b, k, y);
    }
  }
}
