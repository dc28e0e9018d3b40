/**
 * Cutting sorted rows into outputs (`metric_tiers.rs`, `groups`): whole series,
 * at most a target of rows and a number of metric names. Rows are given by the
 * series and the metric name each has.
 */
module MetricGroups {

  /** A half-open range of rows. */
  datatype Range = Range(start: nat, end: nat)

  /** Ranges one after another from 0 to `n`, none empty. */
  ghost predicate Tile(out: seq<Range>, n: nat) {
    && (forall k :: 0 <= k < |out| ==> out[k].start < out[k].end)
    && (forall k :: 0 < k < |out| ==> out[k].start == out[k - 1].end)
    && (if out == [] then n == 0 else out[0].start == 0 && out[|out| - 1].end == n)
  }

  /** Rows `a..b` are all the rows of one run of equal keys. */
  ghost predicate Run<K>(keys: seq<K>, a: nat, b: nat) {
    && a < b <= |keys| && (forall i :: a <= i < b ==> keys[i] == keys[a])
    && (a > 0 ==> keys[a - 1] != keys[a]) && (b < |keys| ==> keys[b] != keys[a])
  }

  /** How many runs of equal keys rows `a..b` touch. */
  function Runs<K(==)>(keys: seq<K>, a: nat, b: nat): nat
    requires a <= b <= |keys|
    decreases b - a
  {
    if a == b then 0
    else if a + 1 == b then 1
    else Runs(keys, a, b - 1) + if keys[b - 2] != keys[b - 1] then 1 else 0
  }

  /** A cut never divides a series, nor a metric that fits an output. */
  ghost predicate GoodCut<N, S>(names: seq<N>, series: seq<S>, cut: nat, target: nat)
    requires |names| == |series| && 0 < cut < |series|
  {
    && series[cut - 1] != series[cut]
    && (names[cut - 1] == names[cut] ==> exists a: nat, b: nat :: Run(names, a, b) && a < cut < b && b - a > target)
  }

  /** An output is within its target or holds one series alone, and has few enough names. */
  ghost predicate GoodRange<N, S>(names: seq<N>, series: seq<S>, r: Range, target: nat, maxNames: nat)
    requires |names| == |series| && r.start < r.end <= |series|
  {
    && (r.end - r.start <= target || forall i :: r.start <= i < r.end ==> series[i] == series[r.start])
    && Runs(names, r.start, r.end) <= (if maxNames < 1 then 1 else maxNames)
  }

  ghost predicate GoodRanges<N, S>(names: seq<N>, series: seq<S>, out: seq<Range>, target: nat, maxNames: nat)
    requires |names| == |series|
  {
    forall k :: 0 <= k < |out| ==>
      && out[k].start < out[k].end <= |series| && GoodRange(names, series, out[k], target, maxNames)
      && (out[k].end < |series| ==> GoodCut(names, series, out[k].end, target))
  }

  lemma {:induction false} RunsSame<K>(keys: seq<K>, a: nat, b: nat, c: nat)
    requires a <= b < c <= |keys| && (forall i :: b <= i < c ==> keys[i] == keys[b])
    ensures Runs(keys, a, c) == if a == b then 1 else Runs(keys, a, b) + if keys[b - 1] != keys[b] then 1 else 0
    decreases c
  {
    if c > b + 1 { RunsSame(keys, a, b, c - 1); }
  }

  /** The end of the run of equal keys that starts at `i`. */
  method RunEnd<K(==)>(keys: seq<K>, i: nat, limit: nat) returns (end: nat)
    requires i < limit <= |keys|
    ensures i < end <= limit && (forall k :: i <= k < end ==> keys[k] == keys[i])
            && (end < limit ==> keys[end] != keys[i])
  {
    end := i;
    while end < limit && keys[end] == keys[i]
      invariant i <= end <= limit && forall k :: i <= k < end ==> keys[k] == keys[i]
    {
      end := end + 1;
    }
  }

  /** The ranges of outputs: they tile the rows, keep series and fitting metrics whole, and respect the limits. */
  method Groups<N(==), S(==)>(names: seq<N>, series: seq<S>, targetRows: nat, maxNames: nat) returns (out: seq<Range>)
    requires |names| == |series|
    requires forall i :: 0 < i < |series| && names[i - 1] != names[i] ==> series[i - 1] != series[i]
    ensures Tile(out, |series|) && GoodRanges(names, series, out, if targetRows < 1 then 1 else targetRows, maxNames)
  {
    var target := if targetRows < 1 then 1 else targetRows;
    out := [];
    var start: nat, count: nat := 0, 0;
    var i := 0;
    while i < |series|
      invariant start <= i <= |series| && Tile(out, start) && GoodRanges(names, series, out, target, maxNames)
      invariant Pending(names, series, start, i, target, maxNames, count)
      invariant 0 < i < |series| ==> names[i - 1] != names[i]
      invariant i < |series| && start < i ==> GoodCut(names, series, i, target)
    {
      var metricEnd := RunEnd(names, i, |names|);
      if start < i && (metricEnd - start > target || count + 1 > maxNames) {
        Emit(names, series, out, start, i, target, maxNames, count);
        out := out + [Range(start, i)];
        start, count := i, 0;
      }
      out, start, count := Metric(names, series, out, start, i, metricEnd, target, maxNames, count + 1);
      i := metricEnd;
    }
    if start < |series| {
      Emit(names, series, out, start, |series|, target, maxNames, count);
      out := out + [Range(start, |series|)];
    }
  }

  /** The rows from `start` to `pos` that the next output will hold. */
  ghost predicate Pending<N, S>(names: seq<N>, series: seq<S>, start: nat, pos: nat, target: nat, maxNames: nat,
                                count: nat)
    requires |names| == |series| && start <= pos <= |series|
  {
    && count == Runs(names, start, pos) && count <= (if maxNames < 1 then 1 else maxNames)
    && (pos - start <= target || forall k :: start <= k < pos ==> series[k] == series[start])
  }

  lemma Emit<N, S>(names: seq<N>, series: seq<S>, out: seq<Range>, start: nat, pos: nat, target: nat, maxNames: nat,
                   count: nat)
    requires |names| == |series| && start < pos <= |series| && Tile(out, start)
             && GoodRanges(names, series, out, target, maxNames)
    requires Pending(names, series, start, pos, target, maxNames, count)
    requires pos < |series| ==> GoodCut(names, series, pos, target)
    ensures Tile(out + [Range(start, pos)], pos)
            && GoodRanges(names, series, out + [Range(start, pos)], target, maxNames)
  {
    hide GoodCut, Runs;
  }

  /** One metric's rows, series by series. */
  method Metric<N(==), S(==)>(names: seq<N>, series: seq<S>, before: seq<Range>, from: nat, i: nat, metricEnd: nat,
                              target: nat, maxNames: nat, names1: nat)
    returns (out: seq<Range>, start: nat, count: nat)
    requires |names| == |series| && from <= i < metricEnd <= |series| && target >= 1
    requires Run(names, i, metricEnd)
    requires forall k :: 0 < k < |series| && names[k - 1] != names[k] ==> series[k - 1] != series[k]
    requires Tile(before, from) && GoodRanges(names, series, before, target, maxNames)
    requires names1 >= 1 && Pending(names, series, from, i, target, maxNames, names1 - 1)
    requires from < i ==> metricEnd - from <= target && names1 <= maxNames && GoodCut(names, series, i, target)
    ensures start < metricEnd && Tile(out, start) && GoodRanges(names, series, out, target, maxNames)
    ensures Pending(names, series, start, metricEnd, target, maxNames, count)
    ensures metricEnd < |series| ==> GoodCut(names, series, metricEnd, target)
  {
    hide Tile, GoodRanges;
    out, start, count := before, from, names1;
    var j := i;
    while j < metricEnd
      invariant start <= j && i <= j <= metricEnd && Tile(out, start)
                && GoodRanges(names, series, out, target, maxNames)
      invariant j == i ==> start == from && count == names1 && out == before
      invariant j > i ==> start < j && Pending(names, series, start, j, target, maxNames, count)
      invariant j > i && j < metricEnd ==> series[j - 1] != series[j]
      invariant metricEnd - i <= target ==> metricEnd - start <= target
    {
      var seriesEnd := RunEnd(series, j, metricEnd);
      if start < j && seriesEnd - start > target {
        assert j > i && GoodCut(names, series, j, target);
        Emit(names, series, out, start, j, target, maxNames, count);
        out := out + [Range(start, j)];
        start, count := j, 1;
      }
      ghost var b := if start < i then i else start;
      RunsSame(names, start, b, seriesEnd);
      if b < j { RunsSame(names, start, b, j); }
      j := seriesEnd;
    }
  }

  /** Equal keys are adjacent. */
  ghost predicate Grouped<K>(keys: seq<K>) {
    forall i, k, j :: 0 <= i <= k <= j < |keys| && keys[i] == keys[j] ==> keys[k] == keys[i]
  }

  lemma CutApart<N, S>(names: seq<N>, series: seq<S>, cut: nat, target: nat, i: nat, j: nat)
    requires |names| == |series| && Grouped(series) && i < cut <= j < |series| && GoodCut(names, series, cut, target)
    ensures series[i] != series[j]
  {
  }

  /** No output holds only part of a series: rows of different outputs are of different series. */
  lemma NeverSplit<N, S>(names: seq<N>, series: seq<S>, out: seq<Range>, target: nat, maxNames: nat, k: nat, i: nat,
                         j: nat)
    requires |names| == |series| && Grouped(series) && Tile(out, |series|)
             && GoodRanges(names, series, out, target, maxNames)
    requires k < |out| && out[k].start <= i < out[k].end && j < |series| && !(out[k].start <= j < out[k].end)
    ensures series[i] != series[j]
  {
    var r := out[k];
    if r.end <= j {
      CutApart(names, series, r.end, target, i, j);
    } else {
      EndsInside(out, |series|, k - 1);
      CutApart(names, series, r.start, target, j, i);
    }
  }

  lemma {:induction false} EndsInside(out: seq<Range>, n: nat, k: nat)
    requires Tile(out, n) && k + 1 < |out|
    ensures out[k].end < n
    decreases |out| - k
  {
    if k + 2 < |out| { EndsInside(out, n, k + 1); }
  }

  /** A metric that two outputs share does not fit one. */
  lemma MetricWhole<N, S>(names: seq<N>, series: seq<S>, out: seq<Range>, target: nat, maxNames: nat, k: nat, a: nat,
                          b: nat)
    requires |names| == |series| && GoodRanges(names, series, out, target, maxNames) && k < |out|
    requires Run(names, a, b) && a < out[k].end < b
    ensures b - a > target
  {
    var cut := out[k].end;
    assert GoodCut(names, series, cut, target);
    var c: nat, d: nat :| Run(names, c, d) && c < cut < d && d - c > target;
    SameRun(names, a, b, c, d, cut);
  }

  lemma SameRun<K>(keys: seq<K>, a: nat, b: nat, c: nat, d: nat, i: nat)
    requires Run(keys, a, b) && Run(keys, c, d) && a <= i < b && c <= i < d
    ensures a == c && b == d
  {
    assert keys[a] == keys[i] == keys[c];
  }
}
