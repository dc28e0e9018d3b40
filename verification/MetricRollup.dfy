/** Rolling an hour's samples up, one aggregate per series (`metric_tiers.rs`, `rollup_rows`). */
module MetricRollup {
  import opened Prelude
  import opened Text
  import opened MetricAggregate
  import opened MetricTiers
  import Runs
  import T = Tally

  const STALE_BITS: nat := 0x7FF0_0000_0000_0002
  const EXEMPLAR_ONLY_BITS: nat := 0x7FF0_0000_0000_0003
  const NAN_BITS: nat := 0x7FF8_0000_0000_0000

  /** A row's optional metadata. */
  datatype Extra = Extra(start: Option<int>, otlp: Option<Bytes>, histogram: Option<Bytes>, exemplars: Option<Bytes>)

  /** The metadata of a row, if it has any, and the number its bits stand for. */
  datatype Reader = Reader(extra: nat -> Option<Extra>, double: nat -> Double)

  predicate HasHistogram<L>(q: Reader, r: Row<L>) {
    var e := q.extra(r.extra); e.Some? && e.value.histogram.Some?
  }

  /** A row with a float sample: no histogram, and not exemplars alone. */
  predicate HasSample<L>(q: Reader, r: Row<L>) {
    var e := q.extra(r.extra);
    !(e.Some? && e.value.histogram.Some?) && !(e.Some? && e.value.exemplars.Some? && r.value == EXEMPLAR_ONLY_BITS)
  }

  /** Bits that read as one value: every NaN but the stale marker. */
  function ValueClass(q: Reader, bits: nat): nat {
    if bits != STALE_BITS && q.double(bits) == NaN then NAN_BITS else bits
  }

  // ---- What a rollup row says ------------------------------------------------

  function TsOf<L>(): Row<L> -> int {
    (r: Row<L>) => r.ts
  }

  function LabelsAt<L>(): Row<L> -> L {
    (r: Row<L>) => r.labels
  }

  function FirstSample<L>(q: Reader, rows: seq<Row<L>>): Option<nat> {
    if rows == [] then None
    else if HasSample(q, rows[0]) then Some(rows[0].value)
    else FirstSample(q, rows[1..])
  }

  /** The sample of the rows with one timestamp: the first, unless it is stale. */
  function SampleAt<L>(q: Reader, instant: seq<Row<L>>): seq<Sample> {
    var first := FirstSample(q, instant);
    if instant == [] || first.None? || first.value == STALE_BITS then []
    else [Sample(instant[0].ts, q.double(first.value))]
  }

  function SampleOf<L>(q: Reader): seq<Row<L>> -> seq<Sample> {
    (instant: seq<Row<L>>) => SampleAt(q, instant)
  }

  /** A series' samples, one per timestamp at most. */
  function Samples<L>(q: Reader, run: seq<Row<L>>): seq<Sample> {
    Runs.FlatRuns(run, TsOf(), SampleOf(q))
  }

  ghost predicate Histograms<L>(q: Reader, run: seq<Row<L>>) {
    exists i :: 0 <= i < |run| && HasHistogram(q, run[i])
  }

  ghost predicate Differ<L>(q: Reader, a: Row<L>, b: Row<L>) {
    a.ts == b.ts && HasSample(q, a) && HasSample(q, b) && ValueClass(q, a.value) != ValueClass(q, b.value)
  }

  /** Two samples of one timestamp read as different values. */
  ghost predicate Conflicts<L>(q: Reader, run: seq<Row<L>>) {
    exists i, j :: 0 <= i < j < |run| && Differ(q, run[i], run[j])
  }

  datatype Rollup<L> = Rollup(labels: L, seriesId: int, histogram: bool, conflict: bool, aggregate: Aggregate)

  /** A series' rollup row; none when it has no sample and no flag. */
  ghost function RollupOf<L>(q: Reader, run: seq<Row<L>>): seq<Rollup<L>> {
    if run == [] then []
    else
      var r := Rollup(run[0].labels, run[0].seriesId, Histograms(q, run), Conflicts(q, run), Summary(Samples(q, run)));
      if r.aggregate.count > 0 || r.histogram || r.conflict || r.aggregate.negativeZeroReset then [r] else []
  }

  ghost function RollupIn<L>(q: Reader): seq<Row<L>> -> seq<Rollup<L>> {
    (run: seq<Row<L>>) => RollupOf(q, run)
  }

  ghost predicate ByTime<L>(run: seq<Row<L>>) {
    forall i, j :: 0 <= i < j < |run| ==> run[i].ts <= run[j].ts
  }

  /** Rows grouped by series, each series' rows in time order. */
  ghost predicate InOrder<L(!new)>(rows: seq<Row<L>>) {
    && Runs.Together(rows, LabelsAt())
    && forall i, j :: 0 <= i < j < |rows| && rows[i].labels == rows[j].labels ==> rows[i].ts <= rows[j].ts
  }

  // ---- One timestamp ---------------------------------------------------------

  /** Rows `from..to` are of one series, and the next row, if any, is not. */
  ghost predicate SeriesEnds<L>(rows: seq<Row<L>>, from: nat, to: nat) {
    && from < to <= |rows| && (forall i :: from <= i < to ==> rows[i].labels == rows[from].labels)
    && (to < |rows| ==> rows[to].labels != rows[from].labels)
  }

  /** The rows of the series from `j` on with the same timestamp: their first sample, and whether they agree. */
  method Instant<L(==)>(q: Reader, rows: seq<Row<L>>, j: nat, ghost end: nat)
    returns (k: nat, chosen: Option<nat>, histogram: bool, conflict: bool)
    requires SeriesEnds(rows, j, end)
    ensures j < k <= end && k - j == Runs.RunLength(rows[j..end], TsOf())
    ensures chosen == FirstSample(q, rows[j..k])
    ensures histogram <==> Histograms(q, rows[j..k])
    ensures conflict <==> Conflicts(q, rows[j..k])
  {
    hide HasSample, HasHistogram, ValueClass, Histograms, Conflicts, FirstSample, Disagrees;
    k, chosen, histogram, conflict := j, None, false, false;
    var first: Option<nat> := None;
    StartInstant(q, rows, j);
    while k < |rows| && rows[k].labels == rows[j].labels && rows[k].ts == rows[j].ts
      invariant j <= k <= end && forall i :: j <= i < k ==> rows[i].ts == rows[j].ts
      invariant chosen == FirstSample(q, rows[j..k])
                && first == (if chosen.None? then None else Some(ValueClass(q, chosen.value)))
      invariant histogram <==> Histograms(q, rows[j..k])
      invariant conflict <==> Disagrees(q, rows[j..k], first)
    {
      NextInInstant(q, rows, j, k);
      ghost var before := first;
      if HasHistogram(q, rows[k]) {
        histogram := true;
      } else if HasSample(q, rows[k]) {
        var value := ValueClass(q, rows[k].value);
        if first.None? {
          first, chosen := Some(value), Some(rows[k].value);
        } else if first != Some(value) {
          conflict := true;
        }
      }
      k := k + 1;
    }
    OneInstant(q, rows[j..k]);
    InstantEnd(rows, j, k, end);
  }

  /** A sample reads as something else than the first. */
  ghost predicate Disagrees<L>(q: Reader, rows: seq<Row<L>>, first: Option<nat>) {
    exists i :: 0 <= i < |rows| && HasSample(q, rows[i]) && first.Some? && ValueClass(q, rows[i].value) != first.value
  }

  lemma StartInstant<L>(q: Reader, rows: seq<Row<L>>, j: nat)
    requires j <= |rows|
    ensures FirstSample(q, rows[j..j]) == None && !Histograms(q, rows[j..j]) && !Disagrees(q, rows[j..j], None)
  {
  }

  lemma NextInInstant<L>(q: Reader, rows: seq<Row<L>>, j: nat, k: nat)
    requires j <= k < |rows|
    ensures Histograms(q, rows[j..k + 1]) <==> Histograms(q, rows[j..k]) || HasHistogram(q, rows[k])
    ensures HasHistogram(q, rows[k]) ==> !HasSample(q, rows[k])
    ensures var first := FirstSample(q, rows[j..k]);
            FirstSample(q, rows[j..k + 1]) ==
              if first.None? && HasSample(q, rows[k]) then Some(rows[k].value) else first
    ensures FirstSample(q, rows[j..k]).None? ==> forall i :: j <= i < k ==> !HasSample(q, rows[i])
    ensures forall first: Option<nat> {:trigger Disagrees(q, rows[j..k + 1], first)} ::
              Disagrees(q, rows[j..k + 1], first) <==>
              Disagrees(q, rows[j..k], first)
              || (HasSample(q, rows[k]) && first.Some? && ValueClass(q, rows[k].value) != first.value)
    ensures FirstSample(q, rows[j..k]).None? ==> forall first :: !Disagrees(q, rows[j..k], first)
  {
    hide ValueClass, HasSample;
    var a, b := rows[j..k], rows[j..k + 1];
    assert b == a + [rows[k]];
    assert HasHistogram(q, rows[k]) ==> !HasSample(q, rows[k]) by { Either(q, rows[k]); }
    FirstSnoc(q, a, rows[k]);
    forall i | j <= i < k && FirstSample(q, a).None? ensures !HasSample(q, rows[i]) {
      assert a[i - j] == rows[i];
    }
    assert forall i :: 0 <= i < |a| ==> b[i] == a[i];
    assert b[|a|] == rows[k];
  }

  lemma Either<L>(q: Reader, r: Row<L>)
    ensures HasHistogram(q, r) ==> !HasSample(q, r)
  {
  }

  lemma {:induction false} FirstSnoc<L>(q: Reader, rows: seq<Row<L>>, r: Row<L>)
    ensures FirstSample(q, rows + [r]) ==
              if FirstSample(q, rows).None? && HasSample(q, r) then Some(r.value) else FirstSample(q, rows)
    ensures FirstSample(q, rows).None? ==> forall i :: 0 <= i < |rows| ==> !HasSample(q, rows[i])
    ensures FirstSample(q, rows).Some? ==>
              exists i :: 0 <= i < |rows| && HasSample(q, rows[i]) && rows[i].value == FirstSample(q, rows).value
    decreases |rows|
  {
    hide HasSample;
    if rows == [] {
      assert rows + [r] == [r];
    } else {
      assert (rows + [r])[1..] == rows[1..] + [r];
      FirstSnoc(q, rows[1..], r);
    }
  }

  /** Within one timestamp, samples conflict exactly when one differs from the first. */
  lemma OneInstant<L>(q: Reader, rows: seq<Row<L>>)
    requires forall i :: 0 <= i < |rows| ==> rows[i].ts == rows[0].ts
    ensures var first := FirstSample(q, rows);
            Conflicts(q, rows) <==> Disagrees(q, rows, if first.None? then None else Some(ValueClass(q, first.value)))
  {
    hide ValueClass, HasSample, FirstSample;
    if rows != [] {
      FirstSnoc(q, rows, rows[0]);
      var first := FirstSample(q, rows);
      if first.Some? {
        var f :| 0 <= f < |rows| && HasSample(q, rows[f]) && rows[f].value == first.value;
        if Conflicts(q, rows) {
          var i, j :| 0 <= i < j < |rows| && Differ(q, rows[i], rows[j]);
          assert ValueClass(q, rows[i].value) != ValueClass(q, first.value)
                 || ValueClass(q, rows[j].value) != ValueClass(q, first.value);
        }
        if i :| 0 <= i < |rows| && HasSample(q, rows[i]) && ValueClass(q, rows[i].value) != ValueClass(q, first.value) {
          if i < f {
            assert Differ(q, rows[i], rows[f]);
          } else {
            assert Differ(q, rows[f], rows[i]);
          }
        }
      }
    }
  }

  lemma InstantEnd<L>(rows: seq<Row<L>>, j: nat, k: nat, end: nat)
    requires j < k <= end <= |rows| && (forall i :: j <= i < k ==> rows[i].ts == rows[j].ts)
             && (k < end ==> rows[k].ts != rows[j].ts)
    ensures k - j == Runs.RunLength(rows[j..end], TsOf())
  {
    Runs.RunIs(rows[j..end], TsOf(), k - j);
  }

  // ---- One series ------------------------------------------------------------

  lemma HistogramsJoin<L>(q: Reader, a: seq<Row<L>>, b: seq<Row<L>>)
    ensures Histograms(q, a + b) <==> Histograms(q, a) || Histograms(q, b)
  {
    hide HasHistogram;
    var c := a + b;
    if Histograms(q, a) {
      var i :| 0 <= i < |a| && HasHistogram(q, a[i]);
      assert HasHistogram(q, c[i]);
    }
    if Histograms(q, b) {
      var i :| 0 <= i < |b| && HasHistogram(q, b[i]);
      assert HasHistogram(q, c[|a| + i]);
    }
    if Histograms(q, c) {
      var i :| 0 <= i < |c| && HasHistogram(q, c[i]);
      assert if i < |a| then a[i] == c[i] else b[i - |a|] == c[i];
    }
  }

  lemma ConflictsJoin<L>(q: Reader, a: seq<Row<L>>, b: seq<Row<L>>)
    requires forall i, j :: 0 <= i < |a| && 0 <= j < |b| ==> a[i].ts != b[j].ts
    ensures Conflicts(q, a + b) <==> Conflicts(q, a) || Conflicts(q, b)
    ensures Histograms(q, a + b) <==> Histograms(q, a) || Histograms(q, b)
  {
    hide HasSample, ValueClass, Histograms;
    var c := a + b;
    assert forall i :: 0 <= i < |a| ==> c[i] == a[i];
    assert forall i :: 0 <= i < |b| ==> c[|a| + i] == b[i];
    if Conflicts(q, a) {
      var i, j :| 0 <= i < j < |a| && Differ(q, a[i], a[j]);
      assert Differ(q, c[i], c[j]);
    }
    if Conflicts(q, b) {
      var i, j :| 0 <= i < j < |b| && Differ(q, b[i], b[j]);
      assert Differ(q, c[|a| + i], c[|a| + j]);
    }
    if Conflicts(q, c) {
      var i, j :| 0 <= i < j < |c| && Differ(q, c[i], c[j]);
      if j < |a| {
        assert Differ(q, a[i], a[j]);
      } else {
        assert i >= |a|;
        assert Differ(q, b[i - |a|], b[j - |a|]);
      }
    }
    HistogramsJoin(q, a, b);
  }

  lemma SamplesStep<L>(q: Reader, rows: seq<Row<L>>, j: nat, k: nat, end: nat)
    requires j < k <= end <= |rows| && k - j == Runs.RunLength(rows[j..end], TsOf())
    ensures Samples(q, rows[j..end]) == SampleAt(q, rows[j..k]) + Samples(q, rows[k..end])
  {
    hide SampleAt;
    assert rows[j..end][..k - j] == rows[j..k] && rows[j..end][k - j..] == rows[k..end];
  }

  /** One series from its first row on: its rollup, and where the next series starts. */
  method OneSeries<L(==)>(q: Reader, rows: seq<Row<L>>, i: nat, ghost end: nat) returns (j: nat, r: Rollup<L>)
    requires SeriesEnds(rows, i, end) && ByTime(rows[i..end])
    ensures j == end
    ensures r == Rollup(rows[i].labels, rows[i].seriesId, Histograms(q, rows[i..end]), Conflicts(q, rows[i..end]),
                        Summary(Samples(q, rows[i..end])))
  {
    hide Histograms, Conflicts, Samples, SampleAt, FirstSample, Summary, Pushed, Runs.RunLength;
    var acc := new Accumulator();
    var histogram, conflict := false, false;
    j := i;
    ghost var done: seq<Sample> := [];
    Nothing(q, rows, i);
    while j < |rows| && rows[j].labels == rows[i].labels
      invariant fresh(acc) && i <= j <= end && acc.View() == Summary(done)
      invariant Samples(q, rows[i..end]) == done + Samples(q, rows[j..end])
      invariant histogram == Histograms(q, rows[i..j]) && conflict == Conflicts(q, rows[i..j])
      invariant j < end ==> forall m :: i <= m < j ==> rows[m].ts < rows[j].ts
    {
      var k, chosen, h, c := Instant(q, rows, j, end);
      SamplesStep(q, rows, j, k, end);
      Between(rows, i, j, k, end);
      FlagsJoin(q, rows, i, j, k);
      histogram, conflict := histogram || h, conflict || c;
      SampleIs(q, rows[j..k], chosen);
      if chosen.Some? && chosen.value != STALE_BITS {
        var sample := Sample(rows[j].ts, q.double(chosen.value));
        SummarySnoc(done, sample);
        assert done + ([sample] + Samples(q, rows[k..end])) == (done + [sample]) + Samples(q, rows[k..end]);
        done := done + [sample];
        acc.Push(sample.ts, sample.value);
      } else {
        assert [] + Samples(q, rows[k..end]) == Samples(q, rows[k..end]);
      }
      j := k;
    }
    Ended(q, rows, end);
    assert done + [] == done;
    r := Rollup(rows[i].labels, rows[i].seriesId, histogram, conflict, acc.View());
  }

  lemma Nothing<L>(q: Reader, rows: seq<Row<L>>, i: nat)
    requires i <= |rows|
    ensures !Histograms(q, rows[i..i]) && !Conflicts(q, rows[i..i]) && Summary([]) == EMPTY
  {
  }

  lemma Ended<L>(q: Reader, rows: seq<Row<L>>, end: nat)
    requires end <= |rows|
    ensures Samples(q, rows[end..end]) == []
  {
  }

  lemma SummarySnoc(done: seq<Sample>, s: Sample)
    ensures Summary(done + [s]) == Pushed(Summary(done), s)
  {
    hide Pushed;
    assert (done + [s])[..|done|] == done;
  }

  lemma SampleIs<L>(q: Reader, instant: seq<Row<L>>, chosen: Option<nat>)
    requires instant != [] && chosen == FirstSample(q, instant)
    ensures SampleAt(q, instant) ==
            if chosen.Some? && chosen.value != STALE_BITS then [Sample(instant[0].ts, q.double(chosen.value))] else []
  {
    hide FirstSample;
  }

  /** Timestamps do not come back. */
  lemma FlagsJoin<L>(q: Reader, rows: seq<Row<L>>, i: nat, j: nat, k: nat)
    requires i <= j <= k <= |rows|
    requires forall m, n :: 0 <= m < j - i && 0 <= n < k - j ==> rows[i..j][m].ts != rows[j..k][n].ts
    ensures Conflicts(q, rows[i..k]) == (Conflicts(q, rows[i..j]) || Conflicts(q, rows[j..k]))
    ensures Histograms(q, rows[i..k]) == (Histograms(q, rows[i..j]) || Histograms(q, rows[j..k]))
  {
    hide Conflicts, Histograms;
    assert rows[i..k] == rows[i..j] + rows[j..k];
    ConflictsJoin(q, rows[i..j], rows[j..k]);
  }

  lemma Between<L>(rows: seq<Row<L>>, i: nat, j: nat, k: nat, end: nat)
    requires i <= j < k <= end <= |rows| && ByTime(rows[i..end]) && k - j == Runs.RunLength(rows[j..end], TsOf())
    requires forall m :: i <= m < j ==> rows[m].ts < rows[j].ts
    ensures forall m, n :: i <= m < j && j <= n < k ==> rows[m].ts != rows[n].ts
    ensures forall m, n :: 0 <= m < j - i && 0 <= n < k - j ==> rows[i..j][m].ts != rows[j..k][n].ts
    ensures k < end ==> forall m :: i <= m < k ==> rows[m].ts < rows[k].ts
  {
    var part := rows[j..end];
    assert forall n :: 0 <= n < |part| ==> part[n] == rows[j + n];
    forall n | j <= n < k ensures rows[n].ts == rows[j].ts {
      assert TsOf()(part[n - j]) == TsOf()(part[0]);
    }
    if k < end {
      assert TsOf()(part[k - j]) != TsOf()(part[0]);
      var run := rows[i..end];
      assert run[j - i] == rows[j] && run[k - i] == rows[k];
    }
  }

  // ---- All series ------------------------------------------------------------

  ghost function Rollups<L>(q: Reader, rows: seq<Row<L>>): seq<Rollup<L>> {
    Runs.FlatRuns(rows, LabelsAt(), RollupIn(q))
  }

  method RollupRows<L(==, !new)>(q: Reader, rows: seq<Row<L>>) returns (out: seq<Rollup<L>>)
    requires InOrder(rows)
    ensures out == Rollups(q, rows)
  {
    hide Histograms, Conflicts, Samples, Summary, RollupOf, Rollups, InOrder, SeriesEnds, ByTime;
    out := [];
    var i := 0;
    assert rows[0..] == rows;
    while i < |rows|
      invariant i <= |rows| && Rollups(q, rows) == out + Rollups(q, rows[i..])
    {
      ghost var end := i + Runs.RunLength(rows[i..], LabelsAt());
      SeriesAt(q, rows, i, end);
      var j, r := OneSeries(q, rows, i, end);
      RollupIs(q, rows[i..end], r);
      if r.aggregate.count > 0 || r.histogram || r.conflict || r.aggregate.negativeZeroReset {
        assert out + ([r] + Rollups(q, rows[j..])) == (out + [r]) + Rollups(q, rows[j..]);
        out := out + [r];
      }
      i := j;
    }
    NoMore(q, rows, i);
  }

  lemma SeriesAt<L(!new)>(q: Reader, rows: seq<Row<L>>, i: nat, end: nat)
    requires InOrder(rows) && i < |rows| && end == i + Runs.RunLength(rows[i..], LabelsAt())
    ensures SeriesEnds(rows, i, end) && ByTime(rows[i..end])
    ensures Rollups(q, rows[i..]) == RollupOf(q, rows[i..end]) + Rollups(q, rows[end..])
  {
    hide RollupOf, Runs.Together;
    var part := rows[i..];
    assert part[..end - i] == rows[i..end] && part[end - i..] == rows[end..];
    forall m | i <= m < end ensures rows[m].labels == rows[i].labels {
      assert LabelsAt()(part[m - i]) == LabelsAt()(part[0]);
    }
    if end < |rows| {
      assert LabelsAt()(part[end - i]) != LabelsAt()(part[0]);
    }
    var run := rows[i..end];
    assert forall m :: 0 <= m < |run| ==> run[m] == rows[i + m];
  }

  lemma RollupIs<L>(q: Reader, run: seq<Row<L>>, r: Rollup<L>)
    requires run != []
             && r == Rollup(run[0].labels, run[0].seriesId, Histograms(q, run), Conflicts(q, run),
                            Summary(Samples(q, run)))
    ensures RollupOf(q, run) ==
            if r.aggregate.count > 0 || r.histogram || r.conflict || r.aggregate.negativeZeroReset then [r] else []
  {
    hide Histograms, Conflicts, Samples, Summary;
  }

  lemma NoMore<L>(q: Reader, rows: seq<Row<L>>, i: nat)
    requires i == |rows|
    ensures Rollups(q, rows[i..]) == []
  {
    assert rows[i..] == [];
  }

  // ---- What the rollups say --------------------------------------------------

  function RollupLabels<L>(): Rollup<L> -> L {
    (r: Rollup<L>) => r.labels
  }

  function SampleTs(): Sample -> int {
    (s: Sample) => s.ts
  }

  /** A series has at most one rollup row, and it is made of all the series' rows. */
  lemma RollupBySeries<L(!new)>(q: Reader, rows: seq<Row<L>>, labels: L)
    requires InOrder(rows)
    ensures T.Where(Rollups(q, rows), T.Keyed(RollupLabels(), labels)) ==
              RollupOf(q, T.Where(rows, T.Keyed(LabelsAt(), labels)))
  {
    hide Histograms, Conflicts, Samples, Summary;
    Runs.RunsByKey(rows, LabelsAt(), RollupIn(q), RollupLabels(), labels);
  }

  /** A series' sample of a timestamp is the first its rows of that timestamp hold, unless stale. */
  lemma SamplesByTime<L(!new)>(q: Reader, run: seq<Row<L>>, ts: int)
    requires ByTime(run)
    ensures T.Where(Samples(q, run), T.Keyed(SampleTs(), ts)) == SampleAt(q, T.Where(run, T.Keyed(TsOf(), ts)))
  {
    hide FirstSample;
    assert Runs.Together(run, TsOf());
    Runs.RunsByKey(run, TsOf(), SampleOf(q), SampleTs(), ts);
  }
}
