/** Summaries of one series' samples in one bucket (`metric_tiers.rs`, `Aggregate`). */
module MetricAggregate {

  /** A stored double: not a number, infinite, or a number with zero's sign marked. */
  datatype Double = NaN | Infinite(positive: bool) | Finite(x: real, negativeZero: bool)

  /** IEEE comparison: nothing holds of a NaN, and the two zeros are equal. */
  predicate Below(a: Double, b: Double) {
    match (a, b)
    case (NaN, _) => false
    case (_, NaN) => false
    case (Infinite(p), Infinite(q)) => !p && q
    case (Infinite(p), Finite(_, _)) => !p
    case (Finite(_, _), Infinite(q)) => q
    case (Finite(x, _), Finite(y, _)) => x < y
  }

  predicate Equal(a: Double, b: Double) {
    a != NaN && b != NaN && !Below(a, b) && !Below(b, a)
  }

  predicate AtLeast(a: Double, b: Double) {
    a != NaN && b != NaN && !Below(a, b)
  }

  datatype Sample = Sample(ts: int, value: Double)

  datatype Aggregate = Aggregate(count: nat, firstTs: int, first: Double, lastTs: int, last: Double, min: Double,
                                 max: Double,
                                 changes: nat, resets: nat, resetValues: seq<Double>, negativeZeroReset: bool)

  const EMPTY := Aggregate(0, 0, Finite(0.0, false), 0, Finite(0.0, false), NaN, NaN, 0, 0, [], false)

  predicate Changed(previous: Double, value: Double) {
    !(Equal(previous, value) || (previous == NaN && value == NaN))
  }

  predicate NegativeZero(v: Double) {
    v.Finite? && v.x == 0.0 && v.negativeZero
  }

  /** The smaller value, the earlier of equal ones; NaN is ignored. */
  function Lower(min: Double, value: Double): Double {
    if value != NaN && (min == NaN || Below(value, min)) then value else min
  }

  /** The larger value, the later of equal ones; NaN is ignored. */
  function Upper(max: Double, value: Double): Double {
    if value != NaN && (max == NaN || AtLeast(value, max)) then value else max
  }

  // ---- Pushing samples -------------------------------------------------------

  /** What one step from `previous` to `value` adds. */
  function Stepped(a: Aggregate, previous: Double, value: Double): Aggregate {
    var reset := Below(value, previous);
    a.(changes := a.changes + (if Changed(previous, value) then 1 else 0),
       resets := a.resets + (if reset then 1 else 0),
       resetValues := if reset then a.resetValues + [previous] else a.resetValues,
       negativeZeroReset := a.negativeZeroReset || (reset && NegativeZero(previous)))
  }

  function Pushed(a: Aggregate, s: Sample): Aggregate {
    var b := if a.count == 0 then a.(firstTs := s.ts, first := s.value) else Stepped(a, a.last, s.value);
    b.(count := a.count + 1, lastTs := s.ts, last := s.value, min := Lower(a.min, s.value),
       max := Upper(a.max, s.value))
  }

  function Summary(samples: seq<Sample>): Aggregate {
    if samples == [] then EMPTY else Pushed(Summary(samples[..|samples| - 1]), samples[|samples| - 1])
  }

  /** The aggregate as it is updated, sample by sample. */
  class Accumulator {
    var count: nat
    var firstTs: int
    var first: Double
    var lastTs: int
    var last: Double
    var min: Double
    var max: Double
    var changes: nat
    var resets: nat
    var resetValues: seq<Double>
    var negativeZeroReset: bool

    constructor ()
      ensures View() == EMPTY
    {
      count, firstTs, first, lastTs, last := 0, 0, Finite(0.0, false), 0, Finite(0.0, false);
      min, max, changes, resets, resetValues, negativeZeroReset := NaN, NaN, 0, 0, [], false;
    }

    function View(): Aggregate
      reads this
    {
      Aggregate(count, firstTs, first, lastTs, last, min, max, changes, resets, resetValues, negativeZeroReset)
    }

    /** Counts the change and the reset between two samples. */
    method Step(previous: Double, value: Double)
      modifies this`changes, this`resets, this`resetValues, this`negativeZeroReset
      ensures View() == Stepped(old(View()), previous, value)
    {
      hide Below, Equal, NegativeZero;
      if !(Equal(previous, value) || (previous == NaN && value == NaN)) {
        changes := changes + 1;
      }
      if Below(value, previous) {
        resets, resetValues := resets + 1, resetValues + [previous];
        if NegativeZero(previous) {
          negativeZeroReset := true;
        }
      }
    }

    method Push(ts: int, value: Double)
      modifies this
      ensures View() == Pushed(old(View()), Sample(ts, value))
    {
      hide Below, AtLeast, Stepped;
      if count == 0 {
        firstTs, first := ts, value;
      } else {
        Step(last, value);
      }
      if value != NaN && (min == NaN || Below(value, min)) {
        min := value;
      }
      if value != NaN && (max == NaN || AtLeast(value, max)) {
        max := value;
      }
      count, lastTs, last := count + 1, ts, value;
    }
  }

  // ---- Aggregates compose ----------------------------------------------------

  /** The aggregate of samples, of which `a` summarizes the first and `b` the rest. */
  function Compose(a: Aggregate, b: Aggregate): Aggregate {
    if a.count == 0 then b
    else if b.count == 0 then a
    else
      var joined := Stepped(a, a.last, b.first);
      Aggregate(a.count + b.count, a.firstTs, a.first, b.lastTs, b.last, Lower(a.min, b.min), Upper(a.max, b.max),
                joined.changes + b.changes, joined.resets + b.resets, joined.resetValues + b.resetValues,
                joined.negativeZeroReset || b.negativeZeroReset)
  }

  /** Taking the lower of three in either grouping. */
  lemma LowerAssoc(a: Double, b: Double, c: Double)
    ensures Lower(Lower(a, b), c) == Lower(a, Lower(b, c))
    ensures Upper(Upper(a, b), c) == Upper(a, Upper(b, c))
  {
  }

  lemma ComposePushed(a: Aggregate, b: Aggregate, s: Sample)
    requires a.count > 0 && b.count > 0
    ensures Compose(a, Pushed(b, s)) == Pushed(Compose(a, b), s)
  {
    hide Below, Equal, NegativeZero, Lower, Upper;
    LowerAssoc(a.min, b.min, s.value);
    LowerAssoc(a.max, b.max, s.value);
    var joined := Stepped(a, a.last, b.first);
    assert joined.resetValues + (b.resetValues + [b.last]) == joined.resetValues + b.resetValues + [b.last];
  }

  lemma ComposeFirst(a: Aggregate, s: Sample)
    requires a.count > 0
    ensures Compose(a, Pushed(EMPTY, s)) == Pushed(a, s)
  {
    hide Below, Equal, NegativeZero;
    var joined := Stepped(a, a.last, s.value);
    assert joined.resetValues + [] == joined.resetValues;
  }

  lemma {:induction false} SummaryCount(samples: seq<Sample>)
    ensures Summary(samples).count == |samples|
    decreases |samples|
  {
    if samples != [] { SummaryCount(samples[..|samples| - 1]); }
  }

  /** The summary of two runs of samples is determined by their summaries. */
  lemma {:induction false} SummaryConcat(a: seq<Sample>, b: seq<Sample>)
    ensures Summary(a + b) == Compose(Summary(a), Summary(b))
    decreases |b|
  {
    hide Pushed, Compose;
    SummaryCount(a);
    if b == [] {
      assert a + b == a;
      ComposeNone(Summary(a), Summary(b));
    } else {
      var n := |b| - 1;
      assert (a + b)[..|a + b| - 1] == a + b[..n] && (a + b)[|a + b| - 1] == b[n];
      SummaryConcat(a, b[..n]);
      SummaryCount(b[..n]);
      SummaryCount(b);
      if a == [] || n == 0 {
        assert b[..0] == [];
        ComposeNone(Summary(a), Summary(b[..n]));
        ComposeNone(Summary(a), Summary(b));
        if a != [] { ComposeFirst(Summary(a), b[n]); }
      } else {
        ComposePushed(Summary(a), Summary(b[..n]), b[n]);
      }
    }
  }

  lemma ComposeNone(a: Aggregate, b: Aggregate)
    ensures a.count == 0 ==> Compose(a, b) == b
    ensures a.count > 0 && b.count == 0 ==> Compose(a, b) == a
  {
  }

  // ---- What an aggregate tells -----------------------------------------------

  /** Every reset recorded its value, and only those. */
  lemma {:induction false} ResetsRecorded(samples: seq<Sample>)
    ensures Summary(samples).resets == |Summary(samples).resetValues|
    decreases |samples|
  {
    if samples != [] { ResetsRecorded(samples[..|samples| - 1]); }
  }

  predicate AllFinite(samples: seq<Sample>) {
    forall i :: 0 <= i < |samples| ==> samples[i].value.Finite?
  }

  function X(v: Double): real {
    if v.Finite? then v.x else 0.0
  }

  function SumOf(values: seq<Double>): real {
    if values == [] then 0.0 else SumOf(values[..|values| - 1]) + X(values[|values| - 1])
  }

  /** A counter's growth: each step's rise, and after a reset the new value itself. */
  function Increase(samples: seq<Sample>): real {
    if |samples| <= 1 then 0.0
    else
      var n := |samples| - 1;
      var previous, value := X(samples[n - 1].value), X(samples[n].value);
      Increase(samples[..n]) + if value < previous then value else value - previous
  }

  /** The reset-corrected increase can be read off the aggregate. */
  lemma {:induction false} IncreaseRecovered(samples: seq<Sample>)
    requires samples != [] && AllFinite(samples)
    ensures var a := Summary(samples);
            && a.first == samples[0].value && a.last == samples[|samples| - 1].value
            && X(a.last) - X(a.first) + SumOf(a.resetValues) == Increase(samples)
    decreases |samples|
  {
    var n := |samples| - 1;
    SummaryCount(samples[..n]);
    if n > 0 {
      IncreaseRecovered(samples[..n]);
      var a := Summary(samples[..n]);
      assert (a.resetValues + [a.last])[..|a.resetValues|] == a.resetValues;
      assert samples[..n][n - 1] == samples[n - 1];
    } else {
      assert samples[..0] == [];
    }
  }

  // ---- What the summary says about the samples -------------------------------

  lemma BelowTransitive(a: Double, b: Double, c: Double)
    ensures Below(a, b) && Below(b, c) ==> Below(a, c)
    ensures a != NaN && b != NaN && c != NaN && !Below(b, a) && !Below(c, b) ==> !Below(c, a)
    ensures b != NaN && c != NaN && Below(a, b) && !Below(c, b) ==> Below(a, c)
    ensures a != NaN && b != NaN && !Below(b, a) && Below(b, c) ==> Below(a, c)
  {
  }

  ghost predicate Numbers(samples: seq<Sample>) {
    exists i :: 0 <= i < |samples| && samples[i].value != NaN
  }

  /** The smallest number among the samples, the earliest of equal ones. */
  ghost predicate IsMin(samples: seq<Sample>, lo: nat) {
    && lo < |samples| && samples[lo].value != NaN
    && forall j :: 0 <= j < |samples| && samples[j].value != NaN ==>
         !Below(samples[j].value, samples[lo].value) && (j < lo ==> Below(samples[lo].value, samples[j].value))
  }

  /** The largest number among the samples, the latest of equal ones. */
  ghost predicate IsMax(samples: seq<Sample>, hi: nat) {
    && hi < |samples| && samples[hi].value != NaN
    && forall j :: 0 <= j < |samples| && samples[j].value != NaN ==>
         !Below(samples[hi].value, samples[j].value) && (hi < j ==> Below(samples[j].value, samples[hi].value))
  }

  /**
   The extremes are numbers of the samples, the earliest smallest and the latest largest; without
   numbers there are none.
   */
  lemma {:induction false} Extremes(samples: seq<Sample>)
    ensures !Numbers(samples) ==> Summary(samples).min == Summary(samples).max == NaN
    ensures Numbers(samples) ==> exists lo: nat :: IsMin(samples, lo) && samples[lo].value == Summary(samples).min
    ensures Numbers(samples) ==> exists hi: nat :: IsMax(samples, hi) && samples[hi].value == Summary(samples).max
    decreases |samples|
  {
    hide Stepped;
    if samples != [] {
      var n := |samples| - 1;
      var rest, x := samples[..n], samples[n].value;
      Extremes(rest);
      assert forall j :: 0 <= j < n ==> rest[j] == samples[j];
      if Numbers(rest) {
        var lo: nat :| IsMin(rest, lo) && rest[lo].value == Summary(rest).min;
        var hi: nat :| IsMax(rest, hi) && rest[hi].value == Summary(rest).max;
        assert samples[lo].value != NaN;
        NextMin(samples, lo);
        NextMax(samples, hi);
      } else if x != NaN {
        assert IsMin(samples, n) && IsMax(samples, n);
      } else {
        assert !Numbers(samples);
      }
    }
  }

  lemma NextMin(samples: seq<Sample>, lo: nat)
    requires samples != [] && IsMin(samples[..|samples| - 1], lo)
    ensures var x, least := samples[|samples| - 1].value, samples[lo].value;
            if Lower(least, x) == least && !(x != NaN && Below(x, least)) then IsMin(samples, lo)
            else IsMin(samples, |samples| - 1)
  {
    hide Below;
    var n := |samples| - 1;
    var x, least := samples[n].value, samples[lo].value;
    forall j | 0 <= j < n ensures samples[..n][j] == samples[j] {}
    forall j | 0 <= j < n && samples[j].value != NaN && x != NaN && Below(x, least)
      ensures Below(x, samples[j].value) && !Below(samples[j].value, x)
    {
      BelowTransitive(x, least, samples[..n][j].value);
      NotBoth(x, samples[j].value);
    }
    NotBoth(x, x);
  }

  lemma NotBoth(a: Double, b: Double)
    ensures Below(a, b) ==> !Below(b, a)
  {
  }

  lemma NextMax(samples: seq<Sample>, hi: nat)
    requires samples != [] && IsMax(samples[..|samples| - 1], hi)
    ensures var x, most := samples[|samples| - 1].value, samples[hi].value;
            if x == NaN || Below(x, most) then IsMax(samples, hi) else IsMax(samples, |samples| - 1)
  {
    hide Below;
    var n := |samples| - 1;
    var x, most := samples[n].value, samples[hi].value;
    forall j | 0 <= j < n ensures samples[..n][j] == samples[j] {}
    NotBoth(x, most);
    forall j | 0 <= j < n && samples[j].value != NaN && x != NaN && !Below(x, most)
      ensures !Below(x, samples[j].value)
    {
      BelowTransitive(samples[..n][j].value, most, x);
    }
    NotBoth(x, x);
  }

  /** Where a sample differs from the one before it, and where it is smaller. */
  predicate ChangesAt(samples: seq<Sample>, i: nat) {
    0 < i < |samples| && Changed(samples[i - 1].value, samples[i].value)
  }

  predicate DropsAt(samples: seq<Sample>, i: nat) {
    0 < i < |samples| && Below(samples[i].value, samples[i - 1].value)
  }

  ghost function Places(samples: seq<Sample>, at: (seq<Sample>, nat) -> bool): set<nat> {
    set i: nat | i < |samples| && at(samples, i)
  }

  lemma PlacesSnoc(samples: seq<Sample>, at: (seq<Sample>, nat) -> bool)
    requires samples != [] && forall i: nat :: i < |samples| - 1 ==> at(samples[..|samples| - 1], i) == at(samples, i)
    ensures |Places(samples, at)| == |Places(samples[..|samples| - 1], at)| +
              if at(samples, |samples| - 1) then 1 else 0
  {
    var n := |samples| - 1;
    assert Places(samples, at) == Places(samples[..n], at) + if at(samples, n) then {n} else {};
  }

  /** Changes and resets are counted where they happen. */
  lemma {:induction false} StepsCounted(samples: seq<Sample>)
    ensures Summary(samples).changes == |Places(samples, ChangesAt)|
            && Summary(samples).resets == |Places(samples, DropsAt)|
    decreases |samples|
  {
    hide Below, Changed, Lower, Upper, Places;
    if samples == [] {
      NoPlaces(samples);
    } else {
      var n := |samples| - 1;
      var rest := samples[..n];
      assert forall j :: 0 <= j < n ==> rest[j] == samples[j];
      StepsCounted(rest);
      PlacesSnoc(samples, ChangesAt);
      PlacesSnoc(samples, DropsAt);
      SummaryCount(rest);
      if n > 0 { LastIs(rest); }
    }
  }

  lemma NoPlaces(samples: seq<Sample>)
    requires samples == []
    ensures |Places(samples, ChangesAt)| == |Places(samples, DropsAt)| == 0
  {
    assert Places(samples, ChangesAt) == {} && Places(samples, DropsAt) == {};
  }

  lemma LastIs(samples: seq<Sample>)
    requires samples != []
    ensures Summary(samples).last == samples[|samples| - 1].value
  {
    hide Stepped, Lower, Upper;
  }
}
