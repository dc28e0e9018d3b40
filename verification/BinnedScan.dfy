/**
 * A binned scan (`log_metric.rs`): amounts summed per series and minute bucket,
 * fed by log lines and by rollup rows. Series keys, streams and rows are type
 * parameters; how a line or a row is read is given by functions.
 */
module BinnedScan {
  import opened Prelude
  import opened Grid
  import opened RollupBuilder
  import T = Tally

  datatype Error = FallbackError | PipelineError | LimitError

  /** What one line or row does to the bins. */
  datatype Outcome<+K> = Skip | Fail(error: Error) | Bin(key: K, bucket: int, amount: int)

  function Plus(a: int, b: int): int {
    a + b
  }

  const INTS: Adder<int> := Adder(0, Plus)

  /** The additions made, in order. */
  function Entries<X, K>(xs: seq<X>, f: X -> Outcome<K>): seq<Item<(K, int), int>> {
    if xs == [] then []
    else
      var n := |xs| - 1;
      Entries(xs[..n], f) + match f(xs[n])
                            case Bin(key, bucket, amount) => [Item((key, bucket), amount)]
                            case _ => []
  }

  lemma EntriesStep<X, K>(xs: seq<X>, f: X -> Outcome<K>, i: nat)
    requires i < |xs|
    ensures Entries(xs[..i + 1], f) ==
            match f(xs[i])
            case Bin(key, bucket, amount) => Entries(xs[..i], f) + [Item((key, bucket), amount)]
            case _ => Entries(xs[..i], f)
  {
    assert xs[..i + 1][..i] == xs[..i];
  }

  lemma {:induction false} EntriesPrefix<X, K>(xs: seq<X>, f: X -> Outcome<K>, i: nat)
    requires i <= |xs|
    ensures Entries(xs[..i], f) <= Entries(xs, f)
    decreases |xs| - i
  {
    if i < |xs| {
      EntriesStep(xs, f, i);
      EntriesPrefix(xs, f, i + 1);
    } else {
      assert xs[..i] == xs;
    }
  }

  ghost predicate Fails<X, K>(xs: seq<X>, f: X -> Outcome<K>, error: Error) {
    exists i :: 0 <= i < |xs| && f(xs[i]) == Fail(error)
  }

  /** How a line is read: `inputs` are what its labels are made of. */
  datatype LineReader<!L, !C, !B, !K> = LineReader(
    selected: L -> bool, textual: L -> bool, inputs: L -> C, labels: C -> Option<B>,
    failed: B -> bool, key: B -> K, bucket: L -> int, amount: L -> int)

  function BaseOutcome<L, C, B, K>(q: LineReader<L, C, B, K>, l: L, base: B): Outcome<K> {
    if q.failed(base) then Fail(PipelineError) else Bin(q.key(base), q.bucket(l), q.amount(l))
  }

  function LineOutcome<L, C, B, K>(q: LineReader<L, C, B, K>, l: L): Outcome<K> {
    if !q.selected(l) then Skip
    else if !q.textual(l) then Fail(FallbackError)
    else
      match q.labels(q.inputs(l))
      case None => Fail(FallbackError)
      case Some(base) => BaseOutcome(q, l, base)
  }

  /** How a rollup row is read. */
  datatype RowReader<!S, !B, !K> = RowReader(
    wanted: int -> bool, dropsIds: bool, selected: S -> bool, labels: S -> Option<B>,
    failed: B -> bool, key: B -> K, amount: Cell -> int)

  /** A stream's series: absent when unselected. */
  function StreamKey<S, B, K>(q: RowReader<S, B, K>, s: S): Result<Option<K>, Error> {
    if !q.selected(s) then Ok(None)
    else
      match q.labels(s)
      case None => Err(FallbackError)
      case Some(base) => if q.failed(base) then Err(PipelineError) else Ok(Some(q.key(base)))
  }

  function KeyOutcome<K>(key: Result<Option<K>, Error>, bucket: int, amount: int): Outcome<K> {
    match key
    case Err(e) => Fail(e)
    case Ok(None) => Skip
    case Ok(Some(k)) => Bin(k, bucket, amount)
  }

  function RowOutcome<S, B, K>(q: RowReader<S, B, K>, row: Row<S>): Outcome<K> {
    if !Readable(row) then Fail(FallbackError)
    else if !q.wanted(row.key.0) then Skip
    else if row.value.traced > 0 && !q.dropsIds then Fail(FallbackError)
    else KeyOutcome(StreamKey(q, row.key.1), row.key.0, q.amount(row.value))
  }

  function LineFold<L, C, B, K>(q: LineReader<L, C, B, K>): L -> Outcome<K> {
    l => LineOutcome(q, l)
  }

  function RowFold<S, B, K>(q: RowReader<S, B, K>): Row<S> -> Outcome<K> {
    (row: Row<S>) => RowOutcome(q, row)
  }

  function WantedRow<S, B, K>(q: RowReader<S, B, K>): Row<S> -> bool {
    (row: Row<S>) => q.wanted(row.key.0)
  }

  lemma NoneYet<X, K>(xs: seq<X>, p: X -> bool, f: X -> Outcome<K>, was: map<(K, int), int>)
    ensures T.Where(xs[..0], p) == [] && Entries(xs[..0], f) == [] && AddAll(INTS, was, Entries(xs[..0], f)) == was
    ensures xs[..|xs|] == xs
  {
  }

  lemma OneMore<X, K>(xs: seq<X>, p: X -> bool, f: X -> Outcome<K>, i: nat)
    requires i < |xs|
    ensures |T.Where(xs[..i + 1], p)| == |T.Where(xs[..i], p)| + if p(xs[i]) then 1 else 0
    ensures |Entries(xs[..i + 1], f)| == |Entries(xs[..i], f)| + if f(xs[i]).Bin? then 1 else 0
  {
    hide T.Where, Entries;
    T.WhereStep(xs, p, i);
    EntriesStep(xs, f, i);
  }

  class State<K(==, !new)> {
    const max: nat
    var bins: map<(K, int), int>
    var samples: nat

    constructor (max: nat)
      ensures this.max == max && Valid() && bins == map[]
    {
      this.max := max;
      bins, samples := map[], 0;
    }

    /** The sample count is the number of bins, within its limit. */
    ghost predicate Valid()
      reads this
    {
      samples == |bins| <= max
    }

    method AddBin(key: K, bucket: int, amount: int) returns (ok: bool)
      requires Valid()
      modifies this
      ensures ok ==> Valid() && bins == AddItem(INTS, old(bins), Item((key, bucket), amount))
      ensures !ok ==> |AddItem(INTS, old(bins), Item((key, bucket), amount)).Keys| > max
    {
      AddItemSize(INTS, bins, Item((key, bucket), amount));
      if (key, bucket) in bins {
        bins := bins[(key, bucket) := bins[(key, bucket)] + amount];
        return true;
      }
      samples := samples + 1;
      if samples > max {
        return false;
      }
      bins := bins[(key, bucket) := amount];
      ok := true;
    }

    /** The first `i` elements are in and none of them failed. */
    ghost predicate Through<X(!new)>(xs: seq<X>, f: X -> Outcome<K>, i: nat, was: map<(K, int), int>)
      requires i <= |xs|
      reads this
    {
      Valid() && bins == AddAll(INTS, was, Entries(xs[..i], f)) && forall j :: 0 <= j < i ==> !f(xs[j]).Fail?
    }

    /** Does what an outcome says. */
    method Apply<X(!new)>(xs: seq<X>, ghost f: X -> Outcome<K>, i: nat, outcome: Outcome<K>,
                          ghost was: map<(K, int), int>)
      returns (r: Result<(), Error>)
      requires i < |xs| && outcome == f(xs[i]) && Through(xs, f, i, was)
      modifies this
      ensures r.Ok? ==> Through(xs, f, i + 1, was)
      ensures r.Err? ==>
                Fails(xs, f, r.error) || (r.error == LimitError && |AddAll(INTS, was, Entries(xs, f)).Keys| > max)
    {
      EntriesStep(xs, f, i);
      match outcome
      case Skip => r := Ok(());
      case Fail(e) => r := Err(e);
      case Bin(key, bucket, amount) =>
        AddAllSnoc(INTS, was, Entries(xs[..i], f), Item((key, bucket), amount));
        var ok := AddBin(key, bucket, amount);
        if !ok {
          OverBudget(was, xs, f, i + 1);
          return Err(LimitError);
        }
        r := Ok(());
    }

    /** Folds the selected lines of one record batch, building each distinct label set once. */
    method Scan<L(!new), C(==, !new), B>(q: LineReader<L, C, B, K>, lines: seq<L>)
      returns (r: Result<(nat, nat), Error>)
      requires Valid()
      modifies this
      ensures r.Ok? ==> Through(lines, LineFold(q), |lines|, old(bins))
      ensures r.Ok? ==> r.value.0 == |T.Where(lines, q.selected)| && r.value.1 == |Entries(lines, LineFold(q))|
      ensures r.Err? ==> Fails(lines, LineFold(q), r.error)
                         || (r.error == LimitError && |AddAll(INTS, old(bins), Entries(lines, LineFold(q))).Keys| > max)
    {
      hide T.Where, AddAll, Entries, Fails, AddItem;
      ghost var was := bins;
      var bases: map<C, B> := map[];
      var chosen, kept := 0, 0;
      var i := 0;
      NoneYet(lines, q.selected, LineFold(q), was);
      while i < |lines|
        invariant i <= |lines| && Through(lines, LineFold(q), i, was)
        invariant chosen == |T.Where(lines[..i], q.selected)| && kept == |Entries(lines[..i], LineFold(q))|
        invariant forall c :: c in bases ==> q.labels(c) == Some(bases[c])
      {
        var l := lines[i];
        var outcome: Outcome<K> := Skip;
        if q.selected(l) {
          if !q.textual(l) {
            outcome := Fail(FallbackError);
          } else {
            var inputs := q.inputs(l);
            if inputs !in bases && q.labels(inputs).Some? {
              bases := bases[inputs := q.labels(inputs).value];
            }
            outcome := if inputs in bases then BaseOutcome(q, l, bases[inputs]) else Fail(FallbackError);
          }
        }
        assert outcome == LineOutcome(q, l);
        OneMore(lines, q.selected, LineFold(q), i);
        var step := Apply(lines, LineFold(q), i, outcome, was);
        if step.Err? {
          return Err(step.error);
        }
        chosen := chosen + if q.selected(l) then 1 else 0;
        kept := kept + if outcome.Bin? then 1 else 0;
        i := i + 1;
      }
      r := Ok((chosen, kept));
    }

    /** Folds the wanted rows of one rollup, making each stream's key once. */
    method AddRollup<S(==, !new), B>(q: RowReader<S, B, K>, rows: seq<Row<S>>) returns (r: Result<nat, Error>)
      requires Valid()
      modifies this
      ensures r.Ok? ==> Through(rows, RowFold(q), |rows|, old(bins)) && r.value == |T.Where(rows, WantedRow(q))|
      ensures r.Err? ==> Fails(rows, RowFold(q), r.error)
                         || (r.error == LimitError && |AddAll(INTS, old(bins), Entries(rows, RowFold(q))).Keys| > max)
    {
      hide T.Where, AddAll, Entries, Fails, AddItem, Readable;
      ghost var was := bins;
      var keys: map<S, Option<K>> := map[];
      var count := 0;
      var i := 0;
      NoneYet(rows, WantedRow(q), RowFold(q), was);
      while i < |rows|
        invariant i <= |rows| && Through(rows, RowFold(q), i, was) && count == |T.Where(rows[..i], WantedRow(q))|
        invariant forall s :: s in keys ==> StreamKey(q, s) == Ok(keys[s])
      {
        var row := rows[i];
        var outcome: Outcome<K> := Skip;
        if !Readable(row) {
          outcome := Fail(FallbackError);
        } else if q.wanted(row.key.0) {
          count := count + 1;
          if row.value.traced > 0 && !q.dropsIds {
            outcome := Fail(FallbackError);
          } else {
            var stream := row.key.1;
            if stream !in keys && StreamKey(q, stream).Ok? {
              keys := keys[stream := StreamKey(q, stream).value];
            }
            var key := if stream in keys then Ok(keys[stream]) else StreamKey(q, stream);
            outcome := KeyOutcome(key, row.key.0, q.amount(row.value));
          }
        }
        assert outcome == RowOutcome(q, row);
        OneMore(rows, WantedRow(q), RowFold(q), i);
        var step := Apply(rows, RowFold(q), i, outcome, was);
        if step.Err? {
          return Err(step.error);
        }
        i := i + 1;
      }
      r := Ok(count);
    }
  }

  lemma OverBudget<X, K>(g: map<(K, int), int>, xs: seq<X>, f: X -> Outcome<K>, i: nat)
    requires i <= |xs|
    ensures |AddAll(INTS, g, Entries(xs[..i], f)).Keys| <= |AddAll(INTS, g, Entries(xs, f)).Keys|
  {
    EntriesPrefix(xs, f, i);
    var a, b := Entries(xs[..i], f), Entries(xs, f);
    assert b == a + b[|a|..];
    AddAllGrows(INTS, g, a, b[|a|..]);
  }

  /** Folds that agree on every element add the same entries and fail alike. */
  lemma {:induction false} SameEntries<X, K>(xs: seq<X>, f: X -> Outcome<K>, g: X -> Outcome<K>)
    requires forall i :: 0 <= i < |xs| ==> f(xs[i]) == g(xs[i])
    ensures Entries(xs, f) == Entries(xs, g) && forall e :: Fails(xs, f, e) <==> Fails(xs, g, e)
    decreases |xs|
  {
    if xs != [] {
      var n := |xs| - 1;
      assert forall i :: 0 <= i < n ==> xs[..n][i] == xs[i];
      SameEntries(xs[..n], f, g);
    }
  }
}
