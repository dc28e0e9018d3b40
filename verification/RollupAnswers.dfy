/** A rollup answers a binned scan exactly as reading its lines would. */
module RollupAnswers {
  import opened Prelude
  import opened Grid
  import opened RollupBuilder
  import opened RollupMerge
  import B = BinnedScan
  import R = RunTotals
  import T = Tally

  // ---- Sums of a fold's additions --------------------------------------------

  function BinAt<X, K(==)>(f: X -> B.Outcome<K>, k: (K, int)): X -> bool {
    x => f(x).Bin? && (f(x).key, f(x).bucket) == k
  }

  function AmountOf<X, K>(f: X -> B.Outcome<K>): X -> int {
    x => if f(x).Bin? then f(x).amount else 0
  }

  function EntryKey<K>(x: Item<(K, int), int>): (K, int) {
    x.key
  }

  function EntryValue<K>(x: Item<(K, int), int>): int {
    x.value
  }

  lemma {:induction false} EntriesSum<X, K>(xs: seq<X>, f: X -> B.Outcome<K>, k: (K, int))
    ensures T.SumAt(B.Entries(xs, f), EntryKey, EntryValue, k) == T.Sum(xs, BinAt(f, k), AmountOf(f))
    decreases |xs|
  {
    if xs != [] {
      var n := |xs| - 1;
      EntriesSum(xs[..n], f, k);
      B.EntriesStep(xs, f, n);
      assert xs[..n + 1] == xs;
      match f(xs[n])
      case Bin(key, bucket, amount) =>
        T.SumAtSnoc(B.Entries(xs[..n], f), Item((key, bucket), amount), EntryKey, EntryValue, k);
      case _ =>
    }
  }

  ghost predicate BinsAt<X, K>(xs: seq<X>, f: X -> B.Outcome<K>, k: (K, int)) {
    exists i :: 0 <= i < |xs| && BinAt(f, k)(xs[i])
  }

  lemma BinsStep<X, K>(xs: seq<X>, f: X -> B.Outcome<K>, k: (K, int))
    requires xs != []
    ensures BinsAt(xs, f, k) <==> BinsAt(xs[..|xs| - 1], f, k) || BinAt(f, k)(xs[|xs| - 1])
  {
    hide BinAt;
    var n := |xs| - 1;
    if BinsAt(xs[..n], f, k) {
      var i :| 0 <= i < n && BinAt(f, k)(xs[..n][i]);
      assert xs[i] == xs[..n][i];
    }
    if i :| 0 <= i < n && BinAt(f, k)(xs[i]) {
      assert xs[..n][i] == xs[i];
    }
  }

  lemma {:induction false} EntriesMention<X, K>(xs: seq<X>, f: X -> B.Outcome<K>, k: (K, int))
    ensures Mentions(B.Entries(xs, f), k) <==> BinsAt(xs, f, k)
    decreases |xs|
  {
    if xs != [] {
      var n := |xs| - 1;
      EntriesMention(xs[..n], f, k);
      BinsStep(xs, f, k);
      B.EntriesStep(xs, f, n);
      assert xs[..n + 1] == xs;
      match f(xs[n])
      case Bin(key, bucket, amount) => MentionsSnoc(B.Entries(xs[..n], f), Item((key, bucket), amount), k);
      case _ =>
    }
  }

  lemma {:induction false} IntTotal<K>(items: seq<Item<(K, int), int>>, from: int, k: (K, int))
    ensures Total(B.INTS, from, items, k) == from + T.SumAt(items, EntryKey, EntryValue, k)
    decreases |items|
  {
    if items != [] {
      var n := |items| - 1;
      IntTotal(items[..n], from, k);
      assert items == items[..n] + [items[n]];
      T.SumAtSnoc(items[..n], items[n], EntryKey, EntryValue, k);
    }
  }

  /** Two folds that add the same sums under the same keys leave the same bins, whatever was there. */
  lemma SameBins<X, Y, K(!new)>(g: map<(K, int), int>, xs: seq<X>, f: X -> B.Outcome<K>, ys: seq<Y>,
                                h: Y -> B.Outcome<K>)
    requires forall k :: BinsAt(xs, f, k) <==> BinsAt(ys, h, k)
    requires forall k :: T.Sum(xs, BinAt(f, k), AmountOf(f)) == T.Sum(ys, BinAt(h, k), AmountOf(h))
    ensures AddAll(B.INTS, g, B.Entries(xs, f)) == AddAll(B.INTS, g, B.Entries(ys, h))
  {
    hide BinsAt, BinAt, AmountOf;
    var left, right := AddAll(B.INTS, g, B.Entries(xs, f)), AddAll(B.INTS, g, B.Entries(ys, h));
    forall k ensures (k in left <==> k in right) && At(B.INTS, left, k) == At(B.INTS, right, k) {
      AddAllAt(B.INTS, g, B.Entries(xs, f), k);
      AddAllAt(B.INTS, g, B.Entries(ys, h), k);
      EntriesMention(xs, f, k);
      EntriesMention(ys, h, k);
      IntTotal(B.Entries(xs, f), At(B.INTS, g, k), k);
      IntTotal(B.Entries(ys, h), At(B.INTS, g, k), k);
      EntriesSum(xs, f, k);
      EntriesSum(ys, h, k);
    }
    forall k | k in left ensures left[k] == right[k] {
      assert At(B.INTS, left, k) == left[k] && At(B.INTS, right, k) == right[k];
    }
  }

  // ---- Rows built from lines -------------------------------------------------

  ghost predicate Stores<L, S(!new)>(rows: seq<Row<S>>, c: Columns<L, S>, lines: seq<L>) {
    Lists(rows, AddAll(CELLS, map[], Items(c, lines)))
  }

  function LineKey<L, S>(c: Columns<L, S>, l: L): (int, S) {
    (c.bucket(l), c.stream(l))
  }

  function LineChosen<L, S>(c: Columns<L, S>, chosen: ((int, S)) -> bool): L -> bool {
    l => c.counted(l) && chosen(LineKey(c, l))
  }

  function LineHeld<L, S>(c: Columns<L, S>, f: Field): L -> int {
    l => Get(f, c.cell(l))
  }

  lemma {:induction false} ItemsSum<L, S>(c: Columns<L, S>, lines: seq<L>, chosen: ((int, S)) -> bool, f: Field)
    ensures Summed(Items(c, lines), chosen, f) == T.Sum(lines, LineChosen(c, chosen), LineHeld(c, f))
    decreases |lines|
  {
    if lines != [] {
      var n := |lines| - 1;
      ItemsSum(c, lines[..n], chosen, f);
      ItemsStep(c, lines, n);
      assert lines[..n + 1] == lines;
      if c.counted(lines[n]) {
        T.SumSnoc(Items(c, lines[..n]), ItemOf(c, lines[n]), (x: Row<S>) => chosen(x.key), Held(f));
      }
    }
  }

  function InBucket<S>(b: int): ((int, S)) -> bool {
    (key: (int, S)) => key.0 == b
  }

  lemma {:induction false} CountsSum<S>(rows: seq<Row<S>>, b: int)
    ensures R.Amount(Counts(rows), b) == Summed(rows, InBucket(b), Count)
    decreases |rows|
  {
    if rows != [] {
      var n := |rows| - 1;
      CountsSum(rows[..n], b);
      assert Counts(rows) == Counts(rows[..n]) + [(rows[n].key.0, rows[n].value.count)];
      R.AmountSnoc(Counts(rows[..n]), (rows[n].key.0, rows[n].value.count), b);
    }
  }

  /** The line counts a finished rollup reports are those of its lines. */
  lemma TotalsCountLines<L, S(!new)>(rows: seq<Row<S>>, c: Columns<L, S>, lines: seq<L>, b: int)
    requires Stores(rows, c, lines)
    ensures R.Amount(Counts(rows), b) == T.Sum(lines, LineChosen(c, InBucket(b)), LineHeld(c, Count))
  {
    hide Lists, R.Amount;
    CountsSum(rows, b);
    RowsAnswer(rows, Items(c, lines), InBucket(b), Count);
    ItemsSum(c, lines, InBucket(b), Count);
  }

  /** Some counted line satisfies `p`. */
  ghost predicate AnyLine<L, S>(c: Columns<L, S>, lines: seq<L>, p: Row<S> -> bool) {
    exists i :: 0 <= i < |lines| && c.counted(lines[i]) && p(ItemOf(c, lines[i]))
  }

  lemma {:induction false} ItemsAny<L, S>(c: Columns<L, S>, lines: seq<L>, p: Row<S> -> bool)
    ensures T.Any(Items(c, lines), p) <==> AnyLine(c, lines, p)
    decreases |lines|
  {
    if lines != [] {
      var n := |lines| - 1;
      ItemsAny(c, lines[..n], p);
      ItemsStep(c, lines, n);
      assert lines[..n + 1] == lines;
      if c.counted(lines[n]) {
        T.AnySnoc(Items(c, lines[..n]), ItemOf(c, lines[n]), p);
      }
      if i :| 0 <= i < n && c.counted(lines[i]) && p(ItemOf(c, lines[i])) {
        assert lines[..n][i] == lines[i];
      }
      if i :| 0 <= i < n && c.counted(lines[..n][i]) && p(ItemOf(c, lines[..n][i])) {
        assert lines[i] == lines[..n][i];
      }
    }
  }

  /** There is a row with a chosen key exactly when there is such a line. */
  lemma RowIffLine<L, S(!new)>(rows: seq<Row<S>>, c: Columns<L, S>, lines: seq<L>, chosen: ((int, S)) -> bool)
    requires Stores(rows, c, lines)
    ensures (exists i :: 0 <= i < |rows| && chosen(rows[i].key)) <==>
            (exists i :: 0 <= i < |lines| && c.counted(lines[i]) && chosen(LineKey(c, lines[i])))
  {
    var items := Items(c, lines);
    var p := (x: Row<S>) => chosen(x.key);
    ItemsAny(c, lines, p);
    if i :| 0 <= i < |rows| && chosen(rows[i].key) {
      BuiltAt(items, rows[i].key, Count);
      var j :| 0 <= j < |items| && items[j].key == rows[i].key;
      assert p(items[j]);
      var m :| 0 <= m < |lines| && c.counted(lines[m]) && p(ItemOf(c, lines[m]));
      assert chosen(LineKey(c, lines[m]));
    }
    if m :| 0 <= m < |lines| && c.counted(lines[m]) && chosen(LineKey(c, lines[m])) {
      assert p(ItemOf(c, lines[m]));
      var j :| 0 <= j < |items| && p(items[j]);
      BuiltAt(items, items[j].key, Count);
      assert Mentions(items, items[j].key);
      assert Mentions(rows, items[j].key);
      var i :| 0 <= i < |rows| && rows[i].key == items[j].key;
      assert chosen(rows[i].key);
    }
  }

  /** A row built from readable items is readable, and traced exactly when one of its items is. */
  lemma RowSound<S(!new)>(rows: seq<Row<S>>, items: seq<Row<S>>, i: nat)
    requires Lists(rows, AddAll(CELLS, map[], items)) && i < |rows|
    requires forall j :: 0 <= j < |items| ==> Readable(items[j])
    ensures Readable(rows[i])
    ensures rows[i].value.traced > 0 <==>
              exists j :: 0 <= j < |items| && items[j].key == rows[i].key && items[j].value.traced > 0
  {
    hide AddAll, T.Sum;
    var k := rows[i].key;
    var view: map<(int, S), Cell> := AddAll(CELLS, map[], items);
    assert At(CELLS, view, k) == rows[i].value;
    var here := (x: Row<S>) => x.key == k;
    forall f ensures Get(f, rows[i].value) == T.Sum(items, here, Held(f)) {
      BuiltAt(items, k, f);
      T.SumAtIs(items, KeyOf, Held(f), k, here);
    }
    BuiltAt(items, k, Count);
    var m :| 0 <= m < |items| && items[m].key == k;
    assert here(items[m]) && Held<S>(Count)(items[m]) > 0;
    T.SumPositive(items, here, Held(Count));
    T.SumPositive(items, here, Held(Bytes));
    T.SumPositive(items, here, Held(TracedLines));
    T.SumOrder(items, here, Held(TracedLines), Held(Count));
    assert Get(Count, rows[i].value) == rows[i].value.count && Get(Bytes, rows[i].value) == rows[i].value.bytes
           && Get(TracedLines, rows[i].value) == rows[i].value.traced;
    if j :| 0 <= j < |items| && here(items[j]) && Held<S>(TracedLines)(items[j]) > 0 {
      assert items[j].key == rows[i].key && items[j].value.traced > 0;
    }
    if j :| 0 <= j < |items| && items[j].key == rows[i].key && items[j].value.traced > 0 {
      assert here(items[j]) && Held<S>(TracedLines)(items[j]) > 0;
    }
  }

  // ---- The theorem -----------------------------------------------------------

  /** What a wanted line or row of a stream adds. */
  function Plain<S, D, K>(q: B.RowReader<S, D, K>, key: (int, S), amount: int): B.Outcome<K> {
    if q.wanted(key.0) then B.KeyOutcome(B.StreamKey(q, key.1), key.0, amount) else B.Skip
  }

  /** Scanning a line does what its stream alone says. */
  ghost predicate Follows<L, S, D, K>(c: Columns<L, S>, lines: seq<L>, q: B.RowReader<S, D, K>, f: Field,
                                      scan: L -> B.Outcome<K>) {
    forall i :: 0 <= i < |lines| ==>
      scan(lines[i]) == if c.counted(lines[i]) then Plain(q, LineKey(c, lines[i]), Get(f, c.cell(lines[i]))) else B.Skip
  }

  ghost predicate PlainRows<S(!new), D, K>(rows: seq<Row<S>>, q: B.RowReader<S, D, K>, f: Field) {
    forall i :: 0 <= i < |rows| ==> B.RowOutcome(q, rows[i]) == Plain(q, rows[i].key, Get(f, rows[i].value))
  }

  /** No line that would be folded carries a trace or span ID. */
  ghost predicate Untraced<L, S, D, K>(c: Columns<L, S>, lines: seq<L>, q: B.RowReader<S, D, K>) {
    forall i :: 0 <= i < |lines| && c.counted(lines[i]) && q.wanted(c.bucket(lines[i])) ==> c.cell(lines[i]).traced == 0
  }

  ghost predicate Sane<L, S>(c: Columns<L, S>, lines: seq<L>) {
    forall i :: 0 <= i < |lines| && c.counted(lines[i]) ==> Readable(ItemOf(c, lines[i]))
  }

  lemma SaneItems<L, S(!new)>(c: Columns<L, S>, lines: seq<L>)
    requires Sane(c, lines)
    ensures forall j :: 0 <= j < |Items(c, lines)| ==> Readable(Items(c, lines)[j])
  {
    var bad := (x: Row<S>) => !Readable(x);
    ItemsAny(c, lines, bad);
    forall j | 0 <= j < |Items(c, lines)| ensures Readable(Items(c, lines)[j]) {
      assert !bad(Items(c, lines)[j]);
    }
  }

  /** A wanted row is traced exactly when one of its lines is. */
  lemma TracedRow<L, S(!new)>(rows: seq<Row<S>>, c: Columns<L, S>, lines: seq<L>, i: nat)
    requires Stores(rows, c, lines) && Sane(c, lines) && i < |rows|
    ensures Readable(rows[i])
    ensures rows[i].value.traced > 0 <==> AnyLine(c, lines, (x: Row<S>) => x.key == rows[i].key && x.value.traced > 0)
  {
    hide Readable;
    SaneItems(c, lines);
    RowSound(rows, Items(c, lines), i);
    var p := (x: Row<S>) => x.key == rows[i].key && x.value.traced > 0;
    ItemsAny(c, lines, p);
    if rows[i].value.traced > 0 {
      var j :| 0 <= j < |Items(c, lines)| && Items(c, lines)[j].key == rows[i].key
               && Items(c, lines)[j].value.traced > 0;
      assert p(Items(c, lines)[j]);
    }
  }

  lemma RowsPlain<L, S(!new), D, K>(rows: seq<Row<S>>, c: Columns<L, S>, lines: seq<L>, q: B.RowReader<S, D, K>,
                                    f: Field)
    requires Stores(rows, c, lines) && Sane(c, lines) && (q.dropsIds || Untraced(c, lines, q))
    requires forall cell :: q.amount(cell) == Get(f, cell)
    ensures PlainRows(rows, q, f)
  {
    hide Readable, Stores, Sane;
    forall i | 0 <= i < |rows| ensures B.RowOutcome(q, rows[i]) == Plain(q, rows[i].key, Get(f, rows[i].value)) {
      TracedRow(rows, c, lines, i);
      if q.wanted(rows[i].key.0) && rows[i].value.traced > 0 {
        var p := (x: Row<S>) => x.key == rows[i].key && x.value.traced > 0;
        assert AnyLine(c, lines, p);
        var m :| 0 <= m < |lines| && c.counted(lines[m]) && p(ItemOf(c, lines[m]));
      }
    }
  }

  function Feeds<S, D, K(==)>(q: B.RowReader<S, D, K>, k: (K, int)): ((int, S)) -> bool {
    (key: (int, S)) => q.wanted(key.0) && key.0 == k.1 && B.StreamKey(q, key.1) == Ok(Some(k.0))
  }

  lemma LineSum<L, S(!new), D, K(!new)>(c: Columns<L, S>, lines: seq<L>, q: B.RowReader<S, D, K>, f: Field,
                                        scan: L -> B.Outcome<K>, k: (K, int))
    requires Follows(c, lines, q, f, scan)
    ensures T.Sum(lines, BinAt(scan, k), AmountOf(scan)) == Summed(Items(c, lines), Feeds(q, k), f)
  {
    hide B.StreamKey, Summed;
    T.SumSame(lines, BinAt(scan, k), LineChosen(c, Feeds(q, k)), AmountOf(scan), LineHeld(c, f));
    ItemsSum(c, lines, Feeds(q, k), f);
  }

  lemma RowSum<S(!new), D, K(!new)>(rows: seq<Row<S>>, q: B.RowReader<S, D, K>, f: Field, k: (K, int))
    requires PlainRows(rows, q, f)
    ensures T.Sum(rows, BinAt(B.RowFold(q), k), AmountOf(B.RowFold(q))) == Summed(rows, Feeds(q, k), f)
  {
    hide B.StreamKey, B.RowOutcome;
    var chosen: ((int, S)) -> bool := Feeds(q, k);
    T.SumSame(rows, BinAt(B.RowFold(q), k), (x: Row<S>) => chosen(x.key), AmountOf(B.RowFold(q)), Held(f));
  }

  lemma SameSums<L, S(!new), D, K(!new)>(rows: seq<Row<S>>, c: Columns<L, S>, lines: seq<L>, q: B.RowReader<S, D, K>,
                                         f: Field, scan: L -> B.Outcome<K>, k: (K, int))
    requires Stores(rows, c, lines) && PlainRows(rows, q, f) && Follows(c, lines, q, f, scan)
    ensures T.Sum(lines, BinAt(scan, k), AmountOf(scan)) == T.Sum(rows, BinAt(B.RowFold(q), k), AmountOf(B.RowFold(q)))
  {
    hide PlainRows, Follows, Lists, Summed, Feeds, BinAt, AmountOf;
    LineSum(c, lines, q, f, scan, k);
    RowSum(rows, q, f, k);
    RowsAnswer(rows, Items(c, lines), Feeds(q, k), f);
  }

  lemma SameKeys<L, S(!new), D, K(!new)>(rows: seq<Row<S>>, c: Columns<L, S>, lines: seq<L>, q: B.RowReader<S, D, K>,
                                         f: Field, scan: L -> B.Outcome<K>, k: (K, int))
    requires Stores(rows, c, lines) && PlainRows(rows, q, f) && Follows(c, lines, q, f, scan)
    ensures BinsAt(lines, scan, k) <==> BinsAt(rows, B.RowFold(q), k)
  {
    hide Readable, B.RowOutcome, B.StreamKey, Stores;
    var chosen: ((int, S)) -> bool := Feeds(q, k);
    RowIffLine(rows, c, lines, chosen);
    assert forall i :: 0 <= i < |rows| ==> BinAt(B.RowFold(q), k)(rows[i]) == chosen(rows[i].key);
    assert forall i :: 0 <= i < |lines| ==>
             BinAt(scan, k)(lines[i]) == (c.counted(lines[i]) && chosen(LineKey(c, lines[i])));
  }

  function Refuses<S, D, K(==)>(q: B.RowReader<S, D, K>, e: B.Error): ((int, S)) -> bool {
    (key: (int, S)) => q.wanted(key.0) && B.StreamKey(q, key.1) == Err(e)
  }

  lemma SameFailures<L, S(!new), D, K(!new)>(rows: seq<Row<S>>, c: Columns<L, S>, lines: seq<L>,
                                             q: B.RowReader<S, D, K>, f: Field, scan: L -> B.Outcome<K>, e: B.Error)
    requires Stores(rows, c, lines) && PlainRows(rows, q, f) && Follows(c, lines, q, f, scan)
    ensures B.Fails(lines, scan, e) <==> B.Fails(rows, B.RowFold(q), e)
  {
    hide Readable, B.RowOutcome, B.StreamKey, Stores;
    var chosen: ((int, S)) -> bool := Refuses(q, e);
    RowIffLine(rows, c, lines, chosen);
    assert forall i :: 0 <= i < |rows| ==> (B.RowFold(q)(rows[i]) == B.Fail(e)) == chosen(rows[i].key);
    assert forall i :: 0 <= i < |lines| ==>
             (scan(lines[i]) == B.Fail(e)) == (c.counted(lines[i]) && chosen(LineKey(c, lines[i])));
  }

  /**
   * Folding a rollup's rows leaves the bins that scanning its lines would, and
   * fails exactly as the scan would, when no wanted line is traced or the
   * series cannot hold correlation IDs.
   */
  lemma RowsAnswerScan<L, S(!new), D, K(!new)>(rows: seq<Row<S>>, c: Columns<L, S>, lines: seq<L>,
                                               q: B.RowReader<S, D, K>, f: Field,
                                               scan: L -> B.Outcome<K>, bins: map<(K, int), int>)
    requires Stores(rows, c, lines) && Sane(c, lines) && Follows(c, lines, q, f, scan)
    requires forall cell :: q.amount(cell) == Get(f, cell)
    requires q.dropsIds || Untraced(c, lines, q)
    ensures forall e :: B.Fails(lines, scan, e) <==> B.Fails(rows, B.RowFold(q), e)
    ensures AddAll(B.INTS, bins, B.Entries(lines, scan)) == AddAll(B.INTS, bins, B.Entries(rows, B.RowFold(q)))
  {
    hide Readable, B.RowOutcome, B.StreamKey, Stores, Sane, Follows, BinsAt, BinAt, AmountOf, B.Fails;
    RowsPlain(rows, c, lines, q, f);
    forall e ensures B.Fails(lines, scan, e) <==> B.Fails(rows, B.RowFold(q), e) {
      SameFailures(rows, c, lines, q, f, scan, e);
    }
    forall k ensures BinsAt(lines, scan, k) <==> BinsAt(rows, B.RowFold(q), k) {
      SameKeys(rows, c, lines, q, f, scan, k);
    }
    forall k ensures T.Sum(lines, BinAt(scan, k), AmountOf(scan)) ==
      T.Sum(rows, BinAt(B.RowFold(q), k), AmountOf(B.RowFold(q))) {
      SameSums(rows, c, lines, q, f, scan, k);
    }
    SameBins(bins, lines, scan, rows, B.RowFold(q));
  }

  /** Otherwise the fold falls back: a traced wanted line makes a row refuse. */
  lemma TracedFallsBack<L, S(!new), D, K(!new)>(rows: seq<Row<S>>, c: Columns<L, S>, lines: seq<L>,
                                                q: B.RowReader<S, D, K>)
    requires Stores(rows, c, lines) && Sane(c, lines) && !q.dropsIds && !Untraced(c, lines, q)
    ensures B.Fails(rows, B.RowFold(q), B.FallbackError)
  {
    hide Readable, Stores;
    var m :| 0 <= m < |lines| && c.counted(lines[m]) && q.wanted(c.bucket(lines[m])) && c.cell(lines[m]).traced != 0;
    var chosen := (key: (int, S)) => key == LineKey(c, lines[m]);
    assert chosen(LineKey(c, lines[m]));
    RowIffLine(rows, c, lines, chosen);
    var i :| 0 <= i < |rows| && chosen(rows[i].key);
    TracedRow(rows, c, lines, i);
    var p := (x: Row<S>) => x.key == rows[i].key && x.value.traced > 0;
    assert Readable(ItemOf(c, lines[m]));
    assert p(ItemOf(c, lines[m])) by { TracedItem(ItemOf(c, lines[m])); }
    assert AnyLine(c, lines, p);
    assert B.RowFold(q)(rows[i]) == B.Fail(B.FallbackError);
  }

  lemma TracedItem<S>(x: Row<S>)
    requires Readable(x) && x.value.traced != 0
    ensures x.value.traced > 0
  {
  }
}
