/** Log lines, and how a rollup is built from them (`log_rollup.rs`). */
module LogRollup {
  import opened Prelude
  import opened Grid
  import opened LogBuckets
  import opened LogLabels
  import opened RollupBuilder
  import opened RollupMerge
  import opened RollupAnswers
  import R = RunTotals
  import T = Tally

  /** One stored log line; a null column is `None`. */
  datatype Line = Line(ts: Option<I64>, resource: Option<string>, attributes: Option<string>,
                       service: Option<string>, level: Option<string>, body: Option<string>, ids: Ids)

  function TextOf(value: Option<string>): string {
    if value.Some? then value.value else ""
  }

  function StreamOf(l: Line): Stream {
    Stream(TextOf(l.resource), TextOf(l.attributes), l.service, l.level)
  }

  function Time(l: Line): I64 {
    if l.ts.Some? then l.ts.value else 0
  }

  function Raw(l: Line): Option<string> {
    if l.body.Some? && l.body.value != "" then l.body else None
  }

  /** Only bodies that are JSON strings, or absent, count natively. */
  predicate StringBody(l: Line) {
    Raw(l).Some? ==> var raw := Raw(l).value; |raw| >= 2 && raw[0] == '"' && raw[|raw| - 1] == '"'
  }

  function Size(lib: Library, l: Line): nat {
    if Raw(l).Some? then lib.size(Raw(l).value) else 0
  }

  function CellOf(lib: Library, l: Line): Cell {
    Cell(1, Size(lib, l), if Traced(l.ids) then 1 else 0)
  }

  predicate InRange(range: Range, l: Line) {
    l.ts.Some? && range.start <= l.ts.value <= range.end && Wanted(range, BucketEnd(l.ts.value))
  }

  /** The columns rows of one run share, compared as stored. */
  predicate SameColumns(a: Line, b: Line) {
    a.resource == b.resource && a.attributes == b.attributes && a.service == b.service && a.level == b.level
  }

  /** How a builder over `range` reads a log line. */
  function LineColumns(lib: Library, range: Range): Columns<Line, Stream> {
    Columns((l: Line) => InRange(range, l), StringBody, SameColumns, StreamOf, (l: Line) => BucketEnd(Time(l)),
            (l: Line) => CellOf(lib, l))
  }

  /** The streams a builder accepts: those whose labels can be built natively. */
  function NativeStream(lib: Library): Stream -> bool {
    s => EntryLabels(lib, s, NO_IDS).Some?
  }

  lemma RunsRepeatStreams(lib: Library, range: Range)
    ensures Consistent(LineColumns(lib, range))
  {
  }

  /** The counted lines of one bucket, one for each. */
  function LinesIn(lib: Library, range: Range, lines: seq<Line>, bucket: int): int {
    T.Sum(lines, LineChosen(LineColumns(lib, range), InBucket(bucket)), LineHeld(LineColumns(lib, range), Count))
  }

  // ---- The order of streams --------------------------------------------------

  predicate TextLess(a: string, b: string) {
    b != "" && (a == "" || a[0] < b[0] || (a[0] == b[0] && TextLess(a[1..], b[1..])))
  }

  lemma {:induction false} TextTotal(a: string, b: string)
    ensures !TextLess(a, a) && (a == b || TextLess(a, b) || TextLess(b, a))
  {
    if a != "" && b != "" {
      TextTotal(a[1..], b[1..]);
      assert a == [a[0]] + a[1..] && b == [b[0]] + b[1..];
    } else if a != "" {
      TextTotal(a[1..], b);
    }
  }

  lemma {:induction false} TextTransitive(a: string, b: string, c: string)
    requires TextLess(a, b) && TextLess(b, c)
    ensures TextLess(a, c)
  {
    if a != "" && a[0] == b[0] == c[0] {
      TextTransitive(a[1..], b[1..], c[1..]);
    }
  }

  /** An absent column comes before every text. */
  predicate ColumnLess(a: Option<string>, b: Option<string>) {
    b.Some? && (a.None? || TextLess(a.value, b.value))
  }

  lemma TextOrders()
    ensures Orders(TextLess)
  {
    forall a, b ensures !TextLess(a, a) && (a == b || TextLess(a, b) || TextLess(b, a)) {
      TextTotal(a, b);
    }
    forall a, b, c | TextLess(a, b) && TextLess(b, c) ensures TextLess(a, c) {
      TextTransitive(a, b, c);
    }
  }

  lemma ColumnOrders()
    ensures Orders(ColumnLess)
  {
    hide TextLess;
    TextOrders();
  }

  /** By service, resource, attributes and level in turn. */
  predicate StreamLess(a: Stream, b: Stream) {
    if a.service != b.service then ColumnLess(a.service, b.service)
    else if a.resource != b.resource then TextLess(a.resource, b.resource)
    else if a.attributes != b.attributes then TextLess(a.attributes, b.attributes)
    else ColumnLess(a.level, b.level)
  }

  lemma StreamOrders()
    ensures Orders(StreamLess)
  {
    hide TextLess, ColumnLess;
    TextOrders();
    ColumnOrders();
  }

  // ---- Building --------------------------------------------------------------

  /** Builds the rollup of the record batches of any segments. */
  method BuildRollup(lib: Library, range: Range, batches: seq<seq<Line>>)
    returns (r: Result<(seq<Row<Stream>>, seq<(int, int)>), RollupError>)
    ensures r.Ok? ==> Stores(r.value.0, LineColumns(lib, range), T.Flat(batches)) && Ordered(r.value.0, StreamLess)
    ensures r.Ok? ==> R.Increasing(r.value.1)
    ensures r.Ok? ==> forall b :: R.Amount(r.value.1, b) == LinesIn(lib, range, T.Flat(batches), b)
    ensures r.Ok? <==>
              forall i: nat, e :: !Refused(LineColumns(lib, range), NativeStream(lib), map[], T.Flat(batches), i, e)
    ensures r.Err? ==>
              exists i: nat :: Refused(LineColumns(lib, range), NativeStream(lib), map[], T.Flat(batches), i, r.error)
    ensures r.Ok? ==> forall l :: l in T.Flat(batches) && InRange(range, l) ==>
                        StringBody(l) && EntryLabels(lib, StreamOf(l), NO_IDS).Some?
    ensures r.Err? && r.error == Fallback ==>
              exists l :: l in T.Flat(batches) && InRange(range, l)
                          && !(StringBody(l) && EntryLabels(lib, StreamOf(l), NO_IDS).Some?)
  {
    hide EntryLabels, Items, Lists, StringBody, R.Amount, Refused, StreamLess, Orders, T.Flat;
    StreamOrders();
    RunsRepeatStreams(lib, range);
    var c := LineColumns(lib, range);
    var builder := new Builder<Stream>(NativeStream(lib), StreamLess);
    var added := AddBatches(builder, c, batches);
    if added.Err? {
      if added.error == Fallback { Unstorable(lib, range, T.Flat(batches)); }
      return Err(added.error);
    }
    var rows, totals := builder.Finish();
    forall b ensures R.Amount(totals, b) == LinesIn(lib, range, T.Flat(batches), b) {
      TotalsCountLines(rows, c, T.Flat(batches), b);
    }
    r := Ok((rows, totals));
  }

  lemma Unstorable(lib: Library, range: Range, lines: seq<Line>)
    requires exists i: nat :: Refused(LineColumns(lib, range), NativeStream(lib), map[], lines, i, Fallback)
    ensures exists l :: l in lines && InRange(range, l)
                        && !(StringBody(l) && EntryLabels(lib, StreamOf(l), NO_IDS).Some?)
  {
    hide EntryLabels, Items, StringBody, InRange, AddAll;
    var i: nat :| Refused(LineColumns(lib, range), NativeStream(lib), map[], lines, i, Fallback);
    assert lines[i] in lines;
  }

  /** Adds the lines of every batch in turn. */
  method AddBatches<L(!new), S(!new)>(builder: Builder<S>, c: Columns<L, S>, batches: seq<seq<L>>)
    returns (r: Result<nat, RollupError>)
    requires builder.Valid() && Consistent(c)
    modifies builder
    ensures r.Ok? ==> builder.Valid() && builder.view == AddAll(CELLS, old(builder.view), Items(c, T.Flat(batches)))
    ensures r.Ok? ==> r.value == |Items(c, T.Flat(batches))| && AllStorable(c, builder.native, T.Flat(batches))
    ensures r.Ok? <==> forall i: nat, e :: !Refused(c, builder.native, old(builder.view), T.Flat(batches), i, e)
    ensures r.Err? ==> exists i: nat :: Refused(c, builder.native, old(builder.view), T.Flat(batches), i, r.error)
  {
    hide builder.Valid, Refused, TakenIn, T.Flat;
    var added := 0;
    ghost var was := builder.view;
    NoneAdded(c, builder.native, was, batches[..0]);
    for k := 0 to |batches|
      invariant builder.Valid() && TakenIn(c, builder.native, was, T.Flat(batches[..k]), builder.view, added)
    {
      ghost var now := builder.view;
      T.FlatStep(batches, k);
      var one := builder.AddBatch(c, batches[k]);
      if one.Err? {
        ghost var i: nat :| Refused(c, builder.native, now, batches[k], i, one.error);
        RefusedIn(c, builder.native, was, batches, k, now, added, i, one.error);
        return Err(one.error);
      }
      AddedMore(c, builder.native, was, T.Flat(batches[..k]), now, added, batches[k], builder.view, one.value);
      added := added + one.value;
    }
    assert batches[..|batches|] == batches;
    builder.FewCells();
    AddedAll(c, builder.native, was, T.Flat(batches), builder.view, added);
    r := Ok(added);
  }

  lemma NoneAdded<L(!new), S(!new)>(c: Columns<L, S>, native: S -> bool, was: map<(int, S), Cell>,
                                    batches: seq<seq<L>>)
    requires batches == []
    ensures TakenIn(c, native, was, T.Flat(batches), was, 0)
  {
  }

  lemma AddedAll<L(!new), S(!new)>(c: Columns<L, S>, native: S -> bool, was: map<(int, S), Cell>, lines: seq<L>,
                                   now: map<(int, S), Cell>, count: nat)
    requires TakenIn(c, native, was, lines, now, count) && |now.Keys| <= MAX_ROWS
    ensures now == AddAll(CELLS, was, Items(c, lines)) && count == |Items(c, lines)| && AllStorable(c, native, lines)
    ensures forall i: nat, e :: !Refused(c, native, was, lines, i, e)
  {
    NoneRefused(c, native, was, lines);
  }

  lemma RefusedIn<L(!new), S(!new)>(c: Columns<L, S>, native: S -> bool, was: map<(int, S), Cell>,
                                    batches: seq<seq<L>>, k: nat, now: map<(int, S), Cell>, count: nat, i: nat,
                                    e: RollupError)
    requires k < |batches| && TakenIn(c, native, was, T.Flat(batches[..k]), now, count)
    requires Refused(c, native, now, batches[k], i, e)
    ensures exists j: nat :: Refused(c, native, was, T.Flat(batches), j, e)
  {
    hide Refused, T.Flat, Items, AddAll, AllStorable;
    var before := T.Flat(batches[..k]);
    RefusedLater(c, native, was, before, batches[k], i, e);
    T.FlatStep(batches, k);
    T.FlatPrefix(batches, k + 1);
    var rest := T.Flat(batches)[|T.Flat(batches[..k + 1])|..];
    assert T.Flat(batches) == T.Flat(batches[..k + 1]) + rest;
    RefusedStill(c, native, was, before + batches[k], rest, |before| + i, e);
  }

  /** Every counted line's minute boundary fits 64 bits. */
  ghost predicate Representable(range: Range, lines: seq<Line>) {
    forall i :: 0 <= i < |lines| && InRange(range, lines[i]) ==> Time(lines[i]) <= LAST_BOUNDARY
  }

  /** A stored rollup can be read back exactly when every counted line's boundary is representable. */
  lemma RollupReadable(lib: Library, range: Range, lines: seq<Line>, rows: seq<Row<Stream>>)
    requires Stores(rows, LineColumns(lib, range), lines)
    ensures (forall i :: 0 <= i < |rows| ==> Readable(rows[i])) <==> Representable(range, lines)
  {
    hide EntryLabels, Lists, InRange, Readable, Stores, Sane;
    if Representable(range, lines) {
      LinesSane(lib, range, lines);
      forall i | 0 <= i < |rows| ensures Readable(rows[i]) {
        TracedRow(rows, LineColumns(lib, range), lines, i);
      }
    } else {
      var m :| 0 <= m < |lines| && InRange(range, lines[m]) && Time(lines[m]) > LAST_BOUNDARY;
      Unreadable(lib, range, lines, rows, m);
    }
  }

  lemma Unreadable(lib: Library, range: Range, lines: seq<Line>, rows: seq<Row<Stream>>, m: nat)
    requires Stores(rows, LineColumns(lib, range), lines)
    requires m < |lines| && InRange(range, lines[m]) && Time(lines[m]) > LAST_BOUNDARY
    ensures exists i :: 0 <= i < |rows| && !Readable(rows[i])
  {
    hide EntryLabels, Lists, InRange, Stores, Items, BucketEnd;
    var c := LineColumns(lib, range);
    PastLast(Time(lines[m]));
    var astray := (key: (int, Stream)) => key.0 % BUCKET_NS != 0;
    assert c.counted(lines[m]) && astray(LineKey(c, lines[m]));
    RowIffLine(rows, c, lines, astray);
    var i :| 0 <= i < |rows| && astray(rows[i].key);
    assert !Readable(rows[i]);
  }

  lemma LinesSane(lib: Library, range: Range, lines: seq<Line>)
    requires Representable(range, lines)
    ensures Sane(LineColumns(lib, range), lines)
  {
    var c := LineColumns(lib, range);
    forall i | 0 <= i < |lines| && c.counted(lines[i]) ensures Readable(ItemOf(c, lines[i])) {
      PastLast(Time(lines[i]));
    }
  }

  /** A part's rollup counts every line of the window it will be merged into. */
  predicate Spans(part: Range, range: Range) {
    part.allowed.None? && part.start <= range.start && range.end <= part.end
  }

  /**
   * A rollup of a window on minute boundaries is the merge of the rollups of
   * any parts of its lines: the same cells with the same counts.
   */
  lemma BuildByParts(lib: Library, range: Range, ranges: seq<Range>, lines: seq<seq<Line>>, rows: seq<seq<Row<Stream>>>)
    requires range.allowed.None? && Aligned(range.start, range.end)
    requires |ranges| == |lines| == |rows|
    requires forall i :: 0 <= i < |lines| ==>
               && Spans(ranges[i], range) && Representable(ranges[i], lines[i])
               && Stores(rows[i], LineColumns(lib, ranges[i]), lines[i])
    ensures AddAll(CELLS, map[], Taken(range, {}, rows)) ==
            AddAll(CELLS, map[], Items(LineColumns(lib, range), T.Flat(lines)))
  {
    hide Lists, EntryLabels, Items, Representable, Narrows, Covers;
    var columns := seq(|ranges|, i requires 0 <= i < |ranges| => LineColumns(lib, ranges[i]));
    forall i | 0 <= i < |lines| ensures Narrows(LineColumns(lib, range), columns[i], Covered(range, {}), lines[i]) {
      LinesNarrow(lib, range, ranges[i], lines[i]);
    }
    BuiltByParts(range, {}, LineColumns(lib, range), columns, lines, rows);
  }

  lemma LinesNarrow(lib: Library, range: Range, part: Range, lines: seq<Line>)
    requires range.allowed.None? && Aligned(range.start, range.end) && Spans(part, range) && Representable(part, lines)
    ensures Narrows(LineColumns(lib, range), LineColumns(lib, part), Covered(range, {}), lines)
  {
    hide CellOf, StreamOf;
    var whole, c := LineColumns(lib, range), LineColumns(lib, part);
    forall i | 0 <= i < |lines|
      ensures whole.counted(lines[i]) == (c.counted(lines[i]) && Covered(range, {})(ItemOf(c, lines[i])))
    {
      if c.counted(lines[i]) {
        var ts := lines[i].ts.value;
        BucketEndExact(ts);
        WholeIffAligned(range.start, range.end);
        assert Whole(range.start, range.end, ts) == Covers(range, {}, BucketEnd(ts));
      }
    }
  }
}
