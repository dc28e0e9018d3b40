/** Binned log queries over lines and over rollups (`log_metric.rs`). */
module LogMetric {
  import opened Prelude
  import opened Grid
  import opened LogBuckets
  import opened LogLabels
  import opened LogRollup
  import opened RollupBuilder
  import opened RollupMerge
  import opened RollupAnswers
  import B = BinnedScan
  import T = Tally

  datatype Grouping = All | By(names: seq<string>) | Without(names: seq<string>)

  /** A pipeline-free count or byte query; `value` is what it sums. */
  datatype Query = Query(sel: Selection, grouping: Grouping, bytes: bool)

  function Summing(q: Query): Field {
    if q.bytes then Bytes else Count
  }

  predicate Keeps(g: Grouping, name: string) {
    match g
    case All => true
    case By(names) => name in names
    case Without(names) => name !in names
  }

  /** The series of an entry: the labels its grouping keeps. */
  function SeriesKey(g: Grouping, labels: Labels): Labels {
    map name | name in labels && Keeps(g, name) :: labels[name]
  }

  /** Whether series can never hold the correlation ID labels. */
  predicate DropsIds(g: Grouping) {
    g.By? && forall i :: 0 <= i < |g.names| ==> g.names[i] !in ID_NAMES
  }

  predicate ErrorLabel(labels: Labels) {
    "__error__" in labels && labels["__error__"] != ""
  }

  predicate FiltersPass(filters: seq<string -> bool>, text: string) {
    forall i :: 0 <= i < |filters| ==> filters[i](text)
  }

  predicate LineSelected(lib: Library, q: Query, l: Line) {
    && l.ts.Some? && q.sel.start <= l.ts.value <= q.sel.end
    && Selected(lib, q.sel, StreamOf(l)) && FiltersPass(q.sel.filters, TextOf(Raw(l)))
  }

  function Amount(lib: Library, q: Query, l: Line): int {
    if q.bytes then Size(lib, l) else 1
  }

  /** How the scan reads lines: labels depend on the stream and on the correlation columns. */
  function LinesOf(lib: Library, q: Query): B.LineReader<Line, (Stream, Ids), Labels, Labels> {
    B.LineReader((l: Line) => LineSelected(lib, q, l), StringBody, (l: Line) => (StreamOf(l), l.ids),
                 (x: (Stream, Ids)) => EntryLabels(lib, x.0, x.1), ErrorLabel, (labels: Labels) =>
                   SeriesKey(q.grouping, labels), (l: Line) => BucketEnd(Time(l)), (l: Line) => Amount(lib, q, l))
  }

  /** How a rollup's rows are read: labels depend on the stream alone. */
  function RowsOf(lib: Library, q: Query, buckets: set<int>): B.RowReader<Stream, Labels, Labels> {
    B.RowReader((b: int) => b in buckets, DropsIds(q.grouping), (s: Stream) => Selected(lib, q.sel, s),
                (s: Stream) => EntryLabels(lib, s, NO_IDS), ErrorLabel, (labels: Labels) =>
                  SeriesKey(q.grouping, labels), (c: Cell) => Get(Summing(q), c))
  }

  // ---- Series do not see correlation IDs -------------------------------------

  lemma SameNames(lib: Library, s: Stream, ids: Ids)
    ensures EntryLabels(lib, s, ids).Some? <==> EntryLabels(lib, s, NO_IDS).Some?
    ensures EntryLabels(lib, s, ids).Some? ==>
              forall name :: name !in ID_NAMES ==>
                var a, b := EntryLabels(lib, s, ids).value, EntryLabels(lib, s, NO_IDS).value;
                (name in a <==> name in b) && (name in a ==> a[name] == b[name])
  {
    hide StreamLabels, Parsed, WithIds;
    if EntryLabels(lib, s, ids).Some? {
      var stream, metadata := StreamLabels(lib, s).value, Parsed(lib, s.attributes).value;
      CombinedIsEntry(stream, WithIds(metadata, ids));
      CombinedIsEntry(stream, WithIds(metadata, NO_IDS));
      forall name | name !in ID_NAMES
        ensures Label(stream, WithIds(metadata, ids), name) == Label(stream, WithIds(metadata, NO_IDS), name)
      {
        IdsTouchOnlyIdNames(stream, metadata, ids, name);
        IdsTouchOnlyIdNames(stream, metadata, NO_IDS, name);
      }
    }
  }

  /** A grouping that drops IDs, or a line without any, gives the series of the stream. */
  lemma SameSeries(lib: Library, g: Grouping, s: Stream, ids: Ids)
    requires EntryLabels(lib, s, ids).Some? && (DropsIds(g) || !Traced(ids))
    ensures EntryLabels(lib, s, NO_IDS).Some?
    ensures SeriesKey(g, EntryLabels(lib, s, ids).value) == SeriesKey(g, EntryLabels(lib, s, NO_IDS).value)
    ensures ErrorLabel(EntryLabels(lib, s, ids).value) == ErrorLabel(EntryLabels(lib, s, NO_IDS).value)
  {
    hide EntryLabels, DropsIds, SeriesKey;
    SameNames(lib, s, ids);
    if Traced(ids) {
      KeyIgnores(g, EntryLabels(lib, s, ids).value, EntryLabels(lib, s, NO_IDS).value);
    } else {
      UntracedEntry(lib, s, ids);
    }
  }

  lemma UntracedEntry(lib: Library, s: Stream, ids: Ids)
    requires !Traced(ids)
    ensures EntryLabels(lib, s, ids) == EntryLabels(lib, s, NO_IDS)
  {
    if StreamLabels(lib, s).Some? && Parsed(lib, s.attributes).Some? {
      UntracedSame(Parsed(lib, s.attributes).value, ids);
    }
  }

  lemma KeyIgnores(g: Grouping, a: Labels, b: Labels)
    requires DropsIds(g)
    requires forall name :: name !in ID_NAMES ==> (name in a <==> name in b) && (name in a ==> a[name] == b[name])
    ensures SeriesKey(g, a) == SeriesKey(g, b)
  {
    forall name | Keeps(g, name) ensures name !in ID_NAMES {
      var i :| 0 <= i < |g.names| && g.names[i] == name;
    }
  }

  // ---- Rollups answer queries ------------------------------------------------

  predicate InBuckets(range: Range, buckets: set<int>, l: Line) {
    InRange(range, l) && BucketEnd(Time(l)) in buckets
  }

  /** Scanning only the lines whose bucket is in the set. */
  function ScanOf(lib: Library, q: Query, range: Range, buckets: set<int>): Line -> B.Outcome<Labels> {
    l => if InBuckets(range, buckets, l) then B.LineOutcome(LinesOf(lib, q), l) else B.Skip
  }

  /** No line of these buckets carries an ID. */
  ghost predicate BucketsUntraced(range: Range, lines: seq<Line>, buckets: set<int>) {
    forall i :: 0 <= i < |lines| && InBuckets(range, buckets, lines[i]) ==> !Traced(lines[i].ids)
  }

  /** The query has no line filters and its time bounds admit the lines of these buckets. */
  ghost predicate Answerable(q: Query, range: Range, lines: seq<Line>, buckets: set<int>) {
    && q.sel.filters == []
    && forall i :: 0 <= i < |lines| && InBuckets(range, buckets, lines[i]) ==>
         q.sel.start <= Time(lines[i]) <= q.sel.end
  }

  /** What building a rollup establishes of every line it counts. */
  ghost predicate AllNative(lib: Library, range: Range, lines: seq<Line>) {
    forall i :: 0 <= i < |lines| && InRange(range, lines[i]) ==>
      StringBody(lines[i]) && EntryLabels(lib, StreamOf(lines[i]), NO_IDS).Some?
  }

  lemma LineFollows(lib: Library, q: Query, l: Line, buckets: set<int>)
    requires l.ts.Some? && q.sel.start <= Time(l) <= q.sel.end && q.sel.filters == []
    requires BucketEnd(Time(l)) in buckets && StringBody(l) && EntryLabels(lib, StreamOf(l), NO_IDS).Some?
    requires DropsIds(q.grouping) || !Traced(l.ids)
    ensures B.LineOutcome(LinesOf(lib, q), l) ==
            Plain(RowsOf(lib, q, buckets), (BucketEnd(Time(l)), StreamOf(l)), Get(Summing(q), CellOf(lib, l)))
  {
    hide EntryLabels, BucketEnd, SeriesKey, ErrorLabel, DropsIds, Selected, StringBody, Traced;
    SameNames(lib, StreamOf(l), l.ids);
    SameSeries(lib, q.grouping, StreamOf(l), l.ids);
  }

  lemma ScanFollows(lib: Library, q: Query, range: Range, lines: seq<Line>, buckets: set<int>)
    requires AllNative(lib, range, lines) && Answerable(q, range, lines, buckets)
    requires DropsIds(q.grouping) || BucketsUntraced(range, lines, buckets)
    ensures Follows(LineColumns(lib, range), lines, RowsOf(lib, q, buckets), Summing(q), ScanOf(lib, q, range, buckets))
  {
    hide EntryLabels, BucketEnd, SeriesKey, ErrorLabel, DropsIds, Selected, StringBody, Traced, Plain, B.LineOutcome;
    var c := LineColumns(lib, range);
    forall i | 0 <= i < |lines|
      ensures ScanOf(lib, q, range, buckets)(lines[i]) ==
              if c.counted(lines[i]) then
                Plain(RowsOf(lib, q, buckets), LineKey(c, lines[i]), Get(Summing(q), c.cell(lines[i])))
              else B.Skip
    {
      var l := lines[i];
      if InBuckets(range, buckets, l) {
        LineFollows(lib, q, l, buckets);
      } else {
        SkippedPlain(lib, q, buckets, LineKey(c, l), Get(Summing(q), c.cell(l)));
      }
    }
  }

  lemma SkippedPlain(lib: Library, q: Query, buckets: set<int>, key: (int, Stream), amount: int)
    ensures key.0 !in buckets ==> Plain(RowsOf(lib, q, buckets), key, amount) == B.Skip
  {
  }

  /**
   * A rollup answers a query over any buckets exactly as scanning the lines of
   * those buckets would: it fails when and as the scan fails, and it leaves
   * the same bins in any scan it is folded into. When the series could hold
   * correlation IDs and some line of the buckets has one, it falls back.
   */
  lemma RollupAnswersScan(lib: Library, q: Query, range: Range, lines: seq<Line>, rows: seq<Row<Stream>>,
                          buckets: set<int>, bins: map<(Labels, int), int>)
    requires Stores(rows, LineColumns(lib, range), lines) && Representable(range, lines)
    requires AllNative(lib, range, lines) && Answerable(q, range, lines, buckets)
    ensures DropsIds(q.grouping) || BucketsUntraced(range, lines, buckets) ==>
              && (forall e :: B.Fails(lines, ScanOf(lib, q, range, buckets), e) <==>
                    B.Fails(rows, B.RowFold(RowsOf(lib, q, buckets)), e))
              && AddAll(B.INTS, bins, B.Entries(lines, ScanOf(lib, q, range, buckets))) ==
                 AddAll(B.INTS, bins, B.Entries(rows, B.RowFold(RowsOf(lib, q, buckets))))
    ensures !DropsIds(q.grouping) && !BucketsUntraced(range, lines, buckets) ==>
              B.Fails(rows, B.RowFold(RowsOf(lib, q, buckets)), B.FallbackError)
  {
    hide EntryLabels, BucketEnd, SeriesKey, ErrorLabel, DropsIds, Selected, StringBody, InRange, Answerable, Stores,
         Representable, Follows, Sane, B.Fails, B.RowOutcome, B.LineOutcome;
    var c, qr := LineColumns(lib, range), RowsOf(lib, q, buckets);
    LinesSane(lib, range, lines);
    if DropsIds(q.grouping) || BucketsUntraced(range, lines, buckets) {
      ScanFollows(lib, q, range, lines, buckets);
      RowsAnswerScan(rows, c, lines, qr, Summing(q), ScanOf(lib, q, range, buckets), bins);
    } else {
      TracedFallsBack(rows, c, lines, qr);
    }
  }

  // ---- Windows ---------------------------------------------------------------

  /** The bucket ends of a window that starts and ends on minute boundaries. */
  ghost predicate Window(buckets: set<int>, first: int, last: int) {
    && first % BUCKET_NS == 0 && last % BUCKET_NS == 0 && last <= LAST_BOUNDARY
    && forall b :: b in buckets <==> first <= b <= last && b % BUCKET_NS == 0
  }

  /** A time-bounded scan between two boundaries is the scan of the buckets between them. */
  lemma WindowScan(lib: Library, q: Query, range: Range, l: Line, buckets: set<int>, first: int, last: int)
    requires Window(buckets, first, last) && q.sel.start == first - BUCKET_NS + 1 && q.sel.end == last
    requires range.allowed.None? && range.start <= q.sel.start && q.sel.end <= range.end
    requires InRange(range, l) ==> Time(l) <= LAST_BOUNDARY
    ensures ScanOf(lib, q, range, buckets)(l) == B.LineOutcome(LinesOf(lib, q), l)
    ensures InBuckets(range, buckets, l) ==> q.sel.start <= Time(l) <= q.sel.end
  {
    hide BucketEnd, EntryLabels, Selected;
    if l.ts.Some? {
      WindowIsBuckets(first, last, Time(l));
      PastLast(Time(l));
    }
  }

  /**
   * Both ways to answer a query over a window, from equal states: scanning the
   * lines, and folding their rollup in. They succeed together and leave the
   * same bins, unless series may hold IDs that some line of the window has.
   */
  method AnswerBothWays(lib: Library, q: Query, range: Range, lines: seq<Line>, rows: seq<Row<Stream>>,
                        buckets: set<int>, first: int, last: int, scan: B.State<Labels>, fold: B.State<Labels>)
    returns (scanned: Result<(nat, nat), B.Error>, folded: Result<nat, B.Error>)
    requires scan != fold && scan.Valid() && fold.Valid() && scan.bins == fold.bins && scan.max == fold.max
    requires Stores(rows, LineColumns(lib, range), lines) && Representable(range, lines) && AllNative(lib, range, lines)
    requires Window(buckets, first, last) && q.sel.start == first - BUCKET_NS + 1 && q.sel.end == last
             && q.sel.filters == []
    requires range.allowed.None? && range.start <= q.sel.start && q.sel.end <= range.end
    modifies scan, fold
    ensures DropsIds(q.grouping) || BucketsUntraced(range, lines, buckets) ==> (scanned.Ok? <==> folded.Ok?)
    ensures scanned.Ok? && folded.Ok? ==> scan.bins == fold.bins && scan.samples == fold.samples
    ensures scanned.Ok? ==> scanned.value.0 == |T.Where(lines, LinesOf(lib, q).selected)|
    ensures folded.Ok? ==> folded.value == |T.Where(rows, B.WantedRow(RowsOf(lib, q, buckets)))|
  {
    hide EntryLabels, BucketEnd, SeriesKey, ErrorLabel, DropsIds, Selected, StringBody, InRange, Stores, AllNative,
         B.LineOutcome, B.RowOutcome, B.Fails, B.Entries, AddAll;
    ghost var bins := scan.bins;
    ghost var f, g := B.LineFold(LinesOf(lib, q)), ScanOf(lib, q, range, buckets);
    WindowIsScan(lib, q, range, lines, buckets, first, last);
    B.SameEntries(lines, g, f);
    RollupAnswersScan(lib, q, range, lines, rows, buckets, bins);
    scanned := scan.Scan(LinesOf(lib, q), lines);
    folded := fold.AddRollup(RowsOf(lib, q, buckets), rows);
    NoFailure(lines, f);
    NoFailure(rows, B.RowFold(RowsOf(lib, q, buckets)));
    assert lines[..|lines|] == lines && rows[..|rows|] == rows;
  }

  lemma WindowIsScan(lib: Library, q: Query, range: Range, lines: seq<Line>, buckets: set<int>, first: int, last: int)
    requires Window(buckets, first, last) && q.sel.start == first - BUCKET_NS + 1 && q.sel.end == last
             && q.sel.filters == []
    requires range.allowed.None? && range.start <= q.sel.start && q.sel.end <= range.end && Representable(range, lines)
    ensures Answerable(q, range, lines, buckets)
    ensures forall i :: 0 <= i < |lines| ==>
              ScanOf(lib, q, range, buckets)(lines[i]) == B.LineFold(LinesOf(lib, q))(lines[i])
  {
    hide BucketEnd, EntryLabels, Selected, Window, B.LineOutcome, InBuckets, InRange;
    forall i | 0 <= i < |lines|
      ensures ScanOf(lib, q, range, buckets)(lines[i]) == B.LineFold(LinesOf(lib, q))(lines[i])
      ensures InBuckets(range, buckets, lines[i]) ==> q.sel.start <= Time(lines[i]) <= q.sel.end
    {
      WindowScan(lib, q, range, lines[i], buckets, first, last);
    }
  }

  lemma NoFailure<X(!new), K(!new)>(xs: seq<X>, f: X -> B.Outcome<K>)
    ensures (forall j :: 0 <= j < |xs| ==> !f(xs[j]).Fail?) ==> forall e :: !B.Fails(xs, f, e)
  {
  }
}
