/**
 * Finalizing an hour of metrics (`metric_tiers.rs`, `Builder`): segments are read into compact rows whose
 * label sets are interned, and come out again as planned outputs of rows and of rollups. Segments are read
 * by every partition's builder; a hash is an arbitrary function to 64 bits.
 */
module MetricHour {
  import opened Prelude
  import opened Text
  import opened MetricGroups
  import opened MetricTiers
  import opened MetricSeries
  import opened MetricRollup
  import A = MetricAggregate
  import C = MetricCuts
  import Q = Permutation
  import T = Tally

  const NO_EXTRA: nat := 0xFFFF_FFFF
  const MAX_EXTRAS: nat := 0xFFFF_FFFE
  const PLAIN := Extra(None, None, None, None)

  // ---- Segments --------------------------------------------------------------

  /** One row of a record batch: the key of its labels in the batch's dictionary, null or not, and its columns. */
  datatype Cell = Cell(key: Option<nat>, seriesId: int, ts: int, value: nat, extra: Extra)

  datatype Batch = Batch(dictionary: seq<Bytes>, cells: seq<Cell>)

  /** A row as it is stored. */
  datatype Stored = Stored(labels: Bytes, seriesId: int, ts: int, value: nat, extra: Extra)

  predicate HasKey(dictionary: seq<Bytes>, c: Cell) {
    c.key.Some? && c.key.value < |dictionary|
  }

  function StoredAt(dictionary: seq<Bytes>, c: Cell): Stored {
    Stored(if HasKey(dictionary, c) then dictionary[c.key.value] else [], c.seriesId, c.ts, c.value, c.extra)
  }

  function Reading(dictionary: seq<Bytes>): Cell -> Stored {
    (c: Cell) => StoredAt(dictionary, c)
  }

  /** The rows of a batch. */
  function RowsOf(b: Batch): seq<Stored> {
    Q.Map(b.cells, Reading(b.dictionary))
  }

  /** One part of all metric names, or all of them. */
  datatype Part = Part(partition: Option<(nat, nat)>, hash: Bytes -> nat)

  /** Labels of this part; labels that cannot be read are of none. */
  predicate Covers(part: Part, labels: Bytes) {
    && NameOf(labels).Some?
    && (part.partition.None?
        || NamePartition(part.hash(NameOf(labels).value), part.partition.value.1) == part.partition.value.0)
  }

  function Mine(part: Part): Stored -> bool {
    (s: Stored) => Covers(part, s.labels)
  }

  /** The key is there, the labels can be read, and a row that is kept has no zero start. */
  predicate CellOk(part: Part, dictionary: seq<Bytes>, c: Cell) {
    && HasKey(dictionary, c) && NameOf(dictionary[c.key.value]).Some?
    && (Covers(part, dictionary[c.key.value]) ==> c.extra.start != Some(0))
  }

  predicate BatchOk(part: Part, b: Batch) {
    forall i :: 0 <= i < |b.cells| ==> CellOk(part, b.dictionary, b.cells[i])
  }

  function LabelsIn(rows: seq<Stored>): set<Bytes> {
    set s | s in rows :: s.labels
  }

  predicate HasExtra(s: Stored) {
    s.extra != PLAIN
  }

  /** The rows of a batch's first cells that a part keeps. */
  function KeptUpto(part: Part, b: Batch, i: nat): seq<Stored>
    requires i <= |b.cells|
  {
    T.Where(RowsOf(b)[..i], Mine(part))
  }

  function KeptRows(part: Part, b: Batch): seq<Stored> {
    T.Where(RowsOf(b), Mine(part))
  }

  lemma KeptStep(part: Part, b: Batch, i: nat)
    requires i < |b.cells|
    ensures var s := StoredAt(b.dictionary, b.cells[i]);
            KeptUpto(part, b, i + 1) ==
              if Covers(part, s.labels) then KeptUpto(part, b, i) + [s] else KeptUpto(part, b, i)
    ensures KeptUpto(part, b, i + 1) <= KeptRows(part, b)
  {
    hide Covers;
    T.WhereStep(RowsOf(b), Mine(part), i);
    T.WherePrefix(RowsOf(b), Mine(part), i + 1);
  }

  lemma KeptEnds(part: Part, b: Batch)
    ensures KeptUpto(part, b, 0) == [] && KeptUpto(part, b, |b.cells|) == KeptRows(part, b)
  {
    assert RowsOf(b)[..0] == [] && RowsOf(b)[..|b.cells|] == RowsOf(b);
  }

  /** More rows, metadata or series than a builder takes. */
  ghost predicate TooMany(maxRows: nat, rows: nat, extras: nat, keys: set<Bytes>, kept: seq<Stored>) {
    || rows + |kept| > maxRows
    || extras + |T.Where(kept, HasExtra)| > MAX_EXTRAS
    || |keys + LabelsIn(kept)| > MAX_SERIES
  }

  /** What is wrong with a cell's labels, given the label sets interned so far. */
  ghost function LabelsWrong(part: Part, labels: Bytes, keys: set<Bytes>): Option<TierError> {
    if part.partition.Some? && NameOf(labels).None? then Some(Invalid)
    else if part.partition.Some? && !Covers(part, labels) then None
    else if labels !in keys && |keys| >= MAX_SERIES then Some(TooLarge)
    else if NameOf(labels).None? then Some(Invalid)
    else None
  }

  /** What is wrong with a row of the part, given how many rows and how much metadata are held. */
  ghost function RowWrong(c: Cell, maxRows: nat, rows: nat, extras: nat): Option<TierError> {
    if rows >= maxRows then Some(TooLarge)
    else if c.extra.start == Some(0) then Some(Invalid)
    else if c.extra != PLAIN && extras >= MAX_EXTRAS then Some(TooLarge)
    else None
  }

  /** What is wrong with a cell: its key, its labels, or its row if it is of the part. */
  ghost function CellWrong(part: Part, dictionary: seq<Bytes>, c: Cell, maxRows: nat, rows: nat, extras: nat,
                           keys: set<Bytes>): Option<TierError> {
    if !HasKey(dictionary, c) then Some(Invalid)
    else
      var labels := dictionary[c.key.value];
      if LabelsWrong(part, labels, keys).Some? then LabelsWrong(part, labels, keys)
      else if !Covers(part, labels) then None
      else RowWrong(c, maxRows, rows, extras)
  }

  /** What is wrong with cell `i` once the cells before it were read. */
  ghost function WrongAt(part: Part, b: Batch, i: nat, maxRows: nat, rows: nat, extras: nat, keys: set<Bytes>)
    : Option<TierError>
    requires i < |b.cells|
  {
    var kept := KeptUpto(part, b, i);
    CellWrong(part, b.dictionary, b.cells[i], maxRows, rows + |kept|, extras + |T.Where(kept, HasExtra)|,
              keys + LabelsIn(kept))
  }

  /** Cell `i` is the first with something wrong, and `e` is what is wrong with it. */
  ghost predicate FirstWrong(part: Part, b: Batch, i: nat, e: TierError, maxRows: nat, rows: nat, extras: nat,
                             keys: set<Bytes>) {
    && i < |b.cells| && WrongAt(part, b, i, maxRows, rows, extras, keys) == Some(e)
    && forall j :: 0 <= j < i ==> WrongAt(part, b, j, maxRows, rows, extras, keys).None?
  }

  lemma Fewer<X>(a: set<X>, b: set<X>)
    requires a <= b
    ensures |a| <= |b|
  {
    assert b == a + (b - a);
  }

  lemma TooManyMore(maxRows: nat, rows: nat, extras: nat, keys: set<Bytes>, some: seq<Stored>, kept: seq<Stored>)
    requires some <= kept && TooMany(maxRows, rows, extras, keys, some)
    ensures TooMany(maxRows, rows, extras, keys, kept)
  {
    T.WherePrefix(kept, HasExtra, |some|);
    assert kept[..|some|] == some;
    Fewer(keys + LabelsIn(some), keys + LabelsIn(kept));
  }

  lemma OneMore(kept: seq<Stored>, s: Stored)
    ensures LabelsIn(kept + [s]) == LabelsIn(kept) + {s.labels}
    ensures T.Where(kept + [s], HasExtra) == T.Where(kept, HasExtra) + if HasExtra(s) then [s] else []
  {
    assert (kept + [s])[..|kept|] == kept;
    forall l | l in LabelsIn(kept) + {s.labels} ensures l in LabelsIn(kept + [s]) {
      if l == s.labels {
        assert s in kept + [s];
      } else {
        var t :| t in kept && t.labels == l;
        assert t in kept + [s];
      }
    }
  }

  // ---- Compact rows ----------------------------------------------------------

  predicate RowOk(r: Row<nat>, series: nat, extras: nat) {
    r.labels < series && (r.extra == NO_EXTRA || r.extra < extras)
  }

  function Decoded(canonical: seq<Bytes>, extras: seq<Extra>, r: Row<nat>): Stored {
    Stored(if r.labels < |canonical| then canonical[r.labels] else [], r.seriesId, r.ts, r.value,
           if r.extra < |extras| then extras[r.extra] else PLAIN)
  }

  function Decoding(canonical: seq<Bytes>, extras: seq<Extra>): Row<nat> -> Stored {
    (r: Row<nat>) => Decoded(canonical, extras, r)
  }

  function DecodedAll(canonical: seq<Bytes>, extras: seq<Extra>, rows: seq<Row<nat>>): seq<Stored> {
    Q.Map(rows, Decoding(canonical, extras))
  }

  /** More series and more extras change no row that was there. */
  lemma DecodedGrows(a: seq<Bytes>, x: seq<Extra>, b: seq<Bytes>, y: seq<Extra>, rows: seq<Row<nat>>)
    requires a <= b && x <= y && |y| <= MAX_EXTRAS && RowsOk(rows, |a|, |x|)
    ensures DecodedAll(a, x, rows) == DecodedAll(b, y, rows)
  {
  }

  // ---- The plan --------------------------------------------------------------

  /** How the outputs are to be cut. */
  datatype Targets = Targets(rows: nat, rollups: nat, names: nat)

  /** The rollup rows, and the ranges of them to come. */
  datatype Summed = Summed(aggregates: seq<Rollup<nat>>, pending: seq<Range>)

  /** The row outputs to come, and after them the rollup outputs. */
  datatype Plan = Plan(pending: seq<(Kind, Range)>, inside: nat, rollupTarget: nat, maxNames: nat,
                       summed: Option<Summed>)

  datatype Output = RowsOut(kind: Kind, rows: seq<Stored>) | RollupsOut(rollups: seq<Rollup<nat>>)

  function ReaderOf(extras: seq<Extra>, double: nat -> A.Double): Reader {
    Reader((e: nat) => if e < |extras| then Some(extras[e]) else None, double)
  }

  ghost predicate RangesIn(ranges: seq<Range>, n: nat) {
    forall k :: 0 <= k < |ranges| ==> ranges[k].start <= ranges[k].end <= n
  }

  ghost predicate HourOk(rows: seq<Row<nat>>, pending: seq<(Kind, Range)>, inside: nat) {
    && inside <= |rows| && InOrder(rows[..inside])
    && forall k :: 0 <= k < |pending| ==> pending[k].1.start <= pending[k].1.end <= |rows|
  }

  /** The elements of the ranges, one range after the other. */
  ghost function Slices<X>(xs: seq<X>, ranges: seq<Range>): seq<X> {
    if ranges == [] then []
    else
      (if ranges[0].start <= ranges[0].end <= |xs| then xs[ranges[0].start..ranges[0].end] else []) +
        Slices(xs, ranges[1..])
  }

  lemma {:induction false} SlicesFrom<X>(xs: seq<X>, ranges: seq<Range>, k: nat)
    requires Tile(ranges, |xs|) && k <= |ranges|
    ensures k < |ranges| ==> ranges[k].start <= ranges[k].end <= |xs|
    ensures Slices(xs, ranges[k..]) == xs[if k == |ranges| then |xs| else ranges[k].start..]
    decreases |ranges| - k
  {
    if k < |ranges| {
      SlicesFrom(xs, ranges, k + 1);
      assert ranges[k..][1..] == ranges[k + 1..] && ranges[k..][0] == ranges[k];
      if k + 1 < |ranges| {
        assert ranges[k + 1].start == ranges[k + 1 - 1].end;
      }
    }
  }

  /** Ranges that tile a sequence give all of it. */
  lemma TiledSlices<X>(xs: seq<X>, ranges: seq<Range>)
    requires Tile(ranges, |xs|)
    ensures Slices(xs, ranges) == xs && RangesIn(ranges, |xs|)
  {
    SlicesFrom(xs, ranges, 0);
    assert ranges[0..] == ranges;
    forall k | 0 <= k < |ranges| ensures ranges[k].start <= ranges[k].end <= |xs| {
      SlicesFrom(xs, ranges, k);
    }
  }

  function RollupSeries(rollups: seq<Rollup<nat>>): seq<nat> {
    seq(|rollups|, i requires 0 <= i < |rollups| => rollups[i].labels)
  }

  function RollupNames(rollups: seq<Rollup<nat>>, name: nat -> Bytes): seq<Bytes> {
    seq(|rollups|, i requires 0 <= i < |rollups| => name(rollups[i].labels))
  }

  lemma NamesDiffer(rollups: seq<Rollup<nat>>, name: nat -> Bytes)
    ensures var names, labels := RollupNames(rollups, name), RollupSeries(rollups);
            |names| == |labels| && forall i :: 0 < i < |labels| && names[i - 1] != names[i] ==>
              labels[i - 1] != labels[i]
  {
  }

  /** What is known of a dictionary's entry. */
  datatype Slot = Unknown | Skipped | Known(series: nat)

  predicate SlotOk(part: Part, canonical: seq<Bytes>, labels: Bytes, slot: Slot) {
    match slot
    case Unknown => true
    case Skipped => NameOf(labels).Some? && !Covers(part, labels)
    case Known(n) => n < |canonical| && canonical[n] == labels && Covers(part, labels)
  }

  ghost predicate SlotsOk(part: Part, canonical: seq<Bytes>, dictionary: seq<Bytes>, slots: seq<Slot>) {
    |slots| == |dictionary| && forall k :: 0 <= k < |slots| ==> SlotOk(part, canonical, dictionary[k], slots[k])
  }

  lemma SlotsNext(part: Part, a: seq<Bytes>, b: seq<Bytes>, dictionary: seq<Bytes>, slots: seq<Slot>, key: nat,
                  slot: Slot)
    requires SlotsOk(part, a, dictionary, slots) && a <= b && key < |slots| && SlotOk(part, b, dictionary[key], slot)
    ensures SlotsOk(part, b, dictionary, slots[key := slot])
  {
    hide Covers, NameOf;
    forall k | 0 <= k < |slots| ensures SlotOk(part, b, dictionary[k], slots[key := slot][k]) {
      assert SlotOk(part, a, dictionary[k], slots[k]);
    }
  }

  ghost predicate RowsOk(rows: seq<Row<nat>>, series: nat, extras: nat) {
    forall i :: 0 <= i < |rows| ==> RowOk(rows[i], series, extras)
  }

  lemma RowsGrow(rows: seq<Row<nat>>, a: nat, x: nat, b: nat, y: nat)
    requires RowsOk(rows, a, x) && a <= b && x <= y
    ensures RowsOk(rows, b, y)
  {
  }

  class Builder {
    const start: int
    const end: int
    const maxRows: nat
    const part: Part
    const double: nat -> A.Double
    const series: Series
    var rows: seq<Row<nat>>
    var extras: seq<Extra>
    var plan: Option<Plan>

    constructor (start: int, end: int, maxRows: nat, part: Part, double: nat -> A.Double)
      ensures Valid() && fresh(series) && View() == [] && plan.None? && series.index.Keys == {} && extras == []
      ensures this.start == start && this.end == end && this.maxRows == maxRows && this.part == part
              && this.double == double
    {
      this.start, this.end, this.maxRows, this.part, this.double := start, end, maxRows, part, double;
      series := new Series(part.hash);
      rows, extras, plan := [], [], None;
    }

    /** Every row's series is interned and its metadata kept. */
    ghost predicate Valid()
      reads this, series
    {
      && series.Valid() && series.hash == part.hash && |extras| <= MAX_EXTRAS
      && RowsOk(rows, |series.canonical|, |extras|)
    }

    /** The rows held, as they were stored. */
    ghost function View(): seq<Stored>
      reads this`rows, this`extras, series
    {
      DecodedAll(series.canonical, extras, rows)
    }

    // Reading segments.

    /** The number of a label set of this part; none when it is of another part. */
    method Resolve(labels: Bytes) returns (r: Result<Option<nat>, TierError>)
      requires series.Valid()
      modifies series
      ensures series.Valid() && old(series.canonical) <= series.canonical
      ensures r.Ok? ==> NameOf(labels).Some? && (r.value.Some? <==> Covers(part, labels))
      ensures r.Ok? ==> series.index.Keys == old(series.index.Keys) + if r.value.Some? then {labels} else {}
      ensures r.Ok? && r.value.Some? ==> r.value.value < |series.canonical| && series.canonical[r.value.value] == labels
      ensures r == Err(Invalid) ==> NameOf(labels).None?
      ensures r == Err(TooLarge) ==> |old(series.index.Keys) + {labels}| > MAX_SERIES
      ensures r == Err(TooLarge) ==> NameOf(labels).None? || Covers(part, labels)
      ensures LabelsWrong(part, labels, old(series.index.Keys)) == if r.Err? then Some(r.error) else None
    {
      hide NameOf, NamePartition, Series.Valid;
      if part.partition.Some? {
        var name := NameOf(labels);
        if name.None? {
          return Err(Invalid);
        }
        if NamePartition(part.hash(name.value), part.partition.value.1) != part.partition.value.0 {
          return Ok(None);
        }
      }
      NameKnown(labels);
      var interned := series.Intern(labels);
      if interned.Err? {
        return Err(interned.error);
      }
      r := Ok(Some(interned.value));
    }

    /** Interned labels can be read, and are in the table. */
    lemma NameKnown(labels: Bytes)
      requires series.Valid()
      ensures |series.canonical| == |series.index.Keys|
      ensures labels in series.canonical <==> labels in series.index
      ensures labels in series.index ==> NameOf(labels).Some?
      ensures labels !in series.index && |series.canonical| >= MAX_SERIES ==>
                |series.index.Keys + {labels}| > MAX_SERIES
    {
      hide NameOf;
    }

    /** The series of a dictionary entry, resolved once. */
    method SeriesOf(dictionary: seq<Bytes>, slots: seq<Slot>, key: nat)
      returns (r: Result<Option<nat>, TierError>, next: seq<Slot>)
      requires Valid() && SlotsOk(part, series.canonical, dictionary, slots) && key < |dictionary|
      modifies series
      ensures Valid() && View() == old(View())
      ensures r.Ok? ==> SlotsOk(part, series.canonical, dictionary, next) && NameOf(dictionary[key]).Some?
      ensures r.Ok? ==> (r.value.Some? <==> Covers(part, dictionary[key]))
      ensures r.Ok? ==> series.index.Keys == old(series.index.Keys) + if r.value.Some? then {dictionary[key]} else {}
      ensures r.Ok? && r.value.Some? ==>
                r.value.value < |series.canonical| && series.canonical[r.value.value] == dictionary[key]
      ensures r == Err(Invalid) ==> NameOf(dictionary[key]).None?
      ensures r == Err(TooLarge) ==> |old(series.index.Keys) + {dictionary[key]}| > MAX_SERIES
      ensures r == Err(TooLarge) ==> NameOf(dictionary[key]).None? || Covers(part, dictionary[key])
      ensures LabelsWrong(part, dictionary[key], old(series.index.Keys)) == if r.Err? then Some(r.error) else None
    {
      hide NameOf, Series.Valid, Covers, RowsOk, DecodedAll;
      next := slots;
      CheckSlot(dictionary[key], slots[key]);
      if slots[key].Known? {
        return Ok(Some(slots[key].series)), next;
      }
      if slots[key].Skipped? {
        return Ok(None), next;
      }
      ghost var before := series.canonical;
      r := Resolve(dictionary[key]);
      RowsGrow(rows, |before|, |extras|, |series.canonical|, |extras|);
      SameView(before, series.canonical, extras, rows);
      if r.Ok? {
        var slot := if r.value.None? then Skipped else Known(r.value.value);
        SlotsNext(part, before, series.canonical, dictionary, slots, key, slot);
        next := slots[key := slot];
      }
    }

    lemma CheckSlot(labels: Bytes, slot: Slot)
      requires series.Valid() && SlotOk(part, series.canonical, labels, slot)
      ensures slot.Skipped? ==> NameOf(labels).Some? && !Covers(part, labels)
      ensures slot.Known? ==>
                slot.series < |series.canonical| && series.canonical[slot.series] == labels && Covers(part, labels)
      ensures slot.Known? ==> series.index.Keys + {labels} == series.index.Keys && NameOf(labels).Some?
      ensures !slot.Unknown? ==> LabelsWrong(part, labels, series.index.Keys).None?
    {
      hide NameOf;
      NameKnown(labels);
    }

    /** Appends one row and its metadata, if it has any. */
    method Append(cell: Cell, n: nat) returns (r: Result<(), TierError>)
      requires Valid() && n < |series.canonical|
      modifies this`rows, this`extras
      ensures Valid()
      ensures r.Ok? ==>
                View() == old(View()) + [Stored(series.canonical[n], cell.seriesId, cell.ts, cell.value, cell.extra)]
      ensures r.Ok? ==> |rows| == |old(rows)| + 1 <= maxRows && cell.extra.start != Some(0)
      ensures r.Ok? ==> |extras| == |old(extras)| + if cell.extra == PLAIN then 0 else 1
      ensures r.Err? ==> rows == old(rows) && extras == old(extras)
      ensures r == Err(Invalid) ==> cell.extra.start == Some(0)
      ensures r == Err(TooLarge) ==> |old(rows)| >= maxRows || (cell.extra != PLAIN && |old(extras)| >= MAX_EXTRAS)
      ensures RowWrong(cell, maxRows, |old(rows)|, |old(extras)|) == if r.Err? then Some(r.error) else None
    {
      hide Series.Valid;
      if |rows| >= maxRows {
        return Err(TooLarge);
      }
      if cell.extra.start == Some(0) {
        return Err(Invalid);
      }
      var extra := NO_EXTRA;
      if cell.extra != PLAIN {
        if |extras| >= MAX_EXTRAS {
          return Err(TooLarge);
        }
        DecodedGrows(series.canonical, extras, series.canonical, extras + [cell.extra], rows);
        extra, extras := |extras|, extras + [cell.extra];
      }
      var row := Row(cell.seriesId, cell.ts, cell.value, n, extra);
      Q.MapConcat(rows, [row], Decoding(series.canonical, extras));
      rows := rows + [row];
      r := Ok(());
    }

    /** Appends a row after those kept of a batch. */
    method AppendTo(cell: Cell, n: nat, ghost s: Stored, ghost view: seq<Stored>, ghost kept: seq<Stored>,
                    ghost keys: set<Bytes>, ghost extra: nat, ghost count: nat)
      returns (r: Result<(), TierError>)
      requires Valid() && n < |series.canonical| && View() == view + kept && |rows| == count + |kept|
      requires s == Stored(series.canonical[n], cell.seriesId, cell.ts, cell.value, cell.extra)
      requires |extras| == extra + |T.Where(kept, HasExtra)|
      modifies this`rows, this`extras
      ensures Valid()
      ensures r.Ok? ==> View() == view + (kept + [s]) && |rows| == |old(rows)| + 1 <= maxRows
      ensures r.Ok? ==> |extras| == extra + |T.Where(kept + [s], HasExtra)| && cell.extra.start != Some(0)
      ensures r == Err(Invalid) ==> cell.extra.start == Some(0)
      ensures r == Err(TooLarge) ==> TooMany(maxRows, count, extra, keys, kept + [s])
      ensures RowWrong(cell, maxRows, |old(rows)|, |old(extras)|) == if r.Err? then Some(r.error) else None
    {
      hide Valid, View, TooMany, T.Where, RowWrong;
      OneMore(kept, s);
      r := Append(cell, n);
      if r == Err(TooLarge) {
        Overfull(maxRows, count, extra, keys, kept, s, |rows|, |extras|);
      }
      assert view + kept + [s] == view + (kept + [s]);
    }

    /** How far a batch has been read. */
    ghost predicate Through(b: Batch, i: nat, view: seq<Stored>, keys: set<Bytes>, extra: nat)
      requires i <= |b.cells|
      reads this, series
    {
      var kept := KeptUpto(part, b, i);
      && Valid() && plan.None? && View() == view + kept && series.index.Keys == keys + LabelsIn(kept)
      && |extras| == extra + |T.Where(kept, HasExtra)|
      && forall k :: 0 <= k < i ==> CellOk(part, b.dictionary, b.cells[k])
    }

    /** Reads one more cell of a batch; the result is whether its row was kept. */
    method AddCell(b: Batch, slots: seq<Slot>, i: nat, ghost view: seq<Stored>, ghost keys: set<Bytes>,
                   ghost extra: nat, ghost count: nat)
      returns (r: Result<bool, TierError>, next: seq<Slot>)
      requires i < |b.cells| && Through(b, i, view, keys, extra) && SlotsOk(part, series.canonical, b.dictionary, slots)
      requires |rows| == count + |KeptUpto(part, b, i)|
      modifies this`rows, this`extras, series
      ensures Valid() && plan == old(plan)
      ensures r.Ok? ==> Through(b, i + 1, view, keys, extra) && SlotsOk(part, series.canonical, b.dictionary, next)
      ensures r.Ok? ==> |rows| == count + |KeptUpto(part, b, i + 1)| == |old(rows)| + (if r.value then 1 else 0)
      ensures r.Ok? && r.value ==> |rows| <= maxRows
      ensures r == Err(Invalid) ==> !CellOk(part, b.dictionary, b.cells[i])
      ensures r == Err(TooLarge) ==>
                !CellOk(part, b.dictionary, b.cells[i])
                || TooMany(maxRows, count, extra, keys, KeptUpto(part, b, i + 1))
      ensures WrongAt(part, b, i, maxRows, count, extra, keys) == if r.Err? then Some(r.error) else None
    {
      hide NameOf, Covers, Valid, KeptUpto, TooMany, View, SlotsOk, T.Where, LabelsIn, LabelsWrong, RowWrong;
      var cell := b.cells[i];
      next := slots;
      if !HasKey(b.dictionary, cell) {
        return Err(Invalid), next;
      }
      KeptStep(part, b, i);
      ghost var kept, s := KeptUpto(part, b, i), StoredAt(b.dictionary, cell);
      OneMore(kept, s);
      assert keys + LabelsIn(kept + [s]) == keys + LabelsIn(kept) + {s.labels};
      assert keys + LabelsIn(kept) + {} == keys + LabelsIn(kept);
      var found;
      found, next := SeriesOf(b.dictionary, slots, cell.key.value);
      if found.Err? {
        if found == Err(TooLarge) && Covers(part, s.labels) {
          Crowded(maxRows, count, extra, keys, kept, s);
        }
        return Err(found.error), next;
      }
      if found.value.None? {
        return Ok(false), next;
      }
      var done := AppendTo(cell, found.value.value, s, view, kept, keys, extra, count);
      r := if done.Err? then Err(done.error) else Ok(true);
    }

    /** Appends every row of one batch that is of this part, and says how many there were. */
    method Add(b: Batch) returns (r: Result<nat, TierError>)
      requires Valid()
      modifies this`rows, this`extras, series
      ensures Valid()
      ensures r.Ok? ==> BatchOk(part, b) && Through(b, |b.cells|, old(View()), old(series.index.Keys), |old(extras)|)
      ensures r.Ok? ==> r.value == |KeptRows(part, b)| && (|old(rows)| <= maxRows ==> |rows| <= maxRows)
      ensures r == Err(Invalid) ==> plan.Some? || !BatchOk(part, b)
      ensures r == Err(TooLarge) ==>
                !BatchOk(part, b)
                || TooMany(maxRows, |old(rows)|, |old(extras)|, old(series.index.Keys), KeptRows(part, b))
      ensures r.Ok? <==>
                plan.None? && forall i: nat, e ::
                  !FirstWrong(part, b, i, e, maxRows, |old(rows)|, |old(extras)|, old(series.index.Keys))
      ensures r.Err? && plan.None? ==>
                exists i: nat ::
                  FirstWrong(part, b, i, r.error, maxRows, |old(rows)|, |old(extras)|, old(series.index.Keys))
    {
      hide WrongAt, CellOk, Series.Valid, RowsOk, KeptUpto, KeptRows, TooMany, View, SlotsOk, T.Where, LabelsIn;
      if plan.Some? {
        return Err(Invalid);
      }
      ghost var view, keys, extra, count := View(), series.index.Keys, |extras|, |rows|;
      var slots := seq(|b.dictionary|, k => Unknown);
      NoSlots(part, series.canonical, b.dictionary, slots);
      KeptEnds(part, b);
      NoneKept();
      assert view + [] == view && keys + {} == keys;
      var added := 0;
      for i := 0 to |b.cells|
        invariant Through(b, i, view, keys, extra) && SlotsOk(part, series.canonical, b.dictionary, slots)
        invariant added == |KeptUpto(part, b, i)| && |rows| == count + added && (count <= maxRows ==> |rows| <= maxRows)
        invariant forall j :: 0 <= j < i ==> WrongAt(part, b, j, maxRows, count, extra, keys).None?
      {
        KeptStep(part, b, i);
        var one;
        one, slots := AddCell(b, slots, i, view, keys, extra, count);
        if one.Err? {
          if TooMany(maxRows, count, extra, keys, KeptUpto(part, b, i + 1)) {
            TooManyMore(maxRows, count, extra, keys, KeptUpto(part, b, i + 1), KeptRows(part, b));
          }
          assert FirstWrong(part, b, i, one.error, maxRows, count, extra, keys);
          return Err(one.error);
        }
        added := added + if one.value then 1 else 0;
      }
      r := Ok(added);
    }

    // Planning and handing out.

    /** Everything planned can be handed out; the hour's rows are in order while they are held. */
    ghost predicate Ready()
      reads this, series
    {
      && Valid() && plan.Some?
      && match plan.value.summed
         case None => HourOk(rows, plan.value.pending, plan.value.inside)
         case Some(summed) => plan.value.pending == [] && RangesIn(summed.pending, |summed.aggregates|)
    }

    /** Ranks the series, orders the rows and plans the outputs. */
    method Prepare(targetRows: nat, rollupTarget: nat, maxNames: nat) returns (ghost finals: nat)
      requires Valid()
      modifies this`rows, this`plan
      ensures Ready() && multiset(View()) == multiset(old(View()))
      ensures var p := plan.value;
              && p.summed.None? && p.rollupTarget == rollupTarget && p.maxNames == maxNames
              && IsPlan(p.pending, rows, start, end, NameAt(series.names), p.inside, finals, targetRows, maxNames)
              && Grouped(LabelsOf(rows[..p.inside])) && Grouped(NamesOf(rows[..p.inside], NameAt(series.names)))
    {
      hide IsPlan, SortedBy, Orders, KeyLess, RowsOk, Series.Valid, DecodedAll, Grouped, InOrder, RankOf, NameAt,
           HourOk;
      var ranks := series.Ranks();
      RanksOrder(series, ranks);
      var before, rank := rows, RankOf(ranks);
      var sorted, pending, inside;
      sorted, pending, inside, finals := PlanRows(rows, start, end, targetRows, maxNames, NameAt(series.names), rank);
      RowsPermuted(before, sorted, |series.canonical|, |extras|);
      Q.MapPermuted(before, sorted, Decoding(series.canonical, extras));
      DecodedIs(series.canonical, extras, before);
      DecodedIs(series.canonical, extras, sorted);
      PlanFits(pending, sorted, start, end, NameAt(series.names), inside, finals, targetRows, maxNames, rank,
               |series.canonical|, |extras|);
      rows, plan := sorted, Some(Plan(pending, inside, rollupTarget, maxNames, None));
    }

    /** The rollup rows still to be handed out. */
    ghost function Left(): seq<Rollup<nat>>
      requires plan.Some?
      reads this
    {
      match plan.value.summed
      case None =>
        if plan.value.rollupTarget == 0 || plan.value.inside > |rows| then []
        else Rollups(ReaderOf(extras, double), rows[..plan.value.inside])
      case Some(summed) => Slices(summed.aggregates, summed.pending)
    }

    /** Rolls the hour up and plans the rollup outputs; the rows are done with. */
    method Summarize()
      requires Ready() && plan.value.summed.None? && plan.value.pending == []
      modifies this`rows, this`extras, this`plan
      ensures Ready() && plan.value.summed.Some? && Left() == old(Left()) == plan.value.summed.value.aggregates
      ensures plan == Some(old(plan).value.(summed := plan.value.summed))
      ensures var all := plan.value.summed.value;
              && Tile(all.pending, |all.aggregates|)
              && GoodRanges(RollupNames(all.aggregates, NameAt(series.names)), RollupSeries(all.aggregates),
                            all.pending,
                            if plan.value.rollupTarget < 1 then 1 else plan.value.rollupTarget, plan.value.maxNames)
    {
      hide Rollups, InOrder, RowsOk, Series.Valid, GoodRanges, Tile, NameAt;
      var p := plan.value;
      var aggregates: seq<Rollup<nat>> := [];
      if p.rollupTarget != 0 {
        aggregates := RollupRows(ReaderOf(extras, double), rows[..p.inside]);
      }
      NamesDiffer(aggregates, NameAt(series.names));
      var names := RollupNames(aggregates, NameAt(series.names));
      var ranges := Groups(names, RollupSeries(aggregates), p.rollupTarget, p.maxNames);
      TiledSlices(aggregates, ranges);
      RowsGone(|series.canonical|);
      rows, extras, plan := [], [], Some(p.(summed := Some(Summed(aggregates, ranges))));
    }

    /** The next output, once outputs are planned. */
    method Next() returns (r: Result<Option<Output>, TierError>)
      requires Valid() && (plan.Some? ==> Ready())
      modifies this`rows, this`extras, this`plan
      ensures r.Ok? <==> old(plan).Some?
      ensures r.Err? ==> r.error == Invalid && rows == old(rows) && extras == old(extras) && plan.None?
      ensures r.Ok? ==> Ready() && plan.value.inside == old(plan).value.inside
      ensures r.Ok? ==> HandsOut(old(plan).value, old(View()), old(Left()), r.value)
      ensures r.Ok? && old(plan).value.pending != [] ==> rows == old(rows) && extras == old(extras)
    {
      hide Ready, Valid, Left, View;
      if plan.None? {
        return Err(Invalid);
      }
      var output := NextPlanned();
      r := Ok(output);
    }

    /** What was handed out of a plan: its first rows, else the first of the rollups left. */
    ghost predicate HandsOut(was: Plan, view: seq<Stored>, left: seq<Rollup<nat>>, r: Option<Output>)
      reads this
    {
      && plan.Some?
      && (was.pending != [] ==>
            var (kind, range) := was.pending[0];
            && range.start <= range.end <= |view| && r == Some(RowsOut(kind, view[range.start..range.end]))
            && plan.value == was.(pending := was.pending[1..]))
      && (was.pending == [] ==>
            && plan.value.summed.Some?
            && (if r.None? then Left() == [] == left
                else r.value.RollupsOut? && left == r.value.rollups + Left()))
      && (was.pending == [] && was.summed.Some? && r.Some? ==>
            |plan.value.summed.value.pending| < |was.summed.value.pending|)
    }

    /** The next planned output: rows while there are any, then rollups. */
    method NextPlanned() returns (r: Option<Output>)
      requires Ready()
      modifies this`rows, this`extras, this`plan
      ensures Ready() && plan.value.inside == old(plan).value.inside
      ensures HandsOut(old(plan).value, old(View()), old(Left()), r)
      ensures old(plan).value.pending != [] ==> rows == old(rows) && extras == old(extras)
    {
      hide Valid, HourOk, RangesIn, Left, View, Tile, GoodRanges;
      if plan.value.pending != [] {
        var rows := NextRows();
        return Some(rows);
      }
      if plan.value.summed.None? {
        Summarize();
      }
      r := NextRollups();
    }

    /** The first planned output of rows. */
    method NextRows() returns (r: Output)
      requires Ready() && plan.value.pending != []
      modifies this`plan
      ensures Ready()
      ensures var (kind, range) := old(plan).value.pending[0];
              && range.start <= range.end <= |View()| && r == RowsOut(kind, View()[range.start..range.end])
              && plan == Some(old(plan).value.(pending := old(plan).value.pending[1..]))
    {
      hide InOrder, RowsOk, Series.Valid, DecodedAll;
      var p := plan.value;
      var (kind, range) := p.pending[0];
      DecodedSlice(series.canonical, extras, rows, range);
      plan := Some(p.(pending := p.pending[1..]));
      r := RowsOut(kind, Q.Map(rows[range.start..range.end], Decoding(series.canonical, extras)));
    }

    /** The next planned output of rollups, if any. */
    method NextRollups() returns (r: Option<Output>)
      requires Ready() && plan.value.summed.Some?
      modifies this`plan
      ensures Ready() && plan.value.summed.Some? && plan == Some(old(plan).value.(summed := plan.value.summed))
      ensures r.None? ==> Left() == [] == old(Left())
      ensures r.Some? ==> r.value.RollupsOut? && old(Left()) == r.value.rollups + Left()
      ensures r.Some? ==> |plan.value.summed.value.pending| < |old(plan).value.summed.value.pending|
    {
      hide InOrder, RowsOk, Series.Valid;
      var summed := plan.value.summed.value;
      if summed.pending == [] {
        return None;
      }
      var range := summed.pending[0];
      plan := Some(plan.value.(summed := Some(summed.(pending := summed.pending[1..]))));
      r := Some(RollupsOut(summed.aggregates[range.start..range.end]));
    }

    /** Encoding every planned output: kind by kind the rows of that kind, each once, and the hour's rollup rows. */
    method Drain() returns (outputs: seq<Output>)
      requires Ready() && plan.value.summed.None?
      requires Tile(Ranges(plan.value.pending), |rows|) && Kinds(plan.value.pending, rows, start, end)
      modifies this`rows, this`extras, this`plan
      ensures forall kind :: RowsOfKind(outputs, kind) == T.Where(old(View()), StoredKind(start, end, kind))
      ensures RollupsOf(outputs) == old(Left())
      ensures FinalsOf(outputs) == FinalPieces(old(plan).value.pending, old(View()))
    {
      hide Kinds, Tile, InOrder, Valid, DecodedAll, Left, T.Where, RowsOfKind, RollupsOf, FinalsOf, FinalPieces;
      outputs := [];
      ghost var all, held, total := plan.value.pending, rows, Left();
      ghost var canonical, extra := series.canonical, extras;
      while plan.value.pending != []
        invariant Ready() && plan.value.summed.None? && rows == held && extras == extra && series.canonical == canonical
        invariant Left() == total && |outputs| <= |all| && plan.value.pending == all[|outputs|..]
        invariant HandedOut(outputs, all, canonical, extra, held)
        decreases |plan.value.pending|
      {
        SameLeft(plan.value, held, extra);
        DecodedSlice(canonical, extra, held, plan.value.pending[0].1);
        var next := Next();
        SameLeft(plan.value, held, extra);
        outputs := outputs + [next.value.value];
      }
      ghost var view := DecodedAll(canonical, extra, held);
      forall kind ensures RowsOfKind(outputs, kind) == T.Where(view, StoredKind(start, end, kind)) {
        AllHandedOut(outputs, all, canonical, extra, held, start, end, kind);
      }
      AllHandedOut(outputs, all, canonical, extra, held, start, end, Final);
      FinalsHandedOut(outputs, all, canonical, extra, held);
      assert [] + total == total;
      var more := true;
      while more
        invariant Ready() && plan.value.pending == [] && RollupsOf(outputs) + Left() == total
        invariant forall kind :: RowsOfKind(outputs, kind) == T.Where(view, StoredKind(start, end, kind))
        invariant FinalsOf(outputs) == FinalPieces(all, view)
        invariant !more ==> Left() == []
        decreases more, plan.value.summed.None?, if plan.value.summed.Some? then |plan.value.summed.value.pending|
                                                 else 0
      {
        var next := Next();
        if next.value.None? {
          more := false;
        } else {
          RollupsSnoc(outputs, next.value.value.rollups);
          outputs := outputs + [next.value.value];
        }
      }
    }

    lemma SameLeft(p: Plan, rows: seq<Row<nat>>, extras: seq<Extra>)
      requires plan == Some(p) && p.summed.None? && rows == this.rows && extras == this.extras
      ensures Left() ==
                if p.rollupTarget == 0 || p.inside > |rows| then []
                else Rollups(ReaderOf(extras, double), rows[..p.inside])
    {
    }
  }

  function StoredKind(start: int, end: int, kind: Kind): Stored -> bool {
    (s: Stored) => KindOf(start, end, s.ts) == kind
  }

  /** The rows of outputs of one kind, in order. */
  ghost function RowsOfKind(outputs: seq<Output>, kind: Kind): seq<Stored> {
    if outputs == [] then []
    else
      var n := |outputs| - 1;
      RowsOfKind(outputs[..n], kind) + if outputs[n].RowsOut? && outputs[n].kind == kind then outputs[n].rows else []
  }

  /** The rollup rows of outputs, in order. */
  ghost function RollupsOf(outputs: seq<Output>): seq<Rollup<nat>> {
    if outputs == [] then []
    else
      var n := |outputs| - 1;
      RollupsOf(outputs[..n]) + if outputs[n].RollupsOut? then outputs[n].rollups else []
  }

  /** The outputs of the hour's rows, each by its rows. */
  ghost function FinalsOf(outputs: seq<Output>): seq<seq<Stored>> {
    if outputs == [] then []
    else
      var n := |outputs| - 1;
      FinalsOf(outputs[..n]) + if outputs[n].RowsOut? && outputs[n].kind == Final then [outputs[n].rows] else []
  }

  /** The rows of each range planned for the hour. */
  ghost function FinalPieces(plan: seq<(Kind, Range)>, view: seq<Stored>): seq<seq<Stored>> {
    if plan == [] then []
    else
      var n := |plan| - 1;
      var (kind, r) := plan[n];
      FinalPieces(plan[..n], view)
      + if kind == Final && r.start <= r.end <= |view| then [view[r.start..r.end]] else []
  }

  lemma {:induction false} FinalsHandedOut(outputs: seq<Output>, plan: seq<(Kind, Range)>, canonical: seq<Bytes>,
                                           extras: seq<Extra>, rows: seq<Row<nat>>)
    requires |outputs| == |plan| && HandedOut(outputs, plan, canonical, extras, rows)
    ensures FinalsOf(outputs) == FinalPieces(plan, DecodedAll(canonical, extras, rows))
    decreases |plan|
  {
    hide DecodedAll;
    if plan != [] {
      var n := |plan| - 1;
      assert forall k :: 0 <= k < n ==> outputs[..n][k] == outputs[k] && plan[..n][k] == plan[k];
      FinalsHandedOut(outputs[..n], plan[..n], canonical, extras, rows);
    }
  }

  ghost predicate HandedOut(outputs: seq<Output>, plan: seq<(Kind, Range)>, canonical: seq<Bytes>, extras: seq<Extra>,
                            rows: seq<Row<nat>>) {
    |outputs| <= |plan| && forall k :: 0 <= k < |outputs| ==>
      var range := plan[k].1;
      range.start <= range.end <= |rows| && |DecodedAll(canonical, extras, rows)| == |rows|
      && outputs[k] == RowsOut(plan[k].0, DecodedAll(canonical, extras, rows)[range.start..range.end])
  }

  lemma {:induction false} Decodes(outputs: seq<Output>, plan: seq<(Kind, Range)>, canonical: seq<Bytes>,
                                   extras: seq<Extra>, rows: seq<Row<nat>>, kind: Kind)
    requires |outputs| == |plan| && HandedOut(outputs, plan, canonical, extras, rows)
    ensures forall k :: 0 <= k < |plan| ==> plan[k].1.start <= plan[k].1.end <= |rows|
    ensures RowsOfKind(outputs, kind) == Q.Map(Emitted(plan, rows, kind), Decoding(canonical, extras))
            && RollupsOf(outputs) == []
    decreases |plan|
  {
    hide DecodedAll, Emitted, RowsOfKind, RollupsOf, Q.Map;
    if plan == [] {
      NoneOut(rows, kind, canonical, extras);
    } else {
      var n := |plan| - 1;
      assert forall k :: 0 <= k < n ==> outputs[..n][k] == outputs[k] && plan[..n][k] == plan[k];
      Decodes(outputs[..n], plan[..n], canonical, extras, rows, kind);
      LastOut(outputs, plan, rows, kind);
      DecodedSlice(canonical, extras, rows, plan[n].1);
      Q.MapConcat(Emitted(plan[..n], rows, kind), rows[plan[n].1.start..plan[n].1.end], Decoding(canonical, extras));
    }
  }

  lemma NoneOut(rows: seq<Row<nat>>, kind: Kind, canonical: seq<Bytes>, extras: seq<Extra>)
    ensures RowsOfKind([], kind) == [] && RollupsOf([]) == []
            && Q.Map(Emitted([], rows, kind), Decoding(canonical, extras)) == []
  {
  }

  lemma LastOut(outputs: seq<Output>, plan: seq<(Kind, Range)>, rows: seq<Row<nat>>, kind: Kind)
    requires |outputs| == |plan| > 0 && forall k :: 0 <= k < |plan| ==> plan[k].1.start <= plan[k].1.end <= |rows|
    requires outputs[|plan| - 1].RowsOut? && outputs[|plan| - 1].kind == plan[|plan| - 1].0
    ensures var n := |plan| - 1; var here := plan[n].0 == kind;
            && RowsOfKind(outputs, kind) ==
                 (if here then RowsOfKind(outputs[..n], kind) + outputs[n].rows else RowsOfKind(outputs[..n], kind))
            && Emitted(plan, rows, kind) ==
                 (if here then Emitted(plan[..n], rows, kind) + rows[plan[n].1.start..plan[n].1.end]
                                             else Emitted(plan[..n], rows, kind))
            && RollupsOf(outputs) == RollupsOf(outputs[..n])
  {
  }

  /** Outputs of a plan that tiles the rows by kind: of each kind the stored rows of that kind. */
  lemma AllHandedOut(outputs: seq<Output>, plan: seq<(Kind, Range)>, canonical: seq<Bytes>, extras: seq<Extra>,
                     rows: seq<Row<nat>>, start: int, end: int, kind: Kind)
    requires |outputs| == |plan| && HandedOut(outputs, plan, canonical, extras, rows)
    requires Tile(Ranges(plan), |rows|) && Kinds(plan, rows, start, end)
    ensures RowsOfKind(outputs, kind) == T.Where(DecodedAll(canonical, extras, rows), StoredKind(start, end, kind))
    ensures RollupsOf(outputs) == []
  {
    hide Tile, Kinds, T.Where, HandedOut, KindOf;
    Decodes(outputs, plan, canonical, extras, rows, kind);
    EmittedOnce(plan, rows, start, end, kind, |rows|);
    assert rows[..|rows|] == rows;
    Q.MapWhere(rows, Decoding(canonical, extras), IsKind(start, end, kind), StoredKind(start, end, kind));
  }

  lemma RollupsSnoc(outputs: seq<Output>, rollups: seq<Rollup<nat>>)
    ensures RollupsOf(outputs + [RollupsOut(rollups)]) == RollupsOf(outputs) + rollups
    ensures forall kind :: RowsOfKind(outputs + [RollupsOut(rollups)], kind) == RowsOfKind(outputs, kind)
    ensures FinalsOf(outputs + [RollupsOut(rollups)]) == FinalsOf(outputs)
  {
    assert (outputs + [RollupsOut(rollups)])[..|outputs|] == outputs;
  }

  lemma RowsPermuted(a: seq<Row<nat>>, b: seq<Row<nat>>, series: nat, extras: nat)
    requires multiset(a) == multiset(b) && RowsOk(a, series, extras)
    ensures RowsOk(b, series, extras)
  {
    forall i | 0 <= i < |b| ensures RowOk(b[i], series, extras) {
      assert b[i] in multiset(b);
      assert b[i] in multiset(a);
    }
  }

  lemma DecodedIs(canonical: seq<Bytes>, extras: seq<Extra>, rows: seq<Row<nat>>)
    ensures DecodedAll(canonical, extras, rows) == Q.Map(rows, Decoding(canonical, extras))
  {
  }

  lemma DecodedSlice(canonical: seq<Bytes>, extras: seq<Extra>, rows: seq<Row<nat>>, range: Range)
    requires range.start <= range.end <= |rows|
    ensures |DecodedAll(canonical, extras, rows)| == |rows|
    ensures Q.Map(rows[range.start..range.end], Decoding(canonical, extras)) ==
            DecodedAll(canonical, extras, rows)[range.start..range.end]
  {
  }

  lemma RowsGone(series: nat)
    ensures RowsOk([], series, 0)
  {
  }

  /** A plan of sorted, interned rows is one that can be handed out. */
  lemma PlanFits(pending: seq<(Kind, Range)>, rows: seq<Row<nat>>, start: int, end: int, name: nat -> Bytes,
                 inside: nat, finals: nat, targetRows: nat, maxNames: nat, rank: nat -> int, n: nat, extras: nat)
    requires IsPlan(pending, rows, start, end, name, inside, finals, targetRows, maxNames)
    requires SortedBy(rows, Keys(start, end, rank)) && Orders(rank, name, n) && RowsOk(rows, n, extras)
    ensures HourOk(rows, pending, inside)
    ensures Grouped(LabelsOf(rows[..inside])) && Grouped(NamesOf(rows[..inside], name))
  {
    hide SortedBy, Orders, GoodRanges, Grouped, InOrder;
    HourRows(rows, inside, start, end, rank);
    var hour := rows[..inside];
    assert forall i :: 0 <= i < inside ==> hour[i] == rows[i] && RowOk(rows[i], n, extras);
    HourInOrder(hour, start, end, rank, name, n);
  }

  lemma NoSlots(part: Part, canonical: seq<Bytes>, dictionary: seq<Bytes>, slots: seq<Slot>)
    requires |slots| == |dictionary| && forall k :: 0 <= k < |slots| ==> slots[k] == Unknown
    ensures SlotsOk(part, canonical, dictionary, slots)
  {
  }

  lemma NoneKept()
    ensures LabelsIn([]) == {} && T.Where<Stored>([], HasExtra) == []
  {
  }

  lemma SameView(a: seq<Bytes>, b: seq<Bytes>, extras: seq<Extra>, rows: seq<Row<nat>>)
    requires a <= b && |extras| <= MAX_EXTRAS && RowsOk(rows, |a|, |extras|)
    ensures DecodedAll(a, extras, rows) == DecodedAll(b, extras, rows)
  {
    DecodedGrows(a, extras, b, extras, rows);
  }

  lemma Crowded(maxRows: nat, rows: nat, extras: nat, keys: set<Bytes>, kept: seq<Stored>, s: Stored)
    requires |(keys + LabelsIn(kept)) + {s.labels}| > MAX_SERIES
    ensures TooMany(maxRows, rows, extras, keys, kept + [s])
  {
    OneMore(kept, s);
    assert keys + LabelsIn(kept + [s]) == keys + LabelsIn(kept) + {s.labels};
  }

  lemma Overfull(maxRows: nat, rows: nat, extras: nat, keys: set<Bytes>, kept: seq<Stored>, s: Stored, nowRows: nat,
                 nowExtras: nat)
    requires nowRows == rows + |kept| && nowExtras == extras + |T.Where(kept, HasExtra)|
    requires nowRows >= maxRows || (HasExtra(s) && nowExtras >= MAX_EXTRAS)
    ensures TooMany(maxRows, rows, extras, keys, kept + [s])
  {
    OneMore(kept, s);
  }

  // ---- The hour's outputs ----------------------------------------------------

  function SeriesIn(s: Stored): Bytes {
    s.labels
  }

  function NameIn(s: Stored): Option<Bytes> {
    NameOf(s.labels)
  }

  /** The hour's outputs hold whole series, whole metrics that fit, and no more rows and names than they should. */
  ghost predicate HourCut(outputs: seq<Output>, t: Targets) {
    C.WellCut(FinalsOf(outputs), SeriesIn, NameIn, if t.rows < 1 then 1 else t.rows, t.names)
  }

  /** Exactly the first `finals` planned ranges are of the hour. */
  lemma {:induction false} FirstFinals(plan: seq<(Kind, Range)>, finals: nat, view: seq<Stored>, inside: nat, n: nat)
    requires n <= |plan| && finals <= |plan| && inside <= |view|
    requires forall k :: 0 <= k < |plan| ==> (plan[k].0 == Final <==> k < finals)
    requires forall k :: 0 <= k < finals ==> plan[k].1.start <= plan[k].1.end <= inside
    ensures forall k :: 0 <= k < finals ==> Ranges(plan)[..finals][k].start <= Ranges(plan)[..finals][k].end <= inside
    ensures FinalPieces(plan[..n], view) ==
            C.Pieces(view[..inside], Ranges(plan)[..finals])[..if n < finals then n else finals]
    decreases n
  {
    var pieces := C.Pieces(view[..inside], Ranges(plan)[..finals]);
    if n > 0 {
      FirstFinals(plan, finals, view, inside, n - 1);
      assert plan[..n][..n - 1] == plan[..n - 1] && plan[..n][n - 1] == plan[n - 1];
      if n - 1 < finals {
        var r := plan[n - 1].1;
        assert Ranges(plan)[..finals][n - 1] == r;
        assert pieces[n - 1] == view[..inside][r.start..r.end] == view[r.start..r.end];
        assert pieces[..n] == pieces[..n - 1] + [pieces[n - 1]];
      }
    }
  }

  /** The planned ranges of the hour come first. */
  lemma PlanFinals(plan: seq<(Kind, Range)>, rows: seq<Row<nat>>, start: int, end: int, name: nat -> Bytes, inside: nat,
                   finals: nat, targetRows: nat, maxNames: nat)
    requires IsPlan(plan, rows, start, end, name, inside, finals, targetRows, maxNames)
    ensures forall k :: 0 <= k < |plan| ==> (plan[k].0 == Final <==> k < finals)
    ensures forall k :: 0 <= k < finals ==> plan[k].1.start <= plan[k].1.end <= inside
  {
    var ranges := Ranges(plan);
    C.TileOrder(rows, ranges);
    C.TileOrder(rows[..inside], ranges[..finals]);
    hide GoodRanges, KindOf;
    assert finals > 0 ==> ranges[..finals][finals - 1] == ranges[finals - 1] && ranges[finals - 1].end == inside;
    forall k | 0 <= k < |plan|
      ensures plan[k].0 == Final <==> k < finals
      ensures k < finals ==> plan[k].1.start <= plan[k].1.end <= inside
    {
      assert ranges[k] == plan[k].1;
      var i := plan[k].1.start;
      assert KindOf(start, end, rows[i].ts) == plan[k].0;
      if k < finals {
        assert ranges[..finals][k] == ranges[k];
      }
    }
  }

  /** Interned labels are equal exactly when their numbers are. */
  lemma LabelsKept(series: Series, rows: seq<Row<nat>>, extras: seq<Extra>, n: nat)
    requires series.Valid() && RowsOk(rows, |series.canonical|, |extras|) && n <= |rows|
    ensures var view := DecodedAll(series.canonical, extras, rows);
            && |view| == |rows|
            && C.SameKeys(LabelsOf(rows[..n]), C.Keys(view[..n], SeriesIn))
            && C.SameKeys(NamesOf(rows[..n], NameAt(series.names)), C.Keys(view[..n], NameIn))
  {
    hide NameOf;
    var view := DecodedAll(series.canonical, extras, rows);
    var numbers, labels := LabelsOf(rows[..n]), C.Keys(view[..n], SeriesIn);
    var told, names := NamesOf(rows[..n], NameAt(series.names)), C.Keys(view[..n], NameIn);
    forall i | 0 <= i < n
      ensures numbers[i] < |series.canonical| && labels[i] == series.canonical[numbers[i]] && names[i] == Some(told[i])
    {
      assert RowOk(rows[i], |series.canonical|, |extras|);
      assert numbers[i] == rows[i].labels && told[i] == NameAt(series.names)(numbers[i]);
      DecodedAt(series.canonical, extras, rows, i);
      C.KeyAt(view, n, i, SeriesIn);
      C.KeyAt(view, n, i, NameIn);
    }
  }

  lemma DecodedAt(canonical: seq<Bytes>, extras: seq<Extra>, rows: seq<Row<nat>>, i: nat)
    requires i < |rows|
    ensures |DecodedAll(canonical, extras, rows)| == |rows|
    ensures DecodedAll(canonical, extras, rows)[i] == Decoded(canonical, extras, rows[i])
  {
  }

  /** Outputs handed out by a plan of interned rows are well cut. */
  lemma PlanCut(series: Series, rows: seq<Row<nat>>, extras: seq<Extra>, plan: seq<(Kind, Range)>, start: int, end: int,
                inside: nat, finals: nat, t: Targets)
    requires series.Valid() && RowsOk(rows, |series.canonical|, |extras|)
    requires IsPlan(plan, rows, start, end, NameAt(series.names), inside, finals, t.rows, t.names)
    requires Grouped(LabelsOf(rows[..inside])) && Grouped(NamesOf(rows[..inside], NameAt(series.names)))
    ensures C.WellCut(FinalPieces(plan, DecodedAll(series.canonical, extras, rows)), SeriesIn, NameIn,
                      if t.rows < 1 then 1 else t.rows, t.names)
  {
    var target, ranges := if t.rows < 1 then 1 else t.rows, Ranges(plan)[..finals];
    var view, name := DecodedAll(series.canonical, extras, rows), NameAt(series.names);
    PlanFinals(plan, rows, start, end, name, inside, finals, t.rows, t.names);
    hide series.Valid, RowsOk, Grouped, GoodRanges, Tile, Kinds, DecodedAll, NameAt, SeriesIn, NameIn, FinalPieces,
         C.WellCut, C.SameKeys, KindOf;
    LabelsKept(series, rows, extras, inside);
    var hour := view[..inside];
    var labels, names := C.Keys(hour, SeriesIn), C.Keys(hour, NameIn);
    C.GoodSame(NamesOf(rows[..inside], name), LabelsOf(rows[..inside]), ranges, target, t.names, names, labels);
    C.GroupedSame(LabelsOf(rows[..inside]), labels);
    C.GroupedSame(NamesOf(rows[..inside], name), names);
    C.PiecesCut(hour, ranges, SeriesIn, NameIn, target, t.names);
    FirstFinals(plan, finals, view, inside, |plan|);
    assert plan[..|plan|] == plan;
    assert C.Pieces(hour, ranges)[..finals] == C.Pieces(hour, ranges);
  }

  lemma {:induction false} FlatFinals(outputs: seq<Output>)
    ensures T.Flat(FinalsOf(outputs)) == RowsOfKind(outputs, Final)
    decreases |outputs|
  {
    if outputs != [] {
      var n := |outputs| - 1;
      FlatFinals(outputs[..n]);
      var before := FinalsOf(outputs[..n]);
      if outputs[n].RowsOut? && outputs[n].kind == Final {
        assert (before + [outputs[n].rows])[..|before|] == before;
      } else {
        assert FinalsOf(outputs) == before && RowsOfKind(outputs, Final) == RowsOfKind(outputs[..n], Final);
      }
    }
  }

  // ---- All parts together ----------------------------------------------------

  /** The rows of all batches. */
  function AllRows(batches: seq<Batch>): seq<Stored> {
    if batches == [] then [] else AllRows(batches[..|batches| - 1]) + RowsOf(batches[|batches| - 1])
  }

  /** The batches can be read, and what a part keeps of them is not too much. */
  ghost predicate Takes(part: Part, batches: seq<Batch>, maxRows: nat) {
    && (forall i :: 0 <= i < |batches| ==> BatchOk(part, batches[i]))
    && !TooMany(maxRows, 0, 0, {}, T.Where(AllRows(batches), Mine(part)))
  }

  lemma LabelsConcat(a: seq<Stored>, b: seq<Stored>)
    ensures LabelsIn(a + b) == LabelsIn(a) + LabelsIn(b)
  {
    forall l | l in LabelsIn(a) + LabelsIn(b) ensures l in LabelsIn(a + b) {
      var s :| (s in a || s in b) && s.labels == l;
      assert s in a + b;
    }
  }

  /** Rows already held and a batch's are too many exactly when they are too many together. */
  lemma TooManyTogether(maxRows: nat, held: seq<Stored>, kept: seq<Stored>)
    ensures TooMany(maxRows, |held|, |T.Where(held, HasExtra)|, LabelsIn(held), kept) <==>
              TooMany(maxRows, 0, 0, {}, held + kept)
  {
    T.WhereConcat(held, kept, HasExtra);
    LabelsConcat(held, kept);
    assert {} + LabelsIn(held + kept) == LabelsIn(held) + LabelsIn(kept);
  }

  lemma {:induction false} AllRowsPrefix(batches: seq<Batch>, i: nat)
    requires i <= |batches|
    ensures AllRows(batches[..i]) <= AllRows(batches)
    decreases |batches| - i
  {
    hide RowsOf;
    if i < |batches| {
      AllRowsPrefix(batches, i + 1);
      assert batches[..i + 1][..i] == batches[..i];
    } else {
      assert batches[..i] == batches;
    }
  }

  lemma AllRowsNext(batches: seq<Batch>, i: nat)
    requires i < |batches|
    ensures AllRows(batches[..i + 1]) == AllRows(batches[..i]) + RowsOf(batches[i])
  {
    hide RowsOf;
    assert batches[..i + 1][..i] == batches[..i];
  }

  lemma WhereOfPrefix<X>(some: seq<X>, all: seq<X>, p: X -> bool)
    requires some <= all
    ensures T.Where(some, p) <= T.Where(all, p)
  {
    hide T.Where;
    T.WherePrefix(all, p, |some|);
    assert all[..|some|] == some;
  }

  lemma NextBatch(part: Part, batches: seq<Batch>, i: nat)
    requires i < |batches|
    ensures T.Where(AllRows(batches[..i + 1]), Mine(part)) ==
            T.Where(AllRows(batches[..i]), Mine(part)) + KeptRows(part, batches[i])
    ensures T.Where(AllRows(batches[..i + 1]), Mine(part)) <= T.Where(AllRows(batches), Mine(part))
  {
    hide RowsOf, T.Where, AllRows, Mine;
    AllRowsNext(batches, i);
    T.WhereConcat(AllRows(batches[..i]), RowsOf(batches[i]), Mine(part));
    AllRowsPrefix(batches, i + 1);
    WhereOfPrefix(AllRows(batches[..i + 1]), AllRows(batches), Mine(part));
  }

  /** A builder that has read some batches. */
  ghost predicate HasRead(b: Builder, held: seq<Stored>)
    reads b, b.series
  {
    && b.Valid() && b.plan.None? && b.View() == held && b.series.index.Keys == LabelsIn(held)
    && |b.extras| == |T.Where(held, HasExtra)| && |b.rows| == |held| <= b.maxRows
  }

  /** Reads every batch; it succeeds exactly when they can be read and are not too much. */
  method ReadAll(b: Builder, batches: seq<Batch>) returns (e: Option<TierError>)
    requires HasRead(b, [])
    modifies b, b.series
    ensures e.None? <==> Takes(b.part, batches, b.maxRows)
    ensures e.None? ==> HasRead(b, T.Where(AllRows(batches), Mine(b.part)))
  {
    hide TooMany, BatchOk, RowsOf, T.Where, KeptRows, LabelsIn, Builder.Valid, Builder.View, Series.Valid;
    assert batches[..0] == [];
    NothingRead(b.part);
    for i := 0 to |batches|
      invariant HasRead(b, T.Where(AllRows(batches[..i]), Mine(b.part)))
      invariant forall k :: 0 <= k < i ==> BatchOk(b.part, batches[k])
    {
      ghost var held := T.Where(AllRows(batches[..i]), Mine(b.part));
      NextBatch(b.part, batches, i);
      ghost var kept, all := KeptRows(b.part, batches[i]), T.Where(AllRows(batches), Mine(b.part));
      TooManyTogether(b.maxRows, held, kept);
      var got := b.Add(batches[i]);
      if got.Err? {
        if BatchOk(b.part, batches[i]) {
          assert got != Err(Invalid) && got.error == TooLarge;
          TooManyMore(b.maxRows, 0, 0, {}, held + kept, all);
        }
        return Some(got.error);
      }
      Joined(b, batches[i], held, kept);
    }
    assert batches[..|batches|] == batches;
    Enough(b, T.Where(AllRows(batches), Mine(b.part)));
    e := None;
  }

  lemma NothingRead(part: Part)
    ensures T.Where(AllRows([]), Mine(part)) == []
  {
  }

  lemma Joined(b: Builder, batch: Batch, held: seq<Stored>, kept: seq<Stored>)
    requires b.Through(batch, |batch.cells|, held, LabelsIn(held), |T.Where(held, HasExtra)|)
             && kept == KeptRows(b.part, batch)
    requires |b.rows| <= b.maxRows
    ensures HasRead(b, held + kept)
  {
    hide T.Where, LabelsIn, KeptRows, KeptUpto;
    KeptEnds(b.part, batch);
    LabelsConcat(held, kept);
    T.WhereConcat(held, kept, HasExtra);
  }

  lemma Enough(b: Builder, held: seq<Stored>)
    requires HasRead(b, held)
    ensures !TooMany(b.maxRows, 0, 0, {}, held)
  {
    assert {} + LabelsIn(held) == LabelsIn(held);
  }

  /** Finalizes one part: of each kind, exactly the part's rows of that kind come out. */
  method Finalize(batches: seq<Batch>, start: int, end: int, maxRows: nat, part: Part, double: nat -> A.Double,
                  t: Targets)
    returns (r: Result<seq<Output>, TierError>)
    ensures r.Ok? <==> Takes(part, batches, maxRows)
    ensures r.Ok? ==> forall kind ::
              multiset(RowsOfKind(r.value, kind)) ==
              multiset(T.Where(T.Where(AllRows(batches), Mine(part)), StoredKind(start, end, kind)))
    ensures r.Ok? ==> HourCut(r.value, t)
  {
    hide T.Where, Takes, RowsOfKind, AllRows, Builder.Left, IsPlan, Grouped, FinalsOf, FinalPieces, C.WellCut;
    var b := new Builder(start, end, maxRows, part, double);
    NothingRead(part);
    Fresh(b);
    var failed := ReadAll(b, batches);
    if failed.Some? {
      return Err(failed.value);
    }
    ghost var held := b.View();
    ghost var finals := b.Prepare(t.rows, t.rollups, t.names);
    ghost var view := b.View();
    PlanTiles(b, finals, t);
    PlanCut(b.series, b.rows, b.extras, b.plan.value.pending, start, end, b.plan.value.inside, finals, t);
    var outputs := b.Drain();
    forall kind ensures multiset(RowsOfKind(outputs, kind)) == multiset(T.Where(held, StoredKind(start, end, kind))) {
      Q.WherePermuted(view, held, StoredKind(start, end, kind));
    }
    r := Ok(outputs);
  }

  lemma Fresh(b: Builder)
    requires b.Valid() && b.plan.None? && b.View() == [] && b.series.index.Keys == {} && b.extras == []
    ensures HasRead(b, [])
  {
    NoneKept();
  }

  lemma PlanTiles(b: Builder, finals: nat, t: Targets)
    requires b.plan.Some?
    requires IsPlan(b.plan.value.pending, b.rows, b.start, b.end, NameAt(b.series.names), b.plan.value.inside, finals,
                    t.rows, t.names)
    ensures Tile(Ranges(b.plan.value.pending), |b.rows|) && Kinds(b.plan.value.pending, b.rows, b.start, b.end)
  {
  }

  function PartOf(p: nat, count: nat, hash: Bytes -> nat): Part {
    Part(Some((p, count)), hash)
  }

  /** The partition of a row's metric name. */
  function PartitionAt(count: nat, hash: Bytes -> nat, s: Stored): nat {
    if NameOf(s.labels).Some? then NamePartition(hash(NameOf(s.labels).value), count) else 0
  }

  function PartitionOf(count: nat, hash: Bytes -> nat): Stored -> nat {
    (s: Stored) => PartitionAt(count, hash, s)
  }

  predicate Readable(rows: seq<Stored>) {
    forall i :: 0 <= i < |rows| ==> NameOf(rows[i].labels).Some?
  }

  lemma {:induction false} AllReadable(part: Part, batches: seq<Batch>)
    requires forall i :: 0 <= i < |batches| ==> BatchOk(part, batches[i])
    ensures Readable(AllRows(batches))
    decreases |batches|
  {
    hide NameOf, Covers;
    if batches != [] {
      var n := |batches| - 1;
      AllReadable(part, batches[..n]);
      var b := batches[n];
      forall i | 0 <= i < |b.cells| ensures NameOf(RowsOf(b)[i].labels).Some? {
        assert CellOk(part, b.dictionary, b.cells[i]);
      }
    }
  }

  /** A part of readable rows of one kind is the rows of that kind in its partition. */
  lemma PartRows(rows: seq<Stored>, p: nat, count: nat, hash: Bytes -> nat, kind: Stored -> bool)
    requires Readable(rows)
    ensures T.Where(T.Where(rows, Mine(PartOf(p, count, hash))), kind) ==
            T.Where(T.Where(rows, kind), T.Keyed(PartitionOf(count, hash), p))
  {
    hide NameOf, NamePartition;
    Exchanged(rows, Mine(PartOf(p, count, hash)), kind, T.Keyed(PartitionOf(count, hash), p));
  }

  lemma {:induction false} Exchanged<X>(xs: seq<X>, p: X -> bool, q: X -> bool, k: X -> bool)
    requires forall i :: 0 <= i < |xs| ==> p(xs[i]) == k(xs[i])
    ensures T.Where(T.Where(xs, p), q) == T.Where(T.Where(xs, q), k)
    decreases |xs|
  {
    hide T.Where;
    if xs == [] {
      T.WhereNothing(xs, p);
      T.WhereNothing(xs, q);
      T.WhereNothing(xs, k);
    } else {
      var n := |xs| - 1;
      assert forall i :: 0 <= i < n ==> xs[..n][i] == xs[i];
      assert xs[..n + 1] == xs;
      Exchanged(xs[..n], p, q, k);
      var a, b := T.Where(xs[..n], p), T.Where(xs[..n], q);
      T.WhereStep(xs, p, n);
      T.WhereStep(xs, q, n);
      T.WhereConcat(a, [xs[n]], q);
      T.WhereConcat(b, [xs[n]], k);
      Q.One(xs[n], q);
      Q.One(xs[n], k);
      var both := T.Where(a, q);
      assert both + [] == both;
    }
  }

  /** All partitions' builders over the same batches: every row comes out once, in the kind its timestamp dictates. */
  method FinalizeAll(batches: seq<Batch>, start: int, end: int, maxRows: nat, count: nat, hash: Bytes -> nat,
                     double: nat -> A.Double, t: Targets)
    returns (r: Result<seq<seq<Output>>, TierError>)
    requires count > 0 && forall name :: hash(name) < TWO_64
    ensures r.Ok? <==> forall p: nat :: p < count ==> Takes(PartOf(p, count, hash), batches, maxRows)
    ensures r.Ok? ==> forall kind ::
              multiset(RowsOfKind(T.Flat(r.value), kind)) ==
                multiset(T.Where(AllRows(batches), StoredKind(start, end, kind)))
    ensures r.Ok? ==> HourCut(T.Flat(r.value), t)
  {
    hide T.Where, Takes, RowsOfKind, AllRows, Together, StoredKind, PartitionOf, HourCut, OfParts, Mine;
    var parts: seq<seq<Output>> := [];
    NoOutputs();
    NothingCut(count, hash, t);
    ghost var rows := AllRows(batches);
    forall kind
      ensures Together(T.Where(rows, StoredKind(start, end, kind)), PartitionOf(count, hash), 0) == multiset{}
    {
      OneTogether(T.Where(rows, StoredKind(start, end, kind)), PartitionOf(count, hash), 0);
    }
    for p := 0 to count
      invariant |parts| == p && forall k: nat :: k < p ==> Takes(PartOf(k, count, hash), batches, maxRows)
      invariant forall kind ::
                  multiset(RowsOfKind(T.Flat(parts), kind)) ==
                  Together(T.Where(rows, StoredKind(start, end, kind)), PartitionOf(count, hash), p)
      invariant HourCut(T.Flat(parts), t) && OfParts(T.Flat(parts), count, hash, p)
    {
      var got := Finalize(batches, start, end, maxRows, PartOf(p, count, hash), double, t);
      if got.Err? {
        return Err(got.error);
      }
      TakesReadable(PartOf(p, count, hash), batches, maxRows);
      OfPart(got.value, T.Where(rows, Mine(PartOf(p, count, hash))), rows, start, end, p, count, hash);
      OnePartCut(parts, got.value, p, count, hash, t);
      forall kind
        ensures multiset(RowsOfKind(T.Flat(parts + [got.value]), kind)) ==
                Together(T.Where(rows, StoredKind(start, end, kind)), PartitionOf(count, hash), p + 1)
      {
        PartRows(rows, p, count, hash, StoredKind(start, end, kind));
        OnePartMore(parts, got.value, kind);
        OneTogether(T.Where(rows, StoredKind(start, end, kind)), PartitionOf(count, hash), p);
      }
      parts := parts + [got.value];
    }
    forall kind
      ensures multiset(RowsOfKind(T.Flat(parts), kind)) == multiset(T.Where(rows, StoredKind(start, end, kind)))
    {
      var some := T.Where(rows, StoredKind(start, end, kind));
      InRange(some, count, hash);
      KeptOnce(some, PartitionOf(count, hash), count);
    }
    r := Ok(parts);
  }

  lemma NoOutputs()
    ensures T.Flat<Output>([]) == [] && forall kind :: RowsOfKind([], kind) == []
  {
  }

  /** The hour's rows handed out are of the first `p` parts. */
  ghost predicate OfParts(outputs: seq<Output>, count: nat, hash: Bytes -> nat, p: nat) {
    forall s :: s in RowsOfKind(outputs, Final) ==> NameOf(s.labels).Some? && PartitionAt(count, hash, s) < p
  }

  lemma NothingCut(count: nat, hash: Bytes -> nat, t: Targets)
    ensures HourCut(T.Flat([]), t) && OfParts(T.Flat([]), count, hash, 0)
  {
    hide NameOf;
    NoOutputs();
    assert FinalsOf([]) == [];
  }

  /** What a part hands out is its own. */
  lemma OfPart(outputs: seq<Output>, mine: seq<Stored>, rows: seq<Stored>, start: int, end: int, p: nat, count: nat,
               hash: Bytes -> nat)
    requires mine == T.Where(rows, Mine(PartOf(p, count, hash)))
    requires multiset(RowsOfKind(outputs, Final)) == multiset(T.Where(mine, StoredKind(start, end, Final)))
    ensures forall s :: s in RowsOfKind(outputs, Final) ==>
              NameOf(s.labels).Some? && PartitionAt(count, hash, s) == p
  {
    hide T.Where, NameOf, NamePartition, RowsOfKind, StoredKind;
    forall s | s in RowsOfKind(outputs, Final) ensures Mine(PartOf(p, count, hash))(s) {
      assert s in multiset(RowsOfKind(outputs, Final));
      assert s in multiset(T.Where(mine, StoredKind(start, end, Final)));
      T.WhereFrom(mine, StoredKind(start, end, Final));
      T.WhereOnly(rows, Mine(PartOf(p, count, hash)));
    }
  }

  lemma {:induction false} FinalsConcat(a: seq<Output>, b: seq<Output>)
    ensures FinalsOf(a + b) == FinalsOf(a) + FinalsOf(b)
    decreases |b|
  {
    if b == [] {
      assert a + b == a;
    } else {
      var n := |b| - 1;
      assert (a + b)[..|a + b| - 1] == a + b[..n];
      FinalsConcat(a, b[..n]);
    }
  }

  lemma OnePartCut(parts: seq<seq<Output>>, more: seq<Output>, p: nat, count: nat, hash: Bytes -> nat, t: Targets)
    requires HourCut(T.Flat(parts), t) && HourCut(more, t) && OfParts(T.Flat(parts), count, hash, p)
    requires forall s :: s in RowsOfKind(more, Final) ==> NameOf(s.labels).Some? && PartitionAt(count, hash, s) == p
    ensures HourCut(T.Flat(parts + [more]), t) && OfParts(T.Flat(parts + [more]), count, hash, p + 1)
  {
    hide T.Flat, FinalsOf, RowsOfKind, NameOf, NamePartition, C.WellCut;
    T.FlatSnoc(parts, more);
    var before := T.Flat(parts);
    FinalsConcat(before, more);
    KindConcat(before, more, Final);
    FlatFinals(before);
    FlatFinals(more);
    forall x, y | x in T.Flat(FinalsOf(before)) && y in T.Flat(FinalsOf(more))
      ensures SeriesIn(x) != SeriesIn(y) && NameIn(x) != NameIn(y)
    {
      assert PartitionAt(count, hash, x) != PartitionAt(count, hash, y);
    }
    C.WellCutTogether(FinalsOf(before), FinalsOf(more), SeriesIn, NameIn, if t.rows < 1 then 1 else t.rows, t.names);
  }

  lemma TakesReadable(part: Part, batches: seq<Batch>, maxRows: nat)
    requires Takes(part, batches, maxRows)
    ensures Readable(AllRows(batches))
  {
    hide AllRows, TooMany;
    AllReadable(part, batches);
  }

  lemma OneTogether(rows: seq<Stored>, part: Stored -> nat, p: nat)
    ensures Together(rows, part, p + 1) == Together(rows, part, p) + multiset(T.Where(rows, T.Keyed(part, p)))
    ensures Together(rows, part, 0) == multiset{}
  {
  }

  lemma OnePartMore(parts: seq<seq<Output>>, more: seq<Output>, kind: Kind)
    ensures RowsOfKind(T.Flat(parts + [more]), kind) == RowsOfKind(T.Flat(parts), kind) + RowsOfKind(more, kind)
  {
    assert (parts + [more])[..|parts|] == parts;
    KindConcat(T.Flat(parts), more, kind);
  }

  lemma {:induction false} KindConcat(a: seq<Output>, b: seq<Output>, kind: Kind)
    ensures RowsOfKind(a + b, kind) == RowsOfKind(a, kind) + RowsOfKind(b, kind)
    decreases |b|
  {
    if b == [] {
      assert a + b == a;
    } else {
      var n := |b| - 1;
      assert (a + b)[..|a + b| - 1] == a + b[..n];
      KindConcat(a, b[..n], kind);
    }
  }

  lemma InRange(rows: seq<Stored>, count: nat, hash: Bytes -> nat)
    requires count > 0 && forall name :: hash(name) < TWO_64
    ensures forall i :: 0 <= i < |rows| ==> PartitionOf(count, hash)(rows[i]) < count
  {
    hide NameOf, NamePartition;
    forall i | 0 <= i < |rows| ensures PartitionOf(count, hash)(rows[i]) < count {
      if NameOf(rows[i].labels).Some? {
        PartitionInRange(hash(NameOf(rows[i].labels).value), count);
      }
    }
  }
}
