/**
 * The rollup builder (`log_rollup.rs`): cells of counts accumulated per minute
 * bucket and stream. Streams and rows are type parameters; how a row is read
 * and which streams are valid are given by functions.
 */
module RollupBuilder {
  import opened Prelude
  import opened Grid
  import opened Interning
  import opened LogBuckets
  import R = RunTotals
  import T = Tally

  const MAX_ROWS: nat := 4_000_000
  const TWO_32: nat := 0x1_0000_0000

  datatype RollupError = Fallback | TooLarge

  /** How many lines, how many bytes, and how many of the lines are traced. */
  datatype Cell = Cell(count: int, bytes: int, traced: int)

  const ZERO := Cell(0, 0, 0)

  function Plus(a: Cell, b: Cell): Cell {
    Cell(a.count + b.count, a.bytes + b.bytes, a.traced + b.traced)
  }

  const CELLS: Adder<Cell> := Adder(ZERO, Plus)

  /** One row of a stored rollup, and one addition to it: a cell under its bucket and stream. */
  type Row<S> = Item<(int, S), Cell>

  /** How a builder reads a log line; `same` compares the columns a run of rows repeats. */
  datatype Columns<!L, !S> = Columns(counted: L -> bool, textual: L -> bool, same: (L, L) -> bool,
                                     stream: L -> S, bucket: L -> int, cell: L -> Cell)

  ghost predicate Consistent<L(!new), S>(c: Columns<L, S>) {
    forall a, b :: c.same(a, b) ==> c.stream(a) == c.stream(b)
  }

  function ItemOf<L, S>(c: Columns<L, S>, l: L): Row<S> {
    Item((c.bucket(l), c.stream(l)), c.cell(l))
  }

  /** What the counted lines add, in order. */
  function Items<L, S>(c: Columns<L, S>, lines: seq<L>): seq<Row<S>> {
    if lines == [] then []
    else
      var n := |lines| - 1;
      Items(c, lines[..n]) + if c.counted(lines[n]) then [ItemOf(c, lines[n])] else []
  }

  lemma ItemsStep<L, S>(c: Columns<L, S>, lines: seq<L>, i: nat)
    requires i < |lines|
    ensures Items(c, lines[..i + 1]) ==
            if c.counted(lines[i]) then Items(c, lines[..i]) + [ItemOf(c, lines[i])] else Items(c, lines[..i])
  {
    assert lines[..i + 1][..i] == lines[..i];
  }

  lemma {:induction false} ItemsPrefix<L, S>(c: Columns<L, S>, lines: seq<L>, i: nat)
    requires i <= |lines|
    ensures Items(c, lines[..i]) <= Items(c, lines)
    decreases |lines| - i
  {
    if i < |lines| {
      ItemsStep(c, lines, i);
      ItemsPrefix(c, lines, i + 1);
    } else {
      assert lines[..i] == lines;
    }
  }

  /** The checks `read` makes of every stored row. */
  predicate Readable<S>(row: Row<S>) {
    && row.value.count >= 1 && row.value.bytes >= 0 && 0 <= row.value.traced <= row.value.count
    && row.key.0 % BUCKET_NS == 0
  }

  /** The buckets a builder takes from another rollup: wholly in range, and wanted. */
  datatype Range = Range(start: int, end: int, allowed: Option<set<int>>)

  predicate Wanted(range: Range, bucket: int) {
    range.allowed.Some? ==> bucket in range.allowed.value
  }

  predicate Covers(range: Range, only: set<int>, bucket: int) {
    && range.start <= bucket - BUCKET_NS + 1 && bucket <= range.end
    && Wanted(range, bucket) && (only != {} ==> bucket in only)
  }

  function Covered<S>(range: Range, only: set<int>): Row<S> -> bool {
    (row: Row<S>) => Covers(range, only, row.key.0)
  }

  function Kept<S>(range: Range, only: set<int>, rows: seq<Row<S>>): seq<Row<S>> {
    T.Where(rows, Covered(range, only))
  }

  // ---- What is refused -------------------------------------------------------

  predicate Storable<L, S>(c: Columns<L, S>, native: S -> bool, l: L) {
    c.textual(l) && native(c.stream(l))
  }

  ghost predicate AllStorable<L(!new), S>(c: Columns<L, S>, native: S -> bool, lines: seq<L>) {
    forall l :: l in lines && c.counted(l) ==> Storable(c, native, l)
  }

  /** `count` lines were counted, all could be stored, and the cells went from `was` to `now`. */
  ghost predicate TakenIn<L(!new), S(!new)>(c: Columns<L, S>, native: S -> bool, was: map<(int, S), Cell>,
                                          lines: seq<L>, now: map<(int, S), Cell>, count: nat) {
    && now == AddAll(CELLS, was, Items(c, lines)) && count == |Items(c, lines)|
    && AllStorable(c, native, lines)
  }

  /** Line `i` is the first that cannot be added to the cells `was`, and `e` says why. */
  ghost predicate Refused<L(!new), S(!new)>(c: Columns<L, S>, native: S -> bool, was: map<(int, S), Cell>,
                                            lines: seq<L>, i: nat, e: RollupError) {
    && i < |lines| && c.counted(lines[i])
    && (forall j :: 0 <= j < i && c.counted(lines[j]) ==> Storable(c, native, lines[j]))
    && |AddAll(CELLS, was, Items(c, lines[..i])).Keys| <= MAX_ROWS
    && (e == Fallback <==> !Storable(c, native, lines[i]))
    && (e == TooLarge ==> |AddAll(CELLS, was, Items(c, lines[..i + 1])).Keys| > MAX_ROWS)
  }

  lemma NoneRefused<L(!new), S(!new)>(c: Columns<L, S>, native: S -> bool, was: map<(int, S), Cell>, lines: seq<L>)
    requires AllStorable(c, native, lines) && |AddAll(CELLS, was, Items(c, lines)).Keys| <= MAX_ROWS
    ensures forall i: nat, e :: !Refused(c, native, was, lines, i, e)
  {
    hide AddAll, Items, Storable;
    forall i: nat, e | i < |lines| ensures !Refused(c, native, was, lines, i, e) {
      TooMany(was, c, lines, i + 1);
    }
  }

  // ---- A finished rollup -----------------------------------------------------

  /** The rows store exactly these cells, each key once. */
  ghost predicate Lists<S(!new)>(rows: seq<Row<S>>, view: map<(int, S), Cell>) {
    && (forall i :: 0 <= i < |rows| ==> rows[i].key in view && view[rows[i].key] == rows[i].value)
    && (forall i, j :: 0 <= i < j < |rows| ==> rows[i].key != rows[j].key)
    && (forall k :: k in view ==> Mentions(rows, k))
  }

  lemma ListsNone<S(!new)>(rows: seq<Row<S>>, view: map<(int, S), Cell>)
    requires rows == [] && view == map[]
    ensures Lists(rows, view)
  {
  }

  lemma ListsSnoc<S(!new)>(rows: seq<Row<S>>, view: map<(int, S), Cell>, row: Row<S>)
    requires Lists(rows, view) && row.key !in view
    ensures Lists(rows + [row], view[row.key := row.value])
  {
    forall k: (int, S) ensures Mentions(rows + [row], k) <==> Mentions(rows, k) || row.key == k {
      MentionsSnoc(rows, row, k);
    }
  }

  /** A strict total order. */
  ghost predicate Orders<S(!new)>(less: (S, S) -> bool) {
    && (forall a :: !less(a, a))
    && (forall a, b :: a == b || less(a, b) || less(b, a))
    && (forall a, b, c :: less(a, b) && less(b, c) ==> less(a, c))
  }

  /** By bucket, then by stream. */
  predicate Before<S>(less: (S, S) -> bool, a: (int, S), b: (int, S)) {
    a.0 < b.0 || (a.0 == b.0 && less(a.1, b.1))
  }

  predicate Ordered<S>(rows: seq<Row<S>>, less: (S, S) -> bool) {
    forall i, j :: 0 <= i < j < |rows| ==> Before(less, rows[i].key, rows[j].key)
  }

  /** The bucket and line count of every row. */
  function Counts<S>(rows: seq<Row<S>>): seq<(int, int)> {
    seq(|rows|, i requires 0 <= i < |rows| => (rows[i].key.0, rows[i].value.count))
  }

  function Named<S>(streams: seq<S>, p: (int, nat)): (int, S)
    requires p.1 < |streams|
  {
    (p.0, streams[p.1])
  }

  /** `p` comes before every other cell of `s`. */
  ghost predicate Least<S(!new)>(s: set<(int, nat)>, streams: seq<S>, less: (S, S) -> bool, p: (int, nat))
    requires forall q :: q in s ==> q.1 < |streams|
  {
    p in s && forall q :: q in s ==> q == p || Before(less, Named(streams, p), Named(streams, q))
  }

  lemma {:induction false} HasLeast<S(!new)>(s: set<(int, nat)>, streams: seq<S>, less: (S, S) -> bool)
    requires s != {} && Orders(less) && forall q :: q in s ==> q.1 < |streams|
    requires forall i, j :: 0 <= i < j < |streams| ==> streams[i] != streams[j]
    ensures exists p :: Least(s, streams, less, p)
  {
    var x :| x in s;
    if s != {x} {
      HasLeast(s - {x}, streams, less);
      var p :| Least(s - {x}, streams, less, p);
      LeastOf(s, streams, less, x, p);
    } else {
      assert Least(s, streams, less, x);
    }
  }

  lemma LeastOf<S(!new)>(s: set<(int, nat)>, streams: seq<S>, less: (S, S) -> bool, x: (int, nat), p: (int, nat))
    requires x in s && Orders(less) && forall q :: q in s ==> q.1 < |streams|
    requires forall i, j :: 0 <= i < j < |streams| ==> streams[i] != streams[j]
    requires Least(s - {x}, streams, less, p)
    ensures Least(s, streams, less, if Before(less, Named(streams, x), Named(streams, p)) then x else p)
  {
    var least := if Before(less, Named(streams, x), Named(streams, p)) then x else p;
    forall q | q in s && q != least ensures Before(less, Named(streams, least), Named(streams, q)) {
      if q != x { assert q in s - {x}; }
    }
  }

  class Builder<S(==, !new)> {
    const native: S -> bool
    const less: (S, S) -> bool
    var streams: seq<S>
    var index: map<S, nat>
    var cells: map<(int, nat), Cell>
    /** The cells as readers know them: by bucket and stream. */
    ghost var view: map<(int, S), Cell>

    constructor (native: S -> bool, less: (S, S) -> bool)
      ensures this.native == native && this.less == less && Valid() && view == map[]
    {
      this.native, this.less := native, less;
      streams, index, cells := [], map[], map[];
      view := map[];
    }

    ghost predicate Sound()
      reads this
    {
      && Interned(streams, index) && Numbered(|streams|, cells) && |cells| <= MAX_ROWS
      && (forall i :: 0 <= i < |streams| ==> native(streams[i]))
      && view == View(streams, index, cells)
    }

    /** Between calls every stream has a cell, so stream numbers stay small. */
    ghost predicate Valid()
      reads this
    {
      Sound() && |streams| <= |cells|
    }

    /** While a line is added, its stream may not have its cell yet. */
    ghost predicate Awaits(stream: nat)
      reads this
    {
      || |streams| <= |cells|
      || (|streams| == |cells| + 1 && stream == |streams| - 1 && Numbered(|streams| - 1, cells))
    }

    /** The number of a stream, a new one for a new stream; it always fits 32 bits. */
    method Intern(stream: S) returns (r: Result<nat, RollupError>)
      requires Valid()
      modifies this`streams, this`index
      ensures r.Ok? <==> native(stream)
      ensures r.Err? ==> r.error == Fallback
      ensures r.Ok? ==> Sound() && old(streams) <= streams
      ensures r.Ok? ==> r.value < |streams| && streams[r.value] == stream && Awaits(r.value)
      ensures r.Ok? ==> r.value < TWO_32
    {
      hide View;
      if stream in index {
        return Ok(index[stream]);
      }
      if !native(stream) {
        return Err(Fallback);
      }
      var number := |streams|;
      ViewIntern(streams, index, cells, stream);
      streams, index := streams + [stream], index[stream := number];
      r := Ok(number);
    }

    method AddCell(bucket: int, stream: nat, add: Cell) returns (r: Result<(), RollupError>)
      requires Sound() && stream < |streams| && Awaits(stream)
      modifies this`cells, this`view
      ensures r.Ok? ==> Valid() && view == AddItem(CELLS, old(view), Item((bucket, streams[stream]), add))
      ensures r.Err? ==> r.error == TooLarge
      ensures r.Err? ==> |AddItem(CELLS, old(view), Item((bucket, streams[stream]), add)).Keys| > MAX_ROWS
    {
      hide View;
      ViewAt(streams, index, cells, bucket, stream);
      if |cells| >= MAX_ROWS && (bucket, stream) !in cells {
        ViewSize(streams, index, cells);
        assert AddItem(CELLS, view, Item((bucket, streams[stream]), add)).Keys ==
                 view.Keys + {(bucket, streams[stream])};
        return Err(TooLarge);
      }
      ViewAdd(CELLS, streams, index, cells, bucket, stream, add);
      var cell := if (bucket, stream) in cells then cells[(bucket, stream)] else ZERO;
      cells := cells[(bucket, stream) := Plus(cell, add)];
      view := AddItem(CELLS, view, Item((bucket, streams[stream]), add));
      r := Ok(());
    }

    /** `index` numbers the stream of `l`. */
    ghost predicate Numbers<L>(c: Columns<L, S>, l: L, number: nat)
      reads this
    {
      number < |streams| && streams[number] == c.stream(l)
    }

    /** The stream's number, reusing the previous row's when its columns repeat. */
    method NumberOf<L(!new)>(c: Columns<L, S>, l: L, previous: Option<(L, nat)>) returns (r: Result<nat, RollupError>)
      requires Valid() && Consistent(c)
      requires previous.Some? ==> Numbers(c, previous.value.0, previous.value.1)
      modifies this`streams, this`index
      ensures r.Ok? <==> native(c.stream(l))
      ensures r.Err? ==> r.error == Fallback
      ensures r.Ok? ==> Sound() && Numbers(c, l, r.value) && Awaits(r.value)
    {
      if previous.Some? && c.same(previous.value.0, l) {
        return Ok(previous.value.1);
      }
      r := Intern(c.stream(l));
    }

    /** Adds one counted line; answers its stream's number. */
    method AddLine<L(!new)>(c: Columns<L, S>, l: L, previous: Option<(L, nat)>) returns (r: Result<nat, RollupError>)
      requires Valid() && Consistent(c)
      requires previous.Some? ==> Numbers(c, previous.value.0, previous.value.1)
      modifies this`streams, this`index, this`cells, this`view
      ensures r.Ok? ==> Valid() && Numbers(c, l, r.value) && view == AddItem(CELLS, old(view), ItemOf(c, l))
      ensures r.Ok? ==> Storable(c, native, l)
      ensures r.Err? ==> (r.error == Fallback <==> !Storable(c, native, l))
      ensures r.Err? && r.error == TooLarge ==> |AddItem(CELLS, old(view), ItemOf(c, l)).Keys| > MAX_ROWS
    {
      hide Sound;
      if !c.textual(l) {
        return Err(Fallback);
      }
      var stream := NumberOf(c, l, previous);
      if stream.Err? {
        return Err(stream.error);
      }
      var cell := AddCell(c.bucket(l), stream.value, c.cell(l));
      if cell.Err? {
        return Err(TooLarge);
      }
      r := stream;
    }

    /** The first `i` lines are in: the cells hold what they add, and each counted one is native. */
    ghost predicate Through<L>(c: Columns<L, S>, lines: seq<L>, i: nat, was: map<(int, S), Cell>)
      requires i <= |lines|
      reads this
    {
      && Valid() && view == AddAll(CELLS, was, Items(c, lines[..i]))
      && forall j :: 0 <= j < i && c.counted(lines[j]) ==> Storable(c, native, lines[j])
    }

    lemma FewCells()
      requires Valid()
      ensures |view.Keys| <= MAX_ROWS
    {
      hide View;
      ViewSize(streams, index, cells);
    }

    /** Adds line `i` when it is counted. */
    method AddNext<L(!new)>(c: Columns<L, S>, lines: seq<L>, i: nat, previous: Option<(L, nat)>,
                            ghost was: map<(int, S), Cell>)
      returns (r: Result<Option<(L, nat)>, RollupError>)
      requires i < |lines| && Through(c, lines, i, was) && Consistent(c)
      requires previous.Some? ==> Numbers(c, previous.value.0, previous.value.1)
      modifies this`streams, this`index, this`cells, this`view
      ensures r.Ok? ==> Through(c, lines, i + 1, was)
      ensures r.Ok? && r.value.Some? ==> Numbers(c, r.value.value.0, r.value.value.1)
      ensures r.Err? ==> Refused(c, native, was, lines, i, r.error)
    {
      hide Sound, AddAll, AddItem, Items, Storable;
      FewCells();
      ItemsStep(c, lines, i);
      var l := lines[i];
      if !c.counted(l) {
        return Ok(previous);
      }
      AddAllSnoc(CELLS, was, Items(c, lines[..i]), ItemOf(c, l));
      var stream := AddLine(c, l, previous);
      if stream.Err? {
        return Err(stream.error);
      }
      r := Ok(Some((l, stream.value)));
    }

    /** Adds every line of one record batch that is counted, and says how many there were. */
    method AddBatch<L(!new)>(c: Columns<L, S>, lines: seq<L>) returns (r: Result<nat, RollupError>)
      requires Valid() && Consistent(c)
      modifies this`streams, this`index, this`cells, this`view
      ensures r.Ok? ==> Valid() && TakenIn(c, native, old(view), lines, view, r.value)
      ensures r.Ok? <==> forall i: nat, e :: !Refused(c, native, old(view), lines, i, e)
      ensures r.Err? ==> exists i: nat :: Refused(c, native, old(view), lines, i, r.error)
    {
      hide Sound, Numbers, Refused;
      ghost var was := view;
      var previous: Option<(L, nat)> := None;
      var added := 0;
      var i := 0;
      while i < |lines|
        invariant i <= |lines| && Through(c, lines, i, was) && added == |Items(c, lines[..i])|
        invariant previous.Some? ==> Numbers(c, previous.value.0, previous.value.1)
      {
        ItemsStep(c, lines, i);
        var next := AddNext(c, lines, i, previous, was);
        if next.Err? {
          return Err(next.error);
        }
        if c.counted(lines[i]) {
          added := added + 1;
        }
        previous, i := next.value, i + 1;
      }
      assert lines[..i] == lines;
      FewCells();
      NoneRefused(c, native, was, lines);
      r := Ok(added);
    }

    /** Folds the covered rows of a stored rollup in, and says how many there were. */
    method AddRollup(range: Range, rows: seq<Row<S>>, only: set<int>) returns (r: Result<nat, RollupError>)
      requires Valid()
      modifies this`streams, this`index, this`cells, this`view
      ensures r.Ok? ==>
                Valid() && view == AddAll(CELLS, old(view), Kept(range, only, rows))
                && r.value == |Kept(range, only, rows)|
      ensures r.Ok? ==> forall i :: 0 <= i < |rows| ==> Readable(rows[i])
      ensures r.Err? && r.error == Fallback ==>
                exists i ::
                  0 <= i < |rows|
                  && !(Readable(rows[i]) && (Covers(range, only, rows[i].key.0) ==> native(rows[i].key.1)))
      ensures r.Err? && r.error == TooLarge ==> |AddAll(CELLS, old(view), Kept(range, only, rows)).Keys| > MAX_ROWS
    {
      hide Sound, Readable, Covers;
      r := AddRows(rows, Covered(range, only));
    }

    method AddRows(rows: seq<Row<S>>, keep: Row<S> -> bool) returns (r: Result<nat, RollupError>)
      requires Valid()
      modifies this`streams, this`index, this`cells, this`view
      ensures r.Ok? ==>
                Valid() && view == AddAll(CELLS, old(view), T.Where(rows, keep)) && r.value == |T.Where(rows, keep)|
      ensures r.Ok? ==> forall i :: 0 <= i < |rows| ==> Readable(rows[i])
      ensures r.Err? && r.error == Fallback ==>
                exists i :: 0 <= i < |rows| && !(Readable(rows[i]) && (keep(rows[i]) ==> native(rows[i].key.1)))
      ensures r.Err? && r.error == TooLarge ==> |AddAll(CELLS, old(view), T.Where(rows, keep)).Keys| > MAX_ROWS
    {
      hide Sound, Readable, T.Where, AddItem;
      ghost var was := view;
      var added := 0;
      var i := 0;
      assert rows[..0] == [];
      T.WhereNothing(rows[..0], keep);
      while i < |rows|
        invariant i <= |rows| && Valid() && added == |T.Where(rows[..i], keep)|
        invariant view == AddAll(CELLS, was, T.Where(rows[..i], keep))
        invariant forall j :: 0 <= j < i ==> Readable(rows[j])
      {
        T.WhereStep(rows, keep, i);
        if !Readable(rows[i]) {
          return Err(Fallback);
        }
        if keep(rows[i]) {
          AddAllSnoc(CELLS, was, T.Where(rows[..i], keep), rows[i]);
          var step := AddStored(rows[i]);
          if step.Err? {
            TooManyRows(was, rows, keep, i + 1);
            return Err(step.error);
          }
          added := added + 1;
        }
        i := i + 1;
      }
      assert rows[..i] == rows;
      r := Ok(added);
    }

    method AddStored(row: Row<S>) returns (r: Result<(), RollupError>)
      requires Valid()
      modifies this`streams, this`index, this`cells, this`view
      ensures r.Ok? ==> Valid() && view == AddItem(CELLS, old(view), row)
      ensures r.Err? && r.error == Fallback ==> !native(row.key.1)
      ensures r.Err? && r.error == TooLarge ==> |AddItem(CELLS, old(view), row).Keys| > MAX_ROWS
    {
      hide Sound;
      var stream := Intern(row.key.1);
      if stream.Err? {
        return Err(stream.error);
      }
      assert row == Item((row.key.0, streams[stream.value]), row.value);
      r := AddCell(row.key.0, stream.value, row.value);
    }

    /** The cells as rows in order of bucket and stream. */
    method Listing() returns (rows: seq<Row<S>>)
      requires Valid() && Orders(less)
      ensures Lists(rows, view) && Ordered(rows, less)
    {
      hide View, Lists, Part, Before, Orders;
      rows := [];
      var todo := cells.Keys;
      ghost var part: map<(int, S), Cell> := map[];
      ListsNone(rows, part);
      PartNone(part);
      while todo != {}
        invariant todo <= cells.Keys && Lists(rows, part) && Ordered(rows, less) && Part(part, todo)
        invariant forall i, q :: 0 <= i < |rows| && q in todo ==> Before(less, rows[i].key, Named(streams, q))
        decreases |todo|
      {
        HasLeast(todo, streams, less);
        var p :| p in todo && forall q :: q in todo ==> q == p || Before(less, Named(streams, p), Named(streams, q));
        var row := Item(Named(streams, p), cells[p]);
        PartMore(part, todo, p);
        ListsSnoc(rows, part, row);
        rows, todo := rows + [row], todo - {p};
        part := part[row.key := row.value];
      }
      PartWhole(part);
    }

    /** The cells outside `todo`, by bucket and stream. */
    ghost predicate Part(part: map<(int, S), Cell>, todo: set<(int, nat)>)
      requires Sound()
      reads this
    {
      && (forall k :: k in part ==> k.1 in index && (k.0, index[k.1]) in cells && part[k] == cells[(k.0, index[k.1])])
      && (forall p :: p in cells ==> ((p.0, streams[p.1]) in part <==> p !in todo))
    }

    lemma PartNone(part: map<(int, S), Cell>)
      requires Sound() && part == map[]
      ensures Part(part, cells.Keys)
    {
    }

    lemma PartMore(part: map<(int, S), Cell>, todo: set<(int, nat)>, p: (int, nat))
      requires Sound() && Part(part, todo) && todo <= cells.Keys && p in todo
      ensures (p.0, streams[p.1]) !in part && Part(part[(p.0, streams[p.1]) := cells[p]], todo - {p})
    {
      hide View;
    }

    lemma PartWhole(part: map<(int, S), Cell>)
      requires Sound() && Part(part, {})
      ensures part == view
    {
      hide View;
      forall k ensures (k in part <==> k in view) && (k in part ==> part[k] == view[k]) {
        ViewHas(streams, index, cells, k);
        if k.1 in index && (k.0, index[k.1]) in cells {
          assert k == (k.0, streams[index[k.1]]);
        }
      }
    }

    /** The rows to store, and how many lines each bucket has, sorted by bucket. */
    method Finish() returns (rows: seq<Row<S>>, totals: seq<(int, int)>)
      requires Valid() && Orders(less)
      ensures Lists(rows, view) && Ordered(rows, less)
      ensures R.Increasing(totals) && forall b :: R.Amount(totals, b) == R.Amount(Counts(rows), b)
    {
      hide Sound, R.Amount;
      rows := Listing();
      totals := R.Totals(Counts(rows));
    }
  }

  lemma TooMany<L, S>(g: map<(int, S), Cell>, c: Columns<L, S>, lines: seq<L>, i: nat)
    requires i <= |lines|
    ensures |AddAll(CELLS, g, Items(c, lines[..i])).Keys| <= |AddAll(CELLS, g, Items(c, lines)).Keys|
  {
    ItemsPrefix(c, lines, i);
    var a, b := Items(c, lines[..i]), Items(c, lines);
    assert b == a + b[|a|..];
    AddAllGrows(CELLS, g, a, b[|a|..]);
  }

  lemma TooManyRows<S>(g: map<(int, S), Cell>, rows: seq<Row<S>>, p: Row<S> -> bool, i: nat)
    requires i <= |rows|
    ensures |AddAll(CELLS, g, T.Where(rows[..i], p)).Keys| <= |AddAll(CELLS, g, T.Where(rows, p)).Keys|
  {
    T.WherePrefix(rows, p, i);
    var a, b := T.Where(rows[..i], p), T.Where(rows, p);
    assert b == a + b[|a|..];
    AddAllGrows(CELLS, g, a, b[|a|..]);
  }
}
