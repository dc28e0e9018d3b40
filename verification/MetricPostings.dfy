/**
 The label -> series -> row-group index of a metric segment: `pairs`, `build`,
 `Index::candidates` and `candidate_groups` of metric_postings.rs, and the row-group pruning of
 metric_segment_parquet.rs that uses it.
 */
module MetricPostings {
  import opened Prelude
  import opened Text
  import opened Bitmap
  import opened Table
  import opened Wire
  import opened PostingsText
  import opened Canonical

  const MAX_CANONICAL := 4096
  const MAX_DICTIONARY := 131_072
  const MAX_PROBES := 16 * 1024 * 1024

  // ---- Canonical labels of a series ------------------------------------------

  predicate PairOk(pairs: Pairs, i: nat)
    requires i < |pairs|
  {
    Utf8(pairs[i].0) && Utf8(pairs[i].1) && (i == 0 || Less(pairs[i - 1].0, pairs[i].0))
  }

  /** Valid texts under strictly ascending names. */
  predicate Orderly(pairs: Pairs) {
    forall i :: 0 <= i < |pairs| ==> PairOk(pairs, i)
  }

  function SeriesPairs(s: Bytes): Option<Pairs> {
    if |s| > MAX_CANONICAL then None
    else
      var pairs :- Canonical.Parse(s);
      if Orderly(pairs) then Some(pairs) else None
  }

  /** One step of a split iterator: the next field, and what is left to split, if anything is. */
  function NextField(left: Option<Bytes>): (Option<Bytes>, Option<Bytes>) {
    match left
    case None => (None, None)
    case Some(s) =>
      match Cut(s)
      case None => (Some(s), None)
      case Some((head, tail)) => (Some(head), Some(tail))
  }

  lemma {:induction false} ReadPrefix(s: Bytes, done: Pairs)
    requires Read(s, done).Some?
    ensures done <= Read(s, done).value
    decreases |s|
  {
    if s != [] {
      var name := Cut(s).value;
      var value := Cut(name.1).value;
      ReadPrefix(value.1, done + [(name.0, value.0)]);
    }
  }

  lemma OrderlyPrefix(s: Bytes, done: Pairs)
    requires Read(s, done).Some? && Orderly(Read(s, done).value)
    ensures Orderly(done)
  {
    ReadPrefix(s, done);
    var all := Read(s, done).value;
    forall i | 0 <= i < |done| ensures PairOk(done, i) { assert PairOk(all, i) && all[i] == done[i]; }
  }

  /** `pairs`: fields split at separators, two by two, checked as they come. */
  method ReadPairs(s: Bytes) returns (r: Option<Pairs>)
    ensures r == SeriesPairs(s)
  {
    if |s| > MAX_CANONICAL {
      return None;
    }
    var out: Pairs := [];
    var left := Some(s);
    while true
      invariant left.Some? && Read(left.value, out) == Canonical.Parse(s) && Orderly(out)
      decreases |left.value|
    {
      ghost var here := left.value;
      var (name, afterName) := NextField(left);
      if name.value == [] && afterName.None? {
        return Some(out);
      }
      var (value, afterValue) := NextField(afterName);
      if value.None? {
        return None;
      }
      var pair := (name.value, value.value);
      var more := out + [pair];
      assert more[..|out|] == out && more[|out|] == pair;
      if !PairOk(more, |out|) {
        if afterValue.Some? && Read(afterValue.value, more).Some? && Orderly(Read(afterValue.value, more).value) {
          OrderlyPrefix(afterValue.value, more);
        }
        return None;
      }
      if afterValue.None? {
        return None;
      }
      forall i | 0 <= i < |more| ensures PairOk(more, i) {
        if i < |out| { assert PairOk(out, i); }
      }
      out, left := more, afterValue;
    }
  }

  /** The value a series has under a label; absent labels read as empty. */
  function ValueOf(pairs: Pairs, name: Bytes): Bytes {
    var got := Get(pairs, name);
    if got.Some? then got.value else []
  }

  lemma {:induction false} GetUtf8(pairs: Pairs, name: Bytes)
    requires forall i :: 0 <= i < |pairs| ==> Utf8(pairs[i].1)
    ensures Utf8(ValueOf(pairs, name))
  {
    if pairs != [] { GetUtf8(pairs[1..], name); }
  }

  // ---- The dictionary --------------------------------------------------------

  /** A row's canonical labels, and whether its buffer is the previous row's. */
  datatype Row = Row(canonical: Bytes, shared: bool)

  predicate SharedAt(rows: seq<Row>, i: nat)
    requires i < |rows|
  {
    rows[i].shared ==> i > 0 && rows[i].canonical == rows[i - 1].canonical
  }

  predicate SharedOk(rows: seq<Row>) {
    forall i :: 0 <= i < |rows| ==> SharedAt(rows, i)
  }

  datatype Dictionary = Dictionary(series: seq<Bytes>, ordinals: seq<nat>, bytes: nat, probes: nat)

  function IndexOf(series: seq<Bytes>, s: Bytes): (r: Option<nat>)
    ensures r.Some? ==> r.value < |series| && series[r.value] == s
    ensures r.None? ==> forall i :: 0 <= i < |series| ==> series[i] != s
  {
    if series == [] then None
    else if series[|series| - 1] == s then Some(|series| - 1)
    else IndexOf(series[..|series| - 1], s)
  }

  /** Intern one row, within the budgets. */
  function InternRow(d: Dictionary, row: Row): Option<Dictionary> {
    if row.shared && d.ordinals != [] then
      Some(d.(ordinals := d.ordinals + [d.ordinals[|d.ordinals| - 1]]))
    else
      var probes := d.probes + |row.canonical|;
      if |row.canonical| > MAX_CANONICAL || probes > MAX_PROBES then None
      else
        match IndexOf(d.series, row.canonical)
        case Some(o) => Some(d.(ordinals := d.ordinals + [o], probes := probes))
        case None =>
          if |d.series| >= MAX_SERIES || d.bytes + |row.canonical| > MAX_DICTIONARY then None
          else Some(Dictionary(d.series + [row.canonical], d.ordinals + [|d.series|],
                               d.bytes + |row.canonical|, probes))
  }

  function Intern(rows: seq<Row>): Option<Dictionary> {
    if rows == [] then Some(Dictionary([], [], 0, 0))
    else
      var d :- Intern(rows[..|rows| - 1]);
      InternRow(d, rows[|rows| - 1])
  }

  /** Ordinals stand for the rows' labels, equal labels share one, and every ordinal is in use. */
  ghost predicate Interned(d: Dictionary, rows: seq<Row>) {
    && |d.ordinals| == |rows| && |d.series| <= MAX_SERIES
    && (forall r :: 0 <= r < |rows| ==> d.ordinals[r] < |d.series| && d.series[d.ordinals[r]] == rows[r].canonical)
    && (forall i, j :: 0 <= i < j < |d.series| ==> d.series[i] != d.series[j])
    && (forall o: nat :: o < |d.series| ==> InUse(d.ordinals, o))
  }

  ghost predicate InUse(ordinals: seq<nat>, o: nat) {
    exists r :: 0 <= r < |ordinals| && ordinals[r] == o
  }

  lemma {:induction false} InternFacts(rows: seq<Row>)
    requires SharedOk(rows) && Intern(rows).Some?
    ensures Interned(Intern(rows).value, rows)
    decreases |rows|
  {
    if rows != [] {
      var n := |rows| - 1;
      var p := rows[..n];
      forall i | 0 <= i < n ensures SharedAt(p, i) { assert SharedAt(rows, i); }
      assert SharedAt(rows, n);
      InternFacts(p);
      InternStep(Intern(p).value, p, rows[n]);
      assert rows == p + [rows[n]];
    }
  }

  lemma InternStep(d: Dictionary, rows: seq<Row>, row: Row)
    requires Interned(d, rows) && InternRow(d, row).Some?
    requires row.shared ==> rows != [] && row.canonical == rows[|rows| - 1].canonical
    ensures Interned(InternRow(d, row).value, rows + [row])
  {
    var e := InternRow(d, row).value;
    forall o: nat | o < |e.series| ensures InUse(e.ordinals, o) {
      if o < |d.series| {
        assert InUse(d.ordinals, o);
        var r :| 0 <= r < |d.ordinals| && d.ordinals[r] == o;
        assert e.ordinals[r] == o;
      } else {
        assert e.ordinals[|d.ordinals|] == o;
      }
    }
  }

  /** The interning loop. */
  method BuildDictionary(rows: seq<Row>) returns (r: Option<Dictionary>)
    ensures r == Intern(rows)
  {
    var d := Dictionary([], [], 0, 0);
    for i := 0 to |rows|
      invariant Intern(rows[..i]) == Some(d)
    {
      assert rows[..i + 1][..i] == rows[..i];
      var next := InternRow(d, rows[i]);
      if next.None? {
        InternFails(rows, i + 1);
        return None;
      }
      d := next.value;
    }
    assert rows[..|rows|] == rows;
    r := Some(d);
  }

  lemma {:induction false} InternFails(rows: seq<Row>, n: nat)
    requires n <= |rows| && Intern(rows[..n]).None?
    ensures Intern(rows).None?
    decreases |rows| - n
  {
    if n < |rows| {
      assert rows[..n + 1][..n] == rows[..n];
      InternFails(rows, n + 1);
    } else {
      assert rows[..n] == rows;
    }
  }

  // ---- Row groups ------------------------------------------------------------

  function Ceil(n: nat, size: nat): nat
    requires size > 0
  {
    (n + size - 1) / size
  }

  lemma MulMono(a: nat, b: nat, p: nat)
    ensures a <= b ==> a * p <= b * p
  {
  }

  lemma DivAtLeast(m: nat, size: nat, q: nat)
    requires size > 0 && q * size <= m
    ensures q <= m / size
  {
    MulMono(m / size + 1, q, size);
  }

  lemma InRange(r: nat, n: nat, size: nat)
    requires r < n && size > 0
    ensures r / size < Ceil(n, size)
  {
    assert (r / size + 1) * size == (r / size) * size + size <= n + size - 1;
    DivAtLeast(n + size - 1, size, r / size + 1);
  }

  /** Every group has a first row. */
  lemma FirstRow(g: nat, n: nat, size: nat)
    requires size > 0 && g < Ceil(n, size)
    ensures g * size < n && (g * size) / size == g
  {
    MulMono(g + 1, Ceil(n, size), size);
    assert (g + 1) * size == g * size + size;
    DivAtLeast(g * size, size, g);
    MulMono(g + 1, (g * size) / size, size);
  }

  /** Add one row to its group. */
  function AddRow(groups: seq<Group>, g: nat, o: nat): seq<Group>
    requires g < |groups| && o < |groups[g].bits|
  {
    groups[g := Group(groups[g].rows + 1, groups[g].bits[o := true])]
  }

  /** The group each row belongs to. */
  type GroupOf = nat -> nat

  function BySize(size: nat): GroupOf {
    (r: nat) => if size == 0 then 0 else r / size
  }

  /** Some of the first `n` rows is in group `g` and has ordinal `o`. */
  ghost predicate Placed(ordinals: seq<nat>, n: nat, at: GroupOf, g: nat, o: nat)
    requires n <= |ordinals|
  {
    exists r: nat :: r < n && at(r) == g && ordinals[r] == o
  }

  ghost predicate Occupied(n: nat, at: GroupOf, g: nat)
  {
    exists r: nat :: r < n && at(r) == g
  }

  /** What the groups hold after the first `n` rows. */
  ghost predicate Filled(groups: seq<Group>, ordinals: seq<nat>, n: nat, at: GroupOf, series: nat)
    requires n <= |ordinals|
  {
    && (forall g: nat :: g < |groups| ==>
          && Fits(groups[g].bits, series) && Population(groups[g].bits) <= groups[g].rows <= n
          && (groups[g].rows > 0 <==> Occupied(n, at, g)))
    && (forall g: nat, o: nat :: g < |groups| ==> (Bit(groups[g].bits, o) <==> Placed(ordinals, n, at, g, o)))
    && SumRows(groups) == n
  }

  lemma {:induction false} SumUpdate(gs: seq<Group>, g: nat, x: Group)
    requires g < |gs|
    ensures SumRows(gs[g := x]) == SumRows(gs) - gs[g].rows + x.rows
    decreases |gs|
  {
    var n := |gs| - 1;
    if g == n {
      assert gs[g := x][..n] == gs[..n];
    } else {
      SumUpdate(gs[..n], g, x);
      assert gs[g := x][..n] == gs[..n][g := x];
    }
  }

  lemma PlacedStep(ordinals: seq<nat>, n: nat, at: GroupOf, g: nat, o: nat)
    requires n < |ordinals|
    ensures Placed(ordinals, n + 1, at, g, o) <==> Placed(ordinals, n, at, g, o) || (at(n) == g && ordinals[n] == o)
    ensures Occupied(n + 1, at, g) <==> Occupied(n, at, g) || at(n) == g
  {
    if Placed(ordinals, n + 1, at, g, o) {
      var r: nat :| r < n + 1 && at(r) == g && ordinals[r] == o;
      if r < n { assert Placed(ordinals, n, at, g, o); }
    }
    if Occupied(n + 1, at, g) {
      var r: nat :| r < n + 1 && at(r) == g;
      if r < n { assert Occupied(n, at, g); }
    }
  }

  lemma FilledStep(groups: seq<Group>, ordinals: seq<nat>, n: nat, at: GroupOf, series: nat)
    requires n < |ordinals| && Filled(groups, ordinals, n, at, series)
    requires at(n) < |groups| && ordinals[n] < series
    ensures ordinals[n] < |groups[at(n)].bits|
    ensures Filled(AddRow(groups, at(n), ordinals[n]), ordinals, n + 1, at, series)
  {
    var g0, o0 := at(n), ordinals[n];
    assert Fits(groups[g0].bits, series);
    var more := AddRow(groups, g0, o0);
    PopulationSet(groups[g0].bits, o0);
    SumUpdate(groups, g0, more[g0]);
    forall g: nat | g < |more|
      ensures && Fits(more[g].bits, series) && Population(more[g].bits) <= more[g].rows <= n + 1
              && (more[g].rows > 0 <==> Occupied(n + 1, at, g))
    {
      PlacedStep(ordinals, n, at, g, 0);
      assert Population(groups[g].bits) <= groups[g].rows <= n;
    }
    forall g: nat, o: nat | g < |more| ensures Bit(more[g].bits, o) <==> Placed(ordinals, n + 1, at, g, o) {
      PlacedStep(ordinals, n, at, g, o);
      assert Bit(groups[g].bits, o) <==> Placed(ordinals, n, at, g, o);
    }
  }

  lemma {:induction false} SumZeros(gs: seq<Group>)
    requires forall i :: 0 <= i < |gs| ==> gs[i].rows == 0
    ensures SumRows(gs) == 0
  {
    if gs != [] { SumZeros(gs[..|gs| - 1]); }
  }

  lemma FilledStart(groups: seq<Group>, ordinals: seq<nat>, at: GroupOf, series: nat)
    requires forall g :: 0 <= g < |groups| ==> groups[g] == Group(0, Zeros(series))
    ensures Filled(groups, ordinals, 0, at, series)
  {
    PopulationZeros(Zeros(series));
    SumZeros(groups);
  }

  method BuildGroups(ordinals: seq<nat>, series: nat, size: nat) returns (groups: seq<Group>)
    requires size > 0 && forall r :: 0 <= r < |ordinals| ==> ordinals[r] < series
    ensures |groups| == Ceil(|ordinals|, size) && Filled(groups, ordinals, |ordinals|, BySize(size), series)
  {
    var at, count := BySize(size), Ceil(|ordinals|, size);
    forall r: nat | r < |ordinals| ensures at(r) < count { InRange(r, |ordinals|, size); }
    groups := FillGroups(ordinals, series, at, count);
  }

  /** Place every row in its group. */
  method FillGroups(ordinals: seq<nat>, series: nat, at: GroupOf, count: nat) returns (groups: seq<Group>)
    requires forall r: nat :: r < |ordinals| ==> ordinals[r] < series && at(r) < count
    ensures |groups| == count && Filled(groups, ordinals, |ordinals|, at, series)
  {
    groups := seq(count, _ => Group(0, Zeros(series)));
    FilledStart(groups, ordinals, at, series);
    for r := 0 to |ordinals|
      invariant |groups| == count && Filled(groups, ordinals, r, at, series)
    {
      FilledStep(groups, ordinals, r, at, series);
      groups := AddRow(groups, at(r), ordinals[r]);
    }
  }

  /** Filled groups of interned rows are well formed. */
  lemma FilledOk(groups: seq<Group>, d: Dictionary, rows: seq<Row>, size: nat)
    requires size > 0 && rows != [] && Interned(d, rows) && |groups| == Ceil(|rows|, size)
    requires Filled(groups, d.ordinals, |rows|, BySize(size), |d.series|)
    ensures GroupsOk(|d.series|, |rows|, groups)
  {
    forall g: nat | g < |groups| ensures Occupied(|rows|, BySize(size), g) {
      FirstRow(g, |rows|, size);
      assert BySize(size)(g * size) == g;
    }
    forall r: nat | r < |rows| ensures BySize(size)(r) < |groups| { InRange(r, |rows|, size); }
    FilledGroupsOk(groups, d, rows, BySize(size));
  }

  lemma FilledGroupsOk(groups: seq<Group>, d: Dictionary, rows: seq<Row>, at: GroupOf)
    requires Interned(d, rows) && Filled(groups, d.ordinals, |rows|, at, |d.series|)
    requires forall g: nat :: g < |groups| ==> Occupied(|rows|, at, g)
    requires forall r: nat :: r < |rows| ==> at(r) < |groups|
    ensures GroupsOk(|d.series|, |rows|, groups)
  {
    var n := |rows|;
    forall g: nat | g < |groups| ensures GroupOk(|d.series|, n, groups[g]) {
      assert Occupied(n, at, g);
      var r: nat :| r < n && at(r) == g;
      assert Placed(d.ordinals, n, at, g, d.ordinals[r]);
      assert Bit(groups[g].bits, d.ordinals[r]);
    }
    forall o: nat | o < |d.series| ensures InGroups(groups, o) {
      assert InUse(d.ordinals, o);
      var r: nat :| r < |d.ordinals| && d.ordinals[r] == o;
      assert Placed(d.ordinals, n, at, at(r), o);
      assert Bit(groups[at(r)].bits, o);
    }
  }

  // ---- Label partitions ------------------------------------------------------

  /** `bits` marks those of the first `k` series whose value under `name` is `v`. */
  ghost predicate Marks(parsed: seq<Pairs>, name: Bytes, k: nat, v: Bytes, bits: Bits)
    requires k <= |parsed|
  {
    Fits(bits, |parsed|) && forall o: nat :: Bit(bits, o) <==> o < k && ValueOf(parsed[o], name) == v
  }

  /** The first `k` series grouped by their value under `name`. */
  ghost predicate Partitioned(parsed: seq<Pairs>, name: Bytes, k: nat, vs: Values)
    requires k <= |parsed|
  {
    && Sorted(vs) && |vs| <= k
    && (forall v :: Find(vs, v).Some? ==> |v| <= MAX_FIELD && Marks(parsed, name, k, v, Find(vs, v).value))
    && (forall v :: Find(vs, v).Some? <==> exists o :: 0 <= o < k && ValueOf(parsed[o], name) == v)
  }

  function Partition(parsed: seq<Pairs>, name: Bytes, k: nat): Option<Values>
    requires k <= |parsed|
  {
    if k == 0 then Some([])
    else
      var vs :- Partition(parsed, name, k - 1);
      var v := ValueOf(parsed[k - 1], name);
      if |v| > MAX_FIELD then None
      else Some(Put(vs, v, Mark(vs, v, |parsed|, k - 1)))
  }

  /** The value's bitmap, empty at first, with one more series. */
  function Mark(vs: Values, v: Bytes, series: nat, o: nat): Bits {
    var got := Find(vs, v);
    var bits := if got.Some? then got.value else Zeros(series);
    if o < |bits| then bits[o := true] else bits
  }

  lemma {:induction false} PartitionFacts(parsed: seq<Pairs>, name: Bytes, k: nat)
    requires k <= |parsed| && Partition(parsed, name, k).Some?
    ensures Partitioned(parsed, name, k, Partition(parsed, name, k).value)
    decreases k
  {
    if k > 0 {
      PartitionFacts(parsed, name, k - 1);
      PartitionStep(parsed, name, k - 1, Partition(parsed, name, k - 1).value);
    }
  }

  lemma SetMarks(bits: Bits, series: nat, k: nat, o: nat)
    requires k < series && Fits(bits, series)
    ensures k < |bits| && Fits(bits[k := true], series) && (Bit(bits[k := true], o) <==> o == k || Bit(bits, o))
  {
  }

  lemma MarkMarks(parsed: seq<Pairs>, name: Bytes, k: nat, vs: Values)
    requires k < |parsed| && Partitioned(parsed, name, k, vs)
    ensures var v := ValueOf(parsed[k], name); Marks(parsed, name, k + 1, v, Mark(vs, v, |parsed|, k))
  {
    var v := ValueOf(parsed[k], name);
    var got := Find(vs, v);
    var bits := if got.Some? then got.value else Zeros(|parsed|);
    assert Marks(parsed, name, k, v, bits) by {
      if got.None? {
        forall o: nat ensures !Bit(bits, o) && !(o < k && ValueOf(parsed[o], name) == v) {}
      }
    }
    forall o: nat ensures Bit(bits[k := true], o) <==> o < k + 1 && ValueOf(parsed[o], name) == v {
      SetMarks(bits, |parsed|, k, o);
    }
  }

  lemma PartitionStep(parsed: seq<Pairs>, name: Bytes, k: nat, vs: Values)
    requires k < |parsed| && Partitioned(parsed, name, k, vs) && |ValueOf(parsed[k], name)| <= MAX_FIELD
    ensures var v := ValueOf(parsed[k], name);
            Partitioned(parsed, name, k + 1, Put(vs, v, Mark(vs, v, |parsed|, k)))
  {
    var v := ValueOf(parsed[k], name);
    var more := Put(vs, v, Mark(vs, v, |parsed|, k));
    PutSorted(vs, v, Mark(vs, v, |parsed|, k));
    PutSize(vs, v, Mark(vs, v, |parsed|, k));
    MarkMarks(parsed, name, k, vs);
    forall x
      ensures Find(more, x).Some? ==> |x| <= MAX_FIELD && Marks(parsed, name, k + 1, x, Find(more, x).value)
      ensures Find(more, x).Some? <==> exists o :: 0 <= o < k + 1 && ValueOf(parsed[o], name) == x
    {
      PutFind(vs, v, Mark(vs, v, |parsed|, k), x);
      assert Find(vs, x).Some? <==> exists o :: 0 <= o < k && ValueOf(parsed[o], name) == x;
      if x == v {
        assert ValueOf(parsed[k], name) == x;
      } else if Find(vs, x).Some? {
        assert Marks(parsed, name, k, x, Find(vs, x).value);
      }
    }
  }

  ghost predicate TextOk(parsed: seq<Pairs>) {
    forall o, i :: 0 <= o < |parsed| && 0 <= i < |parsed[o]| ==> Utf8(parsed[o][i].0) && Utf8(parsed[o][i].1)
  }

  /** A complete grouping of all series is a well-formed partition. */
  lemma PartitionOk(parsed: seq<Pairs>, name: Bytes, vs: Values)
    requires parsed != [] && TextOk(parsed) && Partitioned(parsed, name, |parsed|, vs)
    ensures ValuesOk(|parsed|, vs)
  {
    var n := |parsed|;
    forall i | 0 <= i < |vs|
      ensures ValueOk(n, vs[i]) && Find(vs, vs[i].0) == Some(vs[i].1)
    {
      FindAt(vs, i);
      assert Marks(parsed, name, n, vs[i].0, vs[i].1);
      var o: nat :| o < n && ValueOf(parsed[o], name) == vs[i].0;
      GetUtf8(parsed[o], name);
      assert Bit(vs[i].1, o);
    }
    forall i, j, o: nat | 0 <= i < j < |vs| ensures !(Bit(vs[i].1, o) && Bit(vs[j].1, o)) {
      assert Marks(parsed, name, n, vs[i].0, vs[i].1) && Marks(parsed, name, n, vs[j].0, vs[j].1);
      Trichotomy(vs[i].0, vs[j].0);
    }
    forall o: nat | o < n ensures InValues(vs, o) {
      var v := ValueOf(parsed[o], name);
      assert Find(vs, v).Some?;
      var i := FindIndex(vs, v);
      assert Marks(parsed, name, n, v, vs[i].1);
      assert Bit(vs[i].1, o);
    }
    assert Find(vs, ValueOf(parsed[0], name)).Some?;
    var _ := FindIndex(vs, ValueOf(parsed[0], name));
  }

  /** The values of one label, or None when one of them is too long to index. */
  method BuildPartition(parsed: seq<Pairs>, name: Bytes) returns (r: Option<Values>)
    ensures r == Partition(parsed, name, |parsed|)
  {
    var vs: Values := [];
    for o := 0 to |parsed|
      invariant Partition(parsed, name, o) == Some(vs)
    {
      var v := ValueOf(parsed[o], name);
      if |v| > MAX_FIELD {
        PartitionFails(parsed, name, o + 1, |parsed|);
        return None;
      }
      vs := Put(vs, v, Mark(vs, v, |parsed|, o));
    }
    r := Some(vs);
  }

  lemma {:induction false} PartitionFails(parsed: seq<Pairs>, name: Bytes, k: nat, n: nat)
    requires k <= n <= |parsed| && Partition(parsed, name, k).None?
    ensures Partition(parsed, name, n).None?
    decreases n
  {
    if k < n { PartitionFails(parsed, name, k, n - 1); }
  }

  // ---- Choosing labels -------------------------------------------------------

  function ValuesSize(vs: Values, width: nat): nat {
    if vs == [] then 0 else 2 + |vs[0].0| + width + ValuesSize(vs[1..], width)
  }

  /** Encoded bytes of one label. */
  function LabelSize(name: Bytes, vs: Values, width: nat): nat {
    2 + |name| + 2 + ValuesSize(vs, width)
  }

  function LabelsSize(ls: Table<Values>, width: nat): nat {
    if ls == [] then 0 else LabelSize(ls[0].0, ls[0].1, width) + LabelsSize(ls[1..], width)
  }

  lemma {:induction false} PutLabelsSize(ls: Table<Values>, name: Bytes, vs: Values, width: nat)
    requires Find(ls, name).None?
    ensures LabelsSize(Put(ls, name, vs), width) == LabelsSize(ls, width) + LabelSize(name, vs, width)
    decreases |ls|
  {
    if ls != [] {
      if Less(name, ls[0].0) {
        assert ([(name, vs)] + ls)[1..] == ls;
      } else {
        PutLabelsSize(ls[1..], name, vs, width);
        assert ([ls[0]] + Put(ls[1..], name, vs))[1..] == Put(ls[1..], name, vs);
      }
    }
  }

  /** The partition of the series a label name induces. */
  type Partitions = Bytes -> Option<Values>

  function PartitionsOf(parsed: seq<Pairs>): Partitions {
    name => Partition(parsed, name, |parsed|)
  }

  /** Labels whose complete partition still fits, in the order their names are tried. */
  function Choose(part: Partitions, width: nat, names: seq<Bytes>, size: nat, done: Table<Values>): (Table<Values>, nat)
    decreases |names|
  {
    if names == [] then (done, size)
    else
      match part(names[0])
      case None => Choose(part, width, names[1..], size, done)
      case Some(vs) =>
        var bytes := LabelSize(names[0], vs, width);
        if size + bytes > MAX_RAW then Choose(part, width, names[1..], size, done)
        else Choose(part, width, names[1..], size + bytes, Put(done, names[0], vs))
  }

  ghost predicate Distinct(names: seq<Bytes>) {
    forall i, j :: 0 <= i < j < |names| ==> names[i] != names[j]
  }

  /** Chosen labels: sorted, each a partition of its name, and `size` bytes with the rest of the index. */
  ghost predicate Chosen(part: Partitions, width: nat, base: nat, size: nat, ls: Table<Values>) {
    && Sorted(ls) && size == base + LabelsSize(ls, width) <= MAX_RAW
    && forall i :: 0 <= i < |ls| ==> FieldOk(ls[i].0) && part(ls[i].0) == Some(ls[i].1)
  }

  lemma ChosenPut(part: Partitions, width: nat, base: nat, size: nat, ls: Table<Values>, name: Bytes, vs: Values)
    requires Chosen(part, width, base, size, ls) && FieldOk(name) && Find(ls, name).None? && part(name) == Some(vs)
    requires size + LabelSize(name, vs, width) <= MAX_RAW
    ensures Chosen(part, width, base, size + LabelSize(name, vs, width), Put(ls, name, vs))
  {
    PutSorted(ls, name, vs);
    PutLabelsSize(ls, name, vs, width);
    var r := Put(ls, name, vs);
    forall i | 0 <= i < |r| ensures FieldOk(r[i].0) && part(r[i].0) == Some(r[i].1) {
      PutElement(ls, name, vs, i);
    }
  }

  /** Names that may still be added to `done`. */
  ghost predicate Addable(names: seq<Bytes>, done: Table<Values>) {
    Distinct(names) && forall i :: 0 <= i < |names| ==> FieldOk(names[i]) && Find(done, names[i]).None?
  }

  lemma AddableRest(names: seq<Bytes>, done: Table<Values>, vs: Values)
    requires names != [] && Addable(names, done) && Sorted(done)
    ensures Addable(names[1..], done) && Addable(names[1..], Put(done, names[0], vs))
  {
    var rest := names[1..];
    assert forall i :: 0 <= i < |rest| ==> rest[i] == names[i + 1];
    forall i | 0 <= i < |rest| ensures Find(Put(done, names[0], vs), rest[i]).None? {
      PutFind(done, names[0], vs, rest[i]);
    }
  }

  lemma {:induction false} ChooseFacts(part: Partitions, width: nat, names: seq<Bytes>, base: nat, size: nat,
                                       done: Table<Values>)
    requires Chosen(part, width, base, size, done) && Addable(names, done)
    ensures var (ls, total) := Choose(part, width, names, size, done);
            Chosen(part, width, base, total, ls) && |ls| <= |done| + |names|
    decreases |names|
  {
    if names != [] {
      var name := names[0];
      assert FieldOk(name) && Find(done, name).None?;
      AddableRest(names, done, []);
      var got := part(name);
      if got.None? || size + LabelSize(name, got.value, width) > MAX_RAW {
        ChooseFacts(part, width, names[1..], base, size, done);
      } else {
        ChosenPut(part, width, base, size, done, name, got.value);
        PutSize(done, name, got.value);
        AddableRest(names, done, got.value);
        ChooseFacts(part, width, names[1..], base, size + LabelSize(name, got.value, width),
                    Put(done, name, got.value));
      }
    }
  }

  lemma ChooseStep(part: Partitions, width: nat, names: seq<Bytes>, i: nat, size: nat, done: Table<Values>)
    requires i < |names|
    ensures var now, values := Choose(part, width, names[i..], size, done), part(names[i]);
            if values.None? || size + LabelSize(names[i], values.value, width) > MAX_RAW
            then now == Choose(part, width, names[i + 1..], size, done)
            else now == Choose(part, width, names[i + 1..], size + LabelSize(names[i], values.value, width),
                               Put(done, names[i], values.value))
  {
    hide LabelSize, Put;
    assert names[i..][0] == names[i] && names[i..][1..] == names[i + 1..];
  }

  lemma ChooseNothing(part: Partitions, width: nat, names: seq<Bytes>, size: nat, done: Table<Values>)
    ensures names[0..] == names && Choose(part, width, names[|names|..], size, done) == (done, size)
  {
  }

  /** The loop over candidate names. */
  method ChooseLabels(parsed: seq<Pairs>, names: seq<Bytes>, base: nat) returns (ls: Table<Values>)
    ensures ls == Choose(PartitionsOf(parsed), Width(|parsed|), names, base, []).0
  {
    hide Choose, LabelSize, Put, Partition, Width;
    ghost var part := PartitionsOf(parsed);
    var size: nat := base;
    var width := Width(|parsed|);
    ls := [];
    ChooseNothing(part, width, names, size, ls);
    for i := 0 to |names|
      invariant Choose(part, width, names[i..], size, ls) == Choose(part, width, names, base, [])
    {
      ChooseStep(part, width, names, i, size, ls);
      var values := BuildPartition(parsed, names[i]);
      assert values == part(names[i]);
      if values.Some? {
        var bytes := LabelSize(names[i], values.value, width);
        if size + bytes <= MAX_RAW {
          size := size + bytes;
          ls := Put(ls, names[i], values.value);
        }
      }
    }
    ChooseNothing(part, width, names, size, ls);
  }

  // ---- Names to try ----------------------------------------------------------

  const METRIC_NAME: Bytes := [0x5F, 0x5F, 0x6E, 0x61, 0x6D, 0x65, 0x5F, 0x5F]

  /** Some pair has this name, and it is short enough to index. */
  ghost predicate InPairs(pairs: Pairs, n: nat, x: Bytes)
    requires n <= |pairs|
  {
    |x| <= MAX_FIELD && exists i :: 0 <= i < n && pairs[i].0 == x
  }

  ghost predicate Named(parsed: seq<Pairs>, n: nat, x: Bytes)
    requires n <= |parsed|
  {
    exists o :: 0 <= o < n && InPairs(parsed[o], |parsed[o]|, x)
  }

  lemma NamedStep(parsed: seq<Pairs>, n: nat, x: Bytes)
    requires n < |parsed|
    ensures Named(parsed, n + 1, x) <==> Named(parsed, n, x) || InPairs(parsed[n], |parsed[n]|, x)
  {
  }

  /** The distinct label names short enough to index, sorted. */
  method CollectNames(parsed: seq<Pairs>) returns (names: Table<()>)
    ensures Sorted(names) && forall x :: Find(names, x).Some? <==> Named(parsed, |parsed|, x)
  {
    names := [];
    for o := 0 to |parsed|
      invariant Sorted(names) && forall x :: Find(names, x).Some? <==> Named(parsed, o, x)
    {
      names := AddNames(names, parsed[o]);
      forall x ensures Find(names, x).Some? <==> Named(parsed, o + 1, x) { NamedStep(parsed, o, x); }
    }
  }

  method AddNames(names: Table<()>, pairs: Pairs) returns (more: Table<()>)
    requires Sorted(names)
    ensures Sorted(more)
    ensures forall x :: Find(more, x).Some? <==> Find(names, x).Some? || InPairs(pairs, |pairs|, x)
  {
    more := names;
    for n := 0 to |pairs|
      invariant Sorted(more)
      invariant forall x :: Find(more, x).Some? <==> Find(names, x).Some? || InPairs(pairs, n, x)
    {
      ghost var before := more;
      if |pairs[n].0| <= MAX_FIELD {
        PutSorted(more, pairs[n].0, ());
        more := Put(more, pairs[n].0, ());
      }
      forall x ensures Find(more, x).Some? <==> Find(names, x).Some? || InPairs(pairs, n + 1, x) {
        PutFind(before, pairs[n].0, (), x);
        assert Find(before, x).Some? <==> Find(names, x).Some? || InPairs(pairs, n, x);
      }
    }
  }

  /** Which names are tried, and when: `__name__` leads the sorted rest, up to a limit. */
  function Order(names: Table<()>): (r: seq<Bytes>)
    ensures |r| <= MAX_LABELS
  {
    var first := if Find(names, METRIC_NAME).Some? then [METRIC_NAME] else [];
    var all := first + Others(names);
    if |all| <= MAX_LABELS then all else all[..MAX_LABELS]
  }

  function Others(names: Table<()>): seq<Bytes> {
    if names == [] then []
    else (if names[0].0 == METRIC_NAME then [] else [names[0].0]) + Others(names[1..])
  }

  lemma {:induction false} OthersFacts(names: Table<()>)
    requires Sorted(names)
    ensures Distinct(Others(names))
    ensures forall i :: 0 <= i < |Others(names)| ==>
              Others(names)[i] != METRIC_NAME && Find(names, Others(names)[i]).Some?
    decreases |names|
  {
    if names != [] {
      OthersFacts(names[1..]);
      var rest := Others(names[1..]);
      forall i | 0 <= i < |rest| ensures rest[i] != names[0].0 && Find(names, rest[i]).Some? {
        var k := FindIndex(names[1..], rest[i]);
        assert names[k + 1].0 == rest[i];
        Trichotomy(names[0].0, names[k + 1].0);
      }
    }
  }

  lemma OrderFacts(names: Table<()>)
    requires Sorted(names)
    ensures Distinct(Order(names))
    ensures forall i :: 0 <= i < |Order(names)| ==> Find(names, Order(names)[i]).Some?
  {
    OthersFacts(names);
  }

  // ---- Encoded size ----------------------------------------------------------

  ghost predicate Sized(p: Parts) {
    && (forall v :: |p.half.put(v)| == 2) && (forall v :: |p.word.put(v)| == 4)
    && (forall v :: |p.field.put(v)| == 2 + |v|)
    && (forall n, b :: |b| == 8 * Width(n) ==> |p.bits(n).put(b)| == Width(n))
  }

  lemma {:induction false} WordLength(v: nat, width: nat)
    ensures |PutWord(v, width)| == width
    decreases width
  {
    if width > 0 { WordLength(v / 256, width - 1); }
  }

  lemma StoredSized()
    ensures Sized(STORED)
  {
    forall v: nat ensures |PutWord(v, 2)| == 2 && |PutWord(v, 4)| == 4 { WordLength(v, 2); WordLength(v, 4); }
    forall v: Bytes ensures |PutField(v)| == 2 + |v| { WordLength(|v|, 2); }
    forall n: nat, b: Bits | |b| == 8 * Width(n) ensures |BitsCodec(n).put(b)| == Width(n) { PackInverts(b); }
  }

  lemma {:induction false} GroupsLength(p: Parts, series: nat, gs: seq<Group>)
    requires Sized(p) && forall i :: 0 <= i < |gs| ==> |gs[i].bits| == 8 * Width(series)
    ensures |PutAll(GroupCodec(p, series), gs)| == |gs| * (4 + Width(series))
    decreases |gs|
  {
    if gs != [] {
      GroupsLength(p, series, gs[1..]);
      assert |GroupCodec(p, series).put(gs[0])| == 4 + Width(series);
      assert |gs| * (4 + Width(series)) == (|gs| - 1) * (4 + Width(series)) + (4 + Width(series));
    }
  }

  lemma {:induction false} ValuesLength(p: Parts, series: nat, vs: Values)
    requires Sized(p) && forall i :: 0 <= i < |vs| ==> |vs[i].1| == 8 * Width(series)
    ensures |PutAll(ValueCodec(p, series), vs)| == ValuesSize(vs, Width(series))
    decreases |vs|
  {
    if vs != [] {
      ValuesLength(p, series, vs[1..]);
      assert |ValueCodec(p, series).put(vs[0])| == 2 + |vs[0].0| + Width(series);
    }
  }

  lemma {:induction false} LabelsLength(p: Parts, series: nat, ls: Table<Values>)
    requires Sized(p)
    requires forall i, k :: 0 <= i < |ls| && 0 <= k < |ls[i].1| ==> |ls[i].1[k].1| == 8 * Width(series)
    ensures |PutAll(LabelCodec(p, series), ls)| == LabelsSize(ls, Width(series))
    decreases |ls|
  {
    if ls != [] {
      LabelsLength(p, series, ls[1..]);
      ValuesLength(p, series, ls[0].1);
      assert |LabelCodec(p, series).put(ls[0])| == LabelSize(ls[0].0, ls[0].1, Width(series));
    }
  }

  /** Bytes of everything but the labels, checksum included. */
  function BaseSize(groups: nat, series: nat): nat {
    8 + 2 + 4 + 2 + groups * (4 + Width(series)) + 2 + 8
  }

  lemma BodyLength(p: Parts, x: Index)
    requires Sized(p) && WellFormed(x)
    ensures |EncodeBody(p, x)| + 8 == BaseSize(|x.groups|, x.series) + LabelsSize(x.labels, Width(x.series))
  {
    hide WellFormed, GroupOk, LabelsSize, Width, PutAll;
    WellSized(x);
    GroupsLength(p, x.series, x.groups);
    LabelsLength(p, x.series, x.labels);
  }

  /** Bitmaps of a well-formed index have its width. */
  lemma WellSized(x: Index)
    requires WellFormed(x)
    ensures forall i :: 0 <= i < |x.groups| ==> |x.groups[i].bits| == 8 * Width(x.series)
    ensures forall i, k :: 0 <= i < |x.labels| && 0 <= k < |x.labels[i].1| ==>
              |x.labels[i].1[k].1| == 8 * Width(x.series)
  {
    forall i | 0 <= i < |x.groups| ensures |x.groups[i].bits| == 8 * Width(x.series) {
      assert GroupOk(x.series, x.rows, x.groups[i]);
    }
    forall i, k | 0 <= i < |x.labels| && 0 <= k < |x.labels[i].1| ensures |x.labels[i].1[k].1| == 8 * Width(x.series) {
      assert LabelOk(x.series, x.labels[i]);
      assert ValueOk(x.series, x.labels[i].1[k]);
    }
  }

  // ---- Building --------------------------------------------------------------

  /** `parsed` are the labels of the dictionary's series. */
  ghost predicate ParsedAs(series: seq<Bytes>, parsed: seq<Pairs>) {
    |parsed| == |series| && forall o :: 0 <= o < |series| ==> SeriesPairs(series[o]) == Some(parsed[o])
  }

  method ParseSeries(series: seq<Bytes>) returns (r: Option<seq<Pairs>>)
    ensures r.Some? ==> ParsedAs(series, r.value)
    ensures r.None? ==> exists o :: 0 <= o < |series| && SeriesPairs(series[o]).None?
  {
    var out: seq<Pairs> := [];
    for o := 0 to |series|
      invariant |out| == o && forall k :: 0 <= k < o ==> SeriesPairs(series[k]) == Some(out[k])
    {
      var pairs := ReadPairs(series[o]);
      if pairs.None? {
        return None;
      }
      out := out + [pairs.value];
    }
    r := Some(out);
  }

  /** The index describes the rows: who is in each group, and which value each series has under each indexed label. */
  ghost predicate Represents(x: Index, rows: seq<Row>, size: nat, d: Dictionary, parsed: seq<Pairs>) {
    && rows != [] && size > 0 && Interned(d, rows) && ParsedAs(d.series, parsed)
    && x.series == |d.series| && x.rows == |rows| && |x.groups| == Ceil(|rows|, size)
    && Filled(x.groups, d.ordinals, |rows|, BySize(size), |d.series|)
    && Sorted(x.labels)
    && (forall i :: 0 <= i < |x.labels| ==> Partitioned(parsed, x.labels[i].0, |parsed|, x.labels[i].1))
  }

  lemma ParsedText(series: seq<Bytes>, parsed: seq<Pairs>)
    requires ParsedAs(series, parsed)
    ensures TextOk(parsed)
  {
    forall o, i | 0 <= o < |parsed| && 0 <= i < |parsed[o]| ensures Utf8(parsed[o][i].0) && Utf8(parsed[o][i].1) {
      assert SeriesPairs(series[o]) == Some(parsed[o]);
      assert PairOk(parsed[o], i);
    }
  }

  /** Names found in valid labels and short enough are fields. */
  lemma NamesAddable(parsed: seq<Pairs>, names: Table<()>)
    requires TextOk(parsed) && Sorted(names) && forall x :: Find(names, x).Some? <==> Named(parsed, |parsed|, x)
    ensures Addable(Order(names), [])
  {
    OrderFacts(names);
    var order := Order(names);
    forall i | 0 <= i < |order| ensures FieldOk(order[i]) {
      assert Find(names, order[i]).Some?;
      assert Named(parsed, |parsed|, order[i]);
      var o :| 0 <= o < |parsed| && InPairs(parsed[o], |parsed[o]|, order[i]);
      var k :| 0 <= k < |parsed[o]| && parsed[o][k].0 == order[i];
      assert Utf8(parsed[o][k].0);
    }
  }

  /** Chosen labels of interned, parsed series are well formed and represent them. */
  lemma ChosenOk(parsed: seq<Pairs>, width: nat, base: nat, size: nat, ls: Table<Values>)
    requires parsed != [] && TextOk(parsed) && Chosen(PartitionsOf(parsed), width, base, size, ls)
    ensures LabelsOk(|parsed|, ls)
    ensures forall i :: 0 <= i < |ls| ==> Partitioned(parsed, ls[i].0, |parsed|, ls[i].1)
  {
    forall i | 0 <= i < |ls| ensures LabelOk(|parsed|, ls[i]) && Partitioned(parsed, ls[i].0, |parsed|, ls[i].1) {
      assert PartitionsOf(parsed)(ls[i].0) == Partition(parsed, ls[i].0, |parsed|);
      PartitionFacts(parsed, ls[i].0, |parsed|);
      PartitionOk(parsed, ls[i].0, ls[i].1);
    }
  }

  /** The labels chosen from all the names short enough, tried in their order, while the text bound allows. */
  ghost predicate IsChosen(parsed: seq<Pairs>, base: nat, ls: Table<Values>) {
    exists names: Table<()> ::
      && Sorted(names) && (forall x :: Find(names, x).Some? <==> Named(parsed, |parsed|, x))
      && ls == Choose(PartitionsOf(parsed), Width(|parsed|), Order(names), base, []).0
  }

  /** The labels of an index that fits the text bound. */
  method BuildLabels(parsed: seq<Pairs>, base: nat) returns (ls: Table<Values>)
    requires parsed != [] && TextOk(parsed) && base <= MAX_RAW
    ensures |ls| <= MAX_LABELS && LabelsOk(|parsed|, ls) && base + LabelsSize(ls, Width(|parsed|)) <= MAX_RAW
    ensures forall i :: 0 <= i < |ls| ==> Partitioned(parsed, ls[i].0, |parsed|, ls[i].1)
    ensures IsChosen(parsed, base, ls)
  {
    var names := CollectNames(parsed);
    NamesAddable(parsed, names);
    ls := ChooseLabels(parsed, Order(names), base);
    ghost var part, width := PartitionsOf(parsed), Width(|parsed|);
    ChooseFacts(part, width, Order(names), base, base, []);
    ChosenOk(parsed, width, base, Choose(part, width, Order(names), base, []).1, ls);
  }

  lemma BaseBounded(groups: nat, series: nat)
    requires groups <= MAX_GROUPS && series <= MAX_SERIES
    ensures BaseSize(groups, series) <= MAX_RAW
  {
    MulMono(groups, MAX_GROUPS, 4 + Width(series));
  }

  /** Few enough rows, groups and distinct label sets, all of them readable. */
  ghost predicate Buildable(rows: seq<Row>, size: nat) {
    && rows != [] && |rows| <= MAX_ROWS && size > 0 && Ceil(|rows|, size) <= MAX_GROUPS && Intern(rows).Some?
    && forall o :: 0 <= o < |Intern(rows).value.series| ==> SeriesPairs(Intern(rows).value.series[o]).Some?
  }

  /**
   `build`: the text of a well-formed index of the rows, at most 65,536 characters long, exactly when the
   rows can be indexed and some label fits. The ghost results are what the text parses to and why it
   describes the rows.
   */
  method Build(rows: seq<Row>, size: nat, hash: Hash)
    returns (r: Option<string>, ghost x: Index, ghost d: Dictionary, ghost parsed: seq<Pairs>)
    requires SharedOk(rows)
    ensures r.Some? ==>
              && WellFormed(x) && Represents(x, rows, size, d, parsed)
              && r.value == EncodeText(STORED, hash, x) && |r.value| <= MAX_TEXT
              && ParseText(STORED, hash, r.value) == Some(x)
    ensures !Buildable(rows, size) ==> r.None?
    ensures Buildable(rows, size) ==>
              && d == Intern(rows).value && ParsedAs(d.series, parsed)
              && IsChosen(parsed, BaseSize(Ceil(|rows|, size), |d.series|), x.labels) && (r.Some? <==> x.labels != [])
  {
    hide IsChosen, Intern, SeriesPairs, WellFormed, Represents, ParsedAs, EncodeText, ParseText;
    x, d, parsed := Index(0, 0, [], []), Dictionary([], [], 0, 0), [];
    if rows == [] || |rows| > MAX_ROWS || size == 0 || Ceil(|rows|, size) > MAX_GROUPS {
      return None, x, d, parsed;
    }
    var dictionary := BuildDictionary(rows);
    if dictionary.None? {
      return None, x, d, parsed;
    }
    d := dictionary.value;
    var pairs := ParseSeries(dictionary.value.series);
    if pairs.None? {
      return None, x, d, parsed;
    }
    parsed := pairs.value;
    AllParsed(d.series, parsed);
    var index := BuildIndex(rows, size, dictionary.value, pairs.value);
    x := index;
    if index.labels == [] {
      return None, x, d, parsed;
    }
    r := Some(EncodeText(STORED, hash, index));
    BuiltText(x, hash);
  }

  lemma AllParsed(series: seq<Bytes>, parsed: seq<Pairs>)
    requires ParsedAs(series, parsed)
    ensures forall o :: 0 <= o < |series| ==> SeriesPairs(series[o]).Some?
  {
    hide SeriesPairs;
    forall o | 0 <= o < |series| ensures SeriesPairs(series[o]).Some? {
      assert SeriesPairs(series[o]) == Some(parsed[o]);
    }
  }

  /** The index of interned rows whose label sets have been read. */
  method BuildIndex(rows: seq<Row>, size: nat, d: Dictionary, parsed: seq<Pairs>) returns (x: Index)
    requires SharedOk(rows) && rows != [] && |rows| <= MAX_ROWS && size > 0 && Ceil(|rows|, size) <= MAX_GROUPS
    requires Intern(rows) == Some(d) && ParsedAs(d.series, parsed)
    ensures IsChosen(parsed, BaseSize(Ceil(|rows|, size), |d.series|), x.labels)
    ensures BaseSize(|x.groups|, x.series) + LabelsSize(x.labels, Width(x.series)) <= MAX_RAW
    ensures Represents(x, rows, size, d, parsed) && (x.labels != [] ==> WellFormed(x))
  {
    hide IsChosen, Intern, SeriesPairs, Filled, LabelsSize, LabelsOk;
    InternFacts(rows);
    var series := |d.series|;
    var groups := BuildGroups(d.ordinals, series, size);
    FilledOk(groups, d, rows, size);
    ParsedText(d.series, parsed);
    assert d.ordinals[0] < series;
    BaseBounded(|groups|, series);
    var labels := BuildLabels(parsed, BaseSize(|groups|, series));
    LabelsSorted(|parsed|, labels);
    x := Index(series, |rows|, groups, labels);
  }

  lemma LabelsSorted(series: nat, ls: Table<Values>)
    requires LabelsOk(series, ls)
    ensures Sorted(ls)
  {
  }

  lemma BuiltText(x: Index, hash: Hash)
    requires WellFormed(x) && BaseSize(|x.groups|, x.series) + LabelsSize(x.labels, Width(x.series)) <= MAX_RAW
    ensures |EncodeText(STORED, hash, x)| <= MAX_TEXT && ParseText(STORED, hash, EncodeText(STORED, hash, x)) == Some(x)
  {
    StoredLaws();
    StoredSized();
    BodyLength(STORED, x);
    ParseEncoded(STORED, hash, x);
  }

  // ---- Candidate groups ------------------------------------------------------

  /** The matcher prunes: an equality on an indexed label. */
  predicate Used(x: Index, m: Matcher) {
    m.op.Eq? && Find(x.labels, m.name).Some?
  }

  predicate Picks(x: Index, m: Matcher, o: nat)
    requires Used(x, m)
  {
    var bits := Find(Find(x.labels, m.name).value, m.value);
    bits.Some? && Bit(bits.value, o)
  }

  /** Series `o` has the wanted value under every indexed label compared for equality. */
  ghost predicate Selected(x: Index, ms: seq<Matcher>, n: nat, o: nat)
    requires n <= |ms|
  {
    o < x.series && forall i :: 0 <= i < n && Used(x, ms[i]) ==> Picks(x, ms[i], o)
  }

  ghost predicate Kept(x: Index, ms: seq<Matcher>, g: nat)
    requires g < |x.groups|
  {
    exists o: nat :: Bit(x.groups[g].bits, o) && Selected(x, ms, |ms|, o)
  }

  lemma ValueFits(x: Index, name: Bytes, value: Bytes)
    requires WellFormed(x) && Find(x.labels, name).Some? && Find(Find(x.labels, name).value, value).Some?
    ensures Fits(Find(Find(x.labels, name).value, value).value, x.series)
  {
    var i := FindIndex(x.labels, name);
    assert LabelOk(x.series, x.labels[i]);
    var k := FindIndex(x.labels[i].1, value);
    assert ValueOk(x.series, x.labels[i].1[k]);
  }

  /** `Index::candidates`: a group stays when one of its series is selected; None when no matcher prunes. */
  method Candidates(x: Index, ms: seq<Matcher>) returns (r: Option<seq<bool>>)
    requires WellFormed(x)
    ensures r.Some? <==> exists i :: 0 <= i < |ms| && Used(x, ms[i])
    ensures r.Some? ==> |r.value| == |x.groups| && forall g :: 0 <= g < |x.groups| ==> (r.value[g] <==> Kept(x, ms, g))
  {
    var selected := Universe(x.series);
    var used := false;
    for i := 0 to |ms|
      invariant Fits(selected, x.series)
      invariant forall o: nat :: Bit(selected, o) <==> Selected(x, ms, i, o)
      invariant used <==> exists k :: 0 <= k < i && Used(x, ms[k])
    {
      var m := ms[i];
      ghost var before := selected;
      if Used(x, m) {
        used := true;
        var bits := Find(Find(x.labels, m.name).value, m.value);
        if bits.Some? {
          ValueFits(x, m.name, m.value);
          selected := And(selected, bits.value);
        } else {
          selected := Zeros(x.series);
        }
      }
      forall o: nat ensures Bit(selected, o) <==> Selected(x, ms, i + 1, o) {
        assert Bit(before, o) <==> Selected(x, ms, i, o);
        assert Selected(x, ms, i + 1, o) <==> Selected(x, ms, i, o) && (Used(x, m) ==> Picks(x, m, o));
      }
    }
    if !used {
      return None;
    }
    forall g | 0 <= g < |x.groups|
      ensures |x.groups[g].bits| == |selected| { assert GroupOk(x.series, x.rows, x.groups[g]); }
    r := Some(seq(|x.groups|, g requires 0 <= g < |x.groups| => Meets(x.groups[g].bits, selected)));
    forall g | 0 <= g < |x.groups| ensures r.value[g] <==> Kept(x, ms, g) {
      var bits := x.groups[g].bits;
      if Meets(bits, selected) {
        var o :| 0 <= o < |bits| && bits[o] && selected[o];
        assert Bit(bits, o) && Bit(selected, o);
      }
      if Kept(x, ms, g) {
        var o: nat :| Bit(bits, o) && Selected(x, ms, |ms|, o);
        assert Bit(selected, o);
      }
    }
  }

  /** An equality matcher accepts exactly the labels that read as its value. */
  lemma EqMatches(pairs: Pairs, m: Matcher)
    requires m.op.Eq?
    ensures MatchesOne(pairs, m) <==> ValueOf(pairs, m.name) == m.value
  {
  }

  /** A pruning matcher picks exactly the series it matches. */
  lemma PicksMatching(x: Index, rows: seq<Row>, size: nat, d: Dictionary, parsed: seq<Pairs>, m: Matcher, o: nat)
    requires Represents(x, rows, size, d, parsed) && Used(x, m) && o < x.series
    ensures Picks(x, m, o) <==> MatchesOne(parsed[o], m)
  {
    EqMatches(parsed[o], m);
    var i := FindIndex(x.labels, m.name);
    var vs := x.labels[i].1;
    assert Partitioned(parsed, m.name, |parsed|, vs);
    if Find(vs, m.value).Some? {
      assert Marks(parsed, m.name, |parsed|, m.value, Find(vs, m.value).value);
    }
  }

  /** The labels of a row match. */
  ghost predicate RowMatches(rows: seq<Row>, r: nat, ms: seq<Matcher>)
    requires r < |rows|
  {
    var pairs := Canonical.Parse(rows[r].canonical);
    pairs.Some? && Matches(pairs.value, ms)
  }

  lemma RowLabels(x: Index, rows: seq<Row>, size: nat, d: Dictionary, parsed: seq<Pairs>, r: nat)
    requires Represents(x, rows, size, d, parsed) && r < |rows|
    ensures d.ordinals[r] < |parsed| && Canonical.Parse(rows[r].canonical) == Some(parsed[d.ordinals[r]])
    ensures BySize(size)(r) < |x.groups| && Bit(x.groups[BySize(size)(r)].bits, d.ordinals[r])
  {
    assert SeriesPairs(d.series[d.ordinals[r]]) == Some(parsed[d.ordinals[r]]);
    InRange(r, |rows|, size);
    assert Placed(d.ordinals, |rows|, BySize(size), BySize(size)(r), d.ordinals[r]);
  }

  /** No group holding a row whose labels match is excluded. */
  lemma NoMatchExcluded(x: Index, rows: seq<Row>, size: nat, d: Dictionary, parsed: seq<Pairs>, ms: seq<Matcher>,
                        r: nat)
    requires Represents(x, rows, size, d, parsed) && r < |rows| && RowMatches(rows, r, ms)
    ensures BySize(size)(r) < |x.groups| && Kept(x, ms, BySize(size)(r))
  {
    RowLabels(x, rows, size, d, parsed, r);
    var o := d.ordinals[r];
    forall i | 0 <= i < |ms| && Used(x, ms[i]) ensures Picks(x, ms[i], o) {
      PicksMatching(x, rows, size, d, parsed, ms[i], o);
      assert MatchesOne(parsed[o], ms[i]);
    }
    assert Selected(x, ms, |ms|, o);
  }

  /** When every matcher is an equality on an indexed label, exactly the groups with a matching row are kept. */
  lemma KeptExactly(x: Index, rows: seq<Row>, size: nat, d: Dictionary, parsed: seq<Pairs>, ms: seq<Matcher>, g: nat)
    requires Represents(x, rows, size, d, parsed) && g < |x.groups|
    requires forall i :: 0 <= i < |ms| ==> Used(x, ms[i])
    ensures Kept(x, ms, g) <==> exists r: nat :: r < |rows| && BySize(size)(r) == g && RowMatches(rows, r, ms)
  {
    if Kept(x, ms, g) {
      var o: nat :| Bit(x.groups[g].bits, o) && Selected(x, ms, |ms|, o);
      assert Placed(d.ordinals, |rows|, BySize(size), g, o);
      var r: nat :| r < |rows| && BySize(size)(r) == g && d.ordinals[r] == o;
      RowLabels(x, rows, size, d, parsed, r);
      forall i | 0 <= i < |ms| ensures MatchesOne(parsed[o], ms[i]) {
        assert Picks(x, ms[i], o);
        PicksMatching(x, rows, size, d, parsed, ms[i], o);
      }
      assert RowMatches(rows, r, ms);
    }
    if r: nat :| r < |rows| && BySize(size)(r) == g && RowMatches(rows, r, ms) {
      NoMatchExcluded(x, rows, size, d, parsed, ms, r);
    }
  }

  // ---- Surviving row groups --------------------------------------------------

  /** Declared bounds of a group's timestamps; either may be missing. */
  datatype Stats = Stats(min: Option<int>, max: Option<int>)

  /** What a reader knows of a file: rows per group, the values stored under the index key, and timestamp statistics. */
  datatype Meta = Meta(groupRows: seq<nat>, entries: seq<Option<string>>, stats: seq<Option<Stats>>)

  function Sum(ns: seq<nat>): nat {
    if ns == [] then 0 else Sum(ns[..|ns| - 1]) + ns[|ns| - 1]
  }

  predicate HasEq(ms: seq<Matcher>) {
    exists i :: 0 <= i < |ms| && ms[i].op.Eq?
  }

  /** The index describes this file: totals and per-group row counts agree. */
  predicate Agrees(meta: Meta, x: Index) {
    Sum(meta.groupRows) == x.rows
    && meta.groupRows == seq(|x.groups|, g requires 0 <= g < |x.groups| => x.groups[g].rows)
  }

  /** The index a reader may use: the only one stored, well formed, and about this file. */
  ghost function UsableIndex(meta: Meta, hash: Hash): Option<Index> {
    if |meta.entries| != 1 || meta.entries[0].None? then None
    else
      var x :- ParseText(STORED, hash, meta.entries[0].value);
      if Agrees(meta, x) then Some(x) else None
  }

  method CandidateGroups(meta: Meta, hash: Hash, ms: seq<Matcher>) returns (r: Option<seq<bool>>)
    ensures r.Some? ==>
              var x := UsableIndex(meta, hash);
              && x.Some? && |r.value| == |x.value.groups| == |meta.groupRows|
              && forall g :: 0 <= g < |r.value| ==> (r.value[g] <==> Kept(x.value, ms, g))
    ensures r.Some? <==>
            UsableIndex(meta, hash).Some? && exists i :: 0 <= i < |ms| && Used(UsableIndex(meta, hash).value, ms[i])
  {
    if !HasEq(ms) || |meta.entries| != 1 || meta.entries[0].None? {
      return None;
    }
    var x := PostingsText.Parse(STORED, hash, meta.entries[0].value);
    if x.None? || !Agrees(meta, x.value) {
      return None;
    }
    r := Candidates(x.value, ms);
  }

  /** `row_group_matches_time`: missing statistics keep the group. */
  predicate TimeMayMatch(stats: Option<Stats>, start: Option<int>, end: Option<int>) {
    stats.None? ||
    (!(start.Some? && stats.value.max.Some? && stats.value.max.value < start.value) &&
     !(end.Some? && stats.value.min.Some? && stats.value.min.value > end.value))
  }

  predicate TimePasses(ts: int, start: Option<int>, end: Option<int>) {
    (start.Some? ==> start.value <= ts) && (end.Some? ==> ts <= end.value)
  }

  /** A group survives when its statistics may match and no usable, pruning index excludes it. */
  ghost predicate Survives(meta: Meta, usable: Option<Index>, ms: seq<Matcher>, start: Option<int>, end: Option<int>,
                           g: nat)
    requires g < |meta.stats| && (usable.Some? ==> g < |usable.value.groups|)
  {
    && TimeMayMatch(meta.stats[g], start, end)
    && (usable.Some? && (exists i :: 0 <= i < |ms| && Used(usable.value, ms[i])) ==> Kept(usable.value, ms, g))
  }

  method SurvivingRowGroups(meta: Meta, hash: Hash, ms: seq<Matcher>, start: Option<int>, end: Option<int>)
    returns (r: seq<nat>)
    requires |meta.stats| == |meta.groupRows|
    ensures forall g: nat :: g < |meta.stats| ==>
              (g in r <==> Survives(meta, UsableIndex(meta, hash), ms, start, end, g))
    ensures forall g :: g in r ==> g < |meta.stats|
  {
    var postings := CandidateGroups(meta, hash, ms);
    var timeFilter := start.Some? || end.Some?;
    r := [];
    for g := 0 to |meta.groupRows|
      invariant forall k: nat :: k in r <==>
                                 && k < g && TimeMayMatch(meta.stats[k], start, end)
                                 && (postings.Some? ==> postings.value[k])
    {
      if (postings.None? || postings.value[g]) && (!timeFilter || TimeMayMatch(meta.stats[g], start, end)) {
        r := r + [g];
      }
    }
  }

  /** Statistics that bound the timestamps of their groups' rows. */
  ghost predicate StatsSound(stats: seq<Option<Stats>>, times: seq<int>, at: GroupOf) {
    forall r: nat :: r < |times| && at(r) < |stats| && stats[at(r)].Some? ==>
                       var s := stats[at(r)].value;
                       (s.min.Some? ==> s.min.value <= times[r]) && (s.max.Some? ==> times[r] <= s.max.value)
  }

  lemma TimeKept(stats: seq<Option<Stats>>, times: seq<int>, at: GroupOf, start: Option<int>, end: Option<int>, r: nat)
    requires StatsSound(stats, times, at) && r < |times| && at(r) < |stats| && TimePasses(times[r], start, end)
    ensures TimeMayMatch(stats[at(r)], start, end)
  {
  }

  lemma UsableIs(meta: Meta, hash: Hash, text: string, x: Index)
    requires meta.entries == [Some(text)] && ParseText(STORED, hash, text) == Some(x)
    ensures UsableIndex(meta, hash) == if Agrees(meta, x) then Some(x) else None
  {
  }

  /** A passing row's group survives the index of its rows and sound statistics. */
  lemma PassingRowSurvives(usable: Option<Index>, rows: seq<Row>, size: nat, d: Dictionary, parsed: seq<Pairs>,
                           times: seq<int>, meta: Meta, ms: seq<Matcher>, start: Option<int>, end: Option<int>, r: nat)
    requires |times| == |rows| && r < |rows| && size > 0 && |meta.stats| == Ceil(|rows|, size)
    requires usable.Some? ==> Represents(usable.value, rows, size, d, parsed)
    requires StatsSound(meta.stats, times, BySize(size))
    requires RowMatches(rows, r, ms) && TimePasses(times[r], start, end)
    ensures BySize(size)(r) < |meta.stats| && (usable.Some? ==> BySize(size)(r) < |usable.value.groups|)
    ensures Survives(meta, usable, ms, start, end, BySize(size)(r))
  {
    InRange(r, |rows|, size);
    TimeKept(meta.stats, times, BySize(size), start, end, r);
    if usable.Some? {
      NoMatchExcluded(usable.value, rows, size, d, parsed, ms, r);
    }
  }

  /**
   Writing rows with their index and then pruning by the stored text and by sound statistics
   loses no row that passes the label matchers and the time range.
   */
  method WriteThenPrune(rows: seq<Row>, ghost times: seq<int>, size: nat, groupRows: seq<nat>,
                        stats: seq<Option<Stats>>, hash: Hash, ms: seq<Matcher>, start: Option<int>, end: Option<int>)
    returns (groups: seq<nat>)
    requires SharedOk(rows) && |times| == |rows| && size > 0
    requires |groupRows| == |stats| == Ceil(|rows|, size) && StatsSound(stats, times, BySize(size))
    ensures forall r: nat ::
              r < |rows| && RowMatches(rows, r, ms) && TimePasses(times[r], start, end) ==> BySize(size)(r) in groups
  {
    var text, x, d, parsed := Build(rows, size, hash);
    var meta := Meta(groupRows, if text.Some? then [Some(text.value)] else [], stats);
    if text.Some? { UsableIs(meta, hash, text.value, x); }
    groups := SurvivingRowGroups(meta, hash, ms, start, end);
    ghost var usable := UsableIndex(meta, hash);
    forall r: nat | r < |rows| && RowMatches(rows, r, ms) && TimePasses(times[r], start, end)
      ensures BySize(size)(r) in groups
    {
      PassingRowSurvives(usable, rows, size, d, parsed, times, meta, ms, start, end, r);
    }
  }
}
