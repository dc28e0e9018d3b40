/** What stored rollups say about the lines behind them, one by one and merged. */
module RollupMerge {
  import opened Grid
  import opened RollupBuilder
  import T = Tally

  datatype Field = Count | Bytes | TracedLines

  function Get(f: Field, c: Cell): int {
    match f
    case Count => c.count
    case Bytes => c.bytes
    case TracedLines => c.traced
  }

  lemma CellsEqual(a: Cell, b: Cell)
    requires forall f :: Get(f, a) == Get(f, b)
    ensures a == b
  {
    assert Get(Count, a) == Get(Count, b) && Get(Bytes, a) == Get(Bytes, b)
           && Get(TracedLines, a) == Get(TracedLines, b);
  }

  function KeyOf<S>(x: Row<S>): (int, S) {
    x.key
  }

  function Held<S>(f: Field): Row<S> -> int {
    (x: Row<S>) => Get(f, x.value)
  }

  /** A field summed over the items whose key is chosen. */
  function Summed<S>(items: seq<Row<S>>, chosen: ((int, S)) -> bool, f: Field): int {
    T.Sum(items, (x: Row<S>) => chosen(x.key), Held(f))
  }

  lemma {:induction false} TotalIsSum<S(!new)>(items: seq<Row<S>>, k: (int, S), f: Field)
    ensures Get(f, Total(CELLS, ZERO, items, k)) == T.SumAt(items, KeyOf, Held(f), k)
    decreases |items|
  {
    if items != [] {
      var n := |items| - 1;
      TotalIsSum(items[..n], k, f);
      assert items == items[..n] + [items[n]];
      T.SumAtSnoc(items[..n], items[n], KeyOf, Held(f), k);
    }
  }

  /** Cells built from nothing: each key's sums, and a key exactly when mentioned. */
  lemma BuiltAt<S(!new)>(items: seq<Row<S>>, k: (int, S), f: Field)
    ensures k in AddAll(CELLS, map[], items) <==> Mentions(items, k)
    ensures Get(f, At(CELLS, AddAll(CELLS, map[], items), k)) == T.SumAt(items, KeyOf, Held(f), k)
  {
    var none: map<(int, S), Cell> := map[];
    AddAllAt(CELLS, none, items, k);
    TotalIsSum(items, k, f);
  }

  /** A stored rollup answers every sum over buckets and streams as the lines do. */
  lemma RowsAnswer<S(!new)>(rows: seq<Row<S>>, items: seq<Row<S>>, chosen: ((int, S)) -> bool, f: Field)
    requires Lists(rows, AddAll(CELLS, map[], items))
    ensures Summed(rows, chosen, f) == Summed(items, chosen, f)
  {
    var key: Row<S> -> (int, S) := KeyOf;
    var view: map<(int, S), Cell> := AddAll(CELLS, map[], items);
    forall i | 0 <= i < |rows| ensures Held<S>(f)(rows[i]) == T.SumAt(items, key, Held(f), key(rows[i])) {
      BuiltAt(items, rows[i].key, f);
      assert At(CELLS, view, rows[i].key) == rows[i].value;
    }
    forall i | 0 <= i < |items| ensures T.Any(rows, r => key(r) == key(items[i])) {
      BuiltAt(items, items[i].key, f);
      assert Mentions(rows, items[i].key);
    }
    T.Answered(rows, items, key, key, Held(f), Held(f), chosen, (x: Row<S>) => chosen(x.key),
               (x: Row<S>) => chosen(x.key));
  }

  // ---- Merging rollups -------------------------------------------------------

  /** The rows a merge takes from each part. */
  function Taken<S>(range: Range, only: set<int>, parts: seq<seq<Row<S>>>): seq<Row<S>> {
    if parts == [] then []
    else Taken(range, only, parts[..|parts| - 1]) + Kept(range, only, parts[|parts| - 1])
  }

  /** What one part contributes to a key: everything its lines say, or nothing. */
  lemma PartAt<S(!new)>(range: Range, only: set<int>, rows: seq<Row<S>>, items: seq<Row<S>>, k: (int, S), f: Field)
    requires Lists(rows, AddAll(CELLS, map[], items))
    ensures T.SumAt(Kept(range, only, rows), KeyOf, Held(f), k) ==
            if Covers(range, only, k.0) then T.SumAt(items, KeyOf, Held(f), k) else 0
  {
    hide Covers, Lists;
    var chosen := (x: (int, S)) => Covers(range, only, x.0) && x == k;
    KeptAt(range, only, rows, k, f, chosen);
    RowsAnswer(rows, items, chosen, f);
    ChosenAt(items, k, f, chosen, Covers(range, only, k.0));
  }

  lemma KeptAt<S(!new)>(range: Range, only: set<int>, rows: seq<Row<S>>, k: (int, S), f: Field,
                        chosen: ((int, S)) -> bool)
    requires forall x :: chosen(x) == (Covers(range, only, x.0) && x == k)
    ensures T.SumAt(Kept(range, only, rows), KeyOf, Held(f), k) == Summed(rows, chosen, f)
  {
    hide Covers;
    var here := (x: Row<S>) => x.key == k;
    T.SumAtIs(Kept(range, only, rows), KeyOf, Held(f), k, here);
    T.SumWhere(rows, Covered(range, only), here, (x: Row<S>) => chosen(x.key), Held(f));
  }

  lemma ChosenAt<S(!new)>(items: seq<Row<S>>, k: (int, S), f: Field, chosen: ((int, S)) -> bool, covered: bool)
    requires forall x :: chosen(x) == ((x == k ==> covered) && x == k)
    ensures Summed(items, chosen, f) == if covered then T.SumAt(items, KeyOf, Held(f), k) else 0
  {
    var p := (x: Row<S>) => chosen(x.key);
    if covered {
      T.SumAtIs(items, KeyOf, Held(f), k, p);
    } else {
      T.SumNone(items, p, Held(f));
    }
  }

  lemma PartMentions<S(!new)>(range: Range, only: set<int>, rows: seq<Row<S>>, items: seq<Row<S>>, k: (int, S))
    requires Lists(rows, AddAll(CELLS, map[], items))
    ensures Mentions(Kept(range, only, rows), k) <==> Covers(range, only, k.0) && Mentions(items, k)
  {
    hide Covers;
    KeptMentions(range, only, rows, k);
    BuiltAt(items, k, Count);
  }

  lemma KeptMentions<S(!new)>(range: Range, only: set<int>, rows: seq<Row<S>>, k: (int, S))
    ensures Mentions(Kept(range, only, rows), k) <==> Covers(range, only, k.0) && Mentions(rows, k)
  {
    hide Covers;
    var p: Row<S> -> bool, here := Covered(range, only), (x: Row<S>) => x.key == k;
    var kept := Kept(range, only, rows);
    T.AnyWhere(rows, p, here);
    if Mentions(kept, k) {
      var i :| 0 <= i < |kept| && kept[i].key == k;
      assert here(kept[i]);
      var j :| 0 <= j < |rows| && p(rows[j]) && here(rows[j]);
    }
    if Covers(range, only, k.0) && Mentions(rows, k) {
      var i :| 0 <= i < |rows| && rows[i].key == k;
      assert p(rows[i]) && here(rows[i]);
      var j :| 0 <= j < |kept| && here(kept[j]);
    }
  }

  ghost predicate AllList<S(!new)>(rows: seq<seq<Row<S>>>, items: seq<seq<Row<S>>>) {
    |rows| == |items| && forall i :: 0 <= i < |rows| ==> Lists(rows[i], AddAll(CELLS, map[], items[i]))
  }

  lemma MentionsConcat<S(!new)>(a: seq<Row<S>>, b: seq<Row<S>>, k: (int, S))
    ensures Mentions(a + b, k) <==> Mentions(a, k) || Mentions(b, k)
  {
    if Mentions(a, k) {
      var i :| 0 <= i < |a| && a[i].key == k;
      assert (a + b)[i] == a[i];
    }
    if Mentions(b, k) {
      var i :| 0 <= i < |b| && b[i].key == k;
      assert (a + b)[|a| + i] == b[i];
    }
  }

  lemma {:induction false} TakenAt<S(!new)>(range: Range, only: set<int>, rows: seq<seq<Row<S>>>,
                                            items: seq<seq<Row<S>>>, k: (int, S), f: Field)
    requires AllList(rows, items)
    ensures T.SumAt(Taken(range, only, rows), KeyOf, Held(f), k) ==
            if Covers(range, only, k.0) then T.SumAt(T.Flat(items), KeyOf, Held(f), k) else 0
    ensures Mentions(Taken(range, only, rows), k) <==> Covers(range, only, k.0) && Mentions(T.Flat(items), k)
    decreases |rows|
  {
    hide Covers, Lists;
    if rows != [] {
      var n := |rows| - 1;
      TakenAt(range, only, rows[..n], items[..n], k, f);
      PartAt(range, only, rows[n], items[n], k, f);
      PartMentions(range, only, rows[n], items[n], k);
      T.SumAtConcat(Taken(range, only, rows[..n]), Kept(range, only, rows[n]), KeyOf, Held(f), k);
      T.SumAtConcat(T.Flat(items[..n]), items[n], KeyOf, Held(f), k);
      MentionsConcat(Taken(range, only, rows[..n]), Kept(range, only, rows[n]), k);
      MentionsConcat(T.Flat(items[..n]), items[n], k);
    }
  }

  /**
   * Merging the rollups of any parts gives the rollup of all their lines,
   * restricted to the covered buckets: same cells, same counts, nothing else.
   */
  lemma MergeIsWhole<S(!new)>(range: Range, only: set<int>, rows: seq<seq<Row<S>>>, items: seq<seq<Row<S>>>)
    requires AllList(rows, items)
    ensures var merged: map<(int, S), Cell> := AddAll(CELLS, map[], Taken(range, only, rows));
            var whole: map<(int, S), Cell> := AddAll(CELLS, map[], T.Flat(items));
            merged == map k | k in whole && Covers(range, only, k.0) :: whole[k]
  {
    hide Covers, Lists;
    var merged: map<(int, S), Cell> := AddAll(CELLS, map[], Taken(range, only, rows));
    var whole: map<(int, S), Cell> := AddAll(CELLS, map[], T.Flat(items));
    forall k: (int, S)
      ensures k in merged <==> k in whole && Covers(range, only, k.0)
      ensures k in merged ==> merged[k] == whole[k]
    {
      MergedAt(range, only, rows, items, k);
    }
  }

  lemma MergedAt<S(!new)>(range: Range, only: set<int>, rows: seq<seq<Row<S>>>, items: seq<seq<Row<S>>>, k: (int, S))
    requires AllList(rows, items)
    ensures var merged: map<(int, S), Cell> := AddAll(CELLS, map[], Taken(range, only, rows));
            var whole: map<(int, S), Cell> := AddAll(CELLS, map[], T.Flat(items));
            && (k in merged <==> k in whole && Covers(range, only, k.0))
            && (k in merged ==> merged[k] == whole[k])
  {
    hide Covers, Lists;
    var merged: map<(int, S), Cell> := AddAll(CELLS, map[], Taken(range, only, rows));
    var whole: map<(int, S), Cell> := AddAll(CELLS, map[], T.Flat(items));
    TakenAt(range, only, rows, items, k, Count);
    BuiltAt(Taken(range, only, rows), k, Count);
    BuiltAt(T.Flat(items), k, Count);
    if k in merged {
      forall f ensures Get(f, merged[k]) == Get(f, whole[k]) {
        TakenAt(range, only, rows, items, k, f);
        BuiltAt(Taken(range, only, rows), k, f);
        BuiltAt(T.Flat(items), k, f);
      }
      CellsEqual(merged[k], whole[k]);
    }
  }

  // ---- Building at once, or by parts -----------------------------------------

  lemma {:induction false} ItemsConcat<L, S>(c: Columns<L, S>, a: seq<L>, b: seq<L>)
    ensures Items(c, a + b) == Items(c, a) + Items(c, b)
    decreases |b|
  {
    if b == [] {
      assert a + b == a;
    } else {
      var n := |b| - 1;
      assert (a + b)[..|a + b| - 1] == a + b[..n];
      ItemsConcat(c, a, b[..n]);
    }
  }

  lemma AddedMore<L(!new), S(!new)>(c: Columns<L, S>, native: S -> bool, was: map<(int, S), Cell>, a: seq<L>,
                                    now: map<(int, S), Cell>, m: nat, b: seq<L>, after: map<(int, S), Cell>, n: nat)
    requires TakenIn(c, native, was, a, now, m) && TakenIn(c, native, now, b, after, n)
    ensures TakenIn(c, native, was, a + b, after, m + n)
  {
    hide AddAll, Items, Storable;
    ItemsConcat(c, a, b);
    AddAllConcat(CELLS, was, Items(c, a), Items(c, b));
  }

  /** What a builder refuses of more lines after some it took, it refuses of all of them. */
  lemma RefusedLater<L(!new), S(!new)>(c: Columns<L, S>, native: S -> bool, was: map<(int, S), Cell>, a: seq<L>,
                                       b: seq<L>, i: nat, e: RollupError)
    requires AllStorable(c, native, a) && Refused(c, native, AddAll(CELLS, was, Items(c, a)), b, i, e)
    ensures Refused(c, native, was, a + b, |a| + i, e)
  {
    hide AddAll, Items, AllStorable, Refused;
    var now, k := AddAll(CELLS, was, Items(c, a)), |a| + i;
    StorableUpto(c, native, now, a, b, i, e);
    CellsUpto(c, was, a, b, i, k);
    CellsUpto(c, was, a, b, i + 1, k + 1);
    RefusedAt(c, native, was, a + b, k, now, b, i, e);
  }

  lemma StorableUpto<L(!new), S(!new)>(c: Columns<L, S>, native: S -> bool, now: map<(int, S), Cell>, a: seq<L>,
                                       b: seq<L>, i: nat, e: RollupError)
    requires AllStorable(c, native, a) && Refused(c, native, now, b, i, e)
    ensures i < |b| && (a + b)[|a| + i] == b[i]
    ensures forall j :: 0 <= j < |a| + i && c.counted((a + b)[j]) ==> Storable(c, native, (a + b)[j])
  {
    hide Storable, AddAll, Items;
    forall j | 0 <= j < |a| + i && c.counted((a + b)[j]) ensures Storable(c, native, (a + b)[j]) {
      if j < |a| { assert a[j] in a; } else { assert (a + b)[j] == b[j - |a|]; }
    }
  }

  lemma RefusedAt<L(!new), S(!new)>(c: Columns<L, S>, native: S -> bool, was: map<(int, S), Cell>, lines: seq<L>,
                                    k: nat, now: map<(int, S), Cell>, b: seq<L>, i: nat, e: RollupError)
    requires Refused(c, native, now, b, i, e) && k < |lines| && lines[k] == b[i]
    requires forall j :: 0 <= j < k && c.counted(lines[j]) ==> Storable(c, native, lines[j])
    requires AddAll(CELLS, was, Items(c, lines[..k])) == AddAll(CELLS, now, Items(c, b[..i]))
    requires AddAll(CELLS, was, Items(c, lines[..k + 1])) == AddAll(CELLS, now, Items(c, b[..i + 1]))
    ensures Refused(c, native, was, lines, k, e)
  {
    hide AddAll, Items, Storable;
  }

  lemma CellsUpto<L(!new), S(!new)>(c: Columns<L, S>, was: map<(int, S), Cell>, a: seq<L>, b: seq<L>, i: nat,
                                    k: nat)
    requires i <= |b| && k == |a| + i
    ensures AddAll(CELLS, was, Items(c, (a + b)[..k])) ==
            AddAll(CELLS, AddAll(CELLS, was, Items(c, a)), Items(c, b[..i]))
  {
    hide AddAll, Items;
    assert (a + b)[..k] == a + b[..i];
    ItemsConcat(c, a, b[..i]);
    AddAllConcat(CELLS, was, Items(c, a), Items(c, b[..i]));
  }

  lemma RefusedStill<L(!new), S(!new)>(c: Columns<L, S>, native: S -> bool, was: map<(int, S), Cell>, a: seq<L>,
                                       b: seq<L>, i: nat, e: RollupError)
    requires Refused(c, native, was, a, i, e)
    ensures Refused(c, native, was, a + b, i, e)
  {
    hide AddAll, Items, Storable;
    assert (a + b)[..i] == a[..i] && (a + b)[..i + 1] == a[..i + 1];
  }

  /** `whole` counts the lines `part` counts whose items are kept. */
  ghost predicate Narrows<L, S>(whole: Columns<L, S>, part: Columns<L, S>, keep: Row<S> -> bool, lines: seq<L>) {
    forall i :: 0 <= i < |lines| ==>
      && whole.counted(lines[i]) == (part.counted(lines[i]) && keep(ItemOf(part, lines[i])))
      && ItemOf(whole, lines[i]) == ItemOf(part, lines[i])
  }

  lemma {:induction false} ItemsNarrow<L, S>(whole: Columns<L, S>, part: Columns<L, S>, keep: Row<S> -> bool,
                                             lines: seq<L>)
    requires Narrows(whole, part, keep, lines)
    ensures Items(whole, lines) == T.Where(Items(part, lines), keep)
    decreases |lines|
  {
    if lines != [] {
      var n := |lines| - 1;
      assert forall i :: 0 <= i < n ==> lines[..n][i] == lines[i];
      ItemsNarrow(whole, part, keep, lines[..n]);
      var x := ItemOf(part, lines[n]);
      assert [x][..0] == [];
      assert T.Where([x], keep) == if keep(x) then [x] else [];
      if part.counted(lines[n]) {
        T.WhereConcat(Items(part, lines[..n]), [x], keep);
      } else {
        assert Items(part, lines) == Items(part, lines[..n]) && Items(whole, lines) == Items(whole, lines[..n]);
      }
    }
  }

  function PartItems<L, S>(columns: seq<Columns<L, S>>, lines: seq<seq<L>>): seq<seq<Row<S>>>
    requires |columns| == |lines|
  {
    seq(|lines|, i requires 0 <= i < |lines| => Items(columns[i], lines[i]))
  }

  lemma {:induction false} PartsNarrow<L, S>(whole: Columns<L, S>, columns: seq<Columns<L, S>>, keep: Row<S> -> bool,
                                             lines: seq<seq<L>>)
    requires |columns| == |lines| && forall i :: 0 <= i < |lines| ==> Narrows(whole, columns[i], keep, lines[i])
    ensures Items(whole, T.Flat(lines)) == T.Where(T.Flat(PartItems(columns, lines)), keep)
    decreases |lines|
  {
    hide Narrows;
    if lines != [] {
      var n := |lines| - 1;
      var items := PartItems(columns, lines);
      assert items[..n] == PartItems(columns[..n], lines[..n]);
      PartsNarrow(whole, columns[..n], keep, lines[..n]);
      ItemsNarrow(whole, columns[n], keep, lines[n]);
      ItemsConcat(whole, T.Flat(lines[..n]), lines[n]);
      T.WhereConcat(T.Flat(items[..n]), items[n], keep);
    }
  }

  /** Keeping the covered items keeps the covered cells. */
  lemma WhereRestricts<S(!new)>(range: Range, only: set<int>, items: seq<Row<S>>)
    ensures var some: map<(int, S), Cell> := AddAll(CELLS, map[], Kept(range, only, items));
            var all: map<(int, S), Cell> := AddAll(CELLS, map[], items);
            some == map k | k in all && Covers(range, only, k.0) :: all[k]
  {
    hide Covers;
    var some: map<(int, S), Cell> := AddAll(CELLS, map[], Kept(range, only, items));
    var all: map<(int, S), Cell> := AddAll(CELLS, map[], items);
    forall k: (int, S)
      ensures k in some <==> k in all && Covers(range, only, k.0)
      ensures k in some ==> some[k] == all[k]
    {
      RestrictedAt(range, only, items, k);
    }
  }

  lemma RestrictedAt<S(!new)>(range: Range, only: set<int>, items: seq<Row<S>>, k: (int, S))
    ensures var some: map<(int, S), Cell> := AddAll(CELLS, map[], Kept(range, only, items));
            var all: map<(int, S), Cell> := AddAll(CELLS, map[], items);
            && (k in some <==> k in all && Covers(range, only, k.0))
            && (k in some ==> some[k] == all[k])
  {
    hide Covers;
    var some: map<(int, S), Cell> := AddAll(CELLS, map[], Kept(range, only, items));
    var all: map<(int, S), Cell> := AddAll(CELLS, map[], items);
    KeptMentions(range, only, items, k);
    BuiltAt(items, k, Count);
    BuiltAt(Kept(range, only, items), k, Count);
    if k in some {
      forall f ensures Get(f, some[k]) == Get(f, all[k]) {
        var chosen := (x: (int, S)) => Covers(range, only, x.0) && x == k;
        KeptAt(range, only, items, k, f, chosen);
        ChosenAt(items, k, f, chosen, Covers(range, only, k.0));
        BuiltAt(items, k, f);
        BuiltAt(Kept(range, only, items), k, f);
      }
      CellsEqual(some[k], all[k]);
    }
  }

  /**
   * A rollup built at once is the merge of rollups built by parts, whenever
   * the builder counts just the lines the parts count in covered buckets.
   */
  lemma BuiltByParts<L, S(!new)>(range: Range, only: set<int>, whole: Columns<L, S>, columns: seq<Columns<L, S>>,
                                 lines: seq<seq<L>>, rows: seq<seq<Row<S>>>)
    requires |columns| == |lines| && AllList(rows, PartItems(columns, lines))
    requires forall i :: 0 <= i < |lines| ==> Narrows(whole, columns[i], Covered(range, only), lines[i])
    ensures AddAll(CELLS, map[], Taken(range, only, rows)) == AddAll(CELLS, map[], Items(whole, T.Flat(lines)))
  {
    hide Covers, Lists, Narrows;
    var items := PartItems(columns, lines);
    MergeIsWhole(range, only, rows, items);
    PartsNarrow(whole, columns, Covered(range, only), lines);
    WhereRestricts(range, only, T.Flat(items));
  }
}
