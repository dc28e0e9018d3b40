/** Metric metadata discovery: `series_key`, `State::insert` and `State::observe` of metric_discovery.rs. */
module MetricDiscovery {
  import opened Prelude
  import opened Text
  import Canonical
  import opened Table

  type Pairs = Canonical.Pairs

  // ---- The order-preserving key ----------------------------------------------

  /** NUL is written as NUL 1. */
  function Escape(s: Bytes): Bytes {
    if s == [] then [] else (if s[0] == 0 then [0, 1] else [s[0]]) + Escape(s[1..])
  }

  /** A part ends with two NULs. */
  function Part(s: Bytes): Bytes {
    Escape(s) + [0, 0]
  }

  function Key(pairs: Pairs): Bytes {
    if pairs == [] then [] else Part(pairs[0].0) + Part(pairs[0].1) + Key(pairs[1..])
  }

  /** Lexicographic order of label sequences: by first name, then first value, then the rest. */
  predicate LabelsLess(p: Pairs, q: Pairs) {
    q != [] &&
    (p == [] || Less(p[0].0, q[0].0) ||
     (p[0].0 == q[0].0 && (Less(p[0].1, q[0].1) || (p[0].1 == q[0].1 && LabelsLess(p[1..], q[1..])))))
  }

  lemma PartHead(a: Bytes, x: Bytes)
    requires a != []
    ensures Part(a) + x == (if a[0] == 0 then [0, 1] else [a[0]]) + (Part(a[1..]) + x)
  {
  }

  /** Encoded parts compare like the parts, and equal parts leave the decision to what follows. */
  lemma {:induction false} PartOrder(a: Bytes, x: Bytes, b: Bytes, y: Bytes)
    ensures Less(Part(a) + x, Part(b) + y) <==> Less(a, b) || (a == b && Less(x, y))
    decreases |a|
  {
    var s, t := Part(a) + x, Part(b) + y;
    if a == [] && b == [] {
      assert s == [0, 0] + x && t == [0, 0] + y;
      LessPrefix([0, 0], x, y);
    } else if a == [] {
      PartHead(b, y);
      assert s == [0, 0] + x && s[1..][0] == 0;
      if b[0] == 0 { assert t[1..][0] == 1; }
    } else if b == [] {
      PartHead(a, x);
      assert t == [0, 0] + y && t[1..][0] == 0;
      if a[0] == 0 { assert s[1..][0] == 1; }
    } else {
      PartHead(a, x);
      PartHead(b, y);
      if a[0] == b[0] {
        var p: Bytes := if a[0] == 0 then [0, 1] else [a[0]];
        LessPrefix(p, Part(a[1..]) + x, Part(b[1..]) + y);
        PartOrder(a[1..], x, b[1..], y);
        assert a == [a[0]] + a[1..] && b == [b[0]] + b[1..];
      } else {
        assert s[0] == a[0] && t[0] == b[0];
      }
    }
  }

  lemma PairOrder(n: Bytes, v: Bytes, x: Bytes, m: Bytes, w: Bytes, y: Bytes)
    ensures Less(Part(n) + Part(v) + x, Part(m) + Part(w) + y) <==>
            Less(n, m) || (n == m && (Less(v, w) || (v == w && Less(x, y))))
  {
    assert Part(n) + Part(v) + x == Part(n) + (Part(v) + x) && Part(m) + Part(w) + y == Part(m) + (Part(w) + y);
    PartOrder(n, Part(v) + x, m, Part(w) + y);
    PartOrder(v, x, w, y);
  }

  /** The byte order of keys is the lexicographic order of label sequences, for arbitrary octets. */
  lemma {:induction false} KeyOrder(p: Pairs, q: Pairs)
    ensures Less(Key(p), Key(q)) <==> LabelsLess(p, q)
    decreases |p|
  {
    if p != [] && q != [] {
      PairOrder(p[0].0, p[0].1, Key(p[1..]), q[0].0, q[0].1, Key(q[1..]));
      KeyOrder(p[1..], q[1..]);
    } else if q != [] {
      assert |Key(q)| > 0;
    }
  }

  lemma {:induction false} LabelsTotal(p: Pairs, q: Pairs)
    ensures LabelsLess(p, q) || LabelsLess(q, p) || p == q
    decreases |p|
  {
    if p != [] && q != [] {
      Trichotomy(p[0].0, q[0].0);
      Trichotomy(p[0].1, q[0].1);
      LabelsTotal(p[1..], q[1..]);
      assert p == [p[0]] + p[1..] && q == [q[0]] + q[1..];
    }
  }

  /** Different label sequences have different keys. */
  lemma KeyInjective(p: Pairs, q: Pairs)
    requires Key(p) == Key(q)
    ensures p == q
  {
    LabelsTotal(p, q);
    KeyOrder(p, q);
    KeyOrder(q, p);
    Trichotomy(Key(p), Key(q));
  }

  method SeriesKey(pairs: Pairs) returns (key: Bytes)
    ensures key == Key(pairs)
  {
    key := [];
    for i := 0 to |pairs|
      invariant key + Key(pairs[i..]) == Key(pairs)
    {
      KeyStep(key, pairs, i);
      key := AppendPart(key, pairs[i].0);
      key := AppendPart(key, pairs[i].1);
    }
    assert key == key + Key(pairs[|pairs|..]);
  }

  lemma KeyStep(key: Bytes, pairs: Pairs, i: nat)
    requires i < |pairs|
    ensures key + Key(pairs[i..]) == key + Part(pairs[i].0) + Part(pairs[i].1) + Key(pairs[i + 1..])
  {
    assert pairs[i..][1..] == pairs[i + 1..];
    Reassociate(key, Part(pairs[i].0), Part(pairs[i].1), Key(pairs[i + 1..]));
  }

  lemma Reassociate(a: Bytes, b: Bytes, c: Bytes, d: Bytes)
    ensures a + (b + c + d) == a + b + c + d
  {
  }

  method AppendPart(key: Bytes, part: Bytes) returns (out: Bytes)
    ensures out == key + Part(part)
  {
    out := key;
    for i := 0 to |part|
      invariant out + Escape(part[i..]) == key + Escape(part)
    {
      assert part[i..][1..] == part[i + 1..];
      out := out + [part[i]];
      if part[i] == 0 {
        out := out + [1];
      }
    }
    assert out == out + Escape(part[|part|..]) == key + Escape(part);
    out := out + [0, 0];
    assert out == key + (Escape(part) + [0, 0]);
  }

  // ---- The sorted entry table ------------------------------------------------

  const ENTRIES := 5000
  const BYTES := 1_048_576
  const WORK := 5_000_000
  const PROBES := 16 * 1_048_576

  type Entries = Table<Bytes>

  function InsertAll(e: Entries, more: Entries): Entries
    decreases |more|
  {
    if more == [] then e else InsertAll(Insert(e, more[0].0, more[0].1), more[1..])
  }

  /** The listing an entry table is rendered to. */
  function Elements(e: Entries): Bytes {
    if e == [] then [] else (if |e| > 1 then Elements(e[..|e| - 1]) + [0x2C] else []) + e[|e| - 1].1
  }

  function Listing(e: Entries): Bytes {
    [0x5B] + Elements(e) + [0x5D]
  }

  function Total(e: Entries): nat {
    if e == [] then 0 else |e[0].1| + Total(e[1..])
  }

  function KeyBytes(e: Entries): nat {
    if e == [] then 0 else |e[0].0| + KeyBytes(e[1..])
  }

  lemma {:induction false} TotalSnoc(e: Entries, x: (Bytes, Bytes))
    ensures Total(e + [x]) == Total(e) + |x.1|
    decreases |e|
  {
    if e == [] {
      assert e + [x] == [x];
    } else {
      assert (e + [x])[1..] == e[1..] + [x];
      TotalSnoc(e[1..], x);
    }
  }

  lemma {:induction false} ElementsLength(e: Entries)
    ensures |Elements(e)| == Total(e) + (if |e| > 1 then |e| - 1 else 0)
    decreases |e|
  {
    if e != [] {
      var n := |e| - 1;
      ElementsLength(e[..n]);
      TotalSnoc(e[..n], e[n]);
      assert e == e[..n] + [e[n]];
    }
  }

  lemma {:induction false} PutTotals(e: Entries, k: Bytes, v: Bytes)
    requires Find(e, k).None?
    ensures Total(Put(e, k, v)) == Total(e) + |v| && KeyBytes(Put(e, k, v)) == KeyBytes(e) + |k|
    decreases |e|
  {
    if e != [] {
      if Less(k, e[0].0) {
        assert ([(k, v)] + e)[1..] == e;
      } else {
        PutTotals(e[1..], k, v);
        assert ([e[0]] + Put(e[1..], k, v))[1..] == Put(e[1..], k, v);
      }
    }
  }

  /** The table is within the budgets. */
  predicate Fits(e: Entries) {
    |e| <= ENTRIES && KeyBytes(e) <= BYTES && |Listing(e)| <= BYTES - 32
  }

  lemma InsertGrows(e: Entries, k: Bytes, v: Bytes)
    requires Sorted(e)
    ensures Sorted(Insert(e, k, v)) && (Fits(Insert(e, k, v)) ==> Fits(e))
  {
    hide Elements, Total, KeyBytes, Put;
    FindHas(e, k);
    PutSorted(e, k, v);
    PutSize(e, k, v);
    ElementsLength(e);
    ElementsLength(Insert(e, k, v));
    if Find(e, k).None? { PutTotals(e, k, v); }
  }

  /** Tables only grow: once over a budget, always over it. */
  lemma {:induction false} InsertAllGrows(e: Entries, more: Entries)
    requires Sorted(e)
    ensures Fits(InsertAll(e, more)) ==> Fits(e)
    decreases |more|
  {
    hide Fits, Insert;
    if more != [] {
      InsertGrows(e, more[0].0, more[0].1);
      InsertAllGrows(Insert(e, more[0].0, more[0].1), more[1..]);
    }
  }

  // ---- Observing label sets --------------------------------------------------

  datatype Mode = Names | Values | Series

  datatype Matcher = Matcher(name: Bytes, holds: Bytes -> bool)

  datatype Error = Stored | Work | Budget

  /** The JSON writers, `labels_as_json` and `quoted`. */
  datatype Writers = Writers(labels: Pairs -> Bytes, quoted: Bytes -> Bytes)

  predicate LabelsValid(pairs: Pairs) {
    && (forall i :: 0 <= i < |pairs| ==> pairs[i].0 != [] && Utf8(pairs[i].0) && Utf8(pairs[i].1))
    && (forall i :: 0 < i < |pairs| ==> Less(pairs[i - 1].0, pairs[i].0))
  }

  function ValueOr(pairs: Pairs, name: Bytes): Bytes {
    var got := Canonical.Get(pairs, name);
    if got.Some? then got.value else []
  }

  predicate Selects(selector: seq<Matcher>, pairs: Pairs) {
    forall i :: 0 <= i < |selector| ==> selector[i].holds(ValueOr(pairs, selector[i].name))
  }

  predicate Selected(selectors: seq<seq<Matcher>>, pairs: Pairs) {
    selectors == [] || exists i :: 0 <= i < |selectors| && Selects(selectors[i], pairs)
  }

  /** Labels with empty values count as absent. */
  function Present(pairs: Pairs): Pairs {
    if pairs == [] then []
    else (if pairs[0].1 == [] then [] else [pairs[0]]) + Present(pairs[1..])
  }

  function NameEntries(pairs: Pairs, w: Writers): Entries {
    seq(|pairs|, i requires 0 <= i < |pairs| => (pairs[i].0, w.quoted(pairs[i].0)))
  }

  /** What one selected label set contributes. */
  function Contribution(mode: Mode, key: Bytes, pairs: Pairs, w: Writers): Entries {
    match mode
    case Series => [(Key(pairs), w.labels(pairs))]
    case Names => NameEntries(pairs, w)
    case Values =>
      var got := Canonical.Get(pairs, key);
      if got.Some? then [(got.value, w.quoted(got.value))] else []
  }

  class State {
    const mode: Mode
    const key: Bytes
    const selectors: seq<seq<Matcher>>
    const matcherCount: nat
    const writers: Writers
    var work: nat
    var probes: nat
    var bytes: nat
    var encoded: nat
    var entries: Entries

    /** The table is sorted, and `bytes` and `encoded` are the exact key bytes and JSON length, within budget. */
    ghost predicate Valid()
      reads this
    {
      && Sorted(entries) && |entries| <= ENTRIES
      && bytes == KeyBytes(entries) <= BYTES
      && encoded == |Listing(entries)| <= BYTES - 32
    }

    constructor (mode: Mode, key: Bytes, selectors: seq<seq<Matcher>>, matcherCount: nat, writers: Writers)
      ensures Valid() && entries == [] && work == probes == 0
      ensures this.mode == mode && this.key == key && this.selectors == selectors && this.matcherCount == matcherCount
      ensures this.writers == writers
    {
      this.mode, this.key, this.selectors := mode, key, selectors;
      this.matcherCount, this.writers := matcherCount, writers;
      work, probes, bytes, encoded, entries := 0, 0, 0, 2, [];
    }

    method InsertEntry(k: Bytes, v: Bytes) returns (ok: bool)
      requires Valid()
      modifies this`bytes, this`encoded, this`entries
      ensures ok ==> Valid() && entries == Insert(old(entries), k, v)
      ensures ok <==> Fits(Insert(old(entries), k, v))
    {
      FindHas(entries, k);
      PutSorted(entries, k, v);
      PutSize(entries, k, v);
      ElementsLength(entries);
      ElementsLength(Insert(entries, k, v));
      if Has(entries, k) {
        return true;
      }
      PutTotals(entries, k, v);
      bytes := bytes + |k|;
      encoded := encoded + |v| + (if entries == [] then 0 else 1);
      if |entries| == ENTRIES || bytes > BYTES || encoded > BYTES - 32 {
        return false;
      }
      entries := Insert(entries, k, v);
      return true;
    }

    method InsertEntries(more: Entries) returns (ok: bool)
      requires Valid()
      modifies this`bytes, this`encoded, this`entries
      ensures ok ==> Valid() && entries == InsertAll(old(entries), more)
      ensures ok <==> Fits(InsertAll(old(entries), more))
    {
      hide Insert, KeyBytes, Listing;
      for i := 0 to |more|
        invariant Valid() && InsertAll(old(entries), more) == InsertAll(entries, more[i..])
      {
        assert more[i..][1..] == more[i + 1..] && more[i..][0] == more[i];
        InsertGrows(entries, more[i].0, more[i].1);
        InsertAllGrows(Insert(entries, more[i].0, more[i].1), more[i + 1..]);
        ok := InsertEntry(more[i].0, more[i].1);
        if !ok {
          return;
        }
      }
      return true;
    }

    /**
     Fold one stored label set: exactly its contribution is added when a selector selects it. It
     fails exactly when the labels are not valid or a budget is passed; the caller then drops the state.
     */
    method Observe(canonical: Bytes) returns (r: Option<Error>)
      requires Valid()
      modifies this
      ensures r.None? ==>
                && Valid() && Canonical.Parse(canonical).Some? && LabelsValid(Canonical.Parse(canonical).value)
                && entries == Observed(old(entries), canonical, mode, key, selectors, writers)
      ensures r.None? <==>
              && |canonical| <= 65_536 && old(probes) + |canonical| <= PROBES
              && Canonical.Parse(canonical).Some? && |Canonical.Parse(canonical).value| <= 1024
              && LabelsValid(Canonical.Parse(canonical).value)
              && old(work) + 1 + |Canonical.Parse(canonical).value| + matcherCount <= WORK
              && Fits(Observed(old(entries), canonical, mode, key, selectors, writers))
      ensures r.None? ==>
                && probes == old(probes) + |canonical|
                && work == old(work) + 1 + |Canonical.Parse(canonical).value| + matcherCount
    {
      hide InsertAll, Contribution, Selected, LabelsValid, KeyBytes, Listing, Present, Canonical.Parse;
      probes := probes + |canonical|;
      if |canonical| > 65_536 || probes > PROBES {
        return Some(Budget);
      }
      var parsed := Canonical.ParsePairs(canonical);
      if parsed.None? {
        return Some(Stored);
      }
      var pairs := parsed.value;
      if |pairs| > 1024 {
        return Some(Budget);
      }
      if !LabelsValid(pairs) {
        return Some(Stored);
      }
      work := work + 1 + |pairs| + matcherCount;
      if work > WORK {
        return Some(Error.Work);
      }
      if !Selected(selectors, pairs) {
        return None;
      }
      var ok := InsertEntries(Contribution(mode, key, Present(pairs), writers));
      r := if ok then None else Some(Budget);
    }
  }

  /** The table after one accepted label set. */
  function Observed(e: Entries, canonical: Bytes, mode: Mode, key: Bytes, selectors: seq<seq<Matcher>>,
                    w: Writers): Entries {
    match Canonical.Parse(canonical)
    case None => e
    case Some(pairs) =>
      if Selected(selectors, pairs) then InsertAll(e, Contribution(mode, key, Present(pairs), w)) else e
  }

  // ---- Whole scans -----------------------------------------------------------

  /** The table after a scan whose label sets were all accepted. */
  function Scanned(rows: seq<Bytes>, mode: Mode, key: Bytes, selectors: seq<seq<Matcher>>, w: Writers): Entries {
    if rows == [] then []
    else
      var n := |rows| - 1;
      Observed(Scanned(rows[..n], mode, key, selectors, w), rows[n], mode, key, selectors, w)
  }

  /** Label sets a series scan selects. */
  ghost predicate Listed(rows: seq<Bytes>, selectors: seq<seq<Matcher>>, pairs: Pairs) {
    exists i, p ::
      0 <= i < |rows| && Canonical.Parse(rows[i]) == Some(p) && Selected(selectors, p) && pairs == Present(p)
  }

  /** A duplicate-free listing of label sets in label order. */
  ghost predicate SortedSets(sets: seq<Pairs>) {
    forall i, j :: 0 <= i < j < |sets| ==> LabelsLess(sets[i], sets[j])
  }

  function SeriesEntries(sets: seq<Pairs>, w: Writers): Entries {
    seq(|sets|, i requires 0 <= i < |sets| => (Key(sets[i]), w.labels(sets[i])))
  }

  lemma ListedSnoc(rows: seq<Bytes>, selectors: seq<seq<Matcher>>, pairs: Pairs)
    requires rows != []
    ensures var n := |rows| - 1;
            Listed(rows, selectors, pairs) <==>
            Listed(rows[..n], selectors, pairs) ||
            (var p := Canonical.Parse(rows[n]); p.Some? && Selected(selectors, p.value) && pairs == Present(p.value))
  {
    var n := |rows| - 1;
    if Listed(rows, selectors, pairs) {
      var i, p :| 0 <= i < |rows| && Canonical.Parse(rows[i]) == Some(p) && Selected(selectors, p)
                  && pairs == Present(p);
      if i < n { assert rows[..n][i] == rows[i]; }
    }
    if Listed(rows[..n], selectors, pairs) {
      var i, p :| 0 <= i < n && Canonical.Parse(rows[..n][i]) == Some(p) && Selected(selectors, p)
                  && pairs == Present(p);
      assert rows[i] == rows[..n][i];
    }
  }

  /** Adding one label set to a sorted listing gives the sorted listing with it. */
  lemma InsertSet(sets: seq<Pairs>, p: Pairs, w: Writers) returns (more: seq<Pairs>)
    requires SortedSets(sets) && Sorted(SeriesEntries(sets, w))
    ensures SortedSets(more) && SeriesEntries(more, w) == Insert(SeriesEntries(sets, w), Key(p), w.labels(p))
    ensures Sorted(SeriesEntries(more, w))
    ensures forall q :: q in more <==> q in sets || q == p
  {
    var e := SeriesEntries(sets, w);
    PutSorted(e, Key(p), w.labels(p));
    if p in sets {
      var i :| 0 <= i < |sets| && sets[i] == p;
      assert e[i].0 == Key(p);
      more := sets;
    } else {
      if Has(e, Key(p)) {
        var i :| 0 <= i < |e| && e[i].0 == Key(p);
        KeyInjective(sets[i], p);
        assert false;
      }
      more := Place(sets, p, w);
      forall i, j | 0 <= i < j < |more| ensures LabelsLess(more[i], more[j]) {
        var f := SeriesEntries(more, w);
        assert Less(f[i].0, f[j].0);
        KeyOrder(more[i], more[j]);
      }
    }
  }

  lemma {:induction false} Place(sets: seq<Pairs>, p: Pairs, w: Writers) returns (more: seq<Pairs>)
    requires p !in sets
    ensures SeriesEntries(more, w) == Put(SeriesEntries(sets, w), Key(p), w.labels(p))
    ensures forall q :: q in more <==> q in sets || q == p
    decreases |sets|
  {
    hide Key;
    var e := SeriesEntries(sets, w);
    if sets == [] {
      more := [p];
    } else {
      assert sets[0] in sets;
      if Key(sets[0]) == Key(p) { KeyInjective(sets[0], p); }
      if Less(Key(p), e[0].0) {
        more := [p] + sets;
        assert SeriesEntries(more, w) == [(Key(p), w.labels(p))] + e;
      } else {
        assert e[1..] == SeriesEntries(sets[1..], w);
        assert forall q :: q in sets <==> q == sets[0] || q in sets[1..];
        var rest := Place(sets[1..], p, w);
        more := [sets[0]] + rest;
        assert SeriesEntries(more, w) == [e[0]] + SeriesEntries(rest, w);
      }
    }
  }

  /**
   A series scan lists exactly the selected label sets, without their empty-valued labels,
   each once and in label order.
   */
  lemma {:induction false} SeriesListing(rows: seq<Bytes>, key: Bytes, selectors: seq<seq<Matcher>>, w: Writers)
    returns (sets: seq<Pairs>)
    ensures Scanned(rows, Series, key, selectors, w) == SeriesEntries(sets, w)
    ensures SortedSets(sets) && Sorted(SeriesEntries(sets, w))
    ensures forall p :: p in sets <==> Listed(rows, selectors, p)
    decreases |rows|
  {
    if rows == [] {
      sets := [];
    } else {
      var n := |rows| - 1;
      sets := SeriesListing(rows[..n], key, selectors, w);
      forall p
        ensures Listed(rows, selectors, p) <==>
                Listed(rows[..n], selectors, p) ||
                (var q := Canonical.Parse(rows[n]); q.Some? && Selected(selectors, q.value) && p == Present(q.value))
      {
        ListedSnoc(rows, selectors, p);
      }
      var parsed := Canonical.Parse(rows[n]);
      if parsed.Some? && Selected(selectors, parsed.value) {
        var p := Present(parsed.value);
        var c := Contribution(Series, key, p, w);
        assert c[1..] == [];
        assert InsertAll(SeriesEntries(sets, w), c) == Insert(SeriesEntries(sets, w), Key(p), w.labels(p));
        sets := InsertSet(sets, p, w);
      }
    }
  }

  // ---- Listings of names and values ------------------------------------------

  /** A sorted, duplicate-free listing of texts, each quoted. */
  ghost predicate IsTexts(e: Entries, w: Writers) {
    Sorted(e) && AllQuoted(e, w)
  }

  ghost predicate AllQuoted(e: Entries, w: Writers) {
    forall i :: 0 <= i < |e| ==> e[i].1 == w.quoted(e[i].0)
  }

  lemma InsertText(e: Entries, k: Bytes, w: Writers)
    requires IsTexts(e, w)
    ensures IsTexts(Insert(e, k, w.quoted(k)), w)
    ensures forall x :: Has(Insert(e, k, w.quoted(k)), x) <==> Has(e, x) || x == k
  {
    var v := w.quoted(k);
    PutSorted(e, k, v);
    var put := Put(e, k, v);
    forall i | 0 <= i < |put| ensures put[i].1 == w.quoted(put[i].0) {
      PutElement(e, k, v, i);
    }
    forall x ensures Has(put, x) <==> Has(e, x) || x == k {
      PutFind(e, k, v, x);
      FindHas(put, x);
      FindHas(e, x);
    }
  }

  lemma {:induction false} InsertTexts(e: Entries, more: Entries, w: Writers)
    requires IsTexts(e, w) && AllQuoted(more, w)
    ensures IsTexts(InsertAll(e, more), w) && forall x :: Has(InsertAll(e, more), x) <==> Has(e, x) || Has(more, x)
    decreases |more|
  {
    hide IsTexts, Insert;
    if more != [] {
      var k := more[0].0;
      InsertText(e, k, w);
      InsertTexts(Insert(e, k, w.quoted(k)), more[1..], w);
      forall x ensures Has(more, x) <==> x == k || Has(more[1..], x) {
        if Has(more[1..], x) {
          var i :| 0 <= i < |more[1..]| && more[1..][i].0 == x;
          assert more[i + 1].0 == x;
        }
        if Has(more, x) && x != k {
          var i :| 0 <= i < |more| && more[i].0 == x;
          assert more[1..][i - 1].0 == x;
        }
        assert more[0].0 == k;
      }
    }
  }

  /** A name, or a value of the asked label, that a selected row has; labels with empty values count as absent. */
  ghost predicate Mentions(mode: Mode, key: Bytes, pairs: Pairs, x: Bytes) {
    match mode
    case Names => exists j :: 0 <= j < |Present(pairs)| && Present(pairs)[j].0 == x
    case Values => Canonical.Get(Present(pairs), key) == Some(x)
    case Series => false
  }

  ghost predicate Mentioned(rows: seq<Bytes>, mode: Mode, key: Bytes, selectors: seq<seq<Matcher>>, x: Bytes) {
    exists i, p ::
      0 <= i < |rows| && Canonical.Parse(rows[i]) == Some(p) && Selected(selectors, p) && Mentions(mode, key, p, x)
  }

  lemma Contributes(mode: Mode, key: Bytes, pairs: Pairs, w: Writers)
    requires !mode.Series?
    ensures var c := Contribution(mode, key, Present(pairs), w);
            && AllQuoted(c, w)
            && forall x :: Has(c, x) <==> Mentions(mode, key, pairs, x)
  {
    var c := Contribution(mode, key, Present(pairs), w);
    if mode.Names? {
      assert forall j :: 0 <= j < |c| ==> c[j].0 == Present(pairs)[j].0;
    } else {
      var got := Canonical.Get(Present(pairs), key);
      assert got.Some? ==> c[0].0 == got.value;
    }
  }

  lemma MentionedSnoc(rows: seq<Bytes>, mode: Mode, key: Bytes, selectors: seq<seq<Matcher>>, x: Bytes)
    requires rows != []
    ensures var n := |rows| - 1;
            Mentioned(rows, mode, key, selectors, x) <==>
            Mentioned(rows[..n], mode, key, selectors, x) ||
            (var p := Canonical.Parse(rows[n]);
             p.Some? && Selected(selectors, p.value) && Mentions(mode, key, p.value, x))
  {
    hide Mentions, Selected;
    var n := |rows| - 1;
    assert forall i :: 0 <= i < n ==> rows[..n][i] == rows[i];
    if Mentioned(rows, mode, key, selectors, x) {
      var i, p :| 0 <= i < |rows| && Canonical.Parse(rows[i]) == Some(p) && Selected(selectors, p)
                  && Mentions(mode, key, p, x);
      if i < n { assert rows[..n][i] == rows[i]; }
    }
  }

  /** A scan of names or values lists exactly those that selected rows mention, each once, sorted and quoted. */
  lemma {:induction false} TextListing(rows: seq<Bytes>, mode: Mode, key: Bytes, selectors: seq<seq<Matcher>>,
                                       w: Writers)
    requires !mode.Series?
    ensures var e := Scanned(rows, mode, key, selectors, w);
            IsTexts(e, w) && forall x :: Has(e, x) <==> Mentioned(rows, mode, key, selectors, x)
    decreases |rows|
  {
    hide InsertAll, Contribution, Selected, Mentions, Has, AllQuoted;
    if rows == [] {
      NoTexts(w);
    } else {
      var n := |rows| - 1;
      TextListing(rows[..n], mode, key, selectors, w);
      forall x {
        MentionedSnoc(rows, mode, key, selectors, x);
      }
      var parsed := Canonical.Parse(rows[n]);
      if parsed.Some? && Selected(selectors, parsed.value) {
        Contributes(mode, key, parsed.value, w);
        InsertTexts(Scanned(rows[..n], mode, key, selectors, w), Contribution(mode, key, Present(parsed.value), w), w);
      }
    }
  }

  lemma NoTexts(w: Writers)
    ensures IsTexts([], w) && forall x :: !Has<Bytes>([], x)
  {
  }

  // ---- Scanning with budgets -------------------------------------------------

  function Probes(rows: seq<Bytes>): nat {
    if rows == [] then 0 else Probes(rows[..|rows| - 1]) + |rows[|rows| - 1]|
  }

  function PairsOf(row: Bytes): Pairs {
    var p := Canonical.Parse(row); if p.Some? then p.value else []
  }

  function Works(rows: seq<Bytes>, matcherCount: nat): nat {
    if rows == [] then 0 else Works(rows[..|rows| - 1], matcherCount) + 1 + |PairsOf(rows[|rows| - 1])| + matcherCount
  }

  /** A stored label set that can be observed. */
  predicate RowOk(row: Bytes) {
    |row| <= 65_536 && Canonical.Parse(row).Some? && |PairsOf(row)| <= 1024 && LabelsValid(PairsOf(row))
  }

  /** Every row is fine, and all of them together are within every budget. */
  ghost predicate ScanOk(rows: seq<Bytes>, s: State)
  {
    && (forall i :: 0 <= i < |rows| ==> RowOk(rows[i]))
    && Probes(rows) <= PROBES && Works(rows, s.matcherCount) <= WORK
    && Fits(Scanned(rows, s.mode, s.key, s.selectors, s.writers))
  }

  lemma {:induction false} SumsPrefix(rows: seq<Bytes>, m: nat, i: nat)
    requires i <= |rows|
    ensures Probes(rows[..i]) <= Probes(rows) && Works(rows[..i], m) <= Works(rows, m)
    decreases |rows| - i
  {
    hide PairsOf;
    if i < |rows| {
      SumsPrefix(rows, m, i + 1);
      assert rows[..i + 1][..i] == rows[..i];
    } else {
      assert rows[..i] == rows;
    }
  }

  lemma {:induction false} ScannedSorted(rows: seq<Bytes>, mode: Mode, key: Bytes, selectors: seq<seq<Matcher>>,
                                         w: Writers)
    ensures Sorted(Scanned(rows, mode, key, selectors, w))
    decreases |rows|
  {
    if mode.Series? {
      var _ := SeriesListing(rows, key, selectors, w);
    } else {
      TextListing(rows, mode, key, selectors, w);
    }
  }

  lemma {:induction false} ScannedGrows(rows: seq<Bytes>, mode: Mode, key: Bytes, selectors: seq<seq<Matcher>>,
                                        w: Writers, i: nat)
    requires i <= |rows|
    ensures Fits(Scanned(rows, mode, key, selectors, w)) ==> Fits(Scanned(rows[..i], mode, key, selectors, w))
    decreases |rows| - i
  {
    hide Fits, InsertAll, Contribution, Selected, Sorted;
    if i < |rows| {
      ScannedGrows(rows, mode, key, selectors, w, i + 1);
      assert rows[..i + 1][..i] == rows[..i];
      ScannedSorted(rows[..i], mode, key, selectors, w);
      var e, p := Scanned(rows[..i], mode, key, selectors, w), Canonical.Parse(rows[i]);
      if p.Some? && Selected(selectors, p.value) {
        InsertAllGrows(e, Contribution(mode, key, Present(p.value), w));
      }
    } else {
      assert rows[..i] == rows;
    }
  }

  /** The table lists what its mode asks for. */
  ghost predicate Lists(e: Entries, rows: seq<Bytes>, mode: Mode, key: Bytes, selectors: seq<seq<Matcher>>,
                        w: Writers) {
    if mode.Series?
    then exists sets: seq<Pairs> ::
           && e == SeriesEntries(sets, w) && SortedSets(sets)
           && forall p :: p in sets <==> Listed(rows, selectors, p)
    else IsTexts(e, w) && forall x :: Has(e, x) <==> Mentioned(rows, mode, key, selectors, x)
  }

  /**
   Observing all rows: it succeeds exactly when every row is fine and the budgets hold, and then the table
   is the sorted, duplicate-free listing of what the rows were asked for, with its exact JSON length.
   */
  method ScanAll(s: State, rows: seq<Bytes>) returns (r: Option<Error>)
    requires s.Valid() && s.entries == [] && s.work == s.probes == 0
    modifies s
    ensures r.None? <==> ScanOk(rows, s)
    ensures r.None? ==> s.Valid() && Lists(s.entries, rows, s.mode, s.key, s.selectors, s.writers)
  {
    hide Fits, Observed, LabelsValid, Lists, Canonical.Parse, Probes, Works, Sorted;
    assert rows[..0] == [];
    NoRows(s.matcherCount);
    for i := 0 to |rows|
      invariant s.Valid() && s.entries == Scanned(rows[..i], s.mode, s.key, s.selectors, s.writers)
      invariant s.probes == Probes(rows[..i]) && s.work == Works(rows[..i], s.matcherCount)
      invariant forall k :: 0 <= k < i ==> RowOk(rows[k])
      invariant s.probes <= PROBES && s.work <= WORK
    {
      RowNext(rows, i, s.matcherCount);
      SumsPrefix(rows, s.matcherCount, i + 1);
      ScannedNext(rows, i, s.mode, s.key, s.selectors, s.writers);
      ScannedGrows(rows, s.mode, s.key, s.selectors, s.writers, i + 1);
      var failed := s.Observe(rows[i]);
      if failed.Some? {
        return failed;
      }
    }
    assert rows[..|rows|] == rows;
    ListsScanned(rows, s.mode, s.key, s.selectors, s.writers);
    WithinBudget(s);
    r := None;
  }

  lemma NoRows(m: nat)
    ensures Probes([]) == 0 && Works([], m) == 0
  {
  }

  lemma RowNext(rows: seq<Bytes>, i: nat, m: nat)
    requires i < |rows|
    ensures Probes(rows[..i + 1]) == Probes(rows[..i]) + |rows[i]|
    ensures Works(rows[..i + 1], m) == Works(rows[..i], m) + 1 + |PairsOf(rows[i])| + m
  {
    hide PairsOf;
    assert rows[..i + 1][..i] == rows[..i];
  }

  lemma ScannedNext(rows: seq<Bytes>, i: nat, mode: Mode, key: Bytes, selectors: seq<seq<Matcher>>, w: Writers)
    requires i < |rows|
    ensures Scanned(rows[..i + 1], mode, key, selectors, w) ==
            Observed(Scanned(rows[..i], mode, key, selectors, w), rows[i], mode, key, selectors, w)
  {
    hide Observed;
    assert rows[..i + 1][..i] == rows[..i];
  }

  lemma WithinBudget(s: State)
    requires s.Valid()
    ensures Fits(s.entries)
  {
  }

  lemma ListsScanned(rows: seq<Bytes>, mode: Mode, key: Bytes, selectors: seq<seq<Matcher>>, w: Writers)
    ensures Lists(Scanned(rows, mode, key, selectors, w), rows, mode, key, selectors, w)
  {
    hide Scanned, Listed, Mentioned, SortedSets, SeriesEntries, IsTexts, Has;
    if mode.Series? {
      var sets := SeriesListing(rows, key, selectors, w);
    } else {
      TextListing(rows, mode, key, selectors, w);
    }
  }
}
