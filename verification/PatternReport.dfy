/** Reporting mined templates (`patterns.rs`, `finish`): ranked by total, those with one pattern together. */
module PatternReport {
  import opened Prelude
  import opened Text
  import P = Permutation
  import R = RunTotals
  import T = Tally

  /** A template's pattern and counts, and the total of the counts. */
  datatype Template = Template(total: int, pattern: Bytes, counts: R.Counts)

  type Report = seq<(Bytes, R.Counts)>

  ghost predicate Proper(t: Template) {
    R.Increasing(t.counts) && t.total == R.CountTotal(t.counts)
  }

  // ---- Ranking ---------------------------------------------------------------

  /** Larger totals first, equal ones by pattern. */
  predicate Leads(a: Template, b: Template) {
    a.total > b.total || (a.total == b.total && (a.pattern == b.pattern || Less(a.pattern, b.pattern)))
  }

  lemma LeadsTotal(a: Template, b: Template)
    ensures Leads(a, b) || Leads(b, a)
    ensures Leads(a, b) && Leads(b, a) ==> a.pattern == b.pattern
  {
    Trichotomy(a.pattern, b.pattern);
  }

  lemma LeadsTransitive(a: Template, b: Template, c: Template)
    requires Leads(a, b) && Leads(b, c)
    ensures Leads(a, c)
  {
    if Less(a.pattern, b.pattern) && Less(b.pattern, c.pattern) { LessTransitive(a.pattern, b.pattern, c.pattern); }
  }

  predicate Ranked(ts: seq<Template>) {
    forall i, j :: 0 <= i < j < |ts| ==> Leads(ts[i], ts[j])
  }

  /** Puts a template after those that lead it. */
  method Insert(ts: seq<Template>, t: Template) returns (more: seq<Template>)
    requires Ranked(ts)
    ensures Ranked(more) && multiset(more) == multiset(ts) + multiset{t}
  {
    hide Leads;
    var n := 0;
    while n < |ts| && Leads(ts[n], t)
      invariant n <= |ts| && forall i :: 0 <= i < n ==> Leads(ts[i], t)
    {
      n := n + 1;
    }
    forall i | n <= i < |ts| ensures Leads(t, ts[i]) {
      LeadsTotal(ts[n], t);
      if n < i { LeadsTransitive(t, ts[n], ts[i]); }
    }
    assert ts == ts[..n] + ts[n..];
    more := ts[..n] + [t] + ts[n..];
  }

  method Rank(ts: seq<Template>) returns (ranked: seq<Template>)
    ensures Ranked(ranked) && multiset(ranked) == multiset(ts)
  {
    hide Ranked;
    ranked := [];
    RankedNone();
    for i := 0 to |ts|
      invariant Ranked(ranked) && multiset(ranked) == multiset(ts[..i])
    {
      assert ts[..i + 1] == ts[..i] + [ts[i]];
      ranked := Insert(ranked, ts[i]);
    }
    assert ts[..|ts|] == ts;
  }

  lemma RankedNone()
    ensures Ranked([])
  {
  }

  // ---- What a report says ----------------------------------------------------

  function OfPattern(p: Bytes): Template -> bool {
    (t: Template) => t.pattern == p
  }

  predicate Every(t: Template) {
    true
  }

  function TotalOf(t: Template): int {
    t.total
  }

  function AmountAt(b: int): Template -> int {
    (t: Template) => R.Amount(t.counts, b)
  }

  /** Some template of `p` leads every template of `q`. */
  ghost predicate Ahead(ts: seq<Template>, p: Bytes, q: Bytes) {
    exists t :: t in ts && t.pattern == p && forall u :: u in ts && u.pattern == q ==> Leads(t, u)
  }

  ghost predicate Mentions(out: Report, p: Bytes) {
    exists i :: 0 <= i < |out| && out[i].0 == p
  }

  /** The entry adds up the templates of its pattern. */
  ghost predicate Adds(e: (Bytes, R.Counts), ts: seq<Template>) {
    && R.Increasing(e.1) && R.CountTotal(e.1) == T.Sum(ts, OfPattern(e.0), TotalOf)
    && forall b :: R.Amount(e.1, b) == T.Sum(ts, OfPattern(e.0), AmountAt(b))
  }

  /** Each pattern once with what its templates add up to, in the order of their best templates. */
  ghost predicate Reports(out: Report, ts: seq<Template>) {
    && (forall i :: 0 <= i < |out| ==> Adds(out[i], ts))
    && (forall i, j :: 0 <= i < j < |out| ==> out[i].0 != out[j].0 && Ahead(ts, out[i].0, out[j].0))
    && (forall p :: Mentions(out, p) <==> T.Any(ts, OfPattern(p)))
    && Reported(out) == T.Sum(ts, Every, TotalOf)
  }

  /** All that is reported. */
  ghost function Reported(out: Report): int {
    if out == [] then 0 else Reported(out[..|out| - 1]) + R.CountTotal(out[|out| - 1].1)
  }

  lemma ReportedSnoc(out: Report, e: (Bytes, R.Counts))
    ensures Reported(out + [e]) == Reported(out) + R.CountTotal(e.1)
  {
    assert (out + [e])[..|out|] == out;
  }

  lemma {:induction false} ReportedUpdate(out: Report, i: nat, counts: R.Counts)
    requires i < |out|
    ensures Reported(out[i := (out[i].0, counts)]) == Reported(out) - R.CountTotal(out[i].1) + R.CountTotal(counts)
    decreases |out|
  {
    hide R.CountTotal;
    var n := |out| - 1;
    if i < n {
      ReportedUpdate(out[..n], i, counts);
      assert out[i := (out[i].0, counts)][..n] == out[..n][i := (out[i].0, counts)];
    } else {
      assert out[i := (out[i].0, counts)][..n] == out[..n];
    }
  }

  // ---- Merging ---------------------------------------------------------------

  lemma AddsOther(e: (Bytes, R.Counts), ts: seq<Template>, t: Template)
    requires Adds(e, ts) && t.pattern != e.0
    ensures Adds(e, ts + [t])
  {
    hide T.Sum, R.Amount, R.Increasing, R.CountTotal;
    T.SumSnoc(ts, t, OfPattern(e.0), TotalOf);
    forall b ensures R.Amount(e.1, b) == T.Sum(ts + [t], OfPattern(e.0), AmountAt(b)) {
      T.SumSnoc(ts, t, OfPattern(e.0), AmountAt(b));
    }
  }

  lemma AddsMore(e: (Bytes, R.Counts), ts: seq<Template>, t: Template, sum: R.Counts)
    requires Adds(e, ts) && t.pattern == e.0 && Proper(t)
    requires R.Increasing(sum) && R.CountTotal(sum) == R.CountTotal(e.1) + R.CountTotal(t.counts)
    requires forall b :: R.Amount(sum, b) == R.Amount(e.1, b) + R.Amount(t.counts, b)
    ensures Adds((e.0, sum), ts + [t])
  {
    hide T.Sum, R.Amount, R.Increasing, R.CountTotal;
    T.SumSnoc(ts, t, OfPattern(e.0), TotalOf);
    forall b ensures R.Amount(sum, b) == T.Sum(ts + [t], OfPattern(e.0), AmountAt(b)) {
      T.SumSnoc(ts, t, OfPattern(e.0), AmountAt(b));
    }
  }

  lemma AddsFirst(ts: seq<Template>, t: Template)
    requires Proper(t) && forall i :: 0 <= i < |ts| ==> ts[i].pattern != t.pattern
    ensures Adds((t.pattern, t.counts), ts + [t])
  {
    hide T.Sum, R.Amount, R.Increasing, R.CountTotal;
    var here := OfPattern(t.pattern);
    assert !T.Any(ts, here);
    T.SumNone(ts, here, TotalOf);
    T.SumSnoc(ts, t, here, TotalOf);
    forall b ensures R.Amount(t.counts, b) == T.Sum(ts + [t], here, AmountAt(b)) {
      T.SumNone(ts, here, AmountAt(b));
      T.SumSnoc(ts, t, here, AmountAt(b));
    }
  }

  /** `index` finds each pattern reported; `firsts` are the places of the templates that brought them. */
  ghost predicate Placed(ts: seq<Template>, out: Report, index: map<Bytes, nat>, firsts: seq<nat>) {
    && |firsts| == |out|
    && (forall p :: p in index ==> index[p] < |out| && out[index[p]].0 == p)
    && (forall i :: 0 <= i < |out| ==> out[i].0 in index && index[out[i].0] == i)
    && (forall i :: 0 <= i < |out| ==> firsts[i] < |ts| && ts[firsts[i]].pattern == out[i].0)
    && (forall i, j :: 0 <= i < j < |out| ==> firsts[i] < firsts[j])
    && (forall m :: 0 <= m < |ts| ==> ts[m].pattern in index && firsts[index[ts[m].pattern]] <= m)
  }

  /** The report of the templates so far. */
  ghost predicate Sums(ts: seq<Template>, out: Report) {
    (forall i :: 0 <= i < |out| ==> Adds(out[i], ts)) && Reported(out) == T.Sum(ts, Every, TotalOf)
  }

  /** Reports one more template, together with those of its pattern reported before. */
  method AddTemplate(ghost ts: seq<Template>, out: Report, index: map<Bytes, nat>, t: Template, ghost firsts: seq<nat>)
    returns (more: Report, next: map<Bytes, nat>, ghost places: seq<nat>)
    requires Placed(ts, out, index, firsts) && Sums(ts, out) && Proper(t)
    ensures Placed(ts + [t], more, next, places) && Sums(ts + [t], more)
  {
    hide Placed, Sums, R.Amount, R.Increasing, R.CountTotal;
    if t.pattern in index {
      var i := index[t.pattern];
      SumsAt(ts, out, index, firsts, i);
      var sum := R.Combine(out[i].1, t.counts);
      PlacedAgain(ts, out, index, firsts, t, sum);
      SumsAgain(ts, out, i, t, sum);
      more, next, places := out[i := (t.pattern, sum)], index, firsts;
    } else {
      PlacedNew(ts, out, index, firsts, t);
      SumsNew(ts, out, index, firsts, t);
      more, next, places := out + [(t.pattern, t.counts)], index[t.pattern := |out|], firsts + [|ts|];
    }
  }

  lemma SumsAt(ts: seq<Template>, out: Report, index: map<Bytes, nat>, firsts: seq<nat>, i: nat)
    requires Placed(ts, out, index, firsts) && Sums(ts, out)
    requires exists p :: p in index && index[p] == i
    ensures i < |out| && R.Increasing(out[i].1)
    ensures forall p :: p in index && index[p] == i ==> out[i].0 == p
    ensures forall j :: 0 <= j < |out| && j != i ==> out[j].0 != out[i].0
  {
    hide R.Amount, R.Increasing, R.CountTotal, T.Sum;
    assert Adds(out[i], ts);
  }

  lemma PlacedAgain(ts: seq<Template>, out: Report, index: map<Bytes, nat>, firsts: seq<nat>, t: Template,
                    sum: R.Counts)
    requires Placed(ts, out, index, firsts) && t.pattern in index
    ensures Placed(ts + [t], out[index[t.pattern] := (t.pattern, sum)], index, firsts)
  {
  }

  lemma PlacedNew(ts: seq<Template>, out: Report, index: map<Bytes, nat>, firsts: seq<nat>, t: Template)
    requires Placed(ts, out, index, firsts) && t.pattern !in index
    ensures Placed(ts + [t], out + [(t.pattern, t.counts)], index[t.pattern := |out|], firsts + [|ts|])
  {
  }

  lemma SumsAgain(ts: seq<Template>, out: Report, i: nat, t: Template, sum: R.Counts)
    requires Sums(ts, out) && i < |out| && out[i].0 == t.pattern && Proper(t)
    requires forall j :: 0 <= j < |out| && j != i ==> out[j].0 != t.pattern
    requires R.Increasing(sum) && R.CountTotal(sum) == R.CountTotal(out[i].1) + R.CountTotal(t.counts)
    requires forall b :: R.Amount(sum, b) == R.Amount(out[i].1, b) + R.Amount(t.counts, b)
    ensures Sums(ts + [t], out[i := (t.pattern, sum)])
  {
    hide Adds, R.Amount, R.Increasing, R.CountTotal, T.Sum, Reported;
    T.SumSnoc(ts, t, Every, TotalOf);
    ReportedUpdate(out, i, sum);
    var more := out[i := (t.pattern, sum)];
    forall j | 0 <= j < |more| ensures Adds(more[j], ts + [t]) {
      if j == i { AddsMore(out[i], ts, t, sum); } else { AddsOther(out[j], ts, t); }
    }
  }

  lemma SumsNew(ts: seq<Template>, out: Report, index: map<Bytes, nat>, firsts: seq<nat>, t: Template)
    requires Placed(ts, out, index, firsts) && Sums(ts, out) && t.pattern !in index && Proper(t)
    ensures Sums(ts + [t], out + [(t.pattern, t.counts)])
  {
    hide Adds, R.Amount, R.Increasing, R.CountTotal, T.Sum, Reported;
    T.SumSnoc(ts, t, Every, TotalOf);
    ReportedSnoc(out, (t.pattern, t.counts));
    AddsFirst(ts, t);
    var more := out + [(t.pattern, t.counts)];
    forall j | 0 <= j < |more| ensures Adds(more[j], ts + [t]) {
      if j < |out| { AddsOther(out[j], ts, t); }
    }
  }

  /** Ranked templates, those with equal patterns reported together. */
  method Merge(ts: seq<Template>) returns (out: Report)
    requires Ranked(ts) && forall t :: t in ts ==> Proper(t)
    ensures Reports(out, ts)
  {
    hide Ranked, Proper, Placed, Sums, Reports;
    out := [];
    var index: map<Bytes, nat> := map[];
    ghost var firsts: seq<nat> := [];
    Nothing();
    assert ts[..0] == [];
    for k := 0 to |ts|
      invariant Placed(ts[..k], out, index, firsts) && Sums(ts[..k], out)
    {
      assert ts[..k + 1] == ts[..k] + [ts[k]] && ts[k] in ts;
      out, index, firsts := AddTemplate(ts[..k], out, index, ts[k], firsts);
    }
    assert ts[..|ts|] == ts;
    AllReported(ts, out, index, firsts);
  }

  lemma Nothing()
    ensures Placed([], [], map[], []) && Sums([], [])
  {
    hide Adds, Every, TotalOf;
  }

  lemma AllReported(ts: seq<Template>, out: Report, index: map<Bytes, nat>, firsts: seq<nat>)
    requires Ranked(ts) && Placed(ts, out, index, firsts) && Sums(ts, out)
    ensures Reports(out, ts)
  {
    hide Adds, Ahead, Mentions, T.Any, T.Sum, Reported, Placed, Ranked;
    forall i, j | 0 <= i < j < |out| ensures out[i].0 != out[j].0 && Ahead(ts, out[i].0, out[j].0) {
      BestFirst(ts, out, index, firsts, i, j);
    }
    forall p ensures Mentions(out, p) <==> T.Any(ts, OfPattern(p)) {
      MentionsAny(ts, out, index, firsts, p);
    }
  }

  lemma BestFirst(ts: seq<Template>, out: Report, index: map<Bytes, nat>, firsts: seq<nat>, i: nat, j: nat)
    requires Ranked(ts) && Placed(ts, out, index, firsts) && i < j < |out|
    ensures out[i].0 != out[j].0 && Ahead(ts, out[i].0, out[j].0)
  {
    hide Leads;
    var t := ts[firsts[i]];
    forall u | u in ts && u.pattern == out[j].0 ensures Leads(t, u) {
      var m :| 0 <= m < |ts| && ts[m] == u;
      assert firsts[i] < firsts[j] <= m;
    }
    assert t in ts;
  }

  lemma MentionsAny(ts: seq<Template>, out: Report, index: map<Bytes, nat>, firsts: seq<nat>, p: Bytes)
    requires Placed(ts, out, index, firsts)
    ensures Mentions(out, p) <==> T.Any(ts, OfPattern(p))
  {
    if Mentions(out, p) {
      var i :| 0 <= i < |out| && out[i].0 == p;
      assert OfPattern(p)(ts[firsts[i]]);
    }
    if T.Any(ts, OfPattern(p)) {
      var m :| 0 <= m < |ts| && OfPattern(p)(ts[m]);
      assert out[index[ts[m].pattern]].0 == p;
    }
  }

  /** What a report says depends on the templates and not on their order. */
  lemma ReportsAny(out: Report, ts: seq<Template>, us: seq<Template>)
    requires Reports(out, ts) && multiset(ts) == multiset(us)
    ensures Reports(out, us)
  {
    hide T.Sum, Leads, Reported, R.Amount, R.Increasing, R.CountTotal;
    forall t ensures t in ts <==> t in us {
      assert t in ts <==> t in multiset(ts);
      assert t in us <==> t in multiset(us);
    }
    P.SumPermuted(ts, us, Every, TotalOf);
    forall i | 0 <= i < |out| ensures Adds(out[i], us) {
      P.SumPermuted(ts, us, OfPattern(out[i].0), TotalOf);
      forall b ensures R.Amount(out[i].1, b) == T.Sum(us, OfPattern(out[i].0), AmountAt(b)) {
        P.SumPermuted(ts, us, OfPattern(out[i].0), AmountAt(b));
      }
    }
    forall p ensures T.Any(ts, OfPattern(p)) <==> T.Any(us, OfPattern(p)) {
      AnyIs(ts, p);
      AnyIs(us, p);
    }
  }

  lemma AnyIs(ts: seq<Template>, p: Bytes)
    ensures T.Any(ts, OfPattern(p)) <==> exists t :: t in ts && t.pattern == p
  {
    if t :| t in ts && t.pattern == p {
      var i :| 0 <= i < |ts| && ts[i] == t;
      assert OfPattern(p)(ts[i]);
    }
  }

  // ---- Largest first ---------------------------------------------------------

  ghost predicate LargestFirst(out: Report) {
    forall i, j :: 0 <= i < j < |out| ==> R.CountTotal(out[i].1) >= R.CountTotal(out[j].1)
  }

  function PatternTotal(ts: seq<Template>, p: Bytes): int {
    T.Sum(ts, OfPattern(p), TotalOf)
  }

  lemma AheadOnce(ts: seq<Template>, p: Bytes, q: Bytes)
    requires Ahead(ts, p, q) && Ahead(ts, q, p)
    ensures p == q
  {
    hide Leads;
    var t :| t in ts && t.pattern == p && forall u :: u in ts && u.pattern == q ==> Leads(t, u);
    var u :| u in ts && u.pattern == q && forall t :: t in ts && t.pattern == p ==> Leads(u, t);
    LeadsTotal(t, u);
  }

  /** A report is sorted by total exactly when its order, by best template, agrees with the totals. */
  lemma SortedIff(out: Report, ts: seq<Template>)
    requires Reports(out, ts)
    ensures LargestFirst(out) <==>
              forall p, q :: T.Any(ts, OfPattern(p)) && T.Any(ts, OfPattern(q)) && Ahead(ts, p, q) ==>
                PatternTotal(ts, p) >= PatternTotal(ts, q)
  {
    hide T.Any, Ahead, R.CountTotal, R.Amount, R.Increasing, T.Sum, Reported;
    forall i | 0 <= i < |out| ensures T.Any(ts, OfPattern(out[i].0)) {
      assert Mentions(out, out[i].0);
    }
    if LargestFirst(out) {
      forall p, q | T.Any(ts, OfPattern(p)) && T.Any(ts, OfPattern(q)) && Ahead(ts, p, q)
        ensures PatternTotal(ts, p) >= PatternTotal(ts, q)
      {
        assert Mentions(out, p) && Mentions(out, q);
        var i :| 0 <= i < |out| && out[i].0 == p;
        var j :| 0 <= j < |out| && out[j].0 == q;
        if j < i { AheadOnce(ts, p, q); }
      }
    }
  }

  /** Two templates have the pattern. */
  ghost predicate Shared(ts: seq<Template>, p: Bytes) {
    exists i, j :: 0 <= i < j < |ts| && ts[i].pattern == p && ts[j].pattern == p
  }

  /** A pattern that several templates share has a larger total than one with a better best template. */
  ghost predicate Overtakes(ts: seq<Template>, q: Bytes, p: Bytes) {
    Shared(ts, q) && T.Any(ts, OfPattern(p)) && Ahead(ts, p, q) && PatternTotal(ts, p) < PatternTotal(ts, q)
  }

  /**
   Where templates count no negative numbers, a report comes largest total first exactly when no
   pattern that several templates share overtakes another.
   */
  lemma LargestFirstIff(out: Report, ts: seq<Template>)
    requires Reports(out, ts) && forall t :: t in ts ==> t.total >= 0
    ensures LargestFirst(out) <==> forall p, q :: !Overtakes(ts, q, p)
  {
    hide T.Any, Ahead, LargestFirst, Reports, PatternTotal, Shared;
    SortedIff(out, ts);
    forall p, q | T.Any(ts, OfPattern(p)) && T.Any(ts, OfPattern(q)) && Ahead(ts, p, q) && !Overtakes(ts, q, p)
      ensures PatternTotal(ts, p) >= PatternTotal(ts, q)
    {
      if !Shared(ts, q) { NotShared(ts, p, q); }
    }
    forall q | Shared(ts, q) ensures T.Any(ts, OfPattern(q)) {
      SharedAny(ts, q);
    }
  }

  lemma SharedAny(ts: seq<Template>, q: Bytes)
    requires Shared(ts, q)
    ensures T.Any(ts, OfPattern(q))
  {
    var i, j :| 0 <= i < j < |ts| && ts[i].pattern == q && ts[j].pattern == q;
    assert OfPattern(q)(ts[i]);
  }

  lemma NotShared(ts: seq<Template>, p: Bytes, q: Bytes)
    requires !Shared(ts, q) && T.Any(ts, OfPattern(q)) && Ahead(ts, p, q) && forall t :: t in ts ==> t.total >= 0
    ensures PatternTotal(ts, p) >= PatternTotal(ts, q)
  {
    hide PatternTotal;
    var j :| 0 <= j < |ts| && OfPattern(q)(ts[j]);
    SingleTotal(ts, j);
    var t :| t in ts && t.pattern == p && forall u :: u in ts && u.pattern == q ==> Leads(t, u);
    assert ts[j] in ts;
    var i :| 0 <= i < |ts| && ts[i] == t;
    AtLeast(ts, i);
  }

  lemma AtLeast(ts: seq<Template>, i: nat)
    requires i < |ts| && forall t :: t in ts ==> t.total >= 0
    ensures PatternTotal(ts, ts[i].pattern) >= ts[i].total
  {
    hide T.Sum;
    var here, a, b := OfPattern(ts[i].pattern), ts[..i], ts[i + 1..];
    assert ts == (a + [ts[i]]) + b;
    T.SumConcat(a + [ts[i]], b, here, TotalOf);
    T.SumSnoc(a, ts[i], here, TotalOf);
    T.SumPositive(a, here, TotalOf);
    T.SumPositive(b, here, TotalOf);
  }

  lemma SingleTotal(ts: seq<Template>, i: nat)
    requires i < |ts| && forall j :: 0 <= j < |ts| && j != i ==> ts[j].pattern != ts[i].pattern
    ensures PatternTotal(ts, ts[i].pattern) == ts[i].total
  {
    hide T.Sum;
    var here, a, b := OfPattern(ts[i].pattern), ts[..i], ts[i + 1..];
    assert ts == (a + [ts[i]]) + b;
    T.SumConcat(a + [ts[i]], b, here, TotalOf);
    T.SumSnoc(a, ts[i], here, TotalOf);
    T.SumNone(a, here, TotalOf);
    T.SumNone(b, here, TotalOf);
  }

  lemma ThreeTotal(a: Template, b: Template, c: Template, p: Bytes)
    ensures PatternTotal([a, b, c], p) ==
            (if a.pattern == p then a.total else 0) + (if b.pattern == p then b.total else 0)
            + (if c.pattern == p then c.total else 0)
  {
    hide T.Sum;
    var here := OfPattern(p);
    T.SumNone([], here, TotalOf);
    T.SumSnoc([], a, here, TotalOf);
    assert [] + [a] == [a] && [a, b, c] == [a] + [b] + [c];
    T.SumSnoc([a], b, here, TotalOf);
    T.SumSnoc([a] + [b], c, here, TotalOf);
  }

  /** Two templates that share a pattern overtake a larger third. */
  lemma ThreeOvertake(a: Template, b: Template, c: Template)
    requires b.pattern == c.pattern != a.pattern && b.total < a.total && c.total < a.total < b.total + c.total
    ensures Overtakes([a, b, c], b.pattern, a.pattern)
  {
    hide PatternTotal;
    var ts := [a, b, c];
    ThreeTotal(a, b, c, a.pattern);
    ThreeTotal(a, b, c, b.pattern);
    assert OfPattern(a.pattern)(ts[0]) && ts[0] in ts;
    assert ts[1].pattern == b.pattern && ts[2].pattern == b.pattern;
  }
}
