/** The pattern miner: a bounded set of templates that counts every line it is trained on (`patterns.rs`, `Miner`). */
module PatternMiner {
  import opened Prelude
  import opened Text
  import opened Patterns
  import opened PatternApart
  import opened PatternTree
  import Q = PatternReport
  import R = RunTotals
  import T = Tally

  /** One line trained: the template it was counted in, its time step and its tokens. */
  datatype Entry = Entry(id: nat, bucket: int, tokens: seq<Token>)

  // ---- Counting --------------------------------------------------------------

  predicate IsLive(c: Option<Cluster>) {
    c.Some?
  }

  function One<X>(x: X): int {
    1
  }

  function Live(clusters: Clusters): int {
    T.Sum(clusters, IsLive, One)
  }

  function Hit(id: nat, bucket: int): Entry -> bool {
    (e: Entry) => e.id == id && e.bucket == bucket
  }

  /** The lines a template counted in a time step. */
  function Hits(log: seq<Entry>, id: nat, bucket: int): int {
    T.Sum(log, Hit(id, bucket), One)
  }

  lemma HitsSnoc(log: seq<Entry>, e: Entry, id: nat, bucket: int)
    ensures Hits(log + [e], id, bucket) == Hits(log, id, bucket) + if e.id == id && e.bucket == bucket then 1 else 0
  {
    T.SumSnoc(log, e, Hit(id, bucket), One);
  }

  lemma LiveSnoc(clusters: Clusters, c: Option<Cluster>)
    ensures Live(clusters + [c]) == Live(clusters) + if c.Some? then 1 else 0
  {
    T.SumSnoc(clusters, c, IsLive, One);
  }

  lemma LiveUpdate(clusters: Clusters, i: nat, c: Option<Cluster>)
    requires i < |clusters|
    ensures Live(clusters[i := c]) == Live(clusters) - (if clusters[i].Some? then 1 else 0) + if c.Some? then 1 else 0
  {
    hide Live;
    var a, b := clusters[..i], clusters[i + 1..];
    assert clusters == a + [clusters[i]] + b && clusters[i := c] == a + [c] + b;
    LiveConcat(a + [clusters[i]], b);
    LiveConcat(a + [c], b);
    LiveSnoc(a, clusters[i]);
    LiveSnoc(a, c);
  }

  lemma LiveConcat(a: Clusters, b: Clusters)
    ensures Live(a + b) == Live(a) + Live(b)
  {
    T.SumConcat(a, b, IsLive, One);
  }

  lemma LiveExists(clusters: Clusters)
    requires Live(clusters) > 0
    ensures exists i :: 0 <= i < |clusters| && clusters[i].Some?
  {
    T.SumPositive(clusters, IsLive, One);
  }

  // ---- What every run keeps --------------------------------------------------

  /** Templates are filed under the root with their shape. */
  ghost predicate Filed(roots: Roots, clusters: Clusters) {
    forall key, leaf, j {:trigger roots[key][leaf][j]} ::
      key in roots && leaf in roots[key] && 0 <= j < |roots[key][leaf]| ==>
      var id := roots[key][leaf][j];
      id < |clusters| && (clusters[id].Some? ==> Shaped(clusters[id].value.slots, key))
  }

  /** Every line fits the template it was counted in, while that lives. */
  ghost predicate Logged(log: seq<Entry>, clusters: Clusters) {
    forall j :: 0 <= j < |log| ==>
      log[j].id < |clusters| && (clusters[log[j].id].Some? ==> Fits(clusters[log[j].id].value.slots, log[j].tokens))
  }

  /** A live template's counts are exactly the lines counted in it. */
  ghost predicate Counted(log: seq<Entry>, clusters: Clusters) {
    forall id :: 0 <= id < |clusters| && clusters[id].Some? ==>
      R.Increasing(clusters[id].value.counts)
      && forall b :: R.Amount(clusters[id].value.counts, b) == Hits(log, id, b)
  }

  ghost predicate Trains(log: seq<Entry>, tokens: seq<Token>) {
    exists j :: 0 <= j < |log| && log[j].tokens == tokens
  }

  ghost predicate Begun(log: seq<Entry>, clusters: Clusters, places: seq<Place>) {
    && |places| == |clusters|
    && forall id :: 0 <= id < |clusters| && clusters[id].Some? ==> Trains(log, places[id].first)
  }

  lemma NewId(log: seq<Entry>, clusters: Clusters, b: int)
    requires Logged(log, clusters)
    ensures Hits(log, |clusters|, b) == 0
  {
    hide Fits;
    T.SumNone(log, Hit(|clusters|, b), One);
  }

  /** The least recently used template, the first of them. */
  ghost predicate IsOldest(clusters: Clusters, id: nat) {
    && LiveAt(clusters, id)
    && forall j: nat :: LiveAt(clusters, j) ==>
         clusters[id].value.lastUsed < clusters[j].value.lastUsed
         || (clusters[id].value.lastUsed == clusters[j].value.lastUsed && id <= j)
  }

  /** Room for one more template: the least recently used one is dropped when there are too many. */
  ghost predicate Roomy(was: Clusters, live: nat, now: Clusters) {
    if live < MAX_CLUSTERS then now == was
    else exists id: nat :: IsOldest(was, id) && now == was[id := None]
  }

  class Miner {
    const start: int
    const step: int
    var roots: Roots
    var clusters: Clusters
    var live: nat
    var clock: nat
    var skipped: nat
    ghost var log: seq<Entry>
    /** Where each template was filed, and the line that started it. */
    ghost var places: seq<Place>

    constructor (start: int, step: int)
      ensures Valid() && log == [] && roots == map[] && clusters == []
      ensures this.start == start && this.step == if step < 1 then 1 else step
    {
      this.start := start;
      this.step := if step < 1 then 1 else step;
      roots, clusters, live, clock, skipped := map[], [], 0, 0, 0;
      log, places := [], [];
      ArrangedNone();
      assert FormsOf([]) == [];
    }

    ghost predicate Sound()
      reads this
    {
      && step >= 1 && live == Live(clusters) && live <= MAX_CLUSTERS
      && Filed(roots, clusters) && Logged(log, clusters) && Counted(log, clusters)
      && Arranged(roots, FormsOf(clusters), places)
    }

    /** Between calls every live template was started by a line trained. */
    ghost predicate Valid()
      reads this
    {
      Sound() && Begun(log, clusters, places)
    }

    /** The most similar live template of the line's shape, if similar enough. */
    method Search(key: Shape, tokens: seq<Token>, word: Bytes) returns (r: Option<nat>)
      requires Sound()
      ensures r.Some? ==>
                IsMatch(roots, clusters, key, word, tokens, r.value) && Shaped(clusters[r.value].value.slots, key)
      ensures r.None? ==> NoMatch(roots, clusters, key, word, tokens)
    {
      hide Logged, Counted, Live, Shaped, Similar, Better, Enough, Arranged;
      if key !in roots || SearchLeaf(roots[key], word).None? {
        return None;
      }
      var leaf := SearchLeaf(roots[key], word).value;
      var ids := roots[key][leaf];
      r := None;
      var best := Score(0, 0, 0);
      for j := 0 to |ids|
        invariant r.Some? ==> r.value in ids && LiveAt(clusters, r.value) && Shaped(clusters[r.value].value.slots, key)
        invariant r.Some? ==> best == ScoreOf(clusters[r.value].value.slots, tokens)
        invariant r.Some? ==> forall k :: 0 <= k < j && LiveAt(clusters, ids[k]) ==>
                                !Better(ScoreOf(clusters[ids[k]].value.slots, tokens), best)
        invariant r.None? ==> forall k :: 0 <= k < j ==> !LiveAt(clusters, ids[k])
      {
        var id := roots[key][leaf][j];
        if clusters[id].Some? {
          var score := Similarity(clusters[id].value.slots, tokens);
          BetterIrreflexive(score);
          if r.None? || Better(score, best) {
            forall k | 0 <= k < j && LiveAt(clusters, ids[k]) && r.Some?
              ensures !Better(ScoreOf(clusters[ids[k]].value.slots, tokens), score)
            {
              BetterTransitive(ScoreOf(clusters[ids[k]].value.slots, tokens), best, score);
            }
            r, best := Some(id), score;
          }
        }
      }
      if r.Some? && !Enough(best) {
        forall k | 0 <= k < |ids| && LiveAt(clusters, ids[k])
          ensures !Enough(ScoreOf(clusters[ids[k]].value.slots, tokens))
        {
          if Enough(ScoreOf(clusters[ids[k]].value.slots, tokens)) {
            EnoughIsUpward(ScoreOf(clusters[ids[k]].value.slots, tokens), best);
          }
        }
        r := None;
      }
    }

    /** Drops the least recently used template. */
    method Evict()
      requires Sound() && live > 0
      modifies this`clusters, this`live
      ensures Sound() && live == old(live) - 1 && |clusters| == |old(clusters)|
      ensures exists id: nat :: IsOldest(old(clusters), id) && clusters == old(clusters)[id := None]
    {
      hide Shaped, Fits, R.Increasing, R.Amount, Hits, Live, Arranged;
      LiveExists(clusters);
      var victim: Option<nat> := None;
      for i := 0 to |clusters|
        invariant victim.Some? ==> victim.value < i && clusters[victim.value].Some?
        invariant victim.Some? ==> forall j :: 0 <= j < i && clusters[j].Some? ==>
                                     clusters[victim.value].value.lastUsed < clusters[j].value.lastUsed
                                     || (clusters[victim.value].value.lastUsed == clusters[j].value.lastUsed
                                         && victim.value <= j)
        invariant victim.None? ==> forall j :: 0 <= j < i ==> clusters[j].None?
      {
        if clusters[i].Some? && (victim.None? || clusters[i].value.lastUsed < clusters[victim.value].value.lastUsed) {
          victim := Some(i);
        }
      }
      assert IsOldest(clusters, victim.value);
      LiveUpdate(clusters, victim.value, None);
      ArrangedWithout(roots, FormsOf(clusters), places, victim.value);
      assert FormsOf(clusters[victim.value := None]) == FormsOf(clusters)[victim.value := None];
      clusters, live := clusters[victim.value := None], live - 1;
    }

    /** Files a new template for the line. */
    method Insert(key: Shape, tokens: seq<Token>, word: Bytes) returns (id: nat)
      requires Sound() && key == ShapeOf(tokens) && Line(tokens) && FirstWord(tokens) == Some(word)
      requires NoMatch(roots, clusters, key, word, tokens)
      modifies this`roots, this`clusters, this`live, this`places
      ensures Sound() && id == |old(clusters)| && |clusters| == id + 1
      ensures |places| == id + 1 && places[..id] == old(places) && places[id].first == tokens
      ensures clusters[id] == Some(Cluster(Fresh(tokens), [], clock)) && Roomy(old(clusters), old(live), clusters[..id])
      ensures roots == FiledUnder(old(roots), clusters, key, word, id)
    {
      hide Shaped, Fits, R.Increasing, R.Amount, Hits, Live, ShapeOf, Filed, Logged, Counted, IsOldest, Arranged,
           NoMatch, Line, FirstWord;
      if live >= MAX_CLUSTERS {
        Evict();
        NoMatchWithout(roots, old(clusters), clusters, key, word, tokens);
      }
      PlacesMatch(roots, clusters, places);
      id := |clusters|;
      var cluster := Some(Cluster(Fresh(tokens), [], clock));
      FreshTemplate(tokens);
      LiveSnoc(clusters, cluster);
      Appended(roots, log, clusters, cluster);
      ArrangedNew(roots, clusters, places, tokens, cluster.value);
      ghost var before := clusters;
      clusters, live, places := clusters + [cluster], live + 1, places + [PlaceOf(roots, tokens, word)];
      assert clusters[..id] == before;
      var leaves := if key in roots then roots[key] else map[];
      var leaf := InsertLeaf(leaves, word);
      var ids := if leaf in leaves then leaves[leaf] else [];
      var kept := T.Where(ids, Alive(clusters));
      Refiled(roots, clusters, key, leaf, ids, kept, id);
      roots := roots[key := leaves[leaf := kept + [id]]];
    }

    /** Counts a line in a template it fits. */
    method Count(id: nat, slots: seq<Slot>, bucket: int, tokens: seq<Token>)
      requires Sound() && id < |clusters| && clusters[id].Some? && Fits(slots, tokens)
      requires Arranged(roots, FormsOf(clusters)[id := Some(slots)], places)
      requires forall key :: Shaped(clusters[id].value.slots, key) ==> Shaped(slots, key)
      requires forall line :: Fits(clusters[id].value.slots, line) ==> Fits(slots, line)
      modifies this`clusters, this`log
      ensures Sound() && log == old(log) + [Entry(id, bucket, tokens)]
      ensures clusters ==
                old(clusters)[id := Some(Cluster(slots, R.AddTo(old(clusters)[id].value.counts, bucket, 1), clock))]
    {
      hide Shaped, Fits, R.Increasing, R.Amount, Hits, Live, Filed, Logged, Counted, Arranged;
      var c := clusters[id].value;
      var counted := Cluster(slots, R.AddTo(c.counts, bucket, 1), clock);
      LiveUpdate(clusters, id, Some(counted));
      StillFiled(roots, clusters, id, counted);
      StillLogged(log, clusters, id, counted, Entry(id, bucket, tokens));
      StillCounted(log, clusters, id, counted, Entry(id, bucket, tokens));
      assert FormsOf(clusters[id := Some(counted)]) == FormsOf(clusters)[id := Some(slots)];
      clusters := clusters[id := Some(counted)];
      log := log + [Entry(id, bucket, tokens)];
    }

    /** Trains on one line: skips it, or counts it in its best template, or in a new one. */
    method Train(ts: int, line: Bytes)
      requires Valid()
      modifies this
      ensures Valid()
      ensures |line| > MAX_LINE_BYTES || TokensOf(line).None? ==>
                skipped == old(skipped) + 1 && log == old(log) && clusters == old(clusters) && roots == old(roots)
      ensures |line| <= MAX_LINE_BYTES && TokensOf(line).Some? ==>
                var tokens := TokensOf(line).value;
                && skipped == old(skipped) && clock == old(clock) + 1 && log != [] && FirstWord(tokens).Some?
                && log == old(log) + [Entry(log[|log| - 1].id, start + (ts - start) / step * step, tokens)]
                && Trained(old(roots), old(clusters), old(live), tokens, FirstWord(tokens).value, log[|log| - 1])
    {
      hide Shaped, Fits, Live, Filed, Logged, Counted, ShapeOf, TokensOf, IsMatch, NoMatch, Roomy, FiledUnder,
           Arranged, Begun, Line, FirstWord;
      if |line| > MAX_LINE_BYTES {
        skipped := skipped + 1;
        return;
      }
      var split := Tokenize(line);
      if split.None? {
        skipped := skipped + 1;
        return;
      }
      var tokens := split.value;
      MinedLine(line);
      var word := FirstWord(tokens).value;
      clock := clock + 1;
      var bucket := start + (ts - start) / step * step;
      var key := ShapeOf(tokens);
      var found := Search(key, tokens, word);
      if found.Some? {
        MatchLives(roots, clusters, key, word, tokens, found.value);
        ArrangedJoined(roots, FormsOf(clusters), places, found.value, tokens);
        var slots := MergeSlots(clusters[found.value].value.slots, tokens);
        MergedFits(clusters[found.value].value.slots, tokens);
        Count(found.value, slots, bucket, tokens);
        BegunStill(old(log), old(clusters), clusters, places, log[|log| - 1]);
      } else {
        var id := Insert(key, tokens, word);
        FreshTemplate(tokens);
        ghost var filed := clusters;
        assert FormsOf(clusters)[id := Some(clusters[id].value.slots)] == FormsOf(clusters);
        Count(id, clusters[id].value.slots, bucket, tokens);
        assert clusters[..id] == filed[..id];
        StillAlive(old(roots), filed, clusters, key, word, id);
        RoomyLives(old(clusters), old(live), clusters[..id]);
        BegunNew(old(log), old(clusters), clusters, old(places), places, log[|log| - 1]);
      }
    }

    /** The line joined its best match, which gave up the words that differ; without one it starts a template. */
    ghost predicate Trained(was: Roots, before: Clusters, many: nat, tokens: seq<Token>, word: Bytes, e: Entry)
      reads this
    {
      if NoMatch(was, before, ShapeOf(tokens), word, tokens)
      then
        && e.id == |before| && |clusters| == e.id + 1 && Roomy(before, many, clusters[..e.id])
        && clusters[e.id] == Some(Cluster(Fresh(tokens), [(e.bucket, 1)], clock))
        && roots == FiledUnder(was, clusters, ShapeOf(tokens), word, e.id)
      else
        && IsMatch(was, before, ShapeOf(tokens), word, tokens, e.id) && roots == was
        && var c := before[e.id].value;
           clusters == before[e.id := Some(Cluster(Merged(c.slots, tokens), R.AddTo(c.counts, e.bucket, 1), clock))]
    }

    /**
     * The live templates' counts by rendered pattern, each pattern once, those
     * with the largest templates first. They count every line trained but those
     * of evicted templates.
     */
    method Finish() returns (out: Q.Report)
      requires Valid()
      ensures Q.Reports(out, Templates(clusters, |clusters|))
      ensures Q.Reported(out) + Evicted(log, clusters) == |log|
      ensures forall i, b :: 0 <= i < |out| ==> R.Amount(out[i].1, b) == Lines(log, clusters, Rendered, out[i].0, b)
      ensures forall id: nat :: LiveAt(clusters, id) ==> Q.Mentions(out, Rendered(clusters[id].value.slots))
      ensures Q.LargestFirst(out) <==> forall p, q :: !Q.Overtakes(Templates(clusters, |clusters|), q, p)
      ensures Ordinary(log) ==> Q.LargestFirst(out)
    {
      hide Filed, Logged, R.Increasing, R.Amount, Hits, Live, Evicted, Lines, Templates, Q.Reports, Q.Proper,
           Q.Ranked, Q.Mentions, Rendered, Arranged, Begun, Ordinary, Q.LargestFirst, Q.Overtakes, Q.Reported;
      var all := Templates(clusters, |clusters|);
      AllProper(log, clusters, |clusters|);
      var ranked := Q.Rank(all);
      forall t | t in ranked ensures Q.Proper(t) {
        assert t in multiset(ranked);
        assert t in multiset(all);
      }
      out := Q.Merge(ranked);
      Q.ReportsAny(out, ranked, all);
      ReportedLines(out, log, clusters);
      ReportOrder(out, log, roots, clusters, places);
    }
  }

  // ---- The order of a report -------------------------------------------------

  /** No word of a line trained is `<_>`. */
  ghost predicate Ordinary(log: seq<Entry>) {
    forall j, i :: 0 <= j < |log| && 0 <= i < |log[j].tokens| ==> log[j].tokens[i].text != WILDCARD
  }

  /** Two live templates are never equal, and render alike only where one has the word `<_>` for a wildcard. */
  lemma TwinsConfused(roots: Roots, clusters: Clusters, places: seq<Place>, a: nat, b: nat)
    requires Arranged(roots, FormsOf(clusters), places) && LiveAt(clusters, a) && LiveAt(clusters, b) && a != b
    ensures var s, t := clusters[a].value.slots, clusters[b].value.slots;
            && s != t
            && (Rendered(s) == Rendered(t) <==>
                |s| == |t| && forall i :: 0 <= i < |s| ==> s[i] == t[i] || Confused(s[i], t[i]) || Confused(t[i], s[i]))
  {
    hide Standing, Shelved, Listed, Digitless, Far, Rendered, Covers, Line;
    var forms := FormsOf(clusters);
    assert forms[a] == Some(clusters[a].value.slots) && forms[b] == Some(clusters[b].value.slots);
    NeverEqual(roots, forms, places, a, b);
    StandingCovers(forms[a].value, places[a]);
    StandingCovers(forms[b].value, places[b]);
    RenderAlike(forms[a].value, forms[b].value, places[a].first, places[b].first);
  }

  lemma LiteralsTrained(log: seq<Entry>, roots: Roots, clusters: Clusters, places: seq<Place>, a: nat)
    requires Arranged(roots, FormsOf(clusters), places) && Begun(log, clusters, places) && LiveAt(clusters, a)
    requires Ordinary(log)
    ensures forall i :: 0 <= i < |clusters[a].value.slots| ==> clusters[a].value.slots[i].text != Some(WILDCARD)
  {
    hide Shelved, Listed, Digitless, Far, Line;
    var slots := clusters[a].value.slots;
    assert FormsOf(clusters)[a] == Some(slots);
    StandingCovers(slots, places[a]);
    var j :| 0 <= j < |log| && log[j].tokens == places[a].first;
    assert forall i :: 0 <= i < |slots| ==> slots[i].text.Some? ==> slots[i].text.value == log[j].tokens[i].text;
  }

  /** Without the word `<_>`, no two live templates render alike. */
  lemma NoTwins(log: seq<Entry>, roots: Roots, clusters: Clusters, places: seq<Place>, a: nat, b: nat)
    requires Arranged(roots, FormsOf(clusters), places) && Begun(log, clusters, places) && Ordinary(log)
    requires LiveAt(clusters, a) && LiveAt(clusters, b) && a != b
    ensures Rendered(clusters[a].value.slots) != Rendered(clusters[b].value.slots)
  {
    hide Rendered, Arranged, Begun, Ordinary;
    TwinsConfused(roots, clusters, places, a, b);
    LiteralsTrained(log, roots, clusters, places, a);
    LiteralsTrained(log, roots, clusters, places, b);
  }

  /** The template at each place of the listing of live ones. */
  lemma {:induction false} TemplateAt(clusters: Clusters, n: nat, i: nat, j: nat) returns (a: nat, b: nat)
    requires n <= |clusters| && i < j < |Templates(clusters, n)|
    ensures a < b < n && LiveAt(clusters, a) && LiveAt(clusters, b)
    ensures Templates(clusters, n)[i] == TemplateOf(clusters[a].value)
    ensures Templates(clusters, n)[j] == TemplateOf(clusters[b].value)
    decreases n
  {
    hide TemplateOf;
    var before := Templates(clusters, n - 1);
    if j < |before| {
      a, b := TemplateAt(clusters, n - 1, i, j);
    } else {
      a := OneTemplateAt(clusters, n - 1, i);
      b := n - 1;
    }
  }

  lemma {:induction false} OneTemplateAt(clusters: Clusters, n: nat, i: nat) returns (a: nat)
    requires n <= |clusters| && i < |Templates(clusters, n)|
    ensures a < n && LiveAt(clusters, a) && Templates(clusters, n)[i] == TemplateOf(clusters[a].value)
    decreases n
  {
    hide TemplateOf;
    if i < |Templates(clusters, n - 1)| {
      a := OneTemplateAt(clusters, n - 1, i);
    } else {
      a := n - 1;
    }
  }

  lemma CountsPositive(log: seq<Entry>, clusters: Clusters)
    requires Counted(log, clusters)
    ensures forall t :: t in Templates(clusters, |clusters|) ==> t.total >= 0
  {
    hide Templates, Counted, Rendered, R.CountTotal;
    var all := Templates(clusters, |clusters|);
    forall t | t in all ensures t.total >= 0 {
      var i :| 0 <= i < |all| && all[i] == t;
      var a := OneTemplateAt(clusters, |clusters|, i);
      ClusterTotal(log, clusters, a);
      T.SumPositive(log, OfId(a), One);
    }
  }

  /** A report is largest first exactly when no shared pattern overtakes, and always without the word `<_>`. */
  lemma ReportOrder(out: Q.Report, log: seq<Entry>, roots: Roots, clusters: Clusters, places: seq<Place>)
    requires Q.Reports(out, Templates(clusters, |clusters|)) && Counted(log, clusters)
    requires Arranged(roots, FormsOf(clusters), places) && Begun(log, clusters, places)
    ensures Q.LargestFirst(out) <==> forall p, q :: !Q.Overtakes(Templates(clusters, |clusters|), q, p)
    ensures Ordinary(log) ==> Q.LargestFirst(out)
  {
    hide Q.Reports, Templates, Counted, Arranged, Begun, Ordinary, Q.LargestFirst, Rendered, Q.Ahead, Q.PatternTotal,
         R.CountTotal;
    var all := Templates(clusters, |clusters|);
    CountsPositive(log, clusters);
    Q.LargestFirstIff(out, all);
    if Ordinary(log) {
      forall p, q ensures !Q.Overtakes(all, q, p) {
        if Q.Shared(all, q) {
          var i, j :| 0 <= i < j < |all| && all[i].pattern == q && all[j].pattern == q;
          var a, b := TemplateAt(clusters, |clusters|, i, j);
          NoTwins(log, roots, clusters, places, a, b);
        }
      }
    }
  }

  // ---- Reporting -------------------------------------------------------------

  function TemplateOf(c: Cluster): Q.Template {
    Q.Template(R.CountTotal(c.counts), Rendered(c.slots), c.counts)
  }

  /** The live ones of the first `n` templates. */
  function Templates(clusters: Clusters, n: nat): seq<Q.Template>
    requires n <= |clusters|
  {
    if n == 0 then []
    else Templates(clusters, n - 1) + if clusters[n - 1].Some? then [TemplateOf(clusters[n - 1].value)] else []
  }

  lemma {:induction false} AllProper(log: seq<Entry>, clusters: Clusters, n: nat)
    requires Counted(log, clusters) && n <= |clusters|
    ensures forall t :: t in Templates(clusters, n) ==> Q.Proper(t)
  {
    hide R.Increasing, R.Amount, Hits, Rendered;
    if n > 0 { AllProper(log, clusters, n - 1); }
  }

  lemma {:induction false} TemplatesTotal(clusters: Clusters, n: nat)
    requires n <= |clusters|
    ensures T.Sum(Templates(clusters, n), Q.Every, Q.TotalOf) == Kept(clusters, n)
  {
    hide T.Sum, R.CountTotal, Rendered;
    if n == 0 {
      T.SumNone([], Q.Every, Q.TotalOf);
    } else {
      TemplatesTotal(clusters, n - 1);
      if clusters[n - 1].Some? {
        T.SumSnoc(Templates(clusters, n - 1), TemplateOf(clusters[n - 1].value), Q.Every, Q.TotalOf);
      } else {
        assert Templates(clusters, n) == Templates(clusters, n - 1);
      }
    }
  }

  lemma {:induction false} TemplatesAmount(clusters: Clusters, n: nat, p: Bytes, b: int)
    requires n <= |clusters|
    ensures T.Sum(Templates(clusters, n), Q.OfPattern(p), Q.AmountAt(b)) == PatternAmount(clusters, n, Rendered, p, b)
  {
    hide T.Sum, R.Amount, R.CountTotal, Rendered;
    if n == 0 {
      T.SumNone([], Q.OfPattern(p), Q.AmountAt(b));
    } else {
      TemplatesAmount(clusters, n - 1, p, b);
      if clusters[n - 1].Some? {
        T.SumSnoc(Templates(clusters, n - 1), TemplateOf(clusters[n - 1].value), Q.OfPattern(p), Q.AmountAt(b));
      } else {
        assert Templates(clusters, n) == Templates(clusters, n - 1);
      }
    }
  }

  lemma {:induction false} TemplateIn(clusters: Clusters, n: nat, id: nat)
    requires id < n <= |clusters| && clusters[id].Some?
    ensures TemplateOf(clusters[id].value) in Templates(clusters, n)
  {
    hide Rendered;
    if id < n - 1 { TemplateIn(clusters, n - 1, id); }
  }

  /** A report of the live templates counts the lines they counted. */
  lemma ReportedLines(out: Q.Report, log: seq<Entry>, clusters: Clusters)
    requires Q.Reports(out, Templates(clusters, |clusters|)) && Counted(log, clusters)
    ensures Q.Reported(out) + Evicted(log, clusters) == |log|
    ensures forall i, b :: 0 <= i < |out| ==> R.Amount(out[i].1, b) == Lines(log, clusters, Rendered, out[i].0, b)
    ensures forall id: nat :: LiveAt(clusters, id) ==> Q.Mentions(out, Rendered(clusters[id].value.slots))
  {
    hide T.Sum, R.Amount, R.Increasing, R.CountTotal, Rendered, Evicted, Lines, Templates, Counted, Q.Ahead,
         Q.Mentions, T.Any, Q.Reported, PatternAmount, Kept;
    var all, n := Templates(clusters, |clusters|), |clusters|;
    TemplatesTotal(clusters, n);
    KeptLines(log, clusters, n);
    Conserved(log, clusters);
    forall i, b | 0 <= i < |out| ensures R.Amount(out[i].1, b) == Lines(log, clusters, Rendered, out[i].0, b) {
      assert Q.Adds(out[i], all);
      TemplatesAmount(clusters, n, out[i].0, b);
      AllLines(log, clusters, Rendered, out[i].0, b);
    }
    forall id: nat | LiveAt(clusters, id) ensures Q.Mentions(out, Rendered(clusters[id].value.slots)) {
      TemplateIn(clusters, n, id);
      Q.AnyIs(all, Rendered(clusters[id].value.slots));
    }
  }

  // ---- Conservation ----------------------------------------------------------

  function OfId(id: nat): Entry -> bool {
    (e: Entry) => e.id == id
  }

  function BucketOf(e: Entry): int {
    e.bucket
  }

  /** A live template's counts add up to its lines. */
  lemma ClusterTotal(log: seq<Entry>, clusters: Clusters, id: nat)
    requires Counted(log, clusters) && id < |clusters| && clusters[id].Some?
    ensures R.CountTotal(clusters[id].value.counts) == T.Sum(log, OfId(id), One)
  {
    hide R.Amount, R.Increasing, R.CountTotal;
    var counts, lines := clusters[id].value.counts, T.Where(log, OfId(id));
    forall b ensures R.Amount(counts, b) == T.SumAt(lines, BucketOf, One, b) {
      var here := (e: Entry) => e.bucket == b;
      T.SumAtIs(lines, BucketOf, One, b, here);
      T.SumWhere(log, OfId(id), here, Hit(id, b), One);
    }
    var all := (e: Entry) => true;
    R.CountsAll(counts, lines, BucketOf, One, all);
    T.SumWhere(log, OfId(id), all, OfId(id), One);
  }

  function InLive(clusters: Clusters, n: nat): Entry -> bool {
    (e: Entry) => e.id < n && e.id < |clusters| && clusters[e.id].Some?
  }

  /** What the first `n` templates, where live, have counted. */
  ghost function Kept(clusters: Clusters, n: nat): int
    requires n <= |clusters|
  {
    if n == 0 then 0
    else Kept(clusters, n - 1) + if clusters[n - 1].Some? then R.CountTotal(clusters[n - 1].value.counts) else 0
  }

  lemma {:induction false} KeptLines(log: seq<Entry>, clusters: Clusters, n: nat)
    requires Counted(log, clusters) && n <= |clusters|
    ensures Kept(clusters, n) == T.Sum(log, InLive(clusters, n), One)
    decreases n
  {
    hide Counted, R.CountTotal;
    if n == 0 {
      T.SumNone(log, InLive(clusters, 0), One);
    } else {
      KeptLines(log, clusters, n - 1);
      if clusters[n - 1].Some? {
        ClusterTotal(log, clusters, n - 1);
        T.SumSplit(log, InLive(clusters, n), InLive(clusters, n - 1), OfId(n - 1), One);
      } else {
        T.SumSame(log, InLive(clusters, n), InLive(clusters, n - 1), One, One);
      }
    }
  }

  /** A line of a time step that a live template with that rendering counted. */
  function PatternHit(clusters: Clusters, n: nat, render: seq<Slot> -> Bytes, p: Bytes, b: int): Entry -> bool {
    (e: Entry) =>
      && e.id < n && e.id < |clusters| && clusters[e.id].Some?
      && render(clusters[e.id].value.slots) == p && e.bucket == b
  }

  ghost function Lines(log: seq<Entry>, clusters: Clusters, render: seq<Slot> -> Bytes, p: Bytes, b: int): int {
    T.Sum(log, PatternHit(clusters, |clusters|, render, p, b), One)
  }

  predicate Renders(c: Option<Cluster>, render: seq<Slot> -> Bytes, p: Bytes) {
    c.Some? && render(c.value.slots) == p
  }

  /** What the first `n` templates with one rendering counted in a time step. */
  ghost function PatternAmount(clusters: Clusters, n: nat, render: seq<Slot> -> Bytes, p: Bytes, b: int): int
    requires n <= |clusters|
  {
    if n == 0 then 0
    else
      PatternAmount(clusters, n - 1, render, p, b)
      + if Renders(clusters[n - 1], render, p) then R.Amount(clusters[n - 1].value.counts, b) else 0
  }

  lemma {:induction false} PatternLines(log: seq<Entry>, clusters: Clusters, n: nat, render: seq<Slot> -> Bytes,
                                        p: Bytes, b: int)
    requires Counted(log, clusters) && n <= |clusters|
    ensures PatternAmount(clusters, n, render, p, b) == T.Sum(log, PatternHit(clusters, n, render, p, b), One)
    decreases n
  {
    hide R.Amount, R.Increasing;
    if n == 0 {
      forall i | 0 <= i < |log| ensures !PatternHit(clusters, n, render, p, b)(log[i]) {
        assert log[i].id >= 0;
      }
      T.SumNone(log, PatternHit(clusters, n, render, p, b), One);
    } else {
      PatternLines(log, clusters, n - 1, render, p, b);
      if Renders(clusters[n - 1], render, p) {
        T.SumSplit(log, PatternHit(clusters, n, render, p, b), PatternHit(clusters, n - 1, render, p, b),
                   Hit(n - 1, b), One);
      } else {
        T.SumSame(log, PatternHit(clusters, n, render, p, b), PatternHit(clusters, n - 1, render, p, b), One, One);
      }
    }
  }

  lemma AllLines(log: seq<Entry>, clusters: Clusters, render: seq<Slot> -> Bytes, p: Bytes, b: int)
    requires Counted(log, clusters)
    ensures PatternAmount(clusters, |clusters|, render, p, b) == Lines(log, clusters, render, p, b)
  {
    hide Counted, PatternAmount;
    PatternLines(log, clusters, |clusters|, render, p, b);
  }

  function Dead(clusters: Clusters): Entry -> bool {
    (e: Entry) => !InLive(clusters, |clusters|)(e)
  }

  /** The lines counted in templates that were evicted. */
  ghost function Evicted(log: seq<Entry>, clusters: Clusters): int {
    T.Sum(log, Dead(clusters), One)
  }

  lemma Conserved(log: seq<Entry>, clusters: Clusters)
    ensures T.Sum(log, InLive(clusters, |clusters|), One) + Evicted(log, clusters) == |log|
  {
    var all := (e: Entry) => true;
    T.SumSplit(log, all, InLive(clusters, |clusters|), Dead(clusters), One);
    SumLength(log, all);
  }

  lemma {:induction false} SumLength(log: seq<Entry>, all: Entry -> bool)
    requires forall e :: all(e)
    ensures T.Sum(log, all, One) == |log|
    decreases |log|
  {
    if log != [] { SumLength(log[..|log| - 1], all); }
  }

  /** Merging keeps whatever shape the template had, and every line it fitted. */
  lemma MergedFits(slots: seq<Slot>, tokens: seq<Token>)
    requires Shaped(slots, ShapeOf(tokens))
    ensures Fits(Merged(slots, tokens), tokens)
    ensures forall key :: Shaped(slots, key) ==> Shaped(Merged(slots, tokens), key)
    ensures forall line :: Fits(slots, line) ==> Fits(Merged(slots, tokens), line)
  {
    hide ShapeOf, Fits;
    MergedTemplate(slots, tokens);
  }

  lemma Appended(roots: Roots, log: seq<Entry>, clusters: Clusters, c: Option<Cluster>)
    requires Filed(roots, clusters) && Logged(log, clusters) && Counted(log, clusters) && c.Some?
             && c.value.counts == []
    ensures Filed(roots, clusters + [c]) && Logged(log, clusters + [c]) && Counted(log, clusters + [c])
  {
    hide Shaped, Fits, Hits;
    forall b ensures R.Amount([], b) == Hits(log, |clusters|, b) {
      NewId(log, clusters, b);
    }
  }

  lemma Refiled(roots: Roots, clusters: Clusters, key: Shape, leaf: Option<Bytes>, ids: seq<nat>, kept: seq<nat>,
                id: nat)
    requires Filed(roots, clusters) && id < |clusters| && (clusters[id].Some? ==> Shaped(clusters[id].value.slots, key))
    requires ids == if key in roots && leaf in roots[key] then roots[key][leaf] else []
    requires kept == T.Where(ids, Alive(clusters))
    ensures Filed(roots[key := (if key in roots then roots[key] else map[])[leaf := kept + [id]]], clusters)
  {
    hide Shaped;
    T.WhereFrom(ids, Alive(clusters));
    forall j | 0 <= j < |kept| ensures exists m :: 0 <= m < |ids| && ids[m] == kept[j] {
      assert kept[j] in T.Where(ids, Alive(clusters));
    }
  }

  lemma StillFiled(roots: Roots, clusters: Clusters, id: nat, c: Cluster)
    requires Filed(roots, clusters) && id < |clusters| && clusters[id].Some?
    requires forall key :: Shaped(clusters[id].value.slots, key) ==> Shaped(c.slots, key)
    ensures Filed(roots, clusters[id := Some(c)])
  {
    hide Shaped;
  }

  lemma StillLogged(log: seq<Entry>, clusters: Clusters, id: nat, c: Cluster, e: Entry)
    requires Logged(log, clusters) && id < |clusters| && clusters[id].Some? && e.id == id && Fits(c.slots, e.tokens)
    requires forall line :: Fits(clusters[id].value.slots, line) ==> Fits(c.slots, line)
    ensures Logged(log + [e], clusters[id := Some(c)])
  {
    hide Fits;
  }

  lemma StillCounted(log: seq<Entry>, clusters: Clusters, id: nat, c: Cluster, e: Entry)
    requires Counted(log, clusters) && id < |clusters| && clusters[id].Some? && e.id == id
    requires c.counts == R.AddTo(clusters[id].value.counts, e.bucket, 1)
    ensures Counted(log + [e], clusters[id := Some(c)])
  {
    hide Hits, R.Amount, R.AddTo, R.Increasing;
    R.AddToKeys(clusters[id].value.counts, e.bucket, 1);
    forall b ensures R.Amount(c.counts, b) == Hits(log + [e], id, b) {
      R.AddToAmount(clusters[id].value.counts, e.bucket, 1, b);
      HitsSnoc(log, e, id, b);
    }
    forall other, b | other != id ensures Hits(log + [e], other, b) == Hits(log, other, b) {
      HitsSnoc(log, e, other, b);
    }
  }

  /** A line worth mining starts with no space and has a first word. */
  lemma MinedLine(line: Bytes)
    requires TokensOf(line).Some?
    ensures Line(TokensOf(line).value) && FirstWord(TokensOf(line).value).Some?
  {
    hide Spaced, Lex, WordCount;
    var tokens := TokensOf(line).value;
    LexSpaced(line, false, true);
    HasWord(tokens);
    FindsWord(tokens);
  }

  lemma NoMatchWithout(roots: Roots, was: Clusters, now: Clusters, key: Shape, word: Bytes, tokens: seq<Token>)
    requires NoMatch(roots, was, key, word, tokens)
    requires exists id: nat :: IsOldest(was, id) && now == was[id := None]
    ensures NoMatch(roots, now, key, word, tokens)
  {
    hide Enough, ScoreOf, Candidates;
  }

  lemma RoomyLives(was: Clusters, live: nat, now: Clusters)
    requires Roomy(was, live, now)
    ensures |now| == |was| && forall i :: 0 <= i < |now| && now[i].Some? ==> was[i].Some?
  {
  }

  lemma PlacesMatch(roots: Roots, clusters: Clusters, places: seq<Place>)
    requires Arranged(roots, FormsOf(clusters), places)
    ensures |places| == |clusters|
  {
    hide Standing, Shelved, Listed, Digitless, Far;
  }

  lemma BegunStill(log: seq<Entry>, was: Clusters, now: Clusters, places: seq<Place>, e: Entry)
    requires Begun(log, was, places) && |was| == |now|
    requires forall i :: 0 <= i < |now| && now[i].Some? ==> was[i].Some?
    ensures Begun(log + [e], now, places)
  {
    forall id | 0 <= id < |now| && now[id].Some? ensures Trains(log + [e], places[id].first) {
      var j :| 0 <= j < |log| && log[j].tokens == places[id].first;
      assert (log + [e])[j] == log[j];
    }
  }

  lemma BegunNew(log: seq<Entry>, was: Clusters, now: Clusters, before: seq<Place>, places: seq<Place>, e: Entry)
    requires Begun(log, was, before) && |was| == |before| && |now| == |places| == |was| + 1 && places[..|was|] == before
    requires forall i :: 0 <= i < |was| && now[i].Some? ==> was[i].Some?
    requires places[|was|].first == e.tokens
    ensures Begun(log + [e], now, places)
  {
    BegunStill(log, was, now[..|was|], before, e);
    forall id | 0 <= id < |now| && now[id].Some? ensures Trains(log + [e], places[id].first) {
      if id < |was| {
        assert now[..|was|][id] == now[id] && places[id] == before[id];
      } else {
        assert (log + [e])[|log|] == e;
      }
    }
  }

  lemma MatchLives(roots: Roots, clusters: Clusters, key: Shape, word: Bytes, tokens: seq<Token>, id: nat)
    requires IsMatch(roots, clusters, key, word, tokens, id)
    ensures id < |clusters| && clusters[id].Some? && !NoMatch(roots, clusters, key, word, tokens)
    ensures id in Candidates(roots, key, word) && Enough(ScoreOf(clusters[id].value.slots, tokens))
  {
    hide Enough, Better, Similar;
  }

  /** Filing looks at which templates live, not at what they count. */
  lemma StillAlive(roots: Roots, a: Clusters, b: Clusters, key: Shape, word: Bytes, id: nat)
    requires |a| == |b| && forall i :: 0 <= i < |a| ==> a[i].Some? == b[i].Some?
    ensures FiledUnder(roots, a, key, word, id) == FiledUnder(roots, b, key, word, id)
  {
    var leaves := if key in roots then roots[key] else map[];
    var leaf := InsertLeaf(leaves, word);
    SameAlive(if leaf in leaves then leaves[leaf] else [], a, b);
  }

  lemma {:induction false} SameAlive(ids: seq<nat>, a: Clusters, b: Clusters)
    requires |a| == |b| && forall i :: 0 <= i < |a| ==> a[i].Some? == b[i].Some?
    ensures T.Where(ids, Alive(a)) == T.Where(ids, Alive(b))
    decreases |ids|
  {
    if ids != [] { SameAlive(ids[..|ids| - 1], a, b); }
  }
}
