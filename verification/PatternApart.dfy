/**
 Live templates are never equal: a line that another template will ever cover joins a template
 instead of starting one. Hence two of them render alike only through the word `<_>`.
 */
module PatternApart {
  import opened Prelude
  import opened Text
  import opened Patterns
  import opened PatternTree
  import T = Tally

  // ---- Literals --------------------------------------------------------------

  /** How many of the first `n` slots are literal words. */
  function Literals(slots: seq<Slot>, n: nat): nat
    requires n <= |slots|
  {
    if n == 0 then 0
    else Literals(slots, n - 1) + if slots[n - 1].kind == Word && slots[n - 1].text.Some? then 1 else 0
  }

  function Words(slots: seq<Slot>, n: nat): nat
    requires n <= |slots|
  {
    if n == 0 then 0 else Words(slots, n - 1) + if slots[n - 1].kind == Word then 1 else 0
  }

  /** Enough of a template's words are literal that a line with all of them is similar enough. */
  predicate Telling(slots: seq<Slot>) {
    Enough(Score(Literals(slots, |slots|), Words(slots, |slots|), 0))
  }

  lemma {:induction false} SimilarWords(slots: seq<Slot>, tokens: seq<Token>, n: nat)
    requires n <= |slots| == |tokens|
    ensures Similar(slots, tokens, n).words == Words(slots, n)
    ensures Fits(slots, tokens) ==> Similar(slots, tokens, n).same == Literals(slots, n)
  {
    if n > 0 { SimilarWords(slots, tokens, n - 1); }
  }

  /** Joining a line leaves the literals the line has. */
  lemma {:induction false} MergedLiterals(slots: seq<Slot>, tokens: seq<Token>, n: nat)
    requires n <= |slots| == |tokens|
    ensures Literals(Merged(slots, tokens), n) == Similar(slots, tokens, n).same
    ensures Words(Merged(slots, tokens), n) == Words(slots, n)
  {
    if n > 0 { MergedLiterals(slots, tokens, n - 1); }
  }

  /** Joining a line brings a template no closer to any other line. */
  lemma {:induction false} MergedScore(slots: seq<Slot>, tokens: seq<Token>, line: seq<Token>, n: nat)
    requires n <= |slots| == |tokens| == |line|
    ensures Similar(Merged(slots, tokens), line, n).same <= Similar(slots, line, n).same
    ensures Similar(Merged(slots, tokens), line, n).words == Similar(slots, line, n).words
  {
    if n > 0 { MergedScore(slots, tokens, line, n - 1); }
  }

  lemma {:induction false} FreshLiterals(tokens: seq<Token>, n: nat)
    requires n <= |tokens|
    ensures Literals(Fresh(tokens), n) == Words(Fresh(tokens), n)
  {
    if n > 0 { FreshLiterals(tokens, n - 1); }
  }

  lemma TellingFresh(tokens: seq<Token>)
    ensures Telling(Fresh(tokens))
  {
    FreshLiterals(tokens, |tokens|);
  }

  lemma TellingMerged(slots: seq<Slot>, tokens: seq<Token>)
    requires |slots| == |tokens| && Enough(ScoreOf(slots, tokens))
    ensures Telling(Merged(slots, tokens))
  {
    MergedLiterals(slots, tokens, |slots|);
    SimilarWords(slots, tokens, |slots|);
  }

  /** A line that has all literals of a telling template is similar enough to it. */
  lemma TellingFits(slots: seq<Slot>, line: seq<Token>)
    requires Telling(slots) && Fits(slots, line)
    ensures Enough(ScoreOf(slots, line))
  {
    SimilarWords(slots, line, |slots|);
  }

  lemma StillFar(slots: seq<Slot>, tokens: seq<Token>, line: seq<Token>)
    requires |slots| == |tokens| == |line| && !Enough(ScoreOf(slots, line))
    ensures !Enough(ScoreOf(Merged(slots, tokens), line))
  {
    MergedScore(slots, tokens, line, |slots|);
  }

  // ---- First words -----------------------------------------------------------

  /** Where the first word is. */
  function WordAt(tokens: seq<Token>): nat {
    if tokens == [] || tokens[0].kind == Word then 0 else 1 + WordAt(tokens[1..])
  }

  lemma {:induction false} WordAtIs(tokens: seq<Token>)
    requires FirstWord(tokens).Some?
    ensures WordAt(tokens) < |tokens| && tokens[WordAt(tokens)].kind == Word
    ensures tokens[WordAt(tokens)].text == FirstWord(tokens).value
    decreases |tokens|
  {
    if tokens[0].kind != Word { WordAtIs(tokens[1..]); }
  }

  lemma {:induction false} WordAtAlike(a: seq<Token>, b: seq<Token>)
    requires |a| == |b| && forall i :: 0 <= i < |a| ==> a[i].kind == b[i].kind
    ensures WordAt(a) == WordAt(b)
    decreases |a|
  {
    if a != [] && a[0].kind != Word { WordAtAlike(a[1..], b[1..]); }
  }

  // ---- Places ----------------------------------------------------------------

  /** The line a template was started with, and the leaf it was filed in. */
  datatype Place = Place(first: seq<Token>, leaf: Option<Bytes>)

  /** The slots of each template that lives. */
  type Forms = seq<Option<seq<Slot>>>

  function FormsOf(clusters: Clusters): Forms {
    seq(|clusters|, i requires 0 <= i < |clusters| =>
        if clusters[i].Some? then Some(clusters[i].value.slots) else None)
  }

  /** Tokens that could be a mined line's. */
  predicate Line(tokens: seq<Token>) {
    Spaced(tokens) && tokens != [] && !tokens[0].spaceBefore && FirstWord(tokens).Some?
  }

  /** The line with some of its words given up. */
  ghost predicate Covers(slots: seq<Slot>, line: seq<Token>) {
    && Fits(slots, line)
    && forall i :: 0 <= i < |slots| ==>
         slots[i].spaceBefore == line[i].spaceBefore && (slots[i].kind == Punct ==> slots[i].text.Some?)
  }

  /** A template covers its first line, is telling, and keeps the word of its leaf. */
  ghost predicate Standing(slots: seq<Slot>, p: Place) {
    && Line(p.first) && Covers(slots, p.first) && Telling(slots)
    && (p.leaf.Some? ==> FirstWord(p.first) == p.leaf && Headed(slots, p.first, p.leaf))
  }

  ghost predicate Headed(slots: seq<Slot>, line: seq<Token>, word: Option<Bytes>) {
    WordAt(line) < |slots| && slots[WordAt(line)].text == word
  }

  /** The template is listed in its leaf; those without a leaf for their word never get one. */
  ghost predicate Shelved(roots: Roots, p: Place, id: nat)
    requires Line(p.first)
  {
    var key, word := ShapeOf(p.first), FirstWord(p.first).value;
    && key in roots && p.leaf in roots[key] && id in roots[key][p.leaf]
    && (p.leaf.None? ==> Some(word) !in roots[key] && (HasDigit(word) || |roots[key]| + 1 >= MAX_CHILDREN))
  }

  /** Leaves list templates filed in them. */
  ghost predicate Listed(roots: Roots, places: seq<Place>) {
    forall key, leaf, id {:trigger id in roots[key][leaf]} ::
      key in roots && leaf in roots[key] && id in roots[key][leaf] ==>
        id < |places| && ShapeOf(places[id].first) == key && places[id].leaf == leaf
  }

  ghost predicate Digitless(roots: Roots) {
    forall key, word :: key in roots && Some(word) in roots[key] ==> !HasDigit(word)
  }

  /** In one leaf, no template is similar enough to the first line of a later one. */
  ghost predicate Far(slots: seq<Slot>, p: Place, q: Place) {
    ShapeOf(p.first) == ShapeOf(q.first) && p.leaf == q.leaf ==> !Enough(ScoreOf(slots, q.first))
  }

  ghost predicate Arranged(roots: Roots, forms: Forms, places: seq<Place>) {
    && |places| == |forms| && Listed(roots, places) && Digitless(roots)
    && (forall id :: 0 <= id < |forms| && forms[id].Some? ==>
          Standing(forms[id].value, places[id]) && Shelved(roots, places[id], id))
    && (forall a, b :: 0 <= a < b < |forms| && forms[a].Some? && forms[b].Some? ==>
          Far(forms[a].value, places[a], places[b]))
  }

  // ---- Equal templates -------------------------------------------------------

  lemma CoveredAlike(slots: seq<Slot>, a: seq<Token>, b: seq<Token>)
    requires Covers(slots, a) && Covers(slots, b)
    ensures ShapeOf(a) == ShapeOf(b) && WordAt(a) == WordAt(b)
  {
    ShapeIsAlike(a, b);
    WordAtAlike(a, b);
  }

  lemma ScoreFar(slots: seq<Slot>, p: Place, q: Place)
    requires Standing(slots, p) && Standing(slots, q)
    ensures ShapeOf(p.first) == ShapeOf(q.first)
    ensures p.leaf == q.leaf ==> !Far(slots, p, q)
  {
    hide ShapeOf, Spaced, Telling, Enough, ScoreOf;
    CoveredAlike(slots, p.first, q.first);
    TellingFits(slots, q.first);
  }

  /** Equal templates would be filed in one leaf. */
  lemma SameLeaf(roots: Roots, slots: seq<Slot>, p: Place, i: nat, q: Place, j: nat)
    requires Standing(slots, p) && Standing(slots, q) && Shelved(roots, p, i) && Shelved(roots, q, j)
    ensures p.leaf == q.leaf
  {
    hide ShapeOf, Spaced, Telling, HasDigit;
    CoveredAlike(slots, p.first, q.first);
    WordAtIs(p.first);
    WordAtIs(q.first);
  }

  /** No two live templates are equal. */
  lemma NeverEqual(roots: Roots, forms: Forms, places: seq<Place>, a: nat, b: nat)
    requires Arranged(roots, forms, places) && a < |forms| && b < |forms| && a != b
    requires forms[a].Some? && forms[b].Some?
    ensures forms[a] != forms[b]
  {
    hide Standing, Shelved, Listed, Digitless, Far;
    if forms[a] == forms[b] {
      var slots, first, later := forms[a].value, if a < b then a else b, if a < b then b else a;
      SameLeaf(roots, slots, places[first], first, places[later], later);
      ScoreFar(slots, places[first], places[later]);
    }
  }

  // ---- What every step keeps -------------------------------------------------

  lemma ArrangedNone()
    ensures Arranged(map[], [], [])
  {
  }

  /** A template is dropped. */
  lemma ArrangedWithout(roots: Roots, forms: Forms, places: seq<Place>, id: nat)
    requires Arranged(roots, forms, places) && id < |forms|
    ensures Arranged(roots, forms[id := None], places)
  {
    hide Standing, Shelved, Listed, Digitless, Far;
  }

  /** A template joined by a line of its leaf still stands. */
  lemma {:induction false} StandingMerged(slots: seq<Slot>, p: Place, tokens: seq<Token>)
    requires Standing(slots, p) && ShapeOf(tokens) == ShapeOf(p.first) && Enough(ScoreOf(slots, tokens))
    requires p.leaf.Some? ==> FirstWord(tokens) == p.leaf
    ensures |slots| == |tokens| && Standing(Merged(slots, tokens), p)
  {
    hide Spaced, Telling, Enough, ScoreOf, FirstWord, WordAt;
    ShapeIsAlike(tokens, p.first);
    TellingMerged(slots, tokens);
    if p.leaf.Some? {
      WordAtIs(tokens);
      WordAtAlike(tokens, p.first);
    }
  }

  lemma FarMerged(slots: seq<Slot>, p: Place, q: Place, tokens: seq<Token>)
    requires Far(slots, p, q) && |slots| == |tokens| && Fits(slots, p.first)
    ensures Far(Merged(slots, tokens), p, q)
  {
    hide Enough, ScoreOf;
    if ShapeOf(p.first) == ShapeOf(q.first) && p.leaf == q.leaf {
      StillFar(slots, tokens, q.first);
    }
  }

  /** A line joins a template it was compared with. */
  lemma ArrangedJoined(roots: Roots, forms: Forms, places: seq<Place>, id: nat, tokens: seq<Token>)
    requires Arranged(roots, forms, places) && id < |forms| && forms[id].Some? && FirstWord(tokens).Some?
    requires id in Candidates(roots, ShapeOf(tokens), FirstWord(tokens).value)
    requires Enough(ScoreOf(forms[id].value, tokens))
    ensures Arranged(roots, forms[id := Some(Merged(forms[id].value, tokens))], places)
  {
    hide Standing, Shelved, Digitless, Far, ShapeOf, Merged, ScoreOf, Enough, FirstWord;
    var slots, p := forms[id].value, places[id];
    StandingMerged(slots, p, tokens);
    StandingFits(slots, p);
    forall b | id < b < |forms| && forms[b].Some? ensures Far(Merged(slots, tokens), p, places[b]) {
      FarMerged(slots, p, places[b], tokens);
    }
  }

  lemma StandingFits(slots: seq<Slot>, p: Place)
    requires Standing(slots, p)
    ensures Fits(slots, p.first) && Line(p.first)
  {
  }

  lemma StandingCovers(slots: seq<Slot>, p: Place)
    requires Standing(slots, p)
    ensures Covers(slots, p.first) && Line(p.first)
  {
  }

  function PlaceOf(roots: Roots, tokens: seq<Token>, word: Bytes): Place {
    var key := ShapeOf(tokens);
    Place(tokens, InsertLeaf(if key in roots then roots[key] else map[], word))
  }

  lemma StandingFresh(roots: Roots, tokens: seq<Token>)
    requires Line(tokens)
    ensures Standing(Fresh(tokens), PlaceOf(roots, tokens, FirstWord(tokens).value))
  {
    hide Spaced, Telling, ShapeOf, FirstWord, WordAt;
    FreshTemplate(tokens);
    TellingFresh(tokens);
    WordAtIs(tokens);
  }

  /** A template filed before is still in its place when another is filed. */
  lemma ShelvedStill(roots: Roots, clusters: Clusters, key: Shape, word: Bytes, id: nat, p: Place, other: nat)
    requires Line(p.first) && Shelved(roots, p, other) && other < |clusters| && clusters[other].Some?
    ensures Shelved(FiledUnder(roots, clusters, key, word, id), p, other)
  {
    hide ShapeOf, FirstWord, HasDigit, Line, T.Where;
    if ShapeOf(p.first) == key {
      var leaves := roots[key];
      var leaf := InsertLeaf(leaves, word);
      var next := leaves[leaf := T.Where(if leaf in leaves then leaves[leaf] else [], Alive(clusters)) + [id]];
      assert next.Keys == leaves.Keys + {leaf};
      if p.leaf == leaf { T.WhereHas(leaves[leaf], Alive(clusters), other); }
    }
  }

  lemma ShelvedNew(roots: Roots, clusters: Clusters, tokens: seq<Token>, id: nat)
    requires Line(tokens) && Digitless(roots)
    ensures var word := FirstWord(tokens).value;
            Shelved(FiledUnder(roots, clusters, ShapeOf(tokens), word, id), PlaceOf(roots, tokens, word), id)
  {
    hide ShapeOf, HasDigit, Spaced;
    var word := FirstWord(tokens).value;
    hide FirstWord;
    LeavesNew(roots, clusters, ShapeOf(tokens), word, id);
  }

  lemma LeavesNew(roots: Roots, clusters: Clusters, key: Shape, word: Bytes, id: nat)
    requires Digitless(roots)
    ensures var leaf := InsertLeaf(if key in roots then roots[key] else map[], word);
            var next := FiledUnder(roots, clusters, key, word, id);
            && key in next && leaf in next[key] && id in next[key][leaf]
            && (leaf.None? ==> Some(word) !in next[key] && (HasDigit(word) || |next[key]| + 1 >= MAX_CHILDREN))
  {
    hide HasDigit, T.Where;
    var leaves := if key in roots then roots[key] else map[];
    var leaf := InsertLeaf(leaves, word);
    var next := FiledUnder(roots, clusters, key, word, id)[key];
    assert next.Keys == leaves.Keys + {leaf};
    if leaf !in leaves {
      assert |next| == |next.Keys| && |leaves| == |leaves.Keys|;
    } else {
      assert next.Keys == leaves.Keys && |next| == |next.Keys| && |leaves| == |leaves.Keys|;
    }
  }

  lemma ListedNew(roots: Roots, clusters: Clusters, places: seq<Place>, tokens: seq<Token>, word: Bytes)
    requires Listed(roots, places) && Digitless(roots)
    ensures var next := FiledUnder(roots, clusters, ShapeOf(tokens), word, |places|);
            Listed(next, places + [PlaceOf(roots, tokens, word)]) && Digitless(next)
  {
    hide ShapeOf, HasDigit, T.Where;
    var key := ShapeOf(tokens);
    var leaves := if key in roots then roots[key] else map[];
    var leaf := InsertLeaf(leaves, word);
    T.WhereFrom(if leaf in leaves then leaves[leaf] else [], Alive(clusters));
  }

  /** A new template is far from those in its leaf: its line was compared with them. */
  lemma FarNew(roots: Roots, clusters: Clusters, tokens: seq<Token>, p: Place, id: nat)
    requires Line(tokens) && Line(p.first) && Digitless(roots) && Shelved(roots, p, id) && LiveAt(clusters, id)
    requires NoMatch(roots, clusters, ShapeOf(tokens), FirstWord(tokens).value, tokens)
    ensures Far(clusters[id].value.slots, p, PlaceOf(roots, tokens, FirstWord(tokens).value))
  {
    hide ShapeOf, FirstWord, HasDigit, Line, ScoreOf, Enough;
  }

  /** A line no template of its leaf is similar enough to starts a template. */
  lemma ArrangedNew(roots: Roots, clusters: Clusters, places: seq<Place>, tokens: seq<Token>, c: Cluster)
    requires Arranged(roots, FormsOf(clusters), places) && Line(tokens) && c.slots == Fresh(tokens)
    requires NoMatch(roots, clusters, ShapeOf(tokens), FirstWord(tokens).value, tokens)
    ensures var word, more := FirstWord(tokens).value, clusters + [Some(c)];
            Arranged(FiledUnder(roots, more, ShapeOf(tokens), word, |clusters|), FormsOf(more),
                     places + [PlaceOf(roots, tokens, word)])
  {
    hide Standing, Shelved, Listed, Digitless, Far, ShapeOf, FirstWord, Spaced, NoMatch, FiledUnder, PlaceOf, Fresh;
    var key, word, more, n := ShapeOf(tokens), FirstWord(tokens).value, clusters + [Some(c)], |clusters|;
    var forms, next := FormsOf(more), FiledUnder(roots, more, ShapeOf(tokens), FirstWord(tokens).value, n);
    assert forall i :: 0 <= i < n ==> forms[i] == FormsOf(clusters)[i];
    ListedNew(roots, more, places, tokens, word);
    StandingFresh(roots, tokens);
    ShelvedNew(roots, more, tokens, n);
    forall i | 0 <= i < n && forms[i].Some?
      ensures Line(places[i].first) && Shelved(next, places[i], i)
      ensures Far(forms[i].value, places[i], PlaceOf(roots, tokens, word))
    {
      StandingFits(forms[i].value, places[i]);
      ShelvedStill(roots, more, key, word, n, places[i], i);
      FarNew(roots, clusters, tokens, places[i], i);
    }
  }

  // ---- Rendering -------------------------------------------------------------

  /** The slots as the tokens a pattern shows. */
  function Filled(slots: seq<Slot>): seq<Token> {
    seq(|slots|, i requires 0 <= i < |slots| =>
        Token(if slots[i].text.Some? then slots[i].text.value else WILDCARD, slots[i].kind, slots[i].spaceBefore))
  }

  lemma FilledLine(slots: seq<Slot>, line: seq<Token>)
    requires Covers(slots, line) && Line(line)
    ensures Spaced(Filled(slots)) && Filled(slots) != [] && !Filled(slots)[0].spaceBefore
  {
    hide FirstWord, Wellformed;
    WildcardWord();
    forall i | 0 <= i < |slots| ensures Wellformed(Filled(slots)[i]) {
      if slots[i].text.Some? { SameWellformed(line[i], Filled(slots)[i]); }
    }
  }

  lemma WildcardWord()
    ensures forall b :: Wellformed(Token(WILDCARD, Word, b))
  {
  }

  lemma SameWellformed(a: Token, b: Token)
    requires Wellformed(a) && a.kind == b.kind && a.text == b.text
    ensures Wellformed(b)
  {
  }

  /** Wildcards of a line's template never touch, so all of them show. */
  lemma {:induction false} AllShown(slots: seq<Slot>)
    requires forall i :: 0 < i < |slots| && slots[i - 1].text.None? && slots[i].text.None? ==> slots[i].spaceBefore
    ensures Shown(slots) == slots
    decreases |slots|
  {
    if slots != [] {
      var n := |slots| - 1;
      AllShown(slots[..n]);
      assert slots == slots[..n] + [slots[n]];
    }
  }

  lemma {:induction false} WrittenSpells(slots: seq<Slot>)
    ensures WrittenAll(slots) == Spell(Filled(slots))
    decreases |slots|
  {
    hide Spell;
    if slots == [] {
      SpellCons(Filled(slots));
    } else {
      var n := |slots| - 1;
      WrittenSpells(slots[..n]);
      SpellSnoc(Filled(slots[..n]), Filled(slots)[n]);
      assert Filled(slots) == Filled(slots[..n]) + [Filled(slots)[n]];
    }
  }

  lemma {:induction false} SpellSnoc(tokens: seq<Token>, t: Token)
    ensures Spell(tokens + [t]) == Spell(tokens) + ((if t.spaceBefore then [32] else []) + t.text)
    decreases |tokens|
  {
    if tokens == [] {
      assert tokens + [t] == [t] && [t][1..] == [];
    } else {
      assert (tokens + [t])[1..] == tokens[1..] + [t];
      SpellSnoc(tokens[1..], t);
    }
  }

  /** What a template of a line renders to splits into what it shows. */
  lemma RenderedSplits(slots: seq<Slot>, line: seq<Token>)
    requires Covers(slots, line) && Line(line)
    ensures Rendered(slots) == Spell(Filled(slots)) && Lex(Rendered(slots), false, true) == Filled(slots)
  {
    hide Spell, Lex, Wellformed, FirstWord, Shown, WrittenAll;
    FilledLine(slots, line);
    AllShown(slots);
    WrittenSpells(slots);
    LexSpells(Filled(slots), true);
  }

  /** One has the word `<_>` where the other has a wildcard. */
  predicate Confused(a: Slot, b: Slot) {
    a == Slot(Some(WILDCARD), Word, a.spaceBefore) && b == a.(text := None)
  }

  /** Two templates of lines render alike exactly when they differ only in the word `<_>` for a wildcard. */
  lemma RenderAlike(a: seq<Slot>, b: seq<Slot>, first: seq<Token>, other: seq<Token>)
    requires Covers(a, first) && Line(first) && Covers(b, other) && Line(other)
    ensures Rendered(a) == Rendered(b) <==>
            |a| == |b| && forall i :: 0 <= i < |a| ==> a[i] == b[i] || Confused(a[i], b[i]) || Confused(b[i], a[i])
  {
    hide Rendered, Lex, Line, Spell;
    RenderedSplits(a, first);
    RenderedSplits(b, other);
    if Rendered(a) == Rendered(b) {
      forall i | 0 <= i < |a| ensures a[i] == b[i] || Confused(a[i], b[i]) || Confused(b[i], a[i]) {
        assert Filled(a)[i] == Filled(b)[i];
      }
    }
    if |a| == |b| && forall i :: 0 <= i < |a| ==> a[i] == b[i] || Confused(a[i], b[i]) || Confused(b[i], a[i]) {
      assert Filled(a) == Filled(b);
    }
  }
}
