/**
 A run of the miner that ends with two templates of one pattern: lines with the word `<_>` make
 it report a larger total after a smaller one.
 */
module PatternTwins {
  import opened Prelude
  import opened Text
  import opened Patterns
  import opened PatternMiner
  import opened PatternTree
  import Q = PatternReport
  import R = RunTotals
  import T = Tally

  // ---- Lines of two words ----------------------------------------------------

  predicate PlainWord(a: Bytes) {
    a != [] && |a| <= 8 && forall i :: 0 <= i < |a| ==> InWord(a[i])
  }

  function Pair(a: Bytes, b: Bytes): seq<Token> {
    [Token(a, Word, false), Token(b, Word, true)]
  }

  const KEY: Shape := (2, [])

  lemma PairTokens(a: Bytes, b: Bytes)
    requires PlainWord(a) && PlainWord(b)
    ensures TokensOf(a + [32] + b) == Some(Pair(a, b)) && |a + [32] + b| <= MAX_LINE_BYTES
    ensures ShapeOf(Pair(a, b)) == KEY && FirstWord(Pair(a, b)) == Some(a)
  {
    hide InWord, Lex, Spell;
    var tokens := Pair(a, b);
    assert Spaced(tokens);
    LexSpells(tokens, true);
    PairSpelled(a, b);
    PairCounted(a, b);
  }

  lemma PairSpelled(a: Bytes, b: Bytes)
    ensures Spell(Pair(a, b)) == a + [32] + b
  {
    hide Spell;
    var tokens := Pair(a, b);
    var rest := tokens[1..];
    SpellCons(tokens);
    SpellCons(rest);
    SpellCons(rest[1..]);
    assert rest[1..] == [] && rest[0] == tokens[1];
    assert a + ([32] + (b + [])) == a + [32] + b;
  }

  lemma PairCounted(a: Bytes, b: Bytes)
    ensures WordCount(Pair(a, b)) == 2 && Puncts(Pair(a, b)) == []
  {
    var tokens := Pair(a, b);
    var one := tokens[..1];
    assert one[..0] == [] && one[0] == tokens[0];
    assert Puncts(one) == Puncts(one[..0]) == [];
    T.SumSnoc([], one[0], IsWord, OneWord);
    T.SumSnoc(one, tokens[1], IsWord, OneWord);
    assert [] + [one[0]] == one && one + [tokens[1]] == tokens;
  }

  // ---- Steps -----------------------------------------------------------------

  function LeavesIn(roots: Roots): Leaves {
    if KEY in roots then roots[KEY] else map[]
  }

  lemma {:induction false} FewLive(clusters: Clusters)
    ensures Live(clusters) <= |clusters|
  {
    if clusters != [] {
      FewLive(clusters[..|clusters| - 1]);
    }
  }

  /** A line without a leaf to look in starts a template in a leaf of its own. */
  method Start(m: Miner, a: Bytes, b: Bytes)
    requires m.Valid() && m.start == 0 && m.step == 1 && |m.clusters| < 500 && PlainWord(a) && PlainWord(b)
    requires SearchLeaf(LeavesIn(m.roots), a).None? && InsertLeaf(LeavesIn(m.roots), a) !in LeavesIn(m.roots)
    modifies m
    ensures m.Valid() && m.log == old(m.log) + [Entry(|old(m.clusters)|, 0, Pair(a, b))]
    ensures m.clusters == old(m.clusters) + [Some(Cluster(Fresh(Pair(a, b)), [(0, 1)], m.clock))]
    ensures LeavesIn(m.roots) ==
            old(LeavesIn(m.roots))[InsertLeaf(old(LeavesIn(m.roots)), a) := [|old(m.clusters)|]]
  {
    hide m.Valid, TokensOf, FirstWord, ShapeOf, HasDigit, Fresh, PlainWord;
    PairTokens(a, b);
    RoomLeft(m);
    m.Train(0, a + [32] + b);
    assert NoMatch(old(m.roots), old(m.clusters), KEY, a, Pair(a, b));
    var n := |old(m.clusters)|;
    assert m.clusters == m.clusters[..n] + [m.clusters[n]];
    ghost var none: seq<nat> := [];
    T.WhereNothing(none, Alive(m.clusters));
    assert none + [n] == [n];
  }

  lemma RoomLeft(m: Miner)
    requires m.Valid() && |m.clusters| < 500
    ensures m.live < MAX_CLUSTERS
  {
    hide Live;
    FewLive(m.clusters);
  }

  /** A line whose leaf lists one template, which is similar enough, joins it. */
  method Join(m: Miner, a: Bytes, b: Bytes, id: nat)
    requires m.Valid() && m.start == 0 && m.step == 1 && PlainWord(a) && PlainWord(b) && LiveAt(m.clusters, id)
    requires Candidates(m.roots, KEY, a) == [id] && Enough(ScoreOf(m.clusters[id].value.slots, Pair(a, b)))
    modifies m
    ensures m.Valid() && m.roots == old(m.roots) && m.log == old(m.log) + [Entry(id, 0, Pair(a, b))]
    ensures var c := old(m.clusters)[id].value;
            m.clusters ==
            old(m.clusters)[id := Some(Cluster(Merged(c.slots, Pair(a, b)), R.AddTo(c.counts, 0, 1), m.clock))]
  {
    hide m.Valid, TokensOf, FirstWord, ShapeOf, Candidates, Enough, Better, ScoreOf, Merged, PlainWord;
    PairTokens(a, b);
    m.Train(0, a + [32] + b);
    assert id in [id];
    assert !NoMatch(old(m.roots), old(m.clusters), KEY, a, Pair(a, b));
  }

  // ---- The run ---------------------------------------------------------------

  const Y: Bytes := [121]
  const Z: Bytes := [122]
  const A: Bytes := [97]
  const B: Bytes := [98]
  const ONE: Bytes := [49]
  const TWO: Bytes := [50]

  lemma Vocabulary()
    ensures PlainWord(Y) && PlainWord(Z) && PlainWord(A) && PlainWord(B) && PlainWord(ONE) && PlainWord(TWO)
    ensures PlainWord(WILDCARD)
    ensures !HasDigit(Y) && !HasDigit(WILDCARD) && HasDigit(ONE)
  {
    Letters();
    hide InWord;
    assert ONE[0] == '1' as int;
  }

  lemma Letters()
    ensures InWord(121) && InWord(122) && InWord(97) && InWord(98) && InWord(49) && InWord(50)
    ensures InWord(60) && InWord(95) && InWord(62)
  {
    hide InWord;
    Letter(121);
    Letter(122);
    Letter(97);
    Letter(98);
    Letter(49);
    Letter(50);
    Letter(60);
    Letter(95);
    Letter(62);
  }

  lemma Letter(b: byte)
    requires 94 < b < 123 || b == 49 || b == 50 || b == 60 || b == 62
    ensures InWord(b)
  {
  }

  function Shown2(first: Option<Bytes>, second: Option<Bytes>): seq<Slot> {
    [Slot(first, Word, false), Slot(second, Word, true)]
  }

  lemma Pairs(a: Bytes, b: Bytes, c: Bytes, d: Bytes)
    ensures Fresh(Pair(a, b)) == Shown2(Some(a), Some(b))
    ensures Merged(Shown2(Some(a), Some(b)), Pair(c, d)) ==
            Shown2(if a == c then Some(a) else None, if b == d then Some(b) else None)
    ensures a == c || b == d ==> Enough(ScoreOf(Shown2(Some(a), Some(b)), Pair(c, d)))
  {
    var slots, tokens := Shown2(Some(a), Some(b)), Pair(c, d);
    var s := Similar(slots, tokens, 1);
    assert Similar(slots, tokens, 0) == Score(0, 0, 0);
    assert s == Score(if a == c then 1 else 0, 1, 0);
    assert Similar(slots, tokens, 2) == Score(s.same + if b == d then 1 else 0, 2, 0);
  }

  /** What the miner knows when the run ends. */
  ghost predicate Ended(clusters: Clusters) {
    && |clusters| == 3 && (forall i :: 0 <= i < 3 ==> clusters[i].Some?)
    && clusters[0].value.slots == Shown2(Some(Y), Some(Z)) && clusters[0].value.counts == [(0, 3)]
    && clusters[1].value.slots == Shown2(Some(WILDCARD), None) && clusters[1].value.counts == [(0, 2)]
    && clusters[2].value.slots == Shown2(None, Some(WILDCARD)) && clusters[2].value.counts == [(0, 2)]
  }

  lemma Twice()
    ensures R.AddTo([(0, 1)], 0, 1) == [(0, 2)] && R.AddTo([(0, 2)], 0, 1) == [(0, 3)]
    ensures R.CountTotal([(0, 2)]) == 2 && R.CountTotal([(0, 3)]) == 3
  {
    assert [(0, 2)][..0] == [] && [(0, 3)][..0] == [] && [(0, 1)][..0] == [];
    R.CountTotalSnoc([], (0, 2));
    R.CountTotalSnoc([], (0, 3));
    assert [] + [(0, 2)] == [(0, 2)] && [] + [(0, 3)] == [(0, 3)];
  }

  /** `y z` three times, `<_> a`, `<_> b`, `1 <_>` and `2 <_>`, with the templates they are counted in. */
  const RUN: seq<Entry> :=
    [Entry(0, 0, Pair(Y, Z)), Entry(0, 0, Pair(Y, Z)), Entry(0, 0, Pair(Y, Z)), Entry(1, 0, Pair(WILDCARD, A)),
     Entry(1, 0, Pair(WILDCARD, B)), Entry(2, 0, Pair(ONE, WILDCARD)), Entry(2, 0, Pair(TWO, WILDCARD))]

  /** The template of `y z`, and the leaf of `y`. */
  method TrainFirst() returns (m: Miner)
    ensures fresh(m) && m.Valid() && m.start == 0 && m.step == 1
    ensures m.log == RUN[..3] && LeavesIn(m.roots) == map[Some(Y) := [0]]
    ensures |m.clusters| == 1 && m.clusters[0].Some?
    ensures m.clusters[0].value.slots == Shown2(Some(Y), Some(Z)) && m.clusters[0].value.counts == [(0, 3)]
  {
    hide m.Valid, Enough, ScoreOf, Merged, Fresh, PlainWord, HasDigit, R.AddTo;
    Vocabulary();
    Twice();
    m := new Miner(0, 1);
    Pairs(Y, Z, Y, Z);
    Start(m, Y, Z);
    Join(m, Y, Z, 0);
    Join(m, Y, Z, 0);
  }

  /** The templates of `y z` and `<_> a`, `<_> b`, and the leaves of `y` and `<_>`. */
  method TrainSecond() returns (m: Miner)
    ensures fresh(m) && m.Valid() && m.start == 0 && m.step == 1
    ensures m.log == RUN[..5] && LeavesIn(m.roots) == map[Some(Y) := [0], Some(WILDCARD) := [1]]
    ensures |m.clusters| == 2 && m.clusters[0].Some? && m.clusters[1].Some?
    ensures m.clusters[0].value.slots == Shown2(Some(Y), Some(Z)) && m.clusters[0].value.counts == [(0, 3)]
    ensures m.clusters[1].value.slots == Shown2(Some(WILDCARD), None) && m.clusters[1].value.counts == [(0, 2)]
  {
    hide m.Valid, Enough, ScoreOf, Merged, Fresh, PlainWord, HasDigit, R.AddTo;
    Vocabulary();
    Twice();
    m := TrainFirst();
    Pairs(WILDCARD, A, WILDCARD, B);
    Start(m, WILDCARD, A);
    Join(m, WILDCARD, B, 1);
  }

  method TrainAll() returns (m: Miner)
    ensures fresh(m) && m.Valid() && m.log == RUN && Ended(m.clusters)
  {
    hide m.Valid, Enough, ScoreOf, Merged, Fresh, PlainWord, HasDigit, R.AddTo;
    Vocabulary();
    Twice();
    m := TrainSecond();
    Pairs(ONE, WILDCARD, TWO, WILDCARD);
    Start(m, ONE, WILDCARD);
    Join(m, TWO, WILDCARD, 2);
  }

  lemma RenderedPair(first: Option<Bytes>, second: Option<Bytes>)
    ensures Rendered(Shown2(first, second)) ==
            (if first.Some? then first.value else WILDCARD) + [32] + if second.Some? then second.value else WILDCARD
  {
    var slots := Shown2(first, second);
    ShownNone(slots);
    ShownStep(slots, 0);
    ShownStep(slots, 1);
    var a, b := slots[0], slots[1];
    hide Shown, WrittenAll;
    assert slots[..2] == slots && slots[..1] == [a] && [] + [a] == [a] && slots == [a] + [b];
    WrittenSnoc([], a);
    WrittenSnoc([a], b);
    Regroup(if first.Some? then first.value else WILDCARD, if second.Some? then second.value else WILDCARD);
  }

  lemma Regroup(x: Bytes, y: Bytes)
    ensures [] + ([] + x) + ([32] + y) == x + [32] + y
  {
  }

  lemma ThreeTemplates(clusters: Clusters)
    requires |clusters| == 3 && forall i :: 0 <= i < 3 ==> clusters[i].Some?
    ensures Templates(clusters, 3) ==
            [TemplateOf(clusters[0].value), TemplateOf(clusters[1].value), TemplateOf(clusters[2].value)]
  {
    hide TemplateOf;
    assert Templates(clusters, 0) == [];
    assert Templates(clusters, 1) == [TemplateOf(clusters[0].value)];
    assert Templates(clusters, 2) == Templates(clusters, 1) + [TemplateOf(clusters[1].value)];
  }

  /** Templates of 3, 2 and 2 lines, the last two of one pattern: that pattern overtakes the first. */
  lemma EndOvertakes(clusters: Clusters)
    requires Ended(clusters)
    ensures Q.Overtakes(Templates(clusters, |clusters|), WILDCARD + [32] + WILDCARD, Y + [32] + Z)
  {
    hide Rendered, R.CountTotal, Q.Overtakes, Templates, R.AddTo;
    ThreeTemplates(clusters);
    RenderedPair(Some(Y), Some(Z));
    RenderedPair(Some(WILDCARD), None);
    RenderedPair(None, Some(WILDCARD));
    Twice();
    assert (Y + [32] + Z)[0] != (WILDCARD + [32] + WILDCARD)[0];
    Q.ThreeOvertake(TemplateOf(clusters[0].value), TemplateOf(clusters[1].value), TemplateOf(clusters[2].value));
  }

  /** Seven lines after which the report does not come largest total first. */
  method LargestMayComeLater() returns (m: Miner, out: Q.Report)
    ensures fresh(m) && m.Valid() && m.log == RUN
    ensures Q.Reports(out, Templates(m.clusters, |m.clusters|)) && !Q.LargestFirst(out)
  {
    hide Ended, Q.Overtakes, Q.LargestFirst, Q.Reports, Templates;
    m := TrainAll();
    EndOvertakes(m.clusters);
    out := m.Finish();
  }
}
