/** Log pattern mining (`patterns.rs`): templates of tokens, kept in a bounded tree. */
module Patterns {
  import opened Prelude
  import opened Text
  import R = RunTotals
  import T = Tally

  const MAX_CHILDREN: nat := 32
  const MAX_CLUSTERS: nat := 500

  datatype Kind = Word | Punct

  datatype Token = Token(text: Bytes, kind: Kind, spaceBefore: bool)

  /** A template's token; without text it is the wildcard. */
  datatype Slot = Slot(text: Option<Bytes>, kind: Kind, spaceBefore: bool)

  datatype Cluster = Cluster(slots: seq<Slot>, counts: R.Counts, lastUsed: nat)

  // ---- Shapes ----------------------------------------------------------------

  /** Where there is punctuation, and which. */
  function Puncts(tokens: seq<Token>): seq<(nat, Bytes)> {
    if tokens == [] then []
    else
      var n := |tokens| - 1;
      Puncts(tokens[..n]) + if tokens[n].kind == Punct then [(n, tokens[n].text)] else []
  }

  type Shape = (nat, seq<(nat, Bytes)>)

  function ShapeOf(tokens: seq<Token>): Shape {
    (|tokens|, Puncts(tokens))
  }

  /** The same punctuation at the same places, and words elsewhere. */
  predicate Alike(a: seq<Token>, b: seq<Token>) {
    |a| == |b| && forall i :: 0 <= i < |a| ==> a[i].kind == b[i].kind && (a[i].kind == Punct ==> a[i].text == b[i].text)
  }

  lemma {:induction false} PunctsBelow(tokens: seq<Token>)
    ensures forall i :: 0 <= i < |Puncts(tokens)| ==> Puncts(tokens)[i].0 < |tokens|
    decreases |tokens|
  {
    if tokens != [] { PunctsBelow(tokens[..|tokens| - 1]); }
  }

  /** Shapes are equal exactly when the tokens are alike. */
  lemma {:induction false} ShapeIsAlike(a: seq<Token>, b: seq<Token>)
    ensures ShapeOf(a) == ShapeOf(b) <==> Alike(a, b)
    decreases |a|
  {
    if |a| == |b| && a != [] {
      var n := |a| - 1;
      ShapeIsAlike(a[..n], b[..n]);
      PunctsBelow(a[..n]);
      PunctsBelow(b[..n]);
      if Alike(a, b) {
        assert Alike(a[..n], b[..n]);
      } else if ShapeOf(a) == ShapeOf(b) {
        LastPunct(a, b);
        assert Puncts(a[..n]) == Puncts(b[..n]);
        assert Alike(a[..n], b[..n]);
        assert forall i :: 0 <= i < n ==> a[i] == a[..n][i] && b[i] == b[..n][i];
        assert Alike(a, b);
      }
    }
  }

  /** A last token is punctuation exactly when the listing ends with its position. */
  lemma LastIs(a: seq<Token>)
    requires a != []
    ensures var n, p := |a| - 1, Puncts(a);
            && (a[n].kind == Punct <==> p != [] && p[|p| - 1].0 == n)
            && (a[n].kind == Punct ==> p[|p| - 1].1 == a[n].text && Puncts(a[..n]) == p[..|p| - 1])
            && (a[n].kind == Word ==> Puncts(a[..n]) == p)
  {
    PunctsBelow(a[..|a| - 1]);
  }

  lemma LastPunct(a: seq<Token>, b: seq<Token>)
    requires |a| == |b| > 0 && Puncts(a) == Puncts(b)
    ensures var n := |a| - 1;
            && Puncts(a[..n]) == Puncts(b[..n]) && a[n].kind == b[n].kind
            && (a[n].kind == Punct ==> a[n].text == b[n].text)
  {
    hide Puncts;
    LastIs(a);
    LastIs(b);
  }

  // ---- Templates -------------------------------------------------------------

  /** The slots as tokens; wildcards have no text. */
  function AsTokens(slots: seq<Slot>): seq<Token> {
    seq(|slots|, i requires 0 <= i < |slots| =>
        Token(if slots[i].text.Some? then slots[i].text.value else [], slots[i].kind, slots[i].spaceBefore))
  }

  /** Punctuation is never a wildcard, and the template has its root's shape. */
  ghost predicate Shaped(slots: seq<Slot>, key: Shape) {
    && (forall i :: 0 <= i < |slots| && slots[i].kind == Punct ==> slots[i].text.Some?)
    && ShapeOf(AsTokens(slots)) == key
  }

  /** The line has as many tokens of the same kinds, and each literal is that token. */
  ghost predicate Fits(slots: seq<Slot>, tokens: seq<Token>) {
    && |slots| == |tokens|
    && forall i :: 0 <= i < |slots| ==>
         slots[i].kind == tokens[i].kind && (slots[i].text.Some? ==> slots[i].text.value == tokens[i].text)
  }

  function Fresh(tokens: seq<Token>): seq<Slot> {
    seq(|tokens|, i requires 0 <= i < |tokens| => Slot(Some(tokens[i].text), tokens[i].kind, tokens[i].spaceBefore))
  }

  /** Words that differ become wildcards. */
  function Merged(slots: seq<Slot>, tokens: seq<Token>): seq<Slot> {
    seq(|slots|, i requires 0 <= i < |slots| =>
        if i < |tokens| && slots[i].text.Some? && slots[i].text.value != tokens[i].text then slots[i].(text := None)
        else slots[i])
  }

  lemma FreshTemplate(tokens: seq<Token>)
    ensures Fits(Fresh(tokens), tokens) && Shaped(Fresh(tokens), ShapeOf(tokens))
  {
    ShapeIsAlike(AsTokens(Fresh(tokens)), tokens);
  }

  /** Merging a line of the same shape keeps the shape, fits the line, and still fits earlier lines. */
  lemma MergedTemplate(slots: seq<Slot>, tokens: seq<Token>)
    requires Shaped(slots, ShapeOf(tokens))
    ensures Fits(Merged(slots, tokens), tokens) && Shaped(Merged(slots, tokens), ShapeOf(tokens))
    ensures forall line :: Fits(slots, line) ==> Fits(Merged(slots, tokens), line)
  {
    hide ShapeOf;
    ShapeIsAlike(AsTokens(slots), tokens);
    ShapeIsAlike(AsTokens(Merged(slots, tokens)), tokens);
  }

  method MergeSlots(slots: seq<Slot>, tokens: seq<Token>) returns (merged: seq<Slot>)
    ensures merged == Merged(slots, tokens)
  {
    merged := slots;
    var i := 0;
    while i < |slots| && i < |tokens|
      invariant i <= |slots| == |merged| && i <= |tokens|
      invariant forall j :: 0 <= j < i ==> merged[j] == Merged(slots, tokens)[j]
      invariant forall j :: i <= j < |slots| ==> merged[j] == slots[j]
    {
      if merged[i].text.Some? && merged[i].text.value != tokens[i].text {
        merged := merged[i := merged[i].(text := None)];
      }
      i := i + 1;
    }
  }

  /** Equal words, word slots and wildcards. */
  datatype Score = Score(same: nat, words: nat, wildcards: nat)

  method Similarity(slots: seq<Slot>, tokens: seq<Token>) returns (s: Score)
    ensures s.same + s.wildcards <= s.words <= |slots|
    ensures s == Similar(slots, tokens, if |slots| < |tokens| then |slots| else |tokens|)
  {
    s := Score(0, 0, 0);
    var i := 0;
    while i < |slots| && i < |tokens|
      invariant i <= |slots| && i <= |tokens| && s == Similar(slots, tokens, i) && s.same + s.wildcards <= s.words <= i
    {
      if slots[i].kind == Word {
        s := s.(words := s.words + 1);
        if slots[i].text.None? {
          s := s.(wildcards := s.wildcards + 1);
        } else if slots[i].text.value == tokens[i].text {
          s := s.(same := s.same + 1);
        }
      }
      i := i + 1;
    }
  }

  function Similar(slots: seq<Slot>, tokens: seq<Token>, n: nat): Score
    requires n <= |slots| && n <= |tokens|
  {
    if n == 0 then Score(0, 0, 0)
    else
      var s, slot := Similar(slots, tokens, n - 1), slots[n - 1];
      if slot.kind != Word then s
      else if slot.text.None? then s.(words := s.words + 1, wildcards := s.wildcards + 1)
      else if slot.text.value == tokens[n - 1].text then s.(words := s.words + 1, same := s.same + 1)
      else s.(words := s.words + 1)
  }

  /** The share of equal words as a fraction; a template without words matches fully. */
  function Share(s: Score): (nat, nat) {
    if s.words == 0 then (1, 1) else (s.same, s.words)
  }

  predicate Higher(a: Score, b: Score) {
    Share(a).0 * Share(b).1 > Share(b).0 * Share(a).1
  }

  /** A higher share, or the same share and more wildcards. */
  predicate Better(a: Score, b: Score) {
    Higher(a, b) || (!Higher(b, a) && a.wildcards > b.wildcards)
  }

  predicate Enough(s: Score) {
    Share(s).0 * 5 >= Share(s).1 * 2
  }

  lemma Fractions(a: nat, b: nat, c: nat, d: nat, e: nat, f: nat)
    requires b > 0 && d > 0 && f > 0 && a * d <= c * b && c * f <= e * d
    ensures a * f <= e * b
    ensures a * d < c * b || c * f < e * d ==> a * f < e * b
  {
    Scaled(a * d, c * b, f);
    Scaled(c * f, e * d, b);
    assert (a * f) * d == a * d * f && c * b * f == c * f * b && e * d * b == (e * b) * d;
    if a * f > e * b {
      Scaled(e * b, a * f, d);
    } else if a * f == e * b {
      assert a * d * f == e * d * b;
    }
  }

  lemma Scaled(x: nat, y: nat, z: nat)
    requires z > 0
    ensures x <= y ==> x * z <= y * z
    ensures x < y ==> x * z < y * z
  {
  }

  /** What was no better than the best so far is no better than a better one. */
  lemma BetterTransitive(x: Score, best: Score, next: Score)
    requires !Better(x, best) && Better(next, best)
    ensures !Better(x, next)
  {
    Fractions(Share(x).0, Share(x).1, Share(best).0, Share(best).1, Share(next).0, Share(next).1);
  }

  lemma BetterIrreflexive(s: Score)
    ensures !Better(s, s)
  {
  }

  /** If the best is not enough, nothing is. */
  lemma EnoughIsUpward(x: Score, best: Score)
    requires !Better(x, best) && Enough(x)
    ensures Enough(best)
  {
    Fractions(2, 5, Share(x).0, Share(x).1, Share(best).0, Share(best).1);
  }

  // ---- Tokens ----------------------------------------------------------------

  const MAX_LINE_BYTES: nat := 4096
  const MAX_TOKENS: nat := 128
  const MIN_WORDS: nat := 2
  /** The octets of `=,;()[]{}"'`. */
  const PUNCTUATION: seq<byte> := [61, 44, 59, 40, 41, 91, 93, 123, 125, 34, 39]

  /** ASCII white space: tab, line feed, form feed, carriage return and space. */
  predicate IsSpace(b: byte) {
    b == 9 || b == 10 || b == 12 || b == 13 || b == 32
  }

  predicate IsPunct(b: byte) {
    b in PUNCTUATION
  }

  predicate InWord(b: byte) {
    !IsSpace(b) && !IsPunct(b)
  }

  predicate IsWord(t: Token) {
    t.kind == Word
  }

  function OneWord(t: Token): int {
    1
  }

  function WordCount(tokens: seq<Token>): int {
    T.Sum(tokens, IsWord, OneWord)
  }

  /** How many octets the word at the start of the line takes. */
  function WordEnd(line: Bytes): (n: nat)
    ensures n <= |line|
  {
    if line == [] || !InWord(line[0]) then 0 else 1 + WordEnd(line[1..])
  }

  /** The line's tokens; `space` when white space precedes it, `first` when no token does. */
  function Lex(line: Bytes, space: bool, first: bool): seq<Token>
    decreases |line|
  {
    if line == [] then []
    else if IsSpace(line[0]) then Lex(line[1..], true, first)
    else
      var n := if IsPunct(line[0]) then 1 else WordEnd(line);
      assert InWord(line[0]) ==> WordEnd(line) >= 1;
      [Token(line[..n], if IsPunct(line[0]) then Punct else Word, space && !first)] + Lex(line[n..], false, false)
  }

  /** The tokens of a line worth mining: not too many, and enough words. */
  function TokensOf(line: Bytes): Option<seq<Token>> {
    var tokens := Lex(line, false, true);
    if |tokens| <= MAX_TOKENS && WordCount(tokens) >= MIN_WORDS then Some(tokens) else None
  }

  lemma LexNone(line: Bytes, space: bool, first: bool)
    requires line == []
    ensures Lex(line, space, first) == []
  {
  }

  lemma LexStep(line: Bytes, i: nat, space: bool, first: bool)
    requires i < |line|
    ensures IsSpace(line[i]) ==> Lex(line[i..], space, first) == Lex(line[i + 1..], true, first)
    ensures !IsSpace(line[i]) ==>
              var end := i + if IsPunct(line[i]) then 1 else WordEnd(line[i..]);
              var kind := if IsPunct(line[i]) then Punct else Word;
              Lex(line[i..], space, first) ==
                [Token(line[i..end], kind, space && !first)] + Lex(line[end..], false, false)
  {
    hide IsPunct, IsSpace, InWord, WordEnd;
    var n := if IsPunct(line[i]) then 1 else WordEnd(line[i..]);
    assert line[i..][..n] == line[i..i + n] && line[i..][n..] == line[i + n..] && line[i..][1..] == line[i + 1..];
  }

  /** The end of the token that starts at `i`. */
  method TokenEnd(line: Bytes, i: nat) returns (end: nat)
    requires i < |line| && !IsSpace(line[i])
    ensures i < end <= |line| && end == i + if IsPunct(line[i]) then 1 else WordEnd(line[i..])
  {
    hide IsPunct, IsSpace;
    if IsPunct(line[i]) {
      return i + 1;
    }
    end := i;
    while end < |line| && !IsSpace(line[end]) && !IsPunct(line[end])
      invariant i <= end <= |line| && WordEnd(line[i..]) == end - i + WordEnd(line[end..])
    {
      assert line[end..][1..] == line[end + 1..];
      end := end + 1;
    }
  }

  /** A line's tokens, unless it is not worth mining. */
  method Tokenize(line: Bytes) returns (r: Option<seq<Token>>)
    ensures r == TokensOf(line)
  {
    hide IsPunct, IsSpace, InWord, WordCount, WordEnd, Lex;
    var tokens: seq<Token> := [];
    var i, space := 0, false;
    assert line[0..] == line;
    while i < |line|
      invariant i <= |line| && |tokens| <= MAX_TOKENS
      invariant Lex(line, false, true) == tokens + Lex(line[i..], space, tokens == [])
    {
      LexStep(line, i, space, tokens == []);
      if IsSpace(line[i]) {
        space, i := true, i + 1;
      } else {
        var end := TokenEnd(line, i);
        var token := Token(line[i..end], if IsPunct(line[i]) then Punct else Word, space && tokens != []);
        ghost var rest := Lex(line[end..], false, false);
        assert tokens + ([token] + rest) == (tokens + [token]) + rest;
        tokens := tokens + [token];
        assert Lex(line, false, true) == tokens + rest;
        if |tokens| > MAX_TOKENS {
          return None;
        }
        space, i := false, end;
      }
    }
    LexNone(line[i..], space, tokens == []);
    assert tokens + [] == tokens;
    r := if WordCount(tokens) >= MIN_WORDS then Some(tokens) else None;
  }

  // ---- Spelling tokens out ---------------------------------------------------

  /** A token is one punctuation mark, or a run of octets that are neither punctuation nor space. */
  predicate Wellformed(t: Token) {
    && (t.kind == Punct ==> |t.text| == 1 && IsPunct(t.text[0]))
    && (t.kind == Word ==> t.text != [] && forall i :: 0 <= i < |t.text| ==> InWord(t.text[i]))
  }

  /** Tokens that could be a line's: a word right after a word is spaced. */
  predicate Spaced(tokens: seq<Token>) {
    && (forall i :: 0 <= i < |tokens| ==> Wellformed(tokens[i]))
    && forall i :: 0 < i < |tokens| && tokens[i - 1].kind == Word && tokens[i].kind == Word ==> tokens[i].spaceBefore
  }

  /** The tokens as text, one space where there was white space. */
  function Spell(tokens: seq<Token>): Bytes {
    if tokens == [] then []
    else (if tokens[0].spaceBefore then [32] else []) + tokens[0].text + Spell(tokens[1..])
  }

  /** A line's tokens are well formed, spaced where they must be, and the first is not spaced. */
  lemma {:induction false} LexSpaced(line: Bytes, space: bool, first: bool)
    ensures Spaced(Lex(line, space, first))
    ensures first && Lex(line, space, first) != [] ==> !Lex(line, space, first)[0].spaceBefore
    ensures !first && space && Lex(line, space, first) != [] ==> Lex(line, space, first)[0].spaceBefore
    ensures !space && (line == [] || !InWord(line[0])) && Lex(line, space, first) != []
            && Lex(line, space, first)[0].kind == Word
            ==> first || Lex(line, space, first)[0].spaceBefore
    decreases |line|
  {
    hide IsPunct, IsSpace, WordEnd;
    if line != [] {
      if IsSpace(line[0]) {
        LexSpaced(line[1..], true, first);
      } else {
        WordEnds(line);
        var n := if IsPunct(line[0]) then 1 else WordEnd(line);
        LexSpaced(line[n..], false, false);
        LexCons(line, space, first, n);
      }
    }
  }

  lemma {:induction false} WordEnds(line: Bytes)
    ensures forall i :: 0 <= i < WordEnd(line) ==> InWord(line[i])
    ensures WordEnd(line) < |line| ==> !InWord(line[WordEnd(line)])
    ensures line != [] && InWord(line[0]) ==> WordEnd(line) >= 1
  {
    hide InWord;
    if line != [] && InWord(line[0]) {
      WordEnds(line[1..]);
      assert forall i :: 1 <= i < |line| ==> line[i] == line[1..][i - 1];
    }
  }

  /** One more token in front. */
  lemma LexCons(line: Bytes, space: bool, first: bool, n: nat)
    requires line != [] && !IsSpace(line[0]) && n == (if IsPunct(line[0]) then 1 else WordEnd(line)) && n >= 1
    requires Spaced(Lex(line[n..], false, false))
    requires forall i :: 0 <= i < WordEnd(line) ==> InWord(line[i])
    requires WordEnd(line) < |line| ==> !InWord(line[WordEnd(line)])
    requires var rest := Lex(line[n..], false, false);
             (line[n..] == [] || !InWord(line[n..][0])) && rest != [] && rest[0].kind == Word ==> rest[0].spaceBefore
    ensures Spaced(Lex(line, space, first))
  {
    hide IsPunct, IsSpace, WordEnd;
    var rest := Lex(line[n..], false, false);
    var t := Token(line[..n], if IsPunct(line[0]) then Punct else Word, space && !first);
    assert Lex(line, space, first) == [t] + rest;
    assert Wellformed(t);
  }

  lemma {:induction false} WordFirst(word: Bytes, rest: Bytes)
    requires forall i :: 0 <= i < |word| ==> InWord(word[i])
    requires rest == [] || !InWord(rest[0])
    ensures WordEnd(word + rest) == |word|
    decreases |word|
  {
    hide InWord;
    if word == [] {
      assert word + rest == rest;
    } else {
      assert (word + rest)[1..] == word[1..] + rest;
      WordFirst(word[1..], rest);
    }
  }

  /** What tokens spell starts with a word's octet exactly when an unspaced word comes first. */
  lemma SpellFirst(tokens: seq<Token>)
    requires Spaced(tokens)
    ensures Spell(tokens) == [] || !InWord(Spell(tokens)[0])
            || (tokens != [] && tokens[0].kind == Word && !tokens[0].spaceBefore)
  {
    if tokens != [] {
      var t := tokens[0];
      assert Wellformed(t) && t.text != [];
      if t.spaceBefore {
        assert Spell(tokens)[0] == 32;
      } else {
        assert Spell(tokens)[0] == t.text[0];
      }
    }
  }

  /** Spelling tokens and splitting them again gives the same tokens. */
  lemma {:induction false} LexSpells(tokens: seq<Token>, first: bool)
    requires Spaced(tokens) && (first && tokens != [] ==> !tokens[0].spaceBefore)
    ensures Lex(Spell(tokens), false, first) == tokens
    decreases |tokens|
  {
    hide IsPunct, InWord, IsSpace, Wellformed, WordEnd, Spaced, Lex, Spell;
    SpellCons(tokens);
    if tokens != [] {
      var t, rest := tokens[0], tokens[1..];
      SpacedRest(tokens);
      LexSpells(rest, false);
      SpellFirst(rest);
      TokenFirst(t, Spell(rest), rest != [] && rest[0].kind == Word && !rest[0].spaceBefore);
      var body := t.text + Spell(rest);
      LexToken(t, rest, t.spaceBefore, first);
      assert [t] + rest == tokens;
      if t.spaceBefore {
        SpaceFirst(body, first);
      }
    } else {
      LexNothing(first);
    }
  }

  lemma LexNothing(first: bool)
    ensures Lex([], false, first) == []
  {
  }

  lemma SpellCons(tokens: seq<Token>)
    ensures tokens == [] ==> Spell(tokens) == []
    ensures tokens != [] ==>
              var body := tokens[0].text + Spell(tokens[1..]);
              Spell(tokens) == if tokens[0].spaceBefore then [32] + body else body
  {
    if tokens != [] { Joined(tokens[0].text, Spell(tokens[1..])); }
  }

  lemma Joined(a: Bytes, b: Bytes)
    ensures [32] + a + b == [32] + (a + b) && [] + a + b == a + b
  {
  }

  lemma SpacedRest(tokens: seq<Token>)
    requires Spaced(tokens) && tokens != []
    ensures Spaced(tokens[1..]) && Wellformed(tokens[0])
    ensures |tokens| > 1 && tokens[0].kind == Word && tokens[1].kind == Word ==> tokens[1].spaceBefore
  {
    hide Wellformed;
    var rest := tokens[1..];
    assert forall i :: 0 <= i < |rest| ==> rest[i] == tokens[i + 1];
  }

  lemma SpaceFirst(body: Bytes, first: bool)
    ensures Lex([32] + body, false, first) == Lex(body, true, first)
  {
    assert ([32] + body)[1..] == body;
  }

  /** A well-formed token in front of text that does not continue it is the first token. */
  lemma TokenFirst(t: Token, rest: Bytes, continues: bool)
    requires Wellformed(t) && (rest == [] || !InWord(rest[0]) || continues) && (t.kind == Word ==> !continues)
    ensures var line := t.text + rest;
            && t.text != [] && line != [] && line[0] == t.text[0] && !IsSpace(line[0])
            && (IsPunct(line[0]) <==> t.kind == Punct)
            && |t.text| == if IsPunct(line[0]) then 1 else WordEnd(line)
  {
    hide IsPunct, WordEnd;
    assert t.kind == Punct ==> !IsSpace(t.text[0]) by { Marks(t.text); }
    if t.kind == Word {
      WordFirst(t.text, rest);
    }
  }

  lemma Marks(text: Bytes)
    ensures forall b :: IsPunct(b) ==> !IsSpace(b)
  {
  }

  lemma LexToken(t: Token, rest: seq<Token>, space: bool, first: bool)
    requires var line := t.text + Spell(rest);
             && line != [] && !IsSpace(line[0]) && (IsPunct(line[0]) <==> t.kind == Punct)
             && 1 <= |t.text| == if IsPunct(line[0]) then 1 else WordEnd(line)
    requires Lex(Spell(rest), false, false) == rest && t.spaceBefore == (space && !first)
    ensures Lex(t.text + Spell(rest), space, first) == [t] + rest
  {
    hide IsPunct, WordEnd, Spell;
    var line := t.text + Spell(rest);
    assert line[..|t.text|] == t.text && line[|t.text|..] == Spell(rest);
  }

  /**
   White space other than where there is some does not matter: a line and its tokens spelled out
   have the same tokens.
   */
  lemma Respelled(line: Bytes)
    ensures Lex(Spell(Lex(line, false, true)), false, true) == Lex(line, false, true)
  {
    hide Spaced, Lex, Spell;
    LexSpaced(line, false, true);
    LexSpells(Lex(line, false, true), true);
  }

  lemma {:induction false} HasWord(tokens: seq<Token>)
    requires WordCount(tokens) >= 1
    ensures exists i :: 0 <= i < |tokens| && tokens[i].kind == Word
  {
    T.SumPositive(tokens, IsWord, OneWord);
  }

  // ---- Rendering -------------------------------------------------------------

  /** `<_>` */
  const WILDCARD: Bytes := [60, 95, 62]

  predicate EndsInWildcard(slots: seq<Slot>) {
    slots != [] && slots[|slots| - 1].text.None?
  }

  /** The slots a pattern shows: of wildcards that touch, the first. */
  function Shown(slots: seq<Slot>): seq<Slot> {
    if slots == [] then []
    else
      var n := |slots| - 1;
      var before, s := Shown(slots[..n]), slots[n];
      if s.text.None? && !s.spaceBefore && EndsInWildcard(before) then before else before + [s]
  }

  function Written(s: Slot): Bytes {
    (if s.spaceBefore then [32] else []) + if s.text.Some? then s.text.value else WILDCARD
  }

  function WrittenAll(slots: seq<Slot>): Bytes {
    if slots == [] then [] else WrittenAll(slots[..|slots| - 1]) + Written(slots[|slots| - 1])
  }

  function Rendered(slots: seq<Slot>): Bytes {
    WrittenAll(Shown(slots))
  }

  lemma WrittenSnoc(slots: seq<Slot>, s: Slot)
    ensures WrittenAll(slots + [s]) == WrittenAll(slots) + Written(s)
  {
    assert (slots + [s])[..|slots|] == slots;
  }

  /** `render`. */
  method Render(slots: seq<Slot>) returns (out: Bytes)
    ensures out == Rendered(slots)
  {
    hide Shown, WrittenAll, Written;
    ShownNone(slots);
    out := [];
    var previousWildcard := false;
    for i := 0 to |slots|
      invariant out == WrittenAll(Shown(slots[..i])) && previousWildcard == EndsInWildcard(Shown(slots[..i]))
    {
      var s := slots[i];
      ShownStep(slots, i);
      if s.text.None? && previousWildcard && !s.spaceBefore {
        continue;
      }
      WrittenSnoc(Shown(slots[..i]), s);
      out := out + Written(s);
      previousWildcard := s.text.None?;
    }
    assert slots[..|slots|] == slots;
  }

  lemma ShownNone(slots: seq<Slot>)
    ensures Shown(slots[..0]) == [] && WrittenAll([]) == []
  {
  }

  lemma ShownStep(slots: seq<Slot>, i: nat)
    requires i < |slots|
    ensures var before, s := Shown(slots[..i]), slots[i];
            Shown(slots[..i + 1]) ==
            if s.text.None? && !s.spaceBefore && EndsInWildcard(before) then before else before + [s]
  {
    assert slots[..i + 1][..i] == slots[..i];
  }

  predicate IsLiteral(s: Slot) {
    s.text.Some?
  }

  /** A pattern shows every literal of its template in order, and no two wildcards that touch. */
  lemma {:induction false} ShownSlots(slots: seq<Slot>)
    ensures T.Where(Shown(slots), IsLiteral) == T.Where(slots, IsLiteral)
    ensures forall i :: 0 < i < |Shown(slots)| && Shown(slots)[i - 1].text.None? && Shown(slots)[i].text.None? ==>
              Shown(slots)[i].spaceBefore
    decreases |slots|
  {
    if slots != [] {
      var n := |slots| - 1;
      ShownSlots(slots[..n]);
      assert Shown(slots) == Shown(slots[..n]) + [slots[n]] ==> Shown(slots)[..|Shown(slots)| - 1] == Shown(slots[..n]);
      assert T.Where(slots[..n], IsLiteral) + [] == T.Where(slots[..n], IsLiteral);
    }
  }
}
