/** The tree templates are filed in (`patterns.rs`, `search` and `insert`): by shape, then by first word. */
module PatternTree {
  import opened Prelude
  import opened Text
  import opened Patterns
  import T = Tally

  type Leaves = map<Option<Bytes>, seq<nat>>
  type Roots = map<Shape, Leaves>
  type Clusters = seq<Option<Cluster>>

  function Alive(clusters: Clusters): nat -> bool {
    (i: nat) => i < |clusters| && clusters[i].Some?
  }

  predicate HasDigit(text: Bytes) {
    exists i :: 0 <= i < |text| && '0' as int <= text[i] <= '9' as int
  }

  function FirstWord(tokens: seq<Token>): Option<Bytes> {
    if tokens == [] then None else if tokens[0].kind == Word then Some(tokens[0].text) else FirstWord(tokens[1..])
  }

  lemma {:induction false} FindsWord(tokens: seq<Token>)
    requires exists i :: 0 <= i < |tokens| && tokens[i].kind == Word
    ensures FirstWord(tokens).Some?
    decreases |tokens|
  {
    var i :| 0 <= i < |tokens| && tokens[i].kind == Word;
    if tokens[0].kind != Word {
      assert tokens[1..][i - 1] == tokens[i];
      FindsWord(tokens[1..]);
    }
  }

  /** The leaf a line is looked up in. */
  function SearchLeaf(leaves: Leaves, word: Bytes): Option<Option<Bytes>> {
    if Some(word) in leaves then Some(Some(word))
    else if None in leaves then Some(None)
    else None
  }

  /** The leaf a new template is filed in. */
  function InsertLeaf(leaves: Leaves, word: Bytes): Option<Bytes> {
    if HasDigit(word) then None
    else if Some(word) in leaves || |leaves| + 1 < MAX_CHILDREN then Some(word)
    else None
  }

  function ScoreOf(slots: seq<Slot>, tokens: seq<Token>): Score {
    Similar(slots, tokens, if |slots| < |tokens| then |slots| else |tokens|)
  }

  /** The templates a line is compared with. */
  function Candidates(roots: Roots, key: Shape, word: Bytes): seq<nat> {
    if key !in roots || SearchLeaf(roots[key], word).None? then []
    else roots[key][SearchLeaf(roots[key], word).value]
  }

  ghost predicate LiveAt(clusters: Clusters, id: nat) {
    id < |clusters| && clusters[id].Some?
  }

  /** A live candidate no other live candidate is better than, and similar enough. */
  ghost predicate IsMatch(roots: Roots, clusters: Clusters, key: Shape, word: Bytes, tokens: seq<Token>, id: nat) {
    && id in Candidates(roots, key, word) && LiveAt(clusters, id) && Enough(ScoreOf(clusters[id].value.slots, tokens))
    && forall other :: other in Candidates(roots, key, word) && LiveAt(clusters, other) ==>
         !Better(ScoreOf(clusters[other].value.slots, tokens), ScoreOf(clusters[id].value.slots, tokens))
  }

  /** No live candidate is similar enough. */
  ghost predicate NoMatch(roots: Roots, clusters: Clusters, key: Shape, word: Bytes, tokens: seq<Token>) {
    forall id :: id in Candidates(roots, key, word) && LiveAt(clusters, id) ==>
                   !Enough(ScoreOf(clusters[id].value.slots, tokens))
  }

  /** The tree with a new template filed, and dropped ones forgotten in its leaf. */
  function FiledUnder(roots: Roots, clusters: Clusters, key: Shape, word: Bytes, id: nat): Roots {
    var leaves := if key in roots then roots[key] else map[];
    var leaf := InsertLeaf(leaves, word);
    roots[key := leaves[leaf := T.Where(if leaf in leaves then leaves[leaf] else [], Alive(clusters)) + [id]]]
  }
}
