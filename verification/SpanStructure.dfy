/**
 Structural joins of TraceQL spansets over the parent links of one trace:
 `closure` and `structural` of tempo_expression.rs.

 Links come from stored rows, so they may be cyclic, may name spans that were never
 stored, and several rows may carry one span ID.
 */
module SpanStructure {
  import opened Prelude

  type SpanId = nat

  datatype Relation = Descendant | Child | Ancestor | Parent | Sibling

  /** One stored row; bit `i` of its mask says whether it matched spanset `i`. */
  datatype Link = Link(id: SpanId, parent: Option<SpanId>, mask: byte)

  /** Bit `i` of a mask. */
  predicate Bit(mask: byte, i: nat)
    requires i < 8
  {
    (mask / [1, 2, 4, 8, 16, 32, 64, 128][i]) % 2 == 1
  }

  // ---- Reachability ----------------------------------------------------------

  type Edges = map<SpanId, seq<SpanId>>

  predicate Edge(edges: Edges, a: SpanId, b: SpanId) {
    a in edges && b in edges[a]
  }

  /** A nonempty walk along the edges. */
  ghost predicate Walk(edges: Edges, p: seq<SpanId>) {
    |p| > 0 && forall k :: 0 <= k < |p| - 1 ==> Edge(edges, p[k], p[k + 1])
  }

  ghost predicate WalkBetween(edges: Edges, p: seq<SpanId>, a: SpanId, b: SpanId) {
    Walk(edges, p) && p[0] == a && p[|p| - 1] == b
  }

  ghost predicate Reaches(edges: Edges, a: SpanId, b: SpanId) {
    exists p :: WalkBetween(edges, p, a, b)
  }

  ghost predicate ReachedFrom(edges: Edges, seeds: set<SpanId>, x: SpanId) {
    exists s :: s in seeds && Reaches(edges, s, x)
  }

  ghost predicate Closed(edges: Edges, seen: set<SpanId>) {
    forall a, b :: a in seen && Edge(edges, a, b) ==> b in seen
  }

  /** A set closed under the edges holds every node a walk from one of its nodes ends in. */
  lemma {:induction false} ClosedHoldsWalks(edges: Edges, seen: set<SpanId>, p: seq<SpanId>)
    requires Closed(edges, seen)
    requires Walk(edges, p) && p[0] in seen
    ensures p[|p| - 1] in seen
  {
    if |p| > 1 {
      assert Edge(edges, p[0], p[1]);
      assert Walk(edges, p[1..]) by {
        forall k | 0 <= k < |p[1..]| - 1 ensures Edge(edges, p[1..][k], p[1..][k + 1]) {
          assert Edge(edges, p[k + 1], p[k + 1 + 1]);
        }
      }
      ClosedHoldsWalks(edges, seen, p[1..]);
    }
  }

  lemma ReachStep(edges: Edges, seeds: set<SpanId>, a: SpanId, b: SpanId)
    requires ReachedFrom(edges, seeds, a) && Edge(edges, a, b)
    ensures ReachedFrom(edges, seeds, b)
  {
    var s :| s in seeds && Reaches(edges, s, a);
    var p :| WalkBetween(edges, p, s, a);
    var q := p + [b];
    forall k | 0 <= k < |q| - 1 ensures Edge(edges, q[k], q[k + 1]) {
      if k < |p| - 1 { assert Edge(edges, p[k], p[k + 1]); }
    }
    assert WalkBetween(edges, q, s, b);
  }

  ghost function Targets(edges: Edges): set<SpanId> {
    set a, b | a in edges && b in edges[a] :: b
  }

  /**
   What the worklist keeps, given the set `reach` of reachable nodes: seeds are seen, only
   reachable nodes are seen, and only queued nodes have unseen successors.
   */
  ghost predicate Explored(edges: Edges, seeds: set<SpanId>, reach: iset<SpanId>, seen: set<SpanId>,
                           queue: seq<SpanId>) {
    && seeds <= seen <= seeds + Targets(edges)
    && (forall x :: x in seen ==> x in reach)
    && (forall x :: x in queue ==> x in seen)
    && (forall a, b :: a in seen && a !in queue && Edge(edges, a, b) ==> b in seen)
  }

  ghost predicate Steps(edges: Edges, reach: iset<SpanId>) {
    forall a, b :: a in reach && Edge(edges, a, b) ==> b in reach
  }

  lemma ExploredAll(edges: Edges, seeds: set<SpanId>, reach: iset<SpanId>, seen: set<SpanId>)
    requires Explored(edges, seeds, reach, seen, [])
    ensures forall x :: ReachedFrom(edges, seeds, x) ==> x in seen
  {
    forall x | ReachedFrom(edges, seeds, x) ensures x in seen {
      var s :| s in seeds && Reaches(edges, s, x);
      var p :| WalkBetween(edges, p, s, x);
      ClosedHoldsWalks(edges, seen, p);
    }
  }

  lemma PushSeen(edges: Edges, seeds: set<SpanId>, reach: iset<SpanId>, seen: set<SpanId>, queue: seq<SpanId>,
                 x: SpanId)
    requires Explored(edges, seeds, reach, seen, queue) && x in reach && x in Targets(edges)
    ensures Explored(edges, seeds, reach, seen + {x}, queue + [x])
  {
    var q := queue + [x];
    forall y | y in q ensures y in seen + {x} {}
    forall a, b | a in seen + {x} && a !in q && Edge(edges, a, b) ensures b in seen + {x} {
      assert forall y :: y in queue ==> y in q;
      assert a != x by { assert q[|queue|] == x; }
    }
  }

  lemma PopSeen(edges: Edges, seeds: set<SpanId>, reach: iset<SpanId>, seen: set<SpanId>, queue: seq<SpanId>,
                id: SpanId)
    requires Explored(edges, seeds, reach, seen, [id] + queue)
    requires forall b :: Edge(edges, id, b) ==> b in seen
    ensures Explored(edges, seeds, reach, seen, queue)
  {
    var q := [id] + queue;
    forall y | y in queue ensures y in seen { assert y in q; }
    forall a, b | a in seen && a !in queue && Edge(edges, a, b) ensures b in seen {
      if a in q { assert a == id; }
    }
  }

  /** Queue the unseen successors of one node. */
  method Expand(edges: Edges, id: SpanId, seen0: set<SpanId>, queue0: seq<SpanId>,
                ghost seeds: set<SpanId>, ghost reach: iset<SpanId>)
    returns (seen: set<SpanId>, queue: seq<SpanId>)
    requires Steps(edges, reach) && Explored(edges, seeds, reach, seen0, [id] + queue0)
    ensures Explored(edges, seeds, reach, seen, queue)
    ensures seen0 <= seen && (seen == seen0 ==> queue == queue0)
  {
    seen, queue := seen0, queue0;
    var nexts := if id in edges then edges[id] else [];
    assert ([id] + queue)[0] == id;
    for i := 0 to |nexts|
      invariant Explored(edges, seeds, reach, seen, [id] + queue)
      invariant seen0 <= seen && (seen == seen0 ==> queue == queue0)
      invariant forall k :: 0 <= k < i ==> nexts[k] in seen
    {
      var next := nexts[i];
      if next !in seen {
        assert Edge(edges, id, next) && id in [id] + queue;
        PushSeen(edges, seeds, reach, seen, [id] + queue, next);
        assert [id] + queue + [next] == [id] + (queue + [next]);
        seen, queue := seen + {next}, queue + [next];
        assert next in seen && next !in seen0;
      }
    }
    PopSeen(edges, seeds, reach, seen, queue, id);
  }

  lemma ReachSetFacts(edges: Edges, seeds: set<SpanId>)
    ensures var reach := iset x | ReachedFrom(edges, seeds, x);
            Steps(edges, reach) && forall x :: x in seeds ==> x in reach
  {
    forall x | x in seeds ensures ReachedFrom(edges, seeds, x) {
      assert WalkBetween(edges, [x], x, x);
      assert Reaches(edges, x, x);
    }
    forall a, b | ReachedFrom(edges, seeds, a) && Edge(edges, a, b) ensures ReachedFrom(edges, seeds, b) {
      ReachStep(edges, seeds, a, b);
    }
  }

  /** The closure of the seeds. A node enters the worklist only when first seen, so cycles end it too. */
  method Closure(seeds: seq<SpanId>, edges: Edges) returns (seen: set<SpanId>)
    ensures forall x :: x in seen <==> ReachedFrom(edges, (set s | s in seeds), x)
  {
    ghost var start := set s | s in seeds;
    ghost var reach := iset x | ReachedFrom(edges, start, x);
    ReachSetFacts(edges, start);
    var queue: seq<SpanId>;
    seen, queue := Seed(seeds);
    seen := Drain(edges, seen, queue, start, reach);
    ExploredAll(edges, start, reach, seen);
  }

  /** Expand queued nodes, newest first, until none is left. */
  method Drain(edges: Edges, seen0: set<SpanId>, queue0: seq<SpanId>, ghost seeds: set<SpanId>,
               ghost reach: iset<SpanId>)
    returns (seen: set<SpanId>)
    requires Steps(edges, reach) && Explored(edges, seeds, reach, seen0, queue0)
    ensures Explored(edges, seeds, reach, seen, [])
  {
    var queue := queue0;
    seen := seen0;
    ghost var universe := seeds + Targets(edges);
    while queue != []
      invariant Explored(edges, seeds, reach, seen, queue)
      decreases |universe - seen|, |queue|
    {
      var id, rest := queue[|queue| - 1], queue[..|queue| - 1];
      assert queue == rest + [id];
      Rotate(edges, seeds, reach, seen, rest, id);
      ghost var before := seen;
      seen, queue := Expand(edges, id, seen, rest, seeds, reach);
      SmallerRest(universe, before, seen);
    }
  }

  lemma Rotate(edges: Edges, seeds: set<SpanId>, reach: iset<SpanId>, seen: set<SpanId>, rest: seq<SpanId>, id: SpanId)
    ensures Explored(edges, seeds, reach, seen, rest + [id]) ==> Explored(edges, seeds, reach, seen, [id] + rest)
  {
    assert forall x :: x in rest + [id] <==> x in [id] + rest;
  }

  /** The seeds, once each. */
  method Seed(seeds: seq<SpanId>) returns (seen: set<SpanId>, queue: seq<SpanId>)
    ensures seen == set s | s in seeds
    ensures forall x :: x in seen <==> x in queue
  {
    seen, queue := {}, [];
    for i := 0 to |seeds|
      invariant seen == set k | 0 <= k < i :: seeds[k]
      invariant forall x :: x in seen <==> x in queue
    {
      if seeds[i] !in seen {
        seen := seen + {seeds[i]};
        queue := queue + [seeds[i]];
      }
    }
  }

  lemma SmallerRest(universe: set<SpanId>, less: set<SpanId>, more: set<SpanId>)
    requires less <= more <= universe
    ensures less == more || |universe - more| < |universe - less|
  {
    if x :| x in more && x !in less {
      assert universe - more < universe - less by { assert x in universe - less; }
      Smaller(universe - more, universe - less);
    } else {
      assert less == more;
    }
  }

  lemma Smaller(a: set<SpanId>, b: set<SpanId>)
    requires a < b
    ensures |a| < |b|
  {
    assert b == a + (b - a);
    assert |b| == |a| + |b - a|;
    var x :| x in b - a;
  }
  // ---- Relations by parent paths ---------------------------------------------

  /** Some row stores `child` with parent `parent`. */
  ghost predicate Linked(spans: seq<Link>, child: SpanId, parent: SpanId) {
    exists k :: 0 <= k < |spans| && spans[k].id == child && spans[k].parent == Some(parent)
  }

  /** `p` climbs parent links: each ID is followed by a stored parent of it. */
  ghost predicate Climb(spans: seq<Link>, p: seq<SpanId>) {
    |p| > 0 && forall k :: 0 <= k < |p| - 1 ==> Linked(spans, p[k], p[k + 1])
  }

  ghost predicate Climbs(spans: seq<Link>, low: SpanId, high: SpanId) {
    exists p :: Climb(spans, p) && p[0] == low && p[|p| - 1] == high
  }

  /** Row `j` stands in `relation` to row `i`: the meaning of `{i} relation {j}`. */
  ghost predicate Related(relation: Relation, spans: seq<Link>, i: nat, j: nat)
    requires i < |spans| && j < |spans|
  {
    match relation
    case Child => spans[j].parent == Some(spans[i].id)
    case Parent => spans[i].parent == Some(spans[j].id)
    case Descendant => spans[j].parent.Some? && Climbs(spans, spans[j].parent.value, spans[i].id)
    case Ancestor => spans[i].parent.Some? && Climbs(spans, spans[i].parent.value, spans[j].id)
    case Sibling =>
      && spans[i].parent.Some? && spans[j].parent == spans[i].parent
      && spans[i].id != spans[j].id
  }

  /** Row `j` survives the first `n` joins of the chain. */
  ghost predicate Kept(relations: seq<Relation>, spans: seq<Link>, n: nat, j: nat)
    requires n <= |relations| < 8 && j < |spans|
  {
    && Bit(spans[j].mask, n)
    && (n == 0 ||
        var m: nat := n - 1;
        exists i: nat :: i < |spans| && Kept(relations, spans, m, i) && Related(relations[m], spans, i, j))
  }

  ghost predicate ParentEdges(spans: seq<Link>, edges: Edges) {
    forall a, b :: Edge(edges, a, b) <==> Linked(spans, a, b)
  }

  ghost predicate ChildEdges(spans: seq<Link>, edges: Edges) {
    forall a, b :: Edge(edges, b, a) <==> Linked(spans, a, b)
  }

  ghost function Reversed(p: seq<SpanId>): seq<SpanId> {
    seq(|p|, k requires 0 <= k < |p| => p[|p| - 1 - k])
  }

  /** Reaching along parent links is climbing. */
  lemma ReachUp(spans: seq<Link>, edges: Edges, a: SpanId, b: SpanId)
    requires ParentEdges(spans, edges)
    ensures Reaches(edges, a, b) <==> Climbs(spans, a, b)
  {
    if Reaches(edges, a, b) {
      var p :| WalkBetween(edges, p, a, b);
      assert Climb(spans, p);
    }
    if Climbs(spans, a, b) {
      var p :| Climb(spans, p) && p[0] == a && p[|p| - 1] == b;
      assert WalkBetween(edges, p, a, b);
    }
  }

  /** Reaching along child links is climbing the other way. */
  lemma ReachDown(spans: seq<Link>, edges: Edges, a: SpanId, b: SpanId)
    requires ChildEdges(spans, edges)
    ensures Reaches(edges, a, b) <==> Climbs(spans, b, a)
  {
    if Reaches(edges, a, b) {
      var p :| WalkBetween(edges, p, a, b);
      var q := Reversed(p);
      forall k | 0 <= k < |q| - 1 ensures Linked(spans, q[k], q[k + 1]) {
        var m := |p| - 2 - k;
        assert Edge(edges, p[m], p[m + 1]);
      }
      assert Climb(spans, q);
    }
    if Climbs(spans, b, a) {
      var p :| Climb(spans, p) && p[0] == b && p[|p| - 1] == a;
      var q := Reversed(p);
      forall k | 0 <= k < |q| - 1 ensures Edge(edges, q[k], q[k + 1]) {
        var m := |p| - 2 - k;
        assert Linked(spans, p[m], p[m + 1]);
      }
      assert WalkBetween(edges, q, a, b);
    }
  }

  lemma LinkedSnoc(spans: seq<Link>, i: nat, a: SpanId, b: SpanId)
    requires i < |spans|
    ensures Linked(spans[..i + 1], a, b) <==>
            Linked(spans[..i], a, b) || (spans[i].id == a && spans[i].parent == Some(b))
  {
    var s, t := spans[..i + 1], spans[..i];
    if Linked(t, a, b) {
      var k :| 0 <= k < |t| && t[k].id == a && t[k].parent == Some(b);
      assert s[k] == t[k];
    }
    if spans[i].id == a && spans[i].parent == Some(b) {
      assert s[i] == spans[i];
    }
    if Linked(s, a, b) {
      var k :| 0 <= k < |s| && s[k].id == a && s[k].parent == Some(b);
      if k < i { assert t[k] == s[k]; }
    }
  }

  function Push(edges: Edges, from: SpanId, to: SpanId): Edges {
    edges[from := (if from in edges then edges[from] else []) + [to]]
  }

  /** The child and parent adjacency of a trace's rows. */
  method Adjacency(spans: seq<Link>) returns (children: Edges, parents: Edges)
    ensures ChildEdges(spans, children) && ParentEdges(spans, parents)
  {
    children, parents := map[], map[];
    for i := 0 to |spans|
      invariant ChildEdges(spans[..i], children) && ParentEdges(spans[..i], parents)
    {
      var id, parent := spans[i].id, spans[i].parent;
      ghost var c, p := children, parents;
      if parent.Some? {
        children := Push(children, parent.value, id);
        parents := Push(parents, id, parent.value);
      }
      forall a, b
        ensures Edge(children, b, a) <==> Linked(spans[..i + 1], a, b)
        ensures Edge(parents, a, b) <==> Linked(spans[..i + 1], a, b)
      {
        LinkedSnoc(spans, i, a, b);
        assert Edge(c, b, a) <==> Linked(spans[..i], a, b);
        assert Edge(p, a, b) <==> Linked(spans[..i], a, b);
      }
    }
    assert spans[..|spans|] == spans;
  }

  /** Rows that the next spanset matched and that are related to a current row. */
  ghost predicate Joined(relation: Relation, spans: seq<Link>, current: seq<bool>, bit: nat, j: nat)
    requires |current| == |spans| && bit < 8 && j < |spans|
  {
    Bit(spans[j].mask, bit) && HasRelated(relation, spans, current, j)
  }

  /** The parents the current rows store. */
  method CurrentParents(spans: seq<Link>, current: seq<bool>) returns (out: seq<SpanId>)
    requires |current| == |spans|
    ensures forall x :: x in out <==> exists i :: 0 <= i < |spans| && current[i] && spans[i].parent == Some(x)
  {
    out := [];
    for n := 0 to |spans|
      invariant forall x :: x in out <==> exists i :: 0 <= i < n && current[i] && spans[i].parent == Some(x)
    {
      if current[n] && spans[n].parent.Some? {
        out := out + [spans[n].parent.value];
      }
    }
  }

  method CurrentIds(spans: seq<Link>, current: seq<bool>) returns (out: seq<SpanId>)
    requires |current| == |spans|
    ensures forall x :: x in out <==> exists i :: 0 <= i < |spans| && current[i] && spans[i].id == x
  {
    out := [];
    for n := 0 to |spans|
      invariant forall x :: x in out <==> exists i :: 0 <= i < n && current[i] && spans[i].id == x
    {
      if current[n] {
        out := out + [spans[n].id];
      }
    }
  }

  /** Some current row has parent `p` and ID `x`. */
  ghost predicate CurrentChild(spans: seq<Link>, current: seq<bool>, n: nat, p: SpanId, x: SpanId)
    requires n <= |current| == |spans|
  {
    exists i :: 0 <= i < n && current[i] && spans[i].parent == Some(p) && spans[i].id == x
  }

  predicate Grouped(m: map<SpanId, set<SpanId>>, p: SpanId, x: SpanId) {
    p in m && x in m[p]
  }

  method CurrentByParent(spans: seq<Link>, current: seq<bool>) returns (out: map<SpanId, set<SpanId>>)
    requires |current| == |spans|
    ensures forall p, x :: Grouped(out, p, x) <==> CurrentChild(spans, current, |spans|, p, x)
  {
    out := map[];
    for n := 0 to |spans|
      invariant forall p, x :: Grouped(out, p, x) <==> CurrentChild(spans, current, n, p, x)
    {
      ghost var before := out;
      if current[n] && spans[n].parent.Some? {
        var p := spans[n].parent.value;
        out := out[p := (if p in out then out[p] else {}) + {spans[n].id}];
      }
      forall p, x ensures Grouped(out, p, x) <==> CurrentChild(spans, current, n + 1, p, x) {
        assert Grouped(before, p, x) <==> CurrentChild(spans, current, n, p, x);
      }
    }
  }

  ghost predicate HasRelated(relation: Relation, spans: seq<Link>, current: seq<bool>, j: nat)
    requires |current| == |spans| && j < |spans|
  {
    exists i: nat :: i < |spans| && current[i] && Related(relation, spans, i, j)
  }

  lemma DescendantRow(spans: seq<Link>, current: seq<bool>, children: Edges, ids: set<SpanId>, j: nat)
    requires |current| == |spans| && j < |spans| && spans[j].parent.Some? && ChildEdges(spans, children)
    requires forall x :: x in ids <==> exists i :: 0 <= i < |spans| && current[i] && spans[i].id == x
    ensures ReachedFrom(children, ids, spans[j].parent.value) <==> HasRelated(Descendant, spans, current, j)
  {
    var x := spans[j].parent.value;
    if ReachedFrom(children, ids, x) {
      var s :| s in ids && Reaches(children, s, x);
      ReachDown(spans, children, s, x);
      var i :| 0 <= i < |spans| && current[i] && spans[i].id == s;
      assert Related(Descendant, spans, i, j);
    }
    if HasRelated(Descendant, spans, current, j) {
      var i: nat :| i < |spans| && current[i] && Related(Descendant, spans, i, j);
      ReachDown(spans, children, spans[i].id, x);
      assert spans[i].id in ids;
    }
  }

  lemma AncestorRow(spans: seq<Link>, current: seq<bool>, parents: Edges, seeds: set<SpanId>, j: nat)
    requires |current| == |spans| && j < |spans| && ParentEdges(spans, parents)
    requires forall x :: x in seeds <==> exists i :: 0 <= i < |spans| && current[i] && spans[i].parent == Some(x)
    ensures ReachedFrom(parents, seeds, spans[j].id) <==> HasRelated(Ancestor, spans, current, j)
  {
    var x := spans[j].id;
    if ReachedFrom(parents, seeds, x) {
      var s :| s in seeds && Reaches(parents, s, x);
      ReachUp(spans, parents, s, x);
      var i :| 0 <= i < |spans| && current[i] && spans[i].parent == Some(s);
      assert Related(Ancestor, spans, i, j);
    }
    if HasRelated(Ancestor, spans, current, j) {
      var i: nat :| i < |spans| && current[i] && Related(Ancestor, spans, i, j);
      ReachUp(spans, parents, spans[i].parent.value, x);
      assert spans[i].parent.value in seeds;
    }
  }

  lemma SiblingRow(spans: seq<Link>, current: seq<bool>, byParent: map<SpanId, set<SpanId>>, j: nat)
    requires |current| == |spans| && j < |spans| && spans[j].parent.Some?
    requires forall p, x :: Grouped(byParent, p, x) <==> CurrentChild(spans, current, |spans|, p, x)
    ensures var p := spans[j].parent.value;
            (p in byParent && exists id :: id in byParent[p] && id != spans[j].id) <==>
            HasRelated(Sibling, spans, current, j)
  {
    var p := spans[j].parent.value;
    if p in byParent {
      if id :| id in byParent[p] && id != spans[j].id {
        assert Grouped(byParent, p, id);
        var i :| 0 <= i < |spans| && current[i] && spans[i].parent == Some(p) && spans[i].id == id;
        assert Related(Sibling, spans, i, j);
      }
    }
    if HasRelated(Sibling, spans, current, j) {
      var i: nat :| i < |spans| && current[i] && Related(Sibling, spans, i, j);
      assert CurrentChild(spans, current, |spans|, p, spans[i].id);
      assert Grouped(byParent, p, spans[i].id);
    }
  }

  method JoinDescendant(spans: seq<Link>, children: Edges, current: seq<bool>, bit: nat) returns (out: seq<bool>)
    requires |current| == |spans| && bit < 8 && ChildEdges(spans, children)
    ensures |out| == |spans|
    ensures forall j :: 0 <= j < |spans| ==> (out[j] <==> Joined(Descendant, spans, current, bit, j))
  {
    var ids := CurrentIds(spans, current);
    var down := Closure(ids, children);
    forall j | 0 <= j < |spans| && spans[j].parent.Some?
      ensures spans[j].parent.value in down <==> HasRelated(Descendant, spans, current, j)
    {
      DescendantRow(spans, current, children, (set x | x in ids), j);
    }
    out := seq(|spans|, j requires 0 <= j < |spans| =>
      Bit(spans[j].mask, bit) && spans[j].parent.Some? && spans[j].parent.value in down);
  }

  method JoinAncestor(spans: seq<Link>, parents: Edges, current: seq<bool>, bit: nat) returns (out: seq<bool>)
    requires |current| == |spans| && bit < 8 && ParentEdges(spans, parents)
    ensures |out| == |spans|
    ensures forall j :: 0 <= j < |spans| ==> (out[j] <==> Joined(Ancestor, spans, current, bit, j))
  {
    var seeds := CurrentParents(spans, current);
    var up := Closure(seeds, parents);
    forall j | 0 <= j < |spans| ensures spans[j].id in up <==> HasRelated(Ancestor, spans, current, j) {
      AncestorRow(spans, current, parents, (set x | x in seeds), j);
    }
    out := seq(|spans|, j requires 0 <= j < |spans| => Bit(spans[j].mask, bit) && spans[j].id in up);
  }

  method JoinSibling(spans: seq<Link>, current: seq<bool>, bit: nat) returns (out: seq<bool>)
    requires |current| == |spans| && bit < 8
    ensures |out| == |spans|
    ensures forall j :: 0 <= j < |spans| ==> (out[j] <==> Joined(Sibling, spans, current, bit, j))
  {
    var byParent := CurrentByParent(spans, current);
    forall j | 0 <= j < |spans| && spans[j].parent.Some?
      ensures var p := spans[j].parent.value;
              (p in byParent && exists id :: id in byParent[p] && id != spans[j].id) <==>
              HasRelated(Sibling, spans, current, j)
    {
      SiblingRow(spans, current, byParent, j);
    }
    out := seq(|spans|, j requires 0 <= j < |spans| =>
      && Bit(spans[j].mask, bit) && spans[j].parent.Some? && spans[j].parent.value in byParent
      && exists id :: id in byParent[spans[j].parent.value] && id != spans[j].id);
  }

  method Join(relation: Relation, spans: seq<Link>, children: Edges, parents: Edges, current: seq<bool>, bit: nat)
    returns (out: seq<bool>)
    requires |current| == |spans| && bit < 8
    requires ChildEdges(spans, children) && ParentEdges(spans, parents)
    ensures |out| == |spans|
    ensures forall j :: 0 <= j < |spans| ==> (out[j] <==> Joined(relation, spans, current, bit, j))
  {
    match relation
    case Child =>
      var ids := CurrentIds(spans, current);
      out := seq(|spans|, j requires 0 <= j < |spans| =>
        Bit(spans[j].mask, bit) && spans[j].parent.Some? && spans[j].parent.value in ids);
    case Parent =>
      var wanted := CurrentParents(spans, current);
      out := seq(|spans|, j requires 0 <= j < |spans| => Bit(spans[j].mask, bit) && spans[j].id in wanted);
    case Descendant => out := JoinDescendant(spans, children, current, bit);
    case Ancestor => out := JoinAncestor(spans, parents, current, bit);
    case Sibling => out := JoinSibling(spans, current, bit);
  }

  /**
   Which rows of one trace a chain of structural joins returns: exactly those the
   parent-path meaning of the chain keeps. `compile` bounds a chain to three joins and
   masks have eight bits.
   */
  method Structural(relations: seq<Relation>, spans: seq<Link>) returns (current: seq<bool>)
    requires |relations| < 8
    ensures |current| == |spans|
    ensures forall j :: 0 <= j < |spans| ==> (current[j] <==> Kept(relations, spans, |relations|, j))
  {
    var children, parents := Adjacency(spans);
    current := seq(|spans|, j requires 0 <= j < |spans| => Bit(spans[j].mask, 0));
    for n := 0 to |relations|
      invariant |current| == |spans|
      invariant forall j :: 0 <= j < |spans| ==> (current[j] <==> Kept(relations, spans, n, j))
    {
      ghost var before := current;
      current := Join(relations[n], spans, children, parents, current, n + 1);
      forall j | 0 <= j < |spans| ensures current[j] <==> Kept(relations, spans, n + 1, j) {
        assert Joined(relations[n], spans, before, n + 1, j) <==> Kept(relations, spans, n + 1, j);
      }
    }
  }

  // ---- Laws ------------------------------------------------------------------

  /**
   Descendant and Ancestor, Child and Parent are converses row by row; Sibling is symmetric and
   irreflexive on IDs.
   */
  lemma Converses(spans: seq<Link>, i: nat, j: nat)
    requires i < |spans| && j < |spans|
    ensures Related(Descendant, spans, i, j) <==> Related(Ancestor, spans, j, i)
    ensures Related(Child, spans, i, j) <==> Related(Parent, spans, j, i)
    ensures Related(Sibling, spans, i, j) <==> Related(Sibling, spans, j, i)
    ensures Related(Sibling, spans, i, j) ==> spans[i].id != spans[j].id
  {
  }

  /** Descendant is the transitive closure of Child through any stored rows, missing parents ending the chain. */
  lemma DescendantUnfolds(spans: seq<Link>, i: nat, j: nat)
    requires i < |spans| && j < |spans|
    ensures Related(Descendant, spans, i, j) <==>
            Related(Child, spans, i, j) ||
            exists k: nat :: k < |spans| && Related(Child, spans, k, j) && Related(Descendant, spans, i, k)
  {
    if Related(Descendant, spans, i, j) {
      var p :| Climb(spans, p) && p[0] == spans[j].parent.value && p[|p| - 1] == spans[i].id;
      if |p| > 1 {
        assert Linked(spans, p[0], p[0 + 1]);
        var k: nat :| k < |spans| && spans[k].id == p[0] && spans[k].parent == Some(p[1]);
        assert Climb(spans, p[1..]) by {
          forall m | 0 <= m < |p[1..]| - 1 ensures Linked(spans, p[1..][m], p[1..][m + 1]) {
            assert Linked(spans, p[m + 1], p[m + 1 + 1]);
          }
        }
        assert Related(Child, spans, k, j) && Related(Descendant, spans, i, k);
      }
    }
    if Related(Child, spans, i, j) {
      assert Climb(spans, [spans[i].id]);
    }
    if k: nat :| k < |spans| && Related(Child, spans, k, j) && Related(Descendant, spans, i, k) {
      var p :| Climb(spans, p) && p[0] == spans[k].parent.value && p[|p| - 1] == spans[i].id;
      var q := [spans[k].id] + p;
      forall m | 0 <= m < |q| - 1 ensures Linked(spans, q[m], q[m + 1]) {
        if m > 0 { assert Linked(spans, p[m - 1], p[m - 1 + 1]); }
      }
      assert Climb(spans, q);
    }
  }

  /** A choice of one matching row per spanset, each related to the one before it. */
  ghost predicate Chain(relations: seq<Relation>, spans: seq<Link>, rows: seq<nat>)
    requires |rows| <= |relations| + 1 <= 8
  {
    && (forall k :: 0 <= k < |rows| ==> rows[k] < |spans| && Bit(spans[rows[k]].mask, k))
    && (forall k :: 0 <= k < |rows| - 1 ==> Related(relations[k], spans, rows[k], rows[k + 1]))
  }

  /** A row is returned exactly when it ends a chain with one row for every spanset. */
  lemma {:induction false} KeptIffChain(relations: seq<Relation>, spans: seq<Link>, n: nat, j: nat)
    requires n <= |relations| < 8 && j < |spans|
    ensures Kept(relations, spans, n, j) <==>
            exists rows: seq<nat> :: |rows| == n + 1 && rows[n] == j && Chain(relations, spans, rows)
  {
    hide Related;
    if n == 0 {
      if Kept(relations, spans, n, j) {
        var rows: seq<nat> := [j];
        assert |rows| == n + 1 && rows[n] == j && Chain(relations, spans, rows);
      }
    } else {
      var m: nat := n - 1;
      if Kept(relations, spans, n, j) {
        var i: nat :| i < |spans| && Kept(relations, spans, m, i) && Related(relations[m], spans, i, j);
        KeptIffChain(relations, spans, m, i);
        var rows: seq<nat> :| |rows| == m + 1 && rows[m] == i && Chain(relations, spans, rows);
        var more := rows + [j];
        assert forall k :: 0 <= k < |rows| ==> more[k] == rows[k];
        assert Chain(relations, spans, more);
      }
      if rows: seq<nat> :| |rows| == n + 1 && rows[n] == j && Chain(relations, spans, rows) {
        var less := rows[..n];
        assert forall k :: 0 <= k < |less| ==> less[k] == rows[k];
        assert Related(relations[m], spans, rows[m], rows[m + 1]);
        assert Chain(relations, spans, less);
        KeptIffChain(relations, spans, m, rows[m]);
      }
    }
  }

  /**
   Rows storing the same span agree under Parent and Ancestor, which look only at the
   candidate's ID; under the other relations they agree when they also store the same parent.
   */
  lemma SameSpanRows(relation: Relation, spans: seq<Link>, i: nat, j: nat, k: nat)
    requires i < |spans| && j < |spans| && k < |spans| && spans[j].id == spans[k].id
    requires relation.Parent? || relation.Ancestor? || spans[j].parent == spans[k].parent
    ensures Related(relation, spans, i, j) <==> Related(relation, spans, i, k)
  {
  }

  /** The two rows stand in the same relations to every row. */
  ghost predicate SameRelatives(spans: seq<Link>, j: nat, k: nat)
    requires j < |spans| && k < |spans|
  {
    forall relation, i: nat | i < |spans| :: Related(relation, spans, i, j) <==> Related(relation, spans, i, k)
  }

  /** The parent a row names matters to no other span: no row stores it, and no row of another span names it. */
  ghost predicate Unshared(spans: seq<Link>, j: nat)
    requires j < |spans|
  {
    spans[j].parent.Some? ==>
      forall i: nat | i < |spans| ::
        && Some(spans[i].id) != spans[j].parent
        && (spans[i].parent == spans[j].parent ==> spans[i].id == spans[j].id)
  }

  /** A span whose parent was never stored has no rows above it. */
  lemma NothingAbove(spans: seq<Link>, i: nat, j: nat)
    requires i < |spans| && j < |spans| && Unshared(spans, j)
    ensures !Related(Child, spans, i, j) && !Related(Descendant, spans, i, j) && !Related(Sibling, spans, i, j)
  {
    if spans[j].parent.Some? {
      forall p | Climb(spans, p) && p[0] == spans[j].parent.value ensures p[|p| - 1] != spans[i].id {
        assert 0 < |p| - 1 ==> Linked(spans, p[0], p[0 + 1]);
      }
    }
  }

  /**
   Two rows of one span have the same relatives, whatever the relation, exactly when they name the same
   parent or the parents they name matter to no other span.
   */
  lemma DuplicateRowsShareRelatives(spans: seq<Link>, j: nat, k: nat)
    requires j < |spans| && k < |spans| && spans[j].id == spans[k].id
    ensures SameRelatives(spans, j, k) <==>
            spans[j].parent == spans[k].parent || (Unshared(spans, j) && Unshared(spans, k))
  {
    if Unshared(spans, j) && Unshared(spans, k) {
      forall relation, i: nat | i < |spans| ensures Related(relation, spans, i, j) <==> Related(relation, spans, i, k) {
        NothingAbove(spans, i, j);
        NothingAbove(spans, i, k);
        if relation.Parent? || relation.Ancestor? {
          SameSpanRows(relation, spans, i, j, k);
        }
      }
    } else if spans[j].parent == spans[k].parent {
      forall relation, i: nat | i < |spans| ensures Related(relation, spans, i, j) <==> Related(relation, spans, i, k) {
        SameSpanRows(relation, spans, i, j, k);
      }
    } else {
      ToldApart(spans, j, k);
      ToldApart(spans, k, j);
    }
  }

  /** A parent that matters to another span tells its row from one that names another. */
  lemma ToldApart(spans: seq<Link>, j: nat, k: nat)
    requires j < |spans| && k < |spans| && spans[j].id == spans[k].id && spans[j].parent != spans[k].parent
    ensures !Unshared(spans, j) ==> !SameRelatives(spans, j, k) && !SameRelatives(spans, k, j)
  {
    if !Unshared(spans, j) {
      var i: nat :| i < |spans| && (Some(spans[i].id) == spans[j].parent
                                    || (spans[i].parent == spans[j].parent && spans[i].id != spans[j].id));
      var relation := if Some(spans[i].id) == spans[j].parent then Child else Sibling;
      assert Related(relation, spans, i, j) && !Related(relation, spans, i, k);
    }
  }

  /** Rows of one span with different stored parents need not share ancestors, nor siblings. */
  lemma DuplicateRowsMayDiffer()
    ensures var spans := [Link(1, None, 1), Link(2, Some(1), 2), Link(2, Some(9), 2)];
            spans[1].id == spans[2].id && Related(Descendant, spans, 0, 1) && !Related(Descendant, spans, 0, 2)
    ensures var spans := [Link(2, Some(8), 1), Link(2, Some(9), 1), Link(3, Some(9), 1)];
            spans[0].id == spans[1].id && Related(Sibling, spans, 2, 1) && !Related(Sibling, spans, 2, 0)
  {
    var spans := [Link(1, None, 1), Link(2, Some(1), 2), Link(2, Some(9), 2)];
    assert Climb(spans, [1]);
    forall p | Climb(spans, p) && p[0] == 9 ensures |p| == 1 {
      assert 0 < |p| - 1 ==> Linked(spans, p[0], p[0 + 1]);
    }
  }
}
