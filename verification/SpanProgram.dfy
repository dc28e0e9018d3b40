/**
 TraceQL span programs: `Expression::compile`, the stack evaluator `run` and the mask of
 `evaluate_with` of tempo_expression.rs. Texts are sequences of octets written as chars.
 */
module SpanProgram {
  import opened Prelude
  import S = SpanStructure

  const SPANSETS_MAX := 4
  const SELECT_MAX := 8
  const PROGRAM_MAX := 64

  /** One element of the program the query frontend sends. */
  datatype Token = Token(scope: string, key: string, op: string, wanted: string)

  datatype Instruction = And | Or | Leaf(token: Token)

  datatype Expression = Expression(
    spansets: seq<seq<Instruction>>, relations: seq<S.Relation>, select: seq<(string, string)>,
    events: bool, attributes: bool, size: nat)

  /** Whether the regular-expression translator accepts a pattern. */
  type RegexOk = string -> bool

  // ---- Tokens ----------------------------------------------------------------

  function RelationOf(op: string): Option<S.Relation> {
    if op == ">>" then Some(S.Descendant)
    else if op == ">" then Some(S.Child)
    else if op == "<<" then Some(S.Ancestor)
    else if op == "<" then Some(S.Parent)
    else if op == "~" then Some(S.Sibling)
    else None
  }

  function Symbol(r: S.Relation): string {
    match r
    case Descendant => ">>"
    case Child => ">"
    case Ancestor => "<<"
    case Parent => "<"
    case Sibling => "~"
  }

  predicate SelectValid(t: Token) {
    && t.wanted == ""
    && if t.key in ["resource", "span", "event", "none"] then 1 <= |t.op| <= 256
       else t.key == "intrinsic" && t.op in ["name", "status", "kind"]
  }

  predicate Digits(s: string) {
    |s| > 0 && forall i :: 0 <= i < |s| ==> '0' <= s[i] <= '9'
  }

  function Decimal(s: string): int
    requires forall i :: 0 <= i < |s| ==> '0' <= s[i] <= '9'
  {
    if s == "" then 0 else Decimal(s[..|s| - 1]) * 10 + (s[|s| - 1] as int - '0' as int)
  }

  /** `str::parse::<i64>`: an optional sign, digits, and a value in range. */
  function ParseI64(s: string): Option<int> {
    var signed := |s| > 0 && (s[0] == '-' || s[0] == '+');
    var digits := if signed then s[1..] else s;
    if !Digits(digits) then None
    else
      var n := if signed && s[0] == '-' then -Decimal(digits) else Decimal(digits);
      if -0x8000_0000_0000_0000 <= n < 0x8000_0000_0000_0000 then Some(n) else None
  }

  predicate StringScope(scope: string) {
    scope in ["resource.string", "span.string", "none.string", "event.string"]
  }

  predicate IntegerScope(scope: string) {
    scope in ["resource.int", "span.int", "none.int", "event.int", "intrinsic"]
  }

  predicate IsRegex(t: Token) {
    StringScope(t.scope) && (t.op == "=~" || t.op == "!~")
  }

  predicate IntrinsicValid(t: Token, n: int) {
    if t.key == "status" then (t.op == "=" || t.op == "!=") && 0 <= n <= 2
    else t.key == "duration" && n >= 0
  }

  predicate HasTemplate(s: string) {
    exists i :: 0 <= i < |s| - 1 && s[i] == '$' && s[i + 1] == '{'
  }

  predicate LeafValid(t: Token, regexOk: RegexOk) {
    && 1 <= |t.key| <= 256 && |t.wanted| <= 4096 && !HasTemplate(t.wanted)
    && if StringScope(t.scope) then
         t.op == "=" || t.op == "!=" || (IsRegex(t) && |t.wanted| <= 1024 && regexOk(t.wanted))
       else
         && IntegerScope(t.scope) && t.op in ["=", "!=", "<", "<=", ">", ">="]
         && ParseI64(t.wanted).Some?
         && (t.scope == "intrinsic" ==> IntrinsicValid(t, ParseI64(t.wanted).value))
  }

  predicate IsLeaf(t: Token) {
    t.scope != "select" && t.scope != "spanset" && t.scope != "boolean"
  }

  predicate IsJoin(t: Token) {
    t.scope == "spanset"
  }

  predicate IsSelect(t: Token) {
    t.scope == "select"
  }

  predicate ReadsEvents(t: Token) {
    if t.scope == "select" then t.key == "event" else IsLeaf(t) && "event." <= t.scope
  }

  predicate ReadsAttributes(t: Token) {
    if t.scope == "select" then t.key in ["resource", "span", "none"]
    else IsLeaf(t) && ("resource." <= t.scope || "span." <= t.scope || "none." <= t.scope)
  }

  /** The checks of single tokens the compiler makes. */
  datatype Checks = Checks(
    leaf: Token -> bool, regex: Token -> bool, select: Token -> bool, events: Token -> bool, attributes: Token -> bool)

  function Frontend(regexOk: RegexOk): Checks {
    Checks((t: Token) => LeafValid(t, regexOk), IsRegex, SelectValid, ReadsEvents, ReadsAttributes)
  }

  /** What the compiler's proof needs of the token checks. */
  ghost predicate Sane(c: Checks) {
    && (forall t :: c.regex(t) ==> IsLeaf(t))
    && (forall t :: c.select(t) ==> t.wanted == "")
    && (forall t :: c.events(t) || c.attributes(t) ==> t.scope == "select" || IsLeaf(t))
  }

  lemma FrontendSane(regexOk: RegexOk)
    ensures Sane(Frontend(regexOk))
  {
  }

  // ---- Compiling -------------------------------------------------------------

  /** The compiler's locals; `done` and `out` together are `spansets`. */
  datatype State = State(
    done: seq<seq<Instruction>>, out: seq<Instruction>, stack: nat, leaves: nat, regexes: nat,
    relations: seq<S.Relation>, select: seq<(string, string)>, events: bool, attributes: bool)

  const START := State([], [], 0, 0, 0, [], [], false, false)

  function StepSelect(s: State, t: Token, c: Checks): Option<State> {
    if !c.select(t) || |s.select| == SELECT_MAX then None
    else Some(s.(events := s.events || c.events(t), attributes := s.attributes || c.attributes(t),
                 select := s.select + [(t.key, t.op)]))
  }

  function StepSpanset(s: State, t: Token): Option<State> {
    var relation := RelationOf(t.op);
    if relation.None? || s.stack != 1 || t.key != "" || t.wanted != "" || |s.done| + 1 == SPANSETS_MAX then None
    else Some(s.(relations := s.relations + [relation.value], done := s.done + [s.out], out := [], stack := 0))
  }

  function StepBoolean(s: State, t: Token): Option<State> {
    if s.stack < 2 || t.key != "" || t.wanted != "" then None
    else if t.op == "&&" then Some(s.(out := s.out + [And], stack := s.stack - 1))
    else if t.op == "||" then Some(s.(out := s.out + [Or], stack := s.stack - 1))
    else None
  }

  function StepLeaf(s: State, t: Token, c: Checks): Option<State> {
    var regexes := s.regexes + (if c.regex(t) then 1 else 0);
    if s.leaves + 1 > 16 || !c.leaf(t) || regexes > 8 then None
    else Some(s.(out := s.out + [Leaf(t)], stack := s.stack + 1, leaves := s.leaves + 1, regexes := regexes,
                 events := s.events || c.events(t), attributes := s.attributes || c.attributes(t)))
  }

  /** One turn of the compile loop; None is a rejection. */
  function Step(s: State, t: Token, c: Checks): Option<State> {
    if t.scope == "select" then StepSelect(s, t, c)
    else if s.select != [] then None
    else if t.scope == "spanset" then StepSpanset(s, t)
    else if t.scope == "boolean" then StepBoolean(s, t)
    else StepLeaf(s, t, c)
  }

  function Steps(s: State, program: seq<Token>, c: Checks): Option<State>
    decreases |program|
  {
    if program == [] then Some(s)
    else
      var next := Step(s, program[0], c);
      if next.None? then None else Steps(next.value, program[1..], c)
  }

  // ---- The language of programs ----------------------------------------------

  datatype Tree = Branch(both: bool, left: Tree, right: Tree) | Test(token: Token)

  /** What a program says: one condition tree per spanset, the joins between them, and a projection. */
  datatype Query = Query(trees: seq<Tree>, relations: seq<S.Relation>, select: seq<(string, string)>)

  function Postfix(t: Tree): seq<Instruction> {
    match t
    case Test(token) => [Leaf(token)]
    case Branch(both, l, r) => Postfix(l) + Postfix(r) + [if both then And else Or]
  }

  function Tokens(t: Tree): seq<Token> {
    match t
    case Test(token) => [token]
    case Branch(both, l, r) => Tokens(l) + Tokens(r) + [Token("boolean", "", if both then "&&" else "||", "")]
  }

  predicate Leafy(t: Tree) {
    match t
    case Test(token) => IsLeaf(token)
    case Branch(_, l, r) => Leafy(l) && Leafy(r)
  }

  predicate AllLeafy(trees: seq<Tree>) {
    forall i :: 0 <= i < |trees| ==> Leafy(trees[i])
  }

  function JoinToken(r: S.Relation): Token {
    Token("spanset", "", Symbol(r), "")
  }

  function SelectTokens(select: seq<(string, string)>): seq<Token> {
    seq(|select|, i requires 0 <= i < |select| => Token("select", select[i].0, select[i].1, ""))
  }

  /** Each tree followed by the join after it. */
  function Joined(trees: seq<Tree>, relations: seq<S.Relation>): seq<Token>
    requires |trees| == |relations|
  {
    if trees == [] then []
    else
      var n := |trees| - 1;
      Joined(trees[..n], relations[..n]) + Tokens(trees[n]) + [JoinToken(relations[n])]
  }

  predicate Grammatical(q: Query) {
    |q.trees| == |q.relations| + 1 && AllLeafy(q.trees)
  }

  function Render(q: Query): seq<Token>
    requires Grammatical(q)
  {
    var n := |q.relations|;
    Joined(q.trees[..n], q.relations) + Tokens(q.trees[n]) + SelectTokens(q.select)
  }

  function Count(program: seq<Token>, p: Token -> bool): nat {
    if program == [] then 0 else Count(program[..|program| - 1], p) + (if p(program[|program| - 1]) then 1 else 0)
  }

  /** Every leaf and every projection passes its own check. */
  ghost predicate Checked(program: seq<Token>, c: Checks) {
    forall i :: 0 <= i < |program| ==>
                  && (IsLeaf(program[i]) ==> c.leaf(program[i]))
                  && (program[i].scope == "select" ==> c.select(program[i]))
  }

  /** The admission limits, counted over the whole program. */
  ghost predicate WithinLimits(program: seq<Token>, c: Checks) {
    && 1 <= |program| <= PROGRAM_MAX
    && Count(program, IsLeaf) <= 16
    && Count(program, c.regex) <= 8
    && Count(program, IsJoin) < SPANSETS_MAX
    && Count(program, IsSelect) <= SELECT_MAX
    && Checked(program, c)
  }

  ghost predicate Any(program: seq<Token>, p: Token -> bool) {
    exists i :: 0 <= i < |program| && p(program[i])
  }

  /** The compiled form of a query. */
  ghost predicate Compiled(e: Expression, q: Query, program: seq<Token>, c: Checks)
    requires Grammatical(q)
  {
    && |e.spansets| == |q.trees|
    && (forall i :: 0 <= i < |q.trees| ==> e.spansets[i] == Postfix(q.trees[i]))
    && e.relations == q.relations && e.select == q.select && e.size == |program|
    && (e.events <==> Any(program, c.events))
    && (e.attributes <==> Any(program, c.attributes))
  }

  method Compile(program: seq<Token>, regexOk: RegexOk) returns (r: Option<Expression>)
    ensures r == CompileSpec(program, Frontend(regexOk))
  {
    var c := Frontend(regexOk);
    if program == [] || |program| > PROGRAM_MAX {
      return None;
    }
    var s := START;
    for i := 0 to |program|
      invariant Steps(START, program, c) == Steps(s, program[i..], c)
    {
      var next := Step(s, program[i], c);
      if next.None? {
        return None;
      }
      assert program[i..][1..] == program[i + 1..];
      s := next.value;
    }
    r := if s.stack == 1 then Some(Finish(s, |program|)) else None;
  }

  function Finish(s: State, size: nat): Expression {
    Expression(s.done + [s.out], s.relations, s.select, s.events, s.attributes, size)
  }

  /** What `Compile` answers, as a fold of its loop body. */
  function CompileSpec(program: seq<Token>, c: Checks): Option<Expression> {
    if program == [] || |program| > PROGRAM_MAX then None
    else
      var s := Steps(START, program, c);
      if s.None? || s.value.stack != 1 then None else Some(Finish(s.value, |program|))
  }

  // ---- Accepted programs are queries within the limits -----------------------

  lemma {:induction false} StepsSnoc(s: State, p: seq<Token>, t: Token, c: Checks)
    decreases |p|
    ensures Steps(s, p + [t], c) ==
            (var m := Steps(s, p, c); if m.None? then None else Step(m.value, t, c))
  {
    if p == [] {
      assert p + [t] == [t] && [t][1..] == [];
    } else {
      assert (p + [t])[1..] == p[1..] + [t];
      var next := Step(s, p[0], c);
      if next.Some? { StepsSnoc(next.value, p[1..], t, c); }
    }
  }

  function Postfixes(forest: seq<Tree>): seq<Instruction> {
    if forest == [] then [] else Postfixes(forest[..|forest| - 1]) + Postfix(forest[|forest| - 1])
  }

  function ForestTokens(forest: seq<Tree>): seq<Token> {
    if forest == [] then [] else ForestTokens(forest[..|forest| - 1]) + Tokens(forest[|forest| - 1])
  }

  /** What the compiler knows after `program`: finished trees, and the trees its counter stands for. */
  ghost predicate Shaped(program: seq<Token>, s: State, done: seq<Tree>, forest: seq<Tree>) {
    && |done| == |s.done| == |s.relations|
    && (forall i :: 0 <= i < |done| ==> s.done[i] == Postfix(done[i])) && AllLeafy(done)
    && AllLeafy(forest)
    && s.out == Postfixes(forest) && s.stack == |forest|
    && program == Joined(done, s.relations) + ForestTokens(forest) + SelectTokens(s.select)
  }

  ghost predicate Counted(program: seq<Token>, s: State, c: Checks) {
    && s.leaves == Count(program, IsLeaf) <= 16
    && s.regexes == Count(program, c.regex) <= 8
    && |s.done| == Count(program, IsJoin) < SPANSETS_MAX
    && |s.select| == Count(program, IsSelect) <= SELECT_MAX
    && Checked(program, c)
    && (s.events <==> Any(program, c.events))
    && (s.attributes <==> Any(program, c.attributes))
  }

  lemma CountSnoc(p: seq<Token>, t: Token, f: Token -> bool)
    ensures Count(p + [t], f) == Count(p, f) + (if f(t) then 1 else 0)
  {
    assert (p + [t])[..|p|] == p;
  }

  lemma AnySnoc(p: seq<Token>, t: Token, f: Token -> bool)
    ensures Any(p + [t], f) <==> Any(p, f) || f(t)
  {
    var q := p + [t];
    assert q[|p|] == t;
    if Any(p, f) {
      var i :| 0 <= i < |p| && f(p[i]);
      assert q[i] == p[i];
    }
  }

  lemma CheckedParts(a: seq<Token>, b: seq<Token>, c: Checks)
    requires Checked(a + b, c)
    ensures Checked(a, c) && Checked(b, c)
  {
    forall i | 0 <= i < |a|
      ensures (IsLeaf(a[i]) ==> c.leaf(a[i])) && (a[i].scope == "select" ==> c.select(a[i]))
    {
      assert (a + b)[i] == a[i];
    }
    forall i | 0 <= i < |b|
      ensures (IsLeaf(b[i]) ==> c.leaf(b[i])) && (b[i].scope == "select" ==> c.select(b[i]))
    {
      assert (a + b)[|a| + i] == b[i];
    }
  }

  lemma StepCounted(p: seq<Token>, s: State, t: Token, c: Checks)
    requires Sane(c) && Counted(p, s, c)
    requires Step(s, t, c).Some?
    ensures Counted(p + [t], Step(s, t, c).value, c)
  {
    hide Count, Any;
    CountSnoc(p, t, IsLeaf);
    CountSnoc(p, t, c.regex);
    CountSnoc(p, t, IsJoin);
    CountSnoc(p, t, IsSelect);
    AnySnoc(p, t, c.events);
    AnySnoc(p, t, c.attributes);
  }

  lemma ShapedSelect(p: seq<Token>, s: State, done: seq<Tree>, forest: seq<Tree>, t: Token, c: Checks)
    requires Sane(c) && Shaped(p, s, done, forest) && t.scope == "select" && StepSelect(s, t, c).Some?
    ensures Shaped(p + [t], StepSelect(s, t, c).value, done, forest)
  {
    assert SelectTokens(s.select + [(t.key, t.op)]) == SelectTokens(s.select) + [t];
  }

  lemma ShapedSpanset(p: seq<Token>, s: State, done: seq<Tree>, forest: seq<Tree>, t: Token)
    requires Shaped(p, s, done, forest) && s.select == [] && t.scope == "spanset" && StepSpanset(s, t).Some?
    ensures |forest| == 1 && Shaped(p + [t], StepSpanset(s, t).value, done + [forest[0]], [])
  {
    var next := StepSpanset(s, t).value;
    var tree := forest[0];
    assert forest == [tree] && forest[..0] == [];
    assert Postfixes(forest) == Postfix(tree) && ForestTokens(forest) == Tokens(tree);
    assert (done + [tree])[..|done|] == done && next.relations[..|done|] == s.relations;
    assert JoinToken(next.relations[|done|]) == t;
    assert SelectTokens([]) == [];
  }

  lemma {:induction false} ForestTop(forest: seq<Tree>)
    requires |forest| >= 2
    ensures var n := |forest|;
            && Postfixes(forest) == Postfixes(forest[..n - 2]) + Postfix(forest[n - 2]) + Postfix(forest[n - 1])
            && ForestTokens(forest) == ForestTokens(forest[..n - 2]) + Tokens(forest[n - 2]) + Tokens(forest[n - 1])
  {
    var n := |forest|;
    assert forest[..n - 1][..n - 2] == forest[..n - 2];
  }

  lemma {:induction false} ForestPush(forest: seq<Tree>, t: Tree)
    ensures Postfixes(forest + [t]) == Postfixes(forest) + Postfix(t)
    ensures ForestTokens(forest + [t]) == ForestTokens(forest) + Tokens(t)
  {
    assert (forest + [t])[..|forest|] == forest;
  }

  lemma LeafyTop(forest: seq<Tree>, tree: Tree)
    requires |forest| >= 2 && AllLeafy(forest)
    requires tree.Branch? && tree.left == forest[|forest| - 2] && tree.right == forest[|forest| - 1]
    ensures AllLeafy(forest[..|forest| - 2] + [tree])
  {
  }

  lemma ShapedBoolean(p: seq<Token>, s: State, done: seq<Tree>, forest: seq<Tree>, t: Token)
    requires Shaped(p, s, done, forest) && s.select == [] && t.scope == "boolean" && StepBoolean(s, t).Some?
    ensures var n := |forest|;
            n >= 2 &&
            Shaped(p + [t], StepBoolean(s, t).value, done,
                   forest[..n - 2] + [Branch(t.op == "&&", forest[n - 2], forest[n - 1])])
  {
    var n := |forest|;
    var low, tree := forest[..n - 2], Branch(t.op == "&&", forest[n - 2], forest[n - 1]);
    LeafyTop(forest, tree);
    ForestBranch(forest, tree);
    assert t == OperatorToken(tree.both) && SelectTokens([]) == [];
    Append(Joined(done, s.relations), ForestTokens(forest), t);
  }

  lemma Append(a: seq<Token>, b: seq<Token>, t: Token)
    ensures a + b + [] + [t] == a + (b + [t]) + []
  {
  }

  /** Joining the two top trees appends the operator to both listings. */
  lemma {:induction false} ForestBranch(forest: seq<Tree>, tree: Tree)
    requires |forest| >= 2 && tree.Branch? && tree.left == forest[|forest| - 2] && tree.right == forest[|forest| - 1]
    ensures Postfixes(forest[..|forest| - 2] + [tree]) == Postfixes(forest) + [if tree.both then And else Or]
    ensures ForestTokens(forest[..|forest| - 2] + [tree]) == ForestTokens(forest) + [OperatorToken(tree.both)]
  {
    ForestTop(forest);
    ForestPush(forest[..|forest| - 2], tree);
  }

  lemma ShapedLeaf(p: seq<Token>, s: State, done: seq<Tree>, forest: seq<Tree>, t: Token, c: Checks)
    requires Shaped(p, s, done, forest) && s.select == [] && IsLeaf(t) && StepLeaf(s, t, c).Some?
    ensures Shaped(p + [t], StepLeaf(s, t, c).value, done, forest + [Test(t)])
  {
    ForestPush(forest, Test(t));
    assert SelectTokens([]) == [];
  }

  lemma StepShaped(p: seq<Token>, s: State, done: seq<Tree>, forest: seq<Tree>, t: Token, c: Checks)
    returns (done': seq<Tree>, forest': seq<Tree>)
    requires Sane(c) && Shaped(p, s, done, forest)
    requires Step(s, t, c).Some?
    ensures Shaped(p + [t], Step(s, t, c).value, done', forest')
  {
    var n := |forest|;
    if t.scope == "select" {
      ShapedSelect(p, s, done, forest, t, c);
      return done, forest;
    } else if t.scope == "spanset" {
      ShapedSpanset(p, s, done, forest, t);
      return done + [forest[0]], [];
    } else if t.scope == "boolean" {
      ShapedBoolean(p, s, done, forest, t);
      return done, forest[..n - 2] + [Branch(t.op == "&&", forest[n - 2], forest[n - 1])];
    } else {
      ShapedLeaf(p, s, done, forest, t, c);
      return done, forest + [Test(t)];
    }
  }

  lemma {:induction false} CompiledShape(program: seq<Token>, c: Checks)
    returns (done: seq<Tree>, forest: seq<Tree>)
    requires Sane(c) && Steps(START, program, c).Some?
    ensures Shaped(program, Steps(START, program, c).value, done, forest)
    ensures Counted(program, Steps(START, program, c).value, c)
    decreases |program|
  {
    if program == [] {
      done, forest := [], [];
    } else {
      var p, t := program[..|program| - 1], program[|program| - 1];
      assert program == p + [t];
      StepsSnoc(START, p, t, c);
      done, forest := CompiledShape(p, c);
      StepCounted(p, Steps(START, p, c).value, t, c);
      done, forest := StepShaped(p, Steps(START, p, c).value, done, forest, t, c);
    }
  }

  /** Every accepted program is a query within the limits, and compiles to that query. */
  lemma AcceptedIsQuery(program: seq<Token>, c: Checks) returns (q: Query)
    requires Sane(c) && CompileSpec(program, c).Some?
    ensures Grammatical(q) && Render(q) == program && WithinLimits(program, c) && |q.trees| <= SPANSETS_MAX
    ensures Compiled(CompileSpec(program, c).value, q, program, c)
  {
    var s := Steps(START, program, c).value;
    var done, forest := CompiledShape(program, c);
    assert forest == [forest[0]] && forest[..0] == [];
    q := Query(done + [forest[0]], s.relations, s.select);
    assert q.trees[..|q.relations|] == done;
    assert ForestTokens(forest) == Tokens(forest[0]);
    assert Postfixes(forest) == Postfix(forest[0]);
  }

  // ---- Every query within the limits is accepted -----------------------------

  lemma {:induction false} StepsConcat(s: State, a: seq<Token>, b: seq<Token>, c: Checks)
    ensures Steps(s, a + b, c) ==
            (var m := Steps(s, a, c); if m.None? then None else Steps(m.value, b, c))
    decreases |a|
  {
    if a == [] {
      assert a + b == b;
    } else {
      assert (a + b)[1..] == a[1..] + b;
      var next := Step(s, a[0], c);
      if next.Some? { StepsConcat(next.value, a[1..], b, c); }
    }
  }

  lemma {:induction false} CountConcat(a: seq<Token>, b: seq<Token>, f: Token -> bool)
    ensures Count(a + b, f) == Count(a, f) + Count(b, f)
    decreases |b|
  {
    if b == [] {
      assert a + b == a;
    } else {
      var n := |b| - 1;
      assert a + b == (a + b[..n]) + [b[n]];
      CountSnoc(a + b[..n], b[n], f);
      CountConcat(a, b[..n], f);
    }
  }

  ghost predicate Admits(s: State, tokens: seq<Token>, c: Checks) {
    && s.select == []
    && s.leaves + Count(tokens, IsLeaf) <= 16
    && s.regexes + Count(tokens, c.regex) <= 8
    && Checked(tokens, c)
  }

  /** What compiling a tree's tokens adds to the state. */
  ghost predicate Added(s: State, s': State, t: Tree, c: Checks) {
    && s'.done == s.done && s'.relations == s.relations && s'.select == s.select
    && s'.out == s.out + Postfix(t) && s'.stack == s.stack + 1
    && s'.leaves == s.leaves + Count(Tokens(t), IsLeaf) && s'.regexes == s.regexes + Count(Tokens(t), c.regex)
  }

  function OperatorToken(both: bool): Token {
    Token("boolean", "", if both then "&&" else "||", "")
  }

  lemma StepOperator(s: State, both: bool, c: Checks)
    requires s.select == [] && s.stack >= 2
    ensures Step(s, OperatorToken(both), c) ==
            Some(s.(out := s.out + [if both then And else Or], stack := s.stack - 1))
  {
  }

  lemma StepsBranch(s: State, s1: State, s2: State, t: Tree, c: Checks) returns (s3: State)
    requires t.Branch? && s.select == []
    requires Steps(s, Tokens(t.left), c) == Some(s1) && Added(s, s1, t.left, c)
    requires Steps(s1, Tokens(t.right), c) == Some(s2) && Added(s1, s2, t.right, c)
    ensures s3 == s2.(out := s2.out + [if t.both then And else Or], stack := s2.stack - 1)
    ensures Steps(s, Tokens(t), c) == Some(s3)
  {
    s3 := s2.(out := s2.out + [if t.both then And else Or], stack := s2.stack - 1);
    StepsConcat(s, Tokens(t.left), Tokens(t.right), c);
    StepsSnoc(s, Tokens(t.left) + Tokens(t.right), OperatorToken(t.both), c);
    StepOperator(s2, t.both, c);
  }

  lemma CountBranch(t: Tree, f: Token -> bool)
    requires t.Branch? && !f(OperatorToken(t.both))
    ensures Count(Tokens(t), f) == Count(Tokens(t.left), f) + Count(Tokens(t.right), f)
  {
    assert Tokens(t) == Tokens(t.left) + Tokens(t.right) + [OperatorToken(t.both)];
    CountSegment(Tokens(t.left), Tokens(t.right), OperatorToken(t.both), f);
  }

  lemma {:induction false} AddedBranch(s: State, s1: State, s2: State, t: Tree, c: Checks)
    requires t.Branch? && Sane(c) && Added(s, s1, t.left, c) && Added(s1, s2, t.right, c)
    ensures s2.stack >= 2
    ensures Added(s, s2.(out := s2.out + [if t.both then And else Or], stack := s2.stack - 1), t, c)
  {
    CountBranch(t, IsLeaf);
    CountBranch(t, c.regex);
    Regroup(s.out, Postfix(t.left), Postfix(t.right), [if t.both then And else Or]);
  }

  lemma Regroup(a: seq<Instruction>, b: seq<Instruction>, d: seq<Instruction>, e: seq<Instruction>)
    ensures a + b + d + e == a + (b + d + e)
  {
  }

  lemma AdmitsParts(s: State, a: seq<Token>, b: seq<Token>, d: Token, c: Checks)
    requires Admits(s, a + b + [d], c)
    ensures Admits(s, a, c)
    ensures forall s': State ::
              (s'.select == [] && s'.leaves == s.leaves + Count(a, IsLeaf)
               && s'.regexes == s.regexes + Count(a, c.regex))
              ==> Admits(s', b, c)
  {
    CountSnoc(a + b, d, IsLeaf);
    CountSnoc(a + b, d, c.regex);
    CountConcat(a, b, IsLeaf);
    CountConcat(a, b, c.regex);
    CheckedParts(a + b, [d], c);
    CheckedParts(a, b, c);
  }

  lemma StepsTest(s: State, token: Token, c: Checks)
    requires Sane(c) && IsLeaf(token) && Admits(s, [token], c)
    ensures Steps(s, [token], c).Some? && Added(s, Steps(s, [token], c).value, Test(token), c)
  {
    assert [token][1..] == [] && [] + [token] == [token];
    CountSnoc([], token, IsLeaf);
    CountSnoc([], token, c.regex);
    assert Steps(s, [token], c) == Step(s, token, c);
    assert c.leaf([token][0]);
  }

  lemma {:induction false} StepsTree(s: State, t: Tree, c: Checks)
    requires Sane(c) && Leafy(t) && Admits(s, Tokens(t), c)
    ensures Steps(s, Tokens(t), c).Some? && Added(s, Steps(s, Tokens(t), c).value, t, c)
    decreases t
  {
    match t
    case Test(token) =>
      StepsTest(s, token, c);
    case Branch(both, l, r) =>
      AdmitsParts(s, Tokens(l), Tokens(r), OperatorToken(both), c);
      StepsTree(s, l, c);
      var s1 := Steps(s, Tokens(l), c).value;
      StepsTree(s1, r, c);
      var s2 := Steps(s1, Tokens(r), c).value;
      AddedBranch(s, s1, s2, t, c);
      var _ := StepsBranch(s, s1, s2, t, c);
  }

  /** Compiling one more tree and the join after it. */
  lemma StepsSegment(a: seq<Token>, s: State, t: Tree, r: S.Relation, c: Checks)
    requires Sane(c) && Steps(START, a, c) == Some(s) && s.stack == 0 && s.out == [] && |s.done| + 1 < SPANSETS_MAX
    requires Leafy(t) && Admits(s, Tokens(t), c)
    ensures var m := Steps(START, a + Tokens(t) + [JoinToken(r)], c);
            && m.Some?
            && m.value.stack == 0 && m.value.select == [] && m.value.out == []
            && m.value.done == s.done + [Postfix(t)] && m.value.relations == s.relations + [r]
            && m.value.leaves == s.leaves + Count(Tokens(t), IsLeaf)
            && m.value.regexes == s.regexes + Count(Tokens(t), c.regex)
  {
    StepsTree(s, t, c);
    var s1 := Steps(s, Tokens(t), c).value;
    StepsConcat(START, a, Tokens(t), c);
    StepsSnoc(START, a + Tokens(t), JoinToken(r), c);
    assert RelationOf(Symbol(r)) == Some(r);
    assert s1.out == Postfix(t);
  }

  /** The state after some joins: nothing pending, and counters equal to the counts. */
  ghost predicate JoinedState(s: State, trees: seq<Tree>, relations: seq<S.Relation>, tokens: seq<Token>, c: Checks) {
    && s.stack == 0 && s.select == [] && s.out == []
    && s.leaves == Count(tokens, IsLeaf) && s.regexes == Count(tokens, c.regex)
    && |s.done| == |trees| && s.relations == relations
    && forall i :: 0 <= i < |trees| ==> s.done[i] == Postfix(trees[i])
  }

  lemma {:induction false} JoinedStep(s: State, trees: seq<Tree>, relations: seq<S.Relation>, s': State, c: Checks)
    requires Sane(c) && |trees| == |relations| > 0
    requires var n := |trees| - 1;
             && JoinedState(s, trees[..n], relations[..n], Joined(trees[..n], relations[..n]), c)
             && s'.stack == 0 && s'.select == [] && s'.out == []
             && s'.done == s.done + [Postfix(trees[n])] && s'.relations == s.relations + [relations[n]]
             && s'.leaves == s.leaves + Count(Tokens(trees[n]), IsLeaf)
             && s'.regexes == s.regexes + Count(Tokens(trees[n]), c.regex)
    ensures JoinedState(s', trees, relations, Joined(trees, relations), c)
  {
    hide Count, Joined, Tokens, Postfix;
    CountJoined(trees, relations, IsLeaf);
    CountJoined(trees, relations, c.regex);
    var n := |trees| - 1;
    assert relations == relations[..n] + [relations[n]];
  }

  lemma CountJoined(trees: seq<Tree>, relations: seq<S.Relation>, f: Token -> bool)
    requires |trees| == |relations| > 0 && !f(JoinToken(relations[|trees| - 1]))
    ensures var n := |trees| - 1;
            Count(Joined(trees, relations), f) ==
              Count(Joined(trees[..n], relations[..n]), f) + Count(Tokens(trees[n]), f)
  {
    var n := |trees| - 1;
    CountSegment(Joined(trees[..n], relations[..n]), Tokens(trees[n]), JoinToken(relations[n]), f);
  }

  lemma CountSegment(a: seq<Token>, b: seq<Token>, d: Token, f: Token -> bool)
    requires !f(d)
    ensures Count(a + b + [d], f) == Count(a, f) + Count(b, f)
  {
    CountSnoc(a + b, d, f);
    CountConcat(a, b, f);
  }

  lemma {:induction false} StepsJoined(trees: seq<Tree>, relations: seq<S.Relation>, c: Checks)
    requires Sane(c) && |trees| == |relations| < SPANSETS_MAX
    requires AllLeafy(trees)
    requires Admits(START, Joined(trees, relations), c)
    ensures Steps(START, Joined(trees, relations), c).Some?
    ensures JoinedState(Steps(START, Joined(trees, relations), c).value, trees, relations, Joined(trees, relations), c)
    decreases |trees|
  {
    if trees != [] {
      var n := |trees| - 1;
      var a, b, d := Joined(trees[..n], relations[..n]), Tokens(trees[n]), JoinToken(relations[n]);
      AdmitsParts(START, a, b, d, c);
      StepsJoined(trees[..n], relations[..n], c);
      var s := Steps(START, a, c).value;
      StepsSegment(a, s, trees[n], relations[n], c);
      JoinedStep(s, trees, relations, Steps(START, a + b + [d], c).value, c);
    }
  }

  lemma {:induction false} StepsSelect(s: State, select: seq<(string, string)>, c: Checks)
    requires |s.select| + |select| <= SELECT_MAX
    requires Checked(SelectTokens(select), c)
    ensures Steps(s, SelectTokens(select), c).Some?
    ensures var s' := Steps(s, SelectTokens(select), c).value;
            && s'.stack == s.stack && s'.done == s.done && s'.out == s.out
            && s'.relations == s.relations && s'.select == s.select + select
    decreases |select|
  {
    if select != [] {
      var tokens := SelectTokens(select);
      assert tokens[1..] == SelectTokens(select[1..]);
      assert tokens == [tokens[0]] + tokens[1..];
      CheckedParts([tokens[0]], tokens[1..], c);
      assert (tokens[0].key, tokens[0].op) == select[0] && select == [select[0]] + select[1..];
      StepsSelect(Step(s, tokens[0], c).value, select[1..], c);
    }
  }

  lemma {:induction false} NoSpansets(tokens: seq<Token>)
    requires forall t :: t in tokens ==> !IsJoin(t)
    ensures Count(tokens, IsJoin) == 0
  {
    hide IsJoin;
    if tokens != [] { NoSpansets(tokens[..|tokens| - 1]); }
  }

  lemma {:induction false} CountSelects(select: seq<(string, string)>)
    ensures Count(SelectTokens(select), IsSelect) == |select|
    decreases |select|
  {
    if select != [] {
      var n := |select| - 1;
      assert SelectTokens(select)[..n] == SelectTokens(select[..n]);
      CountSelects(select[..n]);
    }
  }

  lemma {:induction false} TreeScopes(t: Tree)
    requires Leafy(t)
    ensures forall x :: x in Tokens(t) ==> !IsJoin(x)
  {
    if t.Branch? {
      TreeScopes(t.left);
      TreeScopes(t.right);
    }
  }

  lemma {:induction false} CountJoins(trees: seq<Tree>, relations: seq<S.Relation>)
    requires |trees| == |relations| && AllLeafy(trees)
    ensures Count(Joined(trees, relations), IsJoin) == |trees|
    decreases |trees|
  {
    if trees != [] {
      var n := |trees| - 1;
      CountJoins(trees[..n], relations[..n]);
      JoinCounted(Joined(trees[..n], relations[..n]), trees[n], relations[n]);
    }
  }

  lemma JoinCounted(a: seq<Token>, t: Tree, relation: S.Relation)
    requires Leafy(t)
    ensures Count(a + Tokens(t) + [JoinToken(relation)], IsJoin) == Count(a, IsJoin) + 1
  {
    hide Count, Tokens, Leafy, Symbol;
    TreeScopes(t);
    NoSpansets(Tokens(t));
    CountConcat(a, Tokens(t), IsJoin);
    CountSnoc(a + Tokens(t), JoinToken(relation), IsJoin);
  }

  /** Every query within the limits is accepted and compiles to its own trees, joins and projection. */
  lemma QueryAccepted(q: Query, c: Checks)
    requires Sane(c) && Grammatical(q) && WithinLimits(Render(q), c)
    ensures CompileSpec(Render(q), c).Some?
    ensures Compiled(CompileSpec(Render(q), c).value, q, Render(q), c)
  {
    var s := QuerySteps(q, c);
    var _, _ := CompiledShape(Render(q), c);
  }

  lemma {:induction false} QuerySteps(q: Query, c: Checks) returns (s: State)
    requires Sane(c) && Grammatical(q) && WithinLimits(Render(q), c)
    ensures Steps(START, Render(q), c) == Some(s) && s.stack == 1
    ensures |s.done| + 1 == |q.trees| && s.relations == q.relations && s.select == q.select
    ensures forall i :: 0 <= i < |q.trees| ==> (s.done + [s.out])[i] == Postfix(q.trees[i])
  {
    hide Steps, Count, Checked, Joined, Tokens, Leafy, Postfix, IsLeaf;
    var n := |q.relations|;
    var a, b, d := Joined(q.trees[..n], q.relations), Tokens(q.trees[n]), SelectTokens(q.select);
    QueryCounts(q, a, b, d, c);
    CheckedParts(a + b, d, c);
    CheckedParts(a, b, c);
    StepsJoined(q.trees[..n], q.relations, c);
    var m := Steps(START, a, c).value;
    StepsTail(a, m, q.trees[n], q.select, c);
    s := Steps(START, Render(q), c).value;
  }

  /** Compiling the last tree and the projection. */
  lemma StepsTail(a: seq<Token>, s: State, t: Tree, select: seq<(string, string)>, c: Checks)
    requires Sane(c) && Steps(START, a, c) == Some(s) && s.stack == 0 && s.out == []
    requires Leafy(t) && Admits(s, Tokens(t), c) && |select| <= SELECT_MAX
    requires Checked(SelectTokens(select), c)
    ensures var m := Steps(START, a + Tokens(t) + SelectTokens(select), c);
            && m.Some? && m.value.stack == 1 && m.value.done == s.done && m.value.out == Postfix(t)
            && m.value.relations == s.relations && m.value.select == select
  {
    StepsTree(s, t, c);
    StepsConcat(START, a, Tokens(t), c);
    var s1 := Steps(s, Tokens(t), c).value;
    StepsSelect(s1, select, c);
    StepsConcat(START, a + Tokens(t), SelectTokens(select), c);
    assert [] + select == select;
  }

  lemma QueryCounts(q: Query, a: seq<Token>, b: seq<Token>, d: seq<Token>, c: Checks)
    requires Grammatical(q)
    requires a == Joined(q.trees[..|q.relations|], q.relations) && d == SelectTokens(q.select)
    ensures Count(a + b + d, IsLeaf) >= Count(a, IsLeaf) + Count(b, IsLeaf)
    ensures Count(a + b + d, c.regex) >= Count(a, c.regex) + Count(b, c.regex)
    ensures Count(a + b + d, IsJoin) >= |q.relations|
    ensures Count(a + b + d, IsSelect) >= |q.select|
  {
    hide Count, Joined, SelectTokens, IsLeaf, IsJoin, IsSelect, Leafy;
    CountConcat(a + b, d, IsLeaf);
    CountConcat(a, b, IsLeaf);
    CountConcat(a + b, d, c.regex);
    CountConcat(a, b, c.regex);
    CountConcat(a + b, d, IsJoin);
    CountConcat(a, b, IsJoin);
    CountConcat(a + b, d, IsSelect);
    CountJoins(q.trees[..|q.relations|], q.relations);
    CountSelects(q.select);
  }

  // ---- A postfix program denotes one tree ------------------------------------

  /** Rebuild trees from a postfix program, with the trees built so far. */
  function Parse(program: seq<Instruction>, built: seq<Tree>): Option<seq<Tree>> {
    if program == [] then Some(built)
    else
      match program[0]
      case Leaf(token) => Parse(program[1..], built + [Test(token)])
      case _ =>
        var n := |built|;
        if n < 2 then None
        else Parse(program[1..], built[..n - 2] + [Branch(program[0].And?, built[n - 2], built[n - 1])])
  }

  lemma {:induction false} ParsePostfix(t: Tree, rest: seq<Instruction>, built: seq<Tree>)
    ensures Parse(Postfix(t) + rest, built) == Parse(rest, built + [t])
    decreases t
  {
    match t
    case Test(token) =>
      assert (Postfix(t) + rest)[1..] == rest;
    case Branch(both, l, r) =>
      var op := if both then And else Or;
      assert Postfix(t) + rest == Postfix(l) + (Postfix(r) + ([op] + rest));
      ParsePostfix(l, Postfix(r) + ([op] + rest), built);
      ParsePostfix(r, [op] + rest, built + [l]);
      var b := built + [l] + [r];
      assert ([op] + rest)[1..] == rest;
      assert b[..|b| - 2] == built;
  }

  /** Different condition trees have different postfix programs. */
  lemma PostfixInjective(t: Tree, u: Tree)
    requires Postfix(t) == Postfix(u)
    ensures t == u
  {
    ParsePostfix(t, [], []);
    ParsePostfix(u, [], []);
    assert Postfix(t) + [] == Postfix(t);
    assert ([] + [t])[0] == ([] + [u])[0];
  }

  /** A program renders at most one query. */
  lemma QueryUnique(p: Query, q: Query, c: Checks)
    requires Grammatical(p) && Grammatical(q) && Render(p) == Render(q)
    requires Sane(c) && WithinLimits(Render(p), c)
    ensures p == q
  {
    QueryAccepted(p, c);
    QueryAccepted(q, c);
    forall i | 0 <= i < |p.trees| ensures p.trees[i] == q.trees[i] {
      PostfixInjective(p.trees[i], q.trees[i]);
    }
  }

  // ---- Running ---------------------------------------------------------------

  /** A leaf's answer for one span; None when the stored record cannot be read. */
  type Leaves = Token -> Option<bool>

  datatype Outcome = Value(holds: bool) | LeafFailed | Underflow

  /** How the stack machine ends: with a stack, at an unreadable leaf, or at an operator without its operands. */
  datatype Machine = Halted(stack: seq<bool>) | Unreadable | Stuck

  /** What a condition tree means. Both sides are always evaluated, so an unreadable leaf is never hidden. */
  function Meaning(t: Tree, leaves: Leaves): Option<bool> {
    match t
    case Test(token) => leaves(token)
    case Branch(both, l, r) =>
      var x, y := Meaning(l, leaves), Meaning(r, leaves);
      if x.None? || y.None? then None
      else Some(if both then x.value && y.value else x.value || y.value)
  }

  /** The stack machine as a fold of its loop body. */
  function Eval(program: seq<Instruction>, stack: seq<bool>, leaves: Leaves): Machine
    decreases |program|
  {
    var n := |stack|;
    if program == [] then Halted(stack)
    else
      match program[0]
      case Leaf(token) =>
        var got := leaves(token);
        if got.None? then Unreadable else Eval(program[1..], stack + [got.value], leaves)
      case _ =>
        if n < 2 then Stuck
        else
          var x, y := stack[n - 2], stack[n - 1];
          Eval(program[1..], stack[..n - 2] + [if program[0].And? then x && y else x || y], leaves)
  }

  lemma {:induction false} EvalPostfix(t: Tree, rest: seq<Instruction>, stack: seq<bool>, leaves: Leaves)
    ensures Eval(Postfix(t) + rest, stack, leaves) ==
            (var m := Meaning(t, leaves); if m.None? then Unreadable else Eval(rest, stack + [m.value], leaves))
    decreases t
  {
    match t
    case Test(token) =>
      assert (Postfix(t) + rest)[1..] == rest;
    case Branch(both, l, r) =>
      var op := if both then And else Or;
      assert Postfix(t) + rest == Postfix(l) + (Postfix(r) + ([op] + rest));
      EvalPostfix(l, Postfix(r) + ([op] + rest), stack, leaves);
      var x, y := Meaning(l, leaves), Meaning(r, leaves);
      if x.Some? {
        EvalPostfix(r, [op] + rest, stack + [x.value], leaves);
        if y.Some? {
          var b := stack + [x.value] + [y.value];
          assert ([op] + rest)[1..] == rest && b[..|b| - 2] == stack;
        }
      }
  }

  /** A tree's postfix program never lacks operands, and ends with the tree's meaning alone on the stack. */
  function Settled(t: Tree, leaves: Leaves): Machine {
    var m := Meaning(t, leaves); if m.None? then Unreadable else Halted([m.value])
  }

  lemma TreeSettles(t: Tree, leaves: Leaves)
    ensures Eval(Postfix(t), [], leaves) == Settled(t, leaves)
  {
    EvalPostfix(t, [], [], leaves);
    assert Postfix(t) + [] == Postfix(t);
    if Meaning(t, leaves).Some? {
      assert [] + [Meaning(t, leaves).value] == [Meaning(t, leaves).value];
    }
  }

  /** The answer popped off the stack. */
  function Popped(m: Machine): Outcome {
    match m
    case Unreadable => LeafFailed
    case Stuck => Underflow
    case Halted(stack) => if stack == [] then Underflow else Value(stack[|stack| - 1])
  }

  /** `run`: any program does what the machine does, and the program of a tree settles. */
  method Run(program: seq<Instruction>, leaves: Leaves) returns (r: Outcome)
    ensures r == Popped(Eval(program, [], leaves))
    ensures forall t :: program == Postfix(t) ==> Eval(program, [], leaves) == Settled(t, leaves)
  {
    forall t | program == Postfix(t) ensures Eval(program, [], leaves) == Settled(t, leaves) {
      TreeSettles(t, leaves);
    }
    var stack: seq<bool> := [];
    for i := 0 to |program|
      invariant Eval(program[i..], stack, leaves) == Eval(program, [], leaves)
    {
      assert program[i..][0] == program[i] && program[i..][1..] == program[i + 1..];
      match program[i]
      case Leaf(token) =>
        var got := leaves(token);
        if got.None? {
          return LeafFailed;
        }
        stack := stack + [got.value];
      case And =>
        if |stack| < 2 {
          return Underflow;
        }
        var n := |stack|;
        stack := stack[..n - 2] + [stack[n - 2] && stack[n - 1]];
      case Or =>
        if |stack| < 2 {
          return Underflow;
        }
        var n := |stack|;
        stack := stack[..n - 2] + [stack[n - 2] || stack[n - 1]];
    }
    r := if |stack| == 0 then Underflow else Value(stack[|stack| - 1]);
  }

  /** Every condition of an accepted program runs without lacking operands and ends with one value. */
  lemma AcceptedSettles(program: seq<Token>, c: Checks, i: nat, leaves: Leaves) returns (t: Tree)
    requires Sane(c) && CompileSpec(program, c).Some? && i < |CompileSpec(program, c).value.spansets|
    ensures var code := CompileSpec(program, c).value.spansets[i];
            code == Postfix(t) && Eval(code, [], leaves) == Settled(t, leaves) && Eval(code, [], leaves) != Stuck
  {
    var q := AcceptedIsQuery(program, c);
    t := q.trees[i];
    TreeSettles(t, leaves);
  }

  const POWERS: seq<int> := [1, 2, 4, 8, 16, 32, 64, 128]

  lemma SetBit(mask: byte, i: nat, k: nat)
    requires i < SPANSETS_MAX && k <= i && mask < POWERS[i]
    ensures mask + POWERS[i] < POWERS[i + 1]
    ensures S.Bit(mask + POWERS[i], k) <==> k == i || S.Bit(mask, k)
  {
    assert POWERS[0] == 1 && POWERS[1] == 2 && POWERS[2] == 4 && POWERS[3] == 8 && POWERS[4] == 16;
    if i == 0 {
      assert mask == 0;
    } else if i == 1 {
      assert mask == 0 || mask == 1;
    } else if i == 2 {
      assert mask == 0 || mask == 1 || mask == 2 || mask == 3;
    }
  }

  lemma SetBits(mask: byte, i: nat)
    requires i < SPANSETS_MAX && mask < POWERS[i]
    ensures mask + POWERS[i] < POWERS[i + 1] && mask < POWERS[i + 1] && !S.Bit(mask, i)
    ensures forall k :: 0 <= k <= i ==> (S.Bit(mask + POWERS[i], k) <==> k == i || S.Bit(mask, k))
  {
    forall k | 0 <= k <= i
      ensures mask + POWERS[i] < POWERS[i + 1] && (S.Bit(mask + POWERS[i], k) <==> k == i || S.Bit(mask, k))
    {
      SetBit(mask, i, k);
    }
    assert POWERS[0] == 1 && POWERS[1] == 2 && POWERS[2] == 4 && POWERS[3] == 8 && POWERS[4] == 16;
  }

  /** The spanset mask of one span: bit `i` says whether condition `i` holds; None when some leaf is unreadable. */
  method Mask(e: Expression, leaves: Leaves, ghost q: Query) returns (r: Option<byte>)
    requires Grammatical(q) && |q.trees| == |e.spansets| <= SPANSETS_MAX
    requires forall i :: 0 <= i < |q.trees| ==> e.spansets[i] == Postfix(q.trees[i])
    ensures r.Some? <==> forall i :: 0 <= i < |q.trees| ==> Meaning(q.trees[i], leaves).Some?
    ensures r.Some? ==>
              forall i :: 0 <= i < |q.trees| ==> (S.Bit(r.value, i) <==> Meaning(q.trees[i], leaves) == Some(true))
  {
    hide S.Bit, Meaning, Eval, Postfix, Leafy;
    var mask: byte := 0;
    for i := 0 to |e.spansets|
      invariant mask < POWERS[i]
      invariant forall k :: 0 <= k < i ==> Meaning(q.trees[k], leaves).Some?
      invariant forall k :: 0 <= k < i ==> (S.Bit(mask, k) <==> Meaning(q.trees[k], leaves) == Some(true))
    {
      var got := Run(e.spansets[i], leaves);
      if !got.Value? {
        return None;
      }
      SetBits(mask, i);
      if got.holds {
        mask := mask + POWERS[i];
      }
    }
    r := Some(mask);
  }

  // ---- Whole queries ---------------------------------------------------------

  /** One row per condition, each satisfying its condition and related to the row before. */
  ghost predicate Witness(q: Query, spans: seq<S.Link>, leaves: seq<Leaves>, rows: seq<nat>)
    requires Grammatical(q) && |leaves| == |spans|
  {
    && |rows| == |q.trees|
    && (forall k :: 0 <= k < |rows| ==> rows[k] < |spans| && Meaning(q.trees[k], leaves[rows[k]]) == Some(true))
    && (forall k :: 0 <= k < |rows| - 1 ==> S.Related(q.relations[k], spans, rows[k], rows[k + 1]))
  }

  /** Joining spans whose masks say which conditions hold returns the rows that end a witness of the query. */
  lemma SearchMeaning(q: Query, spans: seq<S.Link>, leaves: seq<Leaves>, j: nat)
    requires Grammatical(q) && |q.trees| <= SPANSETS_MAX && |leaves| == |spans| && j < |spans|
    requires forall i, k {:trigger Meaning(q.trees[k], leaves[i])} ::
               0 <= i < |spans| && 0 <= k < |q.trees| ==>
                 (S.Bit(spans[i].mask, k) <==> Meaning(q.trees[k], leaves[i]) == Some(true))
    ensures S.Kept(q.relations, spans, |q.relations|, j) <==>
            exists rows: seq<nat> :: Witness(q, spans, leaves, rows) && rows[|q.relations|] == j
  {
    var n := |q.relations|;
    S.KeptIffChain(q.relations, spans, n, j);
    if S.Kept(q.relations, spans, n, j) {
      var rows: seq<nat> :| |rows| == n + 1 && rows[n] == j && S.Chain(q.relations, spans, rows);
      assert Witness(q, spans, leaves, rows);
    }
    if rows: seq<nat> :| Witness(q, spans, leaves, rows) && rows[n] == j {
      assert S.Chain(q.relations, spans, rows);
    }
  }

  /** One stored row of a trace: its IDs, and what its leaves answer. */
  datatype Stored = Stored(id: S.SpanId, parent: Option<S.SpanId>, leaves: Leaves)

  function LeavesOf(rows: seq<Stored>): seq<Leaves> {
    seq(|rows|, i requires 0 <= i < |rows| => rows[i].leaves)
  }

  /** The rows' own links, under some mask. */
  predicate LinksOf(links: seq<S.Link>, rows: seq<Stored>) {
    |links| == |rows| && forall i :: 0 <= i < |rows| ==> links[i].id == rows[i].id && links[i].parent == rows[i].parent
  }

  ghost predicate Readable(q: Query, rows: seq<Stored>) {
    forall i, k {:trigger Meaning(q.trees[k], rows[i].leaves)} ::
      0 <= i < |rows| && 0 <= k < |q.trees| ==> Meaning(q.trees[k], rows[i].leaves).Some?
  }

  /** The mask of every row, or none when some leaf is unreadable. */
  method Masks(e: Expression, rows: seq<Stored>, ghost q: Query) returns (r: Option<seq<S.Link>>)
    requires Grammatical(q) && |q.trees| == |e.spansets| <= SPANSETS_MAX
    requires forall i :: 0 <= i < |q.trees| ==> e.spansets[i] == Postfix(q.trees[i])
    ensures r.Some? <==> Readable(q, rows)
    ensures r.Some? ==>
              && LinksOf(r.value, rows)
              && forall i, k {:trigger Meaning(q.trees[k], rows[i].leaves)} :: 0 <= i < |rows| && 0 <= k < |q.trees| ==>
                   (S.Bit(r.value[i].mask, k) <==> Meaning(q.trees[k], rows[i].leaves) == Some(true))
  {
    hide Meaning, Postfix, S.Bit;
    var links: seq<S.Link> := [];
    for i := 0 to |rows|
      invariant |links| == i
      invariant forall m :: 0 <= m < i ==> links[m].id == rows[m].id && links[m].parent == rows[m].parent
      invariant forall m, k {:trigger Meaning(q.trees[k], rows[m].leaves)} :: 0 <= m < i && 0 <= k < |q.trees| ==>
                  && Meaning(q.trees[k], rows[m].leaves).Some?
                  && (S.Bit(links[m].mask, k) <==> Meaning(q.trees[k], rows[m].leaves) == Some(true))
    {
      var mask := Mask(e, rows[i].leaves, q);
      if mask.None? {
        return None;
      }
      links := links + [S.Link(rows[i].id, rows[i].parent, mask.value)];
    }
    r := Some(links);
  }

  datatype SearchError = Rejected | LeafUnreadable

  /** The program is a query the compiler takes. */
  ghost predicate IsProgramOf(program: seq<Token>, c: Checks, q: Query) {
    Grammatical(q) && Render(q) == program && WithinLimits(program, c)
  }

  /**
   A whole search of one trace: the program is compiled, every row is masked with its conditions and the
   masks are joined. It is rejected exactly when it is no query within the limits, fails exactly when a
   leaf is unreadable, and else returns exactly the rows that end a witness of its one query.
   */
  method Search(program: seq<Token>, regexOk: RegexOk, rows: seq<Stored>)
    returns (r: Result<seq<bool>, SearchError>, links: seq<S.Link>, ghost q: Query)
    ensures r == Err(Rejected) <==> forall p :: !IsProgramOf(program, Frontend(regexOk), p)
    ensures r != Err(Rejected) ==>
              && IsProgramOf(program, Frontend(regexOk), q)
              && (r == Err(LeafUnreadable) <==> !Readable(q, rows))
    ensures r.Ok? ==>
              && LinksOf(links, rows) && |r.value| == |rows|
              && forall j: nat :: j < |rows| ==>
                   (r.value[j] <==>
                    exists w: seq<nat> :: Witness(q, links, LeavesOf(rows), w) && w[|q.relations|] == j)
  {
    hide CompileSpec, WithinLimits, Render, Postfix, Meaning, S.Bit, S.Kept, S.Related, Frontend, Readable, Sane,
         AllLeafy;
    var c := Frontend(regexOk);
    FrontendSane(regexOk);
    links := [];
    var compiled := Compile(program, regexOk);
    if compiled.None? {
      forall p | Grammatical(p) && Render(p) == program ensures !WithinLimits(program, c) {
        if WithinLimits(program, c) { QueryAccepted(p, c); }
      }
      q := Query([], [], []);
      return Err(Rejected), links, q;
    }
    q := AcceptedIsQuery(program, c);
    assert IsProgramOf(program, c, q);
    var masked := Masks(compiled.value, rows, q);
    if masked.None? {
      return Err(LeafUnreadable), links, q;
    }
    links := masked.value;
    var kept := S.Structural(compiled.value.relations, links);
    forall j: nat | j < |rows|
      ensures kept[j] <==> exists w: seq<nat> :: Witness(q, links, LeavesOf(rows), w) && w[|q.relations|] == j
    {
      SearchMeaning(q, links, LeavesOf(rows), j);
    }
    r := Ok(kept);
  }
}
