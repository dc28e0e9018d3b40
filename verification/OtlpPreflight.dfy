/** Raw limits checked before anything is built (`otlp_traces.rs`, `preflight`). */
module OtlpPreflight {
  import opened Prelude
  import opened OtlpSchema
  import opened OtlpMerge
  import opened OtlpNodes
  import opened OtlpUsage
  import P = Protobuf

  /** What is left of the record limits, over a whole request. */
  class Budget {
    var options: Options
    var nodes: nat
    var spans: nat
    var groups: nat
    var events: nat
    var links: nat

    constructor (options: Options)
      ensures this.options == options && nodes == spans == groups == events == links == 0
    {
      this.options := options;
      nodes, spans, groups, events, links := 0, 0, 0, 0, 0;
    }

    /** What has been used, with the pairs of the current message and the sizes of the current attribute set. */
    function Used(attr: (nat, nat), pairs: nat): Usage
      reads this
    {
      Usage(nodes, spans, groups, events, links, pairs, attr.0, attr.1)
    }

    /** Counts nodes against the limit. */
    method AddNodes(n: nat) returns (ok: bool)
      modifies this`nodes
      ensures nodes == SatAdd(old(nodes), n) && ok == (nodes <= options.maxTotal)
    {
      nodes := SatAdd(nodes, n);
      ok := nodes <= options.maxTotal;
    }

    /** Counts a message under the limit of its kind, if it has one. */
    method AddRecord(child: Schema) returns (ok: bool)
      modifies this`spans, this`groups, this`events, this`links
      ensures spans == old(spans) + Arrival(child).records && events == old(events) + Arrival(child).events
      ensures links == old(links) + Arrival(child).links && groups == old(groups) + Arrival(child).groups
      ensures ok <==>
                && (child in RECORDS ==> spans <= options.maxRecords)
                && (child in EVENTS ==> events <= options.maxRecords)
                      && (child == Link ==> links <= options.maxRecords)
                      && (child in GROUPS ==> groups <= options.maxRecords * 2)
                      && (child in METRIC_GROUPS ==> groups <= options.maxRecords * 3)
    {
      ok := true;
      if child in GROUPS + METRIC_GROUPS {
        groups := groups + 1;
        ok := groups <= if child in METRIC_GROUPS then options.maxRecords * 3 else options.maxRecords * 2;
      } else if child in RECORDS {
        spans := spans + 1;
        ok := spans <= options.maxRecords;
      } else if child in EVENTS {
        events := events + 1;
        ok := events <= options.maxRecords;
      } else if child == Link {
        links := links + 1;
        ok := links <= options.maxRecords;
      }
    }
  }

  /** Limits below the largest machine word, where saturated counters are over them. */
  predicate Bounded(o: Options) {
    o.maxTotal < USIZE_MAX && o.maxBytes < USIZE_MAX
  }

  /** Accepted exactly when the usage is known and all of it, on top of what was used, is within the limits. */
  predicate Exactly(ok: bool, start: Usage, m: Option<Usage>, o: Options, metrics: bool) {
    ok <==> m.Some? && Within(Plus(start, m.value), o, metrics)
  }

  function Then(u: Usage, m: Option<Usage>): Option<Usage> {
    match m
    case None => None
    case Some(v) => Some(Plus(u, v))
  }

  function Opening(schema: Schema, start: Usage): Usage {
    Plus(start, NOTHING.(nodes := 1, sets := One(Attribute(schema))))
  }

  /** A message is within the limits exactly when the running totals end within them. */
  lemma Outcome(schema: Schema, s: Octets, depth: nat, o: Options, utf8: Octets -> bool, start: Usage, metrics: bool)
    requires depth <= (if o.maxDepth < 64 then o.maxDepth else 64) && start.pairs == 0
    ensures var all := Then(Opening(schema, start), MeasureFrom(schema, s, {}, depth, o, utf8));
            var m := Measure(schema, s, depth, o, utf8);
            && Exactly(all.Some? && Within(all.value, o, metrics), start, m, o, metrics)
            && (all.Some? && Within(all.value, o, metrics) ==> Plus(start, m.value) == all.value.(pairs := 0))
  {
    hide MeasureFrom, Attribute;
  }

  lemma NextStep(schema: Schema, s: Octets, seen: set<nat>, depth: nat, o: Options, utf8: Octets -> bool, now: Usage)
    requires s != []
    ensures P.Next(s).None? ==> Then(now, MeasureFrom(schema, s, seen, depth, o, utf8)) == None
    ensures P.Next(s).Some? ==>
              var (r, rest) := P.Next(s).value;
              Then(now, MeasureFrom(schema, s, seen, depth, o, utf8)) ==
              match MeasureRecord(schema, r, seen, depth, o, utf8)
              case None => None
              case Some(a) => Then(Plus(now, a), MeasureFrom(schema, rest, Seen(schema, r, seen), depth, o, utf8))
  {
    hide MeasureRecord, P.Next, Seen;
  }

  lemma LastStep(schema: Schema, seen: set<nat>, depth: nat, o: Options, utf8: Octets -> bool, now: Usage)
    ensures Then(now, MeasureFrom(schema, [], seen, depth, o, utf8)) == Some(now)
  {
  }

  /** Totals past a limit stay past it. */
  lemma Past(now: Usage, rest: Option<Usage>, o: Options, metrics: bool)
    requires !Within(now, o, metrics)
    ensures Then(now, rest).Some? ==> !Within(Then(now, rest).value, o, metrics)
  {
  }

  /**
   * Checks a message's bytes against the limits, nested messages included.
   * `attr` is the byte size and node count of the attribute set it is in.
   */
  method Preflight(input: Octets, schema: Schema, budget: Budget, depth: nat, attr: (nat, nat), utf8: Octets -> bool,
                   ghost metrics: bool)
    returns (r: Result<(nat, nat), Error>)
    requires Bounded(budget.options) && Belongs(schema, metrics)
             && Within(budget.Used(attr, 0), budget.options, metrics)
    modifies budget
    ensures budget.options == old(budget.options)
    ensures Exactly(r.Ok?, old(budget.Used(attr, 0)), Measure(schema, input, depth, budget.options, utf8),
                    budget.options, metrics)
    ensures r.Ok? ==> budget.Used(r.value, 0) ==
                      Plus(old(budget.Used(attr, 0)), Measure(schema, input, depth, budget.options, utf8).value)
    decreases |input|, 1
  {
    hide MeasureFrom, Measure, Attribute, Belongs, Exactly, Within, Plus, Then, Opening, Bounded;
    ghost var start, o := budget.Used(attr, 0), budget.options;
    if depth > (if budget.options.maxDepth < 64 then budget.options.maxDepth else 64) {
      TooDeep(schema, input, depth, o, utf8, start, metrics);
      return Err(AttributesTooLarge);
    }
    Outcome(schema, input, depth, o, utf8, start, metrics);
    ghost var m := MeasureFrom(schema, input, {}, depth, o, utf8);
    var begun := Open(schema, budget, attr, metrics);
    if begun.Err? {
      Past(Opening(schema, start), m, o, metrics);
      return Err(begun.error);
    }
    var ended := PreflightRecords(input, schema, budget, depth, begun.value, utf8, metrics);
    Judged(ended.Ok?, Opening(schema, start), m, o, metrics, None);
    if ended.Err? {
      return Err(ended.error);
    }
    r := Ok(ended.value.0);
  }

  /** The records of a message, one by one. */
  method PreflightRecords(input: Octets, schema: Schema, budget: Budget, depth: nat, attr: (nat, nat),
                          utf8: Octets -> bool, ghost metrics: bool)
    returns (r: Result<((nat, nat), nat), Error>)
    requires Bounded(budget.options) && Belongs(schema, metrics)
             && Within(budget.Used(attr, 0), budget.options, metrics)
    modifies budget
    ensures budget.options == old(budget.options)
    ensures Exactly(r.Ok?, old(budget.Used(attr, 0)), MeasureFrom(schema, input, {}, depth, budget.options, utf8),
                    budget.options, metrics)
    ensures r.Ok? ==> Some(budget.Used(r.value.0, r.value.1)) ==
                      Then(old(budget.Used(attr, 0)), MeasureFrom(schema, input, {}, depth, budget.options, utf8))
    decreases |input|, 0
  {
    hide MeasureFrom, P.Next, MeasureRecord, Seen, Belongs, Exactly, Within, Plus, Then, Bounded;
    ghost var start, o := budget.Used(attr, 0), budget.options;
    ghost var m := MeasureFrom(schema, input, {}, depth, o, utf8);
    var sizes, pairs, seen: set<nat> := attr, 0, {};
    var reader := new P.Reader(input);
    while reader.pos < |reader.bytes|
      invariant fresh(reader) && reader.Valid() && reader.bytes == input
      invariant budget.options == o && Within(budget.Used(sizes, pairs), o, metrics)
      invariant Then(start, m) ==
                  Then(budget.Used(sizes, pairs), MeasureFrom(schema, reader.Rest(), seen, depth, o, utf8))
      decreases |reader.Rest()|
    {
      ghost var rest, now := reader.Rest(), budget.Used(sizes, pairs);
      NextStep(schema, rest, seen, depth, o, utf8, now);
      var record := reader.TakeNext();
      if record.None? {
        Refuted(start, m, o, metrics);
        return Err(InvalidProtobuf);
      }
      P.NextShorter(rest);
      NextWire(rest);
      var step := PreflightRecord(record.value, schema, budget, depth, sizes, pairs, seen, utf8, metrics);
      Judged(step.Ok?, now, MeasureRecord(schema, record.value, seen, depth, o, utf8), o, metrics,
             MeasureFrom(schema, P.Next(rest).value.1, Seen(schema, record.value, seen), depth, o, utf8));
      if step.Err? {
        Refuted(start, m, o, metrics);
        return Err(step.error);
      }
      sizes, pairs := step.value.0, step.value.1;
      seen := Seen(schema, record.value, seen);
    }
    LastStep(schema, seen, depth, o, utf8, budget.Used(sizes, pairs));
    Refuted(start, m, o, metrics);
    r := Ok((sizes, pairs));
  }

  /** Acceptance in terms of the running total. */
  lemma Refuted(start: Usage, m: Option<Usage>, o: Options, metrics: bool)
    ensures Then(start, m).Some? && Within(Then(start, m).value, o, metrics) ==> Exactly(true, start, m, o, metrics)
    ensures !(Then(start, m).Some? && Within(Then(start, m).value, o, metrics)) ==> Exactly(false, start, m, o, metrics)
  {
  }

  lemma TooDeep(schema: Schema, s: Octets, depth: nat, o: Options, utf8: Octets -> bool, start: Usage, metrics: bool)
    requires depth > (if o.maxDepth < 64 then o.maxDepth else 64)
    ensures Exactly(false, start, Measure(schema, s, depth, o, utf8), o, metrics)
  {
  }

  /** A record refused is a request refused. */
  lemma Judged(ok: bool, now: Usage, m: Option<Usage>, o: Options, metrics: bool, rest: Option<Usage>)
    requires Exactly(ok, now, m, o, metrics)
    ensures ok ==> m.Some? && Within(Plus(now, m.value), o, metrics) && Then(now, m) == Some(Plus(now, m.value))
    ensures !ok ==> !(Then(now, m).Some? && Within(Then(now, m).value, o, metrics))
    ensures !ok && m.Some? && Then(Plus(now, m.value), rest).Some? ==>
              !Within(Then(Plus(now, m.value), rest).value, o, metrics)
  {
    if !ok && m.Some? {
      Past(Plus(now, m.value), rest, o, metrics);
    }
  }

  /** A message's own node, and its place in its attribute set. */
  method Open(schema: Schema, budget: Budget, attr: (nat, nat), ghost metrics: bool)
    returns (r: Result<(nat, nat), Error>)
    requires Bounded(budget.options) && Within(budget.Used(attr, 0), budget.options, metrics)
    modifies budget`nodes
    ensures r.Ok? <==> Within(Opening(schema, old(budget.Used(attr, 0))), budget.options, metrics)
    ensures r.Ok? ==> budget.Used(r.value, 0) == Opening(schema, old(budget.Used(attr, 0)))
  {
    hide Attribute;
    var ok := budget.AddNodes(1);
    if !ok {
      return Err(TooManyNodes);
    }
    if !Attribute(schema) {
      return Ok(attr);
    }
    r := if attr.1 + 1 > budget.options.maxNodes then Err(AttributesTooLarge) else Ok((attr.0, attr.1 + 1));
  }

  method PreflightRecord(record: P.Record, schema: Schema, budget: Budget, depth: nat, attr: (nat, nat), pairs: nat,
                         seen: set<nat>, utf8: Octets -> bool, ghost metrics: bool)
    returns (r: Result<((nat, nat), nat), Error>)
    requires Bounded(budget.options) && Belongs(schema, metrics)
             && Within(budget.Used(attr, pairs), budget.options, metrics)
    requires record.value.Data? <==> record.wire == 2
    modifies budget
    ensures budget.options == old(budget.options)
    ensures Exactly(r.Ok?, old(budget.Used(attr, pairs)),
                    MeasureRecord(schema, record, seen, depth, budget.options, utf8), budget.options, metrics)
    ensures r.Ok? ==> budget.Used(r.value.0, r.value.1) ==
                      Plus(old(budget.Used(attr, pairs)),
                           MeasureRecord(schema, record, seen, depth, budget.options, utf8).value)
    decreases if record.value.Data? then |record.value.bytes| else 0, 4
  {
    hide Field, MeasureField, MeasureRecord, WireFits, Belongs, Within, Bounded, Plus, Then, Exactly;
    ghost var start, o := budget.Used(attr, pairs), budget.options;
    RecordIs(schema, record, seen, depth, o, utf8);
    Unknown(start, o, metrics);
    if schema == Resource && record.number == 3 {
      return Err(InvalidProtobuf);
    }
    var found := Field(schema, record.number);
    if found.None? {
      var ok := MoreNodes(budget, 1, attr, pairs, metrics);
      return if ok then Ok((attr, pairs)) else Err(TooManyNodes);
    }
    var (kind, many) := found.value;
    if !WireFits(kind, record.wire) {
      return Err(InvalidProtobuf);
    }
    var list := if many && record.number !in seen then 1 else 0;
    Regroup(start, NodesOnly(list), MeasureField(schema, record, kind, depth, o, utf8), o, metrics);
    var ok := MoreNodes(budget, list, attr, pairs, metrics);
    if !ok {
      return Err(TooManyNodes);
    }
    r := PreflightField(record, kind, schema, budget, depth, attr, pairs, utf8, metrics);
  }

  lemma RecordIs(schema: Schema, r: P.Record, seen: set<nat>, depth: nat, o: Options, utf8: Octets -> bool)
    ensures var m, found := MeasureRecord(schema, r, seen, depth, o, utf8), Field(schema, r.number);
            if schema == Resource && r.number == 3 then m == None
            else if found.None? then m == Some(NodesOnly(1))
            else if !WireFits(found.value.0, r.wire) then m == None
            else m == Then(NodesOnly(if found.value.1 && r.number !in seen then 1 else 0),
                           MeasureField(schema, r, found.value.0, depth, o, utf8))
  {
    hide Field, MeasureField, WireFits;
  }

  /** Nodes more, within the limit or not. */
  method MoreNodes(budget: Budget, n: nat, attr: (nat, nat), pairs: nat, ghost metrics: bool) returns (ok: bool)
    requires Bounded(budget.options) && Within(budget.Used(attr, pairs), budget.options, metrics)
    modifies budget`nodes
    ensures Exactly(ok, old(budget.Used(attr, pairs)), Some(NodesOnly(n)), budget.options, metrics)
    ensures ok ==>
              budget.Used(attr, pairs) == Plus(old(budget.Used(attr, pairs)), NodesOnly(n))
              && Within(budget.Used(attr, pairs), budget.options, metrics)
  {
    ok := budget.AddNodes(n);
  }

  lemma Unknown(start: Usage, o: Options, metrics: bool)
    ensures Exactly(false, start, None, o, metrics)
  {
  }

  /** Two parts of a record, one after the other. */
  lemma Regroup(start: Usage, a: Usage, m: Option<Usage>, o: Options, metrics: bool)
    ensures Exactly(false, start, Some(a), o, metrics) ==> Exactly(false, start, Then(a, m), o, metrics)
    ensures Exactly(false, Plus(start, a), m, o, metrics) ==> Exactly(false, start, Then(a, m), o, metrics)
    ensures Exactly(true, Plus(start, a), m, o, metrics) ==> Exactly(true, start, Then(a, m), o, metrics) && m.Some?
    ensures m.Some? ==> Plus(Plus(start, a), m.value) == Plus(start, Then(a, m).value)
    ensures m.Some? <==> Then(a, m).Some?
  {
  }

  method PreflightField(record: P.Record, kind: Kind, schema: Schema, budget: Budget, depth: nat, attr: (nat, nat),
                        pairs: nat, utf8: Octets -> bool, ghost metrics: bool)
    returns (r: Result<((nat, nat), nat), Error>)
    requires Bounded(budget.options) && Belongs(schema, metrics)
             && Within(budget.Used(attr, pairs), budget.options, metrics)
    requires (record.value.Data? <==> record.wire == 2) && Field(schema, record.number).Some?
             && Field(schema, record.number).value.0 == kind
    requires WireFits(kind, record.wire)
    modifies budget
    ensures budget.options == old(budget.options)
    ensures Exactly(r.Ok?, old(budget.Used(attr, pairs)),
                    MeasureField(schema, record, kind, depth, budget.options, utf8), budget.options, metrics)
    ensures r.Ok? ==> budget.Used(r.value.0, r.value.1) ==
                      Plus(old(budget.Used(attr, pairs)),
                           MeasureField(schema, record, kind, depth, budget.options, utf8).value)
    decreases if record.value.Data? then |record.value.bytes| else 0, 3
  {
    hide Field, MeasureMessage, Belongs, PackedSize, ScalarFits, Attribute, ScalarBytes;
    if Packed(kind) && record.wire == 2 {
      r := PreflightPacked(record.value.bytes, kind, budget, attr, pairs, metrics);
      return;
    }
    if kind.Message? {
      r := PreflightMessage(record, kind.child, schema, budget, depth, attr, pairs, utf8, metrics);
    } else {
      var ok := budget.AddNodes(1);
      if !ok {
        return Err(TooManyNodes);
      }
      var sizes := PreflightScalar(record, kind, schema, budget.options, attr, utf8);
      if sizes.Err? {
        return Err(sizes.error);
      }
      r := Ok((sizes.value, pairs));
    }
    if r.Ok? && r.value.0.0 > budget.options.maxBytes {
      return Err(AttributesTooLarge);
    }
  }

  /** A packed field: a node for its occurrence and one for every value. */
  method PreflightPacked(bytes: Octets, kind: Kind, budget: Budget, attr: (nat, nat), pairs: nat, ghost metrics: bool)
    returns (r: Result<((nat, nat), nat), Error>)
    requires Bounded(budget.options) && Within(budget.Used(attr, pairs), budget.options, metrics)
    modifies budget`nodes
    ensures r.Ok? <==> PackedSize(kind, bytes).Some?
                       && Within(Plus(old(budget.Used(attr, pairs)), NodesOnly(1 + PackedSize(kind, bytes).value)),
                                 budget.options, metrics)
    ensures r.Ok? ==> r.value == (attr, pairs)
                      && budget.Used(attr, pairs) ==
                           Plus(old(budget.Used(attr, pairs)), NodesOnly(1 + PackedSize(kind, bytes).value))
  {
    hide P.PackedCount;
    var values: Option<nat>;
    if kind == PackedUint64 {
      values := P.CountVarints(bytes);
    } else {
      values := if |bytes| % 8 == 0 then Some(|bytes| / 8) else None;
    }
    if values.None? {
      return Err(InvalidProtobuf);
    }
    var one := budget.AddNodes(1);
    if !one {
      return Err(TooManyNodes);
    }
    var ok := budget.AddNodes(values.value);
    r := if ok then Ok((attr, pairs)) else Err(TooManyNodes);
  }

  /** A nested message: its own attribute set, or its owner's. */
  method PreflightMessage(record: P.Record, child: Schema, schema: Schema, budget: Budget, depth: nat,
                          attr: (nat, nat), pairs: nat, utf8: Octets -> bool, ghost metrics: bool)
    returns (r: Result<((nat, nat), nat), Error>)
    requires Bounded(budget.options) && Belongs(schema, metrics)
             && Within(budget.Used(attr, pairs), budget.options, metrics)
    requires record.value.Data? && Field(schema, record.number).Some?
             && Field(schema, record.number).value.0 == Message(child)
    modifies budget
    ensures budget.options == old(budget.options)
    ensures Exactly(r.Ok?, old(budget.Used(attr, pairs)),
                    MeasureMessage(schema, record.number, child, record.value.bytes, depth, budget.options, utf8),
                    budget.options, metrics)
    ensures r.Ok? ==> budget.Used(r.value.0, r.value.1) ==
                      Plus(old(budget.Used(attr, pairs)),
                           MeasureMessage(schema, record.number, child, record.value.bytes, depth, budget.options,
                                          utf8).value)
    decreases |record.value.bytes|, 2
  {
    hide Field, Measure, Belongs, Arrival, MeasureMessage, Exactly, Within, Plus, Bounded, Nested, Attribute;
    ChildBelongs(schema, record.number, metrics);
    ghost var start, o := budget.Used(attr, pairs), budget.options;
    var admitted := Admit(child, budget, attr, pairs, metrics);
    if admitted.Err? {
      Refused(schema, record.number, child, record.value.bytes, depth, o, utf8, start, metrics);
      return Err(admitted.error);
    }
    var more := admitted.value;
    if !Attribute(schema) && child != Pair {
      var saved := budget.options;
      budget.options := Nested(schema, record.number, budget.options);
      ghost var before := budget.Used((0, 0), 0);
      OwnStart(schema, record.number, o, budget.Used(attr, more), metrics);
      var inner := Preflight(record.value.bytes, child, budget, 0, (0, 0), utf8, metrics);
      OwnSet(schema, record.number, child, record.value.bytes, depth, o, utf8, start, before, metrics, inner.Ok?);
      budget.options := saved;
      return if inner.Err? then Err(inner.error) else Ok((attr, more));
    }
    var deeper := if schema == Pair || schema == Array then depth + 1 else depth;
    ghost var before := budget.Used(attr, 0);
    SharedStart(o, budget.Used(attr, more), metrics);
    var inner := Preflight(record.value.bytes, child, budget, deeper, attr, utf8, metrics);
    SharedSet(schema, record.number, child, record.value.bytes, depth, o, utf8, start, before, metrics, inner.Ok?);
    r := if inner.Err? then Err(inner.error) else Ok((inner.value, more));
  }

  /** Counts a message in its owner. */
  method Admit(child: Schema, budget: Budget, attr: (nat, nat), pairs: nat, ghost metrics: bool)
    returns (r: Result<nat, Error>)
    requires Within(budget.Used(attr, pairs), budget.options, metrics)
    requires (child in METRIC_GROUPS ==> metrics) && (child in GROUPS ==> !metrics)
    modifies budget`spans, budget`groups, budget`events, budget`links
    ensures r.Ok? <==> Within(Plus(old(budget.Used(attr, pairs)), Arrival(child)), budget.options, metrics)
    ensures r.Ok? ==> budget.Used(attr, r.value) == Plus(old(budget.Used(attr, pairs)), Arrival(child))
  {
    hide Arrival, Within;
    Arrives(child, budget.Used(attr, pairs), budget.options, metrics);
    var counted := budget.AddRecord(child);
    if !counted {
      return Err(TooManyRecords);
    }
    var more := if child == Pair then pairs + 1 else pairs;
    if child == Pair && more > budget.options.maxPairs {
      return Err(AttributesTooLarge);
    }
    r := Ok(more);
  }

  /** Counting a message's arrival is within the limits exactly when its own limit is kept. */
  lemma Arrives(child: Schema, start: Usage, o: Options, metrics: bool)
    requires Within(start, o, metrics) && (child in METRIC_GROUPS ==> metrics) && (child in GROUPS ==> !metrics)
    ensures var u := Plus(start, Arrival(child));
            Within(u, o, metrics) <==>
            && (child in RECORDS ==> u.records <= o.maxRecords) && (child in EVENTS ==> u.events <= o.maxRecords)
            && (child == Link ==> u.links <= o.maxRecords) && (child in GROUPS ==> u.groups <= o.maxRecords * 2)
            && (child in METRIC_GROUPS ==> u.groups <= o.maxRecords * 3) && (child == Pair ==> u.pairs <= o.maxPairs)
    ensures ArrivesFree(child)
  {
  }

  predicate ArrivesFree(child: Schema) {
    var a := Arrival(child); a.nodes == a.bytes == a.sets == 0 && a.pairs == One(child == Pair)
  }

  lemma Refused(schema: Schema, n: nat, child: Schema, s: Octets, depth: nat, o: Options, utf8: Octets -> bool,
                start: Usage, metrics: bool)
    requires !Within(Plus(start, Arrival(child)), o, metrics)
    ensures Exactly(false, start, MeasureMessage(schema, n, child, s, depth, o, utf8), o, metrics)
  {
    hide Measure, Arrival;
  }

  lemma OwnStart(schema: Schema, n: nat, o: Options, u: Usage, metrics: bool)
    requires Within(u, o, metrics) && Bounded(o)
    ensures Within(u.(pairs := 0, bytes := 0, sets := 0), Nested(schema, n, o), metrics)
            && Bounded(Nested(schema, n, o))
  {
  }

  lemma SharedStart(o: Options, u: Usage, metrics: bool)
    requires Within(u, o, metrics)
    ensures Within(u.(pairs := 0), o, metrics)
  {
  }

  lemma OwnSums(start: Usage, a: Usage, u: Usage, o: Options, p: Options, metrics: bool)
    requires Within(Plus(start, a), o, metrics) && u.pairs == 0 && a.bytes == a.sets == 0
    requires p == o.(maxText := p.maxText, maxBytes := p.maxBytes)
    ensures var before := Plus(start, a).(pairs := 0, bytes := 0, sets := 0);
            var all := Plus(start, Plus(a, u.(bytes := 0, sets := 0)));
            && (Within(Plus(before, u), p, metrics) <==>
                  u.bytes <= p.maxBytes && u.sets <= o.maxNodes && Within(all, o, metrics))
            && all == Plus(before, u).(pairs := start.pairs + a.pairs, bytes := start.bytes, sets := start.sets)
  {
  }

  lemma OwnSet(schema: Schema, n: nat, child: Schema, s: Octets, depth: nat, o: Options, utf8: Octets -> bool,
               start: Usage, before: Usage, metrics: bool, ok: bool)
    requires Owned(schema, child) && Within(Plus(start, Arrival(child)), o, metrics)
    requires before == Plus(start, Arrival(child)).(pairs := 0, bytes := 0, sets := 0)
    requires Exactly(ok, before, Measure(child, s, 0, Nested(schema, n, o), utf8), Nested(schema, n, o), metrics)
    ensures Exactly(ok, start, MeasureMessage(schema, n, child, s, depth, o, utf8), o, metrics)
    ensures ok ==> var u := Measure(child, s, 0, Nested(schema, n, o), utf8).value;
                   Plus(start, MeasureMessage(schema, n, child, s, depth, o, utf8).value) ==
                   Plus(before, u).(pairs := Plus(start, Arrival(child)).pairs, bytes := start.bytes,
                                    sets := start.sets)
  {
    hide Measure, Arrival, Owned, Within;
    Free(child);
    var m := Measure(child, s, 0, Nested(schema, n, o), utf8);
    if m.Some? {
      MeasureCounts(child, s, 0, Nested(schema, n, o), utf8);
      OwnSums(start, Arrival(child), m.value, o, Nested(schema, n, o), metrics);
    }
  }

  lemma Free(child: Schema)
    ensures ArrivesFree(child)
  {
  }

  lemma SharedSums(start: Usage, a: Usage, u: Usage, o: Options, metrics: bool)
    requires Within(Plus(start, a), o, metrics) && u.pairs == 0
    ensures var before := Plus(start, a).(pairs := 0);
            && (Within(Plus(before, u), o, metrics) <==> Within(Plus(start, Plus(a, u)), o, metrics))
            && Plus(start, Plus(a, u)) == Plus(before, u).(pairs := Plus(start, a).pairs)
  {
  }

  lemma SharedSet(schema: Schema, n: nat, child: Schema, s: Octets, depth: nat, o: Options, utf8: Octets -> bool,
                  start: Usage, before: Usage, metrics: bool, ok: bool)
    requires !Owned(schema, child) && Within(Plus(start, Arrival(child)), o, metrics)
    requires before == Plus(start, Arrival(child)).(pairs := 0)
    requires Exactly(ok, before, Measure(child, s, Deeper(schema, depth), o, utf8), o, metrics)
    ensures Exactly(ok, start, MeasureMessage(schema, n, child, s, depth, o, utf8), o, metrics)
    ensures ok ==> var u := Measure(child, s, Deeper(schema, depth), o, utf8).value;
                   Plus(start, MeasureMessage(schema, n, child, s, depth, o, utf8).value) ==
                   Plus(before, u).(pairs := Plus(start, Arrival(child)).pairs)
  {
    hide Measure, Arrival, Owned, Within, Deeper, Plus;
    var m := Measure(child, s, Deeper(schema, depth), o, utf8);
    if m.Some? {
      MeasureCounts(child, s, Deeper(schema, depth), o, utf8);
      SharedSums(start, Arrival(child), m.value, o, metrics);
    }
  }

  /** What is wrong with a scalar alone: its text, or its size. */
  function ScalarError(record: P.Record, kind: Kind, schema: Schema, o: Options,
                       utf8: Octets -> bool): (e: Option<Error>)
    ensures e.None? <==> ScalarFits(schema, record.number, kind, record.value, o, utf8)
  {
    var value := record.value;
    if value.Number? then None
    else if kind.String? && !utf8(value.bytes) then Some(InvalidProtobuf)
    else if MetricText(schema, kind) && |value.bytes| > o.maxText then Some(AttributesTooLarge)
    else if Attribute(schema) && ScalarBytes(kind, value) > ScalarLimit(schema, record.number, o) then
      Some(AttributesTooLarge)
    else None
  }

  /** A scalar: its text must be valid, and inside attributes its size counts. */
  method PreflightScalar(record: P.Record, kind: Kind, schema: Schema, o: Options, attr: (nat, nat),
                         utf8: Octets -> bool)
    returns (r: Result<(nat, nat), Error>)
    requires attr.0 <= USIZE_MAX
    ensures r.Ok? <==> ScalarFits(schema, record.number, kind, record.value, o, utf8)
    ensures r.Ok? ==> r.value == (SatAdd(attr.0, ScalarUsage(schema, kind, record.value).bytes), attr.1)
  {
    hide ScalarBytes, Attribute, ScalarFits;
    var wrong := ScalarError(record, kind, schema, o, utf8);
    if wrong.Some? {
      return Err(wrong.value);
    }
    r := Ok((if Attribute(schema) then SatAdd(attr.0, ScalarBytes(kind, record.value)) else attr.0, attr.1));
  }

  /**
   * Preflight of a whole request: it passes exactly when the bytes can be read and
   * every total is within its limit, and then it decodes, if at all, to no more
   * nodes than the limit.
   */
  method DecodeWithin(input: Octets, schema: Schema, options: Options, utf8: Octets -> bool)
    returns (passed: bool, r: Result<Plan, Error>)
    requires Bounded(options)
    ensures Exactly(passed, NOTHING, Measure(schema, input, 0, options, utf8), options, schema in METRIC_HOLDERS)
    ensures r.Ok? ==> passed && Nodes(r.value) <= options.maxTotal && Sound(r.value)
    ensures passed ==> r.Ok? == Merge(New(schema), input, options).Ok?
  {
    hide Count, Merge, Sound, Nodes, Measure;
    var budget := new Budget(options);
    var checked := Preflight(input, schema, budget, 0, (0, 0), utf8, schema in METRIC_HOLDERS);
    passed := checked.Ok?;
    if !passed {
      return passed, Err(checked.error);
    }
    MeasureCounts(schema, input, 0, options, utf8);
    var merged := MergeInto(New(schema), input, options);
    if merged.Err? {
      return passed, Err(merged.error);
    }
    SoundNew(schema);
    MergeSound(New(schema), input, options);
    DecodedBounded(schema, input, options);
    r := Ok(merged.value.0);
  }
}
