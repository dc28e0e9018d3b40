/** What a request's bytes use up of every limit, added up without a budget (`otlp_traces.rs`, `preflight`). */
module OtlpUsage {
  import opened Prelude
  import opened OtlpSchema
  import opened OtlpMerge
  import opened OtlpNodes
  import P = Protobuf

  const GROUPS: set<Schema> := {ResourceSpans, ScopeSpans, ResourceLogs, ScopeLogs}
  const METRIC_GROUPS: set<Schema> := {ResourceMetrics, ScopeMetrics, Metric}
  const RECORDS: set<Schema> := {Span, LogRecord, NumberPoint, HistogramPoint, ExponentialPoint, SummaryPoint}
  const EVENTS: set<Schema> := {Event, Exemplar}

  /**
   * Nodes, records, groups, events and links of a whole request; attribute pairs
   * of one message; bytes and nodes of one attribute set.
   */
  datatype Usage = Usage(nodes: nat, records: nat, groups: nat, events: nat, links: nat, pairs: nat, bytes: nat,
                         sets: nat)

  const NOTHING := Usage(0, 0, 0, 0, 0, 0, 0, 0)

  function Plus(a: Usage, b: Usage): Usage {
    Usage(a.nodes + b.nodes, a.records + b.records, a.groups + b.groups, a.events + b.events, a.links + b.links,
          a.pairs + b.pairs, a.bytes + b.bytes, a.sets + b.sets)
  }

  function One(b: bool): nat {
    if b then 1 else 0
  }

  function NodesOnly(n: nat): Usage {
    NOTHING.(nodes := n)
  }

  /** What a message counts as in its owner. */
  function Arrival(child: Schema): Usage {
    NOTHING.(records := One(child in RECORDS), groups := One(child in GROUPS + METRIC_GROUPS),
             events := One(child in EVENTS), links := One(child == Link), pairs := One(child == Pair))
  }

  /** Every total is within its limit; groups of metrics have a larger one. */
  predicate Within(u: Usage, o: Options, metrics: bool) {
    && u.nodes <= o.maxTotal && u.records <= o.maxRecords && u.events <= o.maxRecords && u.links <= o.maxRecords
    && u.groups <= (if metrics then o.maxRecords * 3 else o.maxRecords * 2)
    && u.pairs <= o.maxPairs && u.bytes <= o.maxBytes && u.sets <= o.maxNodes
  }

  // ---- Usage of bytes --------------------------------------------------------

  /** Text of a metric has a limit of its own. */
  predicate MetricText(schema: Schema, kind: Kind) {
    schema == Metric && kind == String
  }

  /** The largest scalar inside attributes; keys have their own limit. */
  function ScalarLimit(schema: Schema, n: nat, o: Options): nat {
    if schema == Pair && n == 1 then o.maxKey else o.maxText
  }

  /** A scalar that is well formed and not too large alone. */
  predicate ScalarFits(schema: Schema, n: nat, kind: Kind, value: P.Value, o: Options, utf8: Octets -> bool) {
    value.Data? ==>
      && (kind.String? ==> utf8(value.bytes))
      && (MetricText(schema, kind) ==> |value.bytes| <= o.maxText)
      && (Attribute(schema) ==> ScalarBytes(kind, value) <= ScalarLimit(schema, n, o))
  }

  function ScalarUsage(schema: Schema, kind: Kind, value: P.Value): Usage {
    NOTHING.(nodes := 1, bytes := if Attribute(schema) then ScalarBytes(kind, value) else 0)
  }

  /** Whether a message starts an attribute set of its own, or belongs to none. */
  predicate Owned(schema: Schema, child: Schema) {
    !Attribute(schema) && child != Pair
  }

  /** Attribute depth grows where values nest. */
  function Deeper(schema: Schema, depth: nat): nat {
    if schema == Pair || schema == Array then depth + 1 else depth
  }

  /** A message's usage; its pairs, and the attribute set it starts, must be within their limits by themselves. */
  function Measure(schema: Schema, s: Octets, depth: nat, o: Options, utf8: Octets -> bool): Option<Usage>
    decreases |s|, 3
  {
    if depth > (if o.maxDepth < 64 then o.maxDepth else 64) then None
    else
      var u :- MeasureFrom(schema, s, {}, depth, o, utf8);
      if u.pairs > o.maxPairs then None
      else Some(Plus(NOTHING.(nodes := 1, sets := One(Attribute(schema))), u.(pairs := 0)))
  }

  function MeasureFrom(schema: Schema, s: Octets, seen: set<nat>, depth: nat, o: Options,
                       utf8: Octets -> bool): Option<Usage>
    decreases |s|, 2
  {
    if s == [] then Some(NOTHING)
    else if P.Next(s).None? then None
    else
      P.NextShorter(s);
      var (r, rest) := P.Next(s).value;
      var a :- MeasureRecord(schema, r, seen, depth, o, utf8);
      var b :- MeasureFrom(schema, rest, Seen(schema, r, seen), depth, o, utf8);
      Some(Plus(a, b))
  }

  function MeasureRecord(schema: Schema, r: P.Record, seen: set<nat>, depth: nat, o: Options,
                         utf8: Octets -> bool): Option<Usage>
    decreases if r.value.Data? then |r.value.bytes| + 1 else 0, 1
  {
    if schema == Resource && r.number == 3 then None
    else
      match Field(schema, r.number)
      case None => Some(NodesOnly(1))
      case Some((kind, many)) =>
        if !WireFits(kind, r.wire) then None
        else
          var u :- MeasureField(schema, r, kind, depth, o, utf8);
          Some(Plus(NodesOnly(if many && r.number !in seen then 1 else 0), u))
  }

  function MeasureField(schema: Schema, r: P.Record, kind: Kind, depth: nat, o: Options,
                        utf8: Octets -> bool): Option<Usage>
    decreases if r.value.Data? then |r.value.bytes| + 1 else 0, 0
  {
    if Packed(kind) && r.wire == 2 then
      if !r.value.Data? then None
      else
        var values :- PackedSize(kind, r.value.bytes);
        Some(NodesOnly(1 + values))
    else if kind.Message? then
      if !r.value.Data? then None
      else MeasureMessage(schema, r.number, kind.child, r.value.bytes, depth, o, utf8)
    else if !ScalarFits(schema, r.number, kind, r.value, o, utf8) then None
    else Some(ScalarUsage(schema, kind, r.value))
  }

  function MeasureMessage(schema: Schema, n: nat, child: Schema, s: Octets, depth: nat, o: Options,
                          utf8: Octets -> bool): Option<Usage>
    decreases |s|, 4
  {
    if Owned(schema, child) then
      var u :- Measure(child, s, 0, Nested(schema, n, o), utf8);
      if u.bytes > Nested(schema, n, o).maxBytes || u.sets > o.maxNodes then None
      else Some(Plus(Arrival(child), u.(bytes := 0, sets := 0)))
    else
      var u :- Measure(child, s, Deeper(schema, depth), o, utf8);
      Some(Plus(Arrival(child), u))
  }

  // ---- Its nodes are those counted -------------------------------------------

  lemma {:induction false} MeasureCounts(schema: Schema, s: Octets, depth: nat, o: Options, utf8: Octets -> bool)
    requires Measure(schema, s, depth, o, utf8).Some?
    ensures Count(schema, s) == Some(Measure(schema, s, depth, o, utf8).value.nodes)
    ensures Measure(schema, s, depth, o, utf8).value.pairs == 0
    decreases |s|, 3
  {
    hide MeasureFrom, CountFrom;
    MeasureFromCounts(schema, s, {}, depth, o, utf8);
  }

  lemma {:induction false} MeasureFromCounts(schema: Schema, s: Octets, seen: set<nat>, depth: nat, o: Options,
                                             utf8: Octets -> bool)
    requires MeasureFrom(schema, s, seen, depth, o, utf8).Some?
    ensures CountFrom(schema, s, seen) == Some(MeasureFrom(schema, s, seen, depth, o, utf8).value.nodes)
    decreases |s|, 2
  {
    hide MeasureRecord, RecordCount, Seen, P.Next;
    if s != [] {
      P.NextShorter(s);
      var (r, rest) := P.Next(s).value;
      RecordCounts(schema, r, seen, depth, o, utf8);
      MeasureFromCounts(schema, rest, Seen(schema, r, seen), depth, o, utf8);
    }
  }

  lemma {:induction false} RecordCounts(schema: Schema, r: P.Record, seen: set<nat>, depth: nat, o: Options,
                                        utf8: Octets -> bool)
    requires MeasureRecord(schema, r, seen, depth, o, utf8).Some?
    ensures RecordCount(schema, r, seen) == Some(MeasureRecord(schema, r, seen, depth, o, utf8).value.nodes)
    decreases if r.value.Data? then |r.value.bytes| + 1 else 0, 1
  {
    hide Field, PackedSize, WireFits, MeasureField, Count, Packed;
    var found := Field(schema, r.number);
    if found.Some? && MeasureField(schema, r, found.value.0, depth, o, utf8).Some? {
      FieldCounts(schema, r, found.value.0, depth, o, utf8);
    }
  }

  lemma {:induction false} FieldCounts(schema: Schema, r: P.Record, kind: Kind, depth: nat, o: Options,
                                       utf8: Octets -> bool)
    requires MeasureField(schema, r, kind, depth, o, utf8).Some?
    ensures var n := MeasureField(schema, r, kind, depth, o, utf8).value.nodes;
            if Packed(kind) && r.wire == 2 then r.value.Data? && More(1, PackedSize(kind, r.value.bytes)) == Some(n)
            else if kind.Message? then r.value.Data? && Count(kind.child, r.value.bytes) == Some(n)
            else n == 1
    decreases if r.value.Data? then |r.value.bytes| + 1 else 0, 0
  {
    hide PackedSize, MeasureMessage, Count, ScalarBytes, ScalarFits, Attribute, Packed;
    if !(Packed(kind) && r.wire == 2) && kind.Message? {
      MessageCounts(schema, r.number, kind.child, r.value.bytes, depth, o, utf8);
    }
  }

  /** Nodes after counting some more, when those are known. */
  function More(nodes: nat, more: Option<nat>): Option<nat> {
    match more
    case None => None
    case Some(n) => Some(nodes + n)
  }

  lemma {:induction false} MessageCounts(schema: Schema, n: nat, child: Schema, s: Octets, depth: nat, o: Options,
                                         utf8: Octets -> bool)
    requires MeasureMessage(schema, n, child, s, depth, o, utf8).Some?
    ensures Count(child, s) == Some(MeasureMessage(schema, n, child, s, depth, o, utf8).value.nodes)
    decreases |s|, 4
  {
    hide Measure, Count, Nested, Owned, Deeper;
    ArrivesFree(child);
    if Owned(schema, child) {
      MeasureCounts(child, s, 0, Nested(schema, n, o), utf8);
    } else {
      MeasureCounts(child, s, Deeper(schema, depth), o, utf8);
    }
  }

  lemma ArrivesFree(child: Schema)
    ensures Arrival(child).nodes == 0
  {
  }

  // ---- Groups of one signal --------------------------------------------------

  const HOLDERS: set<Schema> :=
    {Export, ExportLogs, ExportMetrics, ResourceSpans, ResourceLogs, ResourceMetrics, ScopeMetrics}
  const METRIC_HOLDERS: set<Schema> := {ExportMetrics, ResourceMetrics, ScopeMetrics}

  /** A message that can hold groups is of the request's own signal. */
  predicate Belongs(schema: Schema, metrics: bool) {
    schema in HOLDERS ==> (schema in METRIC_HOLDERS <==> metrics)
  }

  lemma ChildBelongs(schema: Schema, n: nat, metrics: bool)
    requires Belongs(schema, metrics) && Field(schema, n).Some? && Field(schema, n).value.0.Message?
    ensures var child := Field(schema, n).value.0.child;
            Belongs(child, metrics) && (child in METRIC_GROUPS ==> metrics) && (child in GROUPS ==> !metrics)
  {
    if schema !in HOLDERS {
      NotHolder(schema, n);
    }
  }

  lemma NotHolder(schema: Schema, n: nat)
    requires schema !in HOLDERS && Field(schema, n).Some? && Field(schema, n).value.0.Message?
    ensures var child := Field(schema, n).value.0.child;
            child !in HOLDERS && child !in GROUPS && child !in METRIC_GROUPS
  {
  }
}
