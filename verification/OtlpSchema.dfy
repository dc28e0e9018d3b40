/** The OTLP messages the codec knows (`otlp_traces.rs`, `field`; `otlp_merge.rs`, `oneof`, `attribute`). */
module OtlpSchema {
  import opened Prelude

  datatype Schema =
    | Export | ExportLogs | ExportMetrics | ResourceMetrics | ScopeMetrics | Metric | Gauge | Sum | Histogram
    | ExponentialHistogram | Summary | NumberPoint | HistogramPoint | ExponentialPoint | Buckets
    | SummaryPoint | QuantileValue | Exemplar | ResourceLogs | ScopeLogs | LogRecord | ResourceSpans
    | Resource | ScopeSpans | Scope | Span | Status | Event | Link | Pair | Any | Array | KvList

  datatype Kind =
    | Message(child: Schema) | String | Hex | Bytes | Uint | Int | Bool | Double | Fixed64 | Fixed32 | Signed64
    | Sint32 | PackedFixed64 | PackedUint64 | PackedDouble

  /** The kind of a field and whether it repeats; unknown fields have none. */
  function Field(s: Schema, n: nat): Option<(Kind, bool)> {
    match s
    case Export =>
      if n == 1 then Some((Message(ResourceSpans), true)) // resourceSpans
      else None
    case ExportLogs =>
      if n == 1 then Some((Message(ResourceLogs), true)) // resourceLogs
      else None
    case ExportMetrics =>
      if n == 1 then Some((Message(ResourceMetrics), true)) // resourceMetrics
      else None
    case ResourceMetrics =>
      if n == 1 then Some((Message(Resource), false)) // resource
      else if n == 2 then Some((Message(ScopeMetrics), true)) // scopeMetrics
      else if n == 3 then Some((String, false)) // schemaUrl
      else None
    case ScopeMetrics =>
      if n == 1 then Some((Message(Scope), false)) // scope
      else if n == 2 then Some((Message(Metric), true)) // metrics
      else if n == 3 then Some((String, false)) // schemaUrl
      else None
    case Metric =>
      if n == 1 then Some((String, false)) // name
      else if n == 2 then Some((String, false)) // description
      else if n == 3 then Some((String, false)) // unit
      else if n == 5 then Some((Message(Gauge), false)) // gauge
      else if n == 7 then Some((Message(Sum), false)) // sum
      else if n == 9 then Some((Message(Histogram), false)) // histogram
      else if n == 10 then Some((Message(ExponentialHistogram), false)) // exponentialHistogram
      else if n == 11 then Some((Message(Summary), false)) // summary
      else if n == 12 then Some((Message(Pair), true)) // metadata
      else None
    case Gauge =>
      if n == 1 then Some((Message(NumberPoint), true)) // dataPoints
      else None
    case Sum =>
      if n == 1 then Some((Message(NumberPoint), true)) // dataPoints
      else if n == 2 then Some((Uint, false)) // aggregationTemporality
      else if n == 3 then Some((Bool, false)) // isMonotonic
      else None
    case Histogram =>
      if n == 1 then Some((Message(HistogramPoint), true)) // dataPoints
      else if n == 2 then Some((Uint, false)) // aggregationTemporality
      else None
    case ExponentialHistogram =>
      if n == 1 then Some((Message(ExponentialPoint), true)) // dataPoints
      else if n == 2 then Some((Uint, false)) // aggregationTemporality
      else None
    case Summary =>
      if n == 1 then Some((Message(SummaryPoint), true)) // dataPoints
      else None
    case NumberPoint =>
      if n == 2 then Some((Fixed64, false)) // startTimeUnixNano
      else if n == 3 then Some((Fixed64, false)) // timeUnixNano
      else if n == 4 then Some((Double, false)) // asDouble
      else if n == 5 then Some((Message(Exemplar), true)) // exemplars
      else if n == 6 then Some((Signed64, false)) // asInt
      else if n == 7 then Some((Message(Pair), true)) // attributes
      else if n == 8 then Some((Uint, false)) // flags
      else None
    case HistogramPoint =>
      if n == 2 then Some((Fixed64, false)) // startTimeUnixNano
      else if n == 3 then Some((Fixed64, false)) // timeUnixNano
      else if n == 4 then Some((Fixed64, false)) // count
      else if n == 5 then Some((Double, false)) // sum
      else if n == 6 then Some((PackedFixed64, true)) // bucketCounts
      else if n == 7 then Some((PackedDouble, true)) // explicitBounds
      else if n == 8 then Some((Message(Exemplar), true)) // exemplars
      else if n == 9 then Some((Message(Pair), true)) // attributes
      else if n == 10 then Some((Uint, false)) // flags
      else if n == 11 then Some((Double, false)) // min
      else if n == 12 then Some((Double, false)) // max
      else None
    case ExponentialPoint =>
      if n == 1 then Some((Message(Pair), true)) // attributes
      else if n == 2 then Some((Fixed64, false)) // startTimeUnixNano
      else if n == 3 then Some((Fixed64, false)) // timeUnixNano
      else if n == 4 then Some((Fixed64, false)) // count
      else if n == 5 then Some((Double, false)) // sum
      else if n == 6 then Some((Sint32, false)) // scale
      else if n == 7 then Some((Fixed64, false)) // zeroCount
      else if n == 8 then Some((Message(Buckets), false)) // positive
      else if n == 9 then Some((Message(Buckets), false)) // negative
      else if n == 10 then Some((Uint, false)) // flags
      else if n == 11 then Some((Message(Exemplar), true)) // exemplars
      else if n == 12 then Some((Double, false)) // min
      else if n == 13 then Some((Double, false)) // max
      else if n == 14 then Some((Double, false)) // zeroThreshold
      else None
    case Buckets =>
      if n == 1 then Some((Sint32, false)) // offset
      else if n == 2 then Some((PackedUint64, true)) // bucketCounts
      else None
    case SummaryPoint =>
      if n == 2 then Some((Fixed64, false)) // startTimeUnixNano
      else if n == 3 then Some((Fixed64, false)) // timeUnixNano
      else if n == 4 then Some((Fixed64, false)) // count
      else if n == 5 then Some((Double, false)) // sum
      else if n == 6 then Some((Message(QuantileValue), true)) // quantileValues
      else if n == 7 then Some((Message(Pair), true)) // attributes
      else if n == 8 then Some((Uint, false)) // flags
      else None
    case QuantileValue =>
      if n == 1 then Some((Double, false)) // quantile
      else if n == 2 then Some((Double, false)) // value
      else None
    case Exemplar =>
      if n == 2 then Some((Fixed64, false)) // timeUnixNano
      else if n == 3 then Some((Double, false)) // asDouble
      else if n == 4 then Some((Hex, false)) // spanId
      else if n == 5 then Some((Hex, false)) // traceId
      else if n == 6 then Some((Signed64, false)) // asInt
      else if n == 7 then Some((Message(Pair), true)) // filteredAttributes
      else None
    case ResourceLogs =>
      if n == 1 then Some((Message(Resource), false)) // resource
      else if n == 2 then Some((Message(ScopeLogs), true)) // scopeLogs
      else if n == 3 then Some((String, false)) // schemaUrl
      else None
    case ScopeLogs =>
      if n == 1 then Some((Message(Scope), false)) // scope
      else if n == 2 then Some((Message(LogRecord), true)) // logRecords
      else if n == 3 then Some((String, false)) // schemaUrl
      else None
    case LogRecord =>
      if n == 1 then Some((Fixed64, false)) // timeUnixNano
      else if n == 2 then Some((Uint, false)) // severityNumber
      else if n == 3 then Some((String, false)) // severityText
      else if n == 5 then Some((Message(Any), false)) // body
      else if n == 6 then Some((Message(Pair), true)) // attributes
      else if n == 7 then Some((Uint, false)) // droppedAttributesCount
      else if n == 8 then Some((Fixed32, false)) // flags
      else if n == 9 then Some((Hex, false)) // traceId
      else if n == 10 then Some((Hex, false)) // spanId
      else if n == 11 then Some((Fixed64, false)) // observedTimeUnixNano
      else if n == 12 then Some((String, false)) // eventName
      else None
    case ResourceSpans =>
      if n == 1 then Some((Message(Resource), false)) // resource
      else if n == 2 then Some((Message(ScopeSpans), true)) // scopeSpans
      else if n == 3 then Some((String, false)) // schemaUrl
      else None
    case Resource =>
      if n == 1 then Some((Message(Pair), true)) // attributes
      else if n == 2 then Some((Uint, false)) // droppedAttributesCount
      else None
    case ScopeSpans =>
      if n == 1 then Some((Message(Scope), false)) // scope
      else if n == 2 then Some((Message(Span), true)) // spans
      else if n == 3 then Some((String, false)) // schemaUrl
      else None
    case Scope =>
      if n == 1 then Some((String, false)) // name
      else if n == 2 then Some((String, false)) // version
      else if n == 3 then Some((Message(Pair), true)) // attributes
      else if n == 4 then Some((Uint, false)) // droppedAttributesCount
      else None
    case Span =>
      if n == 1 then Some((Hex, false)) // traceId
      else if n == 2 then Some((Hex, false)) // spanId
      else if n == 3 then Some((String, false)) // traceState
      else if n == 4 then Some((Hex, false)) // parentSpanId
      else if n == 5 then Some((String, false)) // name
      else if n == 6 then Some((Uint, false)) // kind
      else if n == 7 then Some((Fixed64, false)) // startTimeUnixNano
      else if n == 8 then Some((Fixed64, false)) // endTimeUnixNano
      else if n == 9 then Some((Message(Pair), true)) // attributes
      else if n == 10 then Some((Uint, false)) // droppedAttributesCount
      else if n == 11 then Some((Message(Event), true)) // events
      else if n == 12 then Some((Uint, false)) // droppedEventsCount
      else if n == 13 then Some((Message(Link), true)) // links
      else if n == 14 then Some((Uint, false)) // droppedLinksCount
      else if n == 15 then Some((Message(Status), false)) // status
      else if n == 16 then Some((Fixed32, false)) // flags
      else None
    case Status =>
      if n == 2 then Some((String, false)) // message
      else if n == 3 then Some((Uint, false)) // code
      else None
    case Event =>
      if n == 1 then Some((Fixed64, false)) // timeUnixNano
      else if n == 2 then Some((String, false)) // name
      else if n == 3 then Some((Message(Pair), true)) // attributes
      else if n == 4 then Some((Uint, false)) // droppedAttributesCount
      else None
    case Link =>
      if n == 1 then Some((Hex, false)) // traceId
      else if n == 2 then Some((Hex, false)) // spanId
      else if n == 3 then Some((String, false)) // traceState
      else if n == 4 then Some((Message(Pair), true)) // attributes
      else if n == 5 then Some((Uint, false)) // droppedAttributesCount
      else if n == 6 then Some((Fixed32, false)) // flags
      else None
    case Pair =>
      if n == 1 then Some((String, false)) // key
      else if n == 2 then Some((Message(Any), false)) // value
      else None
    case Any =>
      if n == 1 then Some((String, false)) // stringValue
      else if n == 2 then Some((Bool, false)) // boolValue
      else if n == 3 then Some((Int, false)) // intValue
      else if n == 4 then Some((Double, false)) // doubleValue
      else if n == 5 then Some((Message(Array), false)) // arrayValue
      else if n == 6 then Some((Message(KvList), false)) // kvlistValue
      else if n == 7 then Some((Bytes, false)) // bytesValue
      else None
    case Array =>
      if n == 1 then Some((Message(Any), true)) // values
      else None
    case KvList =>
      if n == 1 then Some((Message(Pair), true)) // values
      else None
  }

  /** Attribute values, whose sizes count against their owner's limits. */
  predicate Attribute(s: Schema) {
    s == Pair || s == Any || s == Array || s == KvList
  }

  predicate OneOf(s: Schema, n: nat) {
    match s
    case Any => 1 <= n <= 7
    case Metric => n == 5 || n == 7 || n == 9 || n == 10 || n == 11
    case NumberPoint => n == 4 || n == 6
    case Exemplar => n == 3 || n == 6
    case _ => false
  }

  function WireType(k: Kind): nat {
    match k
    case Message(_) => 2
    case String => 2
    case Hex => 2
    case Bytes => 2
    case Fixed64 => 1
    case Signed64 => 1
    case Double => 1
    case PackedFixed64 => 1
    case PackedDouble => 1
    case Fixed32 => 5
    case _ => 0
  }

  predicate Packed(k: Kind) {
    k == PackedFixed64 || k == PackedUint64 || k == PackedDouble
  }

  /** Packed fields repeat, and a choice between fields is never a choice between repeated ones. */
  lemma TableFacts(s: Schema, n: nat)
    requires Field(s, n).Some?
    ensures Packed(Field(s, n).value.0) ==> Field(s, n).value.1
    ensures OneOf(s, n) ==> !Field(s, n).value.1
  {
  }
}
