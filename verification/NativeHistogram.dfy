/**
 The stored form of native histograms: `to_bytes`, `from_bytes` and `validate` of
 native_histogram.rs. Doubles are their 64-bit patterns.
 */
module NativeHistogram {
  import opened Prelude
  import opened Text
  import opened Wire

  const CUSTOM_BUCKETS_SCHEMA := -53
  const VERSION: byte := 1
  const INFINITY := 0x7ff0_0000_0000_0000

  type Float = U64

  datatype Span = Span(offset: I32, length: U32)

  datatype Histogram = Histogram(
    schema: I32, zeroThreshold: Float, zeroCount: Float, count: Float, sum: Float,
    positiveSpans: seq<Span>, positive: seq<Float>, negativeSpans: seq<Span>, negative: seq<Float>,
    resetHint: byte, customValues: seq<Float>)

  // ---- Doubles as patterns ---------------------------------------------------

  function Magnitude(f: Float): nat {
    f % TWO_63
  }

  /** Position on the number line: the sign bit negates, and patterns grow with the value. */
  function Rank(f: Float): int {
    if f >= TWO_63 then 0 - Magnitude(f) else Magnitude(f)
  }

  predicate IsNan(f: Float) {
    Magnitude(f) > INFINITY
  }

  predicate IsFinite(f: Float) {
    Magnitude(f) < INFINITY
  }

  predicate FloatLess(a: Float, b: Float) {
    !IsNan(a) && !IsNan(b) && Rank(a) < Rank(b)
  }

  // ---- Validation ------------------------------------------------------------

  function Covered(spans: seq<Span>): nat {
    if spans == [] then 0 else spans[0].length + Covered(spans[1..])
  }

  predicate CustomValid(h: Histogram) {
    && h.negative == [] && h.negativeSpans == []
    && (forall i :: 0 <= i < |h.customValues| ==> IsFinite(h.customValues[i]))
    && (forall i :: 0 < i < |h.customValues| ==> FloatLess(h.customValues[i - 1], h.customValues[i]))
    && (h.positiveSpans != [] ==> h.positiveSpans[0].offset >= 0)
  }

  predicate Validate(h: Histogram) {
    && (h.schema == CUSTOM_BUCKETS_SCHEMA || -4 <= h.schema <= 8)
    && (if h.schema == CUSTOM_BUCKETS_SCHEMA then CustomValid(h) else h.customValues == [])
    && Covered(h.positiveSpans) == |h.positive|
    && Covered(h.negativeSpans) == |h.negative|
    && (forall i :: 0 < i < |h.positiveSpans| ==> h.positiveSpans[i].offset >= 0)
    && (forall i :: 0 < i < |h.negativeSpans| ==> h.negativeSpans[i].offset >= 0)
    && !IsNan(h.zeroThreshold) && Rank(h.zeroThreshold) >= 0
  }

  // ---- Stored form -----------------------------------------------------------

  function PutSpan(s: Span): Bytes {
    PutVarint(Zigzag(s.offset)) + PutVarint(s.length)
  }

  function GetI32(s: Bytes): Option<(I32, Bytes)> {
    var (n, rest) :- GetVarint(s);
    var v := Unzigzag(n);
    if -0x8000_0000 <= v < 0x8000_0000 then Some((v, rest)) else None
  }

  function GetSpan(s: Bytes): Option<(Span, Bytes)> {
    var (offset, s1) :- GetI32(s);
    var (length, s2) :- GetVarint(s1);
    if length < TWO_32 then Some((Span(offset, length), s2)) else None
  }

  function PutSchema(v: I32): Bytes {
    PutVarint(Zigzag(v))
  }

  /** The codecs a stored histogram is made of. */
  datatype Parts = Parts(schema: Codec<I32>, float: Codec<Float>, span: Codec<Span>)

  const STORED := Parts(Codec(PutSchema, GetI32), Codec(PutWord64, GetWord64), Codec(PutSpan, GetSpan))

  function Scalars(h: Histogram): seq<Float> {
    [h.zeroThreshold, h.zeroCount, h.count, h.sum]
  }

  function PutBuckets(p: Parts, h: Histogram): Bytes {
    PutList(p.span, h.positiveSpans) + (PutList(p.float, h.positive) +
    (PutList(p.span, h.negativeSpans) + (PutList(p.float, h.negative) + PutList(p.float, h.customValues))))
  }

  /** Everything after the version byte. */
  function PutBody(p: Parts, h: Histogram): Bytes {
    p.schema.put(h.schema) + (PutAll(p.float, Scalars(h)) + ([h.resetHint] + PutBuckets(p, h)))
  }

  function Encode(p: Parts, h: Histogram): Bytes {
    [VERSION] + PutBody(p, h)
  }

  /** The schema, the four scalars and the reset hint. */
  function GetHead(p: Parts, s: Bytes): Option<(Histogram, Bytes)> {
    var (schema, s1) :- p.schema.get(s);
    var (f, s2) :- GetN(p.float, s1, 4, []);
    if s2 == [] then None
    else Some((Histogram(schema, f[0], f[1], f[2], f[3], [], [], [], [], s2[0], []), s2[1..]))
  }

  /** The spans and buckets of both signs and the custom bounds, filled into `h`. */
  function GetBuckets(p: Parts, h: Histogram, s: Bytes, limit: nat): Option<(Histogram, Bytes)> {
    var (positiveSpans, s1) :- GetList(p.span, s, limit);
    var (positive, s2) :- GetList(p.float, s1, limit);
    var (negativeSpans, s3) :- GetList(p.span, s2, limit);
    var (negative, s4) :- GetList(p.float, s3, limit);
    var (customValues, s5) :- GetList(p.float, s4, limit);
    Some((h.(positiveSpans := positiveSpans, positive := positive, negativeSpans := negativeSpans,
             negative := negative, customValues := customValues), s5))
  }

  function GetBody(p: Parts, s: Bytes, limit: nat): Option<(Histogram, Bytes)> {
    var (h, rest) :- GetHead(p, s);
    GetBuckets(p, h, rest, limit)
  }

  /** `from_bytes`: list counts above the length of the input are rejected outright. */
  function Decode(p: Parts, bytes: Bytes): Option<Histogram> {
    if bytes == [] || bytes[0] != VERSION then None
    else
      var (h, rest) :- GetBody(p, bytes[1..], |bytes|);
      if rest == [] && h.resetHint <= 3 && Validate(h) then Some(h) else None
  }

  // ---- Laws of the parts -----------------------------------------------------

  ghost predicate Lawful(p: Parts) {
    && RoundTrips(p.schema, (v: I32) => true) && Stable(p.schema)
    && RoundTrips(p.float, (v: Float) => true) && Stable(p.float)
    && RoundTrips(p.span, (v: Span) => true) && Stable(p.span)
    && (forall v :: |p.float.put(v)| >= 1) && (forall v :: |p.span.put(v)| >= 1)
  }

  lemma SchemaLaws()
    ensures RoundTrips(STORED.schema, (v: I32) => true) && Stable(STORED.schema)
  {
    forall v: I32, rest: Bytes ensures GetI32(PutSchema(v) + rest) == Some((v, rest)) {
      ZigzagInverts(v, 0);
      VarintRoundTrip(Zigzag(v), rest);
    }
    forall s: Bytes, t: Bytes | GetI32(s).Some?
      ensures GetI32(s + t) == Some((GetI32(s).value.0, GetI32(s).value.1 + t))
    {
      VarintStable(s, t);
    }
  }

  lemma SpanLaws()
    ensures RoundTrips(STORED.span, (s: Span) => true) && Stable(STORED.span)
  {
    forall x: Span, rest: Bytes ensures GetSpan(PutSpan(x) + rest) == Some((x, rest)) {
      assert PutSpan(x) + rest == PutVarint(Zigzag(x.offset)) + (PutVarint(x.length) + rest);
      ZigzagInverts(x.offset, 0);
      VarintRoundTrip(Zigzag(x.offset), PutVarint(x.length) + rest);
      VarintRoundTrip(x.length, rest);
    }
    forall s: Bytes, t: Bytes | GetSpan(s).Some?
      ensures GetSpan(s + t) == Some((GetSpan(s).value.0, GetSpan(s).value.1 + t))
    {
      VarintStable(s, t);
      VarintStable(GetVarint(s).value.1, t);
    }
  }

  lemma StoredLaws()
    ensures Lawful(STORED)
  {
    SchemaLaws();
    SpanLaws();
    Word64Laws();
  }

  // ---- Round trip ------------------------------------------------------------

  lemma {:induction false} PutAllLength<T(!new)>(c: Codec<T>, xs: seq<T>)
    requires forall x :: |c.put(x)| >= 1
    ensures |PutAll(c, xs)| >= |xs|
    decreases |xs|
  {
    if xs != [] { PutAllLength(c, xs[1..]); }
  }

  /** Lists a 64-bit machine can hold. */
  predicate Addressable(h: Histogram) {
    |h.positiveSpans| < TWO_64 && |h.positive| < TWO_64 && |h.negativeSpans| < TWO_64 && |h.negative| < TWO_64 &&
    |h.customValues| < TWO_64
  }

  function Bare(h: Histogram): Histogram {
    h.(positiveSpans := [], positive := [], negativeSpans := [], negative := [], customValues := [])
  }

  lemma BucketsRoundTrip(p: Parts, h: Histogram, limit: nat)
    requires Lawful(p) && Addressable(h) && limit >= |PutBuckets(p, h)|
    ensures GetBuckets(p, Bare(h), PutBuckets(p, h), limit) == Some((h, []))
  {
    PutAllLength(p.span, h.positiveSpans);
    PutAllLength(p.float, h.positive);
    PutAllLength(p.span, h.negativeSpans);
    PutAllLength(p.float, h.negative);
    PutAllLength(p.float, h.customValues);
    var e := PutList(p.float, h.customValues);
    var d := PutList(p.float, h.negative) + e;
    var c := PutList(p.span, h.negativeSpans) + d;
    var b := PutList(p.float, h.positive) + c;
    ListRoundTrip(p.span, (s: Span) => true, h.positiveSpans, b, limit);
    ListRoundTrip(p.float, (f: Float) => true, h.positive, c, limit);
    ListRoundTrip(p.span, (s: Span) => true, h.negativeSpans, d, limit);
    ListRoundTrip(p.float, (f: Float) => true, h.negative, e, limit);
    ListRoundTrip(p.float, (f: Float) => true, h.customValues, [], limit);
    assert e + [] == e;
  }

  lemma HeadRoundTrip(p: Parts, h: Histogram, rest: Bytes)
    requires Lawful(p)
    ensures GetHead(p, p.schema.put(h.schema) + (PutAll(p.float, Scalars(h)) + ([h.resetHint] + rest))) ==
            Some((Bare(h), rest))
  {
    var b := [h.resetHint] + rest;
    var a := PutAll(p.float, Scalars(h)) + b;
    assert p.schema.get(p.schema.put(h.schema) + a) == Some((h.schema, a));
    GetNRoundTrip(p.float, (f: Float) => true, Scalars(h), b, []);
    assert [] + Scalars(h) == Scalars(h);
    assert b[1..] == rest;
  }

  lemma DecodeEncode(p: Parts, h: Histogram)
    requires Lawful(p) && Validate(h) && h.resetHint <= 3 && Addressable(h)
    ensures Decode(p, Encode(p, h)) == Some(h)
  {
    assert Encode(p, h)[1..] == PutBody(p, h);
    HeadRoundTrip(p, h, PutBuckets(p, h));
    BucketsRoundTrip(p, h, |Encode(p, h)|);
  }

  /** Every valid histogram with a reset hint of the wire enum reads back from its stored form. */
  lemma StoredRoundTrip(h: Histogram)
    requires Validate(h) && h.resetHint <= 3 && Addressable(h)
    ensures Decode(STORED, Encode(STORED, h)) == Some(h)
  {
    StoredLaws();
    DecodeEncode(STORED, h);
  }

  // ---- No truncated form decodes ---------------------------------------------

  lemma HeadStable(p: Parts, s: Bytes, t: Bytes)
    requires Lawful(p) && GetHead(p, s).Some?
    ensures GetHead(p, s + t) == Some((GetHead(p, s).value.0, GetHead(p, s).value.1 + t))
  {
    var s1 := p.schema.get(s).value.1;
    var s2 := GetN(p.float, s1, 4, []).value.1;
    GetNStable(p.float, s1, t, 4, []);
    assert (s2 + t)[1..] == s2[1..] + t;
  }

  lemma BucketsStable(p: Parts, h: Histogram, s: Bytes, t: Bytes, limit: nat, more: nat)
    requires Lawful(p) && GetBuckets(p, h, s, limit).Some? && limit <= more
    ensures GetBuckets(p, h, s + t, more) ==
            Some((GetBuckets(p, h, s, limit).value.0, GetBuckets(p, h, s, limit).value.1 + t))
  {
    var s1 := GetList(p.span, s, limit).value.1;
    var s2 := GetList(p.float, s1, limit).value.1;
    var s3 := GetList(p.span, s2, limit).value.1;
    var s4 := GetList(p.float, s3, limit).value.1;
    ListStable(p.span, s, t, limit, more);
    ListStable(p.float, s1, t, limit, more);
    ListStable(p.span, s2, t, limit, more);
    ListStable(p.float, s3, t, limit, more);
    ListStable(p.float, s4, t, limit, more);
  }

  /** A decodable input followed by anything more does not decode. */
  lemma DecodeExact(p: Parts, s: Bytes, t: Bytes)
    requires Lawful(p) && Decode(p, s).Some? && t != []
    ensures Decode(p, s + t).None?
  {
    assert (s + t)[1..] == s[1..] + t;
    var (h, rest) := GetHead(p, s[1..]).value;
    HeadStable(p, s[1..], t);
    BucketsStable(p, h, rest, t, |s|, |s + t|);
  }

  /** No proper prefix of a stored form decodes. */
  lemma NoPrefixDecodes(h: Histogram, n: nat)
    requires Validate(h) && h.resetHint <= 3 && Addressable(h) && n < |Encode(STORED, h)|
    ensures Decode(STORED, Encode(STORED, h)[..n]).None?
  {
    StoredLaws();
    StoredRoundTrip(h);
    NoPrefix(STORED, Encode(STORED, h), n);
  }

  lemma NoPrefix(p: Parts, full: Bytes, n: nat)
    requires Lawful(p) && Decode(p, full).Some? && n < |full|
    ensures Decode(p, full[..n]).None?
  {
    assert full[..n] + full[n..] == full;
    if Decode(p, full[..n]).Some? { DecodeExact(p, full[..n], full[n..]); }
  }

  // ---- The writer's loops ----------------------------------------------------

  method AppendAll<T>(c: Codec<T>, out: Bytes, xs: seq<T>) returns (more: Bytes)
    ensures more == out + PutAll(c, xs)
  {
    more := out;
    for i := 0 to |xs|
      invariant more + PutAll(c, xs[i..]) == out + PutAll(c, xs)
    {
      assert xs[i..][1..] == xs[i + 1..] && xs[i..][0] == xs[i];
      more := more + c.put(xs[i]);
    }
    assert more == more + PutAll(c, xs[|xs|..]);
  }

  /** `put_floats` and `put_spans`: a count, then every element. */
  method AppendList<T>(c: Codec<T>, out: Bytes, xs: seq<T>) returns (more: Bytes)
    requires |xs| < TWO_64
    ensures more == out + PutList(c, xs)
  {
    more := AppendVarint(out, |xs|);
    more := AppendAll(c, more, xs);
    assert more == out + (PutVarint(|xs|) + PutAll(c, xs));
  }

  method ToBytes(p: Parts, h: Histogram) returns (out: Bytes)
    requires Addressable(h)
    ensures out == Encode(p, h)
  {
    out := [VERSION] + p.schema.put(h.schema);
    ghost var head := out;
    out := AppendAll(p.float, out, Scalars(h));
    out := out + [h.resetHint];
    out := AppendBuckets(p, out, h);
    assert out == head + PutAll(p.float, Scalars(h)) + [h.resetHint] + PutBuckets(p, h);
    assert out ==
             [VERSION] + (p.schema.put(h.schema) + (PutAll(p.float, Scalars(h)) + ([h.resetHint] + PutBuckets(p, h))));
  }

  lemma Reassociate(o: Bytes, a: Bytes, b: Bytes, c: Bytes, d: Bytes, e: Bytes)
    ensures o + a + b + c + d + e == o + (a + (b + (c + (d + e))))
  {
  }

  method AppendBuckets(p: Parts, out: Bytes, h: Histogram) returns (more: Bytes)
    requires Addressable(h)
    ensures more == out + PutBuckets(p, h)
  {
    var a := AppendList(p.span, out, h.positiveSpans);
    var b := AppendList(p.float, a, h.positive);
    var c := AppendList(p.span, b, h.negativeSpans);
    var d := AppendList(p.float, c, h.negative);
    more := AppendList(p.float, d, h.customValues);
    Reassociate(out, PutList(p.span, h.positiveSpans), PutList(p.float, h.positive),
                PutList(p.span, h.negativeSpans), PutList(p.float, h.negative), PutList(p.float, h.customValues));
  }
}
