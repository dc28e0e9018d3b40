/** The stored form of a row's exemplars: `valid`, `to_bytes` and `from_bytes` of exemplar.rs. */
module Exemplar {
  import opened Prelude
  import opened Text
  import opened Wire

  const VERSION: byte := 1
  const MAX_LABEL_SET_LENGTH := 128

  datatype Label = Label(name: Bytes, value: Bytes)

  /** Labels, the value's 64-bit pattern, and a timestamp in nanoseconds. */
  datatype Stored = Stored(labels: seq<Label>, value: U64, timestamp: I64)

  predicate Readable(l: Label) {
    Utf8(l.name) && Utf8(l.value) && l.name != []
  }

  function LabelChars(labels: seq<Label>): nat
    requires forall i :: 0 <= i < |labels| ==> Readable(labels[i])
  {
    if labels == [] then 0
    else
      assert Readable(labels[0]);
      Chars(labels[0].name) + Chars(labels[0].value) + LabelChars(labels[1..])
  }

  predicate Valid(labels: seq<Label>) {
    (forall i :: 0 <= i < |labels| ==> Readable(labels[i])) && LabelChars(labels) <= MAX_LABEL_SET_LENGTH
  }

  /** What the reader insists on: valid labels in strictly ascending name order. */
  predicate Acceptable(e: Stored) {
    Valid(e.labels) && forall i :: 0 < i < |e.labels| ==> Less(e.labels[i - 1].name, e.labels[i].name)
  }

  /** `valid`'s counting loop. */
  method CheckLabels(labels: seq<Label>) returns (ok: bool)
    ensures ok == Valid(labels)
  {
    var chars := 0;
    for i := 0 to |labels|
      invariant forall k :: 0 <= k < i ==> Readable(labels[k])
      invariant (forall k :: 0 <= k < |labels| ==> Readable(labels[k])) ==>
                  chars + LabelChars(labels[i..]) == LabelChars(labels)
    {
      if !Readable(labels[i]) {
        return false;
      }
      assert labels[i..][1..] == labels[i + 1..];
      chars := chars + Chars(labels[i].name) + Chars(labels[i].value);
    }
    assert labels[|labels|..] == [];
    ok := chars <= MAX_LABEL_SET_LENGTH;
  }

  // ---- Stored form -----------------------------------------------------------

  function PutSlice(s: Bytes): Bytes {
    PutVarint(|s|) + s
  }

  function GetSlice(s: Bytes): Option<(Bytes, Bytes)> {
    var (n, rest) :- GetVarint(s);
    if n > |rest| then None else Some((rest[..n], rest[n..]))
  }

  function PutLabel(l: Label): Bytes {
    PutSlice(l.name) + PutSlice(l.value)
  }

  function GetLabel(s: Bytes): Option<(Label, Bytes)> {
    var (name, s1) :- GetSlice(s);
    var (value, s2) :- GetSlice(s1);
    Some((Label(name, value), s2))
  }

  /** Two's complement of a timestamp. */
  function Pattern(t: I64): U64 {
    if t < 0 then t + TWO_64 else t
  }

  function Timestamp(p: U64): I64 {
    if p >= TWO_63 then p - TWO_64 else p
  }

  datatype Parts = Parts(word: Codec<U64>, pair: Codec<Label>)

  const STORED := Parts(Codec(PutWord64, GetWord64), Codec(PutLabel, GetLabel))

  function PutOne(p: Parts, e: Stored): Bytes {
    p.word.put(Pattern(e.timestamp)) + (p.word.put(e.value) + PutList(p.pair, e.labels))
  }

  function GetOne(p: Parts, s: Bytes): Option<(Stored, Bytes)> {
    var (pattern, s1) :- p.word.get(s);
    var (value, s2) :- p.word.get(s1);
    var (labels, s3) :- GetList(p.pair, s2, TWO_64);
    var e := Stored(labels, value, Timestamp(pattern));
    if Acceptable(e) then Some((e, s3)) else None
  }

  function One(p: Parts): Codec<Stored> {
    Codec((e: Stored) => PutOne(p, e), (s: Bytes) => GetOne(p, s))
  }

  function Encode(p: Parts, es: seq<Stored>): Bytes {
    [VERSION] + PutList(One(p), es)
  }

  function Decode(p: Parts, bytes: Bytes): Option<seq<Stored>> {
    if bytes == [] || bytes[0] != VERSION then None
    else
      var (es, rest) :- GetList(One(p), bytes[1..], TWO_64);
      if rest == [] then Some(es) else None
  }

  // ---- Laws ------------------------------------------------------------------

  /** Label lists a 64-bit machine can hold. */
  predicate Addressable(l: Label) {
    |l.name| < TWO_64 && |l.value| < TWO_64
  }

  ghost predicate Storable(e: Stored) {
    Acceptable(e) && |e.labels| < TWO_64 && forall i :: 0 <= i < |e.labels| ==> Addressable(e.labels[i])
  }

  ghost predicate Lawful(p: Parts) {
    && RoundTrips(p.word, (v: U64) => true) && Stable(p.word)
    && RoundTrips(p.pair, Addressable) && Stable(p.pair)
  }

  lemma SliceRoundTrip(x: Bytes, rest: Bytes)
    requires |x| < TWO_64
    ensures GetSlice(PutSlice(x) + rest) == Some((x, rest))
  {
    VarintRoundTrip(|x|, x + rest);
    assert PutSlice(x) + rest == PutVarint(|x|) + (x + rest);
    assert (x + rest)[..|x|] == x && (x + rest)[|x|..] == rest;
  }

  lemma SliceStable(s: Bytes, t: Bytes)
    requires GetSlice(s).Some?
    ensures GetSlice(s + t) == Some((GetSlice(s).value.0, GetSlice(s).value.1 + t))
  {
    VarintStable(s, t);
    var (n, rest) := GetVarint(s).value;
    assert (rest + t)[..n] == rest[..n] && (rest + t)[n..] == rest[n..] + t;
  }

  lemma StoredLaws()
    ensures Lawful(STORED)
  {
    Word64Laws();
    forall x: Label, rest: Bytes | Addressable(x) ensures GetLabel(PutLabel(x) + rest) == Some((x, rest)) {
      assert PutLabel(x) + rest == PutSlice(x.name) + (PutSlice(x.value) + rest);
      SliceRoundTrip(x.name, PutSlice(x.value) + rest);
      SliceRoundTrip(x.value, rest);
    }
    forall s: Bytes, t: Bytes | GetLabel(s).Some?
      ensures GetLabel(s + t) == Some((GetLabel(s).value.0, GetLabel(s).value.1 + t))
    {
      SliceStable(s, t);
      SliceStable(GetSlice(s).value.1, t);
    }
  }

  lemma OneRoundTrip(p: Parts, e: Stored, rest: Bytes)
    requires Lawful(p) && Storable(e)
    ensures GetOne(p, PutOne(p, e) + rest) == Some((e, rest))
  {
    var b := PutList(p.pair, e.labels) + rest;
    var a := p.word.put(e.value) + b;
    assert PutOne(p, e) + rest == p.word.put(Pattern(e.timestamp)) + a;
    assert p.word.get(p.word.put(Pattern(e.timestamp)) + a) == Some((Pattern(e.timestamp), a));
    assert p.word.get(p.word.put(e.value) + b) == Some((e.value, b));
    ListRoundTrip(p.pair, Addressable, e.labels, rest, TWO_64);
  }

  lemma OneStable(p: Parts, s: Bytes, t: Bytes)
    requires Lawful(p) && GetOne(p, s).Some?
    ensures GetOne(p, s + t) == Some((GetOne(p, s).value.0, GetOne(p, s).value.1 + t))
  {
    var s1 := p.word.get(s).value.1;
    var s2 := p.word.get(s1).value.1;
    ListStable(p.pair, s2, t, TWO_64, TWO_64);
  }

  lemma OneLaws(p: Parts)
    requires Lawful(p)
    ensures RoundTrips(One(p), e => Storable(e)) && Stable(One(p))
  {
    forall e: Stored, rest: Bytes | Storable(e) ensures GetOne(p, PutOne(p, e) + rest) == Some((e, rest)) {
      OneRoundTrip(p, e, rest);
    }
    forall s: Bytes, t: Bytes | GetOne(p, s).Some?
      ensures GetOne(p, s + t) == Some((GetOne(p, s).value.0, GetOne(p, s).value.1 + t))
    {
      OneStable(p, s, t);
    }
  }

  lemma DecodeEncode(p: Parts, es: seq<Stored>)
    requires Lawful(p) && |es| < TWO_64 && forall i :: 0 <= i < |es| ==> Storable(es[i])
    ensures Decode(p, Encode(p, es)) == Some(es)
  {
    OneLaws(p);
    ListRoundTrip(One(p), e => Storable(e), es, [], TWO_64);
    assert PutList(One(p), es) + [] == Encode(p, es)[1..];
  }

  /** Exemplars with valid, strictly sorted labels read back from their stored form. */
  lemma StoredRoundTrip(es: seq<Stored>)
    requires |es| < TWO_64 && forall i :: 0 <= i < |es| ==> Storable(es[i])
    ensures Decode(STORED, Encode(STORED, es)) == Some(es)
  {
    StoredLaws();
    DecodeEncode(STORED, es);
  }

  lemma DecodeExact(p: Parts, s: Bytes, t: Bytes)
    requires Lawful(p) && Decode(p, s).Some? && t != []
    ensures Decode(p, s + t).None?
  {
    OneLaws(p);
    assert (s + t)[1..] == s[1..] + t;
    ListStable(One(p), s[1..], t, TWO_64, TWO_64);
  }

  lemma NoPrefix(p: Parts, full: Bytes, n: nat)
    requires Lawful(p) && Decode(p, full).Some? && n < |full|
    ensures Decode(p, full[..n]).None?
  {
    assert full[..n] + full[n..] == full;
    if Decode(p, full[..n]).Some? { DecodeExact(p, full[..n], full[n..]); }
  }

  /** No proper prefix of a stored form decodes. */
  lemma NoPrefixDecodes(es: seq<Stored>, n: nat)
    requires |es| < TWO_64 && (forall i :: 0 <= i < |es| ==> Storable(es[i])) && n < |Encode(STORED, es)|
    ensures Decode(STORED, Encode(STORED, es)[..n]).None?
  {
    StoredLaws();
    StoredRoundTrip(es);
    NoPrefix(STORED, Encode(STORED, es), n);
  }

  lemma {:induction false} ReadAcceptable(p: Parts, s: Bytes, n: nat, done: seq<Stored>)
    requires GetN(One(p), s, n, done).Some? && forall i :: 0 <= i < |done| ==> Acceptable(done[i])
    ensures var es := GetN(One(p), s, n, done).value.0; forall i :: 0 <= i < |es| ==> Acceptable(es[i])
    decreases n
  {
    if n > 0 {
      var (e, rest) := GetOne(p, s).value;
      assert One(p).get(s) == GetOne(p, s);
      ReadAcceptable(p, rest, n - 1, done + [e]);
    }
  }

  /** Whatever decodes holds only valid, strictly sorted label sets. */
  lemma DecodedAcceptable(s: Bytes)
    requires Decode(STORED, s).Some?
    ensures forall i :: 0 <= i < |Decode(STORED, s).value| ==> Acceptable(Decode(STORED, s).value[i])
  {
    hide Acceptable, GetN, GetVarint;
    var (n, rest) := GetVarint(s[1..]).value;
    ReadAcceptable(STORED, rest, n, []);
  }
}
