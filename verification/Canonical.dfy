/**
 Canonical label bytes, `name 0xFF value 0xFF ...`: `canonical_bytes`, `parse_canonical_pairs`
 and `labels_match` of metric_segment_parquet.rs.
 */
module Canonical {
  import opened Prelude
  import opened Text

  const SEP: byte := 0xFF

  type Pairs = seq<(Bytes, Bytes)>

  /** The bytes before the first separator and those after it. */
  function Cut(s: Bytes): (r: Option<(Bytes, Bytes)>)
    ensures r.Some? ==> s == r.value.0 + [SEP] + r.value.1 && SEP !in r.value.0
    ensures r.None? ==> SEP !in s
  {
    if s == [] then None
    else if s[0] == SEP then
      assert s == [] + [SEP] + s[1..];
      Some(([], s[1..]))
    else
      var rest := Cut(s[1..]);
      assert s == [s[0]] + s[1..];
      if rest.None? then None
      else
        assert s == ([s[0]] + rest.value.0) + [SEP] + rest.value.1;
        Some(([s[0]] + rest.value.0, rest.value.1))
  }

  lemma {:induction false} CutJoined(a: Bytes, b: Bytes)
    requires SEP !in a
    ensures Cut(a + [SEP] + b) == Some((a, b))
  {
    var s := a + [SEP] + b;
    if a == [] {
      assert s[1..] == b;
    } else {
      assert s[1..] == a[1..] + [SEP] + b;
      CutJoined(a[1..], b);
      assert a == [a[0]] + a[1..];
    }
  }

  /** The pairs canonical bytes list, read left to right after those already read. */
  function Read(s: Bytes, done: Pairs): Option<Pairs>
    decreases |s|
  {
    if s == [] then Some(done)
    else
      var name := Cut(s);
      if name.None? then None
      else
        var value := Cut(name.value.1);
        if value.None? then None
        else Read(value.value.1, done + [(name.value.0, value.value.0)])
  }

  function Parse(s: Bytes): Option<Pairs> {
    Read(s, [])
  }

  function Encode(pairs: Pairs): Bytes {
    if pairs == [] then []
    else pairs[0].0 + [SEP] + pairs[0].1 + [SEP] + Encode(pairs[1..])
  }

  predicate SepFree(pairs: Pairs) {
    forall i :: 0 <= i < |pairs| ==> SEP !in pairs[i].0 && SEP !in pairs[i].1
  }

  /** Reading canonical bytes gives back the pairs they were written from. */
  lemma {:induction false} ReadPair(n: Bytes, v: Bytes, rest: Bytes, done: Pairs)
    requires SEP !in n && SEP !in v
    ensures Read(n + [SEP] + (v + [SEP] + rest), done) == Read(rest, done + [(n, v)])
  {
    CutJoined(n, v + [SEP] + rest);
    CutJoined(v, rest);
    ReadStep(n + [SEP] + (v + [SEP] + rest), (n, v), v + [SEP] + rest, rest, done);
  }

  lemma {:induction false} EncodeFirst(pairs: Pairs)
    requires pairs != []
    ensures Encode(pairs) == pairs[0].0 + [SEP] + (pairs[0].1 + [SEP] + Encode(pairs[1..]))
  {
  }

  lemma {:induction false} ReadFirst(pairs: Pairs, done: Pairs)
    requires pairs != [] && SEP !in pairs[0].0 && SEP !in pairs[0].1
    ensures Read(Encode(pairs), done) == Read(Encode(pairs[1..]), done + [pairs[0]])
  {
    EncodeFirst(pairs);
    hide *;
    ReadPair(pairs[0].0, pairs[0].1, Encode(pairs[1..]), done);
  }

  lemma ReadNone(done: Pairs)
    ensures Read(Encode([]), done) == Some(done)
  {
  }

  lemma {:induction false} ReadEncode(pairs: Pairs, done: Pairs)
    requires SepFree(pairs)
    ensures Read(Encode(pairs), done) == Some(done + pairs)
    decreases |pairs|
  {
    hide Read, Encode;
    if pairs == [] {
      ReadNone(done);
      assert done + pairs == done;
    } else {
      ReadFirst(pairs, done);
      ReadEncode(pairs[1..], done + [pairs[0]]);
      assert done + [pairs[0]] + pairs[1..] == done + pairs;
    }
  }

  lemma EncodePair(pair: (Bytes, Bytes), rest: Pairs)
    ensures Encode([pair] + rest) == pair.0 + [SEP] + pair.1 + [SEP] + Encode(rest)
  {
    assert ([pair] + rest)[1..] == rest;
  }

  /** Every accepted byte sequence is the encoding of what is read from it. */
  lemma {:induction false} EncodeRead(s: Bytes, done: Pairs)
    requires Read(s, done).Some?
    ensures done <= Read(s, done).value
    ensures var pairs := Read(s, done).value[|done|..]; SepFree(pairs) && Encode(pairs) == s
    decreases |s|
  {
    if s != [] {
      hide Cut, Encode;
      var name := Cut(s).value;
      var value := Cut(name.1).value;
      var pair := (name.0, value.0);
      EncodeRead(value.1, done + [pair]);
      var all := Read(s, done).value;
      EncodePair(pair, all[|done| + 1..]);
      assert all[|done|] == (done + [pair])[|done|];
      assert all[|done|..] == [pair] + all[|done| + 1..];
      assert s == pair.0 + [SEP] + (pair.1 + [SEP] + value.1) == pair.0 + [SEP] + pair.1 + [SEP] + value.1;
    }
  }

  /** `parse_canonical_pairs` and `canonical_bytes` are inverse to each other. */
  lemma ParseInverts(pairs: Pairs, s: Bytes)
    ensures SepFree(pairs) ==> Parse(Encode(pairs)) == Some(pairs)
    ensures Parse(s).Some? ==> SepFree(Parse(s).value) && Encode(Parse(s).value) == s
  {
    if SepFree(pairs) {
      ReadEncode(pairs, []);
      assert [] + pairs == pairs;
    }
    if Parse(s).Some? {
      EncodeRead(s, []);
      assert Parse(s).value[0..] == Parse(s).value;
    }
  }

  /** The first index of a separator at or after `from`: `memchr`. */
  method FindSep(s: Bytes, from: nat) returns (r: Option<nat>)
    requires from <= |s|
    ensures match Cut(s[from..])
            case None => r.None?
            case Some((head, tail)) =>
              r.Some? && r.value == from + |head| < |s| && s[from..r.value] == head && s[r.value + 1..] == tail
  {
    var i := from;
    while i < |s| && s[i] != SEP
      invariant from <= i <= |s| && SEP !in s[from..i]
    {
      assert s[from..i + 1] == s[from..i] + [s[i]];
      i := i + 1;
    }
    if i == |s| {
      assert s[from..] == s[from..i];
      return None;
    }
    assert s[from..] == s[from..i] + [SEP] + s[i + 1..];
    CutJoined(s[from..i], s[i + 1..]);
    r := Some(i);
  }

  lemma ReadStep(s: Bytes, pair: (Bytes, Bytes), middle: Bytes, rest: Bytes, done: Pairs)
    requires s != [] && Cut(s) == Some((pair.0, middle)) && Cut(middle) == Some((pair.1, rest))
    ensures Read(s, done) == Read(rest, done + [pair])
  {
  }

  /** Reads the pair at `i` and the place after it. */
  method NextPair(s: Bytes, i: nat, ghost done: Pairs) returns (r: Option<((Bytes, Bytes), nat)>)
    requires i < |s|
    ensures r.None? ==> Read(s[i..], done).None?
    ensures r.Some? ==> i < r.value.1 <= |s| && Read(s[i..], done) == Read(s[r.value.1..], done + [r.value.0])
  {
    var nameEnd := FindSep(s, i);
    if nameEnd.None? {
      return None;
    }
    var start := nameEnd.value + 1;
    var valueEnd := FindSep(s, start);
    if valueEnd.None? {
      return None;
    }
    var pair := (s[i..nameEnd.value], s[start..valueEnd.value]);
    ReadStep(s[i..], pair, s[start..], s[valueEnd.value + 1..], done);
    r := Some((pair, valueEnd.value + 1));
  }

  method ParsePairs(s: Bytes) returns (r: Option<Pairs>)
    ensures r == Parse(s)
  {
    var out: Pairs := [];
    var i := 0;
    assert s[0..] == s;
    while i < |s|
      invariant i <= |s| && Read(s[i..], out) == Parse(s)
    {
      var next := NextPair(s, i, out);
      if next.None? {
        return None;
      }
      out, i := out + [next.value.0], next.value.1;
    }
    assert s[i..] == [];
    r := Some(out);
  }

  method CanonicalBytes(pairs: Pairs) returns (out: Bytes)
    ensures out == Encode(pairs)
  {
    out := [];
    for i := 0 to |pairs|
      invariant out + Encode(pairs[i..]) == Encode(pairs)
    {
      assert pairs[i..][1..] == pairs[i + 1..];
      out := out + pairs[i].0 + [SEP] + pairs[i].1 + [SEP];
    }
  }

  // ---- Matching --------------------------------------------------------------

  datatype Op = Eq | Neq | Re | Nre

  /** A label matcher; `regex` is what its compiled pattern accepts, when it has one. */
  datatype Matcher = Matcher(name: Bytes, op: Op, value: Bytes, regex: Option<Bytes -> bool>)

  /** The value of the first label with this name. */
  function Get(pairs: Pairs, name: Bytes): Option<Bytes> {
    if pairs == [] then None
    else if pairs[0].0 == name then Some(pairs[0].1)
    else Get(pairs[1..], name)
  }

  predicate MatchesOne(pairs: Pairs, m: Matcher) {
    var got := Get(pairs, m.name);
    match m.op
    case Eq => if got.Some? then got.value == m.value else m.value == []
    case Neq => if got.Some? then got.value != m.value else m.value != []
    case _ =>
      m.regex.Some? &&
      var actual := if got.Some? then got.value else [];
      var matched := Utf8(actual) && m.regex.value(actual);
      if m.op.Re? then matched else !matched
  }

  predicate Matches(pairs: Pairs, matchers: seq<Matcher>) {
    forall i :: 0 <= i < |matchers| ==> MatchesOne(pairs, matchers[i])
  }

  method LabelsMatch(pairs: Pairs, matchers: seq<Matcher>) returns (ok: bool)
    ensures ok == Matches(pairs, matchers)
  {
    for i := 0 to |matchers|
      invariant forall k :: 0 <= k < i ==> MatchesOne(pairs, matchers[k])
    {
      if !MatchesOne(pairs, matchers[i]) {
        return false;
      }
    }
    return true;
  }
}
