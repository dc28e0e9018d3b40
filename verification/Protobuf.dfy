/** Reading protobuf records (`otlp_traces.rs`, `Reader` and `packed_varints`). */
module Protobuf {
  import opened Prelude
  import opened Text
  import opened Wire

  datatype Value = Number(n: nat) | Data(bytes: Bytes)

  datatype Record = Record(number: nat, wire: nat, value: Value)

  // ---- What a record is ------------------------------------------------------

  /** A varint of at most ten bytes whose value fits 64 bits. */
  function Varint(s: Bytes): Option<(nat, Bytes)> {
    var (v, rest) :- GetLong(s, 0);
    if v < TWO_64 then Some((v, rest)) else None
  }

  function Take(s: Bytes, n: nat): Option<(Bytes, Bytes)> {
    if n <= |s| then Some((s[..n], s[n..])) else None
  }

  /** The value after a key, by wire type. */
  function ValueOf(wire: nat, s: Bytes): Option<(Value, Bytes)> {
    if wire == 0 then
      var (n, rest) :- Varint(s);
      Some((Number(n), rest))
    else if wire == 1 then
      var (word, rest) :- Take(s, 8);
      Some((Number(WordOf(word)), rest))
    else if wire == 2 then
      var (n, rest) :- Varint(s);
      var (data, after) :- Take(rest, n);
      Some((Data(data), after))
    else if wire == 5 then
      var (word, rest) :- Take(s, 4);
      Some((Number(WordOf(word)), rest))
    else None
  }

  predicate GoodKey(key: nat) {
    1 <= key / 8 <= 0x1fff_ffff
  }

  function Next(s: Bytes): Option<(Record, Bytes)> {
    var (key, rest) :- Varint(s);
    if !GoodKey(key) then None
    else
      var (value, after) :- ValueOf(key % 8, rest);
      Some((Record(key / 8, key % 8, value), after))
  }

  // ---- Reading makes progress, and is stable ---------------------------------

  lemma {:induction false} LongShorter(s: Bytes, k: nat)
    requires k <= 10 && GetLong(s, k).Some?
    ensures |GetLong(s, k).value.1| < |s|
    decreases 10 - k
  {
    if s[0] >= 128 { LongShorter(s[1..], k + 1); }
  }

  lemma VarintShorter(s: Bytes)
    ensures Varint(s).Some? ==> |Varint(s).value.1| < |s|
  {
    hide GetLong;
    if GetLong(s, 0).Some? { LongShorter(s, 0); }
  }

  /** Reading a record leaves less, and nested data is shorter than what holds it. */
  lemma NextShorter(s: Bytes)
    requires Next(s).Some?
    ensures |Next(s).value.1| < |s|
    ensures Next(s).value.0.value.Data? ==> |Next(s).value.0.value.bytes| < |s|
  {
    hide GetLong;
    LongShorter(s, 0);
    var (key, rest) := Varint(s).value;
    if key % 8 == 0 || key % 8 == 2 { LongShorter(rest, 0); }
  }

  lemma TakeStable(s: Bytes, t: Bytes, n: nat)
    requires Take(s, n).Some?
    ensures Take(s + t, n) == Some((Take(s, n).value.0, Take(s, n).value.1 + t))
  {
    assert (s + t)[..n] == s[..n] && (s + t)[n..] == s[n..] + t;
  }

  lemma VarintKeeps(s: Bytes, t: Bytes)
    requires Varint(s).Some?
    ensures Varint(s + t) == Some((Varint(s).value.0, Varint(s).value.1 + t))
  {
    hide GetLong;
    LongStable(s, t, 0);
  }

  lemma ValueKeeps(wire: nat, s: Bytes, t: Bytes)
    requires ValueOf(wire, s).Some?
    ensures ValueOf(wire, s + t) == Some((ValueOf(wire, s).value.0, ValueOf(wire, s).value.1 + t))
  {
    hide Varint, Take, WordOf;
    if wire == 0 {
      VarintKeeps(s, t);
    } else if wire == 1 {
      TakeStable(s, t, 8);
    } else if wire == 2 {
      VarintKeeps(s, t);
      var (n, rest) := Varint(s).value;
      TakeStable(rest, t, n);
    } else {
      TakeStable(s, t, 4);
    }
  }

  lemma NextKeeps(s: Bytes, t: Bytes)
    requires Next(s).Some?
    ensures Next(s + t) == Some((Next(s).value.0, Next(s).value.1 + t))
  {
    hide Varint, ValueOf;
    VarintKeeps(s, t);
    var (key, rest) := Varint(s).value;
    ValueKeeps(key % 8, rest, t);
  }

  // ---- Packed numbers --------------------------------------------------------

  /** The varints of a packed field, each of at most ten bytes. */
  function PackedCount(s: Bytes, length: nat): Option<nat>
    decreases |s|
  {
    if s == [] then (if length == 0 then Some(0) else None)
    else if length + 1 > 10 then None
    else if s[0] < 128 then
      var n :- PackedCount(s[1..], 0);
      Some(n + 1)
    else PackedCount(s[1..], length + 1)
  }

  function PackedNumbers(s: Bytes): Option<seq<nat>>
    decreases |s|
  {
    if s == [] then Some([])
    else if Varint(s).None? then None
    else
      LongShorter(s, 0);
      var (n, rest) := Varint(s).value;
      var more :- PackedNumbers(rest);
      Some([n] + more)
  }

  function Words(s: Bytes): seq<nat>
    decreases |s|
  {
    if |s| < 8 then [] else [WordOf(s[..8])] + Words(s[8..])
  }

  lemma {:induction false} CountStep(s: Bytes, k: nat)
    requires k < 10 && GetLong(s, k).Some?
    ensures PackedCount(s, k) == match PackedCount(GetLong(s, k).value.1, 0)
                                 case None => None
                                 case Some(n) => Some(n + 1)
    decreases 10 - k
  {
    if s[0] >= 128 { CountStep(s[1..], k + 1); }
  }

  /** What the first pass counts is what the second pass reads. */
  lemma {:induction false} PackedLength(s: Bytes)
    requires PackedNumbers(s).Some?
    ensures PackedCount(s, 0) == Some(|PackedNumbers(s).value|)
    decreases |s|
  {
    if s != [] {
      LongShorter(s, 0);
      CountStep(s, 0);
      PackedLength(Varint(s).value.1);
    }
  }

  lemma {:induction false} WordsLength(s: Bytes)
    ensures |Words(s)| == |s| / 8
    decreases |s|
  {
    if |s| >= 8 { WordsLength(s[8..]); }
  }

  /** `packed_varints`. */
  method CountVarints(s: Bytes) returns (r: Option<nat>)
    ensures r == PackedCount(s, 0)
  {
    var count, length, i := 0, 0, 0;
    while i < |s|
      invariant i <= |s| && length <= 10
      invariant PackedCount(s, 0) == match PackedCount(s[i..], length)
                                     case None => None
                                     case Some(n) => Some(count + n)
    {
      assert s[i..][1..] == s[i + 1..];
      length := length + 1;
      if length > 10 {
        return None;
      }
      if s[i] < 128 {
        count, length := count + 1, 0;
      }
      i := i + 1;
    }
    assert s[i..] == [];
    r := if length == 0 then Some(count) else None;
  }

  // ---- The reader ------------------------------------------------------------

  class Reader {
    const bytes: Bytes
    var pos: nat

    constructor (bytes: Bytes)
      ensures this.bytes == bytes && pos == 0 && Valid() && Rest() == bytes
    {
      this.bytes, pos := bytes, 0;
    }

    ghost predicate Valid()
      reads this
    {
      pos <= |bytes|
    }

    /** What is left to read. */
    ghost function Rest(): Bytes
      requires Valid()
      reads this
    {
      bytes[pos..]
    }

    method TakeBytes(n: nat) returns (r: Option<Bytes>)
      requires Valid()
      modifies this
      ensures Valid()
      ensures match Take(old(Rest()), n)
              case None => r.None?
              case Some((data, rest)) => r == Some(data) && Rest() == rest
    {
      if pos + n > |bytes| {
        return None;
      }
      r := Some(bytes[pos..pos + n]);
      assert bytes[pos..][..n] == bytes[pos..pos + n] && bytes[pos..][n..] == bytes[pos + n..];
      pos := pos + n;
    }

    method TakeVarint() returns (r: Option<nat>)
      requires Valid()
      modifies this
      ensures Valid()
      ensures match Varint(old(Rest()))
              case None => r.None?
              case Some((n, rest)) => r == Some(n) && Rest() == rest
    {
      hide Pow128, GetLong, Pending, Grown;
      ghost var whole := GetLong(Rest(), 0);
      FirstGroup(whole);
      var v: nat := 0;
      for k := 0 to 10
        invariant Valid() && v < Pow128(k)
        invariant Pending(whole, v, k, GetLong(Rest(), k))
      {
        LongStep(Rest(), k);
        NoGroup(whole, v, k);
        if pos == |bytes| {
          return None;
        }
        var b := bytes[pos];
        assert bytes[pos..][0] == b && bytes[pos..][1..] == bytes[pos + 1..];
        if b < 128 { LastGroup(whole, v, b, k, bytes[pos + 1..]); }
        if k == 9 && b > 1 {
          return None;
        }
        pos := pos + 1;
        if b < 128 {
          return Some(Grown(v, b, k));
        }
        MiddleGroup(whole, v, b, k, GetLong(Rest(), k + 1));
        v := Grown(v, b - 128, k);
      }
      LongStep(Rest(), 10);
      NoGroup(whole, v, 10);
      return None;
    }

    method TakeValue(wire: nat) returns (r: Option<Value>)
      requires Valid()
      modifies this
      ensures Valid()
      ensures match ValueOf(wire, old(Rest()))
              case None => r.None?
              case Some((value, rest)) => r == Some(value) && Rest() == rest
    {
      hide Varint, Take, WordOf;
      if wire == 0 {
        var n := TakeVarint();
        return if n.None? then None else Some(Number(n.value));
      } else if wire == 1 {
        var word := TakeBytes(8);
        return if word.None? then None else Some(Number(WordOf(word.value)));
      } else if wire == 2 {
        var n := TakeVarint();
        if n.None? {
          return None;
        }
        var data := TakeBytes(n.value);
        return if data.None? then None else Some(Data(data.value));
      } else if wire == 5 {
        var word := TakeBytes(4);
        return if word.None? then None else Some(Number(WordOf(word.value)));
      }
      return None;
    }

    /** The next record, when there is one left. */
    method TakeNext() returns (r: Option<Record>)
      requires Valid()
      modifies this
      ensures Valid()
      ensures match Next(old(Rest()))
              case None => r.None?
              case Some((record, rest)) => r == Some(record) && Rest() == rest
    {
      hide Varint, ValueOf;
      var key := TakeVarint();
      if key.None? || !GoodKey(key.value) {
        return None;
      }
      var value := TakeValue(key.value % 8);
      if value.None? {
        return None;
      }
      r := Some(Record(key.value / 8, key.value % 8, value.value));
    }
  }

  /** `v` with the next seven bits put in place. */
  function Grown(v: nat, bits: nat, k: nat): nat {
    v + Pow128(k) * bits
  }

  lemma FirstGroup(whole: Option<(nat, Bytes)>)
    ensures Pending(whole, 0, 0, whole) && Pow128(0) > 0
  {
  }

  lemma NoGroup(whole: Option<(nat, Bytes)>, v: nat, k: nat)
    ensures Pending(whole, v, k, None) ==> whole.None?
  {
  }

  lemma LongStep(s: Bytes, k: nat)
    requires k <= 10
    ensures s == [] || k == 10 ==> GetLong(s, k).None?
    ensures k < 10 && s != [] && s[0] < 128 ==> GetLong(s, k) == Some((s[0], s[1..]))
    ensures s != [] && s[0] >= 128 && k == 9 ==> GetLong(s, k).None?
    ensures k < 10 && s != [] && s[0] >= 128 ==>
              var r := GetLong(s[1..], k + 1);
              GetLong(s, k) == if r.None? then None else Some((s[0] - 128 + 128 * r.value.0, r.value.1))
  {
  }

  lemma TooWide(v: nat, b: byte)
    requires b > 1
    ensures v + Pow128(9) * b >= TWO_64
  {
    Pow128Facts();
    MulMono(2, b, Pow128(9));
  }

  lemma Fits(v: nat, b: byte, k: nat)
    requires k < 10 && v < Pow128(k) && b < 128 && (k == 9 ==> b <= 1)
    ensures v + Pow128(k) * b < TWO_64
  {
    Pow128Facts();
    if k < 9 {
      MulMono(b, 127, Pow128(k));
      PowMono(k + 1, 9);
    } else {
      MulMono(b, 1, Pow128(9));
    }
  }

  lemma LastGroup(whole: Option<(nat, Bytes)>, v: nat, b: byte, k: nat, rest: Bytes)
    requires k < 10 && v < Pow128(k) && b < 128 && Pending(whole, v, k, Some((b, rest)))
    ensures whole == Some((Grown(v, b, k), rest))
    ensures Grown(v, b, k) < TWO_64 <==> !(k == 9 && b > 1)
  {
    hide Pow128;
    if k == 9 && b > 1 {
      TooWide(v, b);
    } else {
      Fits(v, b, k);
    }
  }

  lemma MiddleGroup(whole: Option<(nat, Bytes)>, v: nat, b: byte, k: nat, tail: Option<(nat, Bytes)>)
    requires v < Pow128(k) && b >= 128
    requires Pending(whole, v, k, if tail.None? then None else Some((b - 128 + 128 * tail.value.0, tail.value.1)))
    ensures Grown(v, b - 128, k) < Pow128(k + 1)
    ensures Pending(whole, Grown(v, b - 128, k), k + 1, tail)
  {
    MulMono(b - 128, 127, Pow128(k));
    if tail.Some? { Regroup(Pow128(k), b - 128, tail.value.0); }
  }
}
