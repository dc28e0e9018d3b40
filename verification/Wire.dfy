/**
 Stored integers: base-128 varints, zigzag, and fixed-width little-endian words, as
 native_histogram.rs and exemplar.rs write and read them. A reader takes what is left of a
 buffer and answers a value and what is left after it.
 */
module Wire {
  import opened Prelude
  import opened Text

  const TWO_32 := 0x1_0000_0000
  const TWO_63 := 0x8000_0000_0000_0000
  const TWO_64 := 0x1_0000_0000_0000_0000

  type U32 = x: int | 0 <= x < TWO_32
  type I32 = x: int | -0x8000_0000 <= x < 0x8000_0000
  type U64 = x: int | 0 <= x < TWO_64
  type I64 = x: int | -TWO_63 <= x < TWO_63

  /** A writer and a reader of one kind of value. */
  datatype Codec<!T> = Codec(put: T -> Bytes, get: Bytes -> Option<(T, Bytes)>)

  /** Reading what was written gives the value back and leaves what follows. */
  ghost predicate RoundTrips<T(!new)>(c: Codec<T>, ok: T -> bool) {
    forall x, rest {:trigger c.get(c.put(x) + rest)} :: ok(x) ==> c.get(c.put(x) + rest) == Some((x, rest))
  }

  /** What can be read can be read the same way when more bytes follow. */
  ghost predicate Stable<T(!new)>(c: Codec<T>) {
    forall s, t {:trigger c.get(s + t)} :: c.get(s).Some? ==>
      c.get(s + t) == Some((c.get(s).value.0, c.get(s).value.1 + t))
  }

  /** What was read is exactly what writing the value produces. */
  ghost predicate Faithful<T(!new)>(c: Codec<T>) {
    forall s {:trigger c.get(s)} :: c.get(s).Some? ==> s == c.put(c.get(s).value.0) + c.get(s).value.1
  }

  // ---- Varints ---------------------------------------------------------------

  function Pow128(k: nat): (p: nat)
    ensures p >= 1
  {
    if k == 0 then 1 else 128 * Pow128(k - 1)
  }

  function PutVarint(v: nat): Bytes
    decreases v
  {
    if v < 128 then [v] else [v % 128 + 128] + PutVarint(v / 128)
  }

  /** The exact value of a varint of at most ten bytes, `k` of which have been read. */
  function GetLong(s: Bytes, k: nat): Option<(nat, Bytes)>
    requires k <= 10
    decreases 10 - k, |s|
  {
    if k == 10 || s == [] then None
    else if s[0] < 128 then Some((s[0], s[1..]))
    else
      var r := GetLong(s[1..], k + 1);
      if r.None? then None else Some((s[0] - 128 + 128 * r.value.0, r.value.1))
  }

  /** A varint truncated to 64 bits, as shifting its groups into a 64-bit word does. */
  function GetVarint(s: Bytes): Option<(U64, Bytes)> {
    var (v, rest) :- GetLong(s, 0);
    Some((v % TWO_64, rest))
  }

  lemma {:induction false} LongRoundTrip(v: nat, rest: Bytes, k: nat)
    requires k < 10 && v < Pow128(10 - k)
    ensures GetLong(PutVarint(v) + rest, k) == Some((v, rest))
    decreases v
  {
    if v < 128 {
      assert (PutVarint(v) + rest)[1..] == rest;
    } else {
      assert v / 128 < Pow128(10 - k - 1);
      assert (PutVarint(v) + rest)[1..] == PutVarint(v / 128) + rest;
      LongRoundTrip(v / 128, rest, k + 1);
    }
  }

  lemma {:induction false} LongStable(s: Bytes, t: Bytes, k: nat)
    requires k <= 10 && GetLong(s, k).Some?
    ensures GetLong(s + t, k) == Some((GetLong(s, k).value.0, GetLong(s, k).value.1 + t))
    decreases 10 - k
  {
    assert (s + t)[1..] == s[1..] + t;
    if s[0] >= 128 { LongStable(s[1..], t, k + 1); }
  }

  lemma Pow128Facts()
    ensures Pow128(9) == TWO_63 && Pow128(10) > TWO_64
  {
    assert Pow128(3) == 0x20_0000;
    assert Pow128(6) == 128 * (128 * (128 * Pow128(3)));
    assert Pow128(9) == 128 * (128 * (128 * Pow128(6)));
  }

  lemma VarintRoundTrip(v: U64, rest: Bytes)
    ensures GetVarint(PutVarint(v) + rest) == Some((v, rest))
  {
    hide Pow128, GetLong, PutVarint;
    Pow128Facts();
    LongRoundTrip(v, rest, 0);
  }

  lemma VarintStable(s: Bytes, t: Bytes)
    requires GetVarint(s).Some?
    ensures GetVarint(s + t) == Some((GetVarint(s).value.0, GetVarint(s).value.1 + t))
  {
    LongStable(s, t, 0);
  }

  /** `put_varint`. */
  method AppendVarint(out: Bytes, v: U64) returns (more: Bytes)
    ensures more == out + PutVarint(v)
  {
    more := out;
    var rest: nat := v;
    while rest >= 128
      invariant more + PutVarint(rest) == out + PutVarint(v)
    {
      more := more + [rest % 128 + 128];
      rest := rest / 128;
    }
    more := more + [rest];
  }

  /** What `out`, accumulated from `k` groups, and the rest of the varint amount to. */
  ghost predicate Pending(whole: Option<(nat, Bytes)>, out: nat, k: nat, tail: Option<(nat, Bytes)>) {
    match tail
    case None => whole.None?
    case Some((v, rest)) => whole == Some((out + Pow128(k) * v, rest))
  }

  /** One byte's seven bits put in place: what the loop below adds to `out`. */
  method Absorb(out: nat, b: byte, k: nat, ghost whole: Option<(nat, Bytes)>, ghost tail: Option<(nat, Bytes)>)
    returns (sum: nat)
    requires k < 10 && out < Pow128(k)
    ensures b < 128 ==> sum == (out + Pow128(k) * b) % TWO_64
    ensures b >= 128 && k < 9
            && Pending(whole, out, k,
                       if tail.None? then None else Some((b - 128 + 128 * tail.value.0, tail.value.1))) ==>
              sum < Pow128(k + 1) && Pending(whole, sum, k + 1, tail)
  {
    sum := out + (b % 128) * Pow128(k) % TWO_64;
    if b < 128 {
      Truncate(out, b, k);
    } else if k < 9
              && Pending(whole, out, k,
                         if tail.None? then None else Some((b - 128 + 128 * tail.value.0, tail.value.1))) {
      Accumulate(whole, out, b, k, tail);
    }
  }

  /** `varint`: groups of seven bits shifted into a 64-bit word, from `pos` on. */
  method ReadVarint(buf: Bytes, pos: nat) returns (r: Option<(U64, nat)>)
    requires pos <= |buf|
    ensures match GetVarint(buf[pos..])
            case None => r.None?
            case Some((v, rest)) => r.Some? && r.value.0 == v && pos < r.value.1 <= |buf| && rest == buf[r.value.1..]
  {
    ghost var whole := GetLong(buf[pos..], 0);
    var out: nat := 0;
    var p := pos;
    for k := 0 to 10
      invariant pos <= p <= |buf| && out < Pow128(k)
      invariant Pending(whole, out, k, GetLong(buf[p..], k))
    {
      if p == |buf| {
        return None;
      }
      var b := buf[p];
      assert buf[p..][0] == b && buf[p..][1..] == buf[p + 1..];
      p := p + 1;
      out := Absorb(out, b, k, whole, GetLong(buf[p..], k + 1));
      if b < 128 {
        return Some((out, p));
      }
      if k == 9 {
        return None;
      }
    }
    return None;
  }

  lemma {:induction false} PowMono(a: nat, b: nat)
    requires a <= b
    ensures Pow128(a) <= Pow128(b)
    decreases b
  {
    if a < b { PowMono(a, b - 1); }
  }

  lemma MulMono(a: nat, b: nat, p: nat)
    requires a <= b
    ensures a * p <= b * p
  {
  }

  lemma Untruncated(b: byte, k: nat)
    requires k < 9
    ensures (b % 128) * Pow128(k) % TWO_64 == (b % 128) * Pow128(k) <= 127 * Pow128(k) < TWO_63
  {
    GroupBound(k);
    hide Pow128;
    MulMono(b % 128, 127, Pow128(k));
    WordRemainder(0, (b % 128) * Pow128(k));
  }

  lemma GroupBound(k: nat)
    requires k < 9
    ensures 127 * Pow128(k) < TWO_63
  {
    Pow128Facts();
    PowMono(k + 1, 9);
    assert Pow128(k + 1) == 128 * Pow128(k);
    hide Pow128;
  }

  lemma WordRemainder(q: nat, y: nat)
    requires y < TWO_64
    ensures (q * TWO_64 + y) % TWO_64 == y
  {
  }

  /** The last group loses only bits above the word. */
  lemma Truncate(out: nat, b: byte, k: nat)
    requires k < 10 && out < Pow128(k) && b < 128
    ensures out + (b % 128) * Pow128(k) % TWO_64 == (out + Pow128(k) * b) % TWO_64
  {
    Pow128Facts();
    hide Pow128;
    if k < 9 {
      GroupBound(k);
      LowGroup(out, b, Pow128(k));
    } else {
      TopGroup(out, b, Pow128(k));
    }
  }

  lemma LowGroup(out: nat, b: byte, p: nat)
    requires out < p && 127 * p < TWO_63 && b < 128
    ensures out + (b % 128) * p % TWO_64 == (out + p * b) % TWO_64
  {
    MulMono(b, 127, p);
    WordRemainder(0, b * p);
    WordRemainder(0, out + b * p);
    assert p * b == b * p;
  }

  lemma TopGroup(out: nat, b: byte, p: nat)
    requires out < p == TWO_63 && b < 128
    ensures out + (b % 128) * p % TWO_64 == (out + p * b) % TWO_64
  {
    assert b * TWO_63 == (b / 2) * TWO_64 + (b % 2) * TWO_63;
    WordRemainder(b / 2, (b % 2) * TWO_63);
    WordRemainder(b / 2, out + (b % 2) * TWO_63);
  }

  lemma Regroup(p: int, c: int, v: int)
    ensures p * (c + 128 * v) == c * p + (128 * p) * v
  {
    assert p * (c + 128 * v) == p * c + p * (128 * v);
    assert p * (128 * v) == (128 * p) * v;
  }

  lemma Accumulate(whole: Option<(nat, Bytes)>, out: nat, b: byte, k: nat, tail: Option<(nat, Bytes)>)
    requires k < 9 && out < Pow128(k) && b >= 128
    requires Pending(whole, out, k, if tail.None? then None else Some((b - 128 + 128 * tail.value.0, tail.value.1)))
    ensures var bits := (b % 128) * Pow128(k) % TWO_64;
            out + bits < Pow128(k + 1) && Pending(whole, out + bits, k + 1, tail)
  {
    Untruncated(b, k);
    assert b % 128 == b - 128;
    if tail.Some? { Regroup(Pow128(k), b - 128, tail.value.0); }
  }

  // ---- Zigzag ----------------------------------------------------------------

  function Zigzag(v: int): nat {
    if v >= 0 then 2 * v else -2 * v - 1
  }

  function Unzigzag(n: nat): int {
    if n % 2 == 0 then n / 2 else -(n / 2) - 1
  }

  lemma ZigzagInverts(v: int, n: nat)
    ensures Unzigzag(Zigzag(v)) == v && Zigzag(Unzigzag(n)) == n
    ensures -TWO_63 <= v < TWO_63 <==> Zigzag(v) < TWO_64
  {
  }

  // ---- Little-endian words ---------------------------------------------------

  function PutWord(v: nat, width: nat): Bytes {
    if width == 0 then [] else [v % 256] + PutWord(v / 256, width - 1)
  }

  function WordOf(s: Bytes): nat {
    if s == [] then 0 else s[0] + 256 * WordOf(s[1..])
  }

  function Pow256(k: nat): nat {
    if k == 0 then 1 else 256 * Pow256(k - 1)
  }

  lemma {:induction false} WordRoundTrip(v: nat, width: nat)
    requires v < Pow256(width)
    ensures |PutWord(v, width)| == width && WordOf(PutWord(v, width)) == v
    decreases width
  {
    if width > 0 {
      assert v / 256 < Pow256(width - 1);
      WordRoundTrip(v / 256, width - 1);
      assert PutWord(v, width)[1..] == PutWord(v / 256, width - 1);
    }
  }

  lemma {:induction false} WordBound(s: Bytes)
    ensures WordOf(s) < Pow256(|s|)
  {
    if s != [] { WordBound(s[1..]); }
  }

  lemma {:induction false} WordFaithful(s: Bytes)
    ensures PutWord(WordOf(s), |s|) == s
  {
    if s != [] {
      WordFaithful(s[1..]);
      assert WordOf(s) / 256 == WordOf(s[1..]) && WordOf(s) % 256 == s[0];
    }
  }

  function GetWord(s: Bytes, width: nat): (r: Option<(nat, Bytes)>)
    ensures r.Some? ==> r.value.0 < Pow256(width)
  {
    if |s| < width then None
    else
      WordBound(s[..width]);
      Some((WordOf(s[..width]), s[width..]))
  }

  /** A little-endian word of `width` octets. */
  function Word(width: nat): Codec<nat> {
    Codec(v => PutWord(v, width), s => GetWord(s, width))
  }

  lemma WordLaws(width: nat)
    ensures RoundTrips(Word(width), v => v < Pow256(width)) && Faithful(Word(width))
  {
    forall v: nat, rest: Bytes | v < Pow256(width) ensures GetWord(PutWord(v, width) + rest, width) == Some((v, rest)) {
      WordRoundTrip(v, width);
      assert (PutWord(v, width) + rest)[..width] == PutWord(v, width) && (PutWord(v, width) + rest)[width..] == rest;
    }
    forall s | GetWord(s, width).Some?
      ensures s == PutWord(GetWord(s, width).value.0, width) + GetWord(s, width).value.1
    {
      WordFaithful(s[..width]);
      assert s == s[..width] + s[width..];
    }
  }

  /** Eight octets as a 64-bit word. */
  function GetWord64(s: Bytes): (r: Option<(U64, Bytes)>) {
    if |s| < 8 then None
    else
      WordBound(s[..8]);
      Some((WordOf(s[..8]), s[8..]))
  }

  function PutWord64(v: U64): Bytes {
    PutWord(v, 8)
  }

  lemma Word64Laws()
    ensures RoundTrips(Codec(PutWord64, GetWord64), (v: U64) => true)
    ensures Stable(Codec(PutWord64, GetWord64))
  {
    forall v: U64, rest: Bytes
      ensures GetWord64(PutWord64(v) + rest) == Some((v, rest))
    {
      WordRoundTrip(v, 8);
      assert (PutWord64(v) + rest)[..8] == PutWord64(v) && (PutWord64(v) + rest)[8..] == rest;
    }
    forall s, t: Bytes | GetWord64(s).Some?
      ensures GetWord64(s + t) == Some((GetWord64(s).value.0, GetWord64(s).value.1 + t))
    {
      assert (s + t)[..8] == s[..8] && (s + t)[8..] == s[8..] + t;
    }
  }

  // ---- Repeated values -------------------------------------------------------

  function PutAll<T>(c: Codec<T>, xs: seq<T>): Bytes {
    if xs == [] then [] else c.put(xs[0]) + PutAll(c, xs[1..])
  }

  function GetN<T>(c: Codec<T>, s: Bytes, n: nat, done: seq<T>): (r: Option<(seq<T>, Bytes)>)
    ensures r.Some? ==> |r.value.0| == |done| + n
    decreases n, |s|
  {
    if n == 0 then Some((done, s))
    else
      var (x, rest) :- c.get(s);
      GetN(c, rest, n - 1, done + [x])
  }

  lemma {:induction false} GetNRoundTrip<T(!new)>(c: Codec<T>, ok: T -> bool, xs: seq<T>, rest: Bytes, done: seq<T>)
    requires RoundTrips(c, ok) && forall i :: 0 <= i < |xs| ==> ok(xs[i])
    ensures GetN(c, PutAll(c, xs) + rest, |xs|, done) == Some((done + xs, rest))
    decreases |xs|
  {
    if xs == [] {
      assert PutAll(c, xs) + rest == rest && done + xs == done;
    } else {
      assert PutAll(c, xs) + rest == c.put(xs[0]) + (PutAll(c, xs[1..]) + rest);
      GetNRoundTrip(c, ok, xs[1..], rest, done + [xs[0]]);
      assert done + [xs[0]] + xs[1..] == done + xs;
    }
  }

  lemma {:induction false} GetNStable<T(!new)>(c: Codec<T>, s: Bytes, t: Bytes, n: nat, done: seq<T>)
    requires Stable(c) && GetN(c, s, n, done).Some?
    ensures GetN(c, s + t, n, done) == Some((GetN(c, s, n, done).value.0, GetN(c, s, n, done).value.1 + t))
    decreases n
  {
    if n > 0 {
      var (x, rest) := c.get(s).value;
      GetNStable(c, rest, t, n - 1, done + [x]);
    }
  }

  lemma {:induction false} GetNFaithful<T(!new)>(c: Codec<T>, s: Bytes, n: nat, done: seq<T>)
    requires Faithful(c) && GetN(c, s, n, done).Some?
    ensures var (all, rest) := GetN(c, s, n, done).value;
            done <= all && s == PutAll(c, all[|done|..]) + rest
    decreases n
  {
    if n > 0 {
      var (x, tail) := c.get(s).value;
      GetNFaithful(c, tail, n - 1, done + [x]);
      var (all, rest) := GetN(c, s, n, done).value;
      var xs := all[|done|..];
      assert xs[0] == (done + [x])[|done|] == x && xs[1..] == all[|done| + 1..];
      assert s == c.put(x) + (PutAll(c, xs[1..]) + rest);
    }
  }

  /** A count and that many values; a count above `limit` is rejected. */
  function GetList<T>(c: Codec<T>, s: Bytes, limit: nat): Option<(seq<T>, Bytes)> {
    var (n, rest) :- GetVarint(s);
    if n > limit then None else GetN(c, rest, n, [])
  }

  function PutList<T>(c: Codec<T>, xs: seq<T>): Bytes {
    PutVarint(|xs|) + PutAll(c, xs)
  }

  lemma ListRoundTrip<T(!new)>(c: Codec<T>, ok: T -> bool, xs: seq<T>, rest: Bytes, limit: nat)
    requires RoundTrips(c, ok) && (forall i :: 0 <= i < |xs| ==> ok(xs[i])) && |xs| <= limit && |xs| < TWO_64
    ensures GetList(c, PutList(c, xs) + rest, limit) == Some((xs, rest))
  {
    VarintRoundTrip(|xs|, PutAll(c, xs) + rest);
    assert PutList(c, xs) + rest == PutVarint(|xs|) + (PutAll(c, xs) + rest);
    GetNRoundTrip(c, ok, xs, rest, []);
    assert [] + xs == xs;
  }

  lemma ListStable<T(!new)>(c: Codec<T>, s: Bytes, t: Bytes, limit: nat, more: nat)
    requires Stable(c) && GetList(c, s, limit).Some? && limit <= more
    ensures GetList(c, s + t, more) == Some((GetList(c, s, limit).value.0, GetList(c, s, limit).value.1 + t))
  {
    VarintStable(s, t);
    var (n, rest) := GetVarint(s).value;
    GetNStable(c, rest, t, n, []);
  }
}
