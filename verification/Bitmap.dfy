/**
 Bitmaps over series ordinals, as metric_postings.rs keeps them in byte vectors: here the
 sequence of their bits, the low bit of the first byte first, a whole number of bytes long.
 */
module Bitmap {
  import opened Prelude
  import opened Text

  type Bits = seq<bool>

  /** Bytes needed for one bit per series. */
  function Width(series: nat): nat {
    (series + 7) / 8
  }

  /** Sized for `series` and without a bit beyond them. */
  predicate Fits(bits: Bits, series: nat) {
    |bits| == 8 * Width(series) && forall i :: series <= i < |bits| ==> !bits[i]
  }

  function Universe(series: nat): (u: Bits)
    ensures Fits(u, series)
  {
    seq(8 * Width(series), i requires 0 <= i < 8 * Width(series) => i < series)
  }

  function Zeros(series: nat): (z: Bits)
    ensures Fits(z, series)
  {
    seq(8 * Width(series), i requires 0 <= i < 8 * Width(series) => false)
  }

  predicate NonZero(bits: Bits) {
    exists i :: 0 <= i < |bits| && bits[i]
  }

  function Or(a: Bits, b: Bits): Bits
    requires |a| == |b|
  {
    seq(|a|, i requires 0 <= i < |a| => a[i] || b[i])
  }

  function And(a: Bits, b: Bits): Bits
    requires |a| == |b|
  {
    seq(|a|, i requires 0 <= i < |a| => a[i] && b[i])
  }

  predicate Meets(a: Bits, b: Bits)
    requires |a| == |b|
  {
    exists i :: 0 <= i < |a| && a[i] && b[i]
  }

  function Population(bits: Bits): nat {
    if bits == [] then 0 else Population(bits[..|bits| - 1]) + (if bits[|bits| - 1] then 1 else 0)
  }

  lemma {:induction false} PopulationZeros(bits: Bits)
    requires forall i :: 0 <= i < |bits| ==> !bits[i]
    ensures Population(bits) == 0
  {
    if bits != [] { PopulationZeros(bits[..|bits| - 1]); }
  }

  lemma {:induction false} PopulationSet(bits: Bits, i: nat)
    requires i < |bits|
    ensures Population(bits[i := true]) <= Population(bits) + 1
    decreases |bits|
  {
    var n := |bits| - 1;
    if i == n {
      assert bits[i := true][..n] == bits[..n];
    } else {
      assert bits[i := true][..n] == bits[..n][i := true];
      PopulationSet(bits[..n], i);
    }
  }

  // ---- Bytes -----------------------------------------------------------------

  function Pow2(n: nat): nat {
    if n == 0 then 1 else 2 * Pow2(n - 1)
  }

  /** The number whose binary digits, low first, are `b`. */
  function Number(b: Bits): (x: nat)
    ensures x < Pow2(|b|)
  {
    if b == [] then 0 else (if b[0] then 1 else 0) + 2 * Number(b[1..])
  }

  function Digits(x: nat, n: nat): (b: Bits)
    ensures |b| == n
    decreases n, x
  {
    if n == 0 then [] else [x % 2 == 1] + Digits(x / 2, n - 1)
  }

  lemma {:induction false} DigitsOfNumber(b: Bits)
    ensures Digits(Number(b), |b|) == b
  {
    if b != [] {
      DigitsOfNumber(b[1..]);
      assert Number(b) / 2 == Number(b[1..]);
    }
  }

  lemma {:induction false} NumberOfDigits(x: nat, n: nat)
    requires x < Pow2(n)
    ensures Number(Digits(x, n)) == x
    decreases n
  {
    if n > 0 {
      NumberOfDigits(x / 2, n - 1);
      assert Digits(x, n)[1..] == Digits(x / 2, n - 1);
    }
  }

  function PackByte(b: Bits): byte
    requires |b| == 8
  {
    assert Pow2(8) == 256;
    Number(b)
  }

  function UnpackByte(x: byte): (b: Bits)
    ensures |b| == 8
  {
    Digits(x, 8)
  }

  function Pack(bits: Bits): Bytes
    requires |bits| % 8 == 0
  {
    if bits == [] then [] else [PackByte(bits[..8])] + Pack(bits[8..])
  }

  function Unpack(s: Bytes): (bits: Bits)
    ensures |bits| == 8 * |s|
  {
    if s == [] then [] else UnpackByte(s[0]) + Unpack(s[1..])
  }

  lemma {:induction false} PackInverts(bits: Bits)
    requires |bits| % 8 == 0
    ensures 8 * |Pack(bits)| == |bits| && Unpack(Pack(bits)) == bits
    decreases |bits|
  {
    if bits != [] {
      PackInverts(bits[8..]);
      DigitsOfNumber(bits[..8]);
      assert Pack(bits)[1..] == Pack(bits[8..]);
    }
  }

  lemma {:induction false} UnpackInverts(s: Bytes)
    ensures Pack(Unpack(s)) == s
    decreases |s|
  {
    if s != [] {
      UnpackInverts(s[1..]);
      assert Pow2(8) == 256;
      NumberOfDigits(s[0], 8);
      assert Unpack(s)[..8] == UnpackByte(s[0]) && Unpack(s)[8..] == Unpack(s[1..]);
    }
  }
}
