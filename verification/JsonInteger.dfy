/**
 Exact integers from JSON number lexemes: `integer` of otlp_json_integer.rs. The lexer has
 already checked the grammar of section 6 of RFC 8259, so every input is the text of a lexeme.
 */
module JsonInteger {
  import opened Prelude

  const I64_MIN := -0x8000_0000_0000_0000
  const I64_MAX := 0x7fff_ffff_ffff_ffff
  const U64_MAX := 0xffff_ffff_ffff_ffff

  datatype Number = Int(value: int) | UInt(value: int)

  // ---- Lexemes and their values ----------------------------------------------

  predicate Digit(c: char) {
    '0' <= c <= '9'
  }

  predicate AllDigits(s: string) {
    forall i :: 0 <= i < |s| ==> Digit(s[i])
  }

  datatype Exponent = Exponent(mark: char, sign: string, digits: string)

  /** `[-] whole [. fraction] [e [sign] digits]`; an absent fraction is empty. */
  datatype Lexeme = Lexeme(negative: bool, whole: string, fraction: string, exponent: Option<Exponent>)

  predicate Valid(l: Lexeme) {
    && |l.whole| > 0 && AllDigits(l.whole) && (l.whole[0] == '0' ==> |l.whole| == 1)
    && AllDigits(l.fraction)
    && match l.exponent
       case None => true
       case Some(e) =>
         && (e.mark == 'e' || e.mark == 'E') && (e.sign == "" || e.sign == "+" || e.sign == "-")
         && |e.digits| > 0 && AllDigits(e.digits)
  }

  function Mantissa(l: Lexeme): string {
    l.whole + if l.fraction == "" then "" else "." + l.fraction
  }

  function Text(l: Lexeme): string {
    (if l.negative then "-" else "") + Mantissa(l) +
    match l.exponent case None => "" case Some(e) => [e.mark] + e.sign + e.digits
  }

  function Nat(s: string): nat
    requires AllDigits(s)
  {
    if s == "" then 0 else 10 * Nat(s[..|s| - 1]) + (s[|s| - 1] as int - '0' as int)
  }

  function Pow10(n: nat): (p: nat)
    ensures p >= 1
  {
    if n == 0 then 1 else 10 * Pow10(n - 1)
  }

  /** The power of ten the digits of `whole` and `fraction` together are scaled by. */
  function Scale(l: Lexeme): int
    requires Valid(l)
  {
    (match l.exponent case None => 0 case Some(e) => Signed(e.sign == "-", Nat(e.digits))) - |l.fraction|
  }

  function Signed(negative: bool, n: int): int {
    if negative then -n else n
  }

  /** The exact decimal value of the lexeme is the integer `v`. */
  predicate Denotes(l: Lexeme, v: int)
    requires Valid(l)
  {
    var n := Signed(l.negative, Nat(l.whole + l.fraction));
    if Scale(l) >= 0 then v == n * Pow10(Scale(l)) else v * Pow10(-Scale(l)) == n
  }

  // ---- Arithmetic ------------------------------------------------------------

  lemma MulMono(a: int, b: int, p: nat)
    requires a <= b
    ensures a * p <= b * p
  {
  }

  lemma MulAssoc(a: int, b: int, c: int)
    ensures a * b * c == a * (b * c)
  {
  }

  lemma {:induction false} PowAdd(a: nat, b: nat)
    ensures Pow10(a + b) == Pow10(a) * Pow10(b)
  {
    if a > 0 {
      PowAdd(a - 1, b);
      TenTimes(Pow10(b), Pow10(a - 1));
    }
  }

  lemma PowMono(a: nat, b: nat)
    requires a <= b
    ensures Pow10(a) <= Pow10(b)
  {
    PowAdd(a, b - a);
    assert Pow10(a) * 1 <= Pow10(a) * Pow10(b - a);
  }

  lemma TenTimes(a: nat, p: nat)
    ensures 10 * (a * p) == a * (10 * p)
  {
  }

  lemma Carry(a: nat, p: nat, t: nat, d: int)
    ensures 10 * (a * p + t) + d == a * (10 * p) + (10 * t + d)
  {
    TenTimes(a, p);
  }

  lemma {:induction false} NatConcat(a: string, b: string)
    requires AllDigits(a) && AllDigits(b)
    ensures AllDigits(a + b) && Nat(a + b) == Nat(a) * Pow10(|b|) + Nat(b)
    decreases |b|
  {
    if b == "" {
      assert a + b == a;
    } else {
      var n := |b| - 1;
      NatConcat(a, b[..n]);
      assert (a + b)[..|a + b| - 1] == a + b[..n];
      Carry(Nat(a), Pow10(n), Nat(b[..n]), b[n] as int - '0' as int);
    }
  }

  lemma {:induction false} NatZeros(s: string)
    requires forall i :: 0 <= i < |s| ==> s[i] == '0'
    ensures AllDigits(s) && Nat(s) == 0
  {
    if s != "" { NatZeros(s[..|s| - 1]); }
  }

  /** Digits that start and end with a nonzero digit. */
  predicate Significant(s: string) {
    |s| > 0 && AllDigits(s) && s[0] != '0' && s[|s| - 1] != '0'
  }

  lemma UnitsDigit(q: nat, d: nat)
    requires d < 10
    ensures (10 * q + d) % 10 == d
  {
  }

  lemma {:induction false} LastDigit(s: string)
    requires |s| > 0 && AllDigits(s)
    ensures Nat(s) % 10 == s[|s| - 1] as int - '0' as int
  {
    UnitsDigit(Nat(s[..|s| - 1]), s[|s| - 1] as int - '0' as int);
  }

  lemma FirstDigit(s: string)
    requires |s| > 0 && AllDigits(s) && s[0] != '0'
    ensures Pow10(|s| - 1) <= Nat(s)
  {
    var a, b := s[..1], s[1..];
    NatConcat(a, b);
    assert a + b == s && a[..0] == "";
    MulMono(1, Nat(a), Pow10(|b|));
  }

  /** Removing insignificant zeros scales the digits by a power of ten. */
  lemma TrimZeros(s: string, first: nat, last: nat)
    requires AllDigits(s) && first <= last < |s|
    requires forall i :: 0 <= i < first ==> s[i] == '0'
    requires forall i :: last < i < |s| ==> s[i] == '0'
    ensures Nat(s) == Nat(s[first..last + 1]) * Pow10(|s| - last - 1)
  {
    var a, b, c := s[..first], s[first..last + 1], s[last + 1..];
    assert s == (a + b) + c;
    NatZeros(a);
    NatZeros(c);
    NatConcat(a, b);
    NatConcat(a + b, c);
  }

  lemma Cancel(x: int, y: int, p: int)
    requires p >= 1 && x * p == y * p
    ensures x == y
  {
    assert (x - y) * p == 0;
  }

  lemma Indivisible(core: int, x: int, d: nat)
    requires core % 10 != 0 && d > 0
    ensures x * Pow10(d) != core
  {
    assert x * Pow10(d) == 10 * (x * Pow10(d - 1)) by { MulAssoc(x, 10, Pow10(d - 1)); }
    assert (10 * (x * Pow10(d - 1))) % 10 == 0;
  }

  /**
   `core * 10^k` scaled by `e` is an integer exactly when `k + e` is not negative, and then it is
   `core * 10^(k + e)`.
   */
  lemma ScaledInteger(core: int, k: nat, e: int, v: int)
    requires core % 10 != 0
    ensures (if e >= 0 then v == core * Pow10(k) * Pow10(e) else v * Pow10(-e) == core * Pow10(k)) <==>
            (k + e >= 0 && v == core * Pow10(k + e))
  {
    if e >= 0 {
      PowAdd(k, e);
      MulAssoc(core, Pow10(k), Pow10(e));
    } else if k + e >= 0 {
      PowAdd(k + e, -e);
      MulAssoc(core, Pow10(k + e), Pow10(-e));
      if v * Pow10(-e) == core * Pow10(k) { Cancel(v, core * Pow10(k + e), Pow10(-e)); }
    } else {
      PowAdd(-e - k, k);
      MulAssoc(v, Pow10(-e - k), Pow10(k));
      Indivisible(core, v, -e - k);
      if v * Pow10(-e - k) * Pow10(k) == core * Pow10(k) { Cancel(v * Pow10(-e - k), core, Pow10(k)); }
    }
  }

  lemma SignedFacts(negative: bool, n: nat, p: nat)
    ensures Signed(negative, n * p) == Signed(negative, n) * p
    ensures n % 10 != 0 ==> Signed(negative, n) % 10 != 0
  {
  }

  /** What the lexeme's value is, in terms of its significant digits. */
  lemma DenotesTrimmed(l: Lexeme, first: nat, last: nat, v: int)
    requires Valid(l)
    requires var s := l.whole + l.fraction;
             && first <= last < |s| && Significant(s[first..last + 1])
             && (forall i :: 0 <= i < first ==> s[i] == '0')
             && (forall i :: last < i < |s| ==> s[i] == '0')
    ensures var s := l.whole + l.fraction;
            var shift := Scale(l) + (|s| - last - 1);
            Denotes(l, v) <==> shift >= 0 && v == Signed(l.negative, Nat(s[first..last + 1])) * Pow10(shift)
  {
    var s := l.whole + l.fraction;
    var k, core := |s| - last - 1, Nat(s[first..last + 1]);
    TrimZeros(s, first, last);
    LastDigit(s[first..last + 1]);
    SignedFacts(l.negative, core, Pow10(k));
    ScaledInteger(Signed(l.negative, core), k, Scale(l), v);
  }

  // ---- Scanning --------------------------------------------------------------

  /** The index of the first char satisfying `p`, or the length. */
  method Position(s: string, p: char -> bool) returns (n: nat)
    ensures n <= |s| && (n < |s| ==> p(s[n]))
    ensures forall i :: 0 <= i < n ==> !p(s[i])
  {
    n := 0;
    while n < |s| && !p(s[n])
      invariant n <= |s| && forall i :: 0 <= i < n ==> !p(s[i])
    {
      n := n + 1;
    }
  }

  function Strip(s: string): string {
    if s == "" then ""
    else Strip(s[..|s| - 1]) + if s[|s| - 1] == '.' then "" else [s[|s| - 1]]
  }

  lemma {:induction false} StripDigits(a: string, b: string)
    requires AllDigits(b)
    ensures Strip(a + b) == Strip(a) + b
    decreases |b|
  {
    if b == "" {
      assert a + b == a;
    } else {
      StripDigits(a, b[..|b| - 1]);
      assert (a + b)[..|a + b| - 1] == a + b[..|b| - 1];
      assert Strip(a) + b == Strip(a) + b[..|b| - 1] + [b[|b| - 1]];
    }
  }

  lemma StripEnds(s: string)
    ensures Strip("") == "" && Strip(s + ".") == Strip(s)
  {
    assert (s + ".")[..|s|] == s;
  }

  lemma {:induction false} StripMantissa(l: Lexeme)
    requires Valid(l)
    ensures Strip(Mantissa(l)) == l.whole + l.fraction
  {
    hide Strip;
    StripEnds(l.whole);
    StripDigits("", l.whole);
    assert "" + l.whole == l.whole;
    if l.fraction != "" {
      StripDigits(l.whole + ".", l.fraction);
      assert Mantissa(l) == l.whole + "." + l.fraction;
    } else {
      assert Mantissa(l) == l.whole && l.whole + l.fraction == l.whole;
    }
  }

  /** Count the digits of a mantissa and locate its first and last nonzero digits. */
  method Significance(mantissa: string) returns (digits: nat, first: Option<nat>, last: nat)
    ensures var s := Strip(mantissa);
            && digits == |s|
            && (first.None? ==> forall i :: 0 <= i < |s| ==> s[i] == '0')
            && (first.Some? ==>
                  && first.value <= last < |s| && s[first.value] != '0' && s[last] != '0'
                  && (forall i :: 0 <= i < first.value ==> s[i] == '0')
                  && (forall i :: last < i < |s| ==> s[i] == '0'))
  {
    digits, first, last := 0, None, 0;
    for n := 0 to |mantissa|
      invariant var s := Strip(mantissa[..n]);
                && digits == |s|
                && (first.None? ==> forall i :: 0 <= i < |s| ==> s[i] == '0')
                && (first.Some? ==>
                      && first.value <= last < |s| && s[first.value] != '0' && s[last] != '0'
                      && (forall i :: 0 <= i < first.value ==> s[i] == '0')
                      && (forall i :: last < i < |s| ==> s[i] == '0'))
    {
      assert mantissa[..n + 1][..n] == mantissa[..n];
      var c := mantissa[n];
      if c != '.' {
        if c != '0' {
          if first.None? {
            first := Some(digits);
          }
          last := digits;
        }
        digits := digits + 1;
      }
    }
    assert mantissa[..|mantissa|] == mantissa;
  }

  function Min(a: int, b: int): int {
    if a < b then a else b
  }

  /** Exponent digits, clamped to `limit` after every digit. */
  method ClampedNat(s: string, limit: nat) returns (n: nat)
    requires AllDigits(s) && |s| > 0
    ensures n == Min(Nat(s), limit)
  {
    n := 0;
    for i := 0 to |s|
      invariant n == Min(Nat(s[..i]), limit)
    {
      assert s[..i + 1][..i] == s[..i];
      n := Min(n * 10 + (s[i] as int - '0' as int), limit);
    }
    assert s[..|s|] == s;
  }

  lemma {:induction false} PrefixBelow(s: string, i: nat, shift: nat)
    requires i <= |s| && AllDigits(s)
    ensures Nat(s[..i]) <= Nat(s) <= Nat(s) * Pow10(shift)
  {
    NatConcat(s[..i], s[i..]);
    assert s[..i] + s[i..] == s;
    Grows(Nat(s[..i]), Pow10(|s| - i));
    Grows(Nat(s), Pow10(shift));
  }

  lemma Grows(a: nat, p: nat)
    requires p >= 1
    ensures a <= a * p
  {
  }

  /** Checked accumulation of digits; None on unsigned 64-bit overflow. */
  method CheckedNat(s: string) returns (r: Option<nat>)
    requires AllDigits(s)
    ensures r == if Nat(s) <= U64_MAX then Some(Nat(s)) else None
  {
    var m: nat := 0;
    for i := 0 to |s|
      invariant m == Nat(s[..i]) <= U64_MAX
    {
      assert s[..i + 1][..i] == s[..i];
      m := m * 10 + (s[i] as int - '0' as int);
      PrefixBelow(s, i + 1, 0);
      if m > U64_MAX {
        return None;
      }
    }
    assert s[..|s|] == s;
    r := Some(m);
  }

  /** Checked multiplication by ten, `shift` times. */
  method CheckedShift(n: nat, shift: nat) returns (r: Option<nat>)
    requires n <= U64_MAX
    ensures r == if n * Pow10(shift) <= U64_MAX then Some(n * Pow10(shift)) else None
  {
    var m := n;
    for i := 0 to shift
      invariant m == n * Pow10(i) <= U64_MAX
    {
      MulAssoc(n, 10, Pow10(i));
      m := m * 10;
      PowMono(i + 1, shift);
      MulMono(Pow10(i + 1), Pow10(shift), n);
      if m > U64_MAX {
        return None;
      }
    }
    r := Some(m);
  }

  method Magnitude(s: string, shift: nat) returns (r: Option<nat>)
    requires AllDigits(s)
    ensures r == if Nat(s) * Pow10(shift) <= U64_MAX then Some(Nat(s) * Pow10(shift)) else None
  {
    r := CheckedNat(s);
    if r.None? {
      PrefixBelow(s, |s|, shift);
    } else {
      r := CheckedShift(r.value, shift);
    }
  }

  /** The exponent as the source reads it: clamped in magnitude to `limit`. */
  function ClampedExponent(e: Option<Exponent>, limit: nat): int
    requires e.Some? ==> AllDigits(e.value.digits)
  {
    match e
    case None => 0
    case Some(e) => Signed(e.sign == "-", Min(Nat(e.digits), limit))
  }

  lemma NoExponent(limit: nat)
    ensures ClampedExponent(None, limit) == 0
  {
  }

  /** Split the text after the sign into mantissa, fraction length and clamped exponent. */
  method Parts(unsigned: string, limit: nat, ghost l: Lexeme) returns (mantissa: string, fraction: nat, exponent: int)
    requires Valid(l) && unsigned == Text(l.(negative := false))
    ensures mantissa == Mantissa(l) && fraction == |l.fraction|
    ensures exponent == ClampedExponent(l.exponent, limit)
  {
    hide ClampedExponent, Valid, Text, Mantissa, AllDigits;
    Layout(unsigned, l);
    var end := Position(unsigned, (c: char) => c == 'e' || c == 'E');
    assert end == |Mantissa(l)|;
    mantissa := unsigned[..end];
    var dot := Position(mantissa, (c: char) => c == '.');
    assert dot == |l.whole|;
    fraction := if dot < |mantissa| then |mantissa| - dot - 1 else 0;
    if end == |unsigned| {
      NoExponent(limit);
      exponent := 0;
    } else {
      exponent := SignedExponent(unsigned[end + 1..], limit, l.exponent.value);
    }
  }

  /** Where the point and the exponent mark of an unsigned lexeme stand. */
  lemma Layout(unsigned: string, l: Lexeme)
    requires Valid(l) && unsigned == Text(l.(negative := false))
    ensures var m, w := Mantissa(l), |l.whole|;
            && |m| <= |unsigned| && unsigned[..|m|] == m && w <= |m|
            && (forall i :: 0 <= i < |m| ==> unsigned[i] == m[i] && m[i] != 'e' && m[i] != 'E')
            && (forall i :: 0 <= i < w ==> m[i] != '.')
            && (if |m| == w then l.fraction == "" else m[w] == '.' && |m| == w + 1 + |l.fraction|)
            && (|m| == |unsigned| <==> l.exponent.None?)
            && (l.exponent.Some? ==>
                  var e := l.exponent.value;
                  && unsigned[|m|] in "eE" && unsigned[|m| + 1..] == e.sign + e.digits
                  && (e.sign == "" || e.sign == "+" || e.sign == "-") && |e.digits| > 0 && AllDigits(e.digits))
  {
    var m := Mantissa(l);
    assert forall i :: 0 <= i < |m| ==> unsigned[i] == m[i];
  }

  method SignedExponent(text: string, limit: nat, ghost e: Exponent) returns (exponent: int)
    requires text == e.sign + e.digits && (e.sign == "" || e.sign == "+" || e.sign == "-")
    requires |e.digits| > 0 && AllDigits(e.digits)
    ensures exponent == ClampedExponent(Some(e), limit)
  {
    var minus := |text| > 0 && text[0] == '-';
    var offset := if |text| > 0 && (text[0] == '-' || text[0] == '+') then 1 else 0;
    assert offset == |e.sign| && text[offset..] == e.digits;
    var value := ClampedNat(text[offset..], limit);
    exponent := Signed(minus, value);
  }

  /** In range for the union of signed and unsigned 64-bit integers. */
  predicate InRange(v: int) {
    I64_MIN <= v <= U64_MAX
  }

  function Boxed(v: int): Number {
    if v <= I64_MAX then Int(v) else UInt(v)
  }

  /** Beyond the clamp, the clamped and the exact shift both leave every 64-bit integer behind. */
  lemma ClampAgrees(l: Lexeme, width: nat, trailing: nat)
    requires Valid(l) && 1 <= width && width + trailing <= |l.whole| + |l.fraction|
    ensures var limit := |Text(l)| + 21;
            var exact := Scale(l) + trailing;
            var shift := ClampedExponent(l.exponent, limit) - |l.fraction| + trailing;
            (0 <= shift && width + shift <= 20) || (0 <= exact && width + exact <= 20) ==> shift == exact
  {
  }

  lemma TwentyDigits()
    ensures Pow10(20) > U64_MAX
  {
    assert Pow10(4) == 10_000;
    PowAdd(4, 4);
    PowAdd(8, 8);
    PowAdd(16, 4);
  }

  /** Significant digits that denote an integer of 64 bits take at most twenty digits. */
  lemma TooWide(core: string, shift: nat)
    requires Significant(core) && |core| + shift > 20
    ensures Nat(core) * Pow10(shift) > U64_MAX
  {
    FirstDigit(core);
    PowAdd(|core| - 1, shift);
    PowMono(20, |core| - 1 + shift);
    TwentyDigits();
    MulMono(Pow10(|core| - 1), Nat(core), Pow10(shift));
  }

  /** The lexeme's value is `m` tens-shifted significant digits, or no integer at all. */
  ghost predicate Resolved(l: Lexeme, m: Option<nat>) {
    Valid(l) && forall v :: Denotes(l, v) <==> m.Some? && v == Signed(l.negative, m.value)
  }

  lemma Resolve(l: Lexeme, first: nat, last: nat) returns (m: Option<nat>)
    requires Valid(l)
    requires var s := l.whole + l.fraction;
             && first <= last < |s| && Significant(s[first..last + 1])
             && (forall i :: 0 <= i < first ==> s[i] == '0')
             && (forall i :: last < i < |s| ==> s[i] == '0')
    ensures Resolved(l, m)
    ensures var s := l.whole + l.fraction;
            var exact := Scale(l) + (|s| - last - 1);
            m == if exact >= 0 then Some(Nat(s[first..last + 1]) * Pow10(exact)) else None
  {
    var s := l.whole + l.fraction;
    var exact := Scale(l) + (|s| - last - 1);
    var n := Nat(s[first..last + 1]);
    m := if exact >= 0 then Some(n * Pow10(exact)) else None;
    forall v ensures Denotes(l, v) <==> m.Some? && v == Signed(l.negative, m.value) {
      DenotesTrimmed(l, first, last, v);
      if exact >= 0 { SignedFacts(l.negative, n, Pow10(exact)); }
    }
  }

  lemma ResolvedRange(l: Lexeme, m: Option<nat>)
    requires Resolved(l, m)
    ensures (exists v :: Denotes(l, v) && InRange(v)) <==> m.Some? && InRange(Signed(l.negative, m.value))
    ensures m.Some? ==> Denotes(l, Signed(l.negative, m.value))
  {
    if m.Some? {
      var v := Signed(l.negative, m.value);
      assert Denotes(l, v);
    }
  }

  /** Box a magnitude with its sign, rejecting what neither 64-bit type holds. */
  method Box(negative: bool, m: nat) returns (r: Option<Number>)
    requires m <= U64_MAX
    ensures r == var v := Signed(negative, m); if InRange(v) then Some(Boxed(v)) else None
  {
    if negative {
      if m == I64_MAX + 1 {
        r := Some(Int(I64_MIN));
      } else if m <= I64_MAX {
        r := Some(Int(Signed(true, m)));
      } else {
        r := None;
      }
    } else if m <= I64_MAX {
      r := Some(Int(m));
    } else {
      r := Some(UInt(m));
    }
  }

  /** The significant digits of a scanned mantissa, shifted and checked; None when that is no 64-bit magnitude. */
  method Shifted(mantissa: string, first: nat, last: nat, shift: int) returns (r: Option<nat>)
    requires var s := Strip(mantissa); AllDigits(s) && first <= last < |s| && Significant(s[first..last + 1])
    ensures var n := Nat(Strip(mantissa)[first..last + 1]);
            r == if shift >= 0 && n * Pow10(shift) <= U64_MAX then Some(n * Pow10(shift)) else None
  {
    var width := last - first + 1;
    ghost var core := Strip(mantissa)[first..last + 1];
    if shift < 0 || width > 20 || width + shift > 20 {
      if shift >= 0 { TooWide(core, shift); }
      return None;
    }
    var digits := Digits(mantissa);
    r := Magnitude(digits[first..last + 1], shift);
  }

  /** Clamping the exponent changes neither whether the shifted digits fit nor their value. */
  lemma ClampHarmless(l: Lexeme, first: nat, last: nat)
    requires Valid(l)
    requires var s := l.whole + l.fraction; first <= last < |s| && Significant(s[first..last + 1])
    ensures var s := l.whole + l.fraction;
            var n := Nat(s[first..last + 1]);
            var exact := Scale(l) + (|s| - last - 1);
            var shift := ClampedExponent(l.exponent, |Text(l)| + 21) - |l.fraction| + (|s| - last - 1);
            && (shift >= 0 && n * Pow10(shift) <= U64_MAX <==> exact >= 0 && n * Pow10(exact) <= U64_MAX)
            && (exact >= 0 && n * Pow10(exact) <= U64_MAX ==> shift == exact)
  {
    var s := l.whole + l.fraction;
    var width := last - first + 1;
    var exact := Scale(l) + (|s| - last - 1);
    var shift := ClampedExponent(l.exponent, |Text(l)| + 21) - |l.fraction| + (|s| - last - 1);
    ClampAgrees(l, width, |s| - last - 1);
    if shift >= 0 && width + shift > 20 { TooWide(s[first..last + 1], shift); }
    if exact >= 0 && width + exact > 20 { TooWide(s[first..last + 1], exact); }
  }

  lemma SignOf(l: Lexeme)
    requires Valid(l)
    ensures var text := Text(l);
            && |text| > 0 && (text[0] == '-' <==> l.negative)
            && (if l.negative then text[1..] else text) == Text(l.(negative := false))
  {
    var body := Text(l.(negative := false));
    assert body[0] == l.whole[0];
    assert Text(l) == (if l.negative then "-" else "") + body;
  }

  lemma ZeroValue(l: Lexeme)
    requires Valid(l) && forall i :: 0 <= i < |l.whole + l.fraction| ==> (l.whole + l.fraction)[i] == '0'
    ensures Denotes(l, 0)
  {
    NatZeros(l.whole + l.fraction);
  }

  /**
   `integer` answers a value exactly when the exact decimal value of the lexeme is an integer
   in [-2^63, 2^64 - 1], and then answers that integer.
   */
  method Integer(raw: string, ghost l: Lexeme) returns (r: Option<Number>)
    requires Valid(l) && raw == Text(l)
    ensures r.Some? <==> exists v :: Denotes(l, v) && InRange(v)
    ensures r.Some? ==> Denotes(l, r.value.value) && InRange(r.value.value) && r.value == Boxed(r.value.value)
  {
    SignOf(l);
    var negative := raw[0] == '-';
    var unsigned := if negative then raw[1..] else raw;
    var mantissa, fraction, exponent := Parts(unsigned, |raw| + 21, l);
    var digits, first, last := Significance(mantissa);
    StripMantissa(l);
    if first.None? {
      ZeroValue(l);
      return Some(Int(0));
    }
    r := Finish(negative, mantissa, first.value, last, exponent - fraction + (digits - last - 1), l);
  }

  method Finish(negative: bool, mantissa: string, first: nat, last: nat, shift: int, ghost l: Lexeme)
    returns (r: Option<Number>)
    requires Valid(l) && l.negative == negative && Strip(mantissa) == l.whole + l.fraction
    requires var s := Strip(mantissa);
             && first <= last < |s| && s[first] != '0' && s[last] != '0'
             && (forall i :: 0 <= i < first ==> s[i] == '0')
             && (forall i :: last < i < |s| ==> s[i] == '0')
             && shift == ClampedExponent(l.exponent, |Text(l)| + 21) - |l.fraction| + (|s| - last - 1)
    ensures r.Some? <==> exists v :: Denotes(l, v) && InRange(v)
    ensures r.Some? ==> Denotes(l, r.value.value) && InRange(r.value.value) && r.value == Boxed(r.value.value)
  {
    hide Resolved, Denotes, Nat, Pow10, Strip, Text, Scale, ClampedExponent;
    ghost var m := Resolve(l, first, last);
    ResolvedRange(l, m);
    ClampHarmless(l, first, last);
    var magnitude := Shifted(mantissa, first, last, shift);
    if magnitude.None? {
      return None;
    }
    r := Box(negative, magnitude.value);
  }

  /** The digits of a mantissa, its decimal point left out. */
  method Digits(mantissa: string) returns (s: string)
    ensures s == Strip(mantissa)
  {
    s := "";
    for n := 0 to |mantissa|
      invariant s == Strip(mantissa[..n])
    {
      assert mantissa[..n + 1][..n] == mantissa[..n];
      if mantissa[n] != '.' {
        s := s + [mantissa[n]];
      }
    }
    assert mantissa[..|mantissa|] == mantissa;
  }
}
