/**
 * The documents the strict JSON parser accepts (`json_read.rs`). Readers take what
 * is left of a buffer and answer what they read and what is left after it.
 */
module JsonSyntax {
  import opened Prelude
  import opened Text

  const MAX_DEPTH: nat := 256
  const TWO_63: nat := 0x8000_0000_0000_0000
  const TWO_64: nat := 0x1_0000_0000_0000_0000

  const QUOTE: byte := 34
  const COMMA: byte := 44
  const MINUS: byte := 45
  const DOT: byte := 46
  const COLON: byte := 58
  const OPEN_ARRAY: byte := 91
  const BACKSLASH: byte := 92
  const CLOSE_ARRAY: byte := 93
  const OPEN_OBJECT: byte := 123
  const CLOSE_OBJECT: byte := 125

  /** What the standard library answers: which double a decimal is, when it is neither too large nor too small. */
  datatype Library = Library(float: Bytes -> Option<nat>)

  datatype Number = Int(i: int) | Float(bits: nat)

  datatype Tree =
    | Null
    | Bool(b: bool)
    | Num(n: Number)
    | Str(s: Bytes)
    | Arr(items: seq<Tree>)
    | Obj(members: seq<(Bytes, Tree)>)

  /** `rest` is the end of `s`. */
  predicate Ends(rest: Bytes, s: Bytes) {
    |rest| <= |s| && rest == s[|s| - |rest|..]
  }

  lemma EndsTransitive(a: Bytes, b: Bytes, c: Bytes)
    requires Ends(a, b) && Ends(b, c)
    ensures Ends(a, c)
  {
    assert b[|b| - |a|..] == c[|c| - |a|..];
  }

  // ---- Lexical pieces --------------------------------------------------------

  predicate IsSpace(b: byte) {
    b == 32 || b == 9 || b == 10 || b == 13
  }

  predicate IsDigit(b: byte) {
    48 <= b <= 57
  }

  function Ws(s: Bytes): (r: Bytes)
    ensures Ends(r, s)
  {
    if s != [] && IsSpace(s[0]) then
      assert s[1..] == s[|s| - |s[1..]|..];
      EndsTransitive(Ws(s[1..]), s[1..], s);
      Ws(s[1..])
    else s
  }

  function Digits(s: Bytes): (r: Bytes)
    ensures Ends(r, s)
  {
    if s != [] && IsDigit(s[0]) then
      assert s[1..] == s[|s| - |s[1..]|..];
      EndsTransitive(Digits(s[1..]), s[1..], s);
      Digits(s[1..])
    else s
  }

  predicate Starts(s: Bytes, b: byte) {
    s != [] && s[0] == b
  }

  function Sign(s: Bytes): (r: Bytes)
    ensures Ends(r, s)
  {
    if Starts(s, MINUS) then s[1..] else s
  }

  /** A zero, or digits that do not start with one. */
  function Whole(s: Bytes): (r: Option<Bytes>)
    ensures r.Some? ==> Ends(r.value, s) && |r.value| < |s|
  {
    if s == [] || !IsDigit(s[0]) then None
    else if s[0] == 48 then Some(s[1..])
    else
      assert Digits(s) == Digits(s[1..]);
      Some(Digits(s))
  }

  function SomeDigits(s: Bytes): (r: Option<Bytes>)
    ensures r.Some? ==> Ends(r.value, s)
  {
    if s != [] && IsDigit(s[0]) then Some(Digits(s)) else None
  }

  function Fraction(s: Bytes): (r: Option<Bytes>)
    ensures r.Some? ==> Ends(r.value, s)
  {
    if Starts(s, DOT) then
      var rest :- SomeDigits(s[1..]);
      EndsTransitive(rest, s[1..], s);
      Some(rest)
    else Some(s)
  }

  predicate IsExponent(b: byte) {
    b == 101 || b == 69
  }

  function Exponent(s: Bytes): (r: Option<Bytes>)
    ensures r.Some? ==> Ends(r.value, s)
  {
    if s != [] && IsExponent(s[0]) then
      var rest :- SignedDigits(s[1..]);
      EndsTransitive(rest, s[1..], s);
      Some(rest)
    else Some(s)
  }

  predicate IsSign(b: byte) {
    b == 43 || b == 45
  }

  function SignedDigits(s: Bytes): (r: Option<Bytes>)
    ensures r.Some? ==> Ends(r.value, s)
  {
    if s != [] && IsSign(s[0]) then
      var rest :- SomeDigits(s[1..]);
      EndsTransitive(rest, s[1..], s);
      Some(rest)
    else SomeDigits(s)
  }

  /** What follows a number's text. */
  function AfterNumber(s: Bytes): (r: Option<Bytes>)
    ensures r.Some? ==> Ends(r.value, s) && |r.value| < |s|
  {
    var a := Sign(s);
    var b :- Whole(a);
    var c :- Fraction(b);
    var d :- Exponent(c);
    EndsTransitive(b, a, s);
    EndsTransitive(c, b, s);
    EndsTransitive(d, c, s);
    Some(d)
  }

  /** The text that was read. */
  function Read(s: Bytes, rest: Bytes): Bytes
    requires |rest| <= |s|
  {
    s[..|s| - |rest|]
  }

  // ---- Dropping what follows -------------------------------------------------

  /** `s` without its last `n` octets. */
  function Drop(s: Bytes, n: nat): Bytes
    requires n <= |s|
  {
    s[..|s| - n]
  }

  lemma {:induction false} WsDrop(s: Bytes, n: nat)
    requires n <= |Ws(s)|
    ensures Ws(Drop(s, n)) == Drop(Ws(s), n)
    decreases |s|
  {
    if s != [] && IsSpace(s[0]) {
      WsDrop(s[1..], n);
      assert Drop(s, n)[1..] == Drop(s[1..], n);
    }
  }

  lemma {:induction false} DigitsDrop(s: Bytes, n: nat)
    requires n <= |Digits(s)|
    ensures Digits(Drop(s, n)) == Drop(Digits(s), n)
    decreases |s|
  {
    if s != [] && IsDigit(s[0]) {
      DigitsDrop(s[1..], n);
      assert Drop(s, n)[1..] == Drop(s[1..], n);
    }
  }

  lemma WholeDrop(s: Bytes, n: nat)
    requires Whole(s).Some? && n <= |Whole(s).value|
    ensures Whole(Drop(s, n)) == Some(Drop(Whole(s).value, n))
  {
    if s[0] == 48 {
      assert Drop(s, n)[1..] == Drop(s[1..], n);
    } else {
      DigitsDrop(s, n);
    }
  }

  lemma SomeDigitsDrop(s: Bytes, n: nat)
    requires SomeDigits(s).Some? && n <= |SomeDigits(s).value|
    ensures SomeDigits(Drop(s, n)) == Some(Drop(SomeDigits(s).value, n))
  {
    assert Digits(s) == Digits(s[1..]);
    DigitsDrop(s, n);
  }

  lemma FractionDrop(s: Bytes, n: nat)
    requires Fraction(s).Some? && n <= |Fraction(s).value|
    ensures Fraction(Drop(s, n)) == Some(Drop(Fraction(s).value, n))
  {
    hide SomeDigits;
    if Starts(s, DOT) {
      SomeDigitsDrop(s[1..], n);
      assert Drop(s, n)[1..] == Drop(s[1..], n);
    }
  }

  lemma SignedDrop(s: Bytes, n: nat)
    requires SignedDigits(s).Some? && n <= |SignedDigits(s).value|
    ensures SignedDigits(Drop(s, n)) == Some(Drop(SignedDigits(s).value, n))
  {
    hide SomeDigits;
    if s != [] && IsSign(s[0]) {
      SomeDigitsDrop(s[1..], n);
      assert Drop(s, n)[1..] == Drop(s[1..], n);
    } else {
      SomeDigitsDrop(s, n);
      Shorter(s);
    }
  }

  lemma Shorter(s: Bytes)
    requires SomeDigits(s).Some?
    ensures |SomeDigits(s).value| < |s|
  {
    assert Digits(s) == Digits(s[1..]);
  }

  lemma ExponentDrop(s: Bytes, n: nat)
    requires Exponent(s).Some? && n <= |Exponent(s).value|
    ensures Exponent(Drop(s, n)) == Some(Drop(Exponent(s).value, n))
  {
    hide SignedDigits;
    if s != [] && IsExponent(s[0]) {
      SignedDrop(s[1..], n);
      assert Drop(s, n)[1..] == Drop(s[1..], n);
    }
  }

  lemma SignDrop(s: Bytes, n: nat)
    requires n < |Sign(s)|
    ensures Sign(Drop(s, n)) == Drop(Sign(s), n)
  {
    assert Starts(s, MINUS) ==> Drop(s, n)[1..] == Drop(s[1..], n);
  }

  lemma NumberDrop(s: Bytes, n: nat)
    requires AfterNumber(s).Some? && n <= |AfterNumber(s).value|
    ensures AfterNumber(Drop(s, n)) == Some(Drop(AfterNumber(s).value, n))
    ensures Read(Drop(s, n), Drop(AfterNumber(s).value, n)) == Read(s, AfterNumber(s).value)
  {
    var a := Sign(s);
    var b := Whole(a).value;
    var c := Fraction(b).value;
    var d := Exponent(c).value;
    assert |d| <= |c| <= |b| < |a| <= |s|;
    hide Whole, Fraction, Exponent, Ends, Sign, Drop, Read;
    SignDrop(s, n);
    WholeDrop(a, n);
    FractionDrop(b, n);
    ExponentDrop(c, n);
    ReadDrop(s, d, n);
  }

  lemma ReadDrop(s: Bytes, rest: Bytes, n: nat)
    requires n <= |rest| <= |s|
    ensures Read(Drop(s, n), Drop(rest, n)) == Read(s, rest)
  {
  }

  // ---- Numbers ---------------------------------------------------------------

  function NatOf(digits: Bytes): int {
    if digits == [] then 0 else 10 * NatOf(digits[..|digits| - 1]) + (digits[|digits| - 1] as int - 48)
  }

  /** Whether a number's text has a fraction or an exponent. */
  predicate IsFloat(text: Bytes) {
    exists i :: 0 <= i < |text| && (text[i] == DOT || IsExponent(text[i]))
  }

  /** The value of a number's text: an integer of 64 bits, or a double. */
  function NumberOf(lib: Library, text: Bytes): Option<Number> {
    if IsFloat(text) then
      var bits :- lib.float(text);
      Some(Float(bits))
    else if Starts(text, MINUS) then
      var magnitude := NatOf(text[1..]);
      if magnitude <= TWO_63 then Some(Int(-magnitude)) else None
    else
      var magnitude := NatOf(text);
      if magnitude < TWO_64 then Some(Int(magnitude)) else None
  }

  lemma {:induction false} DigitsRead(s: Bytes)
    ensures forall i :: 0 <= i < |s| - |Digits(s)| ==> IsDigit(s[i])
    decreases |s|
  {
    if s != [] && IsDigit(s[0]) {
      DigitsRead(s[1..]);
      assert forall i :: 1 <= i < |s| ==> s[i] == s[1..][i - 1];
    }
  }

  /** A number's text has a fraction or an exponent exactly when one was read. */
  lemma FloatRead(s: Bytes)
    requires AfterNumber(s).Some?
    ensures var b := Whole(Sign(s)).value; var c := Fraction(b).value;
            IsFloat(Read(s, AfterNumber(s).value)) <==> Starts(b, DOT) || (c != [] && IsExponent(c[0]))
  {
    var a := Sign(s);
    var b := Whole(a).value;
    var c := Fraction(b).value;
    var d := Exponent(c).value;
    assert |d| <= |c| <= |b| < |a| <= |s|;
    EndsTransitive(b, a, s);
    EndsTransitive(c, b, s);
    FractionReads(b);
    ExponentReads(c);
    hide Whole, Fraction, Exponent, Ends, Sign, Read, IsFloat;
    if Starts(b, DOT) {
      ReadAt(s, b, d, DOT);
    } else if c != [] && IsExponent(c[0]) {
      ReadAt(s, c, d, c[0]);
    } else {
      NoFloat(s);
    }
  }

  lemma FractionReads(s: Bytes)
    requires Fraction(s).Some?
    ensures if Starts(s, DOT) then |Fraction(s).value| < |s| else Fraction(s).value == s
  {
    hide SomeDigits;
  }

  lemma ExponentReads(s: Bytes)
    requires Exponent(s).Some?
    ensures if s != [] && IsExponent(s[0]) then |Exponent(s).value| < |s| else Exponent(s).value == s
  {
    hide SignedDigits;
  }

  lemma NoFloat(s: Bytes)
    requires Whole(Sign(s)).Some?
    ensures !IsFloat(Read(s, Whole(Sign(s)).value))
    ensures forall i :: 0 <= i < |Read(Sign(s), Whole(Sign(s)).value)| ==>
              IsDigit(Read(Sign(s), Whole(Sign(s)).value)[i])
  {
    var a := Sign(s);
    DigitsRead(a);
    hide Sign, Digits;
    SignRead(s, Whole(a).value);
  }

  lemma SignRead(s: Bytes, rest: Bytes)
    requires |rest| <= |Sign(s)|
    requires forall i :: 0 <= i < |Read(Sign(s), rest)| ==> IsDigit(Read(Sign(s), rest)[i])
    ensures !IsFloat(Read(s, rest))
  {
    var a, text := Sign(s), Read(s, rest);
    var k := |s| - |a|;
    forall i | 0 <= i < |text| ensures text[i] == MINUS || IsDigit(text[i]) {
      if i >= k { assert Read(a, rest)[i - k] == text[i]; }
    }
  }

  lemma ReadAt(s: Bytes, x: Bytes, rest: Bytes, b: byte)
    requires Ends(x, s) && |rest| < |x| && Starts(x, b) && (b == DOT || IsExponent(b))
    ensures IsFloat(Read(s, rest))
  {
    var i := |s| - |x|;
    assert Read(s, rest)[i] == b;
  }

  // ---- Strings ---------------------------------------------------------------

  predicate IsSpecial(b: byte) {
    b == QUOTE || b == BACKSLASH
  }

  /** How many octets come before the next quote or backslash. */
  function Plain(s: Bytes): (k: nat)
    ensures k <= |s| && (forall i :: 0 <= i < k ==> !IsSpecial(s[i])) && (k < |s| ==> IsSpecial(s[k]))
  {
    if s == [] || IsSpecial(s[0]) then 0 else Plain(s[1..]) + 1
  }

  /** No control characters, and valid UTF-8. */
  predicate GoodChunk(chunk: Bytes) {
    (forall i :: 0 <= i < |chunk| ==> chunk[i] >= 32) && Utf8(chunk)
  }

  function HexDigit(b: byte): Option<nat> {
    if 48 <= b <= 57 then Some(b - 48)
    else if 97 <= b <= 102 then Some(b - 87)
    else if 65 <= b <= 70 then Some(b - 55)
    else None
  }

  function Hex4(s: Bytes): Option<(nat, Bytes)> {
    if |s| < 4 then None
    else
      var a :- HexDigit(s[0]);
      var b :- HexDigit(s[1]);
      var c :- HexDigit(s[2]);
      var d :- HexDigit(s[3]);
      Some((4096 * a + 256 * b + 16 * c + d, s[4..]))
  }

  /** The UTF-8 octets of a code point. */
  function CodePoint(c: nat): Bytes
    requires c < 0x11_0000
  {
    if c < 0x80 then [c]
    else if c < 0x800 then [0xC0 + c / 64, 0x80 + c % 64]
    else if c < 0x1_0000 then [0xE0 + c / 4096, 0x80 + c / 64 % 64, 0x80 + c % 64]
    else [0xF0 + c / 262144, 0x80 + c / 4096 % 64, 0x80 + c / 64 % 64, 0x80 + c % 64]
  }

  /** After a backslash and `u`: one code unit, or a pair of surrogates. */
  function Unicode(s: Bytes): (r: Option<(Bytes, Bytes)>)
    ensures r.Some? ==> Ends(r.value.1, s)
  {
    var (hi, rest) :- Hex4(s);
    if 0xDC00 <= hi <= 0xDFFF then None
    else if !(0xD800 <= hi <= 0xDBFF) then (if hi < 0x1_0000 then Some((CodePoint(hi), rest)) else None)
    else LowSurrogate(hi, rest)
  }

  function LowSurrogate(hi: nat, s: Bytes): (r: Option<(Bytes, Bytes)>)
    requires 0xD800 <= hi <= 0xDBFF
    ensures r.Some? ==> Ends(r.value.1, s)
  {
    if |s| < 2 || s[0] != BACKSLASH || s[1] != 117 then None
    else
      var (lo, rest) :- Hex4(s[2..]);
      if !(0xDC00 <= lo <= 0xDFFF) then None
      else Some((CodePoint(0x1_0000 + (hi - 0xD800) * 1024 + (lo - 0xDC00)), rest))
  }

  function Simple(b: byte): Option<byte> {
    if b == QUOTE || b == BACKSLASH || b == 47 then Some(b)
    else if b == 98 then Some(8)
    else if b == 102 then Some(12)
    else if b == 110 then Some(10)
    else if b == 114 then Some(13)
    else if b == 116 then Some(9)
    else None
  }

  /** After a backslash. */
  function Escape(s: Bytes): (r: Option<(Bytes, Bytes)>)
    ensures r.Some? ==> Ends(r.value.1, s) && |r.value.1| < |s|
  {
    if s == [] then None
    else if s[0] == 117 then
      var (text, rest) :- Unicode(s[1..]);
      EndsTransitive(rest, s[1..], s);
      Some((text, rest))
    else
      var b :- Simple(s[0]);
      Some(([b], s[1..]))
  }

  /** After a string's opening quote: its octets and what follows the closing one. */
  function StringBody(s: Bytes): (r: Option<(Bytes, Bytes)>)
    ensures r.Some? ==> Ends(r.value.1, s) && |r.value.1| < |s|
    decreases |s|
  {
    var k := Plain(s);
    if k == |s| || !GoodChunk(s[..k]) then None
    else if s[k] == QUOTE then Some((s[..k], s[k + 1..]))
    else
      var (text, after) :- Escape(s[k + 1..]);
      EndsTransitive(after, s[k + 1..], s);
      var (more, rest) :- StringBody(after);
      EndsTransitive(rest, after, s);
      Some((s[..k] + text + more, rest))
  }

  function StringOf(s: Bytes): (r: Option<(Bytes, Bytes)>)
    ensures r.Some? ==> Ends(r.value.1, s) && |r.value.1| < |s|
  {
    if !Starts(s, QUOTE) then None
    else
      var (text, rest) :- StringBody(s[1..]);
      EndsTransitive(rest, s[1..], s);
      Some((text, rest))
  }

  lemma {:induction false} PlainDrop(s: Bytes, n: nat)
    requires n <= |s| && Plain(s) < |s| - n
    ensures Plain(Drop(s, n)) == Plain(s)
    decreases |s|
  {
    if !IsSpecial(s[0]) {
      PlainDrop(s[1..], n);
      assert Drop(s, n)[1..] == Drop(s[1..], n);
    }
  }

  lemma Hex4Drop(s: Bytes, n: nat)
    requires Hex4(s).Some? && n <= |Hex4(s).value.1|
    ensures Hex4(Drop(s, n)) == Some((Hex4(s).value.0, Drop(Hex4(s).value.1, n)))
  {
    assert Drop(s, n)[4..] == Drop(s[4..], n);
  }

  lemma UnicodeDrop(s: Bytes, n: nat)
    requires Unicode(s).Some? && n <= |Unicode(s).value.1|
    ensures Unicode(Drop(s, n)) == Some((Unicode(s).value.0, Drop(Unicode(s).value.1, n)))
  {
    hide Hex4, CodePoint;
    Hex4Shorter(s);
    var (hi, rest) := Hex4(s).value;
    if 0xD800 <= hi <= 0xDBFF {
      Hex4Shorter(rest[2..]);
      Hex4Drop(rest[2..], n);
      assert Drop(rest, n)[2..] == Drop(rest[2..], n);
    }
    Hex4Drop(s, n);
  }

  lemma Hex4Shorter(s: Bytes)
    requires Hex4(s).Some?
    ensures |Hex4(s).value.1| + 4 == |s|
  {
  }

  lemma EscapeDrop(s: Bytes, n: nat)
    requires Escape(s).Some? && n <= |Escape(s).value.1|
    ensures Escape(Drop(s, n)) == Some((Escape(s).value.0, Drop(Escape(s).value.1, n)))
  {
    hide Unicode;
    assert Drop(s, n)[1..] == Drop(s[1..], n);
    if s[0] == 117 { UnicodeDrop(s[1..], n); }
  }

  lemma {:induction false} BodyDrop(s: Bytes, n: nat)
    requires StringBody(s).Some? && n <= |StringBody(s).value.1|
    ensures StringBody(Drop(s, n)) == Some((StringBody(s).value.0, Drop(StringBody(s).value.1, n)))
    decreases |s|
  {
    hide Escape, GoodChunk, Plain;
    var k := Plain(s);
    PlainDrop(s, n);
    assert Drop(s, n)[..k] == s[..k] && Drop(s, n)[k + 1..] == Drop(s[k + 1..], n) && Drop(s, n)[k] == s[k];
    if s[k] != QUOTE {
      var (text, after) := Escape(s[k + 1..]).value;
      EscapeDrop(s[k + 1..], n);
      BodyDrop(after, n);
    }
  }

  lemma StringDrop(s: Bytes, n: nat)
    requires StringOf(s).Some? && n <= |StringOf(s).value.1|
    ensures StringOf(Drop(s, n)) == Some((StringOf(s).value.0, Drop(StringOf(s).value.1, n)))
  {
    hide StringBody;
    assert Drop(s, n)[1..] == Drop(s[1..], n);
    BodyDrop(s[1..], n);
  }

  // ---- Values ----------------------------------------------------------------

  const TRUE: Bytes := [116, 114, 117, 101]
  const FALSE: Bytes := [102, 97, 108, 115, 101]
  const NULL: Bytes := [110, 117, 108, 108]

  function Literal(s: Bytes, word: Bytes): (r: Option<Bytes>)
    ensures r.Some? ==> Ends(r.value, s)
  {
    if |word| <= |s| && s[..|word|] == word then Some(s[|word|..]) else None
  }

  /** The value of what is not a string or a container. */
  function Scalar(lib: Library, s: Bytes): (r: Option<(Tree, Bytes)>)
    ensures r.Some? ==> Ends(r.value.1, s) && |r.value.1| < |s|
  {
    if s == [] then None
    else if s[0] == 116 then
      var rest :- Literal(s, TRUE);
      Some((Bool(true), rest))
    else if s[0] == 102 then
      var rest :- Literal(s, FALSE);
      Some((Bool(false), rest))
    else if s[0] == 110 then
      var rest :- Literal(s, NULL);
      Some((Null, rest))
    else if s[0] == MINUS || IsDigit(s[0]) then
      var rest :- AfterNumber(s);
      var n :- NumberOf(lib, Read(s, rest));
      Some((Num(n), rest))
    else None
  }

  /** A colon with white space around it. */
  function Colon(s: Bytes): (r: Option<Bytes>)
    ensures r.Some? ==> Ends(r.value, s)
  {
    var a := Ws(s);
    if !Starts(a, COLON) then None
    else
      EndsTransitive(a[1..], a, s);
      EndsTransitive(Ws(a[1..]), a[1..], s);
      Some(Ws(a[1..]))
  }

  /** One value, `depth` containers deep, and what follows it. */
  function Value(lib: Library, s: Bytes, depth: nat): (r: Option<(Tree, Bytes)>)
    ensures r.Some? ==> Ends(r.value.1, s) && |r.value.1| < |s|
    decreases |s|, 1
  {
    if Starts(s, OPEN_OBJECT) then
      if depth + 1 > MAX_DEPTH then None
      else
        var a := Ws(s[1..]);
        EndsTransitive(a, s[1..], s);
        if Starts(a, CLOSE_OBJECT) then
          EndsTransitive(a[1..], a, s);
          Some((Obj([]), a[1..]))
        else
          var (members, rest) :- Members(lib, a, depth + 1);
          EndsTransitive(rest, a, s);
          Some((Obj(members), rest))
    else if Starts(s, OPEN_ARRAY) then
      if depth + 1 > MAX_DEPTH then None
      else
        var a := Ws(s[1..]);
        EndsTransitive(a, s[1..], s);
        if Starts(a, CLOSE_ARRAY) then
          EndsTransitive(a[1..], a, s);
          Some((Arr([]), a[1..]))
        else
          var (items, rest) :- Elements(lib, a, depth + 1);
          EndsTransitive(rest, a, s);
          Some((Arr(items), rest))
    else if Starts(s, QUOTE) then
      var (text, rest) :- StringOf(s);
      Some((Str(text), rest))
    else Scalar(lib, s)
  }

  /** One key and its value, and what follows them. */
  function Member(lib: Library, s: Bytes, depth: nat): (r: Option<((Bytes, Tree), Bytes)>)
    ensures r.Some? ==> Ends(r.value.1, s) && |r.value.1| < |s|
    decreases |s|, 2
  {
    var (key, a) :- StringOf(s);
    var b :- Colon(a);
    EndsTransitive(b, a, s);
    var (value, c) :- Value(lib, b, depth);
    EndsTransitive(c, b, s);
    Some(((key, value), c))
  }

  /** The members of an object from a key on, through the closing brace. */
  function Members(lib: Library, s: Bytes, depth: nat): (r: Option<(seq<(Bytes, Tree)>, Bytes)>)
    ensures r.Some? ==> Ends(r.value.1, s) && |r.value.1| < |s|
    decreases |s|, 3
  {
    var (member, a) :- Member(lib, s, depth);
    var b := Ws(a);
    EndsTransitive(b, a, s);
    if Starts(b, CLOSE_OBJECT) then
      EndsTransitive(b[1..], b, s);
      Some(([member], b[1..]))
    else if Starts(b, COMMA) then
      var c := Ws(b[1..]);
      EndsTransitive(b[1..], b, s);
      EndsTransitive(c, b[1..], s);
      var (more, rest) :- Members(lib, c, depth);
      EndsTransitive(rest, c, s);
      Some(([member] + more, rest))
    else None
  }

  /** The elements of an array from one on, through the closing bracket. */
  function Elements(lib: Library, s: Bytes, depth: nat): (r: Option<(seq<Tree>, Bytes)>)
    ensures r.Some? ==> Ends(r.value.1, s) && |r.value.1| < |s|
    decreases |s|, 3
  {
    var (item, a) :- Value(lib, s, depth);
    var b := Ws(a);
    EndsTransitive(b, a, s);
    if Starts(b, CLOSE_ARRAY) then
      EndsTransitive(b[1..], b, s);
      Some(([item], b[1..]))
    else if Starts(b, COMMA) then
      var c := Ws(b[1..]);
      EndsTransitive(b[1..], b, s);
      EndsTransitive(c, b[1..], s);
      var (more, rest) :- Elements(lib, c, depth);
      EndsTransitive(rest, c, s);
      Some(([item] + more, rest))
    else None
  }

  // ---- A value's text alone says what it says in place -----------------------

  lemma StepDrop(s: Bytes, n: nat)
    requires n < |s|
    ensures Drop(s, n) != [] && Drop(s, n)[0] == s[0] && Drop(s, n)[1..] == Drop(s[1..], n) && |Drop(s, n)| == |s| - n
    ensures forall b :: Starts(Drop(s, n), b) == Starts(s, b)
  {
  }

  lemma LiteralDrop(s: Bytes, word: Bytes, n: nat)
    requires Literal(s, word).Some? && n <= |Literal(s, word).value|
    ensures Literal(Drop(s, n), word) == Some(Drop(Literal(s, word).value, n))
  {
    var w := |word|;
    assert Drop(s, n)[..w] == s[..w] && Drop(s, n)[w..] == Drop(s[w..], n);
  }

  lemma ScalarDrop(lib: Library, s: Bytes, n: nat)
    requires Scalar(lib, s).Some? && n <= |Scalar(lib, s).value.1|
    ensures Scalar(lib, Drop(s, n)) == Some((Scalar(lib, s).value.0, Drop(Scalar(lib, s).value.1, n)))
  {
    hide Literal, AfterNumber, NumberOf, Drop, Read, Ends;
    StepDrop(s, n);
    if s[0] == 116 {
      LiteralDrop(s, TRUE, n);
    } else if s[0] == 102 {
      LiteralDrop(s, FALSE, n);
    } else if s[0] == 110 {
      LiteralDrop(s, NULL, n);
    } else {
      NumberDrop(s, n);
    }
  }

  lemma ColonDrop(s: Bytes, n: nat)
    requires Colon(s).Some? && n <= |Colon(s).value|
    ensures Colon(Drop(s, n)) == Some(Drop(Colon(s).value, n))
  {
    hide Ws, Drop;
    var a := Ws(s);
    StepDrop(a, n);
    WsDrop(s, n);
    WsDrop(a[1..], n);
  }

  /** Dropping octets after a value changes neither the value nor where it ends. */
  lemma {:induction false} ValueDrop(lib: Library, s: Bytes, depth: nat, n: nat)
    requires Value(lib, s, depth).Some? && n <= |Value(lib, s, depth).value.1|
    ensures Value(lib, Drop(s, n), depth) == Some((Value(lib, s, depth).value.0, Drop(Value(lib, s, depth).value.1, n)))
    decreases |s|, 1
  {
    hide Ws, Drop, StringOf, Scalar, Members, Elements, Ends;
    StepDrop(s, n);
    if Starts(s, OPEN_OBJECT) {
      var a := Ws(s[1..]);
      ObjectLengths(lib, s, a, depth);
      WsDrop(s[1..], n);
      StepDrop(a, n);
      if !Starts(a, CLOSE_OBJECT) { MembersDrop(lib, a, depth + 1, n); }
    } else if Starts(s, OPEN_ARRAY) {
      var a := Ws(s[1..]);
      ArrayLengths(lib, s, a, depth);
      WsDrop(s[1..], n);
      StepDrop(a, n);
      if !Starts(a, CLOSE_ARRAY) { ElementsDrop(lib, a, depth + 1, n); }
    } else if Starts(s, QUOTE) {
      StringDrop(s, n);
    } else {
      ScalarDrop(lib, s, n);
    }
  }

  lemma ObjectLengths(lib: Library, s: Bytes, a: Bytes, depth: nat)
    requires Starts(s, OPEN_OBJECT) && Value(lib, s, depth).Some? && a == Ws(s[1..])
    ensures |Value(lib, s, depth).value.1| < |a| < |s|
  {
  }

  lemma ArrayLengths(lib: Library, s: Bytes, a: Bytes, depth: nat)
    requires Starts(s, OPEN_ARRAY) && Value(lib, s, depth).Some? && a == Ws(s[1..])
    ensures |Value(lib, s, depth).value.1| < |a| < |s|
  {
  }

  lemma {:induction false} MemberDrop(lib: Library, s: Bytes, depth: nat, n: nat)
    requires Member(lib, s, depth).Some? && n <= |Member(lib, s, depth).value.1|
    ensures Member(lib, Drop(s, n), depth) ==
              Some((Member(lib, s, depth).value.0, Drop(Member(lib, s, depth).value.1, n)))
    decreases |s|, 2
  {
    var (key, a) := StringOf(s).value;
    var b := Colon(a).value;
    var (value, c) := Value(lib, b, depth).value;
    assert |c| < |b| <= |a| < |s|;
    hide StringOf, Colon, Value, Drop, Ends;
    StringDrop(s, n);
    ColonDrop(a, n);
    ValueDrop(lib, b, depth, n);
  }

  lemma {:induction false} MembersDrop(lib: Library, s: Bytes, depth: nat, n: nat)
    requires Members(lib, s, depth).Some? && n <= |Members(lib, s, depth).value.1|
    ensures Members(lib, Drop(s, n), depth) ==
              Some((Members(lib, s, depth).value.0, Drop(Members(lib, s, depth).value.1, n)))
    decreases |s|, 3
  {
    var (member, a) := Member(lib, s, depth).value;
    var b := Ws(a);
    assert |b| <= |a| < |s|;
    var last := Starts(b, CLOSE_OBJECT);
    assert n < |b|;
    hide Member, Ws, Drop, Ends;
    MemberDrop(lib, s, depth, n);
    WsDrop(a, n);
    StepDrop(b, n);
    if !last {
      var c := Ws(b[1..]);
      WsShorter(b[1..]);
      WsDrop(b[1..], n);
      MembersDrop(lib, c, depth, n);
    }
  }

  lemma WsShorter(s: Bytes)
    ensures |Ws(s)| <= |s|
  {
  }

  lemma {:induction false} ElementsDrop(lib: Library, s: Bytes, depth: nat, n: nat)
    requires Elements(lib, s, depth).Some? && n <= |Elements(lib, s, depth).value.1|
    ensures Elements(lib, Drop(s, n), depth) ==
              Some((Elements(lib, s, depth).value.0, Drop(Elements(lib, s, depth).value.1, n)))
    decreases |s|, 3
  {
    var (item, a) := Value(lib, s, depth).value;
    var b := Ws(a);
    assert |b| <= |a| < |s|;
    var last := Starts(b, CLOSE_ARRAY);
    assert n < |b|;
    hide Value, Ws, Drop, Ends;
    ValueDrop(lib, s, depth, n);
    WsDrop(a, n);
    StepDrop(b, n);
    if !last {
      var c := Ws(b[1..]);
      WsShorter(b[1..]);
      WsDrop(b[1..], n);
      ElementsDrop(lib, c, depth, n);
    }
  }

  /** A whole document: one value with optional white space around it. */
  function Document(lib: Library, s: Bytes): Option<Tree> {
    var (tree, rest) :- Value(lib, Ws(s), 0);
    if Ws(rest) == [] then Some(tree) else None
  }

  /** The slice a value was read from is a document that holds the same value. */
  lemma SliceIsDocument(lib: Library, s: Bytes)
    requires Value(lib, s, 0).Some?
    ensures var (tree, rest) := Value(lib, s, 0).value; Document(lib, Read(s, rest)) == Some(tree)
  {
    var (tree, rest) := Value(lib, s, 0).value;
    assert |rest| < |s|;
    StartsSolid(lib, s);
    hide Value;
    ValueDrop(lib, s, 0, |rest|);
    StepDrop(s, |rest|);
    assert Drop(rest, |rest|) == [] && Read(s, rest) == Drop(s, |rest|);
    assert Ws(Drop(s, |rest|)) == Drop(s, |rest|);
  }

  lemma StartsSolid(lib: Library, s: Bytes)
    requires Value(lib, s, 0).Some?
    ensures s != [] && !IsSpace(s[0])
  {
    hide Members, Elements, StringOf, AfterNumber, NumberOf, Literal;
  }
}
