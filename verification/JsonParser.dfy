/** The strict JSON parser at work (`json_read.rs`): a position, a depth and shared scratch stacks. */
module JsonParser {
  import opened Prelude
  import opened Text
  import opened JsonSyntax

  // ---- Building values -------------------------------------------------------

  /** What a caller makes of each piece; `None` gives the whole document up. */
  datatype Builder<!V> = Builder(nothing: Option<V>, boolean: bool -> Option<V>, number: Number -> Option<V>,
                                 text: Bytes -> Option<V>, key: Bytes -> Option<V>, list: seq<V> -> Option<V>,
                                 dict: (seq<V>, seq<V>) -> Option<V>)

  function Build<V>(b: Builder<V>, t: Tree): Option<V>
    decreases t
  {
    match t
    case Null => b.nothing
    case Bool(x) => b.boolean(x)
    case Num(n) => b.number(n)
    case Str(s) => b.text(s)
    case Arr(items) =>
      var values :- BuildItems(b, items);
      b.list(values)
    case Obj(members) =>
      var keys :- BuildKeys(b, members);
      var values :- BuildValues(b, members);
      b.dict(keys, values)
  }

  function BuildItems<V>(b: Builder<V>, items: seq<Tree>): (r: Option<seq<V>>)
    ensures r.Some? ==> |r.value| == |items|
    decreases items
  {
    if items == [] then Some([])
    else
      var n := |items| - 1;
      var before :- BuildItems(b, items[..n]);
      var last :- Build(b, items[n]);
      Some(before + [last])
  }

  function BuildKeys<V>(b: Builder<V>, members: seq<(Bytes, Tree)>): Option<seq<V>>
    decreases |members|
  {
    if members == [] then Some([])
    else
      var n := |members| - 1;
      var before :- BuildKeys(b, members[..n]);
      var last :- b.key(members[n].0);
      Some(before + [last])
  }

  function BuildValues<V>(b: Builder<V>, members: seq<(Bytes, Tree)>): Option<seq<V>>
    decreases members
  {
    if members == [] then Some([])
    else
      var n := |members| - 1;
      var before :- BuildValues(b, members[..n]);
      var last :- BuildSecond(b, members[n]);
      Some(before + [last])
  }

  function BuildSecond<V>(b: Builder<V>, member: (Bytes, Tree)): Option<V>
    decreases member
  {
    Build(b, member.1)
  }

  /** The builder that only validates. */
  const SKIP: Builder<()> :=
    Builder(Some(()), (x: bool) => Some(()), (n: Number) => Some(()), (s: Bytes) => Some(()), (s: Bytes) => Some(()),
                                     (items: seq<()>) => Some(()), (keys: seq<()>, values: seq<()>) => Some(()))

  lemma {:induction false} SkipAccepts(t: Tree)
    ensures Build(SKIP, t).Some?
    decreases t
  {
    match t
    case Arr(items) => SkipItems(items);
    case Obj(members) =>
      SkipKeys(members);
      SkipMembers(members);
    case _ =>
  }

  lemma {:induction false} SkipItems(items: seq<Tree>)
    ensures BuildItems(SKIP, items).Some?
    decreases items
  {
    if items != [] {
      SkipItems(items[..|items| - 1]);
      SkipAccepts(items[|items| - 1]);
    }
  }

  lemma {:induction false} SkipKeys(members: seq<(Bytes, Tree)>)
    ensures BuildKeys(SKIP, members).Some?
    decreases |members|
  {
    if members != [] { SkipKeys(members[..|members| - 1]); }
  }

  lemma {:induction false} SkipMembers(members: seq<(Bytes, Tree)>)
    ensures BuildValues(SKIP, members).Some?
    decreases members
  {
    if members != [] {
      SkipMembers(members[..|members| - 1]);
      SkipMember(members[|members| - 1]);
    }
  }

  lemma {:induction false} SkipMember(member: (Bytes, Tree))
    ensures Build(SKIP, member.1).Some?
    decreases member
  {
    SkipAccepts(member.1);
  }

  lemma BuildItemsSnoc<V>(b: Builder<V>, items: seq<Tree>, item: Tree)
    ensures BuildItems(b, items + [item]) ==
            if BuildItems(b, items).None? || Build(b, item).None? then None
            else Some(BuildItems(b, items).value + [Build(b, item).value])
  {
    assert (items + [item])[..|items|] == items;
  }

  lemma BuildMembersSnoc<V>(b: Builder<V>, members: seq<(Bytes, Tree)>, key: Bytes, t: Tree)
    ensures BuildKeys(b, members + [(key, t)]) ==
            if BuildKeys(b, members).None? || b.key(key).None? then None
            else Some(BuildKeys(b, members).value + [b.key(key).value])
    ensures BuildValues(b, members + [(key, t)]) ==
            if BuildValues(b, members).None? || Build(b, t).None? then None
            else Some(BuildValues(b, members).value + [Build(b, t).value])
  {
    assert (members + [(key, t)])[..|members|] == members;
  }

  /** A piece that cannot be built makes everything that holds it unbuildable. */
  lemma {:induction false} ItemsFail<V>(b: Builder<V>, items: seq<Tree>, more: seq<Tree>)
    requires BuildItems(b, items).None?
    ensures BuildItems(b, items + more).None?
    decreases |more|
  {
    if more == [] {
      assert items + more == items;
    } else {
      var n := |more| - 1;
      ItemsFail(b, items, more[..n]);
      assert items + more == (items + more[..n]) + [more[n]];
      BuildItemsSnoc(b, items + more[..n], more[n]);
    }
  }

  lemma {:induction false} MembersFail<V>(b: Builder<V>, members: seq<(Bytes, Tree)>, more: seq<(Bytes, Tree)>)
    requires BuildKeys(b, members).None? || BuildValues(b, members).None?
    ensures BuildKeys(b, members + more).None? || BuildValues(b, members + more).None?
    decreases |more|
  {
    if more == [] {
      assert members + more == members;
    } else {
      var n := |more| - 1;
      MembersFail(b, members, more[..n]);
      assert members + more == (members + more[..n]) + [more[n]];
      BuildMembersSnoc(b, members + more[..n], more[n].0, more[n].1);
    }
  }

  // ---- The parser ------------------------------------------------------------

  /** The children of the containers that are still open. */
  class Stacks<V> {
    var keys: seq<V>
    var values: seq<V>

    constructor ()
      ensures keys == [] && values == []
    {
      keys, values := [], [];
    }
  }

  class Parser {
    const lib: Library
    const buf: Bytes
    var pos: nat
    var depth: nat

    constructor (lib: Library, buf: Bytes)
      ensures this.lib == lib && this.buf == buf && pos == 0 && depth == 0 && Valid() && Rest() == buf
    {
      this.lib, this.buf, pos, depth := lib, buf, 0, 0;
    }

    ghost predicate Valid()
      reads this
    {
      pos <= |buf|
    }

    /** What is left to read. */
    ghost function Rest(): Bytes
      requires Valid()
      reads this
    {
      buf[pos..]
    }

    method SkipWs()
      requires Valid()
      modifies this`pos
      ensures Valid() && Rest() == Ws(old(Rest()))
    {
      while pos < |buf| && IsSpace(buf[pos])
        invariant Valid() && Ws(Rest()) == Ws(old(Rest()))
      {
        assert Rest()[1..] == buf[pos + 1..];
        pos := pos + 1;
      }
    }

    /** Whether the next octet is `b`. */
    predicate At(b: byte)
      requires Valid()
      reads this
      ensures At(b) == Starts(Rest(), b)
    {
      pos < |buf| && buf[pos] == b
    }

    method Advance()
      requires Valid() && Rest() != []
      modifies this`pos
      ensures Valid() && Rest() == old(Rest())[1..]
    {
      pos := pos + 1;
    }

    method TakeDigits() returns (n: nat)
      requires Valid()
      modifies this`pos
      ensures Valid() && Rest() == Digits(old(Rest())) && n == |old(Rest())| - |Rest()|
    {
      var start := pos;
      while pos < |buf| && IsDigit(buf[pos])
        invariant start <= pos && Valid() && Digits(Rest()) == Digits(old(Rest()))
      {
        assert Rest()[1..] == buf[pos + 1..];
        pos := pos + 1;
      }
      n := pos - start;
    }

    /** Digits where there must be some. */
    method TakeSome() returns (ok: bool)
      requires Valid()
      modifies this`pos
      ensures Valid() && ok == SomeDigits(old(Rest())).Some? && (ok ==> Rest() == SomeDigits(old(Rest())).value)
    {
      ghost var s := Rest();
      if s != [] && IsDigit(s[0]) { Shorter(s); }
      var n := TakeDigits();
      ok := n > 0;
    }

    method TakeWhole() returns (ok: bool)
      requires Valid()
      modifies this`pos
      ensures Valid() && ok == Whole(old(Rest())).Some? && (ok ==> Rest() == Whole(old(Rest())).value)
    {
      if pos == |buf| || !IsDigit(buf[pos]) {
        return false;
      }
      if buf[pos] == 48 {
        Advance();
      } else {
        var _ := TakeDigits();
      }
      ok := true;
    }

    method TakeFraction() returns (ok: bool, present: bool)
      requires Valid()
      modifies this`pos
      ensures Valid() && ok == Fraction(old(Rest())).Some? && (ok ==> Rest() == Fraction(old(Rest())).value)
      ensures present == Starts(old(Rest()), DOT)
    {
      hide SomeDigits;
      present := At(DOT);
      ok := true;
      if present {
        Advance();
        ok := TakeSome();
      }
    }

    method TakeExponent() returns (ok: bool, present: bool)
      requires Valid()
      modifies this`pos
      ensures Valid() && ok == Exponent(old(Rest())).Some? && (ok ==> Rest() == Exponent(old(Rest())).value)
      ensures present == (old(Rest()) != [] && IsExponent(old(Rest())[0]))
    {
      hide SomeDigits;
      present := pos < |buf| && IsExponent(buf[pos]);
      ok := true;
      if present {
        Advance();
        if pos < |buf| && IsSign(buf[pos]) {
          Advance();
        }
        ok := TakeSome();
      }
    }

    /** The magnitude of an integer's digits, unless it needs more than 64 bits. */
    static method Magnitude(digits: Bytes) returns (r: Option<nat>)
      requires forall i :: 0 <= i < |digits| ==> IsDigit(digits[i])
      ensures r == if 0 <= NatOf(digits) < TWO_64 then Some(NatOf(digits)) else None
    {
      var m: nat := 0;
      for i := 0 to |digits|
        invariant m == NatOf(digits[..i]) < TWO_64
      {
        assert digits[..i + 1][..i] == digits[..i];
        m := 10 * m + (digits[i] as int - 48);
        if m >= TWO_64 {
          NatGrows(digits, i + 1);
          return None;
        }
      }
      assert digits[..|digits|] == digits;
      r := Some(m);
    }

    /** The text of a number, and whether it has a fraction or an exponent. */
    method TakeLexeme() returns (ok: bool, float: bool)
      requires Valid()
      modifies this`pos
      ensures Valid() && ok == AfterNumber(old(Rest())).Some?
      ensures ok ==> Rest() == AfterNumber(old(Rest())).value && float == IsFloat(Read(old(Rest()), Rest()))
    {
      hide Whole, Fraction, Exponent, IsFloat, Read, Ends;
      ghost var s := Rest();
      float := false;
      if At(MINUS) {
        Advance();
      }
      assert Rest() == Sign(s);
      ok := TakeWhole();
      if !ok {
        return;
      }
      var fine, dotted := TakeFraction();
      if !fine {
        return false, false;
      }
      var good, raised := TakeExponent();
      if !good {
        return false, false;
      }
      FloatRead(s);
      float := dotted || raised;
    }

    /** A number: an integer of 64 bits, or what the library makes of a decimal. */
    method TakeNumber() returns (r: Option<Number>)
      requires Valid()
      modifies this`pos
      ensures Valid()
      ensures match AfterNumber(old(Rest()))
              case None => r.None?
              case Some(rest) => r == NumberOf(lib, Read(old(Rest()), rest)) && Rest() == rest
    {
      hide AfterNumber, NumberOf, IsFloat;
      ghost var s := Rest();
      var start := pos;
      var ok, float := TakeLexeme();
      if !ok {
        return None;
      }
      ReadInside(s);
      assert buf[start..pos] == Read(s, Rest());
      if !float { IntegerText(s); }
      r := ToNumber(lib, buf[start..pos], float);
    }

    static method ToNumber(lib: Library, text: Bytes, float: bool) returns (r: Option<Number>)
      requires float == IsFloat(text)
      requires !float ==> forall i :: 0 <= i < |text| ==> IsDigit(text[i]) || (i == 0 && text[i] == MINUS)
      ensures r == NumberOf(lib, text)
    {
      hide NatOf, IsFloat;
      if float {
        var bits := lib.float(text);
        return if bits.None? then None else Some(Float(bits.value));
      }
      var negative := Starts(text, MINUS);
      var digits := if negative then text[1..] else text;
      var m := Magnitude(digits);
      NatGrows(digits, 0);
      NatNothing(digits);
      if m.None? {
        return None;
      }
      if negative {
        r := if m.value <= TWO_63 then Some(Int(-m.value)) else None;
      } else {
        r := Some(Int(m.value));
      }
    }

    /** The next plain octets of a string and the escape after them; `last` when the closing quote was reached. */
    method TakePiece() returns (r: Option<Bytes>, last: bool)
      requires Valid()
      modifies this`pos
      ensures Valid() && (r.None? ==> StringBody(old(Rest())).None?)
      ensures r.Some? && last ==> StringBody(old(Rest())) == Some((r.value, Rest()))
      ensures r.Some? && !last ==>
                StringBody(old(Rest())) == Owned(r.value, StringBody(Rest())) && |Rest()| < |old(Rest())|
    {
      hide Plain, GoodChunk, Escape, StringBody, Owned, Ends;
      last := false;
      var rest := buf[pos..];
      OwnedStep(rest);
      PlainInside(rest);
      var k := Plain(rest);
      if k == |rest| || !GoodChunk(rest[..k]) {
        return None, false;
      }
      if rest[k] == QUOTE {
        pos := pos + k + 1;
        return Some(rest[..k]), true;
      }
      var escape := Escape(rest[k + 1..]);
      if escape.None? {
        return None, false;
      }
      EscapeInside(rest[k + 1..]);
      var (text, after) := escape.value;
      pos := |buf| - |after|;
      r := Some(rest[..k] + text);
    }

    /** A string with its escapes resolved. */
    method TakeString() returns (r: Option<Bytes>)
      requires Valid()
      modifies this`pos
      ensures Valid()
      ensures match StringOf(old(Rest()))
              case None => r.None?
              case Some((text, rest)) => r == Some(text) && Rest() == rest
    {
      hide StringBody;
      if !At(QUOTE) {
        return None;
      }
      Advance();
      ghost var s := Rest();
      var owned: Bytes := [];
      OwnedStart(s);
      while true
        invariant Valid() && StringBody(s) == Owned(owned, StringBody(Rest()))
        decreases |Rest()|
      {
        ghost var before := Rest();
        var piece, last := TakePiece();
        if piece.None? {
          return None;
        }
        if last {
          return Some(owned + piece.value);
        }
        OwnedTwice(owned, piece.value, StringBody(Rest()));
        owned := owned + piece.value;
      }
    }

    method TakeLiteral(word: Bytes) returns (ok: bool)
      requires Valid()
      modifies this`pos
      ensures Valid() && ok == Literal(old(Rest()), word).Some? && (ok ==> Rest() == Literal(old(Rest()), word).value)
    {
      ok := pos + |word| <= |buf| && buf[pos..pos + |word|] == word;
      assert pos + |word| <= |buf| ==> buf[pos..][..|word|] == buf[pos..pos + |word|];
      if ok {
        assert Rest()[|word|..] == buf[pos + |word|..];
        pos := pos + |word|;
      }
    }

    method TakeColon() returns (ok: bool)
      requires Valid()
      modifies this`pos
      ensures Valid() && ok == Colon(old(Rest())).Some? && (ok ==> Rest() == Colon(old(Rest())).value)
    {
      hide Ws;
      SkipWs();
      if !At(COLON) {
        return false;
      }
      Advance();
      SkipWs();
      ok := true;
    }

    /** After a value in a container: whether another follows, or the container closes. */
    method TakeNext(close: byte) returns (r: Option<bool>)
      requires Valid() && close != COMMA
      modifies this`pos
      ensures Valid()
      ensures var a := Ws(old(Rest()));
              if Starts(a, close) then r == Some(false) && Rest() == a[1..]
              else if Starts(a, COMMA) then r == Some(true) && Rest() == Ws(a[1..])
              else r.None?
    {
      hide Ws;
      SkipWs();
      if At(close) {
        Advance();
        return Some(false);
      }
      if At(COMMA) {
        Advance();
        SkipWs();
        return Some(true);
      }
      r := None;
    }

    /** A value that is not a container. */
    method TakeScalar<V>(b: Builder<V>) returns (r: Option<V>)
      requires Valid()
      modifies this`pos
      ensures Valid()
      ensures match Scalar(lib, old(Rest()))
              case None => r.None?
              case Some((t, rest)) => r == Build(b, t) && Rest() == rest
    {
      hide Literal, AfterNumber, NumberOf, Read, Ends;
      if pos == |buf| {
        return None;
      }
      var c := buf[pos];
      assert Rest()[0] == c;
      if c == 116 {
        var ok := TakeLiteral(TRUE);
        return if ok then b.boolean(true) else None;
      } else if c == 102 {
        var ok := TakeLiteral(FALSE);
        return if ok then b.boolean(false) else None;
      } else if c == 110 {
        var ok := TakeLiteral(NULL);
        return if ok then b.nothing else None;
      } else if c == MINUS || IsDigit(c) {
        var n := TakeNumber();
        return if n.Some? then b.number(n.value) else None;
      }
      r := None;
    }

    /** One value, its containers built from the stacks, which are as before when it is done. */
    method ValueIn<V(!new)>(b: Builder<V>, st: Stacks<V>) returns (r: Option<V>)
      requires Valid()
      modifies this`pos, this`depth, st
      ensures Valid() && ValueRead(b, old(Rest()), old(depth), r)
      ensures r.Some? ==> Rest() == Value(lib, old(Rest()), old(depth)).value.1
      ensures r.Some? ==> depth == old(depth) && st.keys == old(st.keys) && st.values == old(st.values)
      decreases |Rest()|, 3
    {
      hide Scalar, StringOf, Ws, Members, Elements;
      if At(OPEN_OBJECT) {
        r := ObjectIn(b, st);
      } else if At(OPEN_ARRAY) {
        r := ArrayIn(b, st);
      } else if At(QUOTE) {
        var text := TakeString();
        r := if text.None? then None else b.text(text.value);
      } else {
        r := TakeScalar(b);
      }
    }

    /** `r` is what the value at the start of `s` builds; `None` when there is none or it cannot be built. */
    ghost predicate ValueRead<V>(b: Builder<V>, s: Bytes, d: nat, r: Option<V>) {
      match Value(lib, s, d)
      case None => r.None?
      case Some((t, _)) => r == Build(b, t)
    }

    method ArrayIn<V(!new)>(b: Builder<V>, st: Stacks<V>) returns (r: Option<V>)
      requires Valid() && Starts(Rest(), OPEN_ARRAY)
      modifies this`pos, this`depth, st
      ensures Valid() && ValueRead(b, old(Rest()), old(depth), r)
      ensures r.Some? ==> Rest() == Value(lib, old(Rest()), old(depth)).value.1
      ensures r.Some? ==> depth == old(depth) && st.keys == old(st.keys) && st.values == old(st.values)
      decreases |Rest()|, 2
    {
      hide Ws, Elements, Ends, BuildItems;
      depth := depth + 1;
      if depth > MAX_DEPTH {
        return None;
      }
      Advance();
      var v0 := |st.values|;
      WsShorter(Rest());
      SkipWs();
      ghost var items: seq<Tree> := [];
      NoItems(b);
      if At(CLOSE_ARRAY) {
        Advance();
      } else {
        ghost var s := Rest();
        var ok := ElementsIn(b, st);
        if !ok {
          return None;
        }
        items := Elements(lib, s, depth).value.0;
      }
      depth := depth - 1;
      assert st.values[v0..] == BuildItems(b, items).value;
      r := b.list(st.values[v0..]);
      st.values := st.values[..v0];
    }

    /** The elements of an array, pushed on the stack. */
    method ElementsIn<V(!new)>(b: Builder<V>, st: Stacks<V>) returns (ok: bool)
      requires Valid()
      modifies this`pos, this`depth, st
      ensures Valid()
      ensures ok <==>
                Elements(lib, old(Rest()), old(depth)).Some?
                && BuildItems(b, Elements(lib, old(Rest()), old(depth)).value.0).Some?
      ensures ok ==>
                Rest() == Elements(lib, old(Rest()), old(depth)).value.1 && depth == old(depth)
                && st.keys == old(st.keys)
      ensures ok ==> st.values == old(st.values) + BuildItems(b, Elements(lib, old(Rest()), old(depth)).value.0).value
      decreases |Rest()|, 4
    {
      hide Ws, Value, Elements, BuildItems, Ends;
      ghost var s, d := Rest(), depth;
      ghost var done: seq<Tree> := [];
      NoItems(b);
      Resume(Elements(lib, s, d));
      assert st.values + [] == st.values;
      while true
        invariant Valid() && depth == d && st.keys == old(st.keys) && |Rest()| <= |s|
        invariant Elements(lib, s, d) == Resumed(done, Elements(lib, Rest(), d))
        invariant BuildItems(b, done).Some? && st.values == old(st.values) + BuildItems(b, done).value
        decreases |Rest()|
      {
        ghost var here := Rest();
        ElementsStep(lib, here, d);
        ValueShorter(lib, here, d);
        var item := ValueIn(b, st);
        if item.None? {
          if Value(lib, here, d).Some? { ItemFails(lib, b, s, d, done, here); }
          return false;
        }
        ghost var t := Value(lib, here, d).value.0;
        BuildItemsSnoc(b, done, t);
        Pushed(old(st.values), BuildItems(b, done).value, item.value);
        st.values := st.values + [item.value];
        WsShorter(Rest());
        ghost var after := Rest();
        var next := TakeNext(CLOSE_ARRAY);
        if next.None? {
          return false;
        }
        if !next.value {
          return true;
        }
        WsShorter(Ws(after)[1..]);
        ResumeStep(done, t, Elements(lib, Rest(), d));
        done := done + [t];
      }
    }

    method ObjectIn<V(!new)>(b: Builder<V>, st: Stacks<V>) returns (r: Option<V>)
      requires Valid() && Starts(Rest(), OPEN_OBJECT)
      modifies this`pos, this`depth, st
      ensures Valid() && ValueRead(b, old(Rest()), old(depth), r)
      ensures r.Some? ==> Rest() == Value(lib, old(Rest()), old(depth)).value.1
      ensures r.Some? ==> depth == old(depth) && st.keys == old(st.keys) && st.values == old(st.values)
      decreases |Rest()|, 2
    {
      hide Ws, Members, Ends, BuildKeys, BuildValues;
      depth := depth + 1;
      if depth > MAX_DEPTH {
        return None;
      }
      Advance();
      var k0, v0 := |st.keys|, |st.values|;
      WsShorter(Rest());
      SkipWs();
      ghost var members: seq<(Bytes, Tree)> := [];
      NoMembers(b);
      if At(CLOSE_OBJECT) {
        Advance();
      } else {
        ghost var s := Rest();
        var ok := MembersIn(b, st);
        if !ok {
          return None;
        }
        members := Members(lib, s, depth).value.0;
      }
      depth := depth - 1;
      assert st.keys[k0..] == BuildKeys(b, members).value && st.values[v0..] == BuildValues(b, members).value;
      r := b.dict(st.keys[k0..], st.values[v0..]);
      st.keys, st.values := st.keys[..k0], st.values[..v0];
    }

    /** One key and its value, pushed on the stacks. */
    method MemberIn<V(!new)>(b: Builder<V>, st: Stacks<V>) returns (ok: bool)
      requires Valid()
      modifies this`pos, this`depth, st
      ensures Valid()
      ensures ok <==>
                Member(lib, old(Rest()), old(depth)).Some? && CanBuild(b, Member(lib, old(Rest()), old(depth)).value.0)
      ensures ok ==> Rest() == Member(lib, old(Rest()), old(depth)).value.1 && depth == old(depth)
      ensures ok ==> st.keys == old(st.keys) + [b.key(Member(lib, old(Rest()), old(depth)).value.0.0).value]
      ensures ok ==> st.values == old(st.values) + [Build(b, Member(lib, old(Rest()), old(depth)).value.0.1).value]
      decreases |Rest()|, 4
    {
      hide StringOf, Colon, Value, Build, Ends;
      ghost var s := Rest();
      StringShorter(s);
      var key := TakeString();
      if key.None? {
        return false;
      }
      var built := b.key(key.value);
      if built.None? {
        return false;
      }
      st.keys := st.keys + [built.value];
      ColonShorter(Rest());
      var colon := TakeColon();
      if !colon {
        return false;
      }
      var value := ValueIn(b, st);
      if value.None? {
        return false;
      }
      st.values := st.values + [value.value];
      ok := true;
    }

    /** The members of an object, pushed on the stacks. */
    method MembersIn<V(!new)>(b: Builder<V>, st: Stacks<V>) returns (ok: bool)
      requires Valid()
      modifies this`pos, this`depth, st
      ensures Valid()
      ensures ok <==>
                Members(lib, old(Rest()), old(depth)).Some?
                && Buildable(b, Members(lib, old(Rest()), old(depth)).value.0)
      ensures ok ==> Rest() == Members(lib, old(Rest()), old(depth)).value.1 && depth == old(depth)
      ensures ok ==> st.keys == old(st.keys) + BuildKeys(b, Members(lib, old(Rest()), old(depth)).value.0).value
      ensures ok ==> st.values == old(st.values) + BuildValues(b, Members(lib, old(Rest()), old(depth)).value.0).value
      decreases |Rest()|, 5
    {
      hide Ws, Member, Members, BuildKeys, BuildValues, Ends, Build;
      ghost var s, d := Rest(), depth;
      ghost var done: seq<(Bytes, Tree)> := [];
      NoMembers(b);
      Resume(Members(lib, s, d));
      assert st.values + [] == st.values && st.keys + [] == st.keys;
      while true
        invariant Valid() && depth == d && |Rest()| <= |s|
        invariant Members(lib, s, d) == Resumed(done, Members(lib, Rest(), d))
        invariant Buildable(b, done) && st.keys == old(st.keys) + BuildKeys(b, done).value
        invariant st.values == old(st.values) + BuildValues(b, done).value
        decreases |Rest()|
      {
        ghost var here := Rest();
        MembersStep(lib, here, d);
        MemberShorter(lib, here, d);
        var pushed := MemberIn(b, st);
        if !pushed {
          if Member(lib, here, d).Some? { MemberFails(lib, b, s, d, done, here); }
          return false;
        }
        ghost var (key, t) := Member(lib, here, d).value.0;
        BuildMembersSnoc(b, done, key, t);
        Pushed(old(st.keys), BuildKeys(b, done).value, b.key(key).value);
        Pushed(old(st.values), BuildValues(b, done).value, Build(b, t).value);
        WsShorter(Rest());
        ghost var after := Rest();
        var next := TakeNext(CLOSE_OBJECT);
        if next.None? {
          return false;
        }
        if !next.value {
          return true;
        }
        WsShorter(Ws(after)[1..]);
        ResumeStep(done, (key, t), Members(lib, Rest(), d));
        done := done + [(key, t)];
      }
    }

    /** Validates a value and returns its text. */
    method SkipValue() returns (r: Option<Bytes>)
      requires Valid()
      modifies this`pos, this`depth
      ensures Valid() && (r.Some? <==> Value(lib, old(Rest()), old(depth)).Some?)
      ensures r.Some? ==>
                Rest() == Value(lib, old(Rest()), old(depth)).value.1 && r.value == Read(old(Rest()), Rest())
                && depth == old(depth)
    {
      hide Value, Build;
      var start := pos;
      ghost var s := Rest();
      ValueShorter(lib, s, depth);
      if Value(lib, s, depth).Some? { SkipAccepts(Value(lib, s, depth).value.0); }
      var st := new Stacks<()>();
      var v := ValueIn(SKIP, st);
      if v.None? {
        return None;
      }
      assert buf[start..pos] == Read(s, Rest());
      r := Some(buf[start..pos]);
    }

    /** A whole document. */
    method TakeDocument<V(!new)>(b: Builder<V>, st: Stacks<V>) returns (r: Option<V>)
      requires Valid() && pos == 0 && depth == 0
      modifies this`pos, this`depth, st
      ensures r == match Document(lib, buf) case None => None case Some(t) => Build(b, t)
      ensures r.Some? ==> st.keys == old(st.keys) && st.values == old(st.values)
    {
      hide Value, Build, Ws;
      assert Rest() == buf;
      SkipWs();
      r := ValueIn(b, st);
      if r.None? {
        return;
      }
      SkipWs();
      if pos != |buf| {
        return None;
      }
    }

    /** After white space: whether an object opens, and whether it has a first key; positioned on that key. */
    method OpenObject() returns (r: Option<bool>)
      requires Valid()
      modifies this`pos
      ensures Valid()
      ensures var a := Ws(old(Rest()));
              if !Starts(a, OPEN_OBJECT) then r.None?
              else
                var c := Ws(a[1..]);
                if Starts(c, CLOSE_OBJECT) then r == Some(false) && Rest() == c[1..]
                else if Starts(c, QUOTE) then r == Some(true) && Rest() == c
                else r.None?
    {
      hide Ws;
      SkipWs();
      if !At(OPEN_OBJECT) {
        return None;
      }
      Advance();
      SkipWs();
      if At(CLOSE_OBJECT) {
        Advance();
        return Some(false);
      }
      r := if At(QUOTE) then Some(true) else None;
    }

    /** A key, and the text of its value. */
    method RawMember() returns (r: Option<(Bytes, Bytes)>)
      requires Valid() && depth == 0
      modifies this`pos, this`depth
      ensures Valid() && (r.Some? <==> Member(lib, old(Rest()), 0).Some?)
      ensures r.Some? ==> depth == 0 && Rest() == Member(lib, old(Rest()), 0).value.1
      ensures r.Some? ==> RawOf(lib, r.value, Member(lib, old(Rest()), 0).value.0)
    {
      hide StringOf, Colon, Value, Ends, Read, Document;
      var key := TakeString();
      if key.None? {
        return None;
      }
      var colon := TakeColon();
      if !colon {
        return None;
      }
      ghost var s := Rest();
      var raw := SkipValue();
      if raw.None? {
        return None;
      }
      SliceIsDocument(lib, s);
      SliceSolid(lib, s);
      r := Some((key.value, raw.value));
    }

    /** An object's keys with the text of each value. */
    method RawObject() returns (r: Option<seq<(Bytes, Bytes)>>)
      requires Valid() && depth == 0
      modifies this`pos, this`depth
      ensures Valid()
      ensures match TopMembers(lib, old(Rest()))
              case None => r.None?
              case Some((members, rest)) => r.Some? && RawsOf(lib, r.value, members) && Rest() == rest
    {
      hide Ws, Member, Members, RawOf, Ends;
      var open := OpenObject();
      if open.None? {
        return None;
      }
      var fields: seq<(Bytes, Bytes)> := [];
      if !open.value {
        return Some(fields);
      }
      ghost var s := Rest();
      ghost var done: seq<(Bytes, Tree)> := [];
      Resume(Members(lib, s, 0));
      while true
        invariant Valid() && depth == 0 && RawsOf(lib, fields, done)
        invariant Members(lib, s, 0) == Resumed(done, Members(lib, Rest(), 0))
        decreases |Rest()|
      {
        ghost var here := Rest();
        MembersStep(lib, here, 0);
        MemberShorter(lib, here, 0);
        var field := RawMember();
        if field.None? {
          return None;
        }
        ghost var m := Member(lib, here, 0).value.0;
        fields := fields + [field.value];
        WsShorter(Rest());
        ghost var after := Rest();
        var next := TakeNext(CLOSE_OBJECT);
        if next.None? {
          return None;
        }
        ResumeStep(done, m, Some(([], Rest())));
        if !next.value {
          assert done + [m] == done + ([m]);
          return Some(fields);
        }
        WsShorter(Ws(after)[1..]);
        ResumeStep(done, m, Members(lib, Rest(), 0));
        done := done + [m];
      }
    }
  }

  /** The members of the object a text starts with, after white space; its values are no containers deep. */
  function TopMembers(lib: Library, s: Bytes): Option<(seq<(Bytes, Tree)>, Bytes)> {
    var a := Ws(s);
    if !Starts(a, OPEN_OBJECT) then None
    else
      var c := Ws(a[1..]);
      if Starts(c, CLOSE_OBJECT) then Some(([], c[1..]))
      else if Starts(c, QUOTE) then Members(lib, c, 0)
      else None
  }

  /** A key with the text of its value: alone, the text is a document of that value. */
  ghost predicate RawOf(lib: Library, raw: (Bytes, Bytes), m: (Bytes, Tree)) {
    raw.0 == m.0 && raw.1 != [] && !IsSpace(raw.1[0]) && Document(lib, raw.1) == Some(m.1)
  }

  ghost predicate RawsOf(lib: Library, raws: seq<(Bytes, Bytes)>, members: seq<(Bytes, Tree)>) {
    |raws| == |members| && forall i :: 0 <= i < |raws| ==> RawOf(lib, raws[i], members[i])
  }

  lemma SliceSolid(lib: Library, s: Bytes)
    requires Value(lib, s, 0).Some?
    ensures var text := Read(s, Value(lib, s, 0).value.1); text != [] && !IsSpace(text[0])
  {
    StartsSolid(lib, s);
    hide Value;
  }

  ghost predicate CanBuild<V>(b: Builder<V>, m: (Bytes, Tree)) {
    b.key(m.0).Some? && Build(b, m.1).Some?
  }

  ghost predicate Buildable<V>(b: Builder<V>, members: seq<(Bytes, Tree)>) {
    BuildKeys(b, members).Some? && BuildValues(b, members).Some?
  }

  lemma NoMembers<V>(b: Builder<V>)
    ensures BuildKeys(b, []) == Some([]) && BuildValues(b, []) == Some([])
  {
  }

  lemma StringShorter(s: Bytes)
    ensures StringOf(s).Some? ==> |StringOf(s).value.1| < |s|
  {
    hide StringOf;
  }

  lemma ColonShorter(s: Bytes)
    ensures Colon(s).Some? ==> |Colon(s).value| <= |s|
  {
    hide Colon;
  }

  lemma MemberShorter(lib: Library, s: Bytes, d: nat)
    ensures Member(lib, s, d).Some? ==> |Member(lib, s, d).value.1| < |s|
  {
    hide Member;
  }

  lemma MembersStep(lib: Library, s: Bytes, d: nat)
    ensures Members(lib, s, d) ==
            match Member(lib, s, d)
            case None => None
            case Some((m, a)) =>
              var b := Ws(a);
              if Starts(b, CLOSE_OBJECT) then Some(([m], b[1..]))
              else if Starts(b, COMMA) then
                var rest := Members(lib, Ws(b[1..]), d);
                if rest.None? then None else Some(([m] + rest.value.0, rest.value.1))
              else None
  {
    hide Member, Ws, Ends;
  }

  /** A member that cannot be built makes the object unbuildable. */
  lemma MemberFails<V>(lib: Library, b: Builder<V>, s: Bytes, d: nat, done: seq<(Bytes, Tree)>, here: Bytes)
    requires Members(lib, s, d) == Resumed(done, Members(lib, here, d)) && Member(lib, here, d).Some?
    requires !CanBuild(b, Member(lib, here, d).value.0)
    ensures Members(lib, s, d).Some? ==> !Buildable(b, Members(lib, s, d).value.0)
  {
    hide Member, Ws, Ends, BuildKeys, BuildValues, Build;
    var m := Member(lib, here, d).value.0;
    BuildMembersSnoc(b, done, m.0, m.1);
    if Members(lib, s, d).Some? {
      var all := Members(lib, s, d).value.0;
      FirstMember(lib, here, d);
      var tail := Members(lib, here, d).value.0[1..];
      assert all == (done + [(m.0, m.1)]) + tail;
      MembersFail(b, done + [(m.0, m.1)], tail);
    }
  }

  lemma FirstMember(lib: Library, s: Bytes, d: nat)
    requires Members(lib, s, d).Some?
    ensures Member(lib, s, d).Some? && Members(lib, s, d).value.0 != []
            && Members(lib, s, d).value.0[0] == Member(lib, s, d).value.0
  {
    hide Member, Ws, Ends;
  }

  /** A listing whose first parts are already `done`. */
  ghost function Resumed<X>(done: seq<X>, rest: Option<(seq<X>, Bytes)>): Option<(seq<X>, Bytes)> {
    match rest
    case None => None
    case Some((more, after)) => Some((done + more, after))
  }

  lemma Resume<X>(rest: Option<(seq<X>, Bytes)>)
    ensures Resumed([], rest) == rest
  {
    if rest.Some? { assert [] + rest.value.0 == rest.value.0; }
  }

  lemma ResumeStep<X>(done: seq<X>, x: X, rest: Option<(seq<X>, Bytes)>)
    ensures Resumed(done, if rest.None? then None else Some(([x] + rest.value.0, rest.value.1))) ==
              Resumed(done + [x], rest)
  {
    if rest.Some? { assert done + ([x] + rest.value.0) == done + [x] + rest.value.0; }
  }

  lemma NoItems<V>(b: Builder<V>)
    ensures BuildItems(b, []) == Some([])
  {
  }

  lemma Pushed<X>(a: seq<X>, b: seq<X>, x: X)
    ensures a + b + [x] == a + (b + [x])
  {
  }

  lemma ValueShorter(lib: Library, s: Bytes, d: nat)
    ensures Value(lib, s, d).Some? ==> |Value(lib, s, d).value.1| < |s|
  {
    hide Value;
  }

  lemma ElementsStep(lib: Library, s: Bytes, d: nat)
    ensures Elements(lib, s, d) ==
            match Value(lib, s, d)
            case None => None
            case Some((t, a)) =>
              var b := Ws(a);
              if Starts(b, CLOSE_ARRAY) then Some(([t], b[1..]))
              else if Starts(b, COMMA) then
                var rest := Elements(lib, Ws(b[1..]), d);
                if rest.None? then None else Some(([t] + rest.value.0, rest.value.1))
              else None
  {
    hide Value, Ws, Ends;
  }

  /** An element that cannot be built makes the array unbuildable. */
  lemma ItemFails<V>(lib: Library, b: Builder<V>, s: Bytes, d: nat, done: seq<Tree>, here: Bytes)
    requires Elements(lib, s, d) == Resumed(done, Elements(lib, here, d))
    requires Value(lib, here, d).Some? && Build(b, Value(lib, here, d).value.0).None?
    ensures Elements(lib, s, d).Some? ==> BuildItems(b, Elements(lib, s, d).value.0).None?
  {
    hide Value, Ws, Ends, BuildItems, Build;
    var t := Value(lib, here, d).value.0;
    ElementsStep(lib, here, d);
    BuildItemsSnoc(b, done, t);
    if Elements(lib, s, d).Some? {
      var all := Elements(lib, s, d).value.0;
      FirstIs(lib, here, d);
      var tail := Elements(lib, here, d).value.0[1..];
      assert all == (done + [t]) + tail;
      ItemsFail(b, done + [t], tail);
    }
  }

  lemma FirstIs(lib: Library, s: Bytes, d: nat)
    requires Elements(lib, s, d).Some?
    ensures Value(lib, s, d).Some? && Elements(lib, s, d).value.0 != []
            && Elements(lib, s, d).value.0[0] == Value(lib, s, d).value.0
  {
    hide Value, Ws, Ends;
  }

  lemma ReadInside(s: Bytes)
    ensures AfterNumber(s).Some? ==> |AfterNumber(s).value| < |s|
  {
    hide AfterNumber;
  }

  /** An integer's text is digits, after a sign if there is one. */
  lemma IntegerText(s: Bytes)
    requires AfterNumber(s).Some? && !IsFloat(Read(s, AfterNumber(s).value))
    ensures var text := Read(s, AfterNumber(s).value);
            forall i :: 0 <= i < |text| ==> IsDigit(text[i]) || (i == 0 && text[i] == MINUS)
  {
    FloatRead(s);
    var b := Whole(Sign(s)).value;
    FractionReads(b);
    ExponentReads(b);
    DigitsRead(Sign(s));
  }

  lemma NatNothing(digits: Bytes)
    ensures NatOf(digits[..0]) == 0
  {
  }

  /** A string whose first octets are already `done`. */
  function Owned(done: Bytes, rest: Option<(Bytes, Bytes)>): Option<(Bytes, Bytes)> {
    match rest
    case None => None
    case Some((more, after)) => Some((done + more, after))
  }

  lemma OwnedStart(s: Bytes)
    ensures StringBody(s) == Owned([], StringBody(s))
  {
    hide StringBody;
    if StringBody(s).Some? { assert [] + StringBody(s).value.0 == StringBody(s).value.0; }
  }

  lemma OwnedTwice(a: Bytes, b: Bytes, rest: Option<(Bytes, Bytes)>)
    ensures Owned(a, Owned(b, rest)) == Owned(a + b, rest)
  {
    if rest.Some? { assert a + (b + rest.value.0) == a + b + rest.value.0; }
  }

  lemma OwnedStep(s: Bytes)
    ensures var k := Plain(s);
            StringBody(s) ==
            if k == |s| || !GoodChunk(s[..k]) then None
            else if s[k] == QUOTE then Some((s[..k], s[k + 1..]))
            else match Escape(s[k + 1..])
                 case None => None
                 case Some((text, after)) => Owned(s[..k] + text, StringBody(after))
  {
    hide GoodChunk, Escape, Ends, Plain;
    PlainInside(s);
  }

  lemma PlainInside(s: Bytes)
    ensures Plain(s) <= |s|
  {
  }

  lemma EscapeInside(s: Bytes)
    requires Escape(s).Some?
    ensures |Escape(s).value.1| < |s| && Escape(s).value.1 == s[|s| - |Escape(s).value.1|..]
  {
  }

  lemma {:induction false} NatGrows(digits: Bytes, i: nat)
    requires i <= |digits| && forall k :: 0 <= k < |digits| ==> IsDigit(digits[k])
    ensures 0 <= NatOf(digits[..i]) <= NatOf(digits)
    decreases |digits|
  {
    if i < |digits| {
      var n := |digits| - 1;
      NatGrows(digits[..n], i);
      assert digits[..n][..i] == digits[..i];
    } else {
      assert digits[..i] == digits;
      if digits != [] {
        NatGrows(digits[..|digits| - 1], |digits| - 1);
        assert digits[..|digits| - 1][..|digits| - 1] == digits[..|digits| - 1];
      }
    }
  }
}
