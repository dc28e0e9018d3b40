/** The checksummed text form of a postings index: `encode`, `Cursor` and `parse` of metric_postings.rs. */
module PostingsText {
  import opened Prelude
  import opened Text
  import opened Bitmap
  import opened Table
  import opened Wire

  const MAGIC: Bytes := [0x50, 0x55, 0x4C, 0x53, 0x4F, 0x4D, 0x50, 0x31]
  const MAX_TEXT := 65_536
  const MAX_RAW := MAX_TEXT / 2
  const MAX_SERIES := 512
  const MAX_GROUPS := 128
  const MAX_ROWS := 100_000
  const MAX_LABELS := 16
  const MAX_FIELD := 256

  /** A row group: its row count and the series with a row in it. */
  datatype Group = Group(rows: nat, bits: Bits)

  /** Per value of one label, the series that have it. */
  type Values = Table<Bits>

  datatype Index = Index(series: nat, rows: nat, groups: seq<Group>, labels: Table<Values>)

  // ---- Well-formed indexes ---------------------------------------------------

  predicate Bit(bits: Bits, o: nat) {
    o < |bits| && bits[o]
  }

  predicate FieldOk(s: Bytes) {
    |s| <= MAX_FIELD && Utf8(s)
  }

  predicate GroupOk(series: nat, rows: nat, g: Group) {
    Fits(g.bits, series) && NonZero(g.bits) && 1 <= g.rows <= rows && Population(g.bits) <= g.rows
  }

  function SumRows(gs: seq<Group>): nat {
    if gs == [] then 0 else SumRows(gs[..|gs| - 1]) + gs[|gs| - 1].rows
  }

  ghost predicate InGroups(gs: seq<Group>, o: nat) {
    exists i :: 0 <= i < |gs| && Bit(gs[i].bits, o)
  }

  /** Row counts add up to the total and every series is in some group. */
  ghost predicate GroupsOk(series: nat, rows: nat, gs: seq<Group>) {
    && (forall i :: 0 <= i < |gs| ==> GroupOk(series, rows, gs[i]))
    && SumRows(gs) == rows
    && (forall o: nat :: o < series ==> InGroups(gs, o))
  }

  predicate ValueOk(series: nat, e: (Bytes, Bits)) {
    FieldOk(e.0) && Fits(e.1, series) && NonZero(e.1)
  }

  ghost predicate InValues(vs: Values, o: nat) {
    exists i :: 0 <= i < |vs| && Bit(vs[i].1, o)
  }

  ghost predicate Disjoint(vs: Values) {
    forall i, j, o: nat :: 0 <= i < j < |vs| ==> !(Bit(vs[i].1, o) && Bit(vs[j].1, o))
  }

  /** Everything about values but their number and their covering every series. */
  ghost predicate ValuesSoFar(series: nat, vs: Values) {
    Sorted(vs) && (forall i :: 0 <= i < |vs| ==> ValueOk(series, vs[i])) && Disjoint(vs)
  }

  /** The values of a label partition the series. */
  ghost predicate ValuesOk(series: nat, vs: Values) {
    1 <= |vs| <= series && ValuesSoFar(series, vs) && forall o: nat :: o < series ==> InValues(vs, o)
  }

  ghost predicate LabelOk(series: nat, l: (Bytes, Values)) {
    FieldOk(l.0) && ValuesOk(series, l.1)
  }

  ghost predicate LabelsOk(series: nat, ls: Table<Values>) {
    Sorted(ls) && forall i :: 0 <= i < |ls| ==> LabelOk(series, ls[i])
  }

  ghost predicate WellFormed(x: Index) {
    && 1 <= x.series <= MAX_SERIES && 1 <= x.rows <= MAX_ROWS && 1 <= |x.groups| <= MAX_GROUPS
    && GroupsOk(x.series, x.rows, x.groups)
    && 1 <= |x.labels| <= MAX_LABELS && LabelsOk(x.series, x.labels)
  }

  // ---- Binary form -----------------------------------------------------------

  /** The codecs the body is made of: 16- and 32-bit words, texts, and bitmaps for a number of series. */
  datatype Parts = Parts(half: Codec<nat>, word: Codec<nat>, field: Codec<Bytes>, bits: nat -> Codec<Bits>)

  function GroupCodec(p: Parts, series: nat): Codec<Group> {
    Codec(
      (g: Group) => p.word.put(g.rows) + p.bits(series).put(g.bits),
      (s: Bytes) =>
        var (rows, s1) :- p.word.get(s);
        var (bits, s2) :- p.bits(series).get(s1);
        Some((Group(rows, bits), s2)))
  }

  function ValueCodec(p: Parts, series: nat): Codec<(Bytes, Bits)> {
    Codec(
      (e: (Bytes, Bits)) => p.field.put(e.0) + p.bits(series).put(e.1),
      (s: Bytes) =>
        var (value, s1) :- p.field.get(s);
        var (bits, s2) :- p.bits(series).get(s1);
        Some(((value, bits), s2)))
  }

  function LabelCodec(p: Parts, series: nat): Codec<(Bytes, Values)> {
    Codec(
      (l: (Bytes, Values)) => p.field.put(l.0) + (p.half.put(|l.1|) + PutAll(ValueCodec(p, series), l.1)),
      (s: Bytes) =>
        var (name, s1) :- p.field.get(s);
        var (n, s2) :- p.half.get(s1);
        var (values, s3) :- GetN(ValueCodec(p, series), s2, n, []);
        Some(((name, values), s3)))
  }

  function PutLists(p: Parts, series: nat, groups: seq<Group>, labels: seq<(Bytes, Values)>): Bytes {
    p.half.put(|groups|) +
    (PutAll(GroupCodec(p, series), groups) + (p.half.put(|labels|) + PutAll(LabelCodec(p, series), labels)))
  }

  function GetLists(p: Parts, series: nat, s: Bytes): Option<((seq<Group>, seq<(Bytes, Values)>), Bytes)> {
    var (n, s1) :- p.half.get(s);
    var (groups, s2) :- GetN(GroupCodec(p, series), s1, n, []);
    var (m, s3) :- p.half.get(s2);
    var (labels, s4) :- GetN(LabelCodec(p, series), s3, m, []);
    Some(((groups, labels), s4))
  }

  function PutIndex(p: Parts, x: Index): Bytes {
    p.half.put(x.series) + (p.word.put(x.rows) + PutLists(p, x.series, x.groups, x.labels))
  }

  function GetIndex(p: Parts, s: Bytes): Option<(Index, Bytes)> {
    var (series, s1) :- p.half.get(s);
    var (rows, s2) :- p.word.get(s1);
    var (lists, s3) :- GetLists(p, series, s2);
    Some((Index(series, rows, lists.0, lists.1), s3))
  }

  function EncodeBody(p: Parts, x: Index): Bytes {
    MAGIC + PutIndex(p, x)
  }

  /** The body of a well-formed index, and nothing else, is accepted. */
  ghost function ParseBody(p: Parts, body: Bytes): Option<Index> {
    if |body| < |MAGIC| || body[..|MAGIC|] != MAGIC then None
    else
      var (x, rest) :- GetIndex(p, body[|MAGIC|..]);
      if rest == [] && WellFormed(x) then Some(x) else None
  }

  // ---- Laws of the binary form -----------------------------------------------

  ghost predicate Lawful(p: Parts) {
    && RoundTrips(p.half, v => v < 0x1_0000) && Faithful(p.half)
    && RoundTrips(p.word, v => v < TWO_32) && Faithful(p.word)
    && RoundTrips(p.field, FieldOk) && Faithful(p.field)
    && (forall n {:trigger p.bits(n)} :: RoundTrips(p.bits(n), (b: Bits) => |b| == 8 * Width(n)) && Faithful(p.bits(n)))
  }

  lemma GroupLaws(p: Parts, series: nat)
    requires Lawful(p)
    ensures RoundTrips(GroupCodec(p, series), (g: Group) => g.rows < TWO_32 && |g.bits| == 8 * Width(series))
    ensures Faithful(GroupCodec(p, series))
  {
    var c, b := GroupCodec(p, series), p.bits(series);
    forall g: Group, rest: Bytes | g.rows < TWO_32 && |g.bits| == 8 * Width(series)
      ensures c.get(c.put(g) + rest) == Some((g, rest))
    {
      var tail := b.put(g.bits) + rest;
      assert c.put(g) + rest == p.word.put(g.rows) + tail;
      assert p.word.get(p.word.put(g.rows) + tail) == Some((g.rows, tail));
      assert b.get(b.put(g.bits) + rest) == Some((g.bits, rest));
    }
    forall s | c.get(s).Some? ensures s == c.put(c.get(s).value.0) + c.get(s).value.1 {
      var (rows, s1) := p.word.get(s).value;
      var (bits, s2) := b.get(s1).value;
      assert s == p.word.put(rows) + (b.put(bits) + s2);
    }
  }

  lemma ValueRoundTrip(p: Parts, series: nat, e: (Bytes, Bits), rest: Bytes)
    requires Lawful(p) && FieldOk(e.0) && |e.1| == 8 * Width(series)
    ensures ValueCodec(p, series).get(ValueCodec(p, series).put(e) + rest) == Some((e, rest))
  {
    var c, b := ValueCodec(p, series), p.bits(series);
    var tail := b.put(e.1) + rest;
    assert c.put(e) + rest == p.field.put(e.0) + tail;
    assert p.field.get(p.field.put(e.0) + tail) == Some((e.0, tail));
    assert b.get(b.put(e.1) + rest) == Some((e.1, rest));
  }

  lemma ValueFaithful(p: Parts, series: nat, s: Bytes)
    requires Lawful(p) && ValueCodec(p, series).get(s).Some?
    ensures var (e, rest) := ValueCodec(p, series).get(s).value; s == ValueCodec(p, series).put(e) + rest
  {
    var b := p.bits(series);
    var (value, s1) := p.field.get(s).value;
    var (bits, s2) := b.get(s1).value;
    assert s == p.field.put(value) + (b.put(bits) + s2);
  }

  lemma ValueLaws(p: Parts, series: nat)
    requires Lawful(p)
    ensures RoundTrips(ValueCodec(p, series), (e: (Bytes, Bits)) => FieldOk(e.0) && |e.1| == 8 * Width(series))
    ensures Faithful(ValueCodec(p, series))
  {
    var c := ValueCodec(p, series);
    forall e: (Bytes, Bits), rest: Bytes | FieldOk(e.0) && |e.1| == 8 * Width(series)
      ensures c.get(c.put(e) + rest) == Some((e, rest))
    {
      ValueRoundTrip(p, series, e, rest);
    }
    forall s | c.get(s).Some? ensures s == c.put(c.get(s).value.0) + c.get(s).value.1 {
      ValueFaithful(p, series, s);
    }
  }

  ghost predicate LabelSized(series: nat, l: (Bytes, Values)) {
    FieldOk(l.0) && |l.1| < 0x1_0000 && forall i :: 0 <= i < |l.1| ==>
      FieldOk(l.1[i].0) && |l.1[i].1| == 8 * Width(series)
  }

  lemma LabelRoundTrip(p: Parts, series: nat, l: (Bytes, Values), rest: Bytes)
    requires Lawful(p) && LabelSized(series, l)
    ensures LabelCodec(p, series).get(LabelCodec(p, series).put(l) + rest) == Some((l, rest))
  {
    hide PutAll, GetN, Lawful, ValueCodec;
    var c, v := LabelCodec(p, series), ValueCodec(p, series);
    var b := PutAll(v, l.1) + rest;
    var a := p.half.put(|l.1|) + b;
    assert c.put(l) + rest == p.field.put(l.0) + a;
    FieldRoundTrip(p, l.0, a);
    HalfRoundTrip(p, |l.1|, b);
    ValuesRoundTrip(p, series, l, rest);
  }

  lemma FieldRoundTrip(p: Parts, field: Bytes, rest: Bytes)
    requires Lawful(p) && FieldOk(field)
    ensures p.field.get(p.field.put(field) + rest) == Some((field, rest))
  {
  }

  lemma HalfRoundTrip(p: Parts, n: nat, rest: Bytes)
    requires Lawful(p) && n < 0x1_0000
    ensures p.half.get(p.half.put(n) + rest) == Some((n, rest))
  {
  }

  lemma ValuesRoundTrip(p: Parts, series: nat, l: (Bytes, Values), rest: Bytes)
    requires Lawful(p) && LabelSized(series, l)
    ensures var v := ValueCodec(p, series); GetN(v, PutAll(v, l.1) + rest, |l.1|, []) == Some((l.1, rest))
  {
    hide PutAll, GetN, Lawful, RoundTrips, ValueCodec;
    ValueLaws(p, series);
    var v := ValueCodec(p, series);
    GetNRoundTrip(v, (e: (Bytes, Bits)) => FieldOk(e.0) && |e.1| == 8 * Width(series), l.1, rest, []);
    assert [] + l.1 == l.1;
  }

  lemma Nest3(s: Bytes, a: Bytes, s1: Bytes, b: Bytes, s2: Bytes, c: Bytes, s3: Bytes)
    requires s == a + s1 && s1 == b + s2 && s2 == c + s3
    ensures s == a + (b + c) + s3
  {
  }

  lemma LabelFaithful(p: Parts, series: nat, s: Bytes)
    requires Lawful(p) && LabelCodec(p, series).get(s).Some?
    ensures var (l, rest) := LabelCodec(p, series).get(s).value; s == LabelCodec(p, series).put(l) + rest
  {
    ValueLaws(p, series);
    var v := ValueCodec(p, series);
    var (name, s1) := p.field.get(s).value;
    var (n, s2) := p.half.get(s1).value;
    GetNFaithful(v, s2, n, []);
    var (values, s3) := GetN(v, s2, n, []).value;
    assert values[0..] == values;
    Nest3(s, p.field.put(name), s1, p.half.put(n), s2, PutAll(v, values), s3);
  }

  lemma LabelLaws(p: Parts, series: nat)
    requires Lawful(p)
    ensures RoundTrips(LabelCodec(p, series), l => LabelSized(series, l))
    ensures Faithful(LabelCodec(p, series))
  {
    var c := LabelCodec(p, series);
    forall l: (Bytes, Values), rest: Bytes | LabelSized(series, l) ensures c.get(c.put(l) + rest) == Some((l, rest)) {
      LabelRoundTrip(p, series, l, rest);
    }
    forall s | c.get(s).Some? ensures s == c.put(c.get(s).value.0) + c.get(s).value.1 {
      LabelFaithful(p, series, s);
    }
  }

  lemma {:induction false} ListsRoundTrip(p: Parts, x: Index)
    requires Lawful(p) && WellFormed(x)
    ensures GetLists(p, x.series, PutLists(p, x.series, x.groups, x.labels)) == Some(((x.groups, x.labels), []))
  {
    var gc, lc := GroupCodec(p, x.series), LabelCodec(p, x.series);
    GroupLaws(p, x.series);
    LabelLaws(p, x.series);
    var e := PutAll(lc, x.labels);
    var d := p.half.put(|x.labels|) + e;
    var c := PutAll(gc, x.groups) + d;
    assert p.half.get(p.half.put(|x.groups|) + c) == Some((|x.groups|, c));
    GetNRoundTrip(gc, (g: Group) => g.rows < TWO_32 && |g.bits| == 8 * Width(x.series), x.groups, d, []);
    assert p.half.get(p.half.put(|x.labels|) + e) == Some((|x.labels|, e));
    LabelsSized(x);
    GetNRoundTrip(lc, l => LabelSized(x.series, l), x.labels, [], []);
    assert e + [] == e && [] + x.groups == x.groups && [] + x.labels == x.labels;
  }

  lemma LabelsSized(x: Index)
    requires WellFormed(x)
    ensures forall i :: 0 <= i < |x.labels| ==> LabelSized(x.series, x.labels[i])
  {
    forall i | 0 <= i < |x.labels| ensures LabelSized(x.series, x.labels[i]) {
      assert LabelOk(x.series, x.labels[i]);
      var vs := x.labels[i].1;
      forall k | 0 <= k < |vs|
        ensures FieldOk(vs[k].0) && |vs[k].1| == 8 * Width(x.series) { assert ValueOk(x.series, vs[k]); }
    }
  }

  lemma {:induction false} BodyRoundTrip(p: Parts, x: Index)
    requires Lawful(p) && WellFormed(x)
    ensures GetIndex(p, PutIndex(p, x)) == Some((x, []))
  {
    ListsRoundTrip(p, x);
    var b := PutLists(p, x.series, x.groups, x.labels);
    var a := p.word.put(x.rows) + b;
    assert p.half.get(p.half.put(x.series) + a) == Some((x.series, a));
    assert p.word.get(p.word.put(x.rows) + b) == Some((x.rows, b));
  }

  lemma {:induction false} ListsFaithful(p: Parts, series: nat, s: Bytes)
    requires Lawful(p) && GetLists(p, series, s).Some?
    ensures var ((groups, labels), rest) := GetLists(p, series, s).value;
    s == PutLists(p, series, groups, labels) + rest
  {
    var gc, lc := GroupCodec(p, series), LabelCodec(p, series);
    GroupLaws(p, series);
    LabelLaws(p, series);
    var (n, s1) := p.half.get(s).value;
    GetNFaithful(gc, s1, n, []);
    var (groups, s2) := GetN(gc, s1, n, []).value;
    var (m, s3) := p.half.get(s2).value;
    GetNFaithful(lc, s3, m, []);
    var (labels, s4) := GetN(lc, s3, m, []).value;
    assert groups[0..] == groups && labels[0..] == labels;
    var tail := p.half.put(m) + PutAll(lc, labels);
    assert s2 == tail + s4;
    Nest3(s, p.half.put(n), s1, PutAll(gc, groups), s2, tail, s4);
  }

  lemma {:induction false} BodyFaithful(p: Parts, s: Bytes)
    requires Lawful(p) && GetIndex(p, s).Some?
    ensures s == PutIndex(p, GetIndex(p, s).value.0) + GetIndex(p, s).value.1
  {
    var (series, s1) := p.half.get(s).value;
    var (rows, s2) := p.word.get(s1).value;
    var (lists, s3) := GetLists(p, series, s2).value;
    ListsFaithful(p, series, s2);
    Nest3(s, p.half.put(series), s1, p.word.put(rows), s2, PutLists(p, series, lists.0, lists.1), s3);
  }

  // ---- The stored codecs -----------------------------------------------------

  function PutField(s: Bytes): Bytes {
    PutWord(|s|, 2) + s
  }

  function GetField(s: Bytes): Option<(Bytes, Bytes)> {
    var (n, rest) :- GetWord(s, 2);
    if n > MAX_FIELD || n > |rest| || !Utf8(rest[..n]) then None else Some((rest[..n], rest[n..]))
  }

  function BitsCodec(series: nat): Codec<Bits> {
    var w := Width(series);
    Codec(
      (b: Bits) => if |b| % 8 == 0 then Pack(b) else [],
      (s: Bytes) => if |s| < w then None else Some((Unpack(s[..w]), s[w..])))
  }

  const STORED := Parts(Word(2), Word(4), Codec(PutField, GetField), BitsCodec)

  lemma FieldLaws()
    ensures RoundTrips(Codec(PutField, GetField), FieldOk) && Faithful(Codec(PutField, GetField))
  {
    var c := Codec(PutField, GetField);
    assert Pow256(2) == 0x1_0000;
    forall x: Bytes, rest: Bytes | FieldOk(x) ensures GetField(PutField(x) + rest) == Some((x, rest)) {
      WordRoundTrip(|x|, 2);
      var h := PutWord(|x|, 2);
      assert PutField(x) + rest == h + (x + rest);
      assert (h + (x + rest))[..2] == h && (h + (x + rest))[2..] == x + rest;
      assert (x + rest)[..|x|] == x && (x + rest)[|x|..] == rest;
    }
    forall s | c.get(s).Some? ensures s == c.put(c.get(s).value.0) + c.get(s).value.1 {
      WordFaithful(s[..2]);
      var (n, rest) := GetWord(s, 2).value;
      assert s == s[..2] + rest && rest == rest[..n] + rest[n..];
    }
  }

  lemma BitsLaws(n: nat)
    ensures RoundTrips(BitsCodec(n), (b: Bits) => |b| == 8 * Width(n)) && Faithful(BitsCodec(n))
  {
    var c, w := BitsCodec(n), Width(n);
    forall b: Bits, rest: Bytes | |b| == 8 * w ensures c.get(c.put(b) + rest) == Some((b, rest)) {
      PackInverts(b);
      assert (Pack(b) + rest)[..w] == Pack(b) && (Pack(b) + rest)[w..] == rest;
    }
    forall s | c.get(s).Some? ensures s == c.put(c.get(s).value.0) + c.get(s).value.1 {
      UnpackInverts(s[..w]);
      assert s == s[..w] + s[w..];
    }
  }

  lemma StoredLaws()
    ensures Lawful(STORED)
  {
    assert Pow256(2) == 0x1_0000 && Pow256(4) == TWO_32;
    WordLaws(2);
    WordLaws(4);
    FieldLaws();
    forall n ensures RoundTrips(STORED.bits(n), (b: Bits) => |b| == 8 * Width(n)) && Faithful(STORED.bits(n)) {
      BitsLaws(n);
    }
  }

  // ---- Hexadecimal text ------------------------------------------------------

  function HexDigit(n: nat): char
    requires n < 16
  {
    if n < 10 then '0' + n as char else 'a' + (n - 10) as char
  }

  function Nibble(c: char): (r: Option<nat>)
    ensures r.Some? ==> r.value < 16 && HexDigit(r.value) == c
  {
    if '0' <= c <= '9' then Some(c as int - '0' as int)
    else if 'a' <= c <= 'f' then Some(c as int - 'a' as int + 10)
    else None
  }

  function Pair(b: byte): string {
    [HexDigit(b / 16), HexDigit(b % 16)]
  }

  function Octet(hi: char, lo: char): (r: Option<byte>)
    ensures r.Some? ==> Pair(r.value) == [hi, lo]
  {
    var h :- Nibble(hi);
    var l :- Nibble(lo);
    Some(16 * h + l)
  }

  lemma OctetOfPair(b: byte)
    ensures Octet(Pair(b)[0], Pair(b)[1]) == Some(b)
  {
    assert 16 * (b / 16) + b % 16 == b;
  }

  function Hex(s: Bytes): string {
    if s == [] then "" else Pair(s[0]) + Hex(s[1..])
  }

  function Unhex(text: string): Option<Bytes>
    requires |text| % 2 == 0
  {
    if text == "" then Some([])
    else
      var b :- Octet(text[0], text[1]);
      var rest :- Unhex(text[2..]);
      Some([b] + rest)
  }

  lemma {:induction false} HexInverts(s: Bytes)
    ensures |Hex(s)| == 2 * |s| && Unhex(Hex(s)) == Some(s)
    decreases |s|
  {
    if s != [] {
      HexInverts(s[1..]);
      OctetOfPair(s[0]);
      assert s == [s[0]] + s[1..];
      assert Hex(s)[2..] == Hex(s[1..]) && Hex(s)[0] == Pair(s[0])[0] && Hex(s)[1] == Pair(s[0])[1];
    }
  }

  lemma {:induction false} UnhexInverts(text: string)
    requires |text| % 2 == 0 && Unhex(text).Some?
    ensures Hex(Unhex(text).value) == text
    decreases |text|
  {
    if text != "" {
      UnhexInverts(text[2..]);
      var s := Unhex(text).value;
      assert s[1..] == Unhex(text[2..]).value;
      assert text == [text[0], text[1]] + text[2..];
    }
  }

  // ---- The text --------------------------------------------------------------

  /** The checksum, of which nothing but its being a function to 64 bits is used. */
  type Hash = Bytes -> U64

  function EncodeText(p: Parts, hash: Hash, x: Index): string {
    Sealed(hash, EncodeBody(p, x))
  }

  /** The part of a text's bytes before a matching checksum. */
  function Checked(hash: Hash, raw: Bytes): Option<Bytes> {
    if |raw| < 8 then None
    else
      var n := |raw| - 8;
      if hash(raw[..n]) == WordOf(raw[n..]) then Some(raw[..n]) else None
  }

  function Sealed(hash: Hash, body: Bytes): string {
    Hex(body + PutWord(hash(body), 8))
  }

  /** The body of a text of admissible length with a matching checksum. */
  function Unsealed(hash: Hash, text: string): Option<Bytes> {
    if |text| > MAX_TEXT || |text| % 2 != 0 || |text| < 16 then None
    else
      var raw :- Unhex(text);
      Checked(hash, raw)
  }

  ghost function ParseText(p: Parts, hash: Hash, text: string): Option<Index> {
    var body :- Unsealed(hash, text);
    ParseBody(p, body)
  }

  lemma Pow256Eight()
    ensures Pow256(8) == TWO_64
  {
    assert Pow256(4) == TWO_32;
    assert Pow256(8) == 256 * (256 * (256 * (256 * Pow256(4))));
  }

  lemma CheckedDigest(hash: Hash, body: Bytes)
    ensures |PutWord(hash(body), 8)| == 8 && Checked(hash, body + PutWord(hash(body), 8)) == Some(body)
  {
    var digest := PutWord(hash(body), 8);
    Pow256Eight();
    WordRoundTrip(hash(body), 8);
    assert (body + digest)[..|body|] == body && (body + digest)[|body|..] == digest;
  }

  lemma ParseBodyEncoded(p: Parts, x: Index)
    requires Lawful(p) && WellFormed(x)
    ensures ParseBody(p, EncodeBody(p, x)) == Some(x)
  {
    BodyRoundTrip(p, x);
    var body := EncodeBody(p, x);
    assert body[..|MAGIC|] == MAGIC && body[|MAGIC|..] == PutIndex(p, x);
  }

  lemma {:induction false} SealedInverts(hash: Hash, body: Bytes, text: string)
    ensures |body| + 8 <= MAX_RAW ==>
              Unsealed(hash, Sealed(hash, body)) == Some(body) && |Sealed(hash, body)| == 2 * (|body| + 8)
    ensures Unsealed(hash, text).Some? ==> Sealed(hash, Unsealed(hash, text).value) == text
  {
    hide Sealed, Unsealed;
    if |body| + 8 <= MAX_RAW { UnsealedBack(hash, body); }
    if Unsealed(hash, text).Some? { SealedBack(hash, text); }
  }

  lemma UnsealedBack(hash: Hash, body: Bytes)
    requires |body| + 8 <= MAX_RAW
    ensures Unsealed(hash, Sealed(hash, body)) == Some(body) && |Sealed(hash, body)| == 2 * (|body| + 8)
  {
    hide Checked, Hex, Unhex, PutWord;
    CheckedDigest(hash, body);
    HexInverts(body + PutWord(hash(body), 8));
  }

  lemma {:induction false} SealedBack(hash: Hash, text: string)
    requires Unsealed(hash, text).Some?
    ensures Sealed(hash, Unsealed(hash, text).value) == text
  {
    var raw := Unhex(text).value;
    UnhexInverts(text);
    WordFaithful(raw[|raw| - 8..]);
    assert raw == raw[..|raw| - 8] + raw[|raw| - 8..];
  }

  /** Every well-formed index that fits the text bound parses back from its text. */
  lemma ParseEncoded(p: Parts, hash: Hash, x: Index)
    requires Lawful(p) && WellFormed(x) && |EncodeBody(p, x)| + 8 <= MAX_RAW
    ensures ParseText(p, hash, EncodeText(p, hash, x)) == Some(x)
    ensures |EncodeText(p, hash, x)| == 2 * (|EncodeBody(p, x)| + 8) <= MAX_TEXT
  {
    SealedInverts(hash, EncodeBody(p, x), "");
    ParseBodyEncoded(p, x);
  }

  lemma EncodeBodyParsed(p: Parts, body: Bytes)
    requires Lawful(p) && ParseBody(p, body).Some?
    ensures EncodeBody(p, ParseBody(p, body).value) == body
  {
    BodyFaithful(p, body[|MAGIC|..]);
    var x := ParseBody(p, body).value;
    assert body == body[..|MAGIC|] + body[|MAGIC|..];
    assert PutIndex(p, x) + [] == PutIndex(p, x);
  }

  /** Every accepted text is the text of the well-formed index it parses to. */
  lemma EncodeParsed(p: Parts, hash: Hash, text: string)
    requires Lawful(p) && ParseText(p, hash, text).Some?
    ensures var x := ParseText(p, hash, text).value;
    WellFormed(x) && EncodeText(p, hash, x) == text && |text| <= MAX_TEXT
  {
    SealedInverts(hash, [], text);
    EncodeBodyParsed(p, Unsealed(hash, text).value);
  }

  // ---- Parsing step by step --------------------------------------------------

  /** A read of one value off the front of a buffer. */
  ghost predicate Reads<T>(got: Option<(T, Bytes)>, r: Option<T>, after: Bytes) {
    match got
    case None => r.None?
    case Some((v, rest)) => r == Some(v) && after == rest
  }

  /** A read that is also rejected when the value fails `ok`. */
  ghost predicate ReadsIf<T>(got: Option<(T, Bytes)>, ok: bool, r: Option<T>, after: Bytes) {
    if ok then Reads(got, r, after) else r.None?
  }

  class Cursor {
    const p: Parts
    var rest: Bytes

    constructor (p: Parts, s: Bytes)
      ensures this.p == p && rest == s
    {
      this.p, rest := p, s;
    }

    method Take<T>(c: Codec<T>) returns (r: Option<T>)
      modifies this
      ensures Reads(c.get(old(rest)), r, rest)
    {
      match c.get(rest)
      case None => r := None;
      case Some((v, tail)) =>
        rest := tail;
        r := Some(v);
    }
  }

  lemma {:induction false} GetNPrefix<T>(c: Codec<T>, s: Bytes, n: nat, done: seq<T>)
    requires GetN(c, s, n, done).Some?
    ensures done <= GetN(c, s, n, done).value.0
    decreases n
  {
    if n > 0 {
      var (x, rest) := c.get(s).value;
      GetNPrefix(c, rest, n - 1, done + [x]);
    }
  }

  lemma SumSnoc(gs: seq<Group>, g: Group)
    ensures SumRows(gs + [g]) == SumRows(gs) + g.rows
  {
    assert (gs + [g])[..|gs|] == gs;
  }

  /** Groups whose prefix holds a bad group are bad. */
  lemma BadGroup(c: Codec<Group>, s: Bytes, n: nat, done: seq<Group>, g: Group, series: nat, rows: nat)
    requires !GroupOk(series, rows, g) && GetN(c, s, n, done + [g]).Some?
    ensures !GroupsOk(series, rows, GetN(c, s, n, done + [g]).value.0)
  {
    GetNPrefix(c, s, n, done + [g]);
    var all := GetN(c, s, n, done + [g]).value.0;
    assert all[|done|] == (done + [g])[|done|] == g;
  }

  ghost predicate CoversGroups(covered: Bits, done: seq<Group>) {
    forall o :: 0 <= o < |covered| ==> (covered[o] <==> InGroups(done, o))
  }

  lemma CoverGroup(covered: Bits, done: seq<Group>, g: Group)
    requires CoversGroups(covered, done) && |g.bits| == |covered|
    ensures CoversGroups(Or(covered, g.bits), done + [g])
  {
    var more := done + [g];
    forall o | 0 <= o < |covered| ensures Or(covered, g.bits)[o] <==> InGroups(more, o) {
      if g.bits[o] { assert Bit(more[|done|].bits, o); }
      if InGroups(done, o) {
        var i :| 0 <= i < |done| && Bit(done[i].bits, o);
        assert Bit(more[i].bits, o);
      }
      if InGroups(more, o) {
        var i :| 0 <= i < |more| && Bit(more[i].bits, o);
        if i < |done| { assert Bit(done[i].bits, o); }
      }
    }
  }

  /** The accumulated bitmap is the universe exactly when every series is in some group. */
  lemma CoverComplete(covered: Bits, done: seq<Group>, series: nat, rows: nat)
    requires |covered| == 8 * Width(series) && CoversGroups(covered, done)
    requires forall k :: 0 <= k < |done| ==> GroupOk(series, rows, done[k])
    ensures covered == Universe(series) <==> forall o: nat :: o < series ==> InGroups(done, o)
  {
    var u := Universe(series);
    forall o | series <= o < |covered| ensures !covered[o] {
      forall k | 0 <= k < |done| ensures !Bit(done[k].bits, o) { assert GroupOk(series, rows, done[k]); }
    }
    if covered == u {
      forall o: nat | o < series ensures InGroups(done, o) { assert covered[o] == u[o]; }
    }
  }

  method ReadGroups(c: Cursor, series: nat, rows: nat, count: nat) returns (r: Option<seq<Group>>)
    modifies c
    ensures var got := GetN(GroupCodec(c.p, series), old(c.rest), count, []);
            ReadsIf(got, got.Some? && GroupsOk(series, rows, got.value.0), r, c.rest)
  {
    var gc := GroupCodec(c.p, series);
    var all := Universe(series);
    var covered := Zeros(series);
    var groupRows := 0;
    var done: seq<Group> := [];
    for i := 0 to count
      invariant GetN(gc, c.rest, count - i, done) == GetN(gc, old(c.rest), count, [])
      invariant |covered| == 8 * Width(series) && CoversGroups(covered, done) && groupRows == SumRows(done)
      invariant forall k :: 0 <= k < |done| ==> GroupOk(series, rows, done[k])
    {
      var got := c.Take(gc);
      if got.None? {
        return None;
      }
      var g := got.value;
      if !GroupOk(series, rows, g) {
        if GetN(gc, c.rest, count - i - 1, done + [g]).Some? {
          BadGroup(gc, c.rest, count - i - 1, done, g, series, rows);
        }
        return None;
      }
      SumSnoc(done, g);
      CoverGroup(covered, done, g);
      groupRows := groupRows + g.rows;
      covered := Or(covered, g.bits);
      done := done + [g];
    }
    CoverComplete(covered, done, series, rows);
    if groupRows != rows || covered != all {
      return None;
    }
    r := Some(done);
  }

  ghost predicate CoversValues(covered: Bits, done: Values) {
    forall o :: 0 <= o < |covered| ==> (covered[o] <==> InValues(done, o))
  }

  lemma CoverValue(covered: Bits, done: Values, e: (Bytes, Bits))
    requires CoversValues(covered, done) && |e.1| == |covered|
    ensures CoversValues(Or(covered, e.1), done + [e])
  {
    var more := done + [e];
    forall o | 0 <= o < |covered| ensures Or(covered, e.1)[o] <==> InValues(more, o) {
      if e.1[o] { assert Bit(more[|done|].1, o); }
      if InValues(done, o) {
        var i :| 0 <= i < |done| && Bit(done[i].1, o);
        assert Bit(more[i].1, o);
      }
      if InValues(more, o) {
        var i :| 0 <= i < |more| && Bit(more[i].1, o);
        if i < |done| { assert Bit(done[i].1, o); }
      }
    }
  }

  lemma SortedSnoc<V>(t: Table<V>, e: (Bytes, V))
    requires Sorted(t)
    ensures Sorted(t + [e]) <==> t == [] || Less(t[|t| - 1].0, e.0)
  {
    var m := t + [e];
    if t != [] {
      assert m[|t| - 1] == t[|t| - 1] && m[|t|] == e;
      if Less(t[|t| - 1].0, e.0) {
        forall i | 0 <= i < |t| ensures Less(m[i].0, e.0) {
          if i < |t| - 1 { LessTransitive(t[i].0, t[|t| - 1].0, e.0); }
        }
      }
    }
  }

  lemma DisjointSnoc(covered: Bits, done: Values, e: (Bytes, Bits))
    requires CoversValues(covered, done) && |e.1| == |covered| && Disjoint(done)
    ensures Disjoint(done + [e]) <==> !Meets(covered, e.1)
  {
    var more := done + [e];
    if Meets(covered, e.1) {
      var o :| 0 <= o < |covered| && covered[o] && e.1[o];
      assert InValues(done, o);
      var i :| 0 <= i < |done| && Bit(done[i].1, o);
      assert Bit(more[i].1, o) && Bit(more[|done|].1, o);
    } else {
      forall i, j, o: nat | 0 <= i < j < |more| ensures !(Bit(more[i].1, o) && Bit(more[j].1, o)) {
        if j == |done| && Bit(more[i].1, o) && o < |covered| {
          assert Bit(done[i].1, o);
          assert InValues(done, o);
        }
      }
    }
  }

  /** One more value keeps the values in order exactly when the parse loop's checks pass. */
  lemma ValuesSnoc(series: nat, covered: Bits, done: Values, e: (Bytes, Bits))
    requires ValuesSoFar(series, done) && CoversValues(covered, done) && |covered| == 8 * Width(series)
    ensures ValuesSoFar(series, done + [e]) <==>
            ValueOk(series, e) && (done == [] || Less(done[|done| - 1].0, e.0)) && !Meets(covered, e.1)
  {
    var more := done + [e];
    assert more[|done|] == e;
    SortedSnoc(done, e);
    if ValueOk(series, e) { DisjointSnoc(covered, done, e); }
  }

  lemma ValuesPrefix(series: nat, all: Values, done: Values)
    requires ValuesSoFar(series, all) && done <= all
    ensures ValuesSoFar(series, done)
  {
    assert forall i :: 0 <= i < |done| ==> done[i] == all[i];
  }

  lemma ValuesComplete(covered: Bits, done: Values, series: nat)
    requires |covered| == 8 * Width(series) && CoversValues(covered, done) && ValuesSoFar(series, done)
    ensures covered == Universe(series) <==> forall o: nat :: o < series ==> InValues(done, o)
  {
    var u := Universe(series);
    forall o | series <= o < |covered| ensures !covered[o] {
      forall k | 0 <= k < |done| ensures !Bit(done[k].1, o) { assert ValueOk(series, done[k]); }
    }
    if covered == u {
      forall o: nat | o < series ensures InValues(done, o) { assert covered[o] == u[o]; }
    }
  }

  method ReadValues(c: Cursor, series: nat, count: nat) returns (r: Option<Values>)
    requires 1 <= count <= series
    modifies c
    ensures var got := GetN(ValueCodec(c.p, series), old(c.rest), count, []);
            ReadsIf(got, got.Some? && ValuesOk(series, got.value.0), r, c.rest)
  {
    var vc := ValueCodec(c.p, series);
    var covered := Zeros(series);
    var done: Values := [];
    for i := 0 to count
      invariant GetN(vc, c.rest, count - i, done) == GetN(vc, old(c.rest), count, [])
      invariant |covered| == 8 * Width(series) && CoversValues(covered, done) && ValuesSoFar(series, done)
    {
      var got := c.Take(vc);
      if got.None? {
        return None;
      }
      var e := got.value;
      ValuesSnoc(series, covered, done, e);
      if !ValueOk(series, e) || (done != [] && !Less(done[|done| - 1].0, e.0)) || Meets(covered, e.1) {
        ghost var tail := GetN(vc, c.rest, count - i - 1, done + [e]);
        if tail.Some? {
          GetNPrefix(vc, c.rest, count - i - 1, done + [e]);
          if ValuesSoFar(series, tail.value.0) { ValuesPrefix(series, tail.value.0, done + [e]); }
        }
        return None;
      }
      CoverValue(covered, done, e);
      covered := Or(covered, e.1);
      done := done + [e];
    }
    ValuesComplete(covered, done, series);
    if covered != Universe(series) {
      return None;
    }
    r := Some(done);
  }

  lemma LabelsSnoc(series: nat, done: Table<Values>, l: (Bytes, Values))
    requires LabelsOk(series, done)
    ensures LabelsOk(series, done + [l]) <==> LabelOk(series, l) && (done == [] || Less(done[|done| - 1].0, l.0))
  {
    SortedSnoc(done, l);
    assert (done + [l])[|done|] == l;
  }

  lemma LabelsPrefix(series: nat, all: Table<Values>, done: Table<Values>)
    requires LabelsOk(series, all) && done <= all
    ensures LabelsOk(series, done)
  {
    assert forall i :: 0 <= i < |done| ==> done[i] == all[i];
  }

  /** One label: its name, its value count and its values. */
  method ReadLabel(c: Cursor, series: nat) returns (r: Option<(Bytes, Values)>)
    modifies c
    ensures var got := LabelCodec(c.p, series).get(old(c.rest));
            ReadsIf(got, got.Some? && LabelOk(series, got.value.0), r, c.rest)
  {
    var name := c.Take(c.p.field);
    if name.None? || !FieldOk(name.value) {
      return None;
    }
    var count := c.Take(c.p.half);
    if count.None? || count.value == 0 || count.value > series {
      return None;
    }
    var values := ReadValues(c, series, count.value);
    if values.None? {
      return None;
    }
    r := Some((name.value, values.value));
  }

  method ReadLabels(c: Cursor, series: nat, count: nat) returns (r: Option<Table<Values>>)
    modifies c
    ensures var got := GetN(LabelCodec(c.p, series), old(c.rest), count, []);
            ReadsIf(got, got.Some? && LabelsOk(series, got.value.0), r, c.rest)
  {
    var lc := LabelCodec(c.p, series);
    var done: Table<Values> := [];
    for i := 0 to count
      invariant GetN(lc, c.rest, count - i, done) == GetN(lc, old(c.rest), count, [])
      invariant LabelsOk(series, done)
    {
      ghost var here := lc.get(c.rest);
      var got := ReadLabel(c, series);
      ghost var l := if here.Some? then here.value.0 else ([], []);
      LabelsSnoc(series, done, l);
      if got.None? || (done != [] && !Less(done[|done| - 1].0, got.value.0)) {
        if here.Some? {
          ghost var tail := GetN(lc, here.value.1, count - i - 1, done + [l]);
          if tail.Some? {
            GetNPrefix(lc, here.value.1, count - i - 1, done + [l]);
            if LabelsOk(series, tail.value.0) { LabelsPrefix(series, tail.value.0, done + [l]); }
          }
        }
        return None;
      }
      done := done + [got.value];
    }
    r := Some(done);
  }

  /** `parse` after the checksum: every check is made as the bytes are read. */
  method ReadIndex(p: Parts, body: Bytes) returns (r: Option<Index>)
    ensures r == ParseBody(p, body)
  {
    if |body| < |MAGIC| || body[..|MAGIC|] != MAGIC {
      return None;
    }
    var c := new Cursor(p, body[|MAGIC|..]);
    var series := c.Take(c.p.half);
    if series.None? { return None; }
    var rows := c.Take(c.p.word);
    if rows.None? { return None; }
    var groups := c.Take(c.p.half);
    if groups.None? { return None; }
    var s, n, k := series.value, rows.value, groups.value;
    if s == 0 || s > MAX_SERIES || n == 0 || n > MAX_ROWS || k == 0 || k > MAX_GROUPS {
      return None;
    }
    var gs := ReadGroups(c, s, n, k);
    if gs.None? { return None; }
    var count := c.Take(c.p.half);
    if count.None? || count.value == 0 || count.value > MAX_LABELS { return None; }
    var ls := ReadLabels(c, s, count.value);
    if ls.None? || c.rest != [] { return None; }
    r := Some(Index(s, n, gs.value, ls.value));
  }

  /** `parse` accepts exactly the texts of well-formed indexes. */
  method Parse(p: Parts, hash: Hash, text: string) returns (r: Option<Index>)
    ensures r == ParseText(p, hash, text)
  {
    var body := Unsealed(hash, text);
    if body.None? {
      return None;
    }
    r := ReadIndex(p, body.value);
  }
}
