/** What merging means, apart from what it charges: fragments fuse like concatenated bytes. */
module OtlpFuse {
  import opened Prelude
  import opened FieldTable
  import opened OtlpSchema
  import opened OtlpMerge
  import P = Protobuf
  import W = Wire

  // ---- Merging without charges -----------------------------------------------

  /** A plan's fields after the fragment `s`. */
  function Fuse(p: Plan, s: Octets): Option<Plan>
    decreases |s|, 1
  {
    if s == [] then Some(p)
    else if P.Next(s).None? then None
    else
      P.NextShorter(s);
      var (r, rest) := P.Next(s).value;
      var q :- FuseRecord(p, r);
      Fuse(q, rest)
  }

  function FuseRecord(p: Plan, r: P.Record): Option<Plan>
    decreases if r.value.Data? then |r.value.bytes| + 1 else 0, 0
  {
    match Field(p.schema, r.number)
    case None => Some(p)
    case Some((kind, many)) =>
      var cleared := Cleared(p.schema, r.number, p.fields);
      var fields :-
        if kind.Message? && r.value.Data? then
          var into :- Target(cleared, r.number, kind.child, many);
          var merged :- Fuse(into, r.value.bytes);
          Placed(cleared, r.number, many, Sub(merged))
        else FuseScalar(cleared, r.number, kind, many, r.value);
      Some(p.(fields := fields))
  }

  function FuseScalar(fields: Fields<Values>, n: nat, kind: Kind, many: bool, value: P.Value): Option<Fields<Values>> {
    if Packed(kind) && value.Data? then
      var numbers :- Numbers(kind, value.bytes);
      PushAll(fields, n, Scalars(numbers))
    else Placed(fields, n, many, Scalar(value))
  }

  // ---- Fragments fuse like bytes ---------------------------------------------

  /** Merging one fragment and then another merges their concatenation. */
  lemma {:induction false} FuseConcat(p: Plan, a: Octets, b: Octets)
    requires Fuse(p, a).Some?
    ensures Fuse(p, a + b) == Fuse(Fuse(p, a).value, b)
    decreases |a|
  {
    hide FuseRecord, P.Next;
    if a == [] {
      assert a + b == b;
    } else {
      P.NextShorter(a);
      P.NextKeeps(a, b);
      var (r, rest) := P.Next(a).value;
      FuseConcat(FuseRecord(p, r).value, rest, b);
    }
  }

  /**
   * Two adjacent fragments of a singular message field, at any level, leave
   * what one fragment holding the bytes of both would.
   */
  lemma AdjacentFragments(p: Plan, n: nat, x: Octets, y: Octets)
    requires Field(p.schema, n).Some? && Field(p.schema, n).value.0.Message? && !Field(p.schema, n).value.1
    requires FuseRecord(p, P.Record(n, 2, P.Data(x))).Some?
    ensures FuseRecord(FuseRecord(p, P.Record(n, 2, P.Data(x))).value, P.Record(n, 2, P.Data(y))) ==
            FuseRecord(p, P.Record(n, 2, P.Data(x + y)))
  {
    hide Field, OneOf, Find, Put, Keep;
    var child := Field(p.schema, n).value.0.child;
    var cleared := Cleared(p.schema, n, p.fields);
    var into := Target(cleared, n, child, false).value;
    var first := Fuse(into, x).value;
    var fields := Put(cleared, n, Single(Sub(first)));
    ClearedAgain(p.schema, n, p.fields, Single(Sub(first)));
    FindPut(cleared, n, Single(Sub(first)), n);
    FuseConcat(into, x, y);
    if Fuse(first, y).Some? {
      PutPut(cleared, n, Single(Sub(first)), Single(Sub(Fuse(first, y).value)));
    }
  }

  /** A field's own arrival clears nothing more. */
  lemma ClearedAgain(s: Schema, n: nat, fields: Fields<Values>, v: Values)
    ensures var put := Put(Cleared(s, n, fields), n, v); Cleared(s, n, put) == put
  {
    hide OneOf;
    if OneOf(s, n) {
      KeepOnly(fields, Survives(s, n));
      OnlyPut(Keep(fields, Survives(s, n)), Survives(s, n), n, v);
      KeepOnly(Put(Keep(fields, Survives(s, n)), n, v), Survives(s, n));
    }
  }

  // ---- The charged merge means the same --------------------------------------

  /** A plan without what it was charged. */
  function Bare(p: Plan): Plan
    decreases p
  {
    Plan(p.schema, BareFields(p.fields), FREE, 0)
  }

  function BareFields(fields: Fields<Values>): Fields<Values>
    decreases fields
  {
    if fields == [] then [] else [BareEntry(fields[0])] + BareFields(fields[1..])
  }

  function BareEntry(entry: (nat, Values)): (nat, Values)
    decreases entry
  {
    (entry.0, BareValues(entry.1))
  }

  function BareValues(v: Values): Values
    decreases v
  {
    match v
    case Single(item) => Single(BareItem(item))
    case Many(items) => Many(BareItems(items))
  }

  function BareItems(items: seq<Item>): seq<Item>
    decreases items
  {
    if items == [] then [] else [BareItem(items[0])] + BareItems(items[1..])
  }

  function BareItem(item: Item): Item
    decreases item
  {
    match item
    case Scalar(_) => item
    case Sub(plan) => Sub(Bare(plan))
  }

  lemma {:induction false} BareIsMap(fields: Fields<Values>)
    ensures BareFields(fields) == MapValues(fields, BareValues)
    decreases |fields|
  {
    hide BareValues;
    if fields != [] { BareIsMap(fields[1..]); }
  }

  lemma {:induction false} BareAppend(a: seq<Item>, b: seq<Item>)
    ensures BareItems(a + b) == BareItems(a) + BareItems(b)
    decreases |a|
  {
    hide BareItem;
    if a == [] {
      assert a + b == b;
    } else {
      assert (a + b)[1..] == a[1..] + b;
      BareAppend(a[1..], b);
    }
  }

  lemma {:induction false} BareScalars(items: seq<Item>)
    requires forall i :: 0 <= i < |items| ==> items[i].Scalar?
    ensures BareItems(items) == items
    decreases |items|
  {
    if items != [] {
      BareScalars(items[1..]);
      assert items == [items[0]] + items[1..];
    }
  }

  lemma BareFind(fields: Fields<Values>, n: nat)
    ensures Find(BareFields(fields), n) == match Find(fields, n) case None => None case Some(v) => Some(BareValues(v))
  {
    hide BareValues;
    BareIsMap(fields);
    FindMap(fields, BareValues, n);
  }

  lemma BarePut(fields: Fields<Values>, n: nat, v: Values)
    ensures BareFields(Put(fields, n, v)) == Put(BareFields(fields), n, BareValues(v))
  {
    hide BareValues, Put;
    BareIsMap(fields);
    BareIsMap(Put(fields, n, v));
    PutMap(fields, BareValues, n, v);
  }

  lemma BareCleared(s: Schema, n: nat, fields: Fields<Values>)
    ensures BareFields(Cleared(s, n, fields)) == Cleared(s, n, BareFields(fields))
  {
    hide BareValues, OneOf, Keep;
    BareIsMap(fields);
    BareIsMap(Keep(fields, Survives(s, n)));
    KeepMap(fields, BareValues, Survives(s, n));
  }

  lemma BarePush(fields: Fields<Values>, n: nat, items: seq<Item>)
    ensures PushAll(BareFields(fields), n, BareItems(items)) ==
            match PushAll(fields, n, items) case None => None case Some(more) => Some(BareFields(more))
  {
    hide Find, Put, BareFields, BareItems;
    BareFind(fields, n);
    var found: Option<Values> := Find(fields, n);
    match found
    case None => BarePut(fields, n, Many(items));
    case Some(Many(before)) =>
      BarePut(fields, n, Many(before + items));
      BareAppend(before, items);
    case Some(Single(_)) => EmptyBare(items);
  }

  lemma EmptyBare(items: seq<Item>)
    ensures BareItems(items) == [] <==> items == []
  {
    hide BareItem;
  }

  lemma BarePlaced(fields: Fields<Values>, n: nat, many: bool, item: Item)
    ensures Placed(BareFields(fields), n, many, BareItem(item)) ==
            match Placed(fields, n, many, item) case None => None case Some(more) => Some(BareFields(more))
  {
    hide Find, Put, BareFields, PushAll, BareItem;
    if many {
      BarePush(fields, n, [item]);
      OneBare(item);
    } else {
      BarePut(fields, n, Single(item));
    }
  }

  lemma OneBare(item: Item)
    ensures BareItems([item]) == [BareItem(item)]
  {
    hide BareItem;
    assert [item][1..] == [];
  }

  lemma BareTarget(fields: Fields<Values>, n: nat, child: Schema, many: bool)
    ensures Target(BareFields(fields), n, child, many) ==
            match Target(fields, n, child, many) case None => None case Some(p) => Some(Bare(p))
  {
    hide Find, Bare, BareFields;
    BareFind(fields, n);
    BareNew(child);
  }

  lemma BareNew(s: Schema)
    ensures Bare(New(s)) == New(s)
  {
  }

  /** Where a merge succeeds, its fields are the fused ones. */
  lemma {:induction false} MergeFuses(plan: Plan, s: Octets, o: Options)
    requires Merge(plan, s, o).Ok?
    ensures Fuse(Bare(plan), s) == Some(Bare(Merge(plan, s, o).value.0))
    decreases |s|, 2
  {
    hide BareFields, Fuse, Loop, Over;
    LoopFuses(plan, s, Start(plan.schema), o);
  }

  lemma {:induction false} LoopFuses(plan: Plan, s: Octets, charge: Charge, o: Options)
    requires Loop(plan, s, charge, o).Ok?
    ensures Fuse(Bare(plan), s) == Some(Bare(Loop(plan, s, charge, o).value.0))
    decreases |s|, 1
  {
    hide Bare, Step, FuseRecord, P.Next;
    if s != [] {
      P.NextShorter(s);
      var (r, rest) := P.Next(s).value;
      StepFuses(plan, r, charge, o);
      var (p, c) := Step(plan, r, charge, o).value;
      LoopFuses(p, rest, c, o);
    }
  }

  lemma {:induction false} StepFuses(plan: Plan, r: P.Record, charge: Charge, o: Options)
    requires Step(plan, r, charge, o).Ok?
    ensures FuseRecord(Bare(plan), r) == Some(Bare(Step(plan, r, charge, o).value.0))
    decreases if r.value.Data? then |r.value.bytes| + 1 else 0, 0
  {
    hide Field, Attribute, OneOf, Cleared, Target, Placed, PushAll, Numbers, Scalars, Loop, Packed, BareFields, Fuse,
         Merge, Over, FuseScalar, PlaceScalar;
    var found := Field(plan.schema, r.number);
    if found.Some? {
      var (kind, many) := found.value;
      var cleared := plan.(fields := Cleared(plan.schema, r.number, plan.fields));
      BareCleared(plan.schema, r.number, plan.fields);
      if kind.Message? && r.value.Data? {
        var into := Target(cleared.fields, r.number, kind.child, many).value;
        BareTarget(cleared.fields, r.number, kind.child, many);
        MergeFuses(into, r.value.bytes, Nested(plan.schema, r.number, o));
        var (merged, added) := Merge(into, r.value.bytes, Nested(plan.schema, r.number, o)).value;
        BarePlaced(cleared.fields, r.number, many, Sub(merged));
      } else {
        ScalarFuses(cleared, r.number, kind, many, r.value, charge);
      }
    }
  }

  lemma ScalarFuses(plan: Plan, n: nat, kind: Kind, many: bool, value: P.Value, charge: Charge)
    requires PlaceScalar(plan, n, kind, many, value, charge).Ok?
    ensures FuseScalar(BareFields(plan.fields), n, kind, many, value) ==
            Some(BareFields(PlaceScalar(plan, n, kind, many, value, charge).value.0.fields))
    ensures PlaceScalar(plan, n, kind, many, value, charge).value.0.schema == plan.schema
  {
    hide Placed, PushAll, Numbers, Attribute, ScalarBytes, Packed, BareFields;
    if Packed(kind) && value.Data? {
      var items := Scalars(Numbers(kind, value.bytes).value);
      BarePush(plan.fields, n, items);
      BareScalars(items);
    } else {
      BarePlaced(plan.fields, n, many, Scalar(value));
    }
  }

  // ---- Adjacent fragments as bytes, at any depth -----------------------------

  const WORD: nat := 0x1_0000_0000_0000_0000

  /** The bytes of a field that holds `data`. */
  function Encoded(n: nat, data: Octets): Octets {
    W.PutVarint(8 * n + 2) + W.PutVarint(|data|) + data
  }

  /** A field on the way inside, with the bytes around it in its message. */
  datatype Hop = Hop(before: Octets, number: nat, after: Octets)

  /** `data` in a field in a field ..., along the path, each among other bytes. */
  function Around(path: seq<Hop>, data: Octets): Octets {
    if path == [] then data
    else path[0].before + (Encoded(path[0].number, Around(path[1..], data)) + path[0].after)
  }

  /** The same with nothing after the fields. */
  function Upto(path: seq<Hop>, data: Octets): Octets {
    if path == [] then data else path[0].before + Encoded(path[0].number, Upto(path[1..], data))
  }

  /** Whole records before each field. */
  predicate Aligned(path: seq<Hop>) {
    forall i :: 0 <= i < |path| ==> Framed(path[i].before)
  }

  /** Message fields all along the path, repeated ones too, and at its end a singular one with number `n`. */
  predicate Leads(s: Schema, path: seq<Hop>, n: nat)
    decreases |path|
  {
    if path == [] then Field(s, n).Some? && Field(s, n).value.0.Message? && !Field(s, n).value.1
    else
      && Field(s, path[0].number).Some? && Field(s, path[0].number).value.0.Message?
      && Leads(Field(s, path[0].number).value.0.child, path[1..], n)
  }

  lemma SmallNumbers(s: Schema, n: nat)
    requires Field(s, n).Some?
    ensures 1 <= n <= 16
  {
  }

  lemma VarintBack(v: nat, rest: Octets)
    requires v < WORD
    ensures P.Varint(W.PutVarint(v) + rest) == Some((v, rest))
  {
    W.Pow128Facts();
    W.LongRoundTrip(v, rest, 0);
  }

  /** An encoded field reads back, whatever follows. */
  lemma EncodedNext(n: nat, data: Octets, rest: Octets)
    requires 1 <= n <= 16 && |data| < WORD
    ensures P.Next(Encoded(n, data) + rest) == Some((P.Record(n, 2, P.Data(data)), rest))
    ensures Encoded(n, data) != []
  {
    hide W.PutVarint, P.Varint;
    var key, length := W.PutVarint(8 * n + 2), W.PutVarint(|data|);
    assert Encoded(n, data) + rest == key + (length + (data + rest));
    VarintBack(8 * n + 2, length + (data + rest));
    VarintBack(|data|, data + rest);
    assert (data + rest)[..|data|] == data && (data + rest)[|data|..] == rest;
    assert (8 * n + 2) / 8 == n && (8 * n + 2) % 8 == 2;
    if Encoded(n, data) == [] {
      VarintBack(8 * n + 2, []);
    }
  }

  lemma FuseEncoded(p: Plan, n: nat, data: Octets, rest: Octets)
    requires 1 <= n <= 16 && |data| < WORD
    ensures var q := FuseRecord(p, P.Record(n, 2, P.Data(data)));
            Fuse(p, Encoded(n, data) + rest) == if q.None? then None else Fuse(q.value, rest)
  {
    hide FuseRecord, P.Next, Encoded;
    EncodedNext(n, data, rest);
  }

  lemma FuseOne(p: Plan, n: nat, data: Octets)
    requires 1 <= n <= 16 && |data| < WORD
    ensures Fuse(p, Encoded(n, data)) == FuseRecord(p, P.Record(n, 2, P.Data(data)))
  {
    hide FuseRecord, P.Next, Encoded;
    FuseEncoded(p, n, data, []);
    assert Encoded(n, data) + [] == Encoded(n, data);
  }

  lemma {:induction false} FusePrefix(p: Plan, a: Octets, b: Octets)
    requires Framed(a) && Fuse(p, a + b).Some?
    ensures Fuse(p, a).Some?
    decreases |a|
  {
    hide FuseRecord, P.Next;
    if a != [] {
      P.NextShorter(a);
      P.NextKeeps(a, b);
      var (r, rest) := P.Next(a).value;
      FusePrefix(FuseRecord(p, r).value, rest, b);
    }
  }

  /** Fusing keeps a plan sound. */
  lemma {:induction false} FuseSound(p: Plan, s: Octets)
    requires Sound(p) && Fuse(p, s).Some?
    ensures Sound(Fuse(p, s).value) && Fuse(p, s).value.schema == p.schema
    decreases |s|, 1
  {
    hide FuseRecord, Sound;
    if s != [] {
      P.NextShorter(s);
      var (r, rest) := P.Next(s).value;
      FuseRecordSound(p, r);
      FuseSound(FuseRecord(p, r).value, rest);
    }
  }

  lemma {:induction false} FuseRecordSound(p: Plan, r: P.Record)
    requires Sound(p) && FuseRecord(p, r).Some?
    ensures Sound(FuseRecord(p, r).value) && FuseRecord(p, r).value.schema == p.schema
    decreases if r.value.Data? then |r.value.bytes| + 1 else 0, 0
  {
    hide Field, OneOf, Cleared, Target, Placed, PushAll, Numbers, Scalars, Packed, Sound, Fuse;
    var found := Field(p.schema, r.number);
    if found.Some? {
      var (kind, many) := found.value;
      var cleared := p.(fields := Cleared(p.schema, r.number, p.fields));
      SoundCleared(p, r.number);
      if kind.Message? && r.value.Data? {
        var into := Target(cleared.fields, r.number, kind.child, many).value;
        SoundTarget(cleared, r.number, kind.child, many);
        FuseSound(into, r.value.bytes);
        SoundPlaced(cleared, r.number, many, Sub(Fuse(into, r.value.bytes).value));
      } else {
        FuseScalarSound(cleared, r.number, kind, many, r.value);
      }
    }
  }

  lemma FuseScalarSound(p: Plan, n: nat, kind: Kind, many: bool, value: P.Value)
    requires Sound(p) && FuseScalar(p.fields, n, kind, many, value).Some?
    requires OneOf(p.schema, n) ==> Only(p.fields, Survives(p.schema, n))
    ensures Sound(p.(fields := FuseScalar(p.fields, n, kind, many, value).value))
  {
    hide OneOf, Sound, Placed, PushAll, Numbers, Packed;
    if Packed(kind) && value.Data? {
      SoundPush(p, n, Scalars(Numbers(kind, value.bytes).value));
    } else {
      SoundPlaced(p, n, many, Scalar(value));
    }
  }

  /** Fused after whole records, a field adds to what they leave. */
  lemma FuseAfter(p: Plan, before: Octets, n: nat, data: Octets, after: Octets)
    requires Fuse(p, before).Some? && 1 <= n <= 16 && |data| < WORD
    ensures var q := FuseRecord(Fuse(p, before).value, P.Record(n, 2, P.Data(data)));
            Fuse(p, before + (Encoded(n, data) + after)) == if q.None? then None else Fuse(q.value, after)
  {
    hide Fuse, FuseRecord, Encoded;
    FuseConcat(p, before, Encoded(n, data) + after);
    FuseEncoded(Fuse(p, before).value, n, data, after);
  }

  /** Two fragments with whole records before them and any bytes after. */
  lemma AdjacentHere(p: Plan, lead: Octets, n: nat, x: Octets, y: Octets, trail: Octets)
    requires Framed(lead) && Leads(p.schema, [], n) && Fuse(p, lead + Encoded(n, x)).Some? && Sound(p)
    requires |x + y| < WORD
    ensures Fuse(p, lead + (Encoded(n, x) + (Encoded(n, y) + trail))) == Fuse(p, lead + (Encoded(n, x + y) + trail))
  {
    hide Fuse, FuseRecord, Encoded, Field, Framed, Sound;
    FusePrefix(p, lead, Encoded(n, x));
    FuseSound(p, lead);
    SmallNumbers(p.schema, n);
    var q := Fuse(p, lead).value;
    FuseConcat(p, lead, Encoded(n, x));
    FuseOne(q, n, x);
    FuseAfter(p, lead, n, x, Encoded(n, y) + trail);
    FuseEncoded(FuseRecord(q, P.Record(n, 2, P.Data(x))).value, n, y, trail);
    FuseAfter(p, lead, n, x + y, trail);
    AdjacentFragments(q, n, x, y);
  }

  /** The bytes of the message that holds the fragments. */
  function Beside(lead: Octets, data: Octets, trail: Octets): Octets {
    lead + (data + trail)
  }

  lemma Fitting(lead: Octets, n: nat, x: Octets, y: Octets, trail: Octets)
    requires |Beside(lead, Encoded(n, x + y), trail)| < WORD
    ensures |x + y| < WORD
  {
    hide W.PutVarint;
  }

  lemma Smaller(path: seq<Hop>, data: Octets)
    requires path != []
    ensures |Around(path[1..], data)| <= |Around(path, data)| && |Upto(path[1..], data)| <= |Upto(path, data)|
  {
    hide Encoded;
    Inner(path[0].number, Around(path[1..], data));
    Inner(path[0].number, Upto(path[1..], data));
  }

  /**
   * At any depth and among other records at every level, two adjacent fragments
   * of a singular message field leave what one fragment with the bytes of both
   * would, provided the bytes up to the end of the first can be read.
   */
  lemma {:induction false} AdjacentDeep(p: Plan, path: seq<Hop>, lead: Octets, n: nat, x: Octets, y: Octets,
                                        trail: Octets)
    requires Sound(p) && Leads(p.schema, path, n) && Aligned(path) && Framed(lead)
    requires Fuse(p, Upto(path, lead + Encoded(n, x))).Some? && |Upto(path, lead + Encoded(n, x))| < WORD
    requires |Around(path, Beside(lead, Encoded(n, x) + Encoded(n, y), trail))| < WORD
    requires |Around(path, Beside(lead, Encoded(n, x + y), trail))| < WORD
    ensures Fuse(p, Around(path, Beside(lead, Encoded(n, x) + Encoded(n, y), trail))) ==
            Fuse(p, Around(path, Beside(lead, Encoded(n, x + y), trail)))
    decreases |path|
  {
    hide Fuse, FuseRecord, Encoded, Field, Framed, Sound;
    if path == [] {
      Fitting(lead, n, x, y, trail);
      AdjacentHere(p, lead, n, x, y, trail);
      assert Encoded(n, x) + Encoded(n, y) + trail == Encoded(n, x) + (Encoded(n, y) + trail);
    } else {
      var two, both := Beside(lead, Encoded(n, x) + Encoded(n, y), trail), Beside(lead, Encoded(n, x + y), trail);
      var one := lead + Encoded(n, x);
      Smaller(path, one);
      Smaller(path, two);
      Smaller(path, both);
      var into := Entered(p, path, one, n);
      AdjacentDeep(into, path[1..], lead, n, x, y, trail);
      SameAround(p, path, two, both, into);
    }
  }

  /** The plan the first field on the path is merged into. */
  lemma Entered(p: Plan, path: seq<Hop>, one: Octets, n: nat) returns (into: Plan)
    requires path != [] && Sound(p) && Leads(p.schema, path, n) && Framed(path[0].before)
    requires Fuse(p, Upto(path, one)).Some? && |Upto(path[1..], one)| < WORD
    ensures Sound(into) && Leads(into.schema, path[1..], n) && Fuse(into, Upto(path[1..], one)).Some?
    ensures Fuse(p, path[0].before).Some? && IsTarget(Fuse(p, path[0].before).value, path[0].number, into)
  {
    hide Fuse, FuseRecord, Encoded, Field, Framed, Sound, IsTarget;
    var h, inner := path[0], Upto(path[1..], one);
    SmallNumbers(p.schema, h.number);
    FusePrefix(p, h.before, Encoded(h.number, inner));
    FuseSound(p, h.before);
    var q := Fuse(p, h.before).value;
    FuseConcat(p, h.before, Encoded(h.number, inner));
    FuseOne(q, h.number, inner);
    into := Into(q, h.number, inner);
  }

  lemma SameAround(p: Plan, path: seq<Hop>, two: Octets, both: Octets, into: Plan)
    requires path != [] && Fuse(p, path[0].before).Some?
    requires IsTarget(Fuse(p, path[0].before).value, path[0].number, into)
    requires |Around(path[1..], two)| < WORD && |Around(path[1..], both)| < WORD
    requires Fuse(into, Around(path[1..], two)) == Fuse(into, Around(path[1..], both))
    ensures Fuse(p, Around(path, two)) == Fuse(p, Around(path, both))
  {
    hide Fuse, FuseRecord, Encoded, Field, Target, Cleared;
    var h, q := path[0], Fuse(p, path[0].before).value;
    SmallNumbers(q.schema, h.number);
    FuseAfter(p, h.before, h.number, Around(path[1..], two), h.after);
    FuseAfter(p, h.before, h.number, Around(path[1..], both), h.after);
    SameInto(q, h.number, Around(path[1..], two), Around(path[1..], both), into);
  }

  lemma Inner(m: nat, data: Octets)
    ensures |data| <= |Encoded(m, data)|
  {
    hide W.PutVarint;
  }

  /** A fragment of field `m` is merged into the plan `into`. */
  ghost predicate IsTarget(p: Plan, m: nat, into: Plan) {
    && Field(p.schema, m).Some? && Field(p.schema, m).value.0.Message?
    && into.schema == Field(p.schema, m).value.0.child
    && Target(Cleared(p.schema, m, p.fields), m, into.schema, Field(p.schema, m).value.1) == Some(into)
  }

  lemma Into(p: Plan, m: nat, data: Octets) returns (into: Plan)
    requires Sound(p) && Field(p.schema, m).Some? && Field(p.schema, m).value.0.Message?
    requires FuseRecord(p, P.Record(m, 2, P.Data(data))).Some?
    ensures Sound(into) && into.schema == Field(p.schema, m).value.0.child && Fuse(into, data).Some?
    ensures IsTarget(p, m, into)
  {
    hide Fuse, Field, Target, Cleared, Placed, Sound;
    var (kind, many) := Field(p.schema, m).value;
    var cleared := p.(fields := Cleared(p.schema, m, p.fields));
    SoundCleared(p, m);
    into := Target(cleared.fields, m, kind.child, many).value;
    SoundTarget(cleared, m, kind.child, many);
  }

  lemma SameInto(p: Plan, m: nat, two: Octets, both: Octets, into: Plan)
    requires IsTarget(p, m, into) && Fuse(into, two) == Fuse(into, both)
    ensures FuseRecord(p, P.Record(m, 2, P.Data(two))) == FuseRecord(p, P.Record(m, 2, P.Data(both)))
  {
    hide Fuse, Field, Target, Cleared, Placed;
  }

  lemma {:induction false} BareAt(fields: Fields<Values>)
    ensures |BareFields(fields)| == |fields|
    ensures forall i :: 0 <= i < |fields| ==> BareFields(fields)[i] == (fields[i].0, BareValues(fields[i].1))
    decreases |fields|
  {
    hide BareValues;
    if fields != [] { BareAt(fields[1..]); }
  }

  lemma {:induction false} BareItemsAt(items: seq<Item>)
    ensures |BareItems(items)| == |items|
    ensures forall i :: 0 <= i < |items| ==> BareItems(items)[i] == BareItem(items[i])
    decreases |items|
  {
    hide BareItem;
    if items != [] { BareItemsAt(items[1..]); }
  }

  /** Charges do not matter to soundness. */
  lemma {:induction false} BareSound(p: Plan)
    requires Sound(p)
    ensures Sound(Bare(p))
    decreases p
  {
    hide SoundValues, BareFields, BareValues, OneOf;
    BareAt(p.fields);
    var m: nat :| Only(p.fields, Survives(p.schema, m));
    assert Only(Bare(p).fields, Survives(p.schema, m));
    forall i | 0 <= i < |p.fields| ensures SoundValues(p.schema, p.fields[i].0, BareValues(p.fields[i].1)) {
      BareValuesSound(p.schema, p.fields[i].0, p.fields[i].1);
    }
  }

  lemma {:induction false} BareValuesSound(s: Schema, n: nat, v: Values)
    requires SoundValues(s, n, v)
    ensures SoundValues(s, n, BareValues(v))
    decreases v
  {
    hide Field, Bare, Sound;
    match v
    case Single(item) =>
      if item.Sub? { BareSound(item.plan); }
      BareSchema(item);
    case Many(items) =>
      BareItemsAt(items);
      forall i | 0 <= i < |items| ensures SoundItem(s, n, BareItem(items[i])) {
        if items[i].Sub? { BareSound(items[i].plan); }
        BareSchema(items[i]);
      }
  }

  lemma BareSchema(item: Item)
    ensures item.Sub? ==> BareItem(item) == Sub(Bare(item.plan)) && Bare(item.plan).schema == item.plan.schema
    ensures item.Scalar? ==> BareItem(item).Scalar?
  {
  }

  /** The same of the charged merge, where it admits all three. */
  lemma AdjacentMerge(plan: Plan, path: seq<Hop>, lead: Octets, n: nat, x: Octets, y: Octets, trail: Octets,
                      o: Options)
    requires Sound(plan) && Leads(plan.schema, path, n) && Aligned(path) && Framed(lead)
    requires |Upto(path, lead + Encoded(n, x))| < WORD && Merge(plan, Upto(path, lead + Encoded(n, x)), o).Ok?
    requires var two := Beside(lead, Encoded(n, x) + Encoded(n, y), trail);
             var both := Beside(lead, Encoded(n, x + y), trail);
             && |Around(path, two)| < WORD && |Around(path, both)| < WORD
             && Merge(plan, Around(path, two), o).Ok? && Merge(plan, Around(path, both), o).Ok?
    ensures Bare(Merge(plan, Around(path, Beside(lead, Encoded(n, x) + Encoded(n, y), trail)), o).value.0) ==
            Bare(Merge(plan, Around(path, Beside(lead, Encoded(n, x + y), trail)), o).value.0)
  {
    hide Merge, Fuse, Around, Upto, Encoded, Leads, Sound, Framed, Aligned, Beside;
    MergeFuses(plan, Upto(path, lead + Encoded(n, x)), o);
    MergeFuses(plan, Around(path, Beside(lead, Encoded(n, x) + Encoded(n, y), trail)), o);
    MergeFuses(plan, Around(path, Beside(lead, Encoded(n, x + y), trail)), o);
    BareSound(plan);
    AdjacentDeep(Bare(plan), path, lead, n, x, y, trail);
  }

  // ---- When the limits admit both --------------------------------------------

  predicate Leq(a: Charge, b: Charge) {
    a.bytes <= b.bytes && a.nodes <= b.nodes
  }

  lemma AddLeq(s: nat, t: nat, c: nat, d: nat, x: nat)
    requires SatAdd(s, c) <= SatAdd(t, d)
    ensures SatAdd(s, SatAdd(c, x)) <= SatAdd(t, SatAdd(d, x))
  {
  }

  lemma AddedLeq(s: Charge, t: Charge, c: Charge, d: Charge, x: Charge)
    requires Leq(Add(s, c), Add(t, d))
    ensures Leq(Add(s, Add(c, x)), Add(t, Add(d, x)))
    ensures Leq(Add(s, c.(bytes := SatAdd(c.bytes, x.bytes))), Add(t, d.(bytes := SatAdd(d.bytes, x.bytes))))
  {
    hide SatAdd;
    AddLeq(s.bytes, t.bytes, c.bytes, d.bytes, x.bytes);
    AddLeq(s.nodes, t.nodes, c.nodes, d.nodes, x.nodes);
  }

  /** A plan differing only in what it was charged before. */
  predicate SameButCharge(p: Plan, q: Plan) {
    p == q.(supplied := p.supplied)
  }

  lemma AdoptShift(p: Plan, q: Plan, n: nat, child: Schema, many: bool, merged: Plan, added: Charge, c: Charge,
                   d: Charge, o: Options)
    requires SameButCharge(p, q) && Leq(Add(p.supplied, c), Add(q.supplied, d))
             && Adopt(q, n, child, many, merged, added, d, o).Ok?
    ensures Adopt(p, n, child, many, merged, added, c, o).Ok?
    ensures Shifted(p, q, Adopt(p, n, child, many, merged, added, c, o).value,
                    Adopt(q, n, child, many, merged, added, d, o).value)
  {
    hide Placed, Add, Attribute;
    AddedLeq(p.supplied, q.supplied, c, d, added);
  }

  lemma ScalarShift(p: Plan, q: Plan, n: nat, kind: Kind, many: bool, value: P.Value, c: Charge, d: Charge)
    requires SameButCharge(p, q) && Leq(Add(p.supplied, c), Add(q.supplied, d))
             && PlaceScalar(q, n, kind, many, value, d).Ok?
    ensures PlaceScalar(p, n, kind, many, value, c).Ok?
    ensures Shifted(p, q, PlaceScalar(p, n, kind, many, value, c).value, PlaceScalar(q, n, kind, many, value, d).value)
  {
    hide Placed, Add, Attribute, PushAll, Numbers, ScalarBytes, Packed;
    AddedLeq(p.supplied, q.supplied, c, d, Charge(ScalarBytes(kind, value), 0));
  }

  /** Plans that were alike and still are, one charged no more than the other. */
  predicate Shifted(p: Plan, q: Plan, x: (Plan, Charge), y: (Plan, Charge)) {
    && SameButCharge(x.0, y.0) && x.0.supplied == p.supplied && y.0.supplied == q.supplied
    && Leq(Add(p.supplied, x.1), Add(q.supplied, y.1))
  }

  /** Where a step is within the limits, it is within them with no more charged before, and does the same. */
  lemma StepShift(p: Plan, q: Plan, r: P.Record, c: Charge, d: Charge, o: Options)
    requires SameButCharge(p, q) && Leq(Add(p.supplied, c), Add(q.supplied, d)) && Step(q, r, d, o).Ok?
    ensures Step(p, r, c, o).Ok? && Shifted(p, q, Step(p, r, c, o).value, Step(q, r, d, o).value)
  {
    hide Cleared, Target, Merge, Adopt, PlaceScalar, Field, Nested, Add;
    var found := Field(p.schema, r.number);
    if found.Some? {
      var (kind, many) := found.value;
      var a := p.(fields := Cleared(p.schema, r.number, p.fields));
      var b := q.(fields := Cleared(q.schema, r.number, q.fields));
      if kind.Message? && r.value.Data? {
        var into := Target(b.fields, r.number, kind.child, many);
        var merged := Merge(into.value, r.value.bytes, Nested(q.schema, r.number, o)).value;
        AdoptShift(a, b, r.number, kind.child, many, merged.0, merged.1, c, d, o);
      } else {
        ScalarShift(a, b, r.number, kind, many, r.value, c, d);
      }
    }
  }

  lemma {:induction false} LoopShift(p: Plan, q: Plan, s: Octets, c: Charge, d: Charge, o: Options)
    requires SameButCharge(p, q) && Leq(Add(p.supplied, c), Add(q.supplied, d)) && Loop(q, s, d, o).Ok?
    ensures Loop(p, s, c, o).Ok? && Shifted(p, q, Loop(p, s, c, o).value, Loop(q, s, d, o).value)
    decreases |s|
  {
    hide Step, P.Next, Add, SameButCharge;
    if s != [] {
      P.NextShorter(s);
      var (r, rest) := P.Next(s).value;
      StepShift(p, q, r, c, d, o);
      var x, y := Step(p, r, c, o).value, Step(q, r, d, o).value;
      LoopShift(x.0, y.0, rest, x.1, y.1, o);
    }
  }

  /** The records of one fragment, then those of another. */
  lemma {:induction false} LoopConcat(plan: Plan, a: Octets, b: Octets, c: Charge, o: Options)
    requires Loop(plan, a, c, o).Ok?
    ensures Loop(plan, a + b, c, o) == Loop(Loop(plan, a, c, o).value.0, b, Loop(plan, a, c, o).value.1, o)
    decreases |a|
  {
    hide Step, P.Next;
    if a == [] {
      assert a + b == b;
    } else {
      P.NextShorter(a);
      P.NextKeeps(a, b);
      var (r, rest) := P.Next(a).value;
      var (p, d) := Step(plan, r, c, o).value;
      LoopConcat(p, rest, b, d, o);
    }
  }

  lemma LoopKeepsSupplied(plan: Plan, s: Octets, c: Charge, o: Options)
    requires Loop(plan, s, c, o).Ok?
    ensures Loop(plan, s, c, o).value.0.supplied == plan.supplied
  {
    LoopShift(plan, plan, s, c, c, o);
  }

  /**
   * Fragments that can be merged one after the other can be merged as one, and
   * that leaves the same fields. The other way round takes more: each fragment of
   * an attribute is charged a node.
   */
  lemma MergeConcat(plan: Plan, a: Octets, b: Octets, o: Options)
    requires Merge(plan, a, o).Ok? && Merge(Merge(plan, a, o).value.0, b, o).Ok?
    ensures Merge(plan, a + b, o).Ok?
    ensures Bare(Merge(Merge(plan, a, o).value.0, b, o).value.0) == Bare(Merge(plan, a + b, o).value.0)
  {
    hide Bare, Fuse, Loop, Start;
    MergeFuses(plan, a, o);
    MergeFuses(Merge(plan, a, o).value.0, b, o);
    var (p, c) := Loop(plan, a, Start(plan.schema), o).value;
    LoopConcat(plan, a, b, Start(plan.schema), o);
    LoopKeepsSupplied(plan, a, Start(plan.schema), o);
    var q := Merge(plan, a, o).value.0;
    Charged(plan.supplied, c, Start(q.schema));
    LoopShift(p, q, b, c, Start(q.schema), o);
    MergeFuses(plan, a + b, o);
    FuseConcat(Bare(plan), a, b);
  }

  lemma Charged(s: Charge, c: Charge, d: Charge)
    ensures Leq(Add(s, c), Add(Add(s, c), d))
  {
  }

  /** Bytes that are whole records. */
  predicate Framed(s: Octets)
    decreases |s|
  {
    s == [] || (P.Next(s).Some? && (P.NextShorter(s); Framed(P.Next(s).value.1)))
  }

  lemma Grows(s: Charge, c: Charge, x: Charge)
    ensures Leq(Add(s, c), Add(s, Add(c, x))) && Leq(Add(s, c), Add(s, c.(bytes := SatAdd(c.bytes, x.bytes))))
  {
  }

  lemma StepGrows(p: Plan, r: P.Record, c: Charge, o: Options)
    requires Step(p, r, c, o).Ok?
    ensures var x := Step(p, r, c, o).value; x.0.supplied == p.supplied && Leq(Add(p.supplied, c), Add(p.supplied, x.1))
  {
    hide Cleared, Target, Merge, Placed, PushAll, Numbers, Attribute, ScalarBytes, Packed, Field, Nested, Add;
    var found := Field(p.schema, r.number);
    if found.Some? {
      var (kind, many) := found.value;
      if kind.Message? && r.value.Data? {
        var into := Target(Cleared(p.schema, r.number, p.fields), r.number, kind.child, many);
        var merged := Merge(into.value, r.value.bytes, Nested(p.schema, r.number, o));
        Grows(p.supplied, c, merged.value.1);
      } else {
        Grows(p.supplied, c, Charge(ScalarBytes(kind, r.value), 0));
      }
    }
  }

  lemma {:induction false} LoopGrows(p: Plan, s: Octets, c: Charge, o: Options)
    requires Loop(p, s, c, o).Ok?
    ensures var x := Loop(p, s, c, o).value; x.0.supplied == p.supplied && Leq(Add(p.supplied, c), Add(p.supplied, x.1))
    decreases |s|
  {
    hide Step, P.Next, Add;
    if s != [] {
      P.NextShorter(s);
      var (r, rest) := P.Next(s).value;
      StepGrows(p, r, c, o);
      LoopGrows(Step(p, r, c, o).value.0, rest, Step(p, r, c, o).value.1, o);
    }
  }

  lemma {:induction false} LoopPrefix(plan: Plan, a: Octets, b: Octets, c: Charge, o: Options)
    requires Framed(a) && Loop(plan, a + b, c, o).Ok?
    ensures Loop(plan, a, c, o).Ok?
    decreases |a|
  {
    hide Step, P.Next;
    if a != [] {
      P.NextShorter(a);
      P.NextKeeps(a, b);
      var (r, rest) := P.Next(a).value;
      LoopPrefix(Step(plan, r, c, o).value.0, rest, b, Step(plan, r, c, o).value.1, o);
    }
  }

  lemma {:induction false} LoopFramed(plan: Plan, s: Octets, c: Charge, o: Options)
    requires Loop(plan, s, c, o).Ok?
    ensures Framed(s)
    decreases |s|
  {
    hide Step, P.Next;
    if s != [] {
      P.NextShorter(s);
      var (r, rest) := P.Next(s).value;
      LoopFramed(Step(plan, r, c, o).value.0, rest, Step(plan, r, c, o).value.1, o);
    }
  }

  // ---- The same merge, charged more before -----------------------------------

  /** `q` with `d` charged is `p` with `c` charged, and `x` more. */
  predicate Ahead(p: Plan, c: Charge, q: Plan, d: Charge, x: Charge) {
    SameButCharge(p, q) && Add(q.supplied, d) == Add(Add(p.supplied, c), x)
  }

  lemma SatAssociates(a: nat, b: nat, c: nat)
    ensures SatAdd(a, SatAdd(b, c)) == SatAdd(SatAdd(a, b), c)
  {
  }

  lemma SatAhead(s: nat, c: nat, t: nat, d: nat, x: nat, y: nat)
    requires SatAdd(t, d) == SatAdd(SatAdd(s, c), x)
    ensures SatAdd(t, SatAdd(d, y)) == SatAdd(SatAdd(s, SatAdd(c, y)), x)
  {
    hide SatAdd;
    SatAssociates(t, d, y);
    SatAssociates(s, c, y);
    SatAssociates(SatAdd(s, c), x, y);
    SatAssociates(SatAdd(s, c), y, x);
    SatCommutes(x, y);
  }

  lemma SatCommutes(a: nat, b: nat)
    ensures SatAdd(a, b) == SatAdd(b, a)
  {
  }

  lemma AheadAdded(p: Plan, c: Charge, q: Plan, d: Charge, x: Charge, y: Charge)
    requires Ahead(p, c, q, d, x)
    ensures Ahead(p, Add(c, y), q, Add(d, y), x)
    ensures Ahead(p, c.(bytes := SatAdd(c.bytes, y.bytes)), q, d.(bytes := SatAdd(d.bytes, y.bytes)), x)
  {
    hide SatAdd;
    SatAhead(p.supplied.bytes, c.bytes, q.supplied.bytes, d.bytes, x.bytes, y.bytes);
    SatAhead(p.supplied.nodes, c.nodes, q.supplied.nodes, d.nodes, x.nodes, y.nodes);
  }

  /** Both have done the same since, and are as far apart. */
  predicate StillAhead(p: Plan, q: Plan, x: Charge, y: (Plan, Charge), z: (Plan, Charge)) {
    Ahead(y.0, y.1, z.0, z.1, x) && y.0.supplied == p.supplied && z.0.supplied == q.supplied
  }

  lemma AdoptAhead(p: Plan, q: Plan, n: nat, child: Schema, many: bool, merged: Plan, added: Charge, c: Charge,
                   d: Charge, x: Charge, o: Options)
    requires Ahead(p, c, q, d, x) && Adopt(p, n, child, many, merged, added, c, o).Ok?
    ensures Adopt(q, n, child, many, merged, added, d, o).Ok?
    ensures StillAhead(p, q, x, Adopt(p, n, child, many, merged, added, c, o).value,
                       Adopt(q, n, child, many, merged, added, d, o).value)
  {
    hide Placed, Add, Attribute;
    AheadAdded(p, c, q, d, x, added);
  }

  lemma ScalarAhead(p: Plan, q: Plan, n: nat, kind: Kind, many: bool, value: P.Value, c: Charge, d: Charge, x: Charge)
    requires Ahead(p, c, q, d, x) && PlaceScalar(p, n, kind, many, value, c).Ok?
    ensures PlaceScalar(q, n, kind, many, value, d).Ok?
    ensures StillAhead(p, q, x, PlaceScalar(p, n, kind, many, value, c).value,
                       PlaceScalar(q, n, kind, many, value, d).value)
  {
    hide Placed, Add, Attribute, PushAll, Numbers, ScalarBytes, Packed;
    AheadAdded(p, c, q, d, x, Charge(ScalarBytes(kind, value), 0));
  }

  /** A step that succeeds does the same with more charged before, exactly when the limits leave room for it. */
  lemma StepAhead(p: Plan, q: Plan, r: P.Record, c: Charge, d: Charge, x: Charge, o: Options)
    requires Ahead(p, c, q, d, x) && Step(p, r, c, o).Ok?
    ensures !Over(Add(Add(p.supplied, Step(p, r, c, o).value.1), x), o) ==> Step(q, r, d, o).Ok?
    ensures Step(q, r, d, o).Ok? ==> StillAhead(p, q, x, Step(p, r, c, o).value, Step(q, r, d, o).value)
  {
    hide Cleared, Target, Merge, Adopt, PlaceScalar, Field, Nested, Add, Over;
    var found := Field(p.schema, r.number);
    if found.Some? {
      var (kind, many) := found.value;
      var a := p.(fields := Cleared(p.schema, r.number, p.fields));
      var b := q.(fields := Cleared(q.schema, r.number, q.fields));
      if kind.Message? && r.value.Data? {
        var into := Target(a.fields, r.number, kind.child, many);
        var merged := Merge(into.value, r.value.bytes, Nested(p.schema, r.number, o)).value;
        AdoptAhead(a, b, r.number, kind.child, many, merged.0, merged.1, c, d, x, o);
      } else {
        ScalarAhead(a, b, r.number, kind, many, r.value, c, d, x);
      }
    }
  }

  lemma UnderLess(a: Charge, b: Charge, x: Charge, o: Options)
    requires Leq(a, b) && !Over(Add(b, x), o)
    ensures !Over(Add(a, x), o)
  {
  }

  lemma {:induction false} LoopAhead(p: Plan, q: Plan, s: Octets, c: Charge, d: Charge, x: Charge, o: Options)
    requires Ahead(p, c, q, d, x) && Loop(p, s, c, o).Ok?
    ensures !Over(Add(Add(p.supplied, Loop(p, s, c, o).value.1), x), o) ==> Loop(q, s, d, o).Ok?
    ensures Loop(q, s, d, o).Ok? ==> StillAhead(p, q, x, Loop(p, s, c, o).value, Loop(q, s, d, o).value)
    decreases |s|
  {
    hide Step, P.Next, Add, SameButCharge, Over, Leq;
    if s != [] {
      P.NextShorter(s);
      var (r, rest) := P.Next(s).value;
      StepAhead(p, q, r, c, d, x, o);
      var y := Step(p, r, c, o).value;
      StepGrows(p, r, c, o);
      LoopGrows(y.0, rest, y.1, o);
      var total := Add(p.supplied, Loop(p, s, c, o).value.1);
      if !Over(Add(total, x), o) {
        UnderLess(Add(p.supplied, y.1), total, x, o);
      }
      if Step(q, r, d, o).Ok? {
        var z := Step(q, r, d, o).value;
        LoopAhead(y.0, z.0, rest, y.1, z.1, x, o);
      }
    }
  }

  /** A whole merge can be split: the first part is whole records, and the limits leave room for another start. */
  ghost predicate Splits(plan: Plan, a: Octets, b: Octets, o: Options) {
    Merge(plan, a, o).Ok? && Merge(Merge(plan, a, o).value.0, b, o).Ok?
  }

  lemma SplitRoom(plan: Plan, a: Octets, b: Octets, o: Options)
    requires Merge(plan, a + b, o).Ok? && Framed(a)
    ensures Splits(plan, a, b, o) <==> !Over(Add(Merge(plan, a + b, o).value.0.supplied, Start(plan.schema)), o)
  {
    hide Loop, Framed, Add, Over, Start, Leq;
    var start := Start(plan.schema);
    LoopPrefix(plan, a, b, start, o);
    LoopConcat(plan, a, b, start, o);
    LoopGrows(plan, a, start, o);
    var (p, c) := Loop(plan, a, start, o).value;
    LoopGrows(p, b, c, o);
    SchemaStays(plan, a, start, o);
    SchemaStays(p, b, c, o);
    Under(Add(p.supplied, c), Add(p.supplied, Loop(p, b, c, o).value.1), o);
    LoopAhead(p, p.(supplied := Add(p.supplied, c)), b, c, start, start, o);
  }

  lemma Under(a: Charge, b: Charge, o: Options)
    requires Leq(a, b)
    ensures !Over(b, o) ==> !Over(a, o)
  {
  }

  /**
   * Bytes that merge whole merge in two exactly when they are split between records and, inside an
   * attribute, the limits leave room for the node the second fragment is charged.
   */
  lemma MergeSplits(plan: Plan, a: Octets, b: Octets, o: Options)
    requires Merge(plan, a + b, o).Ok?
    ensures Splits(plan, a, b, o) <==>
            Framed(a)
            && (Attribute(plan.schema) ==> !Over(Add(Merge(plan, a + b, o).value.0.supplied, Charge(0, 1)), o))
  {
    hide Loop, Framed, Attribute;
    if Merge(plan, a, o).Ok? {
      LoopFramed(plan, a, Start(plan.schema), o);
    }
    if Framed(a) {
      SplitRoom(plan, a, b, o);
    }
  }

  /** The same condition, read off the bytes: what they supply, and what the plan was charged before. */
  lemma SplitsByBytes(plan: Plan, a: Octets, b: Octets, o: Options)
    requires Sound(plan) && Merge(plan, a + b, o).Ok?
    ensures Splits(plan, a, b, o) <==>
            && Framed(a)
            && (Attribute(plan.schema) ==>
                  var supplied := Supplied(plan.schema, a + b, Start(plan.schema));
                  !Over(Add(Add(plan.supplied, supplied), Charge(0, 1)), o))
  {
    hide Merge, Framed, Attribute, Supplied, Splits, Sound;
    MergeSplits(plan, a, b, o);
    MergeCharges(plan, a + b, o);
  }

  lemma {:induction false} SchemaStays(p: Plan, s: Octets, c: Charge, o: Options)
    requires Loop(p, s, c, o).Ok?
    ensures Loop(p, s, c, o).value.0.schema == p.schema
    decreases |s|
  {
    hide Cleared, Target, Merge, Placed, PushAll, Numbers, Attribute, ScalarBytes, Packed, Field, Nested, P.Next;
    if s != [] {
      P.NextShorter(s);
      var (r, rest) := P.Next(s).value;
      SchemaStays(Step(p, r, c, o).value.0, rest, Step(p, r, c, o).value.1, o);
    }
  }

  /**
   Inside attributes each fragment is charged a node of its own, and two may be one too many: a
   text value given twice.
   */
  lemma SplitMayFail(o: Options)
    requires o.maxNodes == 1 && o.maxBytes >= 2
    ensures var text := [0x0A, 1, 0x78];
            Framed(text) && Merge(New(Any), text + text, o).Ok? && !Splits(New(Any), text, text, o)
  {
    var text: Octets := [0x0A, 1, 0x78];
    TextRecord([]);
    TextRecord(text);
    assert text + [] == text;
    var r := P.Record(1, 2, P.Data([0x78]));
    TextStep(New(Any), r, Start(Any), o);
    var (p, c) := Step(New(Any), r, Start(Any), o).value;
    TextStep(p, r, c, o);
    assert Loop(New(Any), text + text, Start(Any), o) == Loop(p, text, c, o);
    assert Loop(p, text, c, o) == Step(p, r, c, o);
    MergeSplits(New(Any), text, text, o);
  }

  lemma TextStep(plan: Plan, r: P.Record, c: Charge, o: Options)
    requires plan.schema == Any && r == P.Record(1, 2, P.Data([0x78])) && plan.supplied == FREE
    requires c.bytes < o.maxBytes && c.nodes <= o.maxNodes && c.bytes < 2
    ensures Step(plan, r, c, o).Ok?
    ensures var (p, d) := Step(plan, r, c, o).value;
            p.schema == Any && p.supplied == FREE && d == c.(bytes := c.bytes + 1)
  {
    hide Cleared, Put;
  }

  lemma TextRecord(rest: Octets)
    ensures P.Next([0x0A, 1, 0x78] + rest) == Some((P.Record(1, 2, P.Data([0x78])), rest))
  {
    var s: Octets := [0x0A, 1, 0x78] + rest;
    assert s[1..] == [1, 0x78] + rest && s[1..][1..] == [0x78] + rest;
    assert P.Varint(s) == Some((0x0A, s[1..])) && P.Varint(s[1..]) == Some((1, s[1..][1..]));
    assert s[1..][1..][..1] == [0x78] && s[1..][1..][1..] == rest;
  }
}
