/**
 * Protobuf merge plans (`otlp_merge.rs`): fragments of a message merged field by
 * field, charging what was supplied against its owner's limits.
 */
module OtlpMerge {
  import opened Prelude
  import opened FieldTable
  import opened OtlpSchema
  import P = Protobuf
  import T = Text
  import opened Wire

  type Octets = T.Bytes

  datatype Error = InvalidProtobuf | TooManyRecords | AttributesTooLarge | TooManyNodes

  datatype Options = Options(maxRecords: nat, maxPairs: nat, maxKey: nat, maxText: nat, maxBytes: nat, maxDepth: nat,
                             maxNodes: nat, maxTotal: nat)

  const USIZE_MAX: nat := 0xFFFF_FFFF_FFFF_FFFF
  const BODY_MAX: nat := 16 * 1024 * 1024

  function SatAdd(a: nat, b: nat): nat {
    if a + b > USIZE_MAX then USIZE_MAX else a + b
  }

  datatype Charge = Charge(bytes: nat, nodes: nat)

  const FREE := Charge(0, 0)

  function Add(a: Charge, b: Charge): Charge {
    Charge(SatAdd(a.bytes, b.bytes), SatAdd(a.nodes, b.nodes))
  }

  predicate Over(c: Charge, o: Options) {
    c.bytes > o.maxBytes || c.nodes > o.maxNodes
  }

  datatype Plan = Plan(schema: Schema, fields: Fields<Values>, supplied: Charge, pairs: nat)
  datatype Item = Scalar(value: P.Value) | Sub(plan: Plan)
  datatype Values = Single(item: Item) | Many(items: seq<Item>)

  function New(s: Schema): Plan {
    Plan(s, [], FREE, 0)
  }

  // ---- Placing values --------------------------------------------------------

  /** A field that survives the arrival of field `n`: not another member of its oneof. */
  function Survives(s: Schema, n: nat): nat -> bool {
    (key: nat) => key == n || !OneOf(s, key)
  }

  function Cleared(s: Schema, n: nat, fields: Fields<Values>): Fields<Values> {
    if OneOf(s, n) then Keep(fields, Survives(s, n)) else fields
  }

  /** Items appended to a repeated field, which then exists even when nothing was appended. */
  function PushAll(fields: Fields<Values>, n: nat, items: seq<Item>): Option<Fields<Values>> {
    var found: Option<Values> := Find(fields, n);
    match found
    case None => Some(Put(fields, n, Many(items)))
    case Some(Many(before)) => Some(Put(fields, n, Many(before + items)))
    case Some(Single(_)) => if items == [] then Some(fields) else None
  }

  /** The message a fragment merges into: a new one, or the one already there. */
  function Target(fields: Fields<Values>, n: nat, child: Schema, many: bool): Option<Plan> {
    if many then Some(New(child))
    else
      var found: Option<Values> := Find(fields, n);
      match found
      case None => Some(New(child))
      case Some(Single(Sub(plan))) => Some(plan)
      case Some(_) => None
  }

  function Placed(fields: Fields<Values>, n: nat, many: bool, item: Item): Option<Fields<Values>> {
    if many then PushAll(fields, n, [item]) else Some(Put(fields, n, Single(item)))
  }

  /** The numbers of a packed field. */
  function Numbers(kind: Kind, s: Octets): Option<seq<nat>> {
    if kind == PackedUint64 then
      if P.PackedCount(s, 0).None? then None else P.PackedNumbers(s)
    else Some(P.Words(s))
  }

  function Scalars(numbers: seq<nat>): seq<Item> {
    seq(|numbers|, i requires 0 <= i < |numbers| => Scalar(P.Number(numbers[i])))
  }

  /** What a scalar's owner is charged; bytes materialize as base64. */
  function ScalarBytes(kind: Kind, value: P.Value): nat {
    match value
    case Number(_) => 8
    case Data(b) => if kind == Bytes then (|b| + 2) / 3 * 4 else |b|
  }

  function Nested(s: Schema, n: nat, o: Options): Options {
    if s == LogRecord && n == 5 then o.(maxText := BODY_MAX, maxBytes := BODY_MAX) else o
  }

  function Start(s: Schema): Charge {
    Charge(0, if Attribute(s) then 1 else 0)
  }

  // ---- Merging ---------------------------------------------------------------

  function Merge(plan: Plan, s: Octets, o: Options): Result<(Plan, Charge), Error>
    decreases |s|, 2
  {
    var (p, c) :- Loop(plan, s, Start(plan.schema), o);
    var total := Add(p.supplied, c);
    if Over(total, o) then Err(AttributesTooLarge) else Ok((p.(supplied := total), c))
  }

  function Loop(plan: Plan, s: Octets, charge: Charge, o: Options): Result<(Plan, Charge), Error>
    decreases |s|, 1
  {
    if s == [] then Ok((plan, charge))
    else if P.Next(s).None? then Err(InvalidProtobuf)
    else
      P.NextShorter(s);
      var (r, rest) := P.Next(s).value;
      var (p, c) :- Step(plan, r, charge, o);
      Loop(p, rest, c, o)
  }

  function Step(plan: Plan, r: P.Record, charge: Charge, o: Options): Result<(Plan, Charge), Error>
    decreases if r.value.Data? then |r.value.bytes| + 1 else 0, 0
  {
    match Field(plan.schema, r.number)
    case None => Ok((plan, charge))
    case Some((kind, many)) =>
      var cleared := plan.(fields := Cleared(plan.schema, r.number, plan.fields));
      var (p, c) :-
        if kind.Message? && r.value.Data? then
          var into :- OrInvalid(Target(cleared.fields, r.number, kind.child, many));
          var (merged, added) :- Merge(into, r.value.bytes, Nested(plan.schema, r.number, o));
          Adopt(cleared, r.number, kind.child, many, merged, added, charge, o)
        else PlaceScalar(cleared, r.number, kind, many, r.value, charge);
      if Over(Add(p.supplied, c), o) then Err(AttributesTooLarge) else Ok((p, c))
  }

  function OrInvalid<T>(x: Option<T>): Result<T, Error> {
    match x
    case None => Err(InvalidProtobuf)
    case Some(v) => Ok(v)
  }

  /** Puts a merged child in its place and counts it. */
  function Adopt(plan: Plan, n: nat, child: Schema, many: bool, merged: Plan, added: Charge, charge: Charge, o: Options)
    : Result<(Plan, Charge), Error>
  {
    var fields :- OrInvalid(Placed(plan.fields, n, many, Sub(merged)));
    var pairs := if child == Pair then SatAdd(plan.pairs, 1) else plan.pairs;
    if child == Pair && pairs > o.maxPairs then Err(AttributesTooLarge)
    else
      var c := if Attribute(plan.schema) || child == Pair then Add(charge, added) else charge;
      Ok((plan.(fields := fields, pairs := pairs), c))
  }

  function PlaceScalar(plan: Plan, n: nat, kind: Kind, many: bool, value: P.Value,
                       charge: Charge): Result<(Plan, Charge), Error> {
    if Packed(kind) && value.Data? then
      var numbers :- OrInvalid(Numbers(kind, value.bytes));
      var fields :- OrInvalid(PushAll(plan.fields, n, Scalars(numbers)));
      Ok((plan.(fields := fields), charge))
    else
      var c := if Attribute(plan.schema) then charge.(bytes := SatAdd(charge.bytes, ScalarBytes(kind, value)))
               else charge;
      var fields :- OrInvalid(Placed(plan.fields, n, many, Scalar(value)));
      Ok((plan.(fields := fields), c))
  }

  // ---- Merging step by step --------------------------------------------------

  /** `push`: one item appended to a repeated field. */
  method Push(fields: Fields<Values>, n: nat, item: Item) returns (r: Option<Fields<Values>>)
    ensures r == PushAll(fields, n, [item])
  {
    var found: Option<Values> := Find(fields, n);
    match found
    case None => r := Some(Put(fields, n, Many([item])));
    case Some(Many(items)) => r := Some(Put(fields, n, Many(items + [item])));
    case Some(Single(_)) => r := None;
  }

  /** `now` is `fields` with the numbers pushed so far. */
  ghost predicate Pushed(fields: Fields<Values>, n: nat, numbers: seq<nat>, now: Fields<Values>) {
    if numbers == [] then now == fields else PushAll(fields, n, Scalars(numbers)) == Some(now)
  }

  lemma PushedStep(fields: Fields<Values>, n: nat, numbers: seq<nat>, now: Fields<Values>, x: nat)
    requires Pushed(fields, n, numbers, now)
    ensures PushAll(now, n, [Scalar(P.Number(x))]) == PushAll(fields, n, Scalars(numbers + [x]))
  {
    hide Find, Put;
    assert Scalars(numbers + [x]) == Scalars(numbers) + [Scalar(P.Number(x))];
    assert numbers == [] ==> Scalars(numbers + [x]) == [Scalar(P.Number(x))];
    var found: Option<Values> := Find(fields, n);
    var before := if found.Some? && found.value.Many? then found.value.items else [];
    if numbers != [] {
      FindPut(fields, n, Many(before + Scalars(numbers)), n);
      PutPut(fields, n, Many(before + Scalars(numbers)), Many(before + Scalars(numbers) + [Scalar(P.Number(x))]));
      assert before + Scalars(numbers) + [Scalar(P.Number(x))] == before + (Scalars(numbers) + [Scalar(P.Number(x))]);
      assert found.None? ==> before + Scalars(numbers) == Scalars(numbers);
    }
  }

  /** An explicitly empty repeated field is kept as well. */
  method EnsureField(fields: Fields<Values>, n: nat, ghost was: Fields<Values>, ghost numbers: seq<nat>)
    returns (r: Fields<Values>)
    requires Pushed(was, n, numbers, fields)
    ensures PushAll(was, n, Scalars(numbers)) == Some(r)
  {
    hide Put;
    ghost var found: Option<Values> := Find(was, n);
    if numbers == [] {
      assert Scalars(numbers) == [];
      if found.Some? && found.value.Many? { PutSame(was, n); }
    } else {
      ghost var before := if found.Some? && found.value.Many? then found.value.items else [];
      assert found.None? ==> before + Scalars(numbers) == Scalars(numbers);
      FindPut(was, n, Many(before + Scalars(numbers)), n);
    }
    r := if Find(fields, n).Some? then fields else Put(fields, n, Many([]));
  }

  lemma PutSame(fields: Fields<Values>, n: nat)
    requires Find(fields, n).Some? && Find(fields, n).value.Many?
    ensures Put(fields, n, Many(Find(fields, n).value.items + [])) == fields
  {
    var v := Find(fields, n).value;
    assert v == Many(v.items + []);
    ReplaceSame(fields, n);
  }

  /** What is read in all, once `done` is read. */
  function Resumed(done: seq<nat>, rest: Option<seq<nat>>): Option<seq<nat>> {
    match rest
    case None => None
    case Some(more) => Some(done + more)
  }

  lemma ResumedStart(rest: Option<seq<nat>>)
    ensures Resumed([], rest) == rest
  {
    if rest.Some? { assert [] + rest.value == rest.value; }
  }

  lemma ResumedStep(done: seq<nat>, s: Octets)
    requires s != []
    ensures Resumed(done, P.PackedNumbers(s)) ==
            match P.Varint(s) case None => None case Some((n, rest)) => Resumed(done + [n], P.PackedNumbers(rest))
  {
    hide P.Varint;
    if P.Varint(s).Some? {
      var (n, rest) := P.Varint(s).value;
      if P.PackedNumbers(rest).Some? {
        assert done + ([n] + P.PackedNumbers(rest).value) == done + [n] + P.PackedNumbers(rest).value;
      }
    }
  }

  /** The varints of a packed field, pushed one by one. */
  method PushVarints(fields: Fields<Values>, n: nat, s: Octets) returns (r: Option<Fields<Values>>)
    ensures r == match Numbers(PackedUint64, s)
                 case None => None
                 case Some(numbers) => PushAll(fields, n, Scalars(numbers))
  {
    hide PushAll, Find, Put, P.PackedCount, P.Varint, Scalars;
    var count := P.CountVarints(s);
    if count.None? {
      return None;
    }
    var now := fields;
    ghost var done: seq<nat> := [];
    ResumedStart(P.PackedNumbers(s));
    var reader := new P.Reader(s);
    while reader.pos < |reader.bytes|
      invariant fresh(reader) && reader.Valid() && reader.bytes == s && Pushed(fields, n, done, now)
      invariant P.PackedNumbers(s) == Resumed(done, P.PackedNumbers(reader.Rest()))
      decreases |reader.Rest()|
    {
      P.VarintShorter(reader.Rest());
      ResumedStep(done, reader.Rest());
      var x := reader.TakeVarint();
      if x.None? {
        return None;
      }
      PushedStep(fields, n, done, now, x.value);
      var next := Push(now, n, Scalar(P.Number(x.value)));
      if next.None? {
        PushedFails(fields, n, done + [x.value], P.PackedNumbers(s));
        return None;
      }
      now, done := next.value, done + [x.value];
    }
    assert done + [] == done;
    var kept := EnsureField(now, n, fields, done);
    r := Some(kept);
  }

  lemma PushedFails(fields: Fields<Values>, n: nat, numbers: seq<nat>, all: Option<seq<nat>>)
    requires numbers != [] && PushAll(fields, n, Scalars(numbers)).None? && (all.Some? ==> numbers <= all.value)
    ensures all.Some? ==> PushAll(fields, n, Scalars(all.value)).None?
  {
  }

  /** The fixed-width numbers of a packed field, pushed one by one; a remainder is ignored. */
  method PushWords(fields: Fields<Values>, n: nat, s: Octets) returns (r: Option<Fields<Values>>)
    ensures r == PushAll(fields, n, Scalars(P.Words(s)))
  {
    hide PushAll, Find, Put;
    var now := fields;
    ghost var done: seq<nat> := [];
    var i := 0;
    while i + 8 <= |s|
      invariant i <= |s| && Pushed(fields, n, done, now) && P.Words(s) == done + P.Words(s[i..])
    {
      assert s[i..][..8] == s[i..i + 8] && s[i..][8..] == s[i + 8..];
      var x := WordOf(s[i..i + 8]);
      PushedStep(fields, n, done, now, x);
      var next := Push(now, n, Scalar(P.Number(x)));
      if next.None? {
        PushedFails(fields, n, done + [x], Some(P.Words(s)));
        return None;
      }
      now, done, i := next.value, done + [x], i + 8;
    }
    assert done + [] == done;
    var kept := EnsureField(now, n, fields, done);
    r := Some(kept);
  }

  /** `merge`: the fragment's records merged into the plan one by one. */
  method MergeInto(plan: Plan, s: Octets, o: Options) returns (r: Result<(Plan, Charge), Error>)
    ensures r == Merge(plan, s, o)
    decreases |s|, 2
  {
    hide Step, P.Next;
    var p, charge := plan, Start(plan.schema);
    var reader := new P.Reader(s);
    while reader.pos < |reader.bytes|
      invariant fresh(reader) && reader.Valid() && reader.bytes == s
      invariant Loop(plan, s, Start(plan.schema), o) == Loop(p, reader.Rest(), charge, o)
      decreases |reader.Rest()|
    {
      if P.Next(reader.Rest()).Some? { P.NextShorter(reader.Rest()); }
      var record := reader.TakeNext();
      if record.None? {
        return Err(InvalidProtobuf);
      }
      var step := MergeRecord(p, record.value, charge, o);
      if step.Err? {
        return Err(step.error);
      }
      p, charge := step.value.0, step.value.1;
    }
    var total := Add(p.supplied, charge);
    r := if Over(total, o) then Err(AttributesTooLarge) else Ok((p.(supplied := total), charge));
  }

  method MergeRecord(plan: Plan, record: P.Record, charge: Charge, o: Options)
    returns (r: Result<(Plan, Charge), Error>)
    ensures r == Step(plan, record, charge, o)
    decreases if record.value.Data? then |record.value.bytes| + 1 else 0, 0
  {
    hide Field, Attribute, OneOf, Cleared, Target, Placed, PushAll, Numbers, Scalars, Merge, Packed, Adopt,
         PlaceScalar, Over;
    var found := Field(plan.schema, record.number);
    if found.None? {
      return Ok((plan, charge));
    }
    var (kind, many) := found.value;
    var cleared := plan.(fields := Cleared(plan.schema, record.number, plan.fields));
    var placed: Result<(Plan, Charge), Error>;
    if kind.Message? && record.value.Data? {
      var into := Target(cleared.fields, record.number, kind.child, many);
      if into.None? {
        return Err(InvalidProtobuf);
      }
      var merged := MergeInto(into.value, record.value.bytes, Nested(plan.schema, record.number, o));
      if merged.Err? {
        return Err(merged.error);
      }
      placed := Adopt(cleared, record.number, kind.child, many, merged.value.0, merged.value.1, charge, o);
    } else {
      placed := AddScalar(cleared, record.number, kind, many, record.value, charge);
    }
    if placed.Err? {
      return Err(placed.error);
    }
    r := if Over(Add(placed.value.0.supplied, placed.value.1), o) then Err(AttributesTooLarge) else placed;
  }

  method AddScalar(plan: Plan, n: nat, kind: Kind, many: bool, value: P.Value, charge: Charge)
    returns (r: Result<(Plan, Charge), Error>)
    ensures r == PlaceScalar(plan, n, kind, many, value, charge)
  {
    hide Attribute, PushAll, Scalars, Put, ScalarBytes, P.PackedCount, P.PackedNumbers, P.Words;
    if Packed(kind) && value.Data? {
      var fields: Option<Fields<Values>>;
      if kind == PackedUint64 {
        fields := PushVarints(plan.fields, n, value.bytes);
      } else {
        fields := PushWords(plan.fields, n, value.bytes);
      }
      return if fields.None? then Err(InvalidProtobuf) else Ok((plan.(fields := fields.value), charge));
    }
    var c := if Attribute(plan.schema) then charge.(bytes := SatAdd(charge.bytes, ScalarBytes(kind, value)))
             else charge;
    var fields := Placed(plan.fields, n, many, Scalar(value));
    r := if fields.None? then Err(InvalidProtobuf) else Ok((plan.(fields := fields.value), c));
  }

  // ---- Sound plans -----------------------------------------------------------

  /** At most one member of a oneof is present. */
  ghost predicate OneMember(s: Schema, fields: Fields<Values>) {
    exists m: nat {:trigger Survives(s, m)} :: Only(fields, Survives(s, m))
  }

  /**
   Every message in the plan has its fields in order, at most one member of each oneof, and
   messages where its schema says.
   */
  ghost predicate Sound(p: Plan)
    decreases p
  {
    && OneMember(p.schema, p.fields) && Ascending(p.fields)
    && forall i :: 0 <= i < |p.fields| ==> SoundValues(p.schema, p.fields[i].0, p.fields[i].1)
  }

  /** Of a oneof at most one entry is present. */
  lemma AtMostOne(p: Plan, i: nat, j: nat)
    requires Sound(p) && i < |p.fields| && j < |p.fields| && OneOf(p.schema, p.fields[i].0)
             && OneOf(p.schema, p.fields[j].0)
    ensures i == j
  {
    hide SoundValues, OneOf;
    var m: nat :| Only(p.fields, Survives(p.schema, m));
    assert Survives(p.schema, m)(p.fields[i].0) && Survives(p.schema, m)(p.fields[j].0);
  }

  ghost predicate SoundValues(s: Schema, n: nat, v: Values)
    decreases v
  {
    match v
    case Single(item) => SoundItem(s, n, item)
    case Many(items) => forall i :: 0 <= i < |items| ==> SoundItem(s, n, items[i])
  }

  ghost predicate SoundItem(s: Schema, n: nat, item: Item)
    decreases item
  {
    item.Sub? ==> Field(s, n).Some? && Field(s, n).value.0 == Message(item.plan.schema) && Sound(item.plan)
  }

  ghost function Good(s: Schema): (nat, Values) -> bool {
    (n: nat, v: Values) => SoundValues(s, n, v)
  }

  lemma SoundNew(s: Schema)
    ensures Sound(New(s))
  {
    var none: Fields<Values> := [];
    assert Only(none, Survives(s, 0));
  }

  lemma SoundCleared(plan: Plan, n: nat)
    requires Sound(plan)
    ensures Sound(plan.(fields := Cleared(plan.schema, n, plan.fields)))
    ensures OneOf(plan.schema, n) ==> Only(Cleared(plan.schema, n, plan.fields), Survives(plan.schema, n))
  {
    hide OneOf, SoundValues, Ascending;
    if OneOf(plan.schema, n) {
      KeepOnly(plan.fields, Survives(plan.schema, n));
      assert Every(plan.fields, Good(plan.schema));
      EveryKeep(plan.fields, Good(plan.schema), Survives(plan.schema, n));
      AscendingKeep(plan.fields, Survives(plan.schema, n));
    }
  }

  /** A sound value put in a cleared plan keeps it sound. */
  lemma SoundPut(plan: Plan, n: nat, v: Values)
    requires Sound(plan) && SoundValues(plan.schema, n, v)
    requires OneOf(plan.schema, n) ==> Only(plan.fields, Survives(plan.schema, n))
    ensures Sound(plan.(fields := Put(plan.fields, n, v)))
  {
    hide OneOf, SoundValues, Ascending;
    assert Every(plan.fields, Good(plan.schema));
    EveryPut(plan.fields, Good(plan.schema), n, v);
    AscendingPut(plan.fields, n, v);
    var m: nat :| Only(plan.fields, Survives(plan.schema, m));
    var k := if OneOf(plan.schema, n) then n else m;
    OnlyPut(plan.fields, Survives(plan.schema, k), n, v);
  }

  lemma SoundFind(plan: Plan, n: nat)
    requires Sound(plan) && Find(plan.fields, n).Some?
    ensures SoundValues(plan.schema, n, Find(plan.fields, n).value)
  {
    hide SoundValues;
    assert Every(plan.fields, Good(plan.schema));
    EveryFind(plan.fields, Good(plan.schema), n);
  }

  lemma SoundPush(plan: Plan, n: nat, items: seq<Item>)
    requires Sound(plan) && PushAll(plan.fields, n, items).Some?
    requires forall i :: 0 <= i < |items| ==> SoundItem(plan.schema, n, items[i])
    requires OneOf(plan.schema, n) ==> Only(plan.fields, Survives(plan.schema, n))
    ensures Sound(plan.(fields := PushAll(plan.fields, n, items).value))
  {
    hide OneOf, Sound, SoundItem, Put;
    var found: Option<Values> := Find(plan.fields, n);
    match found
    case None => SoundPut(plan, n, Many(items));
    case Some(Many(before)) =>
      SoundFind(plan, n);
      SoundPut(plan, n, Many(before + items));
    case Some(Single(_)) =>
  }

  lemma SoundPlaced(plan: Plan, n: nat, many: bool, item: Item)
    requires Sound(plan) && Placed(plan.fields, n, many, item).Some? && SoundItem(plan.schema, n, item)
    requires OneOf(plan.schema, n) ==> Only(plan.fields, Survives(plan.schema, n))
    ensures Sound(plan.(fields := Placed(plan.fields, n, many, item).value))
  {
    hide OneOf, Sound, SoundItem, PushAll, Put;
    if many { SoundPush(plan, n, [item]); } else { SoundPut(plan, n, Single(item)); }
  }

  lemma SoundTarget(plan: Plan, n: nat, child: Schema, many: bool)
    requires Sound(plan) && Target(plan.fields, n, child, many).Some?
    requires Field(plan.schema, n) == Some((Message(child), many))
    ensures Sound(Target(plan.fields, n, child, many).value)
            && Target(plan.fields, n, child, many).value.schema == child
  {
    hide Field;
    SoundNew(child);
    if Find(plan.fields, n).Some? { SoundFind(plan, n); }
  }

  /** Merging keeps a plan sound. */
  lemma {:induction false} MergeSound(plan: Plan, s: Octets, o: Options)
    requires Sound(plan) && Merge(plan, s, o).Ok?
    ensures Sound(Merge(plan, s, o).value.0) && Merge(plan, s, o).value.0.schema == plan.schema
    decreases |s|, 2
  {
    LoopSound(plan, s, Start(plan.schema), o);
  }

  lemma {:induction false} LoopSound(plan: Plan, s: Octets, charge: Charge, o: Options)
    requires Sound(plan) && Loop(plan, s, charge, o).Ok?
    ensures Sound(Loop(plan, s, charge, o).value.0) && Loop(plan, s, charge, o).value.0.schema == plan.schema
    decreases |s|, 1
  {
    hide Step, Sound;
    if s != [] {
      P.NextShorter(s);
      var (r, rest) := P.Next(s).value;
      StepSound(plan, r, charge, o);
      var (p, c) := Step(plan, r, charge, o).value;
      LoopSound(p, rest, c, o);
    }
  }

  lemma {:induction false} StepSound(plan: Plan, r: P.Record, charge: Charge, o: Options)
    requires Sound(plan) && Step(plan, r, charge, o).Ok?
    ensures Sound(Step(plan, r, charge, o).value.0) && Step(plan, r, charge, o).value.0.schema == plan.schema
    decreases if r.value.Data? then |r.value.bytes| + 1 else 0, 0
  {
    hide Field, Attribute, OneOf, Cleared, Target, Placed, PushAll, Numbers, Scalars, Loop, Packed, Sound;
    var found := Field(plan.schema, r.number);
    if found.Some? {
      var (kind, many) := found.value;
      var cleared := plan.(fields := Cleared(plan.schema, r.number, plan.fields));
      SoundCleared(plan, r.number);
      if kind.Message? && r.value.Data? {
        var into := Target(cleared.fields, r.number, kind.child, many).value;
        SoundTarget(cleared, r.number, kind.child, many);
        MergeSound(into, r.value.bytes, Nested(plan.schema, r.number, o));
        var (merged, added) := Merge(into, r.value.bytes, Nested(plan.schema, r.number, o)).value;
        SoundPlaced(cleared, r.number, many, Sub(merged));
        SoundRest(cleared, Step(plan, r, charge, o).value.0, Placed(cleared.fields, r.number, many, Sub(merged)).value);
      } else {
        ScalarSound(cleared, r.number, kind, many, r.value, charge);
      }
    }
  }

  /** Soundness looks at schema and fields only. */
  lemma SoundRest(p: Plan, q: Plan, fields: Fields<Values>)
    requires Sound(p.(fields := fields)) && q.schema == p.schema && q.fields == fields
    ensures Sound(q)
  {
  }

  lemma ScalarSound(plan: Plan, n: nat, kind: Kind, many: bool, value: P.Value, charge: Charge)
    requires Sound(plan) && PlaceScalar(plan, n, kind, many, value, charge).Ok?
    requires OneOf(plan.schema, n) ==> Only(plan.fields, Survives(plan.schema, n))
    ensures Sound(PlaceScalar(plan, n, kind, many, value, charge).value.0)
    ensures PlaceScalar(plan, n, kind, many, value, charge).value.0.schema == plan.schema
  {
    hide OneOf, Sound, Placed, PushAll, Numbers, Attribute, ScalarBytes, Packed;
    if Packed(kind) && value.Data? {
      SoundPush(plan, n, Scalars(Numbers(kind, value.bytes).value));
    } else {
      SoundPlaced(plan, n, many, Scalar(value));
    }
  }

  // ---- What is charged -------------------------------------------------------

  /** What the fragment `s` supplies, added to `from`: a function of the bytes alone. */
  function Supplied(schema: Schema, s: Octets, from: Charge): Charge
    decreases |s|, 1
  {
    if s == [] || P.Next(s).None? then from
    else
      P.NextShorter(s);
      var (r, rest) := P.Next(s).value;
      Supplied(schema, rest, RecordCharge(schema, r, from))
  }

  function RecordCharge(schema: Schema, r: P.Record, from: Charge): Charge
    decreases if r.value.Data? then |r.value.bytes| + 1 else 0, 0
  {
    match Field(schema, r.number)
    case None => from
    case Some((kind, _)) =>
      if kind.Message? && r.value.Data? then
        if Attribute(schema) || kind.child == Pair then
          Add(from, Supplied(kind.child, r.value.bytes, Start(kind.child)))
        else from
      else if Packed(kind) && r.value.Data? then from
      else if Attribute(schema) then from.(bytes := SatAdd(from.bytes, ScalarBytes(kind, r.value)))
      else from
  }

  /**
   * A merge charges exactly what its fragment supplies, whatever the plan held
   * before and whatever the fragment replaced; the plan's own total grows by
   * that, and stays within the limits.
   */
  lemma {:induction false} MergeCharges(plan: Plan, s: Octets, o: Options)
    requires Sound(plan) && Merge(plan, s, o).Ok?
    ensures var (q, c) := Merge(plan, s, o).value;
            && c == Supplied(plan.schema, s, Start(plan.schema))
            && q.supplied == Add(plan.supplied, c) && !Over(q.supplied, o) && q.schema == plan.schema
    decreases |s|, 2
  {
    LoopCharges(plan, s, Start(plan.schema), o);
  }

  lemma {:induction false} LoopCharges(plan: Plan, s: Octets, charge: Charge, o: Options)
    requires Sound(plan) && Loop(plan, s, charge, o).Ok?
    ensures var (q, c) := Loop(plan, s, charge, o).value;
            c == Supplied(plan.schema, s, charge) && q.supplied == plan.supplied && q.schema == plan.schema
    decreases |s|, 1
  {
    hide Step, RecordCharge, Sound;
    if s != [] {
      P.NextShorter(s);
      var (r, rest) := P.Next(s).value;
      StepCharges(plan, r, charge, o);
      StepSound(plan, r, charge, o);
      var (p, c) := Step(plan, r, charge, o).value;
      LoopCharges(p, rest, c, o);
    }
  }

  lemma {:induction false} StepCharges(plan: Plan, r: P.Record, charge: Charge, o: Options)
    requires Sound(plan) && Step(plan, r, charge, o).Ok?
    ensures var (q, c) := Step(plan, r, charge, o).value;
            c == RecordCharge(plan.schema, r, charge) && q.supplied == plan.supplied && q.schema == plan.schema
    decreases if r.value.Data? then |r.value.bytes| + 1 else 0, 0
  {
    hide Field, Attribute, OneOf, Cleared, Target, Placed, PushAll, Numbers, Scalars, Loop, Packed, Supplied, Sound;
    var found := Field(plan.schema, r.number);
    if found.Some? && found.value.0.Message? && r.value.Data? {
      var (kind, many) := found.value;
      var cleared := plan.(fields := Cleared(plan.schema, r.number, plan.fields));
      var into := Target(cleared.fields, r.number, kind.child, many).value;
      SoundCleared(plan, r.number);
      SoundTarget(cleared, r.number, kind.child, many);
      MergeCharges(into, r.value.bytes, Nested(plan.schema, r.number, o));
    }
  }
}
