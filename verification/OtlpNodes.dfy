/** Node budgets: what preflight counts bounds what merging builds (`otlp_traces.rs`, `preflight`). */
module OtlpNodes {
  import opened Prelude
  import opened FieldTable
  import opened OtlpSchema
  import opened OtlpMerge
  import P = Protobuf

  // ---- Nodes of a plan -------------------------------------------------------

  /** One node per message, per repeated field and per scalar. */
  function Nodes(p: Plan): nat
    decreases p
  {
    1 + FieldNodes(p.fields)
  }

  function FieldNodes(fields: Fields<Values>): nat
    decreases fields
  {
    if fields == [] then 0 else EntryNodes(fields[0]) + FieldNodes(fields[1..])
  }

  function EntryNodes(entry: (nat, Values)): nat
    decreases entry
  {
    ValueNodes(entry.1)
  }

  function ValueNodes(v: Values): nat
    decreases v
  {
    match v
    case Single(item) => ItemNodes(item)
    case Many(items) => 1 + ItemsNodes(items)
  }

  function ItemsNodes(items: seq<Item>): nat
    decreases items
  {
    if items == [] then 0 else ItemNodes(items[0]) + ItemsNodes(items[1..])
  }

  function ItemNodes(item: Item): nat
    decreases item
  {
    match item
    case Scalar(_) => 1
    case Sub(plan) => Nodes(plan)
  }

  // ---- Nodes preflight counts ------------------------------------------------

  /** Whether preflight accepts a record's wire type for its field. */
  predicate WireFits(kind: Kind, wire: nat) {
    wire == WireType(kind) || (Packed(kind) && wire == 2)
  }

  /** The values a packed occurrence expands to. */
  function PackedSize(kind: Kind, s: Octets): Option<nat> {
    if kind == PackedUint64 then P.PackedCount(s, 0)
    else if |s| % 8 == 0 then Some(|s| / 8)
    else None
  }

  /** The nodes a message's bytes are counted as; none when a record cannot be read or does not fit its field. */
  function Count(schema: Schema, s: Octets): Option<nat>
    decreases |s|, 2
  {
    var n :- CountFrom(schema, s, {});
    Some(n + 1)
  }

  /** The same for the records from some point on; `seen` are the repeated fields before it. */
  function CountFrom(schema: Schema, s: Octets, seen: set<nat>): Option<nat>
    decreases |s|, 1
  {
    if s == [] then Some(0)
    else if P.Next(s).None? then None
    else
      P.NextShorter(s);
      var (r, rest) := P.Next(s).value;
      var n :- RecordCount(schema, r, seen);
      var m :- CountFrom(schema, rest, Seen(schema, r, seen));
      Some(n + m)
  }

  function Seen(schema: Schema, r: P.Record, seen: set<nat>): set<nat> {
    match Field(schema, r.number)
    case None => seen
    case Some((_, many)) => if many then seen + {r.number} else seen
  }

  function RecordCount(schema: Schema, r: P.Record, seen: set<nat>): Option<nat>
    decreases if r.value.Data? then |r.value.bytes| + 1 else 0, 0
  {
    if schema == Resource && r.number == 3 then None
    else
      match Field(schema, r.number)
      case None => Some(1)
      case Some((kind, many)) =>
        var list := if many && r.number !in seen then 1 else 0;
        if !WireFits(kind, r.wire) then None
        else if Packed(kind) && r.wire == 2 then
          if !r.value.Data? then None
          else
            var values :- PackedSize(kind, r.value.bytes);
            Some(list + 1 + values)
        else if kind.Message? then
          if !r.value.Data? then None
          else
            var n :- Count(kind.child, r.value.bytes);
            Some(list + n)
        else Some(list + 1)
  }

  // ---- The bound -------------------------------------------------------------

  lemma {:induction false} FieldNodesIsWeight(fields: Fields<Values>)
    ensures FieldNodes(fields) == Weight(fields, ValueNodes)
    decreases |fields|
  {
    hide ValueNodes;
    if fields != [] { FieldNodesIsWeight(fields[1..]); }
  }

  function NodesAt(fields: Fields<Values>, n: nat): nat {
    match Find(fields, n)
    case None => 0
    case Some(v) => ValueNodes(v)
  }

  lemma NodesPut(fields: Fields<Values>, n: nat, v: Values)
    ensures FieldNodes(Put(fields, n, v)) + NodesAt(fields, n) == FieldNodes(fields) + ValueNodes(v)
  {
    hide ValueNodes, Put;
    FieldNodesIsWeight(fields);
    FieldNodesIsWeight(Put(fields, n, v));
    WeightPut(fields, ValueNodes, n, v);
  }

  lemma NodesCleared(s: Schema, n: nat, fields: Fields<Values>)
    ensures FieldNodes(Cleared(s, n, fields)) <= FieldNodes(fields)
  {
    hide ValueNodes, OneOf, Keep;
    FieldNodesIsWeight(fields);
    FieldNodesIsWeight(Cleared(s, n, fields));
    WeightKeep(fields, ValueNodes, Survives(s, n));
  }

  lemma {:induction false} ItemsAppend(a: seq<Item>, b: seq<Item>)
    ensures ItemsNodes(a + b) == ItemsNodes(a) + ItemsNodes(b)
    decreases |a|
  {
    hide ItemNodes;
    if a == [] {
      assert a + b == b;
    } else {
      assert (a + b)[1..] == a[1..] + b;
      ItemsAppend(a[1..], b);
    }
  }

  lemma {:induction false} ScalarsNodes(items: seq<Item>)
    requires forall i :: 0 <= i < |items| ==> items[i].Scalar?
    ensures ItemsNodes(items) == |items|
    decreases |items|
  {
    if items != [] { ScalarsNodes(items[1..]); }
  }

  /** The repeated fields seen so far are in the plan. */
  ghost predicate Present(fields: Fields<Values>, seen: set<nat>) {
    forall n :: n in seen ==> Find(fields, n).Some?
  }

  /** Pushing adds the items, and a list where the field was not there yet. */
  lemma NodesPush(fields: Fields<Values>, n: nat, items: seq<Item>)
    requires PushAll(fields, n, items).Some?
    ensures var more := PushAll(fields, n, items).value;
            && FieldNodes(more) <= FieldNodes(fields) + ItemsNodes(items) + (if Find(fields, n).None? then 1 else 0)
            && Find(more, n).Some? && forall m :: m != n ==> Find(more, m) == Find(fields, m)
  {
    hide Find, Put, FieldNodes, ItemsNodes;
    var found: Option<Values> := Find(fields, n);
    match found
    case None =>
      NodesPut(fields, n, Many(items));
      PutFinds(fields, n, Many(items));
    case Some(Many(before)) =>
      NodesPut(fields, n, Many(before + items));
      PutFinds(fields, n, Many(before + items));
      ItemsAppend(before, items);
    case Some(Single(_)) =>
  }

  lemma PutFinds(fields: Fields<Values>, n: nat, v: Values)
    ensures Find(Put(fields, n, v), n) == Some(v)
    ensures forall m :: m != n ==> Find(Put(fields, n, v), m) == Find(fields, m)
  {
    hide Put;
    forall m ensures Find(Put(fields, n, v), m) == if m == n then Some(v) else Find(fields, m) {
      FindPut(fields, n, v, m);
    }
  }

  /** A cleared field is a rival, and rivals do not repeat. */
  lemma PresentCleared(s: Schema, n: nat, fields: Fields<Values>, seen: set<nat>)
    requires Present(fields, seen) && forall m :: m in seen ==> !OneOf(s, m)
    ensures Present(Cleared(s, n, fields), seen)
  {
    hide OneOf, Find;
    forall m | m in seen ensures Find(Cleared(s, n, fields), m).Some? {
      FindKeep(fields, Survives(s, n), m);
    }
  }

  ghost predicate Repeats(s: Schema, seen: set<nat>) {
    forall m :: m in seen ==> Field(s, m).Some? && Field(s, m).value.1
  }

  lemma RepeatsFree(s: Schema, seen: set<nat>)
    requires Repeats(s, seen)
    ensures forall m :: m in seen ==> !OneOf(s, m)
  {
    hide OneOf, Field;
    forall m | m in seen ensures !OneOf(s, m) {
      TableFacts(s, m);
    }
  }

  /** Merging a fragment adds at most the nodes preflight counts for it, less the message it merges into. */
  lemma {:induction false} MergeBounded(plan: Plan, s: Octets, o: Options)
    requires Sound(plan) && Merge(plan, s, o).Ok? && Count(plan.schema, s).Some?
    ensures Nodes(Merge(plan, s, o).value.0) + 1 <= Nodes(plan) + Count(plan.schema, s).value
    decreases |s|, 2
  {
    hide Sound, Loop, CountFrom, Over;
    LoopBounded(plan, s, Start(plan.schema), o, {});
  }

  lemma {:induction false} LoopBounded(plan: Plan, s: Octets, charge: Charge, o: Options, seen: set<nat>)
    requires Sound(plan) && Loop(plan, s, charge, o).Ok? && CountFrom(plan.schema, s, seen).Some?
    requires Present(plan.fields, seen) && Repeats(plan.schema, seen)
    ensures Nodes(Loop(plan, s, charge, o).value.0) <= Nodes(plan) + CountFrom(plan.schema, s, seen).value
    decreases |s|, 1
  {
    hide Sound, Step, RecordCount, P.Next, Nodes, Field, Present;
    if s != [] {
      P.NextShorter(s);
      var (r, rest) := P.Next(s).value;
      NextWire(s);
      StepBounded(plan, r, charge, o, seen);
      StepSound(plan, r, charge, o);
      var (p, c) := Step(plan, r, charge, o).value;
      LoopBounded(p, rest, c, o, Seen(plan.schema, r, seen));
    }
  }

  lemma {:induction false} StepBounded(plan: Plan, r: P.Record, charge: Charge, o: Options, seen: set<nat>)
    requires Sound(plan) && Step(plan, r, charge, o).Ok? && RecordCount(plan.schema, r, seen).Some?
    requires Present(plan.fields, seen) && Repeats(plan.schema, seen) && (r.value.Data? <==> r.wire == 2)
    ensures var q := Step(plan, r, charge, o).value.0;
            && Nodes(q) <= Nodes(plan) + RecordCount(plan.schema, r, seen).value
            && Present(q.fields, Seen(plan.schema, r, seen)) && Repeats(plan.schema, Seen(plan.schema, r, seen))
    decreases if r.value.Data? then |r.value.bytes| + 1 else 0, 0
  {
    hide Sound, Field, Attribute, OneOf, Cleared, Target, Placed, Merge, Count, PlaceScalar, Over, FieldNodes,
         Present, WireType;
    var found := Field(plan.schema, r.number);
    if found.Some? {
      var (kind, many) := found.value;
      var cleared := plan.(fields := Cleared(plan.schema, r.number, plan.fields));
      SoundCleared(plan, r.number);
      NodesCleared(plan.schema, r.number, plan.fields);
      RepeatsFree(plan.schema, seen);
      PresentCleared(plan.schema, r.number, plan.fields, seen);
      if kind.Message? && r.value.Data? {
        var into := Target(cleared.fields, r.number, kind.child, many).value;
        SoundTarget(cleared, r.number, kind.child, many);
        var inner := Nested(plan.schema, r.number, o);
        MergeBounded(into, r.value.bytes, inner);
        AdoptBounded(cleared.fields, r.number, kind.child, many, Merge(into, r.value.bytes, inner).value.0,
                     Count(kind.child, r.value.bytes).value, seen);
      } else {
        TableFacts(plan.schema, r.number);
        ScalarBounded(cleared, r.number, kind, many, r.value, charge, seen);
      }
    }
  }

  lemma AdoptBounded(fields: Fields<Values>, n: nat, child: Schema, many: bool, merged: Plan, count: nat,
                     seen: set<nat>)
    requires Target(fields, n, child, many).Some? && Placed(fields, n, many, Sub(merged)).Some? && Present(fields, seen)
    requires Nodes(merged) + 1 <= Nodes(Target(fields, n, child, many).value) + count
    ensures var more := Placed(fields, n, many, Sub(merged)).value;
            && FieldNodes(more) <= FieldNodes(fields) + count + (if many && n !in seen then 1 else 0)
            && Present(more, if many then seen + {n} else seen)
  {
    hide Find, Put, FieldNodes, ItemsNodes, PushAll;
    NewNodes(child);
    if many {
      NodesPush(fields, n, [Sub(merged)]);
      OneNode(Sub(merged));
    } else {
      NodesPut(fields, n, Single(Sub(merged)));
      PutFinds(fields, n, Single(Sub(merged)));
    }
  }

  lemma NewNodes(s: Schema)
    ensures Nodes(New(s)) == 1
  {
  }

  lemma OneNode(item: Item)
    ensures ItemsNodes([item]) == ItemNodes(item)
  {
    hide ItemNodes;
    assert [item][1..] == [];
  }

  lemma NumbersSize(kind: Kind, s: Octets)
    requires Packed(kind) && Numbers(kind, s).Some? && PackedSize(kind, s).Some?
    ensures |Numbers(kind, s).value| == PackedSize(kind, s).value
  {
    hide P.PackedCount, P.PackedNumbers, P.Words;
    if kind == PackedUint64 { P.PackedLength(s); } else { P.WordsLength(s); }
  }

  /** What a scalar occurrence counts, apart from a new list. */
  function ScalarCount(kind: Kind, value: P.Value): Option<nat> {
    if Packed(kind) && value.Data? then
      var values :- PackedSize(kind, value.bytes);
      Some(values + 1)
    else Some(1)
  }

  lemma ScalarBounded(plan: Plan, n: nat, kind: Kind, many: bool, value: P.Value, charge: Charge, seen: set<nat>)
    requires PlaceScalar(plan, n, kind, many, value, charge).Ok? && Present(plan.fields, seen)
    requires ScalarCount(kind, value).Some? && (Packed(kind) ==> many)
    ensures var q := PlaceScalar(plan, n, kind, many, value, charge).value.0;
            && q.schema == plan.schema
            && FieldNodes(q.fields) <=
                 FieldNodes(plan.fields) + ScalarCount(kind, value).value + (if many && n !in seen then 1 else 0)
            && Present(q.fields, if many then seen + {n} else seen)
  {
    hide Find, Put, FieldNodes, ItemsNodes, PushAll, Numbers, PackedSize, Packed, Attribute, ScalarBytes;
    if Packed(kind) && value.Data? {
      NumbersSize(kind, value.bytes);
      var items := Scalars(Numbers(kind, value.bytes).value);
      NodesPush(plan.fields, n, items);
      ScalarsNodes(items);
    } else if many {
      NodesPush(plan.fields, n, [Scalar(value)]);
      OneNode(Scalar(value));
    } else {
      NodesPut(plan.fields, n, Single(Scalar(value)));
      PutFinds(plan.fields, n, Single(Scalar(value)));
    }
  }

  lemma NextWire(s: Octets)
    requires P.Next(s).Some?
    ensures var r := P.Next(s).value.0; r.value.Data? <==> r.wire == 2
  {
    hide P.Varint, P.Take;
  }

  /** A decoded message has no more nodes than preflight counted for its bytes. */
  lemma DecodedBounded(schema: Schema, s: Octets, o: Options)
    requires Merge(New(schema), s, o).Ok? && Count(schema, s).Some?
    ensures Nodes(Merge(New(schema), s, o).value.0) <= Count(schema, s).value
  {
    hide Merge, Count, Sound;
    SoundNew(schema);
    NewNodes(schema);
    MergeBounded(New(schema), s, o);
  }
}
