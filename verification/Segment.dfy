/** Decoding stored log lines (`segment.rs`): directly, or looking at the filters first. */
module Segment {
  import opened Prelude
  import opened Text
  import opened JsonSyntax
  import opened JsonParser

  /** The names whose values a line's slots hold, and the two that filters look at. */
  datatype Schema = Schema(names: seq<Bytes>, timestamp: Bytes, service: Bytes)

  datatype Filter = Filter(start: Option<int>, end: Option<int>, service: Option<Bytes>)

  type Slots<V> = seq<Option<V>>

  /** Gave up, filtered out, or decoded. */
  datatype Outcome<+V> = Fallback | Dropped | Kept(slots: seq<Option<V>>)

  // ---- What a line says ------------------------------------------------------

  function Line(lib: Library, line: Bytes): Option<seq<(Bytes, Tree)>> {
    var (members, rest) :- TopMembers(lib, line);
    if Ws(rest) == [] then Some(members) else None
  }

  predicate Distinct(members: seq<(Bytes, Tree)>) {
    forall i, j :: 0 <= i < j < |members| ==> members[i].0 != members[j].0
  }

  function Lookup(members: seq<(Bytes, Tree)>, key: Bytes): Option<Tree> {
    if members == [] then None else if members[0].0 == key then Some(members[0].1) else Lookup(members[1..], key)
  }

  function Index(names: seq<Bytes>, key: Bytes): (r: Option<nat>)
    ensures r.Some? ==> r.value < |names| && names[r.value] == key
    ensures r.None? ==> key !in names
  {
    if names == [] then None
    else if names[0] == key then Some(0)
    else
      var i :- Index(names[1..], key);
      Some(i + 1)
  }

  function Empty<V>(names: seq<Bytes>): Slots<V> {
    seq(|names|, i => None)
  }

  /** The slots the members fill, when every one that is kept can be built. */
  function Filled<V>(b: Builder<V>, names: seq<Bytes>, members: seq<(Bytes, Tree)>): (r: Option<Slots<V>>)
    ensures r.Some? ==> |r.value| == |names|
    decreases |members|
  {
    if members == [] then Some(Empty(names))
    else
      var n := |members| - 1;
      var before :- Filled(b, names, members[..n]);
      if Index(names, members[n].0).None? then Some(before)
      else
        var v :- Build(b, members[n].1);
        Some(before[Index(names, members[n].0).value := Some(v)])
  }

  predicate Complete(schema: Schema, members: seq<(Bytes, Tree)>) {
    Distinct(members) && Lookup(members, schema.timestamp).Some?
  }

  function Direct<V>(lib: Library, b: Builder<V>, schema: Schema, line: Bytes): Option<Slots<V>> {
    var members :- Line(lib, line);
    if Complete(schema, members) then Filled(b, schema.names, members) else None
  }

  /** Whether a timestamp is an integer within the bounds. */
  predicate TimePasses(filter: Filter, t: Tree) {
    && t.Num? && t.n.Int?
    && (filter.start.Some? ==> t.n.i >= filter.start.value) && (filter.end.Some? ==> t.n.i <= filter.end.value)
  }

  predicate Passes(schema: Schema, filter: Filter, members: seq<(Bytes, Tree)>) {
    && (filter.start.Some? || filter.end.Some? ==>
          Lookup(members, schema.timestamp).Some? && TimePasses(filter, Lookup(members, schema.timestamp).value))
    && (filter.service.Some? ==> Lookup(members, schema.service) == Some(Str(filter.service.value)))
  }

  function Filtered<V>(lib: Library, b: Builder<V>, schema: Schema, filter: Filter, line: Bytes): Outcome<V> {
    match Line(lib, line)
    case None => Fallback
    case Some(members) =>
      if !Complete(schema, members) then Fallback
      else if !Passes(schema, filter, members) then Dropped
      else
        match Filled(b, schema.names, members)
        case None => Fallback
        case Some(slots) => Kept(slots)
  }

  /** A line the filters keep has exactly the slots that decoding it directly gives. */
  lemma KeptIsDirect<V>(lib: Library, b: Builder<V>, schema: Schema, filter: Filter, line: Bytes, slots: Slots<V>)
    ensures Filtered(lib, b, schema, filter, line) == Kept(slots) <==>
            Direct(lib, b, schema, line) == Some(slots) && Line(lib, line).Some?
            && Passes(schema, filter, Line(lib, line).value)
  {
    hide Line, Filled, Passes, Complete;
  }

  // ---- Decoding directly -----------------------------------------------------

  function Keys(members: seq<(Bytes, Tree)>): seq<Bytes> {
    seq(|members|, i requires 0 <= i < |members| => members[i].0)
  }

  lemma FilledSnoc<V>(b: Builder<V>, names: seq<Bytes>, members: seq<(Bytes, Tree)>, m: (Bytes, Tree))
    ensures Filled(b, names, members + [m]) ==
            match Filled(b, names, members)
            case None => None
            case Some(slots) =>
              match Index(names, m.0)
              case None => Some(slots)
              case Some(i) => match Build(b, m.1) case None => None case Some(v) => Some(slots[i := Some(v)])
  {
    assert (members + [m])[..|members|] == members;
  }

  lemma {:induction false} FilledFails<V>(b: Builder<V>, names: seq<Bytes>, members: seq<(Bytes, Tree)>,
                                          more: seq<(Bytes, Tree)>)
    requires Filled(b, names, members).None?
    ensures Filled(b, names, members + more).None?
    decreases |more|
  {
    if more == [] {
      assert members + more == members;
    } else {
      var n := |more| - 1;
      FilledFails(b, names, members, more[..n]);
      assert members + more == (members + more[..n]) + [more[n]];
      FilledSnoc(b, names, members + more[..n], more[n]);
    }
  }

  /** A member that repeats a key, or that is kept and cannot be built, leaves no slots. */
  ghost predicate Spoils<V>(b: Builder<V>, names: seq<Bytes>, done: seq<(Bytes, Tree)>, m: (Bytes, Tree)) {
    m.0 in Keys(done) || (Index(names, m.0).Some? && Build(b, m.1).None?)
  }

  lemma Spoiled<V>(lib: Library, b: Builder<V>, names: seq<Bytes>, s: Bytes, done: seq<(Bytes, Tree)>, here: Bytes)
    requires Members(lib, s, 0) == Resumed(done, Members(lib, here, 0))
    requires Member(lib, here, 0).Some? ==> Spoils(b, names, done, Member(lib, here, 0).value.0)
    ensures Members(lib, s, 0).Some? ==>
              var members := Members(lib, s, 0).value.0; !Distinct(members) || Filled(b, names, members).None?
  {
    hide Members, Member, Build, Filled;
    MembersStep(lib, here, 0);
    if Members(lib, s, 0).Some? {
      FirstMember(lib, here, 0);
      var m := Member(lib, here, 0).value.0;
      var all, tail := Members(lib, s, 0).value.0, Members(lib, here, 0).value.0[1..];
      assert all == (done + [m]) + tail;
      if m.0 in Keys(done) {
        var i :| 0 <= i < |done| && done[i].0 == m.0;
        assert all[i].0 == all[|done|].0;
      } else {
        FilledSnoc(b, names, done, m);
        FilledFails(b, names, done + [m], tail);
      }
    }
  }

  /** One member decoded in place: its key, and the slots with its value where one is kept. */
  method FieldIn<V(!new)>(p: Parser, b: Builder<V>, names: seq<Bytes>, st: Stacks<V>, slots: Slots<V>, seen: seq<Bytes>)
    returns (r: Option<(Bytes, Slots<V>)>)
    requires p.Valid() && p.depth == 0 && |slots| == |names|
    modifies p`pos, p`depth, st
    ensures p.Valid()
    ensures r.None? ==> Member(p.lib, old(p.Rest()), 0).None?
                        || var m := Member(p.lib, old(p.Rest()), 0).value.0;
                        m.0 in seen || (Index(names, m.0).Some? && Build(b, m.1).None?)
    ensures r.Some? ==>
              Member(p.lib, old(p.Rest()), 0).Some? && p.depth == 0
              && p.Rest() == Member(p.lib, old(p.Rest()), 0).value.1
    ensures r.Some? ==> var m := Member(p.lib, old(p.Rest()), 0).value.0;
                        && m.0 !in seen && r.value.0 == m.0 && |r.value.1| == |names|
                        && (if Index(names, m.0).None? then r.value.1 == slots
                            else
                              Build(b, m.1).Some?
                              && r.value.1 == slots[Index(names, m.0).value := Some(Build(b, m.1).value)])
    ensures r.Some? ==> st.keys == old(st.keys) && st.values == old(st.values)
  {
    hide StringOf, Colon, Value, Build, Ends;
    var key := p.TakeString();
    if key.None? {
      return None;
    }
    if key.value in seen {
      return None;
    }
    var colon := p.TakeColon();
    if !colon {
      return None;
    }
    var index := Index(names, key.value);
    if index.None? {
      var raw := p.SkipValue();
      return if raw.None? then None else Some((key.value, slots));
    }
    var value := p.ValueIn(b, st);
    if value.None? {
      return None;
    }
    r := Some((key.value, slots[index.value := Some(value.value)]));
  }

  /** Without filters a line is built while it is read. */
  method DirectLine<V(!new)>(lib: Library, b: Builder<V>, schema: Schema, line: Bytes, st: Stacks<V>)
    returns (r: Option<Slots<V>>)
    modifies st
    ensures r == Direct(lib, b, schema, line)
    ensures r.Some? ==> st.keys == old(st.keys) && st.values == old(st.values)
  {
    hide Ws, Member, Members, Build, Ends, Filled, Lookup, Distinct;
    var slots: Slots<V> := Empty(schema.names);
    var seen: seq<Bytes> := [];
    var p := new Parser(lib, line);
    var open := p.OpenObject();
    if open.None? {
      return None;
    }
    ghost var done: seq<(Bytes, Tree)> := [];
    StartEmpty(b, schema.names);
    if open.value {
      ghost var s := p.Rest();
      Resume(Members(lib, s, 0));
      var more := true;
      while more
        invariant fresh(p) && p.Valid() && p.depth == 0 && p.lib == lib && p.buf == line && seen == Keys(done)
                  && Distinct(done)
        invariant Filled(b, schema.names, done) == Some(slots) && |slots| == |schema.names|
        invariant more ==> Members(lib, s, 0) == Resumed(done, Members(lib, p.Rest(), 0))
        invariant !more ==> Members(lib, s, 0) == Some((done, p.Rest()))
        invariant st.keys == old(st.keys) && st.values == old(st.values)
        decreases |p.Rest()| + (if more then 1 else 0)
      {
        ghost var here := p.Rest();
        MembersStep(lib, here, 0);
        MemberShorter(lib, here, 0);
        var field := FieldIn(p, b, schema.names, st, slots, seen);
        if field.None? {
          Spoiled(lib, b, schema.names, s, done, here);
          return None;
        }
        ghost var m := Member(lib, here, 0).value.0;
        FilledSnoc(b, schema.names, done, m);
        DistinctSnoc(done, m);
        slots, seen := field.value.1, seen + [field.value.0];
        WsShorter(p.Rest());
        ghost var after := p.Rest();
        var next := p.TakeNext(CLOSE_OBJECT);
        if next.None? {
          return None;
        }
        more := next.value;
        if more {
          WsShorter(Ws(after)[1..]);
          ResumeStep(done, m, Members(lib, p.Rest(), 0));
        } else {
          ResumeStep(done, m, Some(([], p.Rest())));
          assert done + [m] + [] == done + [m] && [m] + [] == [m];
        }
        done := done + [m];
      }
    }
    p.SkipWs();
    if p.pos != |line| {
      return None;
    }
    SeenLookup(done, schema.timestamp);
    r := if schema.timestamp in seen then Some(slots) else None;
  }

  lemma StartEmpty<V>(b: Builder<V>, names: seq<Bytes>)
    ensures Filled(b, names, []) == Some(Empty(names)) && Distinct([])
  {
  }

  lemma DistinctSnoc(done: seq<(Bytes, Tree)>, m: (Bytes, Tree))
    requires Distinct(done) && m.0 !in Keys(done)
    ensures Distinct(done + [m]) && Keys(done + [m]) == Keys(done) + [m.0]
  {
    forall i | 0 <= i < |done| ensures done[i].0 != m.0 {
      assert Keys(done)[i] == done[i].0;
    }
  }

  lemma {:induction false} SeenLookup(members: seq<(Bytes, Tree)>, key: Bytes)
    ensures key in Keys(members) <==> Lookup(members, key).Some?
    decreases |members|
  {
    if members != [] {
      SeenLookup(members[1..], key);
      assert Keys(members) == [members[0].0] + Keys(members[1..]);
    }
  }

  // ---- Decoding what the filters keep ----------------------------------------

  type Raws = seq<(Bytes, Bytes)>

  method Repeats(fields: Raws) returns (r: bool)
    ensures r <==> exists i, j :: 0 <= i < j < |fields| && fields[i].0 == fields[j].0
  {
    for j := 0 to |fields|
      invariant forall a, c :: 0 <= a < c < j ==> fields[a].0 != fields[c].0
    {
      for i := 0 to j
        invariant forall a :: 0 <= a < i ==> fields[a].0 != fields[j].0
      {
        if fields[i].0 == fields[j].0 {
          return true;
        }
      }
    }
    r := false;
  }

  /** The text of a field's value. */
  method Get(lib: Library, fields: Raws, ghost members: seq<(Bytes, Tree)>, key: Bytes) returns (r: Option<Bytes>)
    requires RawsOf(lib, fields, members)
    ensures r.Some? <==> Lookup(members, key).Some?
    ensures r.Some? ==> RawOf(lib, (key, r.value), (key, Lookup(members, key).value))
  {
    hide Document;
    var i := 0;
    while i < |fields|
      invariant i <= |fields| && Lookup(members, key) == Lookup(members[i..], key)
    {
      assert members[i..][1..] == members[i + 1..];
      if fields[i].0 == key {
        return Some(fields[i].1);
      }
      i := i + 1;
    }
    assert members[i..] == [];
    r := None;
  }

  /** An integer, or anything else. */
  datatype Ts = Whole(i: int) | Other

  const CLASSIFY: Builder<Ts> := Builder(Some(Other), (x: bool) => Some(Other),
                                         (n: Number) => Some(if n.Int? then Whole(n.i) else Other), (s: Bytes) =>
                                           Some(Other), (s: Bytes) => Some(Other), (items: seq<Ts>) => Some(Other),
                                         (keys: seq<Ts>, values: seq<Ts>) => Some(Other))

  lemma {:induction false} Classified(t: Tree)
    ensures Build(CLASSIFY, t) == Some(if t.Num? && t.n.Int? then Whole(t.n.i) else Other)
    decreases t
  {
    match t
    case Arr(items) => ClassifiedItems(items);
    case Obj(members) => ClassifiedMembers(members);
    case _ =>
  }

  lemma {:induction false} ClassifiedItems(items: seq<Tree>)
    ensures BuildItems(CLASSIFY, items).Some?
    decreases items
  {
    if items != [] {
      ClassifiedItems(items[..|items| - 1]);
      Classified(items[|items| - 1]);
    }
  }

  lemma {:induction false} ClassifiedMembers(members: seq<(Bytes, Tree)>)
    ensures BuildKeys(CLASSIFY, members).Some? && BuildValues(CLASSIFY, members).Some?
    decreases members
  {
    if members != [] {
      ClassifiedMembers(members[..|members| - 1]);
      ClassifiedMember(members[|members| - 1]);
    }
  }

  lemma {:induction false} ClassifiedMember(member: (Bytes, Tree))
    ensures Build(CLASSIFY, member.1).Some?
    decreases member
  {
    Classified(member.1);
  }

  /** Whether the timestamp's text is an integer within the bounds. */
  method KeepsTime(lib: Library, filter: Filter, raw: Bytes, ghost t: Tree) returns (keep: bool)
    requires Document(lib, raw) == Some(t)
    ensures keep == TimePasses(filter, t)
  {
    hide Document, Build;
    var p := new Parser(lib, raw);
    var st := new Stacks<Ts>();
    Classified(t);
    var ts := p.TakeDocument(CLASSIFY, st);
    match ts.value
    case Whole(i) => keep := (filter.start.Some? ==> i >= filter.start.value)
                     && (filter.end.Some? ==> i <= filter.end.value);
    case Other => keep := false;
  }

  /** Whether a value's text is the wanted string. */
  method KeepsService(lib: Library, wanted: Bytes, raw: Bytes, ghost t: Tree) returns (keep: bool)
    requires Document(lib, raw) == Some(t) && raw != [] && !IsSpace(raw[0])
    ensures keep == (t == Str(wanted))
  {
    hide StringOf, Scalar, Members, Elements;
    TextOf(lib, raw, t);
    if raw[0] != QUOTE {
      return false;
    }
    var p := new Parser(lib, raw);
    var text := p.TakeString();
    keep := text == Some(wanted);
  }

  lemma TextOf(lib: Library, raw: Bytes, t: Tree)
    requires Document(lib, raw) == Some(t) && raw != [] && !IsSpace(raw[0])
    ensures t.Str? <==> raw[0] == QUOTE
    ensures t.Str? ==> StringOf(raw).Some? && StringOf(raw).value.0 == t.s
  {
    hide StringOf, Members, Elements, AfterNumber, NumberOf, Literal;
    assert Ws(raw) == raw;
  }

  /** Whether the filters keep a line, from the texts of its fields. */
  method Keeps(lib: Library, schema: Schema, filter: Filter, fields: Raws, ghost members: seq<(Bytes, Tree)>,
               ts: Bytes) returns (keep: bool)
    requires RawsOf(lib, fields, members) && Lookup(members, schema.timestamp).Some?
    requires RawOf(lib, (schema.timestamp, ts), (schema.timestamp, Lookup(members, schema.timestamp).value))
    ensures keep == Passes(schema, filter, members)
  {
    hide Document, RawsOf, Lookup, TimePasses;
    if filter.start.Some? || filter.end.Some? {
      keep := KeepsTime(lib, filter, ts, Lookup(members, schema.timestamp).value);
      if !keep {
        return;
      }
    }
    if filter.service.Some? {
      var raw := Get(lib, fields, members, schema.service);
      if raw.None? {
        return false;
      }
      keep := KeepsService(lib, filter.service.value, raw.value, Lookup(members, schema.service).value);
      return;
    }
    keep := true;
  }

  /** The kept fields built from their texts, one document each. */
  method BuildSlots<V(!new)>(lib: Library, b: Builder<V>, names: seq<Bytes>, fields: Raws,
                             ghost members: seq<(Bytes, Tree)>, st: Stacks<V>)
    returns (r: Option<Slots<V>>)
    requires RawsOf(lib, fields, members)
    modifies st
    ensures r == Filled(b, names, members)
    ensures r.Some? ==> st.keys == old(st.keys) && st.values == old(st.values)
  {
    hide Document, Build, Filled, IsSpace;
    var slots: Slots<V> := Empty(names);
    StartEmpty(b, names);
    assert members[..0] == [];
    var i := 0;
    while i < |fields|
      invariant i <= |fields| && |slots| == |names| && Filled(b, names, members[..i]) == Some(slots)
      invariant st.keys == old(st.keys) && st.values == old(st.values)
    {
      assert members[..i + 1] == members[..i] + [members[i]];
      FilledSnoc(b, names, members[..i], members[i]);
      var index := Index(names, fields[i].0);
      if index.Some? {
        var p := new Parser(lib, fields[i].1);
        assert RawOf(lib, fields[i], members[i]);
        var value := p.TakeDocument(b, st);
        if value.None? {
          assert members == members[..i + 1] + members[i + 1..];
          FilledFails(b, names, members[..i + 1], members[i + 1..]);
          return None;
        }
        slots := slots[index.value := Some(value.value)];
      }
      i := i + 1;
    }
    assert members[..i] == members;
    r := Some(slots);
  }

  /** With filters: the timestamp and the service are looked at first, and only a kept line is built. */
  method FilteredLine<V(!new)>(lib: Library, b: Builder<V>, schema: Schema, filter: Filter, line: Bytes, st: Stacks<V>)
    returns (r: Outcome<V>)
    modifies st
    ensures r == Filtered(lib, b, schema, filter, line)
    ensures r.Kept? ==> Direct(lib, b, schema, line) == Some(r.slots)
    ensures r.Kept? ==> st.keys == old(st.keys) && st.values == old(st.values)
  {
    hide TopMembers, Ws, Lookup, Filled, Passes, RawOf;
    var p := new Parser(lib, line);
    var fields := p.RawObject();
    if fields.None? {
      return Fallback;
    }
    p.SkipWs();
    if p.pos != |line| {
      return Fallback;
    }
    ghost var members := Line(lib, line).value;
    var repeats := Repeats(fields.value);
    SameKeys(lib, fields.value, members);
    if repeats {
      return Fallback;
    }
    var ts := Get(lib, fields.value, members, schema.timestamp);
    if ts.None? {
      return Fallback;
    }
    var keep := Keeps(lib, schema, filter, fields.value, members, ts.value);
    if !keep {
      return Dropped;
    }
    var slots := BuildSlots(lib, b, schema.names, fields.value, members, st);
    r := if slots.None? then Fallback else Kept(slots.value);
  }

  /**
   * Both ways to decode one line. The filtered way keeps it exactly when the direct way builds it and its
   * members pass the filters, and then both give the same slots.
   */
  method DecodeBothWays<V(!new)>(lib: Library, b: Builder<V>, schema: Schema, filter: Filter, line: Bytes,
                                 st: Stacks<V>)
    returns (direct: Option<Slots<V>>, filtered: Outcome<V>)
    modifies st
    ensures filtered.Kept? <==> direct.Some? && Line(lib, line).Some? && Passes(schema, filter, Line(lib, line).value)
    ensures filtered.Kept? ==> direct == Some(filtered.slots)
    ensures filtered.Dropped? ==> Line(lib, line).Some? && !Passes(schema, filter, Line(lib, line).value)
  {
    hide Line, Filled, Passes, Complete;
    direct := DirectLine(lib, b, schema, line, st);
    filtered := FilteredLine(lib, b, schema, filter, line, st);
  }

  lemma SameKeys(lib: Library, fields: Raws, members: seq<(Bytes, Tree)>)
    requires RawsOf(lib, fields, members)
    ensures Distinct(members) <==> !exists i, j :: 0 <= i < j < |fields| && fields[i].0 == fields[j].0
  {
    hide Document;
    assert forall i :: 0 <= i < |fields| ==> RawOf(lib, fields[i], members[i]) && fields[i].0 == members[i].0;
  }
}
