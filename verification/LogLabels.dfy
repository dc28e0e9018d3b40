/** A log entry's labels and the storage filters over them (`log_metric.rs`). */
module LogLabels {
  import opened Prelude

  type Labels = map<string, string>

  /** What the codec's JSON and text helpers answer; any answers will do here. */
  datatype Library = Library(
    pairs: string -> Option<seq<(string, string)>>,
    find: (string, string) -> Option<string>,
    size: string -> nat)

  /** What the labels of one stream are made from, with empty texts for what is missing. */
  datatype Stream = Stream(resource: string, attributes: string, service: Option<string>, level: Option<string>)

  /** The dedicated correlation columns of one line. */
  datatype Ids = Ids(trace: Option<string>, span: Option<string>)

  const NO_IDS := Ids(None, None)
  const SUFFIX := "_extracted"
  const ID_NAMES: set<string> := {"trace_id", "span_id", "trace_id_extracted", "span_id_extracted"}

  predicate Filled(value: Option<string>) {
    value.Some? && value.value != ""
  }

  predicate Traced(ids: Ids) {
    Filled(ids.trace) || Filled(ids.span)
  }

  // ---- What the labels are ---------------------------------------------------

  function Overlay(labels: Labels, pairs: seq<(string, string)>): Labels
    decreases |pairs|
  {
    if pairs == [] then labels else Overlay(labels[pairs[0].0 := pairs[0].1], pairs[1..])
  }

  function Parsed(lib: Library, text: string): Option<Labels> {
    if text == "" then Some(map[])
    else
      var pairs :- lib.pairs(text);
      Some(Overlay(map[], pairs))
  }

  /** `value` under `name` unless the name is taken or there is no value. */
  function Offer(labels: Labels, name: string, value: Option<string>): Labels {
    if value.Some? && name !in labels then labels[name := value.value] else labels
  }

  function OfferAll(labels: Labels, offers: seq<(string, Option<string>)>): Labels
    decreases |offers|
  {
    if offers == [] then labels else OfferAll(Offer(labels, offers[0].0, offers[0].1), offers[1..])
  }

  function Promotions(s: Stream): seq<(string, Option<string>)> {
    [("service", s.service), ("service_name", s.service), ("level", s.level), ("detected_level", s.level)]
  }

  /** The resource's own labels, then the promoted service and level where absent. */
  function StreamLabels(lib: Library, s: Stream): Option<Labels> {
    var own :- Parsed(lib, s.resource);
    Some(OfferAll(own, Promotions(s)))
  }

  function WithIds(metadata: Labels, ids: Ids): Labels {
    Offer(Offer(metadata, "trace_id", if Filled(ids.trace) then ids.trace else None),
          "span_id", if Filled(ids.span) then ids.span else None)
  }

  /** The name a suffixed name was made from. */
  function Base(name: string): Option<string> {
    var n := |name| - |SUFFIX|;
    if n >= 0 && name[n..] == SUFFIX then Some(name[..n]) else None
  }

  lemma BaseSuffixed(name: string)
    ensures Base(name + SUFFIX) == Some(name)
  {
    assert (name + SUFFIX)[|name|..] == SUFFIX && (name + SUFFIX)[..|name|] == name;
  }

  lemma BaseUnique(name: string)
    requires Base(name).Some?
    ensures name == Base(name).value + SUFFIX
  {
    assert name == name[..|name| - |SUFFIX|] + name[|name| - |SUFFIX|..];
  }

  /** One label's value: the stream's, else the metadata's own, else a suffixed collision's. */
  function Label(stream: Labels, metadata: Labels, name: string): Option<string> {
    if name in stream then Some(stream[name])
    else if name in metadata then Some(metadata[name])
    else
      var base :- Base(name);
      if base in stream && base in metadata then Some(metadata[base]) else None
  }

  /** `labels` holds exactly the entry's labels. */
  ghost predicate Entry(labels: Labels, stream: Labels, metadata: Labels) {
    forall name :: if name in labels then Label(stream, metadata, name) == Some(labels[name])
                   else Label(stream, metadata, name).None?
  }

  function Combined(stream: Labels, metadata: Labels): Labels {
    map name | name in stream.Keys + metadata.Keys + (set u | u in metadata.Keys :: u + SUFFIX)
               && Label(stream, metadata, name).Some? :: Label(stream, metadata, name).value
  }

  lemma CombinedIsEntry(stream: Labels, metadata: Labels)
    ensures Entry(Combined(stream, metadata), stream, metadata)
  {
    forall name | Label(stream, metadata, name).Some? ensures name in Combined(stream, metadata) {
      if Base(name).Some? {
        BaseUnique(name);
      }
    }
  }

  lemma EntryIsCombined(labels: Labels, stream: Labels, metadata: Labels)
    requires Entry(labels, stream, metadata)
    ensures labels == Combined(stream, metadata)
  {
    CombinedIsEntry(stream, metadata);
    forall name ensures name in labels <==> name in Combined(stream, metadata) {
      assert name in labels || Label(stream, metadata, name).None?;
    }
  }

  /** The labels a line of `s` with `ids` has, when they can be built natively. */
  function EntryLabels(lib: Library, s: Stream, ids: Ids): Option<Labels> {
    var stream :- StreamLabels(lib, s);
    var metadata :- Parsed(lib, s.attributes);
    Some(Combined(stream, WithIds(metadata, ids)))
  }

  // ---- How they are built ----------------------------------------------------

  method InsertPairs(pairs: seq<(string, string)>) returns (labels: Labels)
    ensures labels == Overlay(map[], pairs)
  {
    labels := map[];
    var i := 0;
    while i < |pairs|
      invariant i <= |pairs| && Overlay(labels, pairs[i..]) == Overlay(map[], pairs)
    {
      assert pairs[i..][1..] == pairs[i + 1..];
      labels := labels[pairs[i].0 := pairs[i].1];
      i := i + 1;
    }
    assert pairs[i..] == [];
  }

  method ParsePairs(lib: Library, text: string) returns (labels: Option<Labels>)
    ensures labels == Parsed(lib, text)
  {
    if text == "" {
      return Some(map[]);
    }
    var pairs := lib.pairs(text);
    if pairs.None? {
      return None;
    }
    var inserted := InsertPairs(pairs.value);
    labels := Some(inserted);
  }

  /** What the labels are once the metadata names in `done` were added. */
  ghost predicate Partly(labels: Labels, stream: Labels, metadata: Labels, done: set<string>) {
    Entry(labels, stream, map name | name in metadata && name in done :: metadata[name])
  }

  /** One metadata pair added to the labels, under its own or its suffixed name. */
  function AddMetadata(labels: Labels, streamKeys: set<string>, name: string, value: string): Labels {
    if name !in streamKeys then labels[name := value]
    else if name + SUFFIX in labels then labels
    else labels[name + SUFFIX := value]
  }

  lemma Added(labels: Labels, stream: Labels, metadata: Labels, done: set<string>, name: string)
    requires Partly(labels, stream, metadata, done) && name in metadata && name !in done
    ensures Partly(AddMetadata(labels, stream.Keys, name, metadata[name]), stream, metadata, done + {name})
  {
    var before := map n | n in metadata && n in done :: metadata[n];
    var after := map n | n in metadata && n in done + {name} :: metadata[n];
    var now := AddMetadata(labels, stream.Keys, name, metadata[name]);
    forall n ensures if n in now then Label(stream, after, n) == Some(now[n]) else Label(stream, after, n).None? {
      assert if n in labels then Label(stream, before, n) == Some(labels[n]) else Label(stream, before, n).None?;
      assert after == before[name := metadata[name]];
      AddedAt(labels, stream, before, name, metadata[name], n);
    }
  }

  lemma AddedAt(labels: Labels, stream: Labels, before: Labels, name: string, value: string, n: string)
    requires Label(stream, before, n) == (if n in labels then Some(labels[n]) else None) && name !in before
    ensures var now := AddMetadata(labels, stream.Keys, name, value);
            Label(stream, before[name := value], n) == if n in now then Some(now[n]) else None
  {
    BaseSuffixed(name);
    if Base(n).Some? { BaseUnique(n); }
    hide Base;
  }

  /** Promoted names join the stream's own; `streamKeys` are the names a stream owns. */
  method Promote(own: Labels, offers: seq<(string, Option<string>)>) returns (labels: Labels, streamKeys: set<string>)
    ensures labels == OfferAll(own, offers) && streamKeys == labels.Keys
  {
    labels, streamKeys := own, own.Keys;
    var i := 0;
    while i < |offers|
      invariant i <= |offers| && streamKeys == labels.Keys
      invariant OfferAll(labels, offers[i..]) == OfferAll(own, offers)
    {
      assert offers[i..][1..] == offers[i + 1..];
      var (name, value) := offers[i];
      if value.Some? {
        streamKeys := streamKeys + {name};
        if name !in labels {
          labels := labels[name := value.value];
        }
      }
      i := i + 1;
    }
    assert offers[i..] == [];
  }

  /** Metadata is visited in some order; whatever the order, every label comes out as `Label` says. */
  method Combine(stream: Labels, streamKeys: set<string>, metadata: Labels) returns (labels: Labels)
    requires streamKeys == stream.Keys
    ensures Entry(labels, stream, metadata)
  {
    hide Partly, AddMetadata, Entry;
    PartlyEnds(stream, metadata);
    labels := stream;
    var todo := metadata.Keys;
    ghost var done: set<string> := {};
    while todo != {}
      invariant done + todo == metadata.Keys && done !! todo
      invariant Partly(labels, stream, metadata, done)
      decreases |todo|
    {
      var name :| name in todo;
      Added(labels, stream, metadata, done, name);
      labels := AddMetadata(labels, streamKeys, name, metadata[name]);
      todo, done := todo - {name}, done + {name};
    }
  }

  lemma PartlyEnds(stream: Labels, metadata: Labels)
    ensures Partly(stream, stream, metadata, {})
    ensures forall labels :: Partly(labels, stream, metadata, metadata.Keys) ==> Entry(labels, stream, metadata)
  {
    assert (map name | name in metadata && name in metadata.Keys :: metadata[name]) == metadata;
  }

  method BuildLabels(lib: Library, s: Stream, ids: Ids) returns (labels: Option<Labels>)
    ensures labels == EntryLabels(lib, s, ids)
  {
    var own := ParsePairs(lib, s.resource);
    if own.None? {
      return None;
    }
    var stream, streamKeys := Promote(own.value, Promotions(s));
    var metadata := ParsePairs(lib, s.attributes);
    if metadata.None? {
      return None;
    }
    var combined := Combine(stream, streamKeys, WithIds(metadata.value, ids));
    EntryIsCombined(combined, stream, WithIds(metadata.value, ids));
    labels := Some(combined);
  }

  // ---- Correlation IDs touch four names only ---------------------------------

  /** Labels with and without the correlation columns agree on every other name. */
  lemma IdsTouchOnlyIdNames(stream: Labels, metadata: Labels, ids: Ids, name: string)
    requires name !in ID_NAMES
    ensures Label(stream, WithIds(metadata, ids), name) == Label(stream, metadata, name)
  {
    if Base(name).Some? {
      BaseUnique(name);
    }
    assert "trace_id" + SUFFIX == "trace_id_extracted" && "span_id" + SUFFIX == "span_id_extracted";
  }

  lemma UntracedSame(metadata: Labels, ids: Ids)
    requires !Traced(ids)
    ensures WithIds(metadata, ids) == WithIds(metadata, NO_IDS) == metadata
  {
  }

  // ---- Storage filters -------------------------------------------------------

  datatype Matcher = Matcher(name: string, present: string -> bool, absent: bool)

  datatype Selection = Selection(start: int, end: int, service: Option<string>, matchers: seq<Matcher>,
                                 filters: seq<string -> bool>)

  function Promoted(name: string, s: Stream): Option<string> {
    if name == "service" || name == "service_name" then (if Filled(s.service) then s.service else None)
    else if name == "level" || name == "detected_level" then (if Filled(s.level) then s.level else None)
    else None
  }

  predicate MatchesOne(lib: Library, m: Matcher, s: Stream) {
    match Promoted(m.name, s)
    case Some(value) => m.present(value)
    case None =>
      if s.resource == "" then m.absent
      else
        match lib.find(s.resource, m.name)
        case Some(value) => m.present(value)
        case None => m.absent
  }

  predicate Selected(lib: Library, sel: Selection, s: Stream) {
    && (sel.service.Some? ==> s.service == sel.service)
    && forall i :: 0 <= i < |sel.matchers| ==> MatchesOne(lib, sel.matchers[i], s)
  }
}
