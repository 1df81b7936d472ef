/** Storing a collected batch: entities first, then messages, evidence and relationships.
    Texts are scanned for indicators as their record is stored, and a scan that raises ends
    the whole ingestion. */
module Ingest {
  import opened Options
  import opened Relationships
  import Ioc

  // ----- Tables -----

  datatype NaturalKey = NaturalKey(kind: string, value: string)

  /** A column that is missing or holds "" is one that holds nothing. */
  datatype Row = Row(id: string, columns: map<string, string>)

  datatype MessageKey = MessageKey(container: Entity, number: int)

  datatype EvidenceKey = EvidenceKey(entity: Entity, field: Option<string>, source: string, contentHash: string)

  datatype EvidenceRow = EvidenceRow(confidence: int, body: string)

  /** `drawn` counts the ids given out. */
  datatype Tables = Tables(
    entities: map<NaturalKey, Row>, messages: map<MessageKey, Row>,
    evidence: map<EvidenceKey, EvidenceRow>, edges: Edges, drawn: nat)

  // ----- Batches -----

  datatype EvidenceDraft = EvidenceDraft(
    ref: string, field: Option<string>, source: string, contentHash: string, confidence: int, body: string)

  datatype RelationshipDraft = RelationshipDraft(sourceRef: string, targetRef: string, relType: string, confidence: int)

  /** `key` is `None` where the repository raises, `number` where a message id is missing or
      no number. */
  datatype Record = Record(
    ref: string, kind: string, key: Option<string>, number: Option<int>, containerRef: Option<string>,
    attributes: map<string, string>, evidence: seq<EvidenceDraft>)

  datatype Batch = Batch(records: seq<Record>, relationships: seq<RelationshipDraft>)

  const MESSAGE := "message"
  const IOC := "ioc"

  predicate IsMessage(rec: Record) { rec.kind == MESSAGE }

  predicate IsContainerKind(kind: string) { kind == "telegram_group" || kind == "telegram_channel" }

  predicate IsContainer(e: Entity) { IsContainerKind(e.kind) }

  /** Kinds whose `bio` and `description` are scanned. */
  predicate IsProfile(kind: string) { kind == "telegram_account" || IsContainerKind(kind) }

  /** The ids the database draws, the columns of each kind of row, the pattern hits in a text,
      the natural key of a value of some kind, the hash of the text around a match, the time. */
  datatype World = World(
    uuid: nat -> string, columns: string -> set<string>, scan: string -> Ioc.Hits,
    natural: (string, string) -> string, snippet: (string, nat, nat) -> string, now: int)

  datatype Summary = Summary(
    created: nat, updated: nat, evidence: nat, relationships: nat, iocs: nat,
    resolved: map<string, Entity>, skipped: seq<string>)

  function Empty(): Summary { Summary(0, 0, 0, 0, 0, map[], []) }

  /** `raised`: an exception has left `ingest`. Beside the state, `sightings` counts the
      matches recorded as evidence, and `log` lists the observations of edges. */
  datatype State = State(tables: Tables, summary: Summary, raised: bool, sightings: nat, log: seq<Observation>)

  // ----- Indicators in a text -----

  function TypeName(kind: Ioc.IocType): string {
    match kind
    case Cve => "cve" case Domain => "domain" case Email => "email" case Ipv4 => "ipv4" case Ipv6 => "ipv6"
    case Md5 => "md5" case Sha1 => "sha1" case Sha256 => "sha256" case TelegramUrl => "telegram_url"
    case TelegramUsername => "telegram_username" case Url => "url"
  }

  /** How a match is recorded on its indicator. */
  datatype Sighting = Sighting(field: string, source: string, contentHash: string, confidence: int, body: string)

  /** One row to find or create, perhaps a sighting to record on it, and an edge to it. */
  datatype Link = Link(key: NaturalKey, sighting: Option<Sighting>, relType: string, confidence: int)

  function Penalty(m: Ioc.Match): int { if m.origin.Some? then 10 else 0 }

  function IndicatorKey(w: World, m: Ioc.Match): NaturalKey {
    NaturalKey(IOC, TypeName(m.kind) + ":" + w.natural(TypeName(m.kind), m.value))
  }

  function SightingOf(w: World, field: string, source: string, text: string, m: Ioc.Match): Sighting {
    Sighting(field, source, w.snippet(text, m.start, m.end), 80 - Penalty(m), m.value)
  }

  function BaseConfidence(kind: Ioc.IocType): int {
    match kind
    case Ipv4 => 80 case Ipv6 => 80 case Domain => 70 case Url => 85 case TelegramUrl => 85 case Email => 85
    case Md5 => 90 case Sha1 => 90 case Sha256 => 90 case Cve => 90 case TelegramUsername => 75
  }

  /** The row of the value itself, where its type has a table of its own. */
  function TypedLink(w: World, m: Ioc.Match, confidence: int): seq<Link> {
    match m.kind
    case Ipv4 => [Link(NaturalKey("ip", w.natural("ip", m.value)), None, "MESSAGE_CONTAINS_IP", confidence)]
    case Ipv6 => [Link(NaturalKey("ip", w.natural("ip", m.value)), None, "MESSAGE_CONTAINS_IP", confidence)]
    case Domain =>
      [Link(NaturalKey("domain", w.natural("domain", m.value)), None, "MESSAGE_CONTAINS_DOMAIN", confidence)]
    case Url => [Link(NaturalKey("url", w.natural("url", m.value)), None, "MESSAGE_CONTAINS_URL", confidence)]
    case TelegramUrl => [Link(NaturalKey("url", w.natural("url", m.value)), None, "MESSAGE_CONTAINS_URL", confidence)]
    case TelegramUsername =>
      var key := NaturalKey("username", "telegram:" + w.natural("username", m.value));
      [Link(key, None, "MESSAGE_MENTIONS_USERNAME", confidence)]
    case _ => []
  }

  /** `_ingest_match` */
  function MessageLinks(w: World, source: string, text: string, m: Ioc.Match): seq<Link> {
    var confidence := BaseConfidence(m.kind) - Penalty(m);
    var sighting := SightingOf(w, "observed_in_message", source, text, m);
    [Link(IndicatorKey(w, m), Some(sighting), "MESSAGE_CONTAINS_IOC", confidence)]
    + TypedLink(w, m, confidence)
  }

  /** `enrich_entity_text`: links and mail addresses only. */
  function ProfileLinks(w: World, field: string, source: string, text: string, m: Ioc.Match): seq<Link> {
    if m.kind !in {Ioc.Domain, Ioc.Url, Ioc.TelegramUrl, Ioc.Email} then []
    else
      var rel :=
        if m.kind in {Ioc.Url, Ioc.TelegramUrl} then "ACCOUNT_LINKED_TO_WEBSITE" else "DOMAIN_REFERENCED_BY_ACCOUNT";
      [Link(IndicatorKey(w, m), Some(SightingOf(w, field, source, text, m)), rel, 60)]
  }

  function LinksOf(w: World, field: string, source: string, text: string, m: Ioc.Match): seq<Link> {
    if field == "text" then MessageLinks(w, source, text, m) else ProfileLinks(w, field, source, text, m)
  }

  function AllLinks(w: World, field: string, source: string, text: string, ms: seq<Ioc.Match>): seq<Link> {
    if ms == [] then []
    else AllLinks(w, field, source, text, ms[..|ms| - 1]) + LinksOf(w, field, source, text, ms[|ms| - 1])
  }

  /** `EvidenceRepository.record`: append-only, one row per observation key. */
  function Recorded(rows: map<EvidenceKey, EvidenceRow>, k: EvidenceKey, confidence: int, body: string):
      map<EvidenceKey, EvidenceRow> {
    if k in rows then rows else rows[k := EvidenceRow(Clamp(confidence), body)]
  }

  /** `RelationshipRepository.observe`, logged. */
  function Observing(st: State, k: EdgeKey, confidence: int, now: int): State {
    st.(tables := st.tables.(edges := Observed(st.tables.edges, k, confidence, None, now)),
        summary := st.summary.(relationships :=
          if k in st.tables.edges then st.summary.relationships else st.summary.relationships + 1),
        log := st.log + [Observation(k, confidence, None, now)])
  }

  /** `get_or_create` of an indicator or another row that a text names. */
  function Found(w: World, st: State, k: NaturalKey): State {
    var t := st.tables;
    if k in t.entities then st
    else st.(tables := t.(entities := t.entities[k := Row(w.uuid(t.drawn), map[])], drawn := t.drawn + 1),
             summary := st.summary.(iocs := if k.kind == IOC then st.summary.iocs + 1 else st.summary.iocs))
  }

  lemma FoundIsThere(w: World, st: State, k: NaturalKey)
    ensures k in Found(w, st, k).tables.entities
  {
  }

  /** The summary counts a sighting as evidence recorded whether or not its row is new. */
  function Sighted(st: State, e: Entity, s: Sighting): State {
    var k := EvidenceKey(e, Some(s.field), s.source, s.contentHash);
    st.(tables := st.tables.(evidence := Recorded(st.tables.evidence, k, s.confidence, s.body)),
        summary := st.summary.(evidence := st.summary.evidence + 1), sightings := st.sightings + 1)
  }

  function Linked(w: World, st: State, e: Entity, l: Link): State {
    var st1 := Found(w, st, l.key);
    FoundIsThere(w, st, l.key);
    var target := Entity(l.key.kind, st1.tables.entities[l.key].id);
    var st2 := if l.sighting.Some? then Sighted(st1, target, l.sighting.value) else st1;
    Observing(st2, EdgeKey(e, target, l.relType), l.confidence, w.now)
  }

  function LinkedAll(w: World, st: State, e: Entity, links: seq<Link>): State {
    if links == [] then st else Linked(w, LinkedAll(w, st, e, links[..|links| - 1]), e, links[|links| - 1])
  }

  function SourceOf(rec: Record): string {
    if rec.evidence == [] || rec.evidence[0].source == "" then "manual" else rec.evidence[0].source
  }

  /** The text is there, and the scan of it raises. */
  predicate TextRaises(w: World, rec: Record, field: string) {
    field in rec.attributes && rec.attributes[field] != "" && Ioc.Extracted(w.scan(rec.attributes[field])).None?
  }

  function Enriched(w: World, st: State, e: Entity, rec: Record, field: string): State {
    if st.raised || field !in rec.attributes || rec.attributes[field] == "" then st
    else
      var text := rec.attributes[field];
      match Ioc.Extracted(w.scan(text))
      case None => st.(raised := true)
      case Some(scanned) =>
        LinkedAll(w, st, e, AllLinks(w, field, SourceOf(rec), text, Ioc.Deduped(scanned.matches, |text|)))
  }

  // ----- One record -----

  predicate IsBlank(columns: map<string, string>, k: string) { k !in columns || columns[k] == "" }

  /** Attributes that are hints or parts of a key. */
  function NoColumns(): set<string> { {"_container_ref", "username_normalized", "name_normalized", "value_normalized"} }

  function Settable(w: World, kind: string): set<string> { w.columns(kind) - NoColumns() }

  /** `_apply_attributes`: only columns that hold nothing are set. */
  function Filled(columns: map<string, string>, settable: set<string>, attributes: map<string, string>):
      map<string, string> {
    columns + map k | k in attributes && k in settable && IsBlank(columns, k) :: attributes[k]
  }

  method ApplyAttributes(columns: map<string, string>, settable: set<string>, attributes: map<string, string>)
    returns (r: map<string, string>)
    ensures r == Filled(columns, settable, attributes)
    ensures forall k :: k in attributes && k in settable && (k !in columns || columns[k] == "") ==>
              k in r && r[k] == attributes[k]
    ensures forall k :: k in columns && (columns[k] != "" || k !in attributes || k !in settable) ==>
              k in r && r[k] == columns[k]
    ensures r.Keys <= columns.Keys + attributes.Keys * settable
  {
    r := columns;
    var todo := attributes.Keys;
    assert attributes - todo == map[];
    while todo != {}
      invariant todo <= attributes.Keys
      invariant r == Filled(columns, settable, attributes - todo)
      decreases todo
    {
      var k :| k in todo;
      FillOne(columns, settable, attributes, todo, k);
      todo := todo - {k};
      if k in settable && IsBlank(r, k) { r := r[k := attributes[k]]; }
    }
    assert attributes - todo == attributes;
  }

  lemma FillOne(columns: map<string, string>, settable: set<string>, attributes: map<string, string>,
                todo: set<string>, k: string)
    requires k in todo && todo <= attributes.Keys
    ensures var r := Filled(columns, settable, attributes - todo);
            && (IsBlank(r, k) <==> IsBlank(columns, k))
            && Filled(columns, settable, attributes - (todo - {k})) ==
               if k in settable && IsBlank(r, k) then r[k := attributes[k]] else r
  {
  }

  function Skipping(st: State, ref: string): State {
    st.(summary := st.summary.(skipped := st.summary.skipped + [ref]))
  }

  function Resolving(s: Summary, ref: string, e: Entity, created: bool): Summary {
    s.(resolved := s.resolved[ref := e],
       created := if created then s.created + 1 else s.created,
       updated := if created then s.updated else s.updated + 1)
  }

  /** The row of an entity record, found or created, with its blank columns filled. */
  function StoredEntity(w: World, st: State, rec: Record): State
    requires rec.key.Some?
  {
    var t, k := st.tables, NaturalKey(rec.kind, rec.key.value);
    var row := if k in t.entities then t.entities[k] else Row(w.uuid(t.drawn), map[]);
    st.(tables := t.(
          entities := t.entities[k := row.(columns := Filled(row.columns, Settable(w, rec.kind), rec.attributes))],
          drawn := if k in t.entities then t.drawn else t.drawn + 1),
        summary := Resolving(st.summary, rec.ref, Entity(rec.kind, row.id), k !in t.entities))
  }

  lemma StoredResolves(w: World, st: State, rec: Record)
    requires rec.key.Some?
    ensures rec.ref in StoredEntity(w, st, rec).summary.resolved && StoredEntity(w, st, rec).raised == st.raised
  {
  }

  lemma RaisedTextStays(w: World, st: State, e: Entity, rec: Record)
    requires st.raised
    ensures Enriched(w, st, e, rec, "description") == st
  {
  }

  function AfterEntity(w: World, st: State, rec: Record): State {
    if rec.key.None? then Skipping(st, rec.ref)
    else
      var st1 := StoredEntity(w, st, rec);
      StoredResolves(w, st, rec);
      if !IsProfile(rec.kind) then st1
      else
        var e := st1.summary.resolved[rec.ref];
        Enriched(w, Enriched(w, st1, e, rec, "bio"), e, rec, "description")
  }

  function Containers(resolved: map<string, Entity>): set<string> { set r | r in resolved && IsContainer(resolved[r]) }

  lemma OnlyOne(s: set<string>, a: string, b: string)
    requires |s| == 1 && a in s && b in s
    ensures a == b
  {
    assert |s - {a}| == 0;
    assert s - {a} == {};
  }

  /** The container a message names, or else the only container resolved, if there is just one. */
  function ContainerOf(resolved: map<string, Entity>, rec: Record): Option<Entity> {
    if rec.containerRef.Some? && rec.containerRef.value != "" && rec.containerRef.value in resolved
    then Some(resolved[rec.containerRef.value])
    else
      var c := Containers(resolved);
      if |c| != 1 then None
      else
        assert forall a, b :: a in c && b in c ==> a == b by {
          forall a, b | a in c && b in c ensures a == b { OnlyOne(c, a, b); }
        }
        assert c != {};
        var r :| r in c;
        Some(resolved[r])
  }

  /** Which container that is, written out. */
  lemma {:induction false} ContainerWritten(resolved: map<string, Entity>, rec: Record)
    ensures rec.containerRef.Some? && rec.containerRef.value != "" && rec.containerRef.value in resolved ==>
              ContainerOf(resolved, rec) == Some(resolved[rec.containerRef.value])
    ensures !(rec.containerRef.Some? && rec.containerRef.value != "" && rec.containerRef.value in resolved) ==>
              var c := set r | r in resolved &&
                               (resolved[r].kind == "telegram_group" || resolved[r].kind == "telegram_channel");
              && (ContainerOf(resolved, rec).Some? <==> |c| == 1)
              && (forall r :: r in c && |c| == 1 ==> ContainerOf(resolved, rec) == Some(resolved[r]))
  {
    var c := set r | r in resolved && (resolved[r].kind == "telegram_group" || resolved[r].kind == "telegram_channel");
    assert c == Containers(resolved);
    if |c| == 1 {
      forall a, b | a in c && b in c ensures a == b { OnlyOne(c, a, b); }
    }
  }

  /** The message columns that a record sets. */
  function Fields(rec: Record): map<string, string> {
    map k | k in rec.attributes && k !in NoColumns() :: rec.attributes[k]
  }

  /** `MessageRepository.upsert`: what the record brings overwrites what is there. */
  function StoredMessage(w: World, st: State, rec: Record, container: Entity): State
    requires rec.number.Some?
  {
    var t, k := st.tables, MessageKey(container, rec.number.value);
    var row := if k in t.messages then t.messages[k] else Row(w.uuid(t.drawn), map[]);
    st.(tables := t.(messages := t.messages[k := row.(columns := row.columns + Fields(rec))],
                     drawn := if k in t.messages then t.drawn else t.drawn + 1),
        summary := Resolving(st.summary, rec.ref, Entity(MESSAGE, row.id), k !in t.messages))
  }

  lemma MessageResolves(w: World, st: State, rec: Record, container: Entity)
    requires rec.number.Some?
    ensures rec.ref in StoredMessage(w, st, rec, container).summary.resolved
  {
  }

  function AfterMessage(w: World, st: State, rec: Record): State {
    var container := ContainerOf(st.summary.resolved, rec);
    if container.None? || rec.number.None? then Skipping(st, rec.ref)
    else
      var st1 := StoredMessage(w, st, rec, container.value);
      MessageResolves(w, st, rec, container.value);
      Enriched(w, st1, st1.summary.resolved[rec.ref], rec, "text")
  }

  function AfterEvidence(st: State, d: EvidenceDraft): State {
    if d.ref !in st.summary.resolved then st
    else
      var k := EvidenceKey(st.summary.resolved[d.ref], d.field, d.source, d.contentHash);
      st.(tables := st.tables.(evidence := Recorded(st.tables.evidence, k, d.confidence, d.body)),
          summary := st.summary.(evidence :=
            if k in st.tables.evidence then st.summary.evidence else st.summary.evidence + 1))
  }

  function AfterEdge(w: World, st: State, rel: RelationshipDraft): State {
    if rel.sourceRef !in st.summary.resolved || rel.targetRef !in st.summary.resolved then st
    else
      var k := EdgeKey(st.summary.resolved[rel.sourceRef], st.summary.resolved[rel.targetRef], rel.relType);
      Observing(st, k, rel.confidence, w.now)
  }

  // ----- A whole batch -----

  datatype Work =
    | OneEntity(rec: Record)
    | OneMessage(rec: Record)
    | OneEvidence(draft: EvidenceDraft)
    | OneEdge(rel: RelationshipDraft)

  function After(w: World, st: State, x: Work): State {
    if st.raised then st
    else match x
         case OneEntity(rec) => AfterEntity(w, st, rec)
         case OneMessage(rec) => AfterMessage(w, st, rec)
         case OneEvidence(d) => AfterEvidence(st, d)
         case OneEdge(rel) => AfterEdge(w, st, rel)
  }

  function Run(w: World, st: State, plan: seq<Work>): State {
    if plan == [] then st else After(w, Run(w, st, plan[..|plan| - 1]), plan[|plan| - 1])
  }

  function EntityWork(records: seq<Record>): seq<Work> {
    if records == [] then []
    else
      var rest := EntityWork(records[..|records| - 1]);
      if IsMessage(records[|records| - 1]) then rest else rest + [OneEntity(records[|records| - 1])]
  }

  function Deferred(records: seq<Record>): seq<Record> {
    if records == [] then []
    else
      var rest := Deferred(records[..|records| - 1]);
      if IsMessage(records[|records| - 1]) then rest + [records[|records| - 1]] else rest
  }

  function MessageWork(records: seq<Record>): seq<Work> {
    seq(|records|, i requires 0 <= i < |records| => OneMessage(records[i]))
  }

  function DraftWork(drafts: seq<EvidenceDraft>): seq<Work> {
    seq(|drafts|, i requires 0 <= i < |drafts| => OneEvidence(drafts[i]))
  }

  function EvidenceWork(records: seq<Record>): seq<Work> {
    if records == [] then []
    else EvidenceWork(records[..|records| - 1]) + DraftWork(records[|records| - 1].evidence)
  }

  function EdgeWork(rels: seq<RelationshipDraft>): seq<Work> {
    seq(|rels|, i requires 0 <= i < |rels| => OneEdge(rels[i]))
  }

  /** Everything a batch does, in order. Without records it does nothing. */
  function Plan(b: Batch): seq<Work> {
    if b.records == [] then []
    else EntityWork(b.records) + MessageWork(Deferred(b.records)) + EvidenceWork(b.records) + EdgeWork(b.relationships)
  }

  function Start(t: Tables): State { State(t, Empty(), false, 0, []) }

  lemma RunStep(w: World, st: State, plan: seq<Work>, x: Work)
    ensures Run(w, st, plan + [x]) == After(w, Run(w, st, plan), x)
  {
    assert (plan + [x])[..|plan|] == plan;
  }

  lemma {:induction false} RunAppend(w: World, st: State, a: seq<Work>, b: seq<Work>)
    ensures Run(w, st, a + b) == Run(w, Run(w, st, a), b)
  {
    hide After;
    if b == [] {
      assert a + b == a;
    } else {
      RunAppend(w, st, a, b[..|b| - 1]);
      assert (a + b)[..|a + b| - 1] == a + b[..|b| - 1];
    }
  }

  lemma RunParts(w: World, st: State, a: seq<Work>, b: seq<Work>, c: seq<Work>, d: seq<Work>)
    ensures Run(w, st, a + b + c + d) == Run(w, Run(w, Run(w, Run(w, st, a), b), c), d)
  {
    RunAppend(w, st, a, b);
    RunAppend(w, st, a + b, c);
    RunAppend(w, st, a + b + c, d);
  }

  /** Once it has raised, nothing else happens. */
  lemma {:induction false} RaisedStays(w: World, st: State, plan: seq<Work>)
    requires st.raised
    ensures Run(w, st, plan) == st
  {
    if plan != [] { RaisedStays(w, st, plan[..|plan| - 1]); }
  }

  lemma {:induction false} EntityWorkSplits(records: seq<Record>, i: nat)
    requires i <= |records|
    ensures EntityWork(records) == EntityWork(records[..i]) + EntityWork(records[i..])
  {
    if i == |records| {
      assert records[..i] == records;
    } else {
      var front := records[..|records| - 1];
      EntityWorkSplits(front, i);
      assert front[..i] == records[..i] && front[i..] == records[i..][..|records| - i - 1];
    }
  }

  lemma {:induction false} RaisedRest(w: World, st: State, a: seq<Work>, b: seq<Work>)
    requires Run(w, st, a).raised
    ensures Run(w, st, a + b) == Run(w, st, a)
  {
    RunAppend(w, st, a, b);
    RaisedStays(w, Run(w, st, a), b);
  }

  /** What a stored record does to the summary, written out. */
  ghost predicate Booked(s: Summary, r: Summary, ref: string, e: Entity, created: bool) {
    && r.resolved == s.resolved[ref := e] && r.skipped == s.skipped
    && r.created == (if created then s.created + 1 else s.created)
    && r.updated == (if created then s.updated else s.updated + 1)
    && r.evidence == s.evidence && r.relationships == s.relationships && r.iocs == s.iocs
  }

  /** The columns of an entity after a record, written out: what held nothing takes the record's
      value where it is a column and not a hint or a key, and the rest is unchanged. */
  ghost predicate FilledIn(w: World, rec: Record, before: map<string, string>, after: map<string, string>) {
    forall x ::
      var sets := && x in rec.attributes && x in w.columns(rec.kind)
                  && x != "_container_ref" && x != "username_normalized" && x != "name_normalized" &&
                     x != "value_normalized";
      if sets && (x !in before || before[x] == "") then x in after && after[x] == rec.attributes[x]
      else if x in before then x in after && after[x] == before[x] else x !in after
  }

  /** The columns of a message after a record, written out. */
  ghost predicate Overwritten(rec: Record, before: map<string, string>, after: map<string, string>) {
    forall x ::
      if x in rec.attributes && x != "_container_ref" && x != "username_normalized" && x != "name_normalized"
         && x != "value_normalized"
      then x in after && after[x] == rec.attributes[x]
      else if x in before then x in after && after[x] == before[x] else x !in after
  }

  datatype Outcome = Ingested(summary: Summary) | Raised

  class IngestionService {
    var tables: Tables
    ghost var sightings: nat
    ghost var log: seq<Observation>

    constructor (t: Tables)
      ensures tables == t && sightings == 0 && log == []
    {
      tables, sightings, log := t, 0, [];
    }

    ghost function Now(s: Summary, raised: bool): State
      reads this
    {
      State(tables, s, raised, sightings, log)
    }

    method Observe(k: EdgeKey, confidence: int, now: int, s: Summary) returns (r: Summary)
      modifies this
      ensures Now(r, false) == Observing(old(Now(s, false)), k, confidence, now)
    {
      r := s;
      if k !in tables.edges { r := s.(relationships := s.relationships + 1); }
      tables := tables.(edges := Observed(tables.edges, k, confidence, None, now));
      log := log + [Observation(k, confidence, None, now)];
    }

    method Find(w: World, s: Summary, k: NaturalKey) returns (r: Summary)
      modifies this
      ensures Now(r, false) == Found(w, old(Now(s, false)), k)
    {
      r := s;
      if k in tables.entities { return; }
      tables := tables.(entities := tables.entities[k := Row(w.uuid(tables.drawn), map[])], drawn := tables.drawn + 1);
      if k.kind == IOC { r := s.(iocs := s.iocs + 1); }
    }

    method Sight(s: Summary, e: Entity, g: Sighting) returns (r: Summary)
      modifies this
      ensures Now(r, false) == Sighted(old(Now(s, false)), e, g)
    {
      var k := EvidenceKey(e, Some(g.field), g.source, g.contentHash);
      tables := tables.(evidence := Recorded(tables.evidence, k, g.confidence, g.body));
      r := s.(evidence := s.evidence + 1);
      sightings := sightings + 1;
    }

    method Link(w: World, s: Summary, e: Entity, l: Link) returns (r: Summary)
      modifies this
      ensures Now(r, false) == Linked(w, old(Now(s, false)), e, l)
    {
      hide Found, Sighted, Observing;
      r := Find(w, s, l.key);
      FoundIsThere(w, old(Now(s, false)), l.key);
      var target := Entity(l.key.kind, tables.entities[l.key].id);
      if l.sighting.Some? { r := Sight(r, target, l.sighting.value); }
      r := Observe(EdgeKey(e, target, l.relType), l.confidence, w.now, r);
    }

    method LinkAll(w: World, s: Summary, e: Entity, links: seq<Link>) returns (r: Summary)
      modifies this
      ensures Now(r, false) == LinkedAll(w, old(Now(s, false)), e, links)
    {
      r := s;
      ghost var st0 := Now(s, false);
      for i := 0 to |links|
        invariant Now(r, false) == LinkedAll(w, st0, e, links[..i])
      {
        assert links[..i + 1][..i] == links[..i];
        r := Link(w, r, e, links[i]);
      }
      assert links[..|links|] == links;
    }

    /** Scans one text of a record, and links what it names. */
    method Enrich(w: World, s: Summary, e: Entity, rec: Record, field: string) returns (r: Summary, raised: bool)
      modifies this
      ensures Now(r, raised) == Enriched(w, old(Now(s, false)), e, rec, field)
    {
      r, raised := s, false;
      if field !in rec.attributes || rec.attributes[field] == "" { return; }
      var text := rec.attributes[field];
      var matches := Ioc.ExtractIocs(w.scan(text), |text|);
      if matches.None? { return s, true; }
      r := LinkAll(w, s, e, AllLinks(w, field, SourceOf(rec), text, matches.value));
    }

    method StoreEntity(w: World, s: Summary, rec: Record) returns (r: Summary)
      requires rec.key.Some?
      modifies this
      ensures Now(r, false) == StoredEntity(w, old(Now(s, false)), rec)
      ensures var k := NaturalKey(rec.kind, rec.key.value);
              && k in tables.entities && tables.entities == old(tables).entities[k := tables.entities[k]]
              && tables.messages == old(tables).messages && tables.evidence == old(tables).evidence
              && tables.edges == old(tables).edges
              && (if k in old(tables).entities then tables.entities[k].id == old(tables).entities[k].id
                  else tables.entities[k].id == w.uuid(old(tables).drawn))
              && Booked(s, r, rec.ref, Entity(rec.kind, tables.entities[k].id), k !in old(tables).entities)
              && FilledIn(w, rec, if k in old(tables).entities then old(tables).entities[k].columns else map[],
                          tables.entities[k].columns)
    {
      var k := NaturalKey(rec.kind, rec.key.value);
      var created := k !in tables.entities;
      var row := if created then Row(w.uuid(tables.drawn), map[]) else tables.entities[k];
      var columns := ApplyAttributes(row.columns, Settable(w, rec.kind), rec.attributes);
      tables := tables.(entities := tables.entities[k := row.(columns := columns)],
                        drawn := if created then tables.drawn + 1 else tables.drawn);
      r := Resolving(s, rec.ref, Entity(rec.kind, row.id), created);
    }

    method IngestEntity(w: World, s: Summary, rec: Record) returns (r: Summary, raised: bool)
      modifies this
      ensures Now(r, raised) == AfterEntity(w, old(Now(s, false)), rec)
      ensures rec.key.None? ==> !raised && tables == old(tables) && r == s.(skipped := s.skipped + [rec.ref])
    {
      raised := false;
      if rec.key.None? {
        r := s.(skipped := s.skipped + [rec.ref]);
        return;
      }
      r := StoreEntity(w, s, rec);
      StoredResolves(w, old(Now(s, false)), rec);
      hide StoredEntity, Enriched;
      if IsProfile(rec.kind) {
        var e := r.resolved[rec.ref];
        r, raised := Enrich(w, r, e, rec, "bio");
        if raised {
          RaisedTextStays(w, Now(r, true), e, rec);
        } else {
          r, raised := Enrich(w, r, e, rec, "description");
        }
      }
    }

    method StoreMessage(w: World, s: Summary, rec: Record, container: Entity) returns (r: Summary)
      requires rec.number.Some?
      modifies this
      ensures Now(r, false) == StoredMessage(w, old(Now(s, false)), rec, container)
      ensures var k := MessageKey(container, rec.number.value);
              && k in tables.messages && tables.messages == old(tables).messages[k := tables.messages[k]]
              && tables.entities == old(tables).entities && tables.evidence == old(tables).evidence
              && tables.edges == old(tables).edges
              && (if k in old(tables).messages then tables.messages[k].id == old(tables).messages[k].id
                  else tables.messages[k].id == w.uuid(old(tables).drawn))
              && Booked(s, r, rec.ref, Entity("message", tables.messages[k].id), k !in old(tables).messages)
              && Overwritten(rec, if k in old(tables).messages then old(tables).messages[k].columns else map[],
                             tables.messages[k].columns)
    {
      var k := MessageKey(container, rec.number.value);
      var created := k !in tables.messages;
      var row := if created then Row(w.uuid(tables.drawn), map[]) else tables.messages[k];
      tables := tables.(messages := tables.messages[k := row.(columns := row.columns + Fields(rec))],
                        drawn := if created then tables.drawn + 1 else tables.drawn);
      r := Resolving(s, rec.ref, Entity(MESSAGE, row.id), created);
    }

    method IngestMessage(w: World, s: Summary, rec: Record) returns (r: Summary, raised: bool)
      modifies this
      ensures Now(r, raised) == AfterMessage(w, old(Now(s, false)), rec)
      ensures rec.number.None? || ContainerOf(s.resolved, rec).None? ==>
                !raised && tables == old(tables) && r == s.(skipped := s.skipped + [rec.ref])
    {
      hide ContainerOf, StoredMessage, Enriched;
      raised := false;
      var container := ContainerOf(s.resolved, rec);
      if container.None? || rec.number.None? {
        r := s.(skipped := s.skipped + [rec.ref]);
        return;
      }
      MessageResolves(w, old(Now(s, false)), rec, container.value);
      r := StoreMessage(w, s, rec, container.value);
      r, raised := Enrich(w, r, r.resolved[rec.ref], rec, "text");
    }

    method RecordEvidence(s: Summary, d: EvidenceDraft) returns (r: Summary)
      modifies this
      ensures Now(r, false) == AfterEvidence(old(Now(s, false)), d)
      ensures tables == old(tables).(evidence := tables.evidence)
      ensures d.ref !in s.resolved ==> tables == old(tables) && r == s
      ensures d.ref in s.resolved ==>
                var k := EvidenceKey(s.resolved[d.ref], d.field, d.source, d.contentHash);
                if k in old(tables).evidence then tables == old(tables) && r == s
                else
                  && r == s.(evidence := s.evidence + 1)
                  && k in tables.evidence && tables.evidence == old(tables).evidence[k := tables.evidence[k]]
                  && tables.evidence[k].body == d.body && 0 <= tables.evidence[k].confidence <= 100
                  && (0 <= d.confidence <= 100 ==> tables.evidence[k].confidence == d.confidence)
    {
      r := s;
      if d.ref !in s.resolved { return; }
      var k := EvidenceKey(s.resolved[d.ref], d.field, d.source, d.contentHash);
      if k !in tables.evidence {
        tables := tables.(evidence := tables.evidence[k := EvidenceRow(Clamp(d.confidence), d.body)]);
        r := s.(evidence := s.evidence + 1);
      }
    }

    method ObserveRelationship(w: World, s: Summary, rel: RelationshipDraft) returns (r: Summary)
      modifies this
      ensures Now(r, false) == AfterEdge(w, old(Now(s, false)), rel)
      ensures rel.sourceRef !in s.resolved || rel.targetRef !in s.resolved ==> tables == old(tables) && r == s
      ensures rel.sourceRef in s.resolved && rel.targetRef in s.resolved ==>
                var k := EdgeKey(s.resolved[rel.sourceRef], s.resolved[rel.targetRef], rel.relType);
                && tables == old(tables).(edges := Observed(old(tables).edges, k, rel.confidence, None, w.now))
                && r == s.(relationships := s.relationships + if k in old(tables).edges then 0 else 1)
    {
      r := s;
      if rel.sourceRef !in s.resolved || rel.targetRef !in s.resolved { return; }
      r := Observe(EdgeKey(s.resolved[rel.sourceRef], s.resolved[rel.targetRef], rel.relType), rel.confidence, w.now,
          s);
    }

    method Ingest(w: World, b: Batch) returns (r: Outcome)
      modifies this
      ensures var end := Run(w, State(old(tables), Empty(), false, old(sightings), old(log)), Plan(b));
              && tables == end.tables && sightings == end.sightings && log == end.log
              && r == if end.raised then Raised else Ingested(end.summary)
    {
      var s := Empty();
      if b.records == [] { return Ingested(s); }
      ghost var st0 := Now(s, false);
      var p1, p2, p3, p4 := EntityWork(b.records), MessageWork(Deferred(b.records)), EvidenceWork(b.records),
          EdgeWork(b.relationships);
      RunParts(w, st0, p1, p2, p3, p4);
      var deferred: seq<Record>, raised: bool;
      s, deferred, raised := FirstPass(w, b.records, s);
      if raised {
        RaisedThrough(w, Now(s, true), p2, p3, p4);
        return Raised;
      }
      s, raised := SecondPass(w, deferred, s);
      if raised {
        RaisedThrough(w, Now(s, true), [], p3, p4);
        return Raised;
      }
      s := RecordAll(w, b.records, s);
      s := ObserveAll(w, b.relationships, s);
      r := Ingested(s);
    }

    /** Everything but messages, which are set aside. */
    method FirstPass(w: World, records: seq<Record>, s0: Summary)
                     returns (s: Summary, deferred: seq<Record>, raised: bool)
      modifies this
      ensures Now(s, raised) == Run(w, old(Now(s0, false)), EntityWork(records))
      ensures !raised ==> deferred == Deferred(records)
    {
      hide AfterEntity;
      s, deferred, raised := s0, [], false;
      ghost var st0 := Now(s, false);
      for i := 0 to |records|
        invariant Now(s, false) == Run(w, st0, EntityWork(records[..i]))
        invariant deferred == Deferred(records[..i])
      {
        assert records[..i + 1][..i] == records[..i];
        if IsMessage(records[i]) {
          deferred := deferred + [records[i]];
          continue;
        }
        RunStep(w, st0, EntityWork(records[..i]), OneEntity(records[i]));
        s, raised := IngestEntity(w, s, records[i]);
        if raised {
          EntityWorkSplits(records, i + 1);
          RaisedRest(w, st0, EntityWork(records[..i + 1]), EntityWork(records[i + 1..]));
          return;
        }
      }
      raised := false;
      assert records[..|records|] == records;
    }

    method SecondPass(w: World, deferred: seq<Record>, s0: Summary) returns (s: Summary, raised: bool)
      modifies this
      ensures Now(s, raised) == Run(w, old(Now(s0, false)), MessageWork(deferred))
    {
      hide AfterMessage;
      s, raised := s0, false;
      ghost var st0 := Now(s, false);
      for i := 0 to |deferred|
        invariant Now(s, false) == Run(w, st0, MessageWork(deferred[..i]))
      {
        RunStep(w, st0, MessageWork(deferred[..i]), OneMessage(deferred[i]));
        assert MessageWork(deferred[..i + 1]) == MessageWork(deferred[..i]) + [OneMessage(deferred[i])];
        s, raised := IngestMessage(w, s, deferred[i]);
        if raised {
          assert MessageWork(deferred) == MessageWork(deferred[..i + 1]) + MessageWork(deferred[i + 1..]);
          RaisedRest(w, st0, MessageWork(deferred[..i + 1]), MessageWork(deferred[i + 1..]));
          return;
        }
      }
      raised := false;
      assert deferred[..|deferred|] == deferred;
    }

    /** The evidence of every record. */
    method RecordAll(w: World, records: seq<Record>, s0: Summary) returns (s: Summary)
      modifies this
      ensures Now(s, false) == Run(w, old(Now(s0, false)), EvidenceWork(records))
    {
      s := s0;
      ghost var st0 := Now(s, false);
      for i := 0 to |records|
        invariant Now(s, false) == Run(w, st0, EvidenceWork(records[..i]))
      {
        assert records[..i + 1][..i] == records[..i];
        var drafts := records[i].evidence;
        ghost var st1 := Now(s, false);
        for j := 0 to |drafts|
          invariant Now(s, false) == Run(w, st1, DraftWork(drafts[..j]))
        {
          RunStep(w, st1, DraftWork(drafts[..j]), OneEvidence(drafts[j]));
          assert DraftWork(drafts[..j + 1]) == DraftWork(drafts[..j]) + [OneEvidence(drafts[j])];
          s := RecordEvidence(s, drafts[j]);
        }
        assert drafts[..|drafts|] == drafts;
        RunAppend(w, st0, EvidenceWork(records[..i]), DraftWork(drafts));
      }
      assert records[..|records|] == records;
    }

    method ObserveAll(w: World, rels: seq<RelationshipDraft>, s0: Summary) returns (s: Summary)
      modifies this
      ensures Now(s, false) == Run(w, old(Now(s0, false)), EdgeWork(rels))
    {
      s := s0;
      ghost var st0 := Now(s, false);
      for i := 0 to |rels|
        invariant Now(s, false) == Run(w, st0, EdgeWork(rels[..i]))
      {
        RunStep(w, st0, EdgeWork(rels[..i]), OneEdge(rels[i]));
        assert EdgeWork(rels[..i + 1]) == EdgeWork(rels[..i]) + [OneEdge(rels[i])];
        s := ObserveRelationship(w, s, rels[i]);
      }
      assert rels[..|rels|] == rels;
    }
  }

  lemma RaisedThrough(w: World, st: State, a: seq<Work>, b: seq<Work>, c: seq<Work>)
    requires st.raised
    ensures Run(w, Run(w, Run(w, st, a), b), c) == st && Run(w, Run(w, st, b), c) == st
  {
    RaisedStays(w, st, a);
    RaisedStays(w, st, b);
    RaisedStays(w, st, c);
  }
}
