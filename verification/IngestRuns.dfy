/** What ingestion keeps over whole batches: accounting, what is stored, when it raises, and
    that ingesting again changes nothing. */
module IngestRuns {
  import opened Options
  import opened Relationships
  import opened Ingest
  import Ioc

  // ----- Texts touch the graph, not the books -----

  ghost predicate SameBooks(st: State, st': State) {
    && st'.summary.created == st.summary.created && st'.summary.updated == st.summary.updated
    && st'.summary.skipped == st.summary.skipped && st'.summary.resolved == st.summary.resolved
    && st'.tables.messages == st.tables.messages
  }

  lemma {:induction false} LinksKeepBooks(w: World, st: State, e: Entity, links: seq<Link>)
    ensures SameBooks(st, LinkedAll(w, st, e, links)) && LinkedAll(w, st, e, links).raised == st.raised
  {
    if links != [] {
      var mid := LinkedAll(w, st, e, links[..|links| - 1]);
      LinksKeepBooks(w, st, e, links[..|links| - 1]);
      LinkKeepsBooks(w, mid, e, links[|links| - 1]);
      hide Linked;
    }
  }

  lemma LinkKeepsBooks(w: World, st: State, e: Entity, l: Link)
    ensures SameBooks(st, Linked(w, st, e, l)) && Linked(w, st, e, l).raised == st.raised
  {
  }

  /** A text raises exactly when its scan does. */
  lemma {:induction false} TextKeepsBooks(w: World, st: State, e: Entity, rec: Record, field: string)
    ensures SameBooks(st, Enriched(w, st, e, rec, field))
    ensures Enriched(w, st, e, rec, field).raised <==> st.raised || TextRaises(w, rec, field)
  {
    hide LinkedAll, AllLinks, Ioc.Deduped, Ioc.Extracted;
    if !st.raised && field in rec.attributes && rec.attributes[field] != "" && !TextRaises(w, rec, field) {
      var text := rec.attributes[field];
      var scanned := Ioc.Extracted(w.scan(text)).value;
      LinksKeepBooks(w, st, e, AllLinks(w, field, SourceOf(rec), text, Ioc.Deduped(scanned.matches, |text|)));
    }
  }

  /** What the texts of a record add leaves the books as its row left them. */
  lemma {:induction false} EntityBooks(w: World, st: State, rec: Record)
    requires rec.key.Some? && !st.raised
    ensures SameBooks(StoredEntity(w, st, rec), AfterEntity(w, st, rec))
    ensures AfterEntity(w, st, rec).raised <==> RecordRaises(w, OneEntity(rec))
  {
    hide StoredEntity, Enriched, TextRaises;
    var st1 := StoredEntity(w, st, rec);
    StoredResolves(w, st, rec);
    var e := st1.summary.resolved[rec.ref];
    TextKeepsBooks(w, st1, e, rec, "bio");
    TextKeepsBooks(w, Enriched(w, st1, e, rec, "bio"), e, rec, "description");
  }

  lemma {:induction false} MessageBooks(w: World, st: State, rec: Record, c: Entity)
    requires rec.number.Some? && !st.raised && ContainerOf(st.summary.resolved, rec) == Some(c)
    ensures SameBooks(StoredMessage(w, st, rec, c), AfterMessage(w, st, rec))
    ensures AfterMessage(w, st, rec).raised <==> RecordRaises(w, OneMessage(rec))
  {
    hide ContainerOf, Enriched, TextRaises;
    var st1 := StoredMessage(w, st, rec, c);
    MessageResolves(w, st, rec, c);
    TextKeepsBooks(w, st1, st1.summary.resolved[rec.ref], rec, "text");
  }

  // ----- When ingestion raises -----

  /** The kinds that refs resolve to. */
  type Shape = map<string, string>

  function Kinds(resolved: map<string, Entity>): Shape { map r | r in resolved :: resolved[r].kind }

  function ContainerRefs(shape: Shape): set<string> { set r | r in shape && IsContainerKind(shape[r]) }

  /** Some container will be found for the message. */
  predicate HasContainer(shape: Shape, rec: Record) {
    || (rec.containerRef.Some? && rec.containerRef.value != "" && rec.containerRef.value in shape)
    || |ContainerRefs(shape)| == 1
  }

  /** The record is stored, not skipped. */
  predicate Kept(shape: Shape, x: Work) {
    match x
    case OneEntity(rec) => rec.key.Some?
    case OneMessage(rec) => rec.number.Some? && HasContainer(shape, rec)
    case _ => false
  }

  function KindOf(x: Work): string
    requires x.OneEntity? || x.OneMessage?
  {
    if x.OneEntity? then x.rec.kind else MESSAGE
  }

  /** What refs resolve to after the work, read off the batch alone. */
  function ShapeOf(plan: seq<Work>): Shape {
    if plan == [] then map[]
    else
      var shape, x := ShapeOf(plan[..|plan| - 1]), plan[|plan| - 1];
      if Kept(shape, x) then shape[x.rec.ref := KindOf(x)] else shape
  }

  /** One of the texts that are scanned for the record raises. */
  predicate RecordRaises(w: World, x: Work) {
    match x
    case OneEntity(rec) => IsProfile(rec.kind) && (TextRaises(w, rec, "bio") || TextRaises(w, rec, "description"))
    case OneMessage(rec) => TextRaises(w, rec, "text")
    case _ => false
  }

  lemma {:induction false} ContainerShape(resolved: map<string, Entity>, rec: Record)
    ensures ContainerOf(resolved, rec).Some? <==> HasContainer(Kinds(resolved), rec)
  {
    assert Containers(resolved) == ContainerRefs(Kinds(resolved));
  }

  /** One step: what it resolves, and when it raises. */
  lemma {:induction false} StepShape(w: World, st: State, x: Work)
    requires !st.raised
    ensures var shape := Kinds(st.summary.resolved);
            && Kinds(After(w, st, x).summary.resolved) ==
               (if Kept(shape, x) then shape[x.rec.ref := KindOf(x)] else shape)
            && (After(w, st, x).raised <==> Kept(shape, x) && RecordRaises(w, x))
  {
    hide ContainerOf, Enriched, Observed, Recorded, Filled, Settable, TextRaises;
    match x
    case OneEntity(rec) => EntityShape(w, st, rec);
    case OneMessage(rec) => MessageShape(w, st, rec);
    case OneEvidence(_) =>
    case OneEdge(_) =>
  }

  lemma {:induction false} EntityShape(w: World, st: State, rec: Record)
    requires !st.raised
    ensures var shape, st' := Kinds(st.summary.resolved), AfterEntity(w, st, rec);
            && Kinds(st'.summary.resolved) == (if rec.key.Some? then shape[rec.ref := rec.kind] else shape)
            && (st'.raised <==> rec.key.Some? && RecordRaises(w, OneEntity(rec)))
  {
    if rec.key.Some? { EntityBooks(w, st, rec); }
    hide Filled, Settable, TextRaises, AfterEntity;
    SkippedEntity(w, st, rec);
  }

  lemma SkippedEntity(w: World, st: State, rec: Record)
    ensures rec.key.None? ==> AfterEntity(w, st, rec) == Skipping(st, rec.ref)
  {
  }

  lemma {:induction false} MessageShape(w: World, st: State, rec: Record)
    requires !st.raised
    ensures var shape, st' := Kinds(st.summary.resolved), AfterMessage(w, st, rec);
            && Kinds(st'.summary.resolved) ==
               (if Kept(shape, OneMessage(rec)) then shape[rec.ref := MESSAGE] else shape)
            && (st'.raised <==> Kept(shape, OneMessage(rec)) && TextRaises(w, rec, "text"))
  {
    ContainerShape(st.summary.resolved, rec);
    hide Enriched, TextRaises, ContainerOf, HasContainer;
    var c := ContainerOf(st.summary.resolved, rec);
    if c.Some? && rec.number.Some? { MessageBooks(w, st, rec, c.value); }
  }

  /** The work `k` stores its record and a text of it raises. */
  predicate RaisesAt(w: World, plan: seq<Work>, k: nat)
    requires k < |plan|
  {
    Kept(ShapeOf(plan[..k]), plan[k]) && RecordRaises(w, plan[k])
  }

  /** Ingestion raises exactly when a text of a record that it stores raises. Which records it
      stores is read off the batch alone. */
  lemma {:induction false} RaisesExactly(w: World, t: Tables, plan: seq<Work>)
    ensures Run(w, Start(t), plan).raised <==> exists k :: 0 <= k < |plan| && RaisesAt(w, plan, k)
    ensures !Run(w, Start(t), plan).raised ==> Kinds(Run(w, Start(t), plan).summary.resolved) == ShapeOf(plan)
  {
    if plan == [] {
      assert Kinds(map[]) == map[];
    } else {
      var front, x := plan[..|plan| - 1], plan[|plan| - 1];
      var mid := Run(w, Start(t), front);
      RaisesExactly(w, t, front);
      assert forall k :: 0 <= k < |front| ==> front[..k] == plan[..k];
      if !mid.raised { StepShape(w, mid, x); }
      hide After, Kept, RecordRaises, ShapeOf;
      assert RaisesAt(w, plan, |front|) <==> Kept(ShapeOf(front), x) && RecordRaises(w, x);
      assert forall k :: 0 <= k < |front| ==> (RaisesAt(w, plan, k) <==> RaisesAt(w, front, k));
      RaisesSplit(w, plan);
      ShapeStep(plan);
    }
  }

  lemma ShapeStep(plan: seq<Work>)
    requires plan != []
    ensures var shape, x := ShapeOf(plan[..|plan| - 1]), plan[|plan| - 1];
            ShapeOf(plan) == if Kept(shape, x) then shape[x.rec.ref := KindOf(x)] else shape
  {
  }

  lemma RaisesSplit(w: World, plan: seq<Work>)
    requires plan != []
    ensures (exists k :: 0 <= k < |plan| && RaisesAt(w, plan, k)) <==>
            (exists k :: 0 <= k < |plan| - 1 && RaisesAt(w, plan, k)) || RaisesAt(w, plan, |plan| - 1)
  {
    hide RaisesAt;
  }

  // ----- Every record is accounted for -----

  predicate IsRecord(x: Work) { x.OneEntity? || x.OneMessage? }

  function RecordsIn(plan: seq<Work>): nat {
    if plan == [] then 0 else RecordsIn(plan[..|plan| - 1]) + if IsRecord(plan[|plan| - 1]) then 1 else 0
  }

  function Accounted(s: Summary): nat { s.created + s.updated + |s.skipped| }

  lemma {:induction false} AfterAccounts(w: World, st: State, x: Work)
    requires !st.raised
    ensures Accounted(After(w, st, x).summary) == Accounted(st.summary) + if IsRecord(x) then 1 else 0
  {
    hide ContainerOf, Enriched, Observed, Recorded, Filled, Settable, TextRaises;
    match x
    case OneEntity(rec) =>
      if rec.key.Some? { EntityBooks(w, st, rec); }
    case OneMessage(rec) =>
      var c := ContainerOf(st.summary.resolved, rec);
      if c.Some? && rec.number.Some? { MessageBooks(w, st, rec, c.value); }
    case OneEvidence(_) =>
    case OneEdge(_) =>
  }

  lemma {:induction false} RunAccounts(w: World, st: State, plan: seq<Work>)
    requires !Run(w, st, plan).raised
    ensures Accounted(Run(w, st, plan).summary) == Accounted(st.summary) + RecordsIn(plan)
  {
    if plan != [] {
      assert !Run(w, st, plan[..|plan| - 1]).raised;
      RunAccounts(w, st, plan[..|plan| - 1]);
      AfterAccounts(w, Run(w, st, plan[..|plan| - 1]), plan[|plan| - 1]);
      hide After, Accounted;
    }
  }

  lemma {:induction false} RecordsAppend(a: seq<Work>, b: seq<Work>)
    ensures RecordsIn(a + b) == RecordsIn(a) + RecordsIn(b)
  {
    if b == [] {
      assert a + b == a;
    } else {
      RecordsAppend(a, b[..|b| - 1]);
      assert (a + b)[..|a + b| - 1] == a + b[..|b| - 1];
    }
  }

  lemma {:induction false} CountAll(plan: seq<Work>)
    requires forall i :: 0 <= i < |plan| ==> IsRecord(plan[i])
    ensures RecordsIn(plan) == |plan|
  {
    if plan != [] { CountAll(plan[..|plan| - 1]); }
  }

  lemma {:induction false} CountNone(plan: seq<Work>)
    requires forall i :: 0 <= i < |plan| ==> !IsRecord(plan[i])
    ensures RecordsIn(plan) == 0
  {
    if plan != [] { CountNone(plan[..|plan| - 1]); }
  }

  lemma {:induction false} CountRecords(records: seq<Record>)
    ensures RecordsIn(EntityWork(records)) + |Deferred(records)| == |records|
    ensures RecordsIn(EvidenceWork(records)) == 0
  {
    if records != [] {
      var front, last := records[..|records| - 1], records[|records| - 1];
      CountRecords(front);
      RecordsAppend(EntityWork(front), [OneEntity(last)]);
      CountAll([OneEntity(last)]);
      RecordsAppend(EvidenceWork(front), DraftWork(last.evidence));
      CountNone(DraftWork(last.evidence));
      hide RecordsIn;
    }
  }

  /** When ingestion does not raise, created, updated and skipped records are all the records,
      whatever is in the tables. */
  lemma {:induction false} EveryRecordIsAccounted(w: World, t: Tables, b: Batch)
    requires !Run(w, Start(t), Plan(b)).raised
    ensures Accounted(Run(w, Start(t), Plan(b)).summary) == |b.records|
  {
    RunAccounts(w, Start(t), Plan(b));
    if b.records != [] {
      var p1, p2, p3, p4 := EntityWork(b.records), MessageWork(Deferred(b.records)), EvidenceWork(b.records),
          EdgeWork(b.relationships);
      CountRecords(b.records);
      CountAll(p2);
      CountNone(p4);
      RecordsAppend(p1 + p2 + p3, p4);
      RecordsAppend(p1 + p2, p3);
      RecordsAppend(p1, p2);
      hide RecordsIn, Run;
    }
  }

  // ----- Nothing stored is lost -----

  /** Columns that hold something keep it. */
  ghost predicate ColumnsGrew(c: map<string, string>, d: map<string, string>) {
    forall x :: x in c ==> x in d && (c[x] != "" ==> d[x] == c[x])
  }

  ghost predicate EntitiesGrew(t: Tables, u: Tables) {
    forall k :: k in t.entities ==>
      k in u.entities && u.entities[k].id == t.entities[k].id &&
          ColumnsGrew(t.entities[k].columns, u.entities[k].columns)
  }

  /** The ids of the messages. */
  function Ids(ms: map<MessageKey, Row>): map<MessageKey, string> { map k | k in ms :: ms[k].id }

  ghost predicate MessagesGrew(t: Tables, u: Tables) {
    forall k :: k in t.messages ==>
      k in u.messages && u.messages[k].id == t.messages[k].id &&
          t.messages[k].columns.Keys <= u.messages[k].columns.Keys
  }

  ghost predicate EvidenceGrew(t: Tables, u: Tables) {
    forall k :: k in t.evidence ==> k in u.evidence && u.evidence[k] == t.evidence[k]
  }

  ghost predicate EdgesGrew(t: Tables, u: Tables) {
    forall k :: k in t.edges ==> k in u.edges && t.edges[k].confidence <= u.edges[k].confidence
  }

  /** Rows keep their ids, entities what their columns hold, evidence rows never change, and
      edges do not lose confidence. */
  ghost predicate Grew(t: Tables, u: Tables) {
    EntitiesGrew(t, u) && MessagesGrew(t, u) && EvidenceGrew(t, u) && EdgesGrew(t, u)
  }

  lemma FilledGrew(c: map<string, string>, settable: set<string>, attributes: map<string, string>)
    ensures ColumnsGrew(c, Filled(c, settable, attributes))
  {
  }

  lemma {:induction false} GrewSelf(t: Tables)
    ensures Grew(t, t)
  {
  }

  lemma {:induction false} EntitiesGrewOn(t: Tables, u: Tables, v: Tables)
    requires EntitiesGrew(t, u) && EntitiesGrew(u, v)
    ensures EntitiesGrew(t, v)
  {
    forall k | k in t.entities
      ensures k in v.entities && v.entities[k].id == t.entities[k].id &&
              ColumnsGrew(t.entities[k].columns, v.entities[k].columns)
    {
      assert k in u.entities;
    }
  }

  lemma {:induction false} MessagesGrewOn(t: Tables, u: Tables, v: Tables)
    requires MessagesGrew(t, u) && MessagesGrew(u, v)
    ensures MessagesGrew(t, v)
  {
  }

  lemma {:induction false} GrewOn(t: Tables, u: Tables, v: Tables)
    requires Grew(t, u) && Grew(u, v)
    ensures Grew(t, v)
  {
    EntitiesGrewOn(t, u, v);
    MessagesGrewOn(t, u, v);
    hide EntitiesGrew, MessagesGrew;
  }

  lemma {:induction false} FoundGrows(w: World, st: State, k: NaturalKey)
    ensures Grew(st.tables, Found(w, st, k).tables)
  {
    GrewSelf(st.tables);
  }

  lemma {:induction false} SightedGrows(st: State, e: Entity, g: Sighting)
    ensures Grew(st.tables, Sighted(st, e, g).tables)
  {
    SameEntities(st.tables, Sighted(st, e, g).tables);
    hide EntitiesGrew, MessagesGrew;
  }

  lemma {:induction false} ObservingGrows(st: State, k: EdgeKey, confidence: int, now: int)
    ensures Grew(st.tables, Observing(st, k, confidence, now).tables) &&
            k in Observing(st, k, confidence, now).tables.edges
  {
    SameEntities(st.tables, Observing(st, k, confidence, now).tables);
    hide EntitiesGrew, MessagesGrew;
  }

  /** The entity a link leads to, and the state when its row and its sighting are there. */
  function TargetOf(w: World, st: State, l: Link): Entity {
    FoundIsThere(w, st, l.key);
    Entity(l.key.kind, Found(w, st, l.key).tables.entities[l.key].id)
  }

  function Noted(w: World, st: State, l: Link): State {
    if l.sighting.Some? then Sighted(Found(w, st, l.key), TargetOf(w, st, l), l.sighting.value) else Found(w, st, l.key)
  }

  lemma LinkedIsNoted(w: World, st: State, e: Entity, l: Link)
    ensures Linked(w, st, e, l) == Observing(Noted(w, st, l), EdgeKey(e, TargetOf(w, st, l), l.relType), l.confidence,
            w.now)
  {
    hide Found, Sighted, Observing;
  }

  lemma {:induction false} NotedGrows(w: World, st: State, l: Link)
    ensures Grew(st.tables, Found(w, st, l.key).tables) && Grew(Found(w, st, l.key).tables, Noted(w, st, l).tables)
  {
    var st1 := Found(w, st, l.key);
    FoundGrows(w, st, l.key);
    GrewSelf(st1.tables);
    if l.sighting.Some? { SightedGrows(st1, TargetOf(w, st, l), l.sighting.value); }
    hide Grew, Found, Sighted;
  }

  lemma {:induction false} LinkGrows(w: World, st: State, e: Entity, l: Link)
    ensures Grew(st.tables, Linked(w, st, e, l).tables)
  {
    var st1, st2 := Found(w, st, l.key), Noted(w, st, l);
    var k := EdgeKey(e, TargetOf(w, st, l), l.relType);
    LinkedIsNoted(w, st, e, l);
    NotedGrows(w, st, l);
    ObservingGrows(st2, k, l.confidence, w.now);
    hide Grew, Found, Noted, Observing, Linked;
    GrewOn(st.tables, st1.tables, st2.tables);
    GrewOn(st.tables, st2.tables, Observing(st2, k, l.confidence, w.now).tables);
  }

  lemma SameEntities(t: Tables, u: Tables)
    requires u.entities == t.entities && u.messages == t.messages
    ensures EntitiesGrew(t, u) && MessagesGrew(t, u)
  {
  }

  lemma {:induction false} LinksGrow(w: World, st: State, e: Entity, links: seq<Link>)
    ensures Grew(st.tables, LinkedAll(w, st, e, links).tables)
  {
    if links == [] {
      GrewSelf(st.tables);
    } else {
      var mid := LinkedAll(w, st, e, links[..|links| - 1]);
      LinksGrow(w, st, e, links[..|links| - 1]);
      LinkGrows(w, mid, e, links[|links| - 1]);
      hide Linked, Grew;
      GrewOn(st.tables, mid.tables, LinkedAll(w, st, e, links).tables);
    }
  }

  lemma {:induction false} TextGrows(w: World, st: State, e: Entity, rec: Record, field: string)
    ensures Grew(st.tables, Enriched(w, st, e, rec, field).tables)
  {
    hide LinkedAll, AllLinks, Ioc.Deduped, Ioc.Extracted;
    GrewSelf(st.tables);
    hide Grew;
    if !st.raised && field in rec.attributes && rec.attributes[field] != "" && !TextRaises(w, rec, field) {
      var text := rec.attributes[field];
      var scanned := Ioc.Extracted(w.scan(text)).value;
      LinksGrow(w, st, e, AllLinks(w, field, SourceOf(rec), text, Ioc.Deduped(scanned.matches, |text|)));
    }
  }

  lemma {:induction false} StoredGrows(w: World, st: State, rec: Record)
    requires rec.key.Some?
    ensures Grew(st.tables, StoredEntity(w, st, rec).tables)
  {
    var k := NaturalKey(rec.kind, rec.key.value);
    GrewSelf(st.tables);
    if k in st.tables.entities { FilledGrew(st.tables.entities[k].columns, Settable(w, rec.kind), rec.attributes); }
    hide Settable, Filled;
  }

  lemma {:induction false} MessageGrows(w: World, st: State, rec: Record, c: Entity)
    requires rec.number.Some?
    ensures Grew(st.tables, StoredMessage(w, st, rec, c).tables)
  {
    GrewSelf(st.tables);
    hide ColumnsGrew;
  }

  lemma {:induction false} AfterGrows(w: World, st: State, x: Work)
    ensures Grew(st.tables, After(w, st, x).tables)
  {
    GrewSelf(st.tables);
    match x
    case OneEntity(rec) => EntityGrows(w, st, rec);
    case OneMessage(rec) => MessageRecordGrows(w, st, rec);
    case OneEvidence(d) => DraftGrows(st, d);
    case OneEdge(rel) => RelationGrows(w, st, rel);
    hide Grew, AfterEntity, AfterMessage, AfterEvidence, AfterEdge;
  }

  lemma {:induction false} DraftGrows(st: State, d: EvidenceDraft)
    ensures Grew(st.tables, AfterEvidence(st, d).tables)
  {
    SameEntities(st.tables, AfterEvidence(st, d).tables);
    hide EntitiesGrew, MessagesGrew;
  }

  lemma {:induction false} RelationGrows(w: World, st: State, rel: RelationshipDraft)
    ensures Grew(st.tables, AfterEdge(w, st, rel).tables)
  {
    SameEntities(st.tables, AfterEdge(w, st, rel).tables);
    hide EntitiesGrew, MessagesGrew;
  }

  lemma {:induction false} EntityGrows(w: World, st: State, rec: Record)
    ensures Grew(st.tables, AfterEntity(w, st, rec).tables)
  {
    GrewSelf(st.tables);
    if rec.key.Some? {
      var st1 := StoredEntity(w, st, rec);
      StoredGrows(w, st, rec);
      StoredResolves(w, st, rec);
      var e := st1.summary.resolved[rec.ref];
      var st2 := Enriched(w, st1, e, rec, "bio");
      var st3 := Enriched(w, st2, e, rec, "description");
      TextGrows(w, st1, e, rec, "bio");
      TextGrows(w, st2, e, rec, "description");
      hide Grew, StoredEntity, Enriched;
      GrewOn(st.tables, st1.tables, st2.tables);
      GrewOn(st.tables, st2.tables, st3.tables);
    } else {
      hide Grew;
    }
  }

  lemma {:induction false} MessageRecordGrows(w: World, st: State, rec: Record)
    ensures Grew(st.tables, AfterMessage(w, st, rec).tables)
  {
    hide ContainerOf;
    GrewSelf(st.tables);
    var c := ContainerOf(st.summary.resolved, rec);
    if c.Some? && rec.number.Some? {
      var st1 := StoredMessage(w, st, rec, c.value);
      MessageGrows(w, st, rec, c.value);
      MessageResolves(w, st, rec, c.value);
      TextGrows(w, st1, st1.summary.resolved[rec.ref], rec, "text");
      hide Grew, StoredMessage, Enriched;
      GrewOn(st.tables, st1.tables, AfterMessage(w, st, rec).tables);
    } else {
      hide Grew;
    }
  }

  /** Over every run of ingestion, raising or not. */
  lemma {:induction false} RunGrows(w: World, st: State, plan: seq<Work>)
    ensures Grew(st.tables, Run(w, st, plan).tables)
  {
    hide Grew, After;
    if plan == [] {
      GrewSelf(st.tables);
    } else {
      var mid := Run(w, st, plan[..|plan| - 1]);
      RunGrows(w, st, plan[..|plan| - 1]);
      AfterGrows(w, mid, plan[|plan| - 1]);
      GrewOn(st.tables, mid.tables, Run(w, st, plan).tables);
    }
  }

  // ----- Edges stay folds of their observations -----

  ghost predicate Folds(st: State) { st.tables.edges == Replay(st.log) }

  lemma {:induction false} ObservingFolds(st: State, k: EdgeKey, confidence: int, now: int)
    requires Folds(st)
    ensures Folds(Observing(st, k, confidence, now))
  {
    var log := st.log + [Observation(k, confidence, None, now)];
    assert log[..|st.log|] == st.log;
    hide Observed;
  }

  lemma {:induction false} LinksFold(w: World, st: State, e: Entity, links: seq<Link>)
    requires Folds(st)
    ensures Folds(LinkedAll(w, st, e, links)) && st.log <= LinkedAll(w, st, e, links).log
  {
    if links != [] {
      var mid, l := LinkedAll(w, st, e, links[..|links| - 1]), links[|links| - 1];
      LinksFold(w, st, e, links[..|links| - 1]);
      LinkFolds(w, mid, e, l);
      hide Linked, Folds;
    }
  }

  lemma {:induction false} LinkFolds(w: World, st: State, e: Entity, l: Link)
    requires Folds(st)
    ensures Folds(Linked(w, st, e, l)) && st.log <= Linked(w, st, e, l).log
  {
    var st1 := Found(w, st, l.key);
    FoundIsThere(w, st, l.key);
    var target := Entity(l.key.kind, st1.tables.entities[l.key].id);
    var st2 := if l.sighting.Some? then Sighted(st1, target, l.sighting.value) else st1;
    assert Folds(st2);
    ObservingFolds(st2, EdgeKey(e, target, l.relType), l.confidence, w.now);
    hide Observed, Recorded, Folds;
  }

  lemma {:induction false} TextFolds(w: World, st: State, e: Entity, rec: Record, field: string)
    requires Folds(st)
    ensures Folds(Enriched(w, st, e, rec, field)) && st.log <= Enriched(w, st, e, rec, field).log
  {
    hide LinkedAll, AllLinks, Ioc.Deduped, Ioc.Extracted;
    if !st.raised && field in rec.attributes && rec.attributes[field] != "" && !TextRaises(w, rec, field) {
      var text := rec.attributes[field];
      var scanned := Ioc.Extracted(w.scan(text)).value;
      LinksFold(w, st, e, AllLinks(w, field, SourceOf(rec), text, Ioc.Deduped(scanned.matches, |text|)));
    }
  }

  lemma {:induction false} AfterFolds(w: World, st: State, x: Work)
    requires Folds(st)
    ensures Folds(After(w, st, x)) && st.log <= After(w, st, x).log
  {
    hide ContainerOf, Enriched, Filled, Settable, Observed, Recorded, Replay;
    match x
    case OneEntity(rec) =>
      if rec.key.Some? {
        var st1 := StoredEntity(w, st, rec);
        StoredResolves(w, st, rec);
        var e := st1.summary.resolved[rec.ref];
        TextFolds(w, st1, e, rec, "bio");
        TextFolds(w, Enriched(w, st1, e, rec, "bio"), e, rec, "description");
      }
    case OneMessage(rec) =>
      var c := ContainerOf(st.summary.resolved, rec);
      if c.Some? && rec.number.Some? {
        var st1 := StoredMessage(w, st, rec, c.value);
        MessageResolves(w, st, rec, c.value);
        TextFolds(w, st1, st1.summary.resolved[rec.ref], rec, "text");
      }
    case OneEvidence(_) =>
    case OneEdge(rel) =>
      if rel.sourceRef in st.summary.resolved && rel.targetRef in st.summary.resolved {
        var k := EdgeKey(st.summary.resolved[rel.sourceRef], st.summary.resolved[rel.targetRef], rel.relType);
        ObservingFolds(st, k, rel.confidence, w.now);
      }
  }

  /** Over every run of ingestion the edges are the fold of all observations made, those that
      texts give rise to included. */
  lemma {:induction false} EdgesStayFolds(w: World, st: State, plan: seq<Work>)
    requires Folds(st)
    ensures Folds(Run(w, st, plan)) && st.log <= Run(w, st, plan).log
  {
    hide After, Folds;
    if plan != [] {
      EdgesStayFolds(w, st, plan[..|plan| - 1]);
      AfterFolds(w, Run(w, st, plan[..|plan| - 1]), plan[|plan| - 1]);
    }
  }

  // ----- Ingesting the same batch again -----

  /** The same columns, scans, keys and hashes; ids and times may differ. */
  ghost predicate SameTexts(w: World, w2: World) {
    w2.columns == w.columns && w2.scan == w.scan && w2.natural == w.natural && w2.snippet == w.snippet
  }

  ghost predicate Covers(columns: map<string, string>, settable: set<string>, attributes: map<string, string>) {
    forall x :: x in attributes && x in settable ==> x in columns && (attributes[x] != "" ==> columns[x] != "")
  }

  lemma FilledCovers(c: map<string, string>, settable: set<string>, attributes: map<string, string>)
    ensures Covers(Filled(c, settable, attributes), settable, attributes)
  {
  }

  lemma CoversOn(c: map<string, string>, d: map<string, string>, settable: set<string>, attributes: map<string, string>)
    requires Covers(c, settable, attributes) && ColumnsGrew(c, d)
    ensures Covers(d, settable, attributes)
  {
  }

  lemma CoveredIsFilled(c: map<string, string>, settable: set<string>, attributes: map<string, string>)
    requires Covers(c, settable, attributes)
    ensures Filled(c, settable, attributes) == c
  {
  }

  /** `again` is the second ingestion, at the same point as the first: the tables are as the
      first one left them in the end, refs resolve alike, nothing was created, and what the
      summary calls evidence recorded is every match found again. */
  ghost predicate Mirrors(first: State, again: State, end: Tables) {
    && again.tables.entities == end.entities && Ids(again.tables.messages) == Ids(end.messages)
    && again.tables.evidence == end.evidence && again.tables.drawn == end.drawn
    && again.tables.edges.Keys == end.edges.Keys
    && again.summary.resolved == first.summary.resolved && again.summary.skipped == first.summary.skipped
    && again.summary.created == 0 && again.summary.updated == first.summary.created + first.summary.updated
    && again.summary.relationships == 0 && again.summary.iocs == 0
    && again.summary.evidence == again.sightings == first.sightings && again.raised == first.raised
  }

  lemma {:induction false} MirrorFound(w: World, w2: World, first: State, again: State, end: Tables, l: Link)
    requires Mirrors(first, again, end) && Grew(Found(w, first, l.key).tables, end)
    ensures Mirrors(Found(w, first, l.key), Found(w2, again, l.key), end)
    ensures TargetOf(w2, again, l) == TargetOf(w, first, l)
  {
    FoundIsThere(w, first, l.key);
    assert l.key in end.entities && end.entities[l.key].id == Found(w, first, l.key).tables.entities[l.key].id;
    assert Found(w2, again, l.key) == again;
    hide Grew, Ids;
  }

  lemma {:induction false} MirrorSighted(first: State, again: State, end: Tables, e: Entity, g: Sighting)
    requires Mirrors(first, again, end) && Grew(Sighted(first, e, g).tables, end)
    ensures Mirrors(Sighted(first, e, g), Sighted(again, e, g), end)
  {
    var k := EvidenceKey(e, Some(g.field), g.source, g.contentHash);
    assert k in Sighted(first, e, g).tables.evidence;
    assert k in end.evidence;
    hide Grew, Ids;
  }

  lemma {:induction false} MirrorObserving(first: State, again: State, end: Tables, k: EdgeKey, confidence: int,
                                           now: int, now2: int)
    requires Mirrors(first, again, end) && Grew(Observing(first, k, confidence, now).tables, end)
    ensures Mirrors(Observing(first, k, confidence, now), Observing(again, k, confidence, now2), end)
  {
    assert k in Observing(first, k, confidence, now).tables.edges;
    assert k in end.edges.Keys;
    hide Grew, Ids;
  }

  lemma {:induction false} MirrorLink(w: World, w2: World, first: State, again: State, end: Tables, e: Entity, l: Link)
    requires Mirrors(first, again, end) && Grew(Linked(w, first, e, l).tables, end)
    ensures Mirrors(Linked(w, first, e, l), Linked(w2, again, e, l), end)
  {
    hide Mirrors, Grew, Found, Sighted, Observing, Linked, TargetOf;
    var st1, st2 := Found(w, first, l.key), Noted(w, first, l);
    var target := TargetOf(w, first, l);
    var k := EdgeKey(e, target, l.relType);
    var st3 := Observing(st2, k, l.confidence, w.now);
    LinkedIsNoted(w, first, e, l);
    LinkedIsNoted(w2, again, e, l);
    NotedGrows(w, first, l);
    ObservingGrows(st2, k, l.confidence, w.now);
    GrewOn(st2.tables, st3.tables, end);
    GrewOn(st1.tables, st2.tables, end);
    MirrorFound(w, w2, first, again, end, l);
    if l.sighting.Some? { MirrorSighted(st1, Found(w2, again, l.key), end, target, l.sighting.value); }
    MirrorObserving(st2, Noted(w2, again, l), end, k, l.confidence, w.now, w2.now);
  }

  lemma {:induction false} MirrorLinks(w: World, w2: World, first: State, again: State, end: Tables, e: Entity,
                                       links: seq<Link>)
    requires Mirrors(first, again, end) && Grew(LinkedAll(w, first, e, links).tables, end)
    ensures Mirrors(LinkedAll(w, first, e, links), LinkedAll(w2, again, e, links), end)
  {
    hide Mirrors, Grew, Linked;
    if links != [] {
      var front, l := links[..|links| - 1], links[|links| - 1];
      var mid := LinkedAll(w, first, e, front);
      LinkGrows(w, mid, e, l);
      GrewOn(mid.tables, LinkedAll(w, first, e, links).tables, end);
      MirrorLinks(w, w2, first, again, end, e, front);
      MirrorLink(w, w2, mid, LinkedAll(w2, again, e, front), end, e, l);
    }
  }

  lemma {:induction false} SameLinks(w: World, w2: World, field: string, source: string, text: string,
                                     ms: seq<Ioc.Match>)
    requires SameTexts(w, w2)
    ensures AllLinks(w2, field, source, text, ms) == AllLinks(w, field, source, text, ms)
  {
    if ms != [] {
      SameLinks(w, w2, field, source, text, ms[..|ms| - 1]);
      SameLink(w, w2, field, source, text, ms[|ms| - 1]);
      hide LinksOf;
    }
  }

  lemma {:induction false} SameLink(w: World, w2: World, field: string, source: string, text: string, m: Ioc.Match)
    requires SameTexts(w, w2)
    ensures LinksOf(w2, field, source, text, m) == LinksOf(w, field, source, text, m)
  {
    hide TypeName, BaseConfidence;
  }

  lemma {:induction false} MirrorText(w: World, w2: World, first: State, again: State, end: Tables, e: Entity,
                                      rec: Record, field: string)
    requires Mirrors(first, again, end) && SameTexts(w, w2) && Grew(Enriched(w, first, e, rec, field).tables, end)
    ensures Mirrors(Enriched(w, first, e, rec, field), Enriched(w2, again, e, rec, field), end)
  {
    hide LinkedAll, AllLinks, Ioc.Deduped, Ioc.Extracted, Grew;
    if !first.raised && field in rec.attributes && rec.attributes[field] != "" && !TextRaises(w, rec, field) {
      var text := rec.attributes[field];
      var scanned := Ioc.Extracted(w.scan(text)).value;
      var ms := Ioc.Deduped(scanned.matches, |text|);
      SameLinks(w, w2, field, SourceOf(rec), text, ms);
      MirrorLinks(w, w2, first, again, end, e, AllLinks(w, field, SourceOf(rec), text, ms));
    }
  }

  lemma {:induction false} MirrorStored(w: World, w2: World, first: State, again: State, end: Tables, rec: Record)
    requires rec.key.Some? && Mirrors(first, again, end) && SameTexts(w, w2) &&
             Grew(StoredEntity(w, first, rec).tables, end)
    ensures Mirrors(StoredEntity(w, first, rec), StoredEntity(w2, again, rec), end)
  {
    var k := NaturalKey(rec.kind, rec.key.value);
    var s := Settable(w, rec.kind);
    var before := if k in first.tables.entities then first.tables.entities[k].columns else map[];
    var mid := StoredEntity(w, first, rec).tables.entities[k];
    FilledCovers(before, s, rec.attributes);
    assert mid.columns == Filled(before, s, rec.attributes);
    assert k in end.entities && end.entities[k].id == mid.id && ColumnsGrew(mid.columns, end.entities[k].columns);
    CoversOn(mid.columns, end.entities[k].columns, s, rec.attributes);
    CoveredIsFilled(end.entities[k].columns, s, rec.attributes);
    assert Settable(w2, rec.kind) == s;
    hide Filled, Settable, Covers, Grew, ColumnsGrew, Ids;
    assert end.entities[k := end.entities[k]] == end.entities;
  }

  lemma {:induction false} MirrorEntity(w: World, w2: World, first: State, again: State, end: Tables, rec: Record)
    requires Mirrors(first, again, end) && SameTexts(w, w2) && Grew(AfterEntity(w, first, rec).tables, end)
    ensures Mirrors(AfterEntity(w, first, rec), AfterEntity(w2, again, rec), end)
  {
    hide Grew, StoredEntity, Enriched;
    if rec.key.Some? {
      var st1, again1 := StoredEntity(w, first, rec), StoredEntity(w2, again, rec);
      StoredResolves(w, first, rec);
      StoredResolves(w2, again, rec);
      var e := st1.summary.resolved[rec.ref];
      var st2 := Enriched(w, st1, e, rec, "bio");
      var st3 := Enriched(w, st2, e, rec, "description");
      TextGrows(w, st1, e, rec, "bio");
      TextGrows(w, st2, e, rec, "description");
      var last := if IsProfile(rec.kind) then st3 else st1;
      assert Grew(st1.tables, last.tables) by { GrewSelf(st1.tables); GrewOn(st1.tables, st2.tables, st3.tables); }
      GrewOn(st1.tables, last.tables, end);
      MirrorStored(w, w2, first, again, end, rec);
      assert again1.summary.resolved == st1.summary.resolved;
      hide Mirrors;
      if IsProfile(rec.kind) {
        GrewOn(st2.tables, st3.tables, end);
        MirrorText(w, w2, st1, again1, end, e, rec, "bio");
        MirrorText(w, w2, st2, Enriched(w2, again1, e, rec, "bio"), end, e, rec, "description");
      }
    }
  }

  lemma {:induction false} MirrorStoredMessage(w: World, w2: World, first: State, again: State, end: Tables,
                                               rec: Record, c: Entity)
    requires rec.number.Some? && Mirrors(first, again, end) && Grew(StoredMessage(w, first, rec, c).tables, end)
    ensures Mirrors(StoredMessage(w, first, rec, c), StoredMessage(w2, again, rec, c), end)
  {
    var k := MessageKey(c, rec.number.value);
    assert k in StoredMessage(w, first, rec, c).tables.messages;
    assert k in Ids(end.messages);
    assert k in Ids(again.tables.messages);
    assert again.tables.messages[k].id == end.messages[k].id == StoredMessage(w, first, rec, c).tables.messages[k].id;
    hide EntitiesGrew, EvidenceGrew, EdgesGrew, MessagesGrew;
    assert Ids(StoredMessage(w2, again, rec, c).tables.messages) == Ids(again.tables.messages);
  }

  lemma {:induction false} MirrorMessage(w: World, w2: World, first: State, again: State, end: Tables, rec: Record)
    requires Mirrors(first, again, end) && SameTexts(w, w2) && Grew(AfterMessage(w, first, rec).tables, end)
    ensures Mirrors(AfterMessage(w, first, rec), AfterMessage(w2, again, rec), end)
  {
    hide Grew, ContainerOf, StoredMessage, Enriched;
    var c := ContainerOf(first.summary.resolved, rec);
    if c.Some? && rec.number.Some? {
      var st1, again1 := StoredMessage(w, first, rec, c.value), StoredMessage(w2, again, rec, c.value);
      MessageResolves(w, first, rec, c.value);
      MessageResolves(w2, again, rec, c.value);
      var e := st1.summary.resolved[rec.ref];
      TextGrows(w, st1, e, rec, "text");
      GrewOn(st1.tables, Enriched(w, st1, e, rec, "text").tables, end);
      MirrorStoredMessage(w, w2, first, again, end, rec, c.value);
      assert again1.summary.resolved == st1.summary.resolved;
      MirrorText(w, w2, st1, again1, end, e, rec, "text");
    }
  }

  lemma {:induction false} MirrorEvidence(first: State, again: State, end: Tables, d: EvidenceDraft)
    requires Mirrors(first, again, end) && Grew(AfterEvidence(first, d).tables, end)
    ensures Mirrors(AfterEvidence(first, d), AfterEvidence(again, d), end)
  {
    hide EntitiesGrew, MessagesGrew, EdgesGrew, Ids;
  }

  lemma {:induction false} MirrorEdge(w: World, w2: World, first: State, again: State, end: Tables,
                                      rel: RelationshipDraft)
    requires Mirrors(first, again, end) && Grew(AfterEdge(w, first, rel).tables, end)
    ensures Mirrors(AfterEdge(w, first, rel), AfterEdge(w2, again, rel), end)
  {
    hide EntitiesGrew, MessagesGrew, EvidenceGrew, Ids;
    if rel.sourceRef in first.summary.resolved && rel.targetRef in first.summary.resolved {
      var k := EdgeKey(first.summary.resolved[rel.sourceRef], first.summary.resolved[rel.targetRef], rel.relType);
      assert k in AfterEdge(w, first, rel).tables.edges;
      assert k in end.edges.Keys;
    }
  }

  /** One step of a second ingestion finds what the first one left. */
  lemma {:induction false} MirrorStep(w: World, w2: World, first: State, again: State, end: Tables, x: Work)
    requires Mirrors(first, again, end) && SameTexts(w, w2) && Grew(After(w, first, x).tables, end)
    ensures Mirrors(After(w, first, x), After(w2, again, x), end)
  {
    assert again.raised == first.raised;
    hide Mirrors, Grew, AfterEntity, AfterMessage, AfterEvidence, AfterEdge;
    if !first.raised {
      match x
      case OneEntity(rec) => MirrorEntity(w, w2, first, again, end, rec);
      case OneMessage(rec) => MirrorMessage(w, w2, first, again, end, rec);
      case OneEvidence(d) => MirrorEvidence(first, again, end, d);
      case OneEdge(rel) => MirrorEdge(w, w2, first, again, end, rel);
    }
  }

  lemma {:induction false} PrefixStep(w: World, st: State, plan: seq<Work>, k: nat)
    requires 0 < k <= |plan|
    ensures Run(w, st, plan[..k]) == After(w, Run(w, st, plan[..k - 1]), plan[k - 1])
  {
    assert plan[..k][..k - 1] == plan[..k - 1];
    hide After;
  }

  lemma {:induction false} PrefixGrows(w: World, st: State, plan: seq<Work>, k: nat)
    requires k <= |plan|
    ensures Grew(Run(w, st, plan[..k]).tables, Run(w, st, plan).tables)
  {
    assert plan == plan[..k] + plan[k..];
    RunAppend(w, st, plan[..k], plan[k..]);
    RunGrows(w, Run(w, st, plan[..k]), plan[k..]);
    hide Grew, After, Run;
  }

  lemma LockstepStarts(t: Tables, end: Tables)
    ensures Mirrors(Start(t), Start(end), end)
  {
  }

  lemma {:induction false} Lockstep(w: World, w2: World, t: Tables, plan: seq<Work>, k: nat)
    requires k <= |plan| && SameTexts(w, w2)
    ensures var end := Run(w, Start(t), plan).tables;
            Mirrors(Run(w, Start(t), plan[..k]), Run(w2, Start(end), plan[..k]), end)
  {
    var st := Start(t);
    var end := Run(w, st, plan).tables;
    if k == 0 {
      LockstepStarts(t, end);
      hide Mirrors;
      assert plan[..k] == [];
    } else {
      hide Mirrors, Grew, After, Run;
      Lockstep(w, w2, t, plan, k - 1);
      PrefixStep(w, st, plan, k);
      PrefixStep(w2, Start(end), plan, k);
      PrefixGrows(w, st, plan, k);
      MirrorStep(w, w2, Run(w, st, plan[..k - 1]), Run(w2, Start(end), plan[..k - 1]), end, plan[k - 1]);
    }
  }

  // ----- Message columns: the last writer wins -----

  function ColumnsOf(t: Tables, k: MessageKey): map<string, string> {
    if k in t.messages then t.messages[k].columns else map[]
  }

  /** What a step writes into the columns of message `k`. */
  function Writes(st: State, x: Work, k: MessageKey): seq<map<string, string>> {
    if !st.raised && x.OneMessage? && x.rec.number.Some? && ContainerOf(st.summary.resolved, x.rec).Some?
       && MessageKey(ContainerOf(st.summary.resolved, x.rec).value, x.rec.number.value) == k
    then [Fields(x.rec)]
    else []
  }

  function WritesIn(w: World, st: State, plan: seq<Work>, k: MessageKey): seq<map<string, string>> {
    if plan == [] then []
    else
      var front := plan[..|plan| - 1];
      WritesIn(w, st, front, k) + Writes(Run(w, st, front), plan[|plan| - 1], k)
  }

  function Overlaid(c: map<string, string>, writes: seq<map<string, string>>): map<string, string> {
    if writes == [] then c else Overlaid(c, writes[..|writes| - 1]) + writes[|writes| - 1]
  }

  /** The last write that has a column decides it. */
  lemma {:induction false} LastWriterWins(c: map<string, string>, writes: seq<map<string, string>>, x: string, i: nat)
    requires i < |writes| && x in writes[i] && forall j :: i < j < |writes| ==> x !in writes[j]
    ensures x in Overlaid(c, writes) && Overlaid(c, writes)[x] == writes[i][x]
  {
    if i < |writes| - 1 { LastWriterWins(c, writes[..|writes| - 1], x, i); }
  }

  lemma {:induction false} OverlaidIsMerged(c: map<string, string>, writes: seq<map<string, string>>)
    ensures Overlaid(c, writes) == c + Overlaid(map[], writes)
  {
    if writes != [] { OverlaidIsMerged(c, writes[..|writes| - 1]); }
  }

  lemma {:induction false} OverlaidTwice(c: map<string, string>, writes: seq<map<string, string>>)
    ensures Overlaid(Overlaid(c, writes), writes) == Overlaid(c, writes)
  {
    OverlaidIsMerged(c, writes);
    OverlaidIsMerged(Overlaid(c, writes), writes);
  }

  lemma {:induction false} StepWrites(w: World, st: State, x: Work, k: MessageKey)
    ensures ColumnsOf(After(w, st, x).tables, k) == Overlaid(ColumnsOf(st.tables, k), Writes(st, x, k))
  {
    hide ContainerOf, Enriched, Filled, Settable, Observed, Recorded, Fields;
    assert Overlaid(ColumnsOf(st.tables, k), []) == ColumnsOf(st.tables, k);
    if !st.raised {
      match x
      case OneEntity(rec) =>
        if rec.key.Some? { EntityBooks(w, st, rec); }
      case OneMessage(rec) => MessageWrites(w, st, rec, k);
      case OneEvidence(_) =>
      case OneEdge(_) =>
    }
  }

  lemma {:induction false} MessageWrites(w: World, st: State, rec: Record, k: MessageKey)
    requires !st.raised
    ensures ColumnsOf(AfterMessage(w, st, rec).tables, k) ==
            Overlaid(ColumnsOf(st.tables, k), Writes(st, OneMessage(rec), k))
  {
    hide ContainerOf, Enriched, Fields;
    var before := ColumnsOf(st.tables, k);
    assert Overlaid(before, []) == before && Overlaid(before, [Fields(rec)]) == before + Fields(rec) by {
      assert [Fields(rec)][..0] == [];
    }
    var c := ContainerOf(st.summary.resolved, rec);
    if c.Some? && rec.number.Some? {
      var st1 := StoredMessage(w, st, rec, c.value);
      MessageResolves(w, st, rec, c.value);
      TextKeepsBooks(w, st1, st1.summary.resolved[rec.ref], rec, "text");
      assert ColumnsOf(st1.tables, k) == if k == MessageKey(c.value, rec.number.value) then before + Fields(rec)
          else before;
    }
  }

  lemma {:induction false} OverlaidAppend(c: map<string, string>, a: seq<map<string, string>>,
                                          b: seq<map<string, string>>)
    ensures Overlaid(c, a + b) == Overlaid(Overlaid(c, a), b)
  {
    if b == [] {
      assert a + b == a;
    } else {
      OverlaidAppend(c, a, b[..|b| - 1]);
      assert (a + b)[..|a + b| - 1] == a + b[..|b| - 1];
    }
  }

  /** Over every run the columns of a message are what was there, overlaid with what the
      records of the message bring, in order. */
  lemma {:induction false} ColumnsAreOverlaid(w: World, st: State, plan: seq<Work>, k: MessageKey)
    ensures ColumnsOf(Run(w, st, plan).tables, k) == Overlaid(ColumnsOf(st.tables, k), WritesIn(w, st, plan, k))
  {
    hide After, Writes, ColumnsOf;
    if plan != [] {
      var front, x := plan[..|plan| - 1], plan[|plan| - 1];
      ColumnsAreOverlaid(w, st, front, k);
      StepWrites(w, Run(w, st, front), x, k);
      OverlaidAppend(ColumnsOf(st.tables, k), WritesIn(w, st, front, k), Writes(Run(w, st, front), x, k));
    }
  }

  lemma SameStepWrites(first: State, again: State, end: Tables, x: Work, k: MessageKey)
    requires Mirrors(first, again, end)
    ensures Writes(again, x, k) == Writes(first, x, k)
  {
    hide ContainerOf, Fields, Ids;
  }

  lemma {:induction false} SameWrites(w: World, w2: World, t: Tables, plan: seq<Work>, j: nat, k: MessageKey)
    requires j <= |plan| && SameTexts(w, w2)
    ensures var end := Run(w, Start(t), plan).tables;
            WritesIn(w2, Start(end), plan[..j], k) == WritesIn(w, Start(t), plan[..j], k)
  {
    hide Mirrors, Writes, Run;
    if j > 0 {
      var end := Run(w, Start(t), plan).tables;
      var front := plan[..j - 1];
      assert plan[..j][..j - 1] == front;
      SameWrites(w, w2, t, plan, j - 1, k);
      Lockstep(w, w2, t, plan, j - 1);
      SameStepWrites(Run(w, Start(t), front), Run(w2, Start(end), front), end, plan[j - 1], k);
    }
  }

  lemma {:induction false} SameColumns(w: World, w2: World, t: Tables, plan: seq<Work>, k: MessageKey)
    requires SameTexts(w, w2)
    ensures var end := Run(w, Start(t), plan).tables;
            ColumnsOf(Run(w2, Start(end), plan).tables, k) == ColumnsOf(end, k)
  {
    var end := Run(w, Start(t), plan).tables;
    ColumnsAreOverlaid(w, Start(t), plan, k);
    ColumnsAreOverlaid(w2, Start(end), plan, k);
    SameWrites(w, w2, t, plan, |plan|, k);
    assert plan[..|plan|] == plan;
    OverlaidTwice(ColumnsOf(t, k), WritesIn(w, Start(t), plan, k));
    hide Run, WritesIn, ColumnsOf, Overlaid;
  }

  lemma {:induction false} SameMessages(a: map<MessageKey, Row>, b: map<MessageKey, Row>)
    requires Ids(a) == Ids(b) && forall k :: k in a && k in b ==> a[k].columns == b[k].columns
    ensures a == b
  {
    assert a.Keys == Ids(a).Keys && b.Keys == Ids(b).Keys;
    forall k | k in a ensures a[k] == b[k] {
      assert Ids(a)[k] == Ids(b)[k];
    }
  }

  /** Ingesting a batch again, later and whatever ids would be drawn, changes no entity,
      message or evidence row and adds no edge, texts included: everything it created is
      found. It raises again if it raised, and its summary counts every match as evidence
      recorded although no row is new. */
  lemma {:induction false} IngestIsIdempotent(w: World, w2: World, t: Tables, b: Batch)
    requires SameTexts(w, w2)
    ensures var first := Run(w, Start(t), Plan(b));
            var again := Run(w2, Start(first.tables), Plan(b));
            Mirrors(first, again, first.tables) && again.tables.messages == first.tables.messages
  {
    hide Plan;
    var plan := Plan(b);
    Lockstep(w, w2, t, plan, |plan|);
    assert plan[..|plan|] == plan;
    var end := Run(w, Start(t), plan).tables;
    var again := Run(w2, Start(end), plan).tables;
    assert Ids(again.messages) == Ids(end.messages);
    hide Mirrors, Run;
    forall k | k in again.messages && k in end.messages ensures again.messages[k].columns == end.messages[k].columns {
      SameColumns(w, w2, t, plan, k);
    }
    SameMessages(again.messages, end.messages);
  }

  // ----- Messages find their container wherever it stands in the batch -----

  ghost predicate RefsAreUnique(records: seq<Record>) {
    forall i, j :: 0 <= i < j < |records| ==> records[i].ref != records[j].ref
  }

  /** The ref resolves to the row of its natural key. */
  ghost predicate Resolves(st: State, rec: Record) {
    && rec.key.Some? && NaturalKey(rec.kind, rec.key.value) in st.tables.entities
    && rec.ref in st.summary.resolved
    && st.summary.resolved[rec.ref] == Entity(rec.kind, st.tables.entities[NaturalKey(rec.kind, rec.key.value)].id)
  }

  predicate NamesRef(x: Work, ref: string) { IsRecord(x) && x.rec.ref == ref }

  /** Another record's step resolves no other ref anew. */
  lemma {:induction false} StepResolves(w: World, st: State, x: Work, ref: string)
    requires !NamesRef(x, ref) && ref in st.summary.resolved
    ensures ref in After(w, st, x).summary.resolved
    ensures After(w, st, x).summary.resolved[ref] == st.summary.resolved[ref]
  {
    hide ContainerOf, Enriched, Filled, Settable, Observed, Recorded;
    if !st.raised {
      match x
      case OneEntity(rec) => if rec.key.Some? { EntityBooks(w, st, rec); }
      case OneMessage(rec) =>
        var c := ContainerOf(st.summary.resolved, rec);
        if c.Some? && rec.number.Some? { MessageBooks(w, st, rec, c.value); }
      case OneEvidence(_) =>
      case OneEdge(_) =>
    }
  }

  lemma {:induction false} StillResolves(w: World, st: State, x: Work, rec: Record)
    requires Resolves(st, rec) && !NamesRef(x, rec.ref)
    ensures Resolves(After(w, st, x), rec)
  {
    StepResolves(w, st, x, rec.ref);
    AfterGrows(w, st, x);
    hide After, ColumnsGrew;
  }

  /** A record with a key, once stored, resolves. */
  lemma {:induction false} StoredRecordResolves(w: World, st: State, rec: Record)
    requires rec.key.Some? && !st.raised
    ensures Resolves(AfterEntity(w, st, rec), rec)
  {
    var st1 := StoredEntity(w, st, rec);
    StoredResolves(w, st, rec);
    var e := st1.summary.resolved[rec.ref];
    var st2 := Enriched(w, st1, e, rec, "bio");
    var st3 := Enriched(w, st2, e, rec, "description");
    assert Resolves(st1, rec);
    TextKeepsBooks(w, st1, e, rec, "bio");
    TextKeepsBooks(w, st2, e, rec, "description");
    TextGrows(w, st1, e, rec, "bio");
    TextGrows(w, st2, e, rec, "description");
    hide StoredEntity, Enriched, TextRaises, ColumnsGrew;
  }

  /** The first pass, one record longer. */
  lemma {:induction false} OneRecordMore(w: World, st: State, records: seq<Record>)
    requires records != [] && !Run(w, st, EntityWork(records)).raised
    ensures var front, last := records[..|records| - 1], records[|records| - 1];
            var mid := Run(w, st, EntityWork(front));
            && !mid.raised
            && Run(w, st, EntityWork(records)) == (if IsMessage(last) then mid else After(w, mid, OneEntity(last)))
            && After(w, mid, OneEntity(last)) == AfterEntity(w, mid, last)
  {
    hide AfterEntity;
    var front, last := records[..|records| - 1], records[|records| - 1];
    if !IsMessage(last) { RunStep(w, st, EntityWork(front), OneEntity(last)); }
    hide Run;
  }

  lemma {:induction false} EntityResolves(w: World, st: State, records: seq<Record>, i: nat)
    requires RefsAreUnique(records) && i < |records| && !IsMessage(records[i]) && records[i].key.Some?
    requires !Run(w, st, EntityWork(records)).raised
    ensures Resolves(Run(w, st, EntityWork(records)), records[i])
  {
    hide Resolves, Run, After, AfterEntity, EntityWork;
    var front, last := records[..|records| - 1], records[|records| - 1];
    var mid := Run(w, st, EntityWork(front));
    OneRecordMore(w, st, records);
    if i < |front| {
      EntityResolves(w, st, front, i);
      assert records[i] == front[i];
      if !IsMessage(last) { StillResolves(w, mid, OneEntity(last), records[i]); }
    } else {
      StoredRecordResolves(w, mid, last);
    }
  }

  lemma {:induction false} DeferredIs(records: seq<Record>, j: nat) returns (i: nat)
    requires j < |Deferred(records)|
    ensures i < |records| && records[i] == Deferred(records)[j] && IsMessage(records[i])
  {
    var front := records[..|records| - 1];
    if j < |Deferred(front)| {
      i := DeferredIs(front, j);
    } else {
      i := |front|;
    }
  }

  lemma {:induction false} IsDeferred(records: seq<Record>, i: nat) returns (j: nat)
    requires i < |records| && IsMessage(records[i])
    ensures j < |Deferred(records)| && Deferred(records)[j] == records[i]
  {
    var front := records[..|records| - 1];
    if i < |front| {
      j := IsDeferred(front, i);
    } else {
      j := |Deferred(front)|;
    }
  }

  /** Through the second pass. */
  lemma {:induction false} MessagesKeepRef(w: World, st: State, deferred: seq<Record>, rec: Record)
    requires Resolves(st, rec) && forall j :: 0 <= j < |deferred| ==> deferred[j].ref != rec.ref
    ensures Resolves(Run(w, st, MessageWork(deferred)), rec)
  {
    if deferred != [] {
      var front, last := deferred[..|deferred| - 1], deferred[|deferred| - 1];
      MessagesKeepRef(w, st, front, rec);
      assert MessageWork(deferred) == MessageWork(front) + [OneMessage(last)];
      RunStep(w, st, MessageWork(front), OneMessage(last));
      StillResolves(w, Run(w, st, MessageWork(front)), OneMessage(last), rec);
      hide Run, After, Resolves;
    }
  }

  /** The message is stored in the container that `rec` resolved to. */
  ghost predicate StoredIn(t: Tables, m: Record, rec: Record) {
    && rec.key.Some? && NaturalKey(rec.kind, rec.key.value) in t.entities && m.number.Some?
    && MessageKey(Entity(rec.kind, t.entities[NaturalKey(rec.kind, rec.key.value)].id), m.number.value) in t.messages
  }

  lemma {:induction false} StoredStays(t: Tables, u: Tables, m: Record, rec: Record)
    requires StoredIn(t, m, rec) && Grew(t, u)
    ensures StoredIn(u, m, rec)
  {
  }

  lemma {:induction false} StoreMessage(w: World, st: State, m: Record, rec: Record)
    requires Resolves(st, rec) && m.containerRef == Some(rec.ref) && rec.ref != "" && m.number.Some?
    ensures StoredIn(AfterMessage(w, st, m).tables, m, rec)
  {
    var c := st.summary.resolved[rec.ref];
    assert ContainerOf(st.summary.resolved, m) == Some(c);
    hide ContainerOf;
    var st1 := StoredMessage(w, st, m, c);
    MessageResolves(w, st, m, c);
    assert StoredIn(st1.tables, m, rec);
    TextGrows(w, st1, st1.summary.resolved[m.ref], m, "text");
    hide StoredMessage, Enriched, StoredIn, Grew;
    StoredStays(st1.tables, AfterMessage(w, st, m).tables, m, rec);
  }

  /** With unique refs, a message that names a record of its batch is stored under that
      record's row, whichever of the two comes first in the batch. */
  lemma {:induction false} MessageFindsContainer(w: World, t: Tables, b: Batch, i: nat, j: nat)
    requires RefsAreUnique(b.records) && i < |b.records| && j < |b.records| && !Run(w, Start(t), Plan(b)).raised
    requires var rec, m := b.records[i], b.records[j];
             && !IsMessage(rec) && rec.key.Some? && rec.ref != ""
             && IsMessage(m) && m.number.Some? && m.containerRef == Some(rec.ref)
    ensures StoredIn(Run(w, Start(t), Plan(b)).tables, b.records[j], b.records[i])
  {
    var rec, m := b.records[i], b.records[j];
    var st := Start(t);
    var d := Deferred(b.records);
    var k := IsDeferred(b.records, j);
    PlanSplits(b, k);
    var head := EntityWork(b.records) + MessageWork(d[..k]);
    var rest := MessageWork(d[k + 1..]) + EvidenceWork(b.records) + EdgeWork(b.relationships);
    var s1 := Run(w, st, EntityWork(b.records));
    var s2 := Run(w, s1, MessageWork(d[..k]));
    var s3 := After(w, s2, OneMessage(m));
    var end := Run(w, s3, rest);
    RunInParts(w, st, EntityWork(b.records), MessageWork(d[..k]), OneMessage(m), rest);
    assert end == Run(w, st, Plan(b));
    NeverRaised(w, s3, rest);
    NeverRaised(w, s2, [OneMessage(m)]);
    assert Run(w, s2, [OneMessage(m)]) == s3 by { assert [OneMessage(m)][..0] == []; }
    NeverRaised(w, s1, MessageWork(d[..k]));
    forall q | 0 <= q < |d| ensures d[q].ref != rec.ref {
      var p := DeferredIs(b.records, q);
      assert p != i;
    }
    hide Run, Plan, Resolves, StoredIn, Grew, AfterMessage;
    EntityResolves(w, st, b.records, i);
    MessagesKeepRef(w, s1, d[..k], rec);
    StoreMessage(w, s2, m, rec);
    RunGrows(w, s3, rest);
    StoredStays(s3.tables, end.tables, m, rec);
  }

  lemma {:induction false} RunInParts(w: World, st: State, a: seq<Work>, b: seq<Work>, x: Work, rest: seq<Work>)
    ensures Run(w, st, a + b + [x] + rest) == Run(w, After(w, Run(w, Run(w, st, a), b), x), rest)
  {
    RunAppend(w, st, a + b + [x], rest);
    RunStep(w, st, a + b, x);
    RunAppend(w, st, a, b);
    hide Run, After;
  }

  /** What has not raised in the end had not raised before. */
  lemma {:induction false} NeverRaised(w: World, st: State, plan: seq<Work>)
    requires !Run(w, st, plan).raised
    ensures !st.raised
  {
    if st.raised { RaisedStays(w, st, plan); }
  }

  lemma {:induction false} PlanSplits(b: Batch, k: nat)
    requires b.records != [] && k < |Deferred(b.records)|
    ensures var d := Deferred(b.records);
            Plan(b) == EntityWork(b.records) + MessageWork(d[..k]) + [OneMessage(d[k])] +
                       (MessageWork(d[k + 1..]) + EvidenceWork(b.records) + EdgeWork(b.relationships))
  {
    var d := Deferred(b.records);
    hide Deferred, EntityWork, EvidenceWork, EdgeWork;
    assert MessageWork(d) == MessageWork(d[..k]) + [OneMessage(d[k])] + MessageWork(d[k + 1..]);
    var x, y, z, u, v, q := EntityWork(b.records), MessageWork(d[..k]), [OneMessage(d[k])], MessageWork(d[k + 1..]),
        EvidenceWork(b.records), EdgeWork(b.relationships);
    hide MessageWork;
    assert x + (y + z + u) + v + q == x + y + z + (u + v + q);
  }

  // ----- Everything a batch brings is stored -----

  /** The evidence or the edge of `x` is there, if its refs resolved. */
  ghost predicate Stored(x: Work, st: State) {
    var r := st.summary.resolved;
    match x
    case OneEvidence(d) => d.ref in r ==> EvidenceKey(r[d.ref], d.field, d.source, d.contentHash) in st.tables.evidence
    case OneEdge(rel) =>
      rel.sourceRef in r && rel.targetRef in r ==>
          EdgeKey(r[rel.sourceRef], r[rel.targetRef], rel.relType) in st.tables.edges
    case _ => true
  }

  lemma {:induction false} StoredOn(x: Work, st: State, st': State)
    requires Stored(x, st) && Grew(st.tables, st'.tables) && st'.summary.resolved == st.summary.resolved
    ensures Stored(x, st')
  {
    hide EntitiesGrew, MessagesGrew;
  }

  lemma {:induction false} StepStores(w: World, st: State, x: Work)
    requires !IsRecord(x) && !st.raised
    ensures After(w, st, x).summary.resolved == st.summary.resolved && Stored(x, After(w, st, x))
    ensures !After(w, st, x).raised
  {
  }

  /** The last two passes store all they are given and resolve nothing new. */
  lemma {:induction false} DraftsAreStored(w: World, st: State, plan: seq<Work>)
    requires !st.raised && forall i :: 0 <= i < |plan| ==> !IsRecord(plan[i])
    ensures Run(w, st, plan).summary.resolved == st.summary.resolved && !Run(w, st, plan).raised
    ensures forall i :: 0 <= i < |plan| ==> Stored(plan[i], Run(w, st, plan))
  {
    if plan != [] {
      var front, x := plan[..|plan| - 1], plan[|plan| - 1];
      DraftsAreStored(w, st, front);
      var mid := Run(w, st, front);
      StepStores(w, mid, x);
      AfterGrows(w, mid, x);
      hide Stored, After, Grew;
      forall i | 0 <= i < |plan| ensures Stored(plan[i], Run(w, st, plan)) {
        if i < |front| {
          assert plan[i] == front[i];
          StoredOn(plan[i], mid, Run(w, st, plan));
        }
      }
    }
  }

  lemma {:induction false} DraftIsWork(records: seq<Record>, i: nat, j: nat) returns (k: nat)
    requires i < |records| && j < |records[i].evidence|
    ensures k < |EvidenceWork(records)| && EvidenceWork(records)[k] == OneEvidence(records[i].evidence[j])
  {
    var front := records[..|records| - 1];
    if i < |front| {
      k := DraftIsWork(front, i, j);
    } else {
      k := |EvidenceWork(front)| + j;
    }
  }

  lemma {:induction false} NoRecordsInEvidence(records: seq<Record>)
    ensures forall k :: 0 <= k < |EvidenceWork(records)| ==> !IsRecord(EvidenceWork(records)[k])
  {
    if records != [] { NoRecordsInEvidence(records[..|records| - 1]); }
  }

  /** When ingestion does not raise, every evidence draft and every relationship whose refs
      resolved is in the tables, under the entities they resolved to. */
  lemma {:induction false} EveryDraftIsStored(w: World, t: Tables, b: Batch)
    requires b.records != [] && !Run(w, Start(t), Plan(b)).raised
    ensures var end := Run(w, Start(t), Plan(b));
            && (forall i, j :: 0 <= i < |b.records| && 0 <= j < |b.records[i].evidence| ==>
                  Stored(OneEvidence(b.records[i].evidence[j]), end))
            && (forall i :: 0 <= i < |b.relationships| ==> Stored(OneEdge(b.relationships[i]), end))
  {
    var st := Start(t);
    var head := EntityWork(b.records) + MessageWork(Deferred(b.records));
    var ev, ed := EvidenceWork(b.records), EdgeWork(b.relationships);
    var tail := ev + ed;
    assert Plan(b) == head + tail;
    RunAppend(w, st, head, tail);
    NeverRaised(w, Run(w, st, head), tail);
    NoRecordsInEvidence(b.records);
    assert forall i :: 0 <= i < |tail| ==> tail[i] == if i < |ev| then ev[i] else ed[i - |ev|];
    DraftsAreStored(w, Run(w, st, head), tail);
    var end := Run(w, st, Plan(b));
    hide Stored, Run, Plan;
    forall i, j | 0 <= i < |b.records| && 0 <= j < |b.records[i].evidence|
        ensures Stored(OneEvidence(b.records[i].evidence[j]), end) {
      var k := DraftIsWork(b.records, i, j);
      assert tail[k] == ev[k];
    }
    forall i | 0 <= i < |b.relationships| ensures Stored(OneEdge(b.relationships[i]), end) {
      assert tail[|ev| + i] == ed[i];
    }
  }

  /** The row of the record's key is there, and its settable columns hold something wherever
      the record had something for them. */
  ghost predicate Landed(w: World, t: Tables, rec: Record) {
    && rec.key.Some? && NaturalKey(rec.kind, rec.key.value) in t.entities
    && Covers(t.entities[NaturalKey(rec.kind, rec.key.value)].columns, Settable(w, rec.kind), rec.attributes)
  }

  lemma {:induction false} LandedOn(w: World, t: Tables, u: Tables, rec: Record)
    requires Landed(w, t, rec) && Grew(t, u)
    ensures Landed(w, u, rec)
  {
    hide MessagesGrew, EvidenceGrew, EdgesGrew;
    var k := NaturalKey(rec.kind, rec.key.value);
    CoversOn(t.entities[k].columns, u.entities[k].columns, Settable(w, rec.kind), rec.attributes);
    hide Covers;
  }

  lemma {:induction false} StoredLands(w: World, st: State, rec: Record)
    requires rec.key.Some? && !st.raised
    ensures Landed(w, AfterEntity(w, st, rec).tables, rec)
  {
    var st1 := StoredEntity(w, st, rec);
    StoredResolves(w, st, rec);
    var e := st1.summary.resolved[rec.ref];
    var st2 := Enriched(w, st1, e, rec, "bio");
    var st3 := Enriched(w, st2, e, rec, "description");
    var k := NaturalKey(rec.kind, rec.key.value);
    FilledCovers(if k in st.tables.entities then st.tables.entities[k].columns else map[], Settable(w, rec.kind),
        rec.attributes);
    hide Filled, Covers, Settable;
    assert Landed(w, st1.tables, rec);
    TextGrows(w, st1, e, rec, "bio");
    TextGrows(w, st2, e, rec, "description");
    hide StoredEntity, Enriched, Landed, Grew;
    LandedOn(w, st1.tables, st2.tables, rec);
    LandedOn(w, st2.tables, st3.tables, rec);
  }

  lemma {:induction false} EntityLands(w: World, st: State, records: seq<Record>, i: nat)
    requires i < |records| && !IsMessage(records[i]) && records[i].key.Some?
    requires !Run(w, st, EntityWork(records)).raised
    ensures Landed(w, Run(w, st, EntityWork(records)).tables, records[i])
  {
    hide Landed, Run, After, AfterEntity, EntityWork, Grew;
    var front, last := records[..|records| - 1], records[|records| - 1];
    var mid := Run(w, st, EntityWork(front));
    OneRecordMore(w, st, records);
    if i < |front| {
      EntityLands(w, st, front, i);
      assert records[i] == front[i];
      AfterGrows(w, mid, OneEntity(last));
      if !IsMessage(last) { LandedOn(w, mid.tables, After(w, mid, OneEntity(last)).tables, records[i]); }
    } else {
      StoredLands(w, mid, last);
    }
  }

  /** When ingestion does not raise, every entity record has landed. */
  lemma {:induction false} EveryEntityLands(w: World, t: Tables, b: Batch, i: nat)
    requires i < |b.records| && !IsMessage(b.records[i]) && b.records[i].key.Some?
    requires !Run(w, Start(t), Plan(b)).raised
    ensures Landed(w, Run(w, Start(t), Plan(b)).tables, b.records[i])
  {
    var st := Start(t);
    var head := EntityWork(b.records);
    var tail := MessageWork(Deferred(b.records)) + EvidenceWork(b.records) + EdgeWork(b.relationships);
    assert Plan(b) == head + tail;
    RunAppend(w, st, head, tail);
    NeverRaised(w, Run(w, st, head), tail);
    EntityLands(w, st, b.records, i);
    RunGrows(w, Run(w, st, head), tail);
    hide Run, Plan, Landed, Grew;
    LandedOn(w, Run(w, st, head).tables, Run(w, st, Plan(b)).tables, b.records[i]);
  }

  // ----- One text takes the batch down -----

  /** A batch with a group and a message in it whose text is a group of digits and two colons:
      ingestion raises, so there is no summary, and no evidence and no relationship of the
      batch is stored. */
  lemma {:induction false} OneTextRaisesAll(w: World, t: Tables, c: Record, m: Record, rels: seq<RelationshipDraft>,
                                            canonical: string, g: string)
    requires IsContainerKind(c.kind) && c.key.Some? && c.ref != "" && !RecordRaises(w, OneEntity(c))
    requires IsMessage(m) && m.number.Some? && m.containerRef == Some(c.ref)
    requires Ioc.Ipv6.IsGroup(g) && "text" in m.attributes && m.attributes["text"] == g + "::"
    requires w.scan(g + "::") ==
             ((kind: Ioc.IocType) => if kind == Ioc.IocType.Ipv6 then [Ioc.AddressHit(g + "::", 0, canonical)] else [])
    ensures Run(w, Start(t), Plan(Batch([c, m], rels))).raised
  {
    Ioc.GroupAndGapRaises(g, canonical);
    hide Ioc.Extracted;
    assert TextRaises(w, m, "text");
    TwoRecords(c, m, rels);
    var plan := Plan(Batch([c, m], rels));
    hide Plan, TextRaises, Run;
    assert plan[..1] == [OneEntity(c)];
    OneShape(c);
    assert Kept(ShapeOf(plan[..1]), plan[1]);
    assert RaisesAt(w, plan, 1);
    RaisesExactly(w, t, plan);
  }

  lemma OneShape(c: Record)
    requires c.key.Some?
    ensures ShapeOf([OneEntity(c)]) == map[c.ref := c.kind]
  {
    assert [OneEntity(c)][..0] == [];
    assert ShapeOf([]) == map[];
  }

  lemma {:induction false} TwoRecords(c: Record, m: Record, rels: seq<RelationshipDraft>)
    requires !IsMessage(c) && IsMessage(m)
    ensures var plan := Plan(Batch([c, m], rels)); |plan| >= 2 && plan[0] == OneEntity(c) && plan[1] == OneMessage(m)
  {
    assert [c, m][..1] == [c] && [c][..0] == [];
    assert EntityWork([c]) == EntityWork([]) + [OneEntity(c)] == [OneEntity(c)];
    assert EntityWork([c, m]) == EntityWork([c, m][..1]) == [OneEntity(c)];
    assert Deferred([c]) == Deferred([]) == [];
    assert Deferred([c, m]) == Deferred([c, m][..1]) + [m] == [m];
    assert MessageWork([m]) == [OneMessage(m)];
  }
}
