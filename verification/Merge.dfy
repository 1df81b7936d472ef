/** `merge_entities` of intelligence/entity_resolution/resolver.py: one entity absorbs
    another, by deleting and re-observing edges in the order the query returned them. */
module Merge {
  import opened Options
  import opened Relationships

  /** `body` stands for the columns a merge does not touch. */
  datatype Message = Message(source: Entity, messageId: int, author: Option<string>, body: string)

  /** `field` is nullable, and the unique constraint ignores rows whose field is null. */
  datatype Evidence = Evidence(entity: Entity, field: Option<string>, source: string, contentHash: string, body: string)

  type Messages = map<string, Message>
  type EvidenceRows = map<string, Evidence>

  datatype MergeResult = MergeResult(relationships: nat, messages: nat, evidence: nat)

  datatype Result = Merged(counts: MergeResult) | ValueError | IntegrityError

  // ----- The quotient, on edges -----

  predicate Touches(k: EdgeKey, drop: Entity) { k.source == drop || k.target == drop }

  function Renamed(k: EdgeKey, keep: Entity, drop: Entity): EdgeKey {
    EdgeKey(if k.source == drop then keep else k.source, if k.target == drop then keep else k.target, k.relType)
  }

  predicate IsLoop(k: EdgeKey) { k.source == k.target }

  function Touched(edges: Edges, drop: Entity): set<EdgeKey> { set k | k in edges && Touches(k, drop) }

  /** The touched rows that become the edge `k`. */
  function Preimages(done: set<EdgeKey>, keep: Entity, drop: Entity, k: EdgeKey): set<EdgeKey> {
    set j | j in done && Renamed(j, keep, drop) == k && !IsLoop(k)
  }

  /** The keys the touched rows are re-observed under; new self-loops vanish. */
  function Images(done: set<EdgeKey>, keep: Entity, drop: Entity): set<EdgeKey> {
    set j | j in done && !IsLoop(Renamed(j, keep, drop)) :: Renamed(j, keep, drop)
  }

  ghost predicate IsBest(edges: Edges, pre: set<EdgeKey>, k: EdgeKey, best: int)
    requires pre <= edges.Keys
  {
    && (k in edges ==> edges[k].confidence <= best)
    && (forall j :: j in pre ==> edges[j].confidence <= best)
    && ((k in edges && edges[k].confidence == best) || exists j :: j in pre && edges[j].confidence == best)
  }

  /** The edge at `k` once the touched rows of `done` have been re-observed at `now`: an
      untouched row keeps its first sighting and evidence; each preimage counts once; the
      confidence is the highest of all. */
  ghost predicate Combines(edges: Edges, pre: set<EdgeKey>, k: EdgeKey, e: Edge, now: int)
    requires pre <= edges.Keys
  {
    && e.observations == (if k in edges then edges[k].observations else 0) + |pre|
    && IsBest(edges, pre, k, e.confidence)
    && e.firstSeen == (if k in edges then edges[k].firstSeen else now)
    && e.lastSeen == (if pre != {} || k !in edges then now else edges[k].lastSeen)
    && e.evidence == (if k in edges then edges[k].evidence else None)
  }

  ghost predicate Partly(edges: Edges, done: set<EdgeKey>, keep: Entity, drop: Entity, now: int, edges': Edges)
    requires done <= edges.Keys
  {
    && edges'.Keys == (edges.Keys - done) + Images(done, keep, drop)
    && forall k :: k in edges' ==> EntryOk(edges, done, keep, drop, now, edges', k)
  }

  /** The graph with `drop` identified with `keep`. */
  ghost predicate IsQuotient(edges: Edges, keep: Entity, drop: Entity, now: int, edges': Edges) {
    Partly(edges, Touched(edges, drop), keep, drop, now, edges')
  }

  /** Confidences respect the table's check constraint. */
  ghost predicate InRange(edges: Edges) {
    forall k :: k in edges ==> CONFIDENCE_MIN <= edges[k].confidence <= CONFIDENCE_MAX
  }

  /** One iteration of the loop over the touched rows. */
  function Repointed(edges: Edges, k: EdgeKey, keep: Entity, drop: Entity, now: int): Edges
    requires k in edges
  {
    var k' := Renamed(k, keep, drop);
    if IsLoop(k') then edges - {k} else Observed(edges - {k}, k', edges[k].confidence, None, now)
  }

  lemma {:induction false} RepointedKeys(edges: Edges, done: set<EdgeKey>, keep: Entity, drop: Entity, now: int,
                                         edges': Edges, r: EdgeKey)
    requires keep != drop && done <= Touched(edges, drop) && r in Touched(edges, drop) - done
    requires edges'.Keys == (edges.Keys - done) + Images(done, keep, drop)
    ensures r in edges'
    ensures Repointed(edges', r, keep, drop, now).Keys == (edges.Keys - (done + {r})) + Images(done + {r}, keep, drop)
  {
    var r' := Renamed(r, keep, drop);
    assert forall k :: k in Images(done, keep, drop) ==> !Touches(k, drop);
    assert Images(done + {r}, keep, drop) == Images(done, keep, drop) + if IsLoop(r') then {} else {r'};
  }

  lemma {:induction false} CombineOne(edges: Edges, pre: set<EdgeKey>, k: EdgeKey, edges': Edges, r: EdgeKey, now: int)
    requires pre <= edges.Keys && r in edges && r !in pre && r != k && InRange(edges)
    requires k in edges' ==> Combines(edges, pre, k, edges'[k], now)
    requires k !in edges' ==> pre == {} && k !in edges
    ensures Combines(edges, pre + {r}, k, Observed(edges', k, edges[r].confidence, None, now)[k], now)
  {
    assert |pre + {r}| == |pre| + 1;
    var c := edges[r].confidence;
    if k in edges' && c < edges'[k].confidence && !(k in edges && edges[k].confidence == edges'[k].confidence) {
      var j :| j in pre && edges[j].confidence == edges'[k].confidence;
      assert j in pre + {r};
    }
    assert r in pre + {r};
  }

  ghost predicate EntryOk(edges: Edges, done: set<EdgeKey>, keep: Entity, drop: Entity, now: int, edges': Edges,
                          k: EdgeKey)
    requires done <= edges.Keys && k in edges'
  {
    if k in edges && Touches(k, drop) then edges'[k] == edges[k]
    else Combines(edges, Preimages(done, keep, drop, k), k, edges'[k], now)
  }

  lemma {:induction false} RepointKeepsAt(edges: Edges, done: set<EdgeKey>, keep: Entity, drop: Entity, now: int,
                                          edges': Edges, r: EdgeKey, k: EdgeKey)
    requires keep != drop && InRange(edges) && done <= Touched(edges, drop) && r in Touched(edges, drop) - done
    requires r in edges' && edges'[r] == edges[r] && k in Repointed(edges', r, keep, drop, now)
    requires k in edges' ==> EntryOk(edges, done, keep, drop, now, edges', k)
    requires k !in edges' ==> Preimages(done, keep, drop, k) == {} && k !in edges
    ensures EntryOk(edges, done + {r}, keep, drop, now, Repointed(edges', r, keep, drop, now), k)
  {
    hide Combines, InRange;
    var r', after := Renamed(r, keep, drop), Repointed(edges', r, keep, drop, now);
    if k in edges && Touches(k, drop) {
      assert k != r' && after[k] == edges'[k];
    } else if k == r' && !IsLoop(r') {
      assert Preimages(done + {r}, keep, drop, k) == Preimages(done, keep, drop, k) + {r};
      CombineOne(edges, Preimages(done, keep, drop, k), k, edges' - {r}, r, now);
    } else {
      assert Preimages(done + {r}, keep, drop, k) == Preimages(done, keep, drop, k);
      assert after[k] == edges'[k];
    }
  }

  /** One iteration re-observes one more touched row. */
  lemma {:induction false} RepointKeeps(edges: Edges, done: set<EdgeKey>, keep: Entity, drop: Entity, now: int,
                                        edges': Edges, r: EdgeKey)
    requires keep != drop && InRange(edges) && done <= Touched(edges, drop) && r in Touched(edges, drop) - done
    requires Partly(edges, done, keep, drop, now, edges')
    ensures r in edges' && Partly(edges, done + {r}, keep, drop, now, Repointed(edges', r, keep, drop, now))
  {
    RepointedKeys(edges, done, keep, drop, now, edges', r);
    var after := Repointed(edges', r, keep, drop, now);
    hide Combines, InRange, Repointed;
    forall k | k in after ensures EntryOk(edges, done + {r}, keep, drop, now, after, k) {
      RepointKeepsAt(edges, done, keep, drop, now, edges', r, k);
    }
  }

  /** The quotient is determined: whatever order the rows came in, the edges are the same. */
  lemma {:induction false} QuotientIsUnique(edges: Edges, keep: Entity, drop: Entity, now: int, a: Edges, b: Edges)
    requires IsQuotient(edges, keep, drop, now, a) && IsQuotient(edges, keep, drop, now, b)
    requires keep != drop
    ensures a == b
  {
    assert a.Keys == b.Keys;
    forall k | k in a ensures a[k] == b[k] {
      assert EntryOk(edges, Touched(edges, drop), keep, drop, now, a, k);
      assert EntryOk(edges, Touched(edges, drop), keep, drop, now, b, k);
      if !(k in edges && Touches(k, drop)) {
        var pre := Preimages(Touched(edges, drop), keep, drop, k);
        assert Combines(edges, pre, k, a[k], now) && Combines(edges, pre, k, b[k], now);
      }
    }
  }

  /** The edges of the quotient are the old edges renamed, without the self-loops that the
      renaming makes; none touches the dropped entity. */
  lemma {:induction false} QuotientEdges(edges: Edges, keep: Entity, drop: Entity, now: int, edges': Edges)
    requires keep != drop && IsQuotient(edges, keep, drop, now, edges')
    ensures forall k :: k in edges' ==> !Touches(k, drop)
    ensures forall j :: j in edges ==>
              (Renamed(j, keep, drop) in edges' <==>
                 !IsLoop(Renamed(j, keep, drop)) || Renamed(j, keep, drop) in edges.Keys - Touched(edges, drop))
    ensures forall k :: k in edges' ==> exists j :: j in edges && Renamed(j, keep, drop) == k
  {
    forall k | k in edges' ensures !Touches(k, drop) && exists j :: j in edges && Renamed(j, keep, drop) == k {
      if k in edges && !Touches(k, drop) { assert Renamed(k, keep, drop) == k; }
    }
    forall j | j in edges
      ensures Renamed(j, keep, drop) in edges' <==>
                (!IsLoop(Renamed(j, keep, drop)) || Renamed(j, keep, drop) in edges.Keys - Touched(edges, drop))
    {
      if !Touches(j, drop) { assert Renamed(j, keep, drop) == j; }
    }
  }

  /** The touched rows that become the edge `k`, written out. */
  ghost function Merging(edges: Edges, keep: Entity, drop: Entity, k: EdgeKey): set<EdgeKey> {
    set j | j in edges && (j.source == drop || j.target == drop) && k.source != k.target && k.relType == j.relType
            && k.source == (if j.source == drop then keep else j.source)
            && k.target == (if j.target == drop then keep else j.target)
  }

  /** The merged graph, written out: the edges away from the dropped entity, and those of the
      dropped entity at the kept one in the same direction and of the same type, without
      self-loops; each combines the rows that became it. */
  ghost predicate IsMerged(edges: Edges, keep: Entity, drop: Entity, now: int, edges': Edges) {
    && (forall k :: k in edges' <==>
          (k.source != drop && k.target != drop && (k in edges || Merging(edges, keep, drop, k) != {})))
    && (forall k :: k in edges' ==> Combines(edges, Merging(edges, keep, drop, k), k, edges'[k], now))
  }

  lemma {:induction false} QuotientIsMerged(edges: Edges, keep: Entity, drop: Entity, now: int, edges': Edges)
    requires keep != drop && IsQuotient(edges, keep, drop, now, edges')
    ensures IsMerged(edges, keep, drop, now, edges')
  {
    var done := Touched(edges, drop);
    hide Combines;
    forall k ensures Preimages(done, keep, drop, k) == Merging(edges, keep, drop, k) {
      PreimagesWritten(edges, keep, drop, k);
    }
    forall k ensures k in edges' <==>
        (k.source != drop && k.target != drop && (k in edges || Merging(edges, keep, drop, k) != {}))
    {
      ImageHasPreimage(edges, keep, drop, k);
    }
    hide Preimages, Merging;
    forall k | k in edges' ensures Combines(edges, Merging(edges, keep, drop, k), k, edges'[k], now) {
      assert EntryOk(edges, done, keep, drop, now, edges', k);
    }
  }

  lemma {:induction false} PreimagesWritten(edges: Edges, keep: Entity, drop: Entity, k: EdgeKey)
    ensures Preimages(Touched(edges, drop), keep, drop, k) == Merging(edges, keep, drop, k)
  {
    forall j ensures j in Preimages(Touched(edges, drop), keep, drop, k) <==> j in Merging(edges, keep, drop, k) {
      var r := Renamed(j, keep, drop);
      assert r == k <==> r.source == k.source && r.target == k.target && r.relType == k.relType;
      assert j in Touched(edges, drop) <==> j in edges && (j.source == drop || j.target == drop);
    }
  }

  lemma {:induction false} ImageHasPreimage(edges: Edges, keep: Entity, drop: Entity, k: EdgeKey)
    requires keep != drop
    ensures k in Images(Touched(edges, drop), keep, drop) <==> Merging(edges, keep, drop, k) != {}
    ensures Merging(edges, keep, drop, k) != {} ==> k.source != drop && k.target != drop
  {
    var image := k in Images(Touched(edges, drop), keep, drop);
    if j :| j in Merging(edges, keep, drop, k) {
      assert j in Touched(edges, drop) && Renamed(j, keep, drop) == k && !IsLoop(k);
      assert image;
    }
    if image {
      var j :| j in Touched(edges, drop) && !IsLoop(Renamed(j, keep, drop)) && Renamed(j, keep, drop) == k;
      assert j in Merging(edges, keep, drop, k);
    }
  }

  // ----- Messages and evidence -----

  function MovedEntity(e: Entity, keep: Entity, drop: Entity): Entity { if e == drop then keep else e }

  function MovedAuthor(a: Option<string>, keep: Entity, drop: Entity): Option<string> {
    if a == Some(drop.id) then Some(keep.id) else a
  }

  function MovedMessages(ms: Messages, keep: Entity, drop: Entity): Messages {
    map i | i in ms :: ms[i].(source := MovedEntity(ms[i].source, keep, drop),
        author := MovedAuthor(ms[i].author, keep, drop))
  }

  function MovedEvidence(es: EvidenceRows, keep: Entity, drop: Entity): EvidenceRows {
    map i | i in es :: es[i].(entity := MovedEntity(es[i].entity, keep, drop))
  }

  /** The table's unique constraint on (source, message id). */
  predicate UniqueMessages(ms: Messages) {
    forall i, j | i in ms && j in ms :: i != j ==> ms[i].source != ms[j].source || ms[i].messageId != ms[j].messageId
  }

  predicate SameObservation(a: Evidence, b: Evidence) {
    a.field.Some? && a.field == b.field && a.source == b.source && a.contentHash == b.contentHash
  }

  /** The table's unique constraint on (entity, field, source, content hash). */
  predicate UniqueEvidence(es: EvidenceRows) {
    forall i, j | i in es && j in es :: i != j ==> es[i].entity != es[j].entity || !SameObservation(es[i], es[j])
  }

  /** Two messages, one of each entity, share a message id. */
  ghost predicate MessagesCollide(ms: Messages, keep: Entity, drop: Entity) {
    exists i, j :: i in ms && j in ms && ms[i].source == keep && ms[j].source == drop &&
        ms[i].messageId == ms[j].messageId
  }

  ghost predicate EvidenceCollides(es: EvidenceRows, keep: Entity, drop: Entity) {
    exists i, j :: (i in es && j in es && es[i].entity == keep && es[j].entity == drop && es[i].field.Some?
                    && es[i].field == es[j].field && es[i].source == es[j].source
                    && es[i].contentHash == es[j].contentHash)
  }

  /** A merge breaks the messages' unique constraint exactly when the two entities share a message id. */
  lemma {:induction false} MessagesStayUnique(ms: Messages, keep: Entity, drop: Entity)
    requires keep != drop && UniqueMessages(ms)
    ensures UniqueMessages(MovedMessages(ms, keep, drop)) <==> !MessagesCollide(ms, keep, drop)
  {
    var moved := MovedMessages(ms, keep, drop);
    if i, j :| (i in ms && j in ms && ms[i].source == keep && ms[j].source == drop
                && ms[i].messageId == ms[j].messageId) {
      assert moved[i].source == moved[j].source && moved[i].messageId == moved[j].messageId;
      assert i in moved && j in moved && i != j;
    } else {
      forall i, j | i in moved && j in moved && i != j
        ensures moved[i].source != moved[j].source || moved[i].messageId != moved[j].messageId
      {
        assert ms[i].source != ms[j].source || ms[i].messageId != ms[j].messageId;
      }
    }
  }

  /** A merge breaks the evidence's unique constraint exactly when both entities carry the
      same observation. */
  lemma {:induction false} EvidenceStaysUnique(es: EvidenceRows, keep: Entity, drop: Entity)
    requires keep != drop && UniqueEvidence(es)
    ensures UniqueEvidence(MovedEvidence(es, keep, drop)) <==> !EvidenceCollides(es, keep, drop)
  {
    var moved := MovedEvidence(es, keep, drop);
    if i, j :| i in es && j in es && es[i].entity == keep && es[j].entity == drop && SameObservation(es[i], es[j]) {
      assert moved[i].entity == moved[j].entity && SameObservation(moved[i], moved[j]);
      assert i in moved && j in moved && i != j;
    } else {
      forall i, j | i in moved && j in moved && i != j
        ensures moved[i].entity != moved[j].entity || !SameObservation(moved[i], moved[j])
      {
        assert es[i].entity != es[j].entity || !SameObservation(es[i], es[j]);
      }
    }
  }

  // ----- The merge -----

  /** The order in which the query returned the touched rows. */
  ghost predicate Enumerates(order: seq<EdgeKey>, touched: set<EdgeKey>) {
    (forall k :: k in order <==> k in touched) && forall i, j :: 0 <= i < j < |order| ==> order[i] != order[j]
  }

  lemma {:induction false} OrderSize(order: seq<EdgeKey>, touched: set<EdgeKey>)
    requires Enumerates(order, touched)
    ensures |order| == |touched|
  {
    if order == [] {
      assert touched == {};
    } else {
      var front, last := order[..|order| - 1], order[|order| - 1];
      assert order == front + [last];
      assert forall k :: k in front <==> k in touched && k != last;
      OrderSize(front, touched - {last});
    }
  }

  /** The messages after a merge, written out: sources and authors that were the dropped entity
      are the kept one, and all else is unchanged. */
  ghost predicate MessagesRepointed(before: Messages, after: Messages, keep: Entity, drop: Entity) {
    && after.Keys == before.Keys
    && forall i :: i in before ==>
         && after[i].source == (if before[i].source == drop then keep else before[i].source)
         && after[i].author == (if before[i].author == Some(drop.id) then Some(keep.id) else before[i].author)
         && after[i].messageId == before[i].messageId && after[i].body == before[i].body
  }

  ghost predicate EvidenceRepointed(before: EvidenceRows, after: EvidenceRows, keep: Entity, drop: Entity) {
    && after.Keys == before.Keys
    && forall i :: i in before ==>
         && after[i].entity == (if before[i].entity == drop then keep else before[i].entity)
         && after[i].field == before[i].field && after[i].source == before[i].source
         && after[i].contentHash == before[i].contentHash && after[i].body == before[i].body
  }

  /** What the result counts: the rows that named the dropped entity; a message that it both
      holds and wrote counts twice. */
  ghost predicate Counted(counts: MergeResult, edges: Edges, ms: Messages, es: EvidenceRows, drop: Entity) {
    && counts.relationships == |set k | k in edges && (k.source == drop || k.target == drop)|
    && counts.messages == |set i | i in ms && ms[i].source == drop| + |set i | i in ms && ms[i].author == Some(drop.id)|
    && counts.evidence == |set i | i in es && es[i].entity == drop|
  }

  lemma MoveWritten(ms: Messages, es: EvidenceRows, keep: Entity, drop: Entity)
    ensures keep.kind == drop.kind ==> MessagesRepointed(ms, MovedMessages(ms, keep, drop), keep, drop)
    ensures EvidenceRepointed(es, MovedEvidence(es, keep, drop), keep, drop)
  {
  }

  lemma CountsWritten(edges: Edges, ms: Messages, es: EvidenceRows, drop: Entity, n: nat)
    ensures n == |Touched(edges, drop)| ==>
              Counted(MergeResult(n, SourcedBy(ms, drop) + AuthoredBy(ms, drop), EvidenceOf(es, drop)),
                      edges, ms, es, drop)
  {
    assert Touched(edges, drop) == set k | k in edges && (k.source == drop || k.target == drop);
  }

  /** No two messages of one entity share a message id. */
  ghost predicate MessagesDiffer(ms: Messages) {
    forall i, j :: i in ms && j in ms && ms[i].source == ms[j].source && ms[i].messageId == ms[j].messageId ==> i == j
  }

  /** No two rows on one field of an entity have the same source and content. */
  ghost predicate EvidenceDiffers(es: EvidenceRows) {
    forall i, j :: (i in es && j in es && es[i].entity == es[j].entity && es[i].field.Some?
                    && es[i].field == es[j].field && es[i].source == es[j].source
                    && es[i].contentHash == es[j].contentHash) ==> i == j
  }

  lemma {:induction false} ConstraintsWritten(ms: Messages, es: EvidenceRows)
    ensures UniqueMessages(ms) <==> MessagesDiffer(ms)
    ensures UniqueEvidence(es) <==> EvidenceDiffers(es)
  {
    if UniqueEvidence(es) {
      forall i, j | i in es && j in es && es[i].entity == es[j].entity && es[i].field.Some?
          && es[i].field == es[j].field && es[i].source == es[j].source && es[i].contentHash == es[j].contentHash
        ensures i == j
      {
        assert SameObservation(es[i], es[j]);
      }
    }
  }

  class Store {
    const relationships: RelationshipRepository
    var messages: Messages
    var evidence: EvidenceRows

    constructor (relationships: RelationshipRepository)
      ensures this.relationships == relationships
    {
      this.relationships, messages, evidence := relationships, map[], map[];
    }

    /** The loop over the touched rows. */
    method RepointEdges(keep: Entity, drop: Entity, order: seq<EdgeKey>, now: int)
      requires keep != drop && InRange(relationships.edges) && Enumerates(order, Touched(relationships.edges, drop))
      modifies relationships
      ensures IsQuotient(old(relationships.edges), keep, drop, now, relationships.edges)
      ensures IsMerged(old(relationships.edges), keep, drop, now, relationships.edges)
    {
      hide Partly, InRange;
      ghost var edges := relationships.edges;
      ghost var done: set<EdgeKey> := {};
      assert Partly(edges, done, keep, drop, now, edges) by { NothingDone(edges, keep, drop, now); }
      for i := 0 to |order|
        invariant done == set k | k in order[..i]
        invariant done <= Touched(edges, drop) && Partly(edges, done, keep, drop, now, relationships.edges)
      {
        var rel := order[i];
        RepointKeeps(edges, done, keep, drop, now, relationships.edges, rel);
        var confidence := relationships.edges[rel].confidence;
        var key := Renamed(rel, keep, drop);
        relationships.Delete(rel);
        if !IsLoop(key) {
          var _ := relationships.Observe(key, confidence, None, now);
        }
        done := done + {rel};
      }
      assert done == Touched(edges, drop);
      QuotientIsMerged(edges, keep, drop, now, relationships.edges);
    }

    /** `merge_entities`.  When a unique constraint breaks, the database raises and the
        caller's session scope restores everything. */
    method MergeEntities(keep: Entity, drop: Entity, order: seq<EdgeKey>, now: int) returns (r: Result)
      requires InRange(relationships.edges) && Enumerates(order, Touched(relationships.edges, drop))
      modifies this, relationships
      ensures r == ValueError <==> keep.kind != drop.kind || keep.id == drop.id
      ensures r == IntegrityError <==>
                (keep.kind == drop.kind && keep.id != drop.id
                 && (!UniqueMessages(MovedMessages(old(messages), keep, drop))
                     || !UniqueEvidence(MovedEvidence(old(evidence), keep, drop))))
      ensures !r.Merged? ==>
                relationships.edges == old(relationships.edges) && messages == old(messages) &&
                    evidence == old(evidence)
      ensures r.Merged? ==>
                && IsQuotient(old(relationships.edges), keep, drop, now, relationships.edges)
                && messages == MovedMessages(old(messages), keep, drop)
                && evidence == MovedEvidence(old(evidence), keep, drop)
                && r.counts == MergeResult(|order|, SourcedBy(old(messages), drop) + AuthoredBy(old(messages), drop),
                                           EvidenceOf(old(evidence), drop))
      ensures r.Merged? ==>
                && IsMerged(old(relationships.edges), keep, drop, now, relationships.edges)
                && MessagesRepointed(old(messages), messages, keep, drop)
                && EvidenceRepointed(old(evidence), evidence, keep, drop)
                && Counted(r.counts, old(relationships.edges), old(messages), old(evidence), drop)
      ensures MessagesDiffer(old(messages)) && EvidenceDiffers(old(evidence)) ==>
                (r == IntegrityError <==>
                  (keep.kind == drop.kind && keep.id != drop.id
                   && (MessagesCollide(old(messages), keep, drop) || EvidenceCollides(old(evidence), keep, drop))))
    {
      hide MessagesRepointed, EvidenceRepointed, Counted, IsMerged, IsQuotient, MovedMessages, MovedEvidence;
      hide SourcedBy, AuthoredBy, EvidenceOf, MessagesCollide, EvidenceCollides;
      hide UniqueMessages, UniqueEvidence, MessagesDiffer, EvidenceDiffers, InRange, Enumerates, Touched;
      if keep.kind != drop.kind || keep.id == drop.id { return ValueError; }
      MoveWritten(messages, evidence, keep, drop);
      CountsWritten(relationships.edges, messages, evidence, drop, |order|);
      ConstraintsWritten(messages, evidence);
      if UniqueMessages(messages) { MessagesStayUnique(messages, keep, drop); }
      if UniqueEvidence(evidence) { EvidenceStaysUnique(evidence, keep, drop); }
      OrderSize(order, Touched(relationships.edges, drop));
      var before := relationships.edges;
      RepointEdges(keep, drop, order, now);
      var messages', evidence' := MovedMessages(messages, keep, drop), MovedEvidence(evidence, keep, drop);
      if !UniqueMessages(messages') || !UniqueEvidence(evidence') {
        relationships.edges := before;
        return IntegrityError;
      }
      r := Merged(MergeResult(|order|, SourcedBy(messages, drop) + AuthoredBy(messages, drop),
          EvidenceOf(evidence, drop)));
      messages, evidence := messages', evidence';
    }
  }

  function SourcedBy(ms: Messages, drop: Entity): nat { |set i | i in ms && ms[i].source == drop| }

  function AuthoredBy(ms: Messages, drop: Entity): nat { |set i | i in ms && ms[i].author == Some(drop.id)| }

  function EvidenceOf(es: EvidenceRows, drop: Entity): nat { |set i | i in es && es[i].entity == drop| }

  lemma {:induction false} NothingDone(edges: Edges, keep: Entity, drop: Entity, now: int)
    ensures Partly(edges, {}, keep, drop, now, edges)
  {
    forall k | k in edges ensures EntryOk(edges, {}, keep, drop, now, edges, k) {
      assert Preimages({}, keep, drop, k) == {};
    }
  }

  /** After a merge no message and no evidence row names the dropped entity; every evidence
      row is still there, with everything but its entity unchanged. */
  lemma {:induction false} NothingNamesDropped(ms: Messages, es: EvidenceRows, keep: Entity, drop: Entity)
    requires keep.kind == drop.kind && keep.id != drop.id
    ensures SourcedBy(MovedMessages(ms, keep, drop), drop) == 0 && AuthoredBy(MovedMessages(ms, keep, drop), drop) == 0
    ensures EvidenceOf(MovedEvidence(es, keep, drop), drop) == 0
    ensures MovedEvidence(es, keep, drop).Keys == es.Keys && MovedMessages(ms, keep, drop).Keys == ms.Keys
    ensures forall i :: i in es ==> MovedEvidence(es, keep, drop)[i].(entity := es[i].entity) == es[i]
    ensures EvidenceOf(MovedEvidence(es, keep, drop), keep) == EvidenceOf(es, keep) + EvidenceOf(es, drop)
    ensures AuthoredBy(MovedMessages(ms, keep, drop), keep) == AuthoredBy(ms, keep) + AuthoredBy(ms, drop)
    ensures SourcedBy(MovedMessages(ms, keep, drop), keep) == SourcedBy(ms, keep) + SourcedBy(ms, drop)
  {
    MessagesConserved(ms, keep, drop);
    var ms', es' := MovedMessages(ms, keep, drop), MovedEvidence(es, keep, drop);
    assert (set i | i in ms' && ms'[i].source == drop) == {};
    assert (set i | i in ms' && ms'[i].author == Some(drop.id)) == {};
    assert (set i | i in es' && es'[i].entity == drop) == {};
    var a, b := set i | i in es && es[i].entity == keep, set i | i in es && es[i].entity == drop;
    assert (set i | i in es' && es'[i].entity == keep) == a + b;
    assert a * b == {};
  }

  lemma {:induction false} MessagesConserved(ms: Messages, keep: Entity, drop: Entity)
    requires keep.kind == drop.kind && keep.id != drop.id
    ensures AuthoredBy(MovedMessages(ms, keep, drop), keep) == AuthoredBy(ms, keep) + AuthoredBy(ms, drop)
    ensures SourcedBy(MovedMessages(ms, keep, drop), keep) == SourcedBy(ms, keep) + SourcedBy(ms, drop)
  {
    var ms' := MovedMessages(ms, keep, drop);
    var a, b := set i | i in ms && ms[i].author == Some(keep.id), set i | i in ms && ms[i].author == Some(drop.id);
    assert (set i | i in ms' && ms'[i].author == Some(keep.id)) == a + b && a * b == {};
    var c, d := set i | i in ms && ms[i].source == keep, set i | i in ms && ms[i].source == drop;
    assert (set i | i in ms' && ms'[i].source == keep) == c + d && c * d == {};
  }
}
