/** The relationship table of database/repositories/relationships.py: one row per
    (source, target, type), bumped on every later observation. */
module Relationships {
  import opened Options

  datatype Entity = Entity(kind: string, id: string)

  datatype EdgeKey = EdgeKey(source: Entity, target: Entity, relType: string)

  datatype Edge = Edge(confidence: int, observations: nat, firstSeen: int, lastSeen: int, evidence: Option<string>)

  type Edges = map<EdgeKey, Edge>

  const CONFIDENCE_MIN := 0
  const CONFIDENCE_MAX := 100

  function Clamp(c: int): int {
    if c < CONFIDENCE_MIN then CONFIDENCE_MIN else if c > CONFIDENCE_MAX then CONFIDENCE_MAX else c
  }

  function Max(a: int, b: int): int { if a < b then b else a }

  predicate Given(e: Option<string>) { e.Some? && e.value != "" }

  /** `observe` on the rows. */
  function Observed(edges: Edges, key: EdgeKey, confidence: int, evidence: Option<string>, now: int): Edges {
    if key !in edges then edges[key := Edge(Clamp(confidence), 1, now, now, evidence)]
    else
      var e := edges[key];
      edges[key := Edge(Max(e.confidence, Clamp(confidence)), e.observations + 1, e.firstSeen, now,
                        if Given(evidence) && !Given(e.evidence) then evidence else e.evidence)]
  }

  class RelationshipRepository {
    var edges: Edges

    constructor ()
      ensures edges == map[]
    {
      edges := map[];
    }

    method Observe(key: EdgeKey, confidence: int, evidence: Option<string>, now: int) returns (created: bool)
      modifies this
      ensures edges == Observed(old(edges), key, confidence, evidence, now)
      ensures created <==> key !in old(edges)
      ensures edges.Keys == old(edges).Keys + {key} && forall k :: k in old(edges) && k != key ==>
              edges[k] == old(edges)[k]
      ensures var c := if confidence < 0 then 0 else if confidence > 100 then 100 else confidence;
              edges[key] ==
              if key !in old(edges) then Edge(c, 1, now, now, evidence)
              else
                var e := old(edges)[key];
                Edge(if e.confidence < c then c else e.confidence, e.observations + 1, e.firstSeen, now,
                     if e.evidence.Some? && e.evidence.value != "" then e.evidence
                     else if evidence.Some? && evidence.value != "" then evidence else e.evidence)
    {
      var c := Clamp(confidence);
      created := key !in edges;
      if created {
        edges := edges[key := Edge(c, 1, now, now, evidence)];
        return;
      }
      var edge := edges[key];
      edge := edge.(lastSeen := now, observations := edge.observations + 1, confidence := Max(edge.confidence, c));
      if Given(evidence) && !Given(edge.evidence) { edge := edge.(evidence := evidence); }
      edges := edges[key := edge];
    }

    method Delete(key: EdgeKey)
      modifies this
      ensures edges == old(edges) - {key}
    {
      edges := edges - {key};
    }
  }

  // ----- An edge is the fold of its observations -----

  datatype Observation = Observation(key: EdgeKey, confidence: int, evidence: Option<string>, at: int)

  function Replay(log: seq<Observation>): Edges {
    if log == [] then map[]
    else
      var o := log[|log| - 1];
      Observed(Replay(log[..|log| - 1]), o.key, o.confidence, o.evidence, o.at)
  }

  /** The observations of one key, in order. */
  function About(log: seq<Observation>, key: EdgeKey): seq<Observation> {
    if log == [] then []
    else
      var rest := About(log[..|log| - 1], key);
      if log[|log| - 1].key == key then rest + [log[|log| - 1]] else rest
  }

  ghost predicate Summarises(e: Edge, obs: seq<Observation>) {
    && obs != []
    && e.observations == |obs|
    && e.firstSeen == obs[0].at && e.lastSeen == obs[|obs| - 1].at
    && (forall o :: o in obs ==> Clamp(o.confidence) <= e.confidence)
    && (exists o :: o in obs && Clamp(o.confidence) == e.confidence)
  }

  /** Over every sequence of observations: an edge exists exactly when it was observed; it
      counts its observations, keeps the highest confidence and the first and last times. */
  lemma {:induction false} EdgeIsFold(log: seq<Observation>, key: EdgeKey)
    ensures key in Replay(log) <==> About(log, key) != []
    ensures key in Replay(log) ==> Summarises(Replay(log)[key], About(log, key))
  {
    if log != [] {
      var front, o := log[..|log| - 1], log[|log| - 1];
      EdgeIsFold(front, key);
      if o.key == key {
        FoldOne(Replay(front), About(front, key), o);
      }
    }
  }

  lemma {:induction false} FoldOne(edges: Edges, obs: seq<Observation>, o: Observation)
    requires o.key in edges <==> obs != []
    requires o.key in edges ==> Summarises(edges[o.key], obs)
    ensures Summarises(Observed(edges, o.key, o.confidence, o.evidence, o.at)[o.key], obs + [o])
  {
    var e := Observed(edges, o.key, o.confidence, o.evidence, o.at)[o.key];
    assert o in obs + [o];
    if o.key in edges && Clamp(o.confidence) < edges[o.key].confidence {
      var best :| best in obs && Clamp(best.confidence) == edges[o.key].confidence;
      assert best in obs + [o];
    }
  }
}
