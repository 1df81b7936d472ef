/** The bounded breadth-first neighbourhood view of intelligence/relationships/graph.py.
    `Listing` stands for `_edges_for`: the relationship rows listed at a node, in the
    order the query returns them.  A row cut off at one end by the query's row limit may
    still be listed at the other, so hops are directed: from a node over the rows listed
    there. */
module Graph {

  datatype Node = Node(entityType: string, entityId: string) {
    function Ref(): string { entityType + ":" + entityId }
  }

  datatype Rel = Rel(source: Node, target: Node, relType: string,
                     confidence: int, observations: int, firstSeen: string, lastSeen: string) {
    function Key(): (Node, Node, string) { (source, target, relType) }
  }

  datatype GraphNode = GraphNode(node: Node, caption: string)

  datatype GraphEdge = GraphEdge(source: string, target: string, relType: string,
                                 confidence: int, observations: int, firstSeen: string, lastSeen: string)

  datatype GraphView = GraphView(root: string, nodes: seq<GraphNode>, edges: seq<GraphEdge>, truncated: bool)

  datatype Entry = Entry(node: Node, hop: nat)

  type Listing = Node -> seq<Rel>

  const MAX_DEPTH := 3

  function Other(n: Node, r: Rel): Node {
    if r.source == n then r.target else r.source
  }

  function ToEdge(r: Rel): GraphEdge {
    GraphEdge(r.source.Ref(), r.target.Ref(), r.relType, r.confidence, r.observations, r.firstSeen, r.lastSeen)
  }

  /** Every row listed at a node touches that node, which is the query's own filter. */
  ghost predicate Incident(adj: Listing) {
    forall n, r :: r in adj(n) ==> r.source == n || r.target == n
  }

  // ----- Distance: the balls around the seeds, and paths as an independent reading -----

  function Seeds(seeds: seq<Node>): set<Node> { set s | s in seeds }

  ghost function Step(ball: set<Node>, adj: Listing): set<Node> {
    set m, r | m in ball && r in adj(m) :: Other(m, r)
  }

  ghost function Ball(seeds: seq<Node>, adj: Listing, k: nat): set<Node> {
    if k == 0 then Seeds(seeds) else Ball(seeds, adj, k - 1) + Step(Ball(seeds, adj, k - 1), adj)
  }

  ghost predicate Hop(adj: Listing, m: Node, n: Node) {
    exists r :: r in adj(m) && n == if r.source == m then r.target else r.source
  }

  ghost predicate IsPath(adj: Listing, p: seq<Node>) {
    |p| > 0 && forall i :: 0 < i < |p| ==> Hop(adj, p[i - 1], p[i])
  }

  ghost predicate PathFrom(seeds: seq<Node>, adj: Listing, p: seq<Node>, n: Node) {
    IsPath(adj, p) && p[0] in seeds && p[|p| - 1] == n
  }

  /** The balls are exactly what paths of listed rows reach: `n` is within `k` hops of a
      seed if and only if some path of at most `k` rows leads from a seed to `n`. */
  lemma BallIsPaths(seeds: seq<Node>, adj: Listing, k: nat, n: Node)
    ensures n in Ball(seeds, adj, k) <==> exists p :: PathFrom(seeds, adj, p, n) && |p| <= k + 1
  {
    if n in Ball(seeds, adj, k) {
      var p := PathTo(seeds, adj, k, n);
      assert PathFrom(seeds, adj, p, n);
    }
    if p :| PathFrom(seeds, adj, p, n) && |p| <= k + 1 {
      PathStaysInBall(seeds, adj, k, p, n);
    }
  }

  lemma {:induction false} PathTo(seeds: seq<Node>, adj: Listing, k: nat, n: Node) returns (p: seq<Node>)
    requires n in Ball(seeds, adj, k)
    ensures PathFrom(seeds, adj, p, n) && |p| <= k + 1
  {
    if k == 0 {
      p := [n];
    } else if n in Ball(seeds, adj, k - 1) {
      p := PathTo(seeds, adj, k - 1, n);
    } else {
      var m, r :| m in Ball(seeds, adj, k - 1) && r in adj(m) && n == Other(m, r);
      var q := PathTo(seeds, adj, k - 1, m);
      p := q + [n];
      assert Hop(adj, m, n);
    }
  }

  lemma {:induction false} PathStaysInBall(seeds: seq<Node>, adj: Listing, k: nat, p: seq<Node>, n: Node)
    requires PathFrom(seeds, adj, p, n) && |p| <= k + 1
    ensures n in Ball(seeds, adj, k)
    decreases |p|
  {
    if |p| == 1 {
      BallGrows(seeds, adj, 0, k);
    } else {
      var q := p[..|p| - 1];
      PathStaysInBall(seeds, adj, k - 1, q, q[|q| - 1]);
      assert Hop(adj, p[|p| - 2], p[|p| - 1]);
    }
  }

  lemma {:induction false} BallGrows(seeds: seq<Node>, adj: Listing, j: nat, k: nat)
    requires j <= k
    ensures Ball(seeds, adj, j) <= Ball(seeds, adj, k)
    decreases k
  {
    if j < k { BallGrows(seeds, adj, j, k - 1); }
  }

  // ----- What one expanded node contributes -----

  /** The queue entries the inner loop appends for the rows listed at `n`. */
  function Frontier(n: Node, hop: nat, rows: seq<Rel>, visited: set<Node>): seq<Entry> {
    if rows == [] then []
    else
      var rest := Frontier(n, hop, rows[..|rows| - 1], visited);
      var o := Other(n, rows[|rows| - 1]);
      if o in visited then rest else rest + [Entry(o, hop + 1)]
  }

  lemma FrontierEntries(n: Node, hop: nat, rows: seq<Rel>, visited: set<Node>)
    ensures forall e :: e in Frontier(n, hop, rows, visited) ==>
                          e.hop == hop + 1 && exists r :: r in rows && e.node == Other(n, r)
    ensures forall r :: r in rows ==>
                          Other(n, r) in visited || Entry(Other(n, r), hop + 1) in Frontier(n, hop, rows, visited)
  {
    if rows != [] { FrontierEntries(n, hop, rows[..|rows| - 1], visited); }
  }

  function Keys(rels: seq<Rel>): set<(Node, Node, string)> { set r | r in rels :: r.Key() }

  ghost predicate DistinctKeys(rels: seq<Rel>) {
    forall i, j :: 0 <= i < j < |rels| ==> rels[i].Key() != rels[j].Key()
  }

  lemma AppendRow(rels: seq<Rel>, r: Rel)
    ensures Keys(rels + [r]) == Keys(rels) + {r.Key()}
    ensures DistinctKeys(rels) && r.Key() !in Keys(rels) ==> DistinctKeys(rels + [r])
  {
    assert forall x :: x in rels ==> x.Key() in Keys(rels);
  }

  /** Process the rows listed at one visited node: record unseen edges, queue the other ends. */
  method Expand(n: Node, hop: nat, rows: seq<Rel>, visited: set<Node>, seen: set<(Node, Node, string)>,
                edges: seq<Rel>, queue: seq<Entry>)
    returns (seen': set<(Node, Node, string)>, edges': seq<Rel>, queue': seq<Entry>)
    requires seen == Keys(edges) && DistinctKeys(edges)
    ensures queue' == queue + Frontier(n, hop, rows, visited)
    ensures seen' == Keys(edges') == Keys(edges) + Keys(rows) && DistinctKeys(edges')
    ensures forall r :: r in edges' ==> r in edges || r in rows
  {
    seen', edges', queue' := seen, edges, queue;
    for i := 0 to |rows|
      invariant queue' == queue + Frontier(n, hop, rows[..i], visited)
      invariant seen' == Keys(edges') == Keys(edges) + Keys(rows[..i])
      invariant DistinctKeys(edges')
      invariant forall r :: r in edges' ==> r in edges || r in rows
    {
      var rel := rows[i];
      assert rows[..i + 1] == rows[..i] + [rel] && rows[..i + 1][..i] == rows[..i];
      AppendRow(rows[..i], rel);
      if rel.Key() !in seen' {
        AppendRow(edges', rel);
        seen' := seen' + {rel.Key()};
        edges' := edges' + [rel];
      }
      if Other(n, rel) !in visited {
        queue' := queue' + [Entry(Other(n, rel), hop + 1)];
      }
    }
    assert rows[..|rows|] == rows;
  }

  // ----- The invariants of the search -----

  /** `k` is the exact distance of `n` from the seeds. */
  ghost predicate Dist(seeds: seq<Node>, adj: Listing, n: Node, k: nat) {
    n in Ball(seeds, adj, k) && (k > 0 ==> n !in Ball(seeds, adj, k - 1))
  }

  lemma {:induction false} DistIsLeast(seeds: seq<Node>, adj: Listing, n: Node, d: nat, k: nat)
    requires Dist(seeds, adj, n, d)
    ensures n in Ball(seeds, adj, k) <==> d <= k
  {
    if d <= k { BallGrows(seeds, adj, d, k); } else { BallGrows(seeds, adj, k, d - 1); }
  }

  /** `hops[i]` is the exact distance of the i-th listed node, and distances never decrease. */
  ghost predicate Exact(seeds: seq<Node>, adj: Listing, order: seq<Node>, hops: seq<nat>) {
    && |order| == |hops|
    && (forall i :: 0 <= i < |order| ==> Dist(seeds, adj, order[i], hops[i]))
    && (forall i, j :: 0 <= i < j < |order| ==> hops[i] <= hops[j] && order[i] != order[j])
  }

  /** Queued hops are sorted, span at most two values, and none exceeds the depth. */
  ghost predicate Fifo(seeds: seq<Node>, adj: Listing, hops: seq<nat>, queue: seq<Entry>, depth: nat) {
    && (forall e :: e in queue ==> e.node in Ball(seeds, adj, e.hop) && e.hop <= depth)
    && (forall i, j :: 0 <= i < j < |queue| ==> queue[i].hop <= queue[j].hop <= queue[i].hop + 1)
    && (forall i, e :: 0 <= i < |hops| && e in queue ==> hops[i] <= e.hop)
  }

  /** `n` is already listed, or still queued at no more than `hop`. */
  ghost predicate Due(listed: set<Node>, queue: seq<Entry>, n: Node, hop: nat) {
    n in listed || exists e :: e in queue && e.node == n && e.hop <= hop
  }

  ghost predicate RowsDue(adj: Listing, listed: set<Node>, queue: seq<Entry>, n: Node, hop: nat) {
    forall r :: r in adj(n) ==> Due(listed, queue, Other(n, r), hop + 1)
  }

  /** Nothing is lost: each seed, and each other end of a row listed at an expanded node, is due. */
  ghost predicate Closed(seeds: seq<Node>, adj: Listing, order: seq<Node>, hops: seq<nat>,
                         queue: seq<Entry>, depth: nat)
    requires |order| == |hops|
  {
    var listed := Seeds(order);
    && (forall s :: s in seeds ==> Due(listed, queue, s, 0))
    && (forall i :: 0 <= i < |order| && hops[i] < depth ==> RowsDue(adj, listed, queue, order[i], hops[i]))
  }

  lemma {:induction false} NextIsListed(seeds: seq<Node>, adj: Listing, order: seq<Node>, hops: seq<nat>,
                                        queue: seq<Entry>, depth: nat, k: nat, m: Node, r: Rel)
    requires |order| == |hops| && (forall i :: 0 <= i < |order| ==> Dist(seeds, adj, order[i], hops[i]))
    requires Closed(seeds, adj, order, hops, queue, depth)
    requires k < depth && m in Ball(seeds, adj, k) && m in order && r in adj(m)
    requires forall e :: e in queue ==> k + 1 < e.hop
    ensures Other(m, r) in order
  {
    var i :| 0 <= i < |order| && order[i] == m;
    DistIsLeast(seeds, adj, m, hops[i], k);
    assert RowsDue(adj, Seeds(order), queue, order[i], hops[i]);
    assert Due(Seeds(order), queue, Other(m, r), hops[i] + 1);
  }

  /** The FIFO argument: whatever is nearer than every queued entry has been listed. */
  lemma {:induction false} NearerIsListed(seeds: seq<Node>, adj: Listing, order: seq<Node>, hops: seq<nat>,
                                          queue: seq<Entry>, depth: nat, k: nat)
    requires |order| == |hops| && (forall i :: 0 <= i < |order| ==> Dist(seeds, adj, order[i], hops[i]))
    requires Closed(seeds, adj, order, hops, queue, depth)
    requires k <= depth && forall e :: e in queue ==> k < e.hop
    ensures Ball(seeds, adj, k) <= Seeds(order)
    decreases k
  {
    hide Dist;
    if k == 0 {
      forall s | s in seeds ensures s in Seeds(order) {
        assert Due(Seeds(order), queue, s, 0);
      }
    } else {
      NearerIsListed(seeds, adj, order, hops, queue, depth, k - 1);
      StepIsListed(seeds, adj, order, hops, queue, depth, k - 1);
    }
  }

  lemma {:induction false} StepIsListed(seeds: seq<Node>, adj: Listing, order: seq<Node>, hops: seq<nat>,
                                        queue: seq<Entry>, depth: nat, k: nat)
    requires |order| == |hops| && (forall i :: 0 <= i < |order| ==> Dist(seeds, adj, order[i], hops[i]))
    requires Closed(seeds, adj, order, hops, queue, depth)
    requires k < depth && (forall e :: e in queue ==> k + 1 < e.hop) && Ball(seeds, adj, k) <= Seeds(order)
    ensures Step(Ball(seeds, adj, k), adj) <= Seeds(order)
  {
    forall m, r | m in Ball(seeds, adj, k) && r in adj(m) ensures Other(m, r) in Seeds(order) {
      NextIsListed(seeds, adj, order, hops, queue, depth, k, m, r);
    }
  }

  /** Whatever was due stays due when the first entry's node is listed and others are queued. */
  lemma {:induction false} DueStays(listed: set<Node>, queue: seq<Entry>, listed': set<Node>, queue': seq<Entry>,
                                    n: Node, hop: nat)
    requires Due(listed, queue, n, hop) && queue != []
    requires listed <= listed' && queue[0].node in listed' && forall e :: e in queue[1..] ==> e in queue'
    ensures Due(listed', queue', n, hop)
  {
    if n !in listed' {
      var e :| e in queue && e.node == n && e.hop <= hop;
      assert queue == [queue[0]] + queue[1..];
      assert e in queue[1..];
    }
  }

  lemma {:induction false} ClosedStays(seeds: seq<Node>, adj: Listing, order: seq<Node>, hops: seq<nat>,
                                       queue: seq<Entry>, depth: nat, listed': set<Node>, queue': seq<Entry>)
    requires |order| == |hops| && Closed(seeds, adj, order, hops, queue, depth) && queue != []
    requires Seeds(order) <= listed' && queue[0].node in listed' && forall e :: e in queue[1..] ==> e in queue'
    ensures forall s :: s in seeds ==> Due(listed', queue', s, 0)
    ensures forall i :: 0 <= i < |order| && hops[i] < depth ==> RowsDue(adj, listed', queue', order[i], hops[i])
  {
    forall s | s in seeds ensures Due(listed', queue', s, 0) {
      DueStays(Seeds(order), queue, listed', queue', s, 0);
    }
    forall i | 0 <= i < |order| && hops[i] < depth ensures RowsDue(adj, listed', queue', order[i], hops[i]) {
      assert RowsDue(adj, Seeds(order), queue, order[i], hops[i]);
      forall r | r in adj(order[i]) ensures Due(listed', queue', Other(order[i], r), hops[i] + 1) {
        DueStays(Seeds(order), queue, listed', queue', Other(order[i], r), hops[i] + 1);
      }
    }
  }

  /** Taking the first entry off the queue, when its node is already listed. */
  lemma {:induction false} SkipKeeps(seeds: seq<Node>, adj: Listing, order: seq<Node>, hops: seq<nat>,
                                     queue: seq<Entry>, depth: nat)
    requires Exact(seeds, adj, order, hops) && Fifo(seeds, adj, hops, queue, depth)
    requires Closed(seeds, adj, order, hops, queue, depth) && queue != [] && queue[0].node in order
    ensures Fifo(seeds, adj, hops, queue[1..], depth)
    ensures Closed(seeds, adj, order, hops, queue[1..], depth)
  {
    ClosedStays(seeds, adj, order, hops, queue, depth, Seeds(order), queue[1..]);
  }

  /** The first entry's hop is its node's exact distance, when the node is not yet listed. */
  lemma {:induction false} PopIsExact(seeds: seq<Node>, adj: Listing, order: seq<Node>, hops: seq<nat>,
                                      queue: seq<Entry>, depth: nat)
    requires Exact(seeds, adj, order, hops) && Fifo(seeds, adj, hops, queue, depth)
    requires Closed(seeds, adj, order, hops, queue, depth) && queue != [] && queue[0].node !in order
    ensures Exact(seeds, adj, order + [queue[0].node], hops + [queue[0].hop])
    ensures queue[0].hop > 0 ==> Ball(seeds, adj, queue[0].hop - 1) <= Seeds(order)
  {
    assert queue[0] in queue;
    if queue[0].hop > 0 {
      NearerIsListed(seeds, adj, order, hops, queue, depth, queue[0].hop - 1);
    }
    assert Dist(seeds, adj, queue[0].node, queue[0].hop);
  }

  /** Listing the first entry's node and queueing the other ends of its rows. */
  ghost predicate Queues(adj: Listing, order: seq<Node>, queue: seq<Entry>, depth: nat, more: seq<Entry>)
    requires queue != []
  {
    more == if queue[0].hop < depth
            then Frontier(queue[0].node, queue[0].hop, adj(queue[0].node), Seeds(order + [queue[0].node]))
            else []
  }

  lemma {:induction false} VisitKeepsFifo(seeds: seq<Node>, adj: Listing, order: seq<Node>, hops: seq<nat>,
                                          queue: seq<Entry>, depth: nat, more: seq<Entry>)
    requires Fifo(seeds, adj, hops, queue, depth) && queue != [] && Queues(adj, order, queue, depth, more)
    ensures Fifo(seeds, adj, hops + [queue[0].hop], queue[1..] + more, depth)
  {
    var n, h := queue[0].node, queue[0].hop;
    var queue' := queue[1..] + more;
    assert queue[0] in queue;
    FrontierEntries(n, h, adj(n), Seeds(order + [n]));
    forall e | e in more ensures e.hop == h + 1 <= depth && e.node in Ball(seeds, adj, e.hop) {
      assert n in Ball(seeds, adj, h);
    }
    assert forall i :: 0 <= i < |queue| - 1 ==> queue'[i] == queue[i + 1];
    assert forall i :: |queue| - 1 <= i < |queue'| ==> queue'[i] in more;
  }

  lemma {:induction false} VisitKeepsClosed(seeds: seq<Node>, adj: Listing, order: seq<Node>, hops: seq<nat>,
                                            queue: seq<Entry>, depth: nat, more: seq<Entry>)
    requires |order| == |hops| && Closed(seeds, adj, order, hops, queue, depth)
    requires queue != [] && Queues(adj, order, queue, depth, more)
    ensures Closed(seeds, adj, order + [queue[0].node], hops + [queue[0].hop], queue[1..] + more, depth)
  {
    var n, h := queue[0].node, queue[0].hop;
    var order', queue' := order + [n], queue[1..] + more;
    ClosedStays(seeds, adj, order, hops, queue, depth, Seeds(order'), queue');
    FrontierEntries(n, h, adj(n), Seeds(order'));
    if h < depth {
      forall r | r in adj(n) ensures Due(Seeds(order'), queue', Other(n, r), h + 1) {
        if Other(n, r) !in Seeds(order') {
          assert Entry(Other(n, r), h + 1) in more;
        }
      }
    }
  }

  /** Strictly inside the depth: the nodes whose rows the search reads. */
  ghost predicate Inside(seeds: seq<Node>, adj: Listing, depth: nat, n: Node) {
    depth > 0 && n in Ball(seeds, adj, depth - 1)
  }

  /** `rels` holds, once each, exactly the rows listed at the nodes of `order` inside the depth. */
  ghost predicate Collected(seeds: seq<Node>, adj: Listing, order: seq<Node>, depth: nat, rels: seq<Rel>) {
    && DistinctKeys(rels)
    && (forall r :: r in rels ==> exists n :: n in order && Inside(seeds, adj, depth, n) && r in adj(n))
    && (forall n, r :: n in order && Inside(seeds, adj, depth, n) && r in adj(n) ==> r.Key() in Keys(rels))
  }

  lemma {:induction false} CollectRows(seeds: seq<Node>, adj: Listing, order: seq<Node>, depth: nat,
                                       rels: seq<Rel>, n: Node, rels': seq<Rel>)
    requires Collected(seeds, adj, order, depth, rels) && DistinctKeys(rels')
    requires if Inside(seeds, adj, depth, n)
             then Keys(rels') == Keys(rels) + Keys(adj(n)) && forall r :: r in rels' ==> r in rels || r in adj(n)
             else rels' == rels
    ensures Collected(seeds, adj, order + [n], depth, rels')
  {
    forall r | r in rels'
      ensures exists m :: m in order + [n] && Inside(seeds, adj, depth, m) && r in adj(m)
    {
      if r in rels {
        var m :| m in order && Inside(seeds, adj, depth, m) && r in adj(m);
        assert m in order + [n];
      } else {
        assert n in order + [n];
      }
    }
  }

  // ----- The search -----

  ghost function Listed(view: GraphView): seq<Node> {
    seq(|view.nodes|, i requires 0 <= i < |view.nodes| => view.nodes[i].node)
  }

  function Refs(nodes: seq<GraphNode>): set<string> { set n | n in nodes :: n.node.Ref() }

  function Max(a: int, b: int): int { if a < b then b else a }

  /** `m` is no farther from the seeds than `n`. */
  ghost predicate NoFarther(seeds: seq<Node>, adj: Listing, m: Node, n: Node) {
    forall k: nat :: n in Ball(seeds, adj, k) ==> m in Ball(seeds, adj, k)
  }

  /** What the view says about nodes, for a cap that is already positive: they are distinct,
      within the depth, at most `cap`, and by non-decreasing distance; a node left out is no
      nearer than any listed one; the flag is set exactly when the cap is met, and without
      it nothing within the depth is left out. */
  ghost predicate NodesCorrect(seeds: seq<Node>, adj: Listing, depth: nat, cap: nat, listed: seq<Node>,
                               truncated: bool) {
    && (forall n :: n in listed ==> n in Ball(seeds, adj, depth))
    && (forall i, j :: 0 <= i < j < |listed| ==> listed[i] != listed[j] && NoFarther(seeds, adj, listed[i], listed[j]))
    && (forall m, n :: m in listed && n in Ball(seeds, adj, depth) && n !in listed ==> NoFarther(seeds, adj, m, n))
    && (truncated <==> |listed| == cap) && |listed| <= cap
    && (!truncated ==> forall n :: n in Ball(seeds, adj, depth) ==> n in listed)
  }

  lemma {:induction false} EarlierIsNearer(seeds: seq<Node>, adj: Listing, m: Node, d: nat, n: Node, e: nat)
    requires Dist(seeds, adj, m, d) && Dist(seeds, adj, n, e) && d <= e
    ensures NoFarther(seeds, adj, m, n)
  {
    forall k: nat | n in Ball(seeds, adj, k) ensures m in Ball(seeds, adj, k) {
      DistIsLeast(seeds, adj, n, e, k);
      DistIsLeast(seeds, adj, m, d, k);
    }
  }

  lemma {:induction false} ExactIsSorted(seeds: seq<Node>, adj: Listing, order: seq<Node>, hops: seq<nat>, depth: nat)
    requires Exact(seeds, adj, order, hops) && forall h :: h in hops ==> h <= depth
    ensures forall n :: n in order ==> n in Ball(seeds, adj, depth)
    ensures forall i, j :: 0 <= i < j < |order| ==> NoFarther(seeds, adj, order[i], order[j])
  {
    forall n | n in order ensures n in Ball(seeds, adj, depth) {
      var i :| 0 <= i < |order| && order[i] == n;
      assert hops[i] in hops;
      DistIsLeast(seeds, adj, n, hops[i], depth);
    }
    forall i, j | 0 <= i < j < |order| ensures NoFarther(seeds, adj, order[i], order[j]) {
      EarlierIsNearer(seeds, adj, order[i], hops[i], order[j], hops[j]);
    }
  }

  /** Whatever is not listed is at least as far as the last listed node, hence as any. */
  lemma {:induction false} OmittedIsFarther(seeds: seq<Node>, adj: Listing, last: nat, n: Node, m: Node, d: nat)
    requires last > 0 ==> n !in Ball(seeds, adj, last - 1)
    requires Dist(seeds, adj, m, d) && d <= last
    ensures NoFarther(seeds, adj, m, n)
  {
    forall k: nat | n in Ball(seeds, adj, k) ensures m in Ball(seeds, adj, k) {
      if k < last { BallGrows(seeds, adj, k, last - 1); }
      DistIsLeast(seeds, adj, m, d, k);
    }
  }

  /** The search invariant, before an entry is taken off the queue: the distances of the
      listed nodes are known, in order, and nothing due has been lost. */
  ghost predicate Searching(seeds: seq<Node>, adj: Listing, order: seq<Node>, queue: seq<Entry>, depth: nat) {
    exists hops: seq<nat> :: SearchingAt(seeds, adj, order, hops, queue, depth)
  }

  ghost predicate SearchingAt(seeds: seq<Node>, adj: Listing, order: seq<Node>, hops: seq<nat>,
                              queue: seq<Entry>, depth: nat)
  {
    && Exact(seeds, adj, order, hops) && (forall h :: h in hops ==> h <= depth)
    && Fifo(seeds, adj, hops, queue, depth) && Closed(seeds, adj, order, hops, queue, depth)
  }

  lemma {:induction false} Starts(seeds: seq<Node>, adj: Listing, queue: seq<Entry>, depth: nat)
    requires |queue| == |seeds| && forall i :: 0 <= i < |seeds| ==> queue[i] == Entry(seeds[i], 0)
    ensures Searching(seeds, adj, [], queue, depth)
  {
    forall s | s in seeds ensures Due(Seeds([]), queue, s, 0) {
      var i :| 0 <= i < |seeds| && seeds[i] == s;
      assert queue[i] == Entry(s, 0);
    }
    assert SearchingAt(seeds, adj, [], [], queue, depth);
  }

  lemma {:induction false} Skips(seeds: seq<Node>, adj: Listing, order: seq<Node>, queue: seq<Entry>, depth: nat)
    requires Searching(seeds, adj, order, queue, depth) && queue != [] && queue[0].node in order
    ensures Searching(seeds, adj, order, queue[1..], depth)
  {
    var hops: seq<nat> :| SearchingAt(seeds, adj, order, hops, queue, depth);
    SkipKeeps(seeds, adj, order, hops, queue, depth);
    assert SearchingAt(seeds, adj, order, hops, queue[1..], depth);
  }

  lemma {:induction false} LeftOut(seeds: seq<Node>, adj: Listing, order: seq<Node>, hops: seq<nat>, last: nat)
    requires Exact(seeds, adj, order, hops) && forall h :: h in hops ==> h <= last
    requires last > 0 ==> Ball(seeds, adj, last - 1) <= Seeds(order)
    ensures forall m, n :: m in order && n !in order ==> NoFarther(seeds, adj, m, n)
  {
    forall m, n | m in order && n !in order ensures NoFarther(seeds, adj, m, n) {
      var i :| 0 <= i < |order| && order[i] == m;
      assert hops[i] in hops;
      assert last > 0 ==> n !in Ball(seeds, adj, last - 1);
      OmittedIsFarther(seeds, adj, last, n, m, hops[i]);
    }
  }

  lemma {:induction false} Pops(seeds: seq<Node>, adj: Listing, order: seq<Node>, queue: seq<Entry>, depth: nat)
    returns (hops: seq<nat>)
    requires Searching(seeds, adj, order, queue, depth) && queue != [] && queue[0].node !in order
    ensures Exact(seeds, adj, order + [queue[0].node], hops + [queue[0].hop])
    ensures queue[0].hop <= depth && forall h :: h in hops + [queue[0].hop] ==> h <= queue[0].hop
    ensures queue[0].hop > 0 ==> Ball(seeds, adj, queue[0].hop - 1) <= Seeds(order + [queue[0].node])
  {
    hops :| SearchingAt(seeds, adj, order, hops, queue, depth);
    assert queue[0] in queue;
    PopIsExact(seeds, adj, order, hops, queue, depth);
    assert Seeds(order) <= Seeds(order + [queue[0].node]);
  }

  lemma {:induction false} Truncates(seeds: seq<Node>, adj: Listing, order: seq<Node>, queue: seq<Entry>, depth: nat)
    requires Searching(seeds, adj, order, queue, depth) && queue != [] && queue[0].node !in order
    ensures NodesCorrect(seeds, adj, depth, |order| + 1, order + [queue[0].node], true)
  {
    hide Ball;
    var hops := Pops(seeds, adj, order, queue, depth);
    ExactIsSorted(seeds, adj, order + [queue[0].node], hops + [queue[0].hop], depth);
    LeftOut(seeds, adj, order + [queue[0].node], hops + [queue[0].hop], queue[0].hop);
  }

  lemma {:induction false} Visits(seeds: seq<Node>, adj: Listing, order: seq<Node>, queue: seq<Entry>, depth: nat,
                                  more: seq<Entry>)
    requires Searching(seeds, adj, order, queue, depth) && queue != [] && queue[0].node !in order
    requires Queues(adj, order, queue, depth, more)
    ensures Searching(seeds, adj, order + [queue[0].node], queue[1..] + more, depth)
  {
    var hops: seq<nat> :| SearchingAt(seeds, adj, order, hops, queue, depth);
    assert queue[0] in queue;
    PopIsExact(seeds, adj, order, hops, queue, depth);
    VisitKeepsFifo(seeds, adj, order, hops, queue, depth, more);
    VisitKeepsClosed(seeds, adj, order, hops, queue, depth, more);
    assert SearchingAt(seeds, adj, order + [queue[0].node], hops + [queue[0].hop], queue[1..] + more, depth);
  }

  lemma {:induction false} ReadsInside(seeds: seq<Node>, adj: Listing, order: seq<Node>, queue: seq<Entry>, depth: nat)
    requires Searching(seeds, adj, order, queue, depth) && queue != [] && queue[0].node !in order
    ensures Inside(seeds, adj, depth, queue[0].node) <==> queue[0].hop < depth
  {
    var hops: seq<nat> :| SearchingAt(seeds, adj, order, hops, queue, depth);
    PopIsExact(seeds, adj, order, hops, queue, depth);
    var order', hops' := order + [queue[0].node], hops + [queue[0].hop];
    assert Dist(seeds, adj, order'[|order|], hops'[|order|]);
    if depth > 0 { DistIsLeast(seeds, adj, queue[0].node, queue[0].hop, depth - 1); }
  }

  lemma {:induction false} Exhausts(seeds: seq<Node>, adj: Listing, order: seq<Node>, depth: nat, cap: nat)
    requires Searching(seeds, adj, order, [], depth) && |order| < cap
    ensures NodesCorrect(seeds, adj, depth, cap, order, false)
  {
    var hops: seq<nat> :| SearchingAt(seeds, adj, order, hops, [], depth);
    ExactIsSorted(seeds, adj, order, hops, depth);
    NearerIsListed(seeds, adj, order, hops, [], depth, depth);
  }

  /** The rest of an iteration for a node below the cap: expand it, unless it is at the depth. */
  method Visit(ghost seeds: seq<Node>, depth: nat, adj: Listing, ghost order: seq<Node>, queue: seq<Entry>,
               visited: set<Node>, seen: set<(Node, Node, string)>, rels: seq<Rel>)
    returns (seen': set<(Node, Node, string)>, rels': seq<Rel>, queue': seq<Entry>)
    requires Searching(seeds, adj, order, queue, depth) && queue != [] && queue[0].node !in order
    requires visited == Seeds(order + [queue[0].node])
    requires seen == Keys(rels) && Collected(seeds, adj, order, depth, rels)
    ensures Searching(seeds, adj, order + [queue[0].node], queue', depth)
    ensures seen' == Keys(rels') && Collected(seeds, adj, order + [queue[0].node], depth, rels')
  {
    var n, hop := queue[0].node, queue[0].hop;
    seen', rels', queue' := seen, rels, queue[1..];
    ReadsInside(seeds, adj, order, queue, depth);
    ghost var more: seq<Entry> := [];
    if hop < depth {
      more := Frontier(n, hop, adj(n), visited);
      seen', rels', queue' := Expand(n, hop, adj(n), visited, seen, rels, queue');
    }
    Visits(seeds, adj, order, queue, depth, more);
    assert queue' == queue[1..] + more;
    CollectRows(seeds, adj, order, depth, rels, n, rels');
  }

  /** The loop of `_bfs`: the nodes listed and the rows collected.  A search cut short
      does not read the rows of the node that met the cap. */
  method Search(seeds: seq<Node>, depth: nat, maxNodes: int, adj: Listing)
    returns (order: seq<Node>, rels: seq<Rel>, truncated: bool)
    ensures NodesCorrect(seeds, adj, depth, Max(1, maxNodes), order, truncated)
    ensures Collected(seeds, adj, if truncated then order[..|order| - 1] else order, depth, rels)
  {
    hide Ball, Searching;
    order, rels, truncated := [], [], false;
    var visited: set<Node> := {};
    var seen: set<(Node, Node, string)> := {};
    var queue := seq(|seeds|, i requires 0 <= i < |seeds| => Entry(seeds[i], 0));
    Starts(seeds, adj, queue, depth);
    while queue != []
      invariant visited == Seeds(order) && |visited| == |order| < Max(1, maxNodes)
      invariant Searching(seeds, adj, order, queue, depth)
      invariant seen == Keys(rels) && Collected(seeds, adj, order, depth, rels) && !truncated
      decreases Max(1, maxNodes) - |order|, |queue|
    {
      var n := queue[0].node;
      if n in visited {
        Skips(seeds, adj, order, queue, depth);
        queue := queue[1..];
        continue;
      }
      visited := visited + {n};
      if |visited| >= maxNodes {
        Truncates(seeds, adj, order, queue, depth);
        order, truncated := order + [n], true;
        return;
      }
      seen, rels, queue := Visit(seeds, depth, adj, order, queue, visited, seen, rels);
      order := order + [n];
    }
    Exhausts(seeds, adj, order, depth, Max(1, maxNodes));
  }

  // ----- The view -----

  function ToEdges(rels: seq<Rel>): seq<GraphEdge> {
    seq(|rels|, i requires 0 <= i < |rels| => ToEdge(rels[i]))
  }

  predicate BothEnds(r: Rel, refs: set<string>) { r.source.Ref() in refs && r.target.Ref() in refs }

  /** The final filter: edges whose two ends are listed. */
  function Within(rels: seq<Rel>, refs: set<string>): (kept: seq<Rel>)
    ensures forall r :: r in kept <==> r in rels && BothEnds(r, refs)
    ensures DistinctKeys(rels) ==> DistinctKeys(kept)
  {
    if rels == [] then []
    else
      var kept := Within(rels[..|rels| - 1], refs);
      var r := rels[|rels| - 1];
      assert rels == rels[..|rels| - 1] + [r];
      assert DistinctKeys(rels) ==> forall x :: x in rels[..|rels| - 1] ==> x.Key() != r.Key();
      if BothEnds(r, refs) then kept + [r] else kept
  }

  /** The nodes whose rows the search read: those inside the depth, without the one that met the cap. */
  ghost predicate Read(seeds: seq<Node>, adj: Listing, depth: nat, listed: seq<Node>, truncated: bool, n: Node) {
    Inside(seeds, adj, depth, n) && n in if truncated && listed != [] then listed[..|listed| - 1] else listed
  }

  /** The edges are the rows of `kept`, column by column. */
  ghost predicate Drawn(edges: seq<GraphEdge>, kept: seq<Rel>) {
    |edges| == |kept| && forall i :: 0 <= i < |kept| ==>
      && edges[i].source == kept[i].source.entityType + ":" + kept[i].source.entityId
      && edges[i].target == kept[i].target.entityType + ":" + kept[i].target.entityId
      && edges[i].relType == kept[i].relType && edges[i].confidence == kept[i].confidence
      && edges[i].observations == kept[i].observations
      && edges[i].firstSeen == kept[i].firstSeen && edges[i].lastSeen == kept[i].lastSeen
  }

  /** Two rows stand for the same relationship: the same ends and the same type. */
  ghost predicate Same(a: Rel, b: Rel) { a.source == b.source && a.target == b.target && a.relType == b.relType }

  ghost predicate Has(kept: seq<Rel>, r: Rel) { exists i :: 0 <= i < |kept| && Same(kept[i], r) }

  /** Some listed node has this `type:id`. */
  ghost predicate Named(view: GraphView, n: Node) {
    exists i :: 0 <= i < |view.nodes| &&
      view.nodes[i].node.entityType + ":" + view.nodes[i].node.entityId == n.entityType + ":" + n.entityId
  }

  /** What the view says about edges: no relationship twice, each read at a node that the search
      expanded and between listed nodes, and none of those missing. */
  ghost predicate EdgesCorrect(seeds: seq<Node>, adj: Listing, depth: nat, view: GraphView, kept: seq<Rel>) {
    && Drawn(view.edges, kept)
    && (forall i, j :: 0 <= i < j < |kept| ==> !Same(kept[i], kept[j]))
    && (forall i :: 0 <= i < |kept| ==>
          && Named(view, kept[i].source) && Named(view, kept[i].target)
          && exists n :: Read(seeds, adj, depth, Listed(view), view.truncated, n) && kept[i] in adj(n))
    && (forall n, r ::
          (Read(seeds, adj, depth, Listed(view), view.truncated, n) && r in adj(n)
           && r.source in Listed(view) && r.target in Listed(view)) ==> Has(kept, r))
  }

  /** `_bfs`: `kept` names the rows behind the view's edges. */
  method Bfs(seeds: seq<Node>, root: string, depth: nat, maxNodes: int, adj: Listing, caption: Node -> string)
    returns (view: GraphView, ghost kept: seq<Rel>)
    ensures view.root == root
    ensures NodesCorrect(seeds, adj, depth, if maxNodes < 1 then 1 else maxNodes, Listed(view), view.truncated)
    ensures forall n :: n in view.nodes ==> n.caption == caption(n.node)
    ensures EdgesCorrect(seeds, adj, depth, view, kept)
  {
    var order, rels, truncated := Search(seeds, depth, maxNodes, adj);
    var nodes := seq(|order|, i requires 0 <= i < |order| => GraphNode(order[i], caption(order[i])));
    kept := Within(rels, Refs(nodes));
    view := GraphView(root, nodes, ToEdges(Within(rels, Refs(nodes))), truncated);
    assert Listed(view) == order;
    KeptIsCorrect(seeds, adj, depth, view, rels, kept);
  }

  lemma {:induction false} KeptIsCorrect(seeds: seq<Node>, adj: Listing, depth: nat, view: GraphView,
                                         rels: seq<Rel>, kept: seq<Rel>)
    requires var listed := Listed(view);
             && (view.truncated ==> listed != [])
             && Collected(seeds, adj, if view.truncated then listed[..|listed| - 1] else listed, depth, rels)
    requires kept == Within(rels, Refs(view.nodes)) && view.edges == ToEdges(kept)
    ensures EdgesCorrect(seeds, adj, depth, view, kept)
  {
    hide Within, Inside;
    forall i | 0 <= i < |kept|
      ensures Named(view, kept[i].source) && Named(view, kept[i].target)
      ensures exists n :: Read(seeds, adj, depth, Listed(view), view.truncated, n) && kept[i] in adj(n)
    {
      var r := kept[i];
      assert r in kept;
      RefIsNamed(view, r.source);
      RefIsNamed(view, r.target);
    }
    forall n, r | Read(seeds, adj, depth, Listed(view), view.truncated, n) && r in adj(n)
                  && r.source in Listed(view) && r.target in Listed(view)
      ensures Has(kept, r)
    {
      ListedHasRef(view, r.source);
      ListedHasRef(view, r.target);
      assert r.Key() in Keys(rels);
      var r' :| r' in rels && r'.Key() == r.Key();
      assert r' in kept;
      var i :| 0 <= i < |kept| && kept[i] == r';
      assert Same(kept[i], r);
    }
    forall i, j | 0 <= i < j < |kept| ensures !Same(kept[i], kept[j]) {
      assert kept[i].Key() != kept[j].Key();
    }
  }

  lemma RefIsNamed(view: GraphView, n: Node)
    requires n.Ref() in Refs(view.nodes)
    ensures Named(view, n)
  {
    var m :| m in view.nodes && m.node.Ref() == n.Ref();
    var i :| 0 <= i < |view.nodes| && view.nodes[i] == m;
  }

  function Clamp(depth: int): nat { Max(1, if depth < MAX_DEPTH then depth else MAX_DEPTH) }

  /** The depth in use: what was asked for, from 1 to 3. */
  ghost predicate InUse(depth: int, d: nat) {
    1 <= d <= 3 && (1 <= depth <= 3 ==> d == depth) && (depth < 1 ==> d == 1) && (depth > 3 ==> d == 3)
  }

  /** The whole view from some seeds. Not cut short, it lists exactly what paths of at most `d`
      listed rows reach, and has every relationship listed inside that depth. */
  ghost predicate ViewCorrect(seeds: seq<Node>, adj: Listing, d: nat, maxNodes: int, view: GraphView, kept: seq<Rel>,
                              caption: Node -> string) {
    && NodesCorrect(seeds, adj, d, if maxNodes < 1 then 1 else maxNodes, Listed(view), view.truncated)
    && (forall n :: n in view.nodes ==> n.caption == caption(n.node))
    && EdgesCorrect(seeds, adj, d, view, kept)
    && (!view.truncated ==> forall n :: n in Listed(view) <==> Reaches(seeds, adj, d, n))
    && (!view.truncated && Incident(adj) ==>
          forall n, r :: Inside(seeds, adj, d, n) && r in adj(n) ==> Has(kept, r))
  }

  ghost predicate Reaches(seeds: seq<Node>, adj: Listing, d: nat, n: Node) {
    exists p :: PathFrom(seeds, adj, p, n) && |p| <= d + 1
  }

  method Neighbourhood(entity: Node, depth: int, maxNodes: int, adj: Listing, caption: Node -> string)
    returns (view: GraphView, ghost kept: seq<Rel>, ghost d: nat)
    ensures view.root == entity.entityType + ":" + entity.entityId
    ensures InUse(depth, d) && ViewCorrect([entity], adj, d, maxNodes, view, kept, caption)
  {
    d := Clamp(depth);
    view, kept := Bfs([entity], entity.Ref(), Clamp(depth), maxNodes, adj, caption);
    BfsViews([entity], adj, d, maxNodes, view, kept, caption);
  }

  method ForTarget(targetId: string, resolved: seq<Node>, depth: int, maxNodes: int, adj: Listing,
                   caption: Node -> string)
    returns (view: GraphView, ghost kept: seq<Rel>, ghost d: nat)
    ensures view.root == "target:" + targetId
    ensures InUse(depth, d)
    ensures ViewCorrect([Node("target", targetId)] + resolved, adj, d, maxNodes, view, kept, caption)
  {
    var seeds := [Node("target", targetId)] + resolved;
    d := Clamp(depth);
    view, kept := Bfs(seeds, "target:" + targetId, Clamp(depth), maxNodes, adj, caption);
    BfsViews(seeds, adj, d, maxNodes, view, kept, caption);
  }

  lemma {:induction false} BfsViews(seeds: seq<Node>, adj: Listing, d: nat, maxNodes: int, view: GraphView,
                                    kept: seq<Rel>, caption: Node -> string)
    requires NodesCorrect(seeds, adj, d, if maxNodes < 1 then 1 else maxNodes, Listed(view), view.truncated)
    requires EdgesCorrect(seeds, adj, d, view, kept)
    requires forall n :: n in view.nodes ==> n.caption == caption(n.node)
    ensures ViewCorrect(seeds, adj, d, maxNodes, view, kept, caption)
  {
    var cap := if maxNodes < 1 then 1 else maxNodes;
    if !view.truncated {
      forall n ensures n in Listed(view) <==> Reaches(seeds, adj, d, n) { BallIsPaths(seeds, adj, d, n); }
      if Incident(adj) {
        forall n, r | Inside(seeds, adj, d, n) && r in adj(n) ensures Has(kept, r) {
          NothingFiltered(seeds, adj, d, cap, view, n, r);
          assert Read(seeds, adj, d, Listed(view), view.truncated, n);
        }
      }
    }
  }

  /** In a view that was not cut short, a row listed inside the depth has both ends
      listed, so the final filter removes nothing. */
  lemma {:induction false} NothingFiltered(seeds: seq<Node>, adj: Listing, depth: nat, cap: nat, view: GraphView,
                                           n: Node, r: Rel)
    requires NodesCorrect(seeds, adj, depth, cap, Listed(view), view.truncated) && !view.truncated
    requires Incident(adj) && Inside(seeds, adj, depth, n) && r in adj(n)
    ensures Read(seeds, adj, depth, Listed(view), view.truncated, n) && BothEnds(r, Refs(view.nodes))
    ensures r.source in Listed(view) && r.target in Listed(view)
  {
    BallGrows(seeds, adj, depth - 1, depth);
    assert Other(n, r) in Ball(seeds, adj, depth);
    ListedHasRef(view, n);
    ListedHasRef(view, Other(n, r));
  }

  lemma ListedHasRef(view: GraphView, n: Node)
    requires n in Listed(view)
    ensures n.Ref() in Refs(view.nodes)
  {
    var i :| 0 <= i < |view.nodes| && view.nodes[i].node == n;
    assert view.nodes[i] in view.nodes;
  }

  /** The view lists as many nodes as lie within the depth, up to the cap; the flag is set
      exactly when there are at least that many. */
  lemma {:induction false} ListedCount(seeds: seq<Node>, adj: Listing, depth: nat, cap: nat, listed: seq<Node>,
                                       truncated: bool)
    requires NodesCorrect(seeds, adj, depth, cap, listed, truncated)
    ensures truncated <==> |Ball(seeds, adj, depth)| >= cap
    ensures |listed| == if |Ball(seeds, adj, depth)| < cap then |Ball(seeds, adj, depth)| else cap
  {
    DistinctSize(listed);
    assert Seeds(listed) <= Ball(seeds, adj, depth);
    SubsetSize(Seeds(listed), Ball(seeds, adj, depth));
    if !truncated {
      assert Seeds(listed) == Ball(seeds, adj, depth);
    }
  }

  lemma DistinctSize(s: seq<Node>)
    requires forall i, j :: 0 <= i < j < |s| ==> s[i] != s[j]
    ensures |Seeds(s)| == |s|
  {
    if s != [] {
      var t := s[..|s| - 1];
      DistinctSize(t);
      assert Seeds(s) == Seeds(t) + {s[|s| - 1]};
    }
  }

  lemma SubsetSize(a: set<Node>, b: set<Node>)
    requires a <= b
    ensures |a| <= |b|
  {
    assert b == a + (b - a);
  }

  // ----- Refs -----

  predicate NoColon(t: string) { ':' !in t }

  /** `type:id` names one entity, because no entity type contains a colon. */
  lemma {:induction false} RefsAreUnique(m: Node, n: Node)
    requires NoColon(m.entityType) && NoColon(n.entityType) && m.Ref() == n.Ref()
    ensures m == n
  {
    FirstColon(m);
    FirstColon(n);
    var s := m.Ref();
    assert m.entityType == s[..|m.entityType|] && n.entityType == s[..|n.entityType|];
    assert m.entityId == s[|m.entityType| + 1..] && n.entityId == s[|n.entityType| + 1..];
  }

  lemma FirstColon(n: Node)
    requires NoColon(n.entityType)
    ensures n.Ref()[|n.entityType|] == ':' && forall i :: 0 <= i < |n.entityType| ==> n.Ref()[i] != ':'
  {
    forall i | 0 <= i < |n.entityType| ensures n.Ref()[i] != ':' {
      assert n.Ref()[i] == n.entityType[i];
    }
  }

  /** Where no type contains a colon, the edges of a view are pairwise different and run
      between listed entities. */
  lemma {:induction false} EdgesAreDistinct(seeds: seq<Node>, adj: Listing, depth: nat, view: GraphView, kept: seq<Rel>)
    requires EdgesCorrect(seeds, adj, depth, view, kept)
    requires forall r :: r in kept ==> NoColon(r.source.entityType) && NoColon(r.target.entityType)
    requires forall n :: n in view.nodes ==> NoColon(n.node.entityType)
    ensures forall i, j :: 0 <= i < j < |view.edges| ==> view.edges[i] != view.edges[j]
    ensures forall r :: r in kept ==> r.source in Listed(view) && r.target in Listed(view)
  {
    forall i, j | 0 <= i < j < |view.edges| ensures view.edges[i] != view.edges[j] {
      var a, b := kept[i], kept[j];
      if view.edges[i] == view.edges[j] {
        RefsAreUnique(a.source, b.source);
        RefsAreUnique(a.target, b.target);
      }
    }
    forall r | r in kept ensures r.source in Listed(view) && r.target in Listed(view) {
      var i :| 0 <= i < |kept| && kept[i] == r;
      RefIsListed(view, r.source);
      RefIsListed(view, r.target);
    }
  }

  lemma {:induction false} RefIsListed(view: GraphView, n: Node)
    requires Named(view, n) && NoColon(n.entityType)
    requires forall m :: m in view.nodes ==> NoColon(m.node.entityType)
    ensures n in Listed(view)
  {
    var i :| 0 <= i < |view.nodes| && view.nodes[i].node.entityType + ":" + view.nodes[i].node.entityId ==
                                      n.entityType + ":" + n.entityId;
    assert view.nodes[i] in view.nodes;
    RefsAreUnique(view.nodes[i].node, n);
    assert Listed(view)[i] == n;
  }
}
