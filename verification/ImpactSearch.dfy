/** Bounded breadth-first search for a typed exposure path from an event to a mission objective. */
module ImpactSearch {
  import opened Options

  type Node = int

  datatype Relation = Relation(id: int, relationType: string, source: Node, target: Node, active: bool)
  datatype Activity = Activity(id: int, subjects: seq<Node>)
  datatype Objective = Objective(id: int, dependsOn: seq<(string, Node)>)

  const PROPAGATION_RELATIONS :=
    ["DEPENDS_ON", "SUPPLIES", "OWNS", "OPERATES", "HOLDS_ROLE", "PUBLISHED_BY", "SUCCESSOR_OF"]

  predicate Walkable(r: Relation) {
    r.active && r.relationType in PROPAGATION_RELATIONS
  }

  predicate Touches(r: Relation, n: Node) {
    r.source == n || r.target == n
  }

  function Other(r: Relation, n: Node): Node {
    if r.source == n then r.target else r.source
  }

  // ---------------------------------------------------------------- trails

  /** The node reached by following a trail of relations, each in whichever direction leaves the current node. */
  function NodeAfter(start: Node, trail: seq<Relation>): Node
  {
    if trail == [] then start
    else Other(trail[|trail| - 1], NodeAfter(start, trail[..|trail| - 1]))
  }

  predicate ValidTrail(relations: seq<Relation>, start: Node, trail: seq<Relation>)
  {
    trail != [] ==>
      var front, last := trail[..|trail| - 1], trail[|trail| - 1];
      && ValidTrail(relations, start, front)
      && last in relations && Walkable(last) && Touches(last, NodeAfter(start, front))
  }

  function Bound(maxHops: int): nat {
    if maxHops < 0 then 0 else maxHops
  }

  /** Some declared dependency lies within `k` hops of `start`. */
  ghost predicate Reaches(relations: seq<Relation>, start: Node, dependencies: set<Node>, k: int) {
    exists trail :: ValidTrail(relations, start, trail) && |trail| <= k && NodeAfter(start, trail) in dependencies
  }

  // ---------------------------------------------------------------- the same over plain node paths

  /** An ACTIVE relation of a propagating type has these two ends, either way round. */
  predicate Adjoins(relations: seq<Relation>, a: Node, b: Node) {
    exists r :: r in relations && r.active
      && r.relationType in
        ["DEPENDS_ON", "SUPPLIES", "OWNS", "OPERATES", "HOLDS_ROLE", "PUBLISHED_BY", "SUCCESSOR_OF"]
      && ((r.source == a && r.target == b) || (r.source == b && r.target == a))
  }

  predicate NodePath(relations: seq<Relation>, nodes: seq<Node>) {
    nodes != [] && forall i :: 0 < i < |nodes| ==> Adjoins(relations, nodes[i - 1], nodes[i])
  }

  lemma AdjoinsIsAStep(relations: seq<Relation>, a: Node, b: Node)
    ensures Adjoins(relations, a, b) <==>
      exists r :: r in relations && Walkable(r) && Touches(r, a) && Other(r, a) == b
  {
  }

  lemma {:induction false} TrailIsANodePath(relations: seq<Relation>, start: Node, trail: seq<Relation>)
    returns (nodes: seq<Node>)
    requires ValidTrail(relations, start, trail)
    ensures NodePath(relations, nodes) && |nodes| == |trail| + 1
    ensures nodes[0] == start && nodes[|trail|] == NodeAfter(start, trail)
    decreases |trail|
  {
    if trail == [] { return [start]; }
    var front, last := trail[..|trail| - 1], trail[|trail| - 1];
    var before := TrailIsANodePath(relations, start, front);
    AdjoinsIsAStep(relations, NodeAfter(start, front), NodeAfter(start, trail));
    nodes := before + [NodeAfter(start, trail)];
  }

  lemma {:induction false} NodePathIsATrail(relations: seq<Relation>, nodes: seq<Node>)
    returns (trail: seq<Relation>)
    requires NodePath(relations, nodes)
    ensures ValidTrail(relations, nodes[0], trail) && |nodes| == |trail| + 1
    ensures NodeAfter(nodes[0], trail) == nodes[|nodes| - 1]
    decreases |nodes|
  {
    var last := |nodes| - 1;
    if last == 0 { return []; }
    var front := NodePathIsATrail(relations, nodes[..last]);
    assert Adjoins(relations, nodes[last - 1], nodes[last]);
    AdjoinsIsAStep(relations, nodes[last - 1], nodes[last]);
    var r :| r in relations && Walkable(r) && Touches(r, nodes[last - 1]) && Other(r, nodes[last - 1]) == nodes[last];
    trail := front + [r];
    assert trail[..last - 1] == front;
  }

  /** The trails of the search are the paths of nodes whose neighbours an ACTIVE propagating relation joins. */
  lemma ReachesIsANodePath(relations: seq<Relation>, start: Node, dependencies: set<Node>, k: nat)
    ensures Reaches(relations, start, dependencies, k) <==>
      exists nodes :: NodePath(relations, nodes) && nodes[0] == start && nodes[|nodes| - 1] in dependencies
        && |nodes| - 1 <= k
  {
    if Reaches(relations, start, dependencies, k) {
      var trail :| ValidTrail(relations, start, trail) && |trail| <= k && NodeAfter(start, trail) in dependencies;
      var _ := TrailIsANodePath(relations, start, trail);
    }
    if nodes :| NodePath(relations, nodes) && nodes[0] == start && nodes[|nodes| - 1] in dependencies
                && |nodes| - 1 <= k
    {
      var _ := NodePathIsATrail(relations, nodes);
    }
  }

  // ---------------------------------------------------------------- adjacency

  type Adjacency = map<Node, seq<Relation>>

  function Listed(adjacency: Adjacency, n: Node): seq<Relation> {
    if n in adjacency then adjacency[n] else []
  }

  ghost predicate AdjacencyOf(adjacency: Adjacency, relations: seq<Relation>) {
    forall n, r :: r in Listed(adjacency, n) <==> r in relations && Walkable(r) && Touches(r, n)
  }

  method BuildAdjacency(relations: seq<Relation>) returns (adjacency: Adjacency)
    ensures AdjacencyOf(adjacency, relations)
  {
    adjacency := map[];
    for i := 0 to |relations|
      invariant AdjacencyOf(adjacency, relations[..i])
    {
      var r := relations[i];
      assert relations[..i + 1] == relations[..i] + [r];
      if Walkable(r) {
        adjacency := adjacency[r.source := Listed(adjacency, r.source) + [r]];
        adjacency := adjacency[r.target := Listed(adjacency, r.target) + [r]];
      }
    }
    assert relations[..|relations|] == relations;
  }

  // ---------------------------------------------------------------- one subject's search

  datatype Visit = Visit(node: Node, trail: seq<Relation>)

  /** What one search is asked. */
  datatype Query = Query(relations: seq<Relation>, start: Node, dependencies: set<Node>, maxHops: int)

  /** Where a search stands: the queue, and the hop count at which each met node was met. */
  datatype Progress = Progress(frontier: seq<Visit>, level: map<Node, nat>)

  ghost predicate ShortestTrail(q: Query, v: Visit) {
    && ValidTrail(q.relations, q.start, v.trail)
    && NodeAfter(q.start, v.trail) == v.node
    && v.node in q.dependencies
    && |v.trail| <= Bound(q.maxHops)
    && !Reaches(q.relations, q.start, q.dependencies, |v.trail| - 1)
  }

  function NodesOf(q: Query): set<Node> {
    {q.start} + (set r | r in q.relations :: r.source) + (set r | r in q.relations :: r.target)
  }

  /** An entry of the frontier carries a real trail to its node, as long as the node's level. */
  predicate GoodVisit(q: Query, level: map<Node, nat>, v: Visit) {
    && ValidTrail(q.relations, q.start, v.trail) && NodeAfter(q.start, v.trail) == v.node
    && v.node in level && level[v.node] == |v.trail| <= Bound(q.maxHops)
  }

  ghost predicate Queued(frontier: seq<Visit>, n: Node) {
    exists i :: 0 <= i < |frontier| && frontier[i].node == n
  }

  /** Every neighbour of `n` has been met, at most one hop later. */
  ghost predicate Expanded(q: Query, level: map<Node, nat>, n: Node)
    requires n in level
  {
    forall r :: r in q.relations && Walkable(r) && Touches(r, n) ==>
      Other(r, n) in level && level[Other(r, n)] <= level[n] + 1
  }

  ghost predicate Settled(q: Query, level: map<Node, nat>, n: Node) {
    n in level && n !in q.dependencies && (level[n] < q.maxHops ==> Expanded(q, level, n))
  }

  /** Levels along the queue never fall and span at most two values. */
  predicate QueueOrdered(frontier: seq<Visit>) {
    forall i, j :: 0 <= i <= j < |frontier| ==>
      |frontier[i].trail| <= |frontier[j].trail| <= |frontier[i].trail| + 1
  }

  ghost predicate Met(q: Query, p: Progress) {
    && q.start in p.level && p.level[q.start] == 0
    && p.level.Keys <= NodesOf(q)
    && QueueOrdered(p.frontier)
    && (forall i :: 0 <= i < |p.frontier| ==> GoodVisit(q, p.level, p.frontier[i]))
  }

  /** Between two pops: a met node waits in the queue or is settled. */
  ghost predicate Searching(q: Query, p: Progress) {
    && Met(q, p)
    && (|p.frontier| > 0 ==> forall n :: n in p.level ==> p.level[n] <= |p.frontier[0].trail| + 1)
    && (forall n :: n in p.level ==> Queued(p.frontier, n) || Settled(q, p.level, n))
  }

  /** While `front`, just taken off the queue, has its relations scanned. */
  ghost predicate Expanding(q: Query, front: Visit, p: Progress) {
    && Met(q, p) && front.node !in q.dependencies
    && GoodVisit(q, p.level, front) && |front.trail| < q.maxHops
    && QueueOrdered([front] + p.frontier)
    && (forall n :: n in p.level ==> p.level[n] <= |front.trail| + 1)
    && (forall n :: n in p.level ==> n == front.node || Queued(p.frontier, n) || Settled(q, p.level, n))
  }

  /** While everything below a level is settled, a trail that short has been followed in full. */
  lemma {:induction false} ShortTrailsAreMet(q: Query, level: map<Node, nat>, trail: seq<Relation>, k: nat)
    requires q.start in level && level[q.start] == 0
    requires forall n :: n in level && level[n] < k ==> Settled(q, level, n)
    requires ValidTrail(q.relations, q.start, trail) && |trail| <= k && |trail| <= Bound(q.maxHops)
    ensures NodeAfter(q.start, trail) in level && level[NodeAfter(q.start, trail)] <= |trail|
    decreases |trail|
  {
    if trail != [] {
      var front, last := trail[..|trail| - 1], trail[|trail| - 1];
      ShortTrailsAreMet(q, level, front, k);
      assert Settled(q, level, NodeAfter(q.start, front));
      assert Touches(last, NodeAfter(q.start, front));
    }
  }

  /** Nothing nearer than the front of the queue is a dependency. */
  lemma FrontIsNearest(q: Query, p: Progress)
    requires Searching(q, p) && |p.frontier| > 0
    ensures GoodVisit(q, p.level, p.frontier[0])
    ensures !Reaches(q.relations, q.start, q.dependencies, |p.frontier[0].trail| - 1)
    ensures p.frontier[0].node in q.dependencies ==>
      ShortestTrail(q, p.frontier[0]) && Reaches(q.relations, q.start, q.dependencies, Bound(q.maxHops))
  {
    var k := |p.frontier[0].trail|;
    assert GoodVisit(q, p.level, p.frontier[0]);
    forall i | 0 <= i < |p.frontier| ensures p.frontier[i].node in p.level && p.level[p.frontier[i].node] >= k {
      assert GoodVisit(q, p.level, p.frontier[i]);
    }
    forall trail | ValidTrail(q.relations, q.start, trail) && |trail| <= k - 1
      ensures NodeAfter(q.start, trail) !in q.dependencies
    {
      ShortTrailsAreMet(q, p.level, trail, k);
      assert Settled(q, p.level, NodeAfter(q.start, trail));
    }
  }

  lemma EmptyQueueMeansUnreachable(q: Query, p: Progress)
    requires Searching(q, p) && |p.frontier| == 0
    ensures !Reaches(q.relations, q.start, q.dependencies, Bound(q.maxHops))
  {
    forall n | n in p.level ensures Settled(q, p.level, n) {
      assert !Queued(p.frontier, n);
    }
    forall trail | ValidTrail(q.relations, q.start, trail) && |trail| <= Bound(q.maxHops)
      ensures NodeAfter(q.start, trail) !in q.dependencies
    {
      ShortTrailsAreMet(q, p.level, trail, Bound(q.maxHops));
    }
  }

  lemma PopWithoutExpanding(q: Query, p: Progress)
    requires Searching(q, p) && |p.frontier| > 0
    requires p.frontier[0].node !in q.dependencies && |p.frontier[0].trail| >= q.maxHops
    ensures Searching(q, Progress(p.frontier[1..], p.level))
  {
    var rest := p.frontier[1..];
    if |rest| > 0 {
      assert rest[0] == p.frontier[1];
      assert |p.frontier[0].trail| <= |p.frontier[1].trail|;
    }
  }

  function AfterMeeting(p: Progress, v: Visit): Progress {
    Progress(p.frontier + [v], p.level[v.node := |v.trail|])
  }

  /** A visit one hop beyond the front goes to the end of the queue in order. */
  lemma AppendKeepsOrder(front: Visit, queue: seq<Visit>, v: Visit)
    requires QueueOrdered([front] + queue) && |v.trail| == |front.trail| + 1
    ensures QueueOrdered(queue + [v]) && QueueOrdered([front] + (queue + [v]))
  {
    var shorter, longer := [front] + queue, [front] + (queue + [v]);
    assert shorter[0] == front;
    forall i, j | 0 <= i <= j < |longer| ensures |longer[i].trail| <= |longer[j].trail| <= |longer[i].trail| + 1 {
      if j < |shorter| {
        assert longer[i] == shorter[i] && longer[j] == shorter[j];
      } else if i < |shorter| {
        assert longer[i] == shorter[i] && longer[j] == v;
        assert |shorter[0].trail| <= |shorter[i].trail| <= |shorter[0].trail| + 1;
      }
    }
    assert longer[1..] == queue + [v];
  }

  lemma MeetKeepsMet(q: Query, front: Visit, p: Progress, r: Relation)
    requires Expanding(q, front, p)
    requires r in q.relations && Walkable(r) && Touches(r, front.node) && Other(r, front.node) !in p.level
    ensures Met(q, AfterMeeting(p, Visit(Other(r, front.node), front.trail + [r])))
    ensures QueueOrdered([front] + (p.frontier + [Visit(Other(r, front.node), front.trail + [r])]))
  {
    var v := Visit(Other(r, front.node), front.trail + [r]);
    assert v.node in NodesOf(q);
    AppendKeepsOrder(front, p.frontier, v);
  }

  lemma MeetKeepsExpanding(q: Query, front: Visit, p: Progress, r: Relation)
    requires Expanding(q, front, p)
    requires r in q.relations && Walkable(r) && Touches(r, front.node) && Other(r, front.node) !in p.level
    ensures Expanding(q, front, AfterMeeting(p, Visit(Other(r, front.node), front.trail + [r])))
  {
    var v := Visit(Other(r, front.node), front.trail + [r]);
    var after := AfterMeeting(p, v);
    MeetKeepsMet(q, front, p, r);
    forall n | n in after.level
      ensures n == front.node || Queued(after.frontier, n) || Settled(q, after.level, n)
    {
      if n == v.node {
        assert after.frontier[|p.frontier|].node == n;
      } else if Queued(p.frontier, n) {
        var i :| 0 <= i < |p.frontier| && p.frontier[i].node == n;
        assert after.frontier[i].node == n;
      }
    }
  }

  lemma ExpandedIsSearching(q: Query, front: Visit, p: Progress, neighbours: seq<Relation>)
    requires Expanding(q, front, p)
    requires forall r :: r in neighbours <==> r in q.relations && Walkable(r) && Touches(r, front.node)
    requires forall k :: 0 <= k < |neighbours| ==> Other(neighbours[k], front.node) in p.level
    ensures Searching(q, p)
  {
    forall r | r in q.relations && Walkable(r) && Touches(r, front.node)
      ensures Other(r, front.node) in p.level && p.level[Other(r, front.node)] <= p.level[front.node] + 1
    {
      assert r in neighbours;
    }
    assert Settled(q, p.level, front.node);
    if |p.frontier| > 0 {
      var all := [front] + p.frontier;
      assert all[0] == front && all[1] == p.frontier[0];
      assert |all[0].trail| <= |all[1].trail|;
    }
  }

  /** One neighbour of the node being scanned, queued if it was not met before. */
  method Meet(ghost q: Query, r: Relation, v: Visit, queue: seq<Visit>, known: set<Node>, ghost levels: map<Node, nat>)
    returns (frontier: seq<Visit>, seen: set<Node>, ghost level: map<Node, nat>)
    requires Expanding(q, v, Progress(queue, levels)) && known == levels.Keys
    requires r in q.relations && Walkable(r) && Touches(r, v.node)
    ensures Expanding(q, v, Progress(frontier, level)) && seen == level.Keys
    ensures known <= seen && Other(r, v.node) in seen && (seen == known ==> frontier == queue)
  {
    frontier, seen, level := queue, known, levels;
    var other := Other(r, v.node);
    if other !in seen {
      MeetKeepsExpanding(q, v, Progress(queue, levels), r);
      seen := seen + {other};
      level := level[other := |v.trail + [r]|];
      frontier := frontier + [Visit(other, v.trail + [r])];
    }
  }

  /** Scan one node's relations, queueing every neighbour not met before. */
  method Expand(ghost q: Query, neighbours: seq<Relation>, v: Visit, queue: seq<Visit>, known: set<Node>,
                ghost levels: map<Node, nat>)
    returns (frontier: seq<Visit>, seen: set<Node>, ghost level: map<Node, nat>)
    requires Expanding(q, v, Progress(queue, levels)) && known == levels.Keys
    requires forall r :: r in neighbours <==> r in q.relations && Walkable(r) && Touches(r, v.node)
    ensures Searching(q, Progress(frontier, level)) && seen == level.Keys
    ensures known <= seen && (seen == known ==> frontier == queue)
  {
    frontier, seen, level := queue, known, levels;
    for i := 0 to |neighbours|
      invariant Expanding(q, v, Progress(frontier, level)) && seen == level.Keys
      invariant forall k :: 0 <= k < i ==> Other(neighbours[k], v.node) in seen
      invariant known <= seen && (seen == known ==> frontier == queue)
    {
      assert neighbours[i] in neighbours;
      frontier, seen, level := Meet(q, neighbours[i], v, frontier, seen, level);
    }
    ExpandedIsSearching(q, v, Progress(frontier, level), neighbours);
  }

  /** Take the front off a queue whose front is no dependency, and scan it unless its trail is already full length. */
  method TakeFront(q: Query, adjacency: Adjacency, queue: seq<Visit>, known: set<Node>, ghost levels: map<Node, nat>)
    returns (frontier: seq<Visit>, seen: set<Node>, ghost level: map<Node, nat>)
    requires AdjacencyOf(adjacency, q.relations)
    requires Searching(q, Progress(queue, levels)) && known == levels.Keys
    requires |queue| > 0 && queue[0].node !in q.dependencies
    ensures Searching(q, Progress(frontier, level)) && seen == level.Keys
    ensures known <= seen && (seen == known ==> |frontier| < |queue|)
  {
    var v := queue[0];
    if |v.trail| >= q.maxHops {
      PopWithoutExpanding(q, Progress(queue, levels));
      frontier, seen, level := queue[1..], known, levels;
    } else {
      frontier, seen, level := Expand(q, Listed(adjacency, v.node), v, queue[1..], known, levels);
    }
  }

  /** A shortest trail from one subject to a declared dependency, or none when none is within the bound. */
  method SearchFrom(q: Query, adjacency: Adjacency) returns (found: Option<Visit>)
    requires AdjacencyOf(adjacency, q.relations)
    ensures found.None? <==> !Reaches(q.relations, q.start, q.dependencies, Bound(q.maxHops))
    ensures found.Some? ==> ShortestTrail(q, found.value)
  {
    var frontier := [Visit(q.start, [])];
    var seen := {q.start};
    ghost var level: map<Node, nat> := map[q.start := 0];
    while |frontier| > 0
      invariant Searching(q, Progress(frontier, level)) && seen == level.Keys
      decreases NodesOf(q) - seen, |frontier|
    {
      FrontIsNearest(q, Progress(frontier, level));
      if frontier[0].node in q.dependencies {
        return Some(frontier[0]);
      }
      frontier, seen, level := TakeFront(q, adjacency, frontier, seen, level);
      assert seen <= NodesOf(q);
    }
    EmptyQueueMeansUnreachable(q, Progress(frontier, level));
    found := None;
  }
}
