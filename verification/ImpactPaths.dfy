/** The edge chain suggested from a search, and the checks an impact path must pass to be constructed. */
module ImpactPaths {
  import opened ImpactSearch
  import opened Options

  /** A typed reference: the kind of a record and its id. */
  datatype Ref =
    | ActivityRef(id: int) | ObjectRef(id: int) | ObjectiveRef(id: int) | RelationRef(id: int) | ClaimRef(id: int)

  datatype EdgeKind = EVENT_EFFECT | DEPENDENCY | TYPED_RELATION | ASSUMPTION_LINK | INFERENCE
  datatype EffectOrder = DIRECT | SECOND_ORDER | POTENTIAL | UNRESOLVED_ORDER
  datatype Authority =
    | OBSERVED | DERIVED | ANALYST_ASSESSMENT | SUPPORTED_INFERENCE | MODEL_PROPOSAL | CONTESTED | UNRESOLVED

  function Rank(level: Authority): nat {
    match level
    case OBSERVED => 0
    case DERIVED => 1
    case ANALYST_ASSESSMENT => 2
    case SUPPORTED_INFERENCE => 3
    case MODEL_PROPOSAL => 4
    case CONTESTED => 5
    case UNRESOLVED => 6
  }

  datatype Edge = Edge(
    from: Ref, to: Ref, kind: EdgeKind, order: EffectOrder, authority: Authority,
    reasoned: bool, basis: seq<Ref>, assumptions: seq<int>)

  // ---------------------------------------------------------------- what an impact path requires

  /** The construction checks of one edge. */
  predicate EdgeAdmissible(e: Edge) {
    && e.from != e.to
    && match e.kind
       case INFERENCE => e.authority != OBSERVED && e.authority != DERIVED && e.reasoned
       case ASSUMPTION_LINK => e.assumptions != []
       case _ => e.basis != []
  }

  predicate Connected(edges: seq<Edge>) {
    forall i :: 0 < i < |edges| ==> edges[i - 1].to.id == edges[i].from.id
  }

  datatype Ledger = Ledger(basis: set<Ref>, assumptions: set<int>, objectives: set<int>)

  predicate Evidenced(ledger: Ledger, e: Edge) {
    && (forall b :: b in e.basis ==> b in ledger.basis)
    && (forall a :: a in e.assumptions ==> a in ledger.assumptions)
  }

  /** A chain that `build_path` accepts for an objective. */
  predicate PathAdmissible(ledger: Ledger, objective: int, edges: seq<Edge>) {
    && objective in ledger.objectives
    && edges != [] && edges[|edges| - 1].to == ObjectiveRef(objective)
    && (forall e :: e in edges ==> Evidenced(ledger, e) && EdgeAdmissible(e))
    && Connected(edges)
  }

  predicate Weakest(level: Authority, levels: seq<Authority>) {
    level in levels && forall other :: other in levels ==> Rank(other) <= Rank(level)
  }

  function Levels(edges: seq<Edge>): (levels: seq<Authority>)
    ensures |levels| == |edges| && forall i :: 0 <= i < |edges| ==> levels[i] == edges[i].authority
  {
    seq(|edges|, i requires 0 <= i < |edges| => edges[i].authority)
  }

  /** Observation is the strongest authority and the unresolved the weakest. */
  lemma AuthoritiesAreOrdered()
    ensures Rank(OBSERVED) < Rank(DERIVED) < Rank(ANALYST_ASSESSMENT) < Rank(SUPPORTED_INFERENCE)
            < Rank(MODEL_PROPOSAL) < Rank(CONTESTED) < Rank(UNRESOLVED)
  {
  }

  /** No path with an inferred edge can claim to be observed or derived. */
  lemma InferenceShowsInTheAuthority(ledger: Ledger, objective: int, edges: seq<Edge>, e: Edge, level: Authority)
    requires PathAdmissible(ledger, objective, edges) && e in edges && e.kind == INFERENCE
    requires Weakest(level, Levels(edges))
    ensures level != OBSERVED && level != DERIVED
  {
    var i :| 0 <= i < |edges| && edges[i] == e;
    assert Levels(edges)[i] in Levels(edges);
  }

  method WeakestAuthority(levels: seq<Authority>) returns (chosen: Option<Authority>)
    ensures chosen.None? <==> levels == []
    ensures chosen.Some? ==> Weakest(chosen.value, levels)
  {
    chosen := None;
    for i := 0 to |levels|
      invariant chosen.None? <==> i == 0
      invariant chosen.Some? ==> Weakest(chosen.value, levels[..i])
    {
      assert levels[..i + 1] == levels[..i] + [levels[i]];
      if chosen == None || Rank(levels[i]) > Rank(chosen.value) {
        chosen := Some(levels[i]);
      }
    }
    assert levels[..|levels|] == levels;
  }

  /** The checks of one edge, as its construction makes them. */
  method CheckEdge(e: Edge) returns (ok: bool)
    ensures ok == EdgeAdmissible(e)
  {
    if e.from == e.to { return false; }
    if e.kind == INFERENCE {
      if e.authority == OBSERVED || e.authority == DERIVED { return false; }
      return e.reasoned;
    }
    if e.kind == ASSUMPTION_LINK { return e.assumptions != []; }
    return e.basis != [];
  }

  /** Everything an edge cites is on record. */
  method CheckCited(ledger: Ledger, e: Edge) returns (ok: bool)
    ensures ok == Evidenced(ledger, e)
  {
    for i := 0 to |e.basis|
      invariant forall k :: 0 <= k < i ==> e.basis[k] in ledger.basis
    {
      if e.basis[i] !in ledger.basis { return false; }
    }
    for i := 0 to |e.assumptions|
      invariant forall k :: 0 <= k < i ==> e.assumptions[k] in ledger.assumptions
    {
      var cited := e.assumptions[i];
      assert cited in e.assumptions;
      if cited !in ledger.assumptions { return false; }
    }
    return true;
  }

  datatype BuildOutcome = Refused | Constructed(authority: Authority)

  /** Construct a path that does not exist yet; its authority is its weakest edge. */
  method BuildPath(ledger: Ledger, objective: int, edges: seq<Edge>) returns (r: BuildOutcome)
    ensures r.Constructed? <==> PathAdmissible(ledger, objective, edges)
    ensures r.Constructed? ==> Weakest(r.authority, Levels(edges))
  {
    if objective !in ledger.objectives { return Refused; }
    if |edges| == 0 || edges[|edges| - 1].to != ObjectiveRef(objective) { return Refused; }
    for i := 0 to |edges|
      invariant forall k :: 0 <= k < i ==> Evidenced(ledger, edges[k]) && EdgeAdmissible(edges[k])
      invariant forall k :: 0 < k < i ==> edges[k - 1].to.id == edges[k].from.id
    {
      var cited := CheckCited(ledger, edges[i]);
      var wellFormed := CheckEdge(edges[i]);
      if !cited || !wellFormed {
        assert edges[i] in edges;
        return Refused;
      }
      if i > 0 && edges[i - 1].to.id != edges[i].from.id { return Refused; }
    }
    var authority := WeakestAuthority(Levels(edges));
    r := Constructed(authority.value);
  }

  // ---------------------------------------------------------------- the suggested chain

  /** One TYPED_RELATION edge for each relation of a trail, each starting where the last one ended. */
  function TrailEdges(start: Node, trail: seq<Relation>): (edges: seq<Edge>)
    ensures |edges| == |trail|
  {
    if trail == [] then []
    else
      var front, last := trail[..|trail| - 1], trail[|trail| - 1];
      TrailEdges(start, front)
      + [Edge(ObjectRef(NodeAfter(start, front)), ObjectRef(NodeAfter(start, trail)), TYPED_RELATION, SECOND_ORDER,
              DERIVED, true, [RelationRef(last.id)], [])]
  }

  function Chain(activity: int, subject: Node, v: Visit, objective: int): seq<Edge> {
    [Edge(ActivityRef(activity), ObjectRef(subject), EVENT_EFFECT, DIRECT, OBSERVED, true, [ActivityRef(activity)], [])]
    + TrailEdges(subject, v.trail)
    + [Edge(ObjectRef(v.node), ObjectiveRef(objective), DEPENDENCY, if v.trail == [] then DIRECT else SECOND_ORDER,
            DERIVED, true, [ObjectiveRef(objective)], [])]
  }

  method BuildChain(activity: int, subject: Node, v: Visit, objective: int) returns (edges: seq<Edge>)
    requires v.node == NodeAfter(subject, v.trail)
    ensures edges == Chain(activity, subject, v, objective)
  {
    var first := Edge(ActivityRef(activity), ObjectRef(subject), EVENT_EFFECT, DIRECT, OBSERVED, true,
        [ActivityRef(activity)], []);
    edges := [first];
    for i := 0 to |v.trail|
      invariant edges == [first] + TrailEdges(subject, v.trail[..i])
      invariant edges[|edges| - 1].to == ObjectRef(NodeAfter(subject, v.trail[..i]))
    {
      var relation, at := v.trail[i], edges[|edges| - 1].to;
      assert v.trail[..i + 1][..i] == v.trail[..i];
      var next := if relation.source == at.id then relation.target else relation.source;
      edges := edges
        + [Edge(at, ObjectRef(next), TYPED_RELATION, SECOND_ORDER, DERIVED, true, [RelationRef(relation.id)], [])];
    }
    assert v.trail[..|v.trail|] == v.trail;
    edges := edges + [Edge(ObjectRef(v.node), ObjectiveRef(objective), DEPENDENCY,
                           if v.trail == [] then DIRECT
                               else SECOND_ORDER, DERIVED, true, [ObjectiveRef(objective)], [])];
  }

  function Dependencies(o: Objective): set<Node> {
    set d | d in o.dependsOn && d.0 == "object" :: d.1
  }

  function Find(activities: seq<Activity>, id: int): (found: Option<Activity>)
    ensures found.None? <==> forall a :: a in activities ==> a.id != id
    ensures found.Some? ==> found.value in activities && found.value.id == id
  {
    if activities == [] then None
    else if activities[0].id == id then Some(activities[0])
    else Find(activities[1..], id)
  }

  /** Some subject of the event lies within the hop bound of a declared dependency of the objective. */
  ghost predicate Exposed(relations: seq<Relation>, a: Activity, o: Objective, maxHops: int) {
    exists i :: 0 <= i < |a.subjects| && Reaches(relations, a.subjects[i], Dependencies(o), Bound(maxHops))
  }

  /** The chain runs along a shortest trail from the first subject that is within the bound. */
  ghost predicate SuggestedFrom(relations: seq<Relation>, a: Activity, o: Objective, maxHops: int, edges: seq<Edge>,
        i: nat, v: Visit) {
    && i < |a.subjects|
    && (forall j :: 0 <= j < i ==> !Reaches(relations, a.subjects[j], Dependencies(o), Bound(maxHops)))
    && ShortestTrail(Query(relations, a.subjects[i], Dependencies(o), maxHops), v)
    && edges == Chain(a.id, a.subjects[i], v, o.id)
  }

  datatype Nearest = NotInReach | InReach(subject: nat, visit: Visit)

  /** The first subject within the bound, with a shortest trail from it. */
  method FirstInReach(relations: seq<Relation>, subjects: seq<Node>, dependencies: set<Node>, maxHops: int)
    returns (r: Nearest)
    ensures r.NotInReach? <==>
            forall j :: 0 <= j < |subjects| ==> !Reaches(relations, subjects[j], dependencies, Bound(maxHops))
    ensures r.InReach? ==>
      && r.subject < |subjects|
      && (forall j :: 0 <= j < r.subject ==> !Reaches(relations, subjects[j], dependencies, Bound(maxHops)))
      && ShortestTrail(Query(relations, subjects[r.subject], dependencies, maxHops), r.visit)
  {
    var adjacency := BuildAdjacency(relations);
    for i := 0 to |subjects|
      invariant forall j :: 0 <= j < i ==> !Reaches(relations, subjects[j], dependencies, Bound(maxHops))
    {
      var found := SearchFrom(Query(relations, subjects[i], dependencies, maxHops), adjacency);
      if found.Some? { return InReach(i, found.value); }
    }
    r := NotInReach;
  }

  /** A path of nodes from a subject of the event to an object that the objective declares, within the hop bound. */
  predicate Leads(relations: seq<Relation>, a: Activity, o: Objective, maxHops: int, nodes: seq<Node>) {
    && NodePath(relations, nodes)
    && nodes[0] in a.subjects && ("object", nodes[|nodes| - 1]) in o.dependsOn
    && (|nodes| == 1 || |nodes| - 1 <= maxHops)
  }

  lemma ExposedIsAPath(relations: seq<Relation>, a: Activity, o: Objective, maxHops: int)
    ensures Exposed(relations, a, o, maxHops) <==> exists nodes :: Leads(relations, a, o, maxHops, nodes)
  {
    forall i | 0 <= i < |a.subjects| {
      ReachesIsANodePath(relations, a.subjects[i], Dependencies(o), Bound(maxHops));
    }
    if i :| 0 <= i < |a.subjects| && Reaches(relations, a.subjects[i], Dependencies(o), Bound(maxHops)) {
      var nodes :| NodePath(relations, nodes) && nodes[0] == a.subjects[i]
                   && nodes[|nodes| - 1] in Dependencies(o) && |nodes| - 1 <= Bound(maxHops);
      assert Leads(relations, a, o, maxHops, nodes);
    }
    if nodes :| Leads(relations, a, o, maxHops, nodes) {
      var i :| 0 <= i < |a.subjects| && a.subjects[i] == nodes[0];
      assert nodes[|nodes| - 1] in Dependencies(o);
    }
  }

  /**
   * A chain exactly when ACTIVE propagating relations lead from the event to the objective; it follows a shortest
   * trail of its subject.
   */
  method SuggestPathEdges(activities: seq<Activity>, objectives: map<int, Objective>, relations: seq<Relation>,
                          activityId: int, objectiveId: int, maxHops: int)
    returns (r: Option<seq<Edge>>)
    requires forall id :: id in objectives ==> objectives[id].id == id
    ensures r.Some? <==> Find(activities, activityId).Some? && objectiveId in objectives
                         && exists nodes ::
                              Leads(relations, Find(activities, activityId).value, objectives[objectiveId], maxHops,
                                nodes)
    ensures r.Some? ==> exists i, v ::
              SuggestedFrom(relations, Find(activities, activityId).value, objectives[objectiveId], maxHops, r.value,
                i, v)
  {
    var activity := Find(activities, activityId);
    if activity.None? || objectiveId !in objectives { return None; }
    var a, o := activity.value, objectives[objectiveId];
    ExposedIsAPath(relations, a, o, maxHops);
    var dependencies := Dependencies(o);
    if dependencies == {} { return None; }
    var nearest := FirstInReach(relations, a.subjects, dependencies, maxHops);
    if nearest.NotInReach? { return None; }
    var start := a.subjects[nearest.subject];
    var edges := BuildChain(a.id, start, nearest.visit, o.id);
    assert SuggestedFrom(relations, a, o, maxHops, edges, nearest.subject, nearest.visit);
    r := Some(edges);
  }

  // ---------------------------------------------------------------- the suggested chain is a well-formed path

  lemma CutBeforeLast<T>(s: seq<T>, i: nat)
    requires i < |s| - 1
    ensures var front := s[..|s| - 1];
            s[..i] + s[i + 1..] == (front[..i] + front[i + 1..]) + [s[|s| - 1]]
  {
  }

  /** A step that stays where it is can be cut out of a trail. */
  lemma {:induction false} CutIdleStep(relations: seq<Relation>, start: Node, trail: seq<Relation>, i: nat)
    requires ValidTrail(relations, start, trail) && i < |trail|
    requires NodeAfter(start, trail[..i + 1]) == NodeAfter(start, trail[..i])
    ensures var shorter := trail[..i] + trail[i + 1..];
            ValidTrail(relations, start, shorter) && NodeAfter(start, shorter) == NodeAfter(start, trail)
    decreases |trail|
  {
    var front, last := trail[..|trail| - 1], trail[|trail| - 1];
    if i == |trail| - 1 {
      assert trail[..i] + trail[i + 1..] == front;
      assert trail[..i + 1] == trail;
    } else {
      assert front[..i + 1] == trail[..i + 1] && front[..i] == trail[..i];
      CutIdleStep(relations, start, front, i);
      CutBeforeLast(trail, i);
    }
  }

  lemma ShortestNeverIdles(q: Query, v: Visit, i: nat)
    requires ShortestTrail(q, v) && i < |v.trail|
    ensures NodeAfter(q.start, v.trail[..i + 1]) != NodeAfter(q.start, v.trail[..i])
  {
    if NodeAfter(q.start, v.trail[..i + 1]) == NodeAfter(q.start, v.trail[..i]) {
      CutIdleStep(q.relations, q.start, v.trail, i);
      assert false;
    }
  }

  lemma {:induction false} PrefixIsTrail(relations: seq<Relation>, start: Node, trail: seq<Relation>, n: nat)
    requires ValidTrail(relations, start, trail) && n <= |trail|
    ensures ValidTrail(relations, start, trail[..n])
    decreases |trail|
  {
    if n < |trail| {
      PrefixIsTrail(relations, start, trail[..|trail| - 1], n);
      assert trail[..|trail| - 1][..n] == trail[..n];
    } else {
      assert trail[..n] == trail;
    }
  }

  lemma {:induction false} TrailEdgeAt(start: Node, trail: seq<Relation>, i: nat)
    requires i < |trail|
    ensures TrailEdges(start, trail)[i] ==
              Edge(ObjectRef(NodeAfter(start, trail[..i])), ObjectRef(NodeAfter(start, trail[..i + 1])), TYPED_RELATION,
                   SECOND_ORDER, DERIVED, true, [RelationRef(trail[i].id)], [])
    decreases |trail|
  {
    var front := trail[..|trail| - 1];
    if i < |front| {
      TrailEdgeAt(start, front, i);
      assert front[..i] == trail[..i] && front[..i + 1] == trail[..i + 1];
    } else {
      assert trail[..i + 1] == trail;
    }
  }

  /** Every suggested step rests on a recorded ACTIVE relation of a propagation type between its two ends. */
  lemma StepIsBacked(q: Query, v: Visit, i: nat)
    requires ShortestTrail(q, v) && i < |v.trail|
    ensures var e := TrailEdges(q.start, v.trail)[i];
            && v.trail[i] in q.relations && e.basis == [RelationRef(v.trail[i].id)]
            && v.trail[i].active
            && v.trail[i].relationType in
              ["DEPENDS_ON", "SUPPLIES", "OWNS", "OPERATES", "HOLDS_ROLE", "PUBLISHED_BY", "SUCCESSOR_OF"]
            && {e.from.id, e.to.id} == {v.trail[i].source, v.trail[i].target}
            && e.from != e.to
  {
    TrailEdgeAt(q.start, v.trail, i);
    PrefixIsTrail(q.relations, q.start, v.trail, i + 1);
    assert v.trail[..i + 1][..i] == v.trail[..i];
    ShortestNeverIdles(q, v, i);
  }

  /**
   * A suggestion can always be built: it is connected, ends at the objective, has no self-loop, cites only records
   * that exist, and the path it makes claims DERIVED authority and no more.
   */
  lemma SuggestionIsAdmissible(ledger: Ledger, relations: seq<Relation>, a: Activity, o: Objective, maxHops: int,
                               edges: seq<Edge>, i: nat, v: Visit)
    requires SuggestedFrom(relations, a, o, maxHops, edges, i, v)
    requires o.id in ledger.objectives && ObjectiveRef(o.id) in ledger.basis && ActivityRef(a.id) in ledger.basis
    requires forall r :: r in relations ==> RelationRef(r.id) in ledger.basis
    ensures PathAdmissible(ledger, o.id, edges)
    ensures forall k :: 0 < k < |edges| ==> edges[k - 1].to == edges[k].from
    ensures Weakest(DERIVED, Levels(edges))
    ensures |edges| == |v.trail| + 2
  {
    var q := Query(relations, a.subjects[i], Dependencies(o), maxHops);
    var start, steps := a.subjects[i], TrailEdges(a.subjects[i], v.trail);
    assert v.trail[..|v.trail|] == v.trail && v.trail[..0] == [];
    forall k | 0 <= k < |edges|
      ensures Evidenced(ledger, edges[k]) && EdgeAdmissible(edges[k]) && Rank(edges[k].authority) <= Rank(DERIVED)
      ensures k > 0 ==> edges[k - 1].to == edges[k].from
    {
      if 0 < k <= |v.trail| {
        TrailEdgeAt(start, v.trail, k - 1);
        StepIsBacked(q, v, k - 1);
        assert edges[k] == steps[k - 1];
        assert v.trail[k - 1] in relations;
      }
      if 1 < k <= |v.trail| + 1 {
        TrailEdgeAt(start, v.trail, k - 2);
        assert edges[k - 1] == steps[k - 2];
      }
    }
    assert Levels(edges)[|edges| - 1] == DERIVED;
  }
}
