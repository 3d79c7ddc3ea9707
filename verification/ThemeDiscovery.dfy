/** Candidate themes: CURRENT claims grouped by connected component of the world graph. */
module ThemeDiscovery {
  import opened FiniteSets
  import opened UnionFinding

  /** A claim about `subject`; `other` is the far end of a claim that links two objects. */
  datatype Claim = Claim(id: int, subject: Node, other: Linked, current: bool)
  datatype Linked = NoObject | Object(node: Node)
  datatype Relation = Relation(source: Node, target: Node, active: bool)
  datatype Activity = Activity(id: int, subjects: set<Node>)
  datatype Candidate = Candidate(root: Node, members: seq<Claim>, entities: set<Node>, events: set<int>)

  // ---------------------------------------------------------------- the graph the grouping is about

  predicate ClaimLink(claims: seq<Claim>, a: Node, b: Node) {
    exists c :: c in claims && c.subject == a && c.other == Object(b)
  }

  predicate RelationLink(relations: seq<Relation>, a: Node, b: Node) {
    exists r :: r in relations && r.active && r.source == a && r.target == b
  }

  ghost predicate GraphOf(links: Links, claims: seq<Claim>, relations: seq<Relation>) {
    forall a, b :: (a, b) in links <==> ClaimLink(claims, a, b) || RelationLink(relations, a, b)
  }

  /** The graph over objects: the claims that link two objects, and the ACTIVE relations. */
  function LinksOf(claims: seq<Claim>, relations: seq<Relation>): (links: Links)
    ensures GraphOf(links, claims, relations)
  {
    (set c | c in claims && c.other.Object? :: (c.subject, c.other.node))
    + set r | r in relations && r.active :: (r.source, r.target)
  }

  lemma GraphIsUnique(x: Links, y: Links, claims: seq<Claim>, relations: seq<Relation>)
    requires GraphOf(x, claims, relations) && GraphOf(y, claims, relations)
    ensures x == y
  {
    forall l: (Node, Node) ensures l in x <==> l in y {
      var (a, b) := l;
      assert (a, b) in x <==> ClaimLink(claims, a, b) || RelationLink(relations, a, b);
      assert (a, b) in y <==> ClaimLink(claims, a, b) || RelationLink(relations, a, b);
    }
  }

  function CurrentClaims(claims: seq<Claim>): seq<Claim> {
    if claims == [] then []
    else (if claims[0].current then [claims[0]] else []) + CurrentClaims(claims[1..])
  }

  lemma {:induction false} CurrentClaimsAre(claims: seq<Claim>)
    ensures forall c :: c in CurrentClaims(claims) <==> c in claims && c.current
  {
    if claims != [] { CurrentClaimsAre(claims[1..]); }
  }

  /** The claims of one component, in the order they are met. */
  function Members(claims: seq<Claim>, rep: map<Node, Node>, r: Node): seq<Claim> {
    if claims == [] then []
    else
      var last := claims[|claims| - 1];
      Members(claims[..|claims| - 1], rep, r)
      + (if last.subject in rep && rep[last.subject] == r then [last] else [])
  }

  lemma {:induction false} MembersAre(claims: seq<Claim>, rep: map<Node, Node>, r: Node)
    ensures forall c :: c in Members(claims, rep, r) <==> c in claims && c.subject in rep && rep[c.subject] == r
  {
    if claims != [] {
      MembersAre(claims[..|claims| - 1], rep, r);
      assert claims == claims[..|claims| - 1] + [claims[|claims| - 1]];
    }
  }

  function Entities(members: seq<Claim>): set<Node> {
    (set c | c in members :: c.subject) + set c | c in members && c.other.Object? :: c.other.node
  }

  function Events(activities: seq<Activity>, entities: set<Node>): set<int> {
    set a | a in activities && a.subjects * entities != {} :: a.id
  }

  /** How many CURRENT claims lie in the component of `n`. */
  ghost function ComponentSize(current: seq<Claim>, links: Links, n: Node): nat {
    if current == [] then 0
    else ComponentSize(current[..|current| - 1], links, n)
         + (if Connected(links, n, current[|current| - 1].subject) then 1 else 0)
  }

  lemma {:induction false} MembersCount(claims: seq<Claim>, rep: map<Node, Node>, links: Links, n: Node)
    requires Separates(rep, links) && n in rep && forall c :: c in claims ==> c.subject in rep
    ensures |Members(claims, rep, rep[n])| == ComponentSize(claims, links, n)
  {
    if claims != [] {
      var front := claims[..|claims| - 1];
      assert forall c :: c in front ==> c in claims;
      MembersCount(front, rep, links, n);
      assert claims[|claims| - 1] in claims;
      LabelsDecide(rep, links, n, claims[|claims| - 1].subject);
    }
  }

  /** `c` is the candidate of one whole component: exactly the CURRENT claims whose subjects connect to its root. */
  ghost predicate WholeComponent(c: Candidate, current: seq<Claim>, links: Links, activities: seq<Activity>) {
    && (forall claim :: claim in c.members <==> claim in current && Connected(links, c.root, claim.subject))
    && |c.members| == ComponentSize(current, links, c.root)
    && (forall n :: n in c.entities <==>
          exists claim :: claim in c.members && (claim.subject == n || claim.other == Object(n)))
    && (forall id :: id in c.events <==>
          exists a, n :: a in activities && a.id == id && n in a.subjects && n in c.entities)
  }

  lemma EntitiesAre(members: seq<Claim>, n: Node)
    ensures n in Entities(members) <==>
              exists claim :: claim in members && (claim.subject == n || claim.other == Object(n))
  {
    if claim :| claim in members && claim.other == Object(n) {
      assert claim.other.Object? && claim.other.node == n;
    }
  }

  lemma EventsAre(activities: seq<Activity>, entities: set<Node>, id: int)
    ensures id in Events(activities, entities) <==>
              exists a, n :: a in activities && a.id == id && n in a.subjects && n in entities
  {
    if id in Events(activities, entities) {
      var a :| a in activities && a.subjects * entities != {} && a.id == id;
      var n := SomeElement(a.subjects * entities);
      assert n in a.subjects && n in entities;
    }
    if a, n :| a in activities && a.id == id && n in a.subjects && n in entities {
      assert n in a.subjects * entities;
    }
  }

  ghost predicate Discovered(candidates: seq<Candidate>, current: seq<Claim>, links: Links,
                             activities: seq<Activity>, minClaims: int) {
    && (forall i :: 0 <= i < |candidates| ==>
          && WholeComponent(candidates[i], current, links, activities)
          && |candidates[i].members| > 0 && |candidates[i].members| >= minClaims)
    && (forall i, j :: 0 <= i < j < |candidates| ==>
          candidates[i].root < candidates[j].root && !Connected(links, candidates[i].root, candidates[j].root))
    && (forall claim :: claim in current && ComponentSize(current, links, claim.subject) >= minClaims ==>
          exists i :: 0 <= i < |candidates| && claim in candidates[i].members)
  }

  // ---------------------------------------------------------------- the grouping

  /** Unite every claim link and every ACTIVE relation, entering each claim's subject. */
  method Unite(current: seq<Claim>, relations: seq<Relation>) returns (uf: UnionFind)
    ensures fresh(uf) && uf.Valid()
    ensures GraphOf(uf.links, current, relations)
    ensures forall c :: c in current ==> c.subject in uf.root
  {
    uf := new UnionFind();
    for i := 0 to |current|
      invariant fresh(uf) && uf.Valid()
      invariant GraphOf(uf.links, current[..i], [])
      invariant forall c :: c in current[..i] ==> c.subject in uf.root
    {
      var c := current[i];
      assert current[..i + 1] == current[..i] + [c];
      var _ := uf.Find(c.subject);
      if c.other.Object? {
        uf.Union(c.subject, c.other.node);
      }
    }
    assert current[..|current|] == current;
    for i := 0 to |relations|
      invariant fresh(uf) && uf.Valid()
      invariant GraphOf(uf.links, current, relations[..i])
      invariant forall c :: c in current ==> c.subject in uf.root
    {
      var r := relations[i];
      assert relations[..i + 1] == relations[..i] + [r];
      if r.active {
        uf.Union(r.source, r.target);
      }
    }
    assert relations[..|relations|] == relations;
  }

  ghost predicate GroupedBy(components: map<Node, seq<Claim>>, claims: seq<Claim>, rep: map<Node, Node>) {
    && (forall r :: r in components ==> components[r] == Members(claims, rep, r) && components[r] != [])
    && (forall c :: c in claims ==> c.subject in rep && rep[c.subject] in components)
  }

  function Filed(components: map<Node, seq<Claim>>, r: Node, c: Claim): map<Node, seq<Claim>> {
    components[r := (if r in components then components[r] else []) + [c]]
  }

  lemma {:induction false} NoMembers(claims: seq<Claim>, rep: map<Node, Node>, r: Node)
    requires forall c :: c in claims ==> !(c.subject in rep && rep[c.subject] == r)
    ensures Members(claims, rep, r) == []
  {
    if claims != [] {
      assert claims[|claims| - 1] in claims;
      NoMembers(claims[..|claims| - 1], rep, r);
    }
  }

  lemma FilingGroups(components: map<Node, seq<Claim>>, claims: seq<Claim>, c: Claim, rep: map<Node, Node>)
    requires GroupedBy(components, claims, rep) && c.subject in rep
    ensures GroupedBy(Filed(components, rep[c.subject], c), claims + [c], rep)
  {
    var r := rep[c.subject];
    var filed := Filed(components, r, c);
    forall k | k in filed ensures filed[k] == Members(claims + [c], rep, k) && filed[k] != [] {
      if k !in components {
        NoMembers(claims, rep, k);
      }
    }
    forall x | x in claims + [c] ensures x.subject in rep && rep[x.subject] in filed {
      assert x in claims || x == c;
    }
  }

  method Group(current: seq<Claim>, uf: UnionFind) returns (components: map<Node, seq<Claim>>)
    requires uf.Valid() && forall c :: c in current ==> c.subject in uf.root
    modifies uf
    ensures uf.Valid() && uf.root == old(uf.root) && uf.links == old(uf.links)
    ensures GroupedBy(components, current, uf.root)
  {
    components := map[];
    for i := 0 to |current|
      invariant uf.Valid() && uf.root == old(uf.root) && uf.links == old(uf.links)
      invariant GroupedBy(components, current[..i], uf.root)
    {
      var c := current[i];
      FilingGroups(components, current[..i], c, uf.root);
      assert current[..i + 1] == current[..i] + [c];
      var r := uf.Find(c.subject);
      components := Filed(components, r, c);
    }
    assert current[..|current|] == current;
  }

  method Least(s: set<Node>) returns (least: Node)
    requires s != {}
    ensures least in s && forall n :: n in s ==> least <= n
  {
    ghost var _ := SomeElement(s);
    least :| least in s;
    var rest := s - {least};
    while rest != {}
      invariant rest <= s && least in s && forall n :: n in s && n !in rest ==> least <= n
      decreases rest
    {
      ghost var _ := SomeElement(rest);
      var n :| n in rest;
      rest := rest - {n};
      if n < least { least := n; }
    }
  }

  lemma RootsAreFixed(uf: UnionFind)
    requires uf.Valid()
    ensures forall n :: n in uf.root ==> uf.root[n] in uf.root && uf.root[uf.root[n]] == uf.root[n]
  {
    forall n | n in uf.root ensures uf.root[n] in uf.root && uf.root[uf.root[n]] == uf.root[n] {
      assert Placed(uf.parents, uf.root, uf.height, n);
      assert Placed(uf.parents, uf.root, uf.height, uf.root[n]);
    }
  }

  lemma ComponentIsWhole(c: Candidate, current: seq<Claim>, rep: map<Node, Node>, links: Links,
        activities: seq<Activity>)
    requires Separates(rep, links) && forall claim :: claim in current ==> claim.subject in rep
    requires c.members == Members(current, rep, c.root) && c.members != []
    requires c.entities == Entities(c.members) && c.events == Events(activities, c.entities)
    requires c.root in rep && rep[c.root] == c.root
    ensures WholeComponent(c, current, links, activities)
  {
    MembersAre(current, rep, c.root);
    forall claim | claim in current
      ensures claim in c.members <==> Connected(links, c.root, claim.subject)
    {
      LabelsDecide(rep, links, c.root, claim.subject);
    }
    MembersCount(current, rep, links, c.root);
    forall n { EntitiesAre(c.members, n); }
    forall id { EventsAre(activities, c.entities, id); }
  }

  /** The candidate a component makes. */
  function CandidateOf(components: map<Node, seq<Claim>>, root: Node, activities: seq<Activity>): Candidate
    requires root in components
  {
    Candidate(root, components[root], Entities(components[root]), Events(activities, Entities(components[root])))
  }

  predicate ListedAt(candidates: seq<Candidate>, components: map<Node, seq<Claim>>, done: set<Node>,
                     activities: seq<Activity>, minClaims: int, i: nat)
    requires i < |candidates|
  {
    var root := candidates[i].root;
    root in components && root in done && candidates[i] == CandidateOf(components, root, activities)
      && |components[root]| >= minClaims
  }

  /** The candidates listed are the large enough components, each once, in order of root. */
  ghost predicate Listed(candidates: seq<Candidate>, components: map<Node, seq<Claim>>, done: set<Node>,
                         activities: seq<Activity>, minClaims: int) {
    && (forall i :: 0 <= i < |candidates| ==> ListedAt(candidates, components, done, activities, minClaims, i))
    && (forall i, j :: 0 <= i < j < |candidates| ==> candidates[i].root < candidates[j].root)
    && (forall r :: r in components && r in done && |components[r]| >= minClaims ==>
          exists i :: 0 <= i < |candidates| && candidates[i].root == r)
  }

  lemma ListingOneMore(candidates: seq<Candidate>, components: map<Node, seq<Claim>>, done: set<Node>,
                       activities: seq<Activity>, minClaims: int, root: Node, more: seq<Candidate>)
    requires Listed(candidates, components, done, activities, minClaims)
    requires root in components && forall r :: r in done ==> r < root
    requires more == if |components[root]| >= minClaims then candidates + [CandidateOf(components, root, activities)]
             else candidates
    ensures Listed(more, components, done + {root}, activities, minClaims)
  {
    forall i | 0 <= i < |more| ensures ListedAt(more, components, done + {root}, activities, minClaims, i) {
      if i < |candidates| { assert ListedAt(candidates, components, done, activities, minClaims, i); }
    }
    forall i, j | 0 <= i < j < |more| ensures more[i].root < more[j].root {
      assert ListedAt(candidates, components, done, activities, minClaims, i);
    }
    forall r | r in components && r in done + {root} && |components[r]| >= minClaims
      ensures exists i :: 0 <= i < |more| && more[i].root == r
    {
      if r == root {
        assert more[|candidates|].root == r;
      } else {
        var i :| 0 <= i < |candidates| && candidates[i].root == r;
        assert more[i].root == r;
      }
    }
  }

  method List(components: map<Node, seq<Claim>>, activities: seq<Activity>, minClaims: int)
    returns (candidates: seq<Candidate>)
    ensures Listed(candidates, components, components.Keys, activities, minClaims)
  {
    candidates := [];
    var rest := components.Keys;
    while rest != {}
      invariant rest <= components.Keys
      invariant forall r, n :: r in components && r !in rest && n in rest ==> r < n
      invariant Listed(candidates, components, components.Keys - rest, activities, minClaims)
      decreases rest
    {
      var root := Least(rest);
      var more := if |components[root]| >= minClaims then candidates + [CandidateOf(components, root, activities)]
          else candidates;
      ListingOneMore(candidates, components, components.Keys - rest, activities, minClaims, root, more);
      assert components.Keys - (rest - {root}) == components.Keys - rest + {root};
      rest := rest - {root};
      candidates := more;
    }
    assert components.Keys - {} == components.Keys;
  }

  lemma GroupingIsDiscovery(candidates: seq<Candidate>, components: map<Node, seq<Claim>>, current: seq<Claim>,
                            rep: map<Node, Node>, links: Links, activities: seq<Activity>, minClaims: int)
    requires Separates(rep, links) && GroupedBy(components, current, rep)
    requires forall n :: n in rep ==> rep[n] in rep && rep[rep[n]] == rep[n]
    requires Listed(candidates, components, components.Keys, activities, minClaims)
    ensures Discovered(candidates, current, links, activities, minClaims)
  {
    forall r | r in components ensures r in rep && rep[r] == r {
      MembersAre(current, rep, r);
      assert components[r][0] in Members(current, rep, r);
    }
    forall i | 0 <= i < |candidates| ensures WholeComponent(candidates[i], current, links, activities) {
      assert ListedAt(candidates, components, components.Keys, activities, minClaims, i);
      ComponentIsWhole(candidates[i], current, rep, links, activities);
    }
    forall i | 0 <= i < |candidates| ensures |candidates[i].members| > 0 && |candidates[i].members| >= minClaims {
      assert ListedAt(candidates, components, components.Keys, activities, minClaims, i);
      assert candidates[i].members == components[candidates[i].root];
    }
    forall i, j | 0 <= i < j < |candidates| ensures !Connected(links, candidates[i].root, candidates[j].root) {
      assert ListedAt(candidates, components, components.Keys, activities, minClaims, i);
      assert ListedAt(candidates, components, components.Keys, activities, minClaims, j);
      LabelsDecide(rep, links, candidates[i].root, candidates[j].root);
    }
    forall claim | claim in current && ComponentSize(current, links, claim.subject) >= minClaims
      ensures exists i :: 0 <= i < |candidates| && claim in candidates[i].members
    {
      var r := rep[claim.subject];
      MembersCount(current, rep, links, claim.subject);
      MembersAre(current, rep, r);
      var i :| 0 <= i < |candidates| && candidates[i].root == r;
      assert ListedAt(candidates, components, components.Keys, activities, minClaims, i);
      assert claim in candidates[i].members;
    }
  }

  /**
   * Two CURRENT claims land in the same candidate exactly when their subjects are connected through claim links
   * and ACTIVE relations; components of fewer than `minClaims` claims, and only those, yield no candidate.
   */
  method DiscoverThemeCandidates(claims: seq<Claim>, relations: seq<Relation>, activities: seq<Activity>,
        minClaims: int)
    returns (candidates: seq<Candidate>)
    ensures Discovered(candidates, CurrentClaims(claims), LinksOf(CurrentClaims(claims), relations), activities,
            minClaims)
  {
    var current := CurrentClaims(claims);
    var uf := Unite(current, relations);
    ghost var links := LinksOf(current, relations);
    GraphIsUnique(uf.links, links, current, relations);
    var components := Group(current, uf);
    RootsAreFixed(uf);
    candidates := List(components, activities, minClaims);
    GroupingIsDiscovery(candidates, components, current, uf.root, links, activities, minClaims);
  }

  /** The iff a reader wants: sharing a candidate is being connected. */
  lemma SameCandidateIffConnected(candidates: seq<Candidate>, current: seq<Claim>, links: Links,
        activities: seq<Activity>,
                                  minClaims: int, x: Claim, y: Claim, i: nat, j: nat)
    requires Discovered(candidates, current, links, activities, minClaims)
    requires i < |candidates| && j < |candidates| && x in candidates[i].members && y in candidates[j].members
    ensures i == j <==> Connected(links, x.subject, y.subject)
  {
    var rx, ry := candidates[i].root, candidates[j].root;
    assert WholeComponent(candidates[i], current, links, activities);
    assert WholeComponent(candidates[j], current, links, activities);
    if i == j {
      ConnectedSym(links, rx, x.subject);
      ConnectedTrans(links, x.subject, rx, y.subject);
    } else if Connected(links, x.subject, y.subject) {
      ConnectedTrans(links, rx, x.subject, y.subject);
      ConnectedSym(links, ry, y.subject);
      ConnectedTrans(links, rx, y.subject, ry);
      ConnectedSym(links, rx, ry);
      assert false;
    }
  }
}
