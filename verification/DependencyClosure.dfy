/** Everything that rests on given state: the worklist over reverse dependencies. */
module DependencyClosure {
  import opened FiniteSets

  /** An addressable analytical object. */
  datatype Ref = Assumption(id: int) | Path(id: int) | Objective(id: int) | Other(kind: int, id: int)

  /** Reverse dependencies: what rests directly on an object. */
  type Index = map<Ref, set<Ref>>

  function Get(index: Index, r: Ref): set<Ref> {
    if r in index then index[r] else {}
  }

  ghost predicate Closed(index: Index, s: set<Ref>) {
    forall r :: r in s ==> Get(index, r) <= s
  }

  /** The least set that holds `direct` and everything resting on what it holds. */
  ghost predicate IsClosure(index: Index, direct: set<Ref>, s: set<Ref>) {
    && direct <= s && Closed(index, s)
    && forall t: set<Ref> :: direct <= t && Closed(index, t) ==> s <= t
  }

  function AllDependents(index: Index): set<Ref> {
    set r, d | r in index && d in index[r] :: d
  }

  /** What rests on the frontier and was not found before. */
  method Expand(index: Index, frontier: set<Ref>, affected: set<Ref>) returns (next: set<Ref>)
    ensures next <= AllDependents(index) && next !! affected
    ensures forall r :: r in frontier ==> Get(index, r) <= affected + next
    ensures forall t: set<Ref> :: frontier <= t && Closed(index, t) ==> next <= t
  {
    next := {};
    var rest := frontier;
    while rest != {}
      invariant rest <= frontier && next <= AllDependents(index) && next !! affected
      invariant forall r :: r in frontier && r !in rest ==> Get(index, r) <= affected + next
      invariant forall t: set<Ref> :: frontier <= t && Closed(index, t) ==> next <= t
      decreases |rest|
    {
      var r :| r in rest;
      next := next + (Get(index, r) - affected);
      rest := rest - {r};
    }
  }

  method AffectedBy(index: Index, direct: set<Ref>) returns (affected: set<Ref>)
    ensures IsClosure(index, direct, affected)
  {
    affected := direct;
    var frontier := affected;
    while frontier != {}
      invariant direct <= affected <= direct + AllDependents(index) && frontier <= affected
      invariant forall r :: r in affected && r !in frontier ==> Get(index, r) <= affected
      invariant forall t: set<Ref> :: direct <= t && Closed(index, t) ==> affected <= t
      decreases |direct + AllDependents(index)| - |affected|, |frontier|
    {
      var next := Expand(index, frontier, affected);
      if next != {} { GrowsStrictly(affected, affected + next, direct + AllDependents(index)); }
      affected := affected + next;
      frontier := next;
    }
  }

  lemma GrowsStrictly<T>(small: set<T>, big: set<T>, bound: set<T>)
    requires small <= big <= bound && small != big
    ensures |small| < |big| <= |bound|
  {
    var x :| x in big && x !in small;
    SubsetIsNotLarger(small + {x}, big);
    SubsetIsNotLarger(big, bound);
  }

  // ---------------------------------------------------------------- reachability

  /** A chain of direct dependences from one of the starting objects. */
  predicate Chain(index: Index, direct: set<Ref>, chain: seq<Ref>) {
    && chain != [] && chain[0] in direct
    && forall i :: 0 < i < |chain| ==> chain[i] in Get(index, chain[i - 1])
  }

  lemma {:induction false} ChainStaysInside(index: Index, direct: set<Ref>, s: set<Ref>, chain: seq<Ref>)
    requires direct <= s && Closed(index, s) && Chain(index, direct, chain)
    ensures chain[|chain| - 1] in s
  {
    if |chain| > 1 {
      var front := chain[..|chain| - 1];
      ChainStaysInside(index, direct, s, front);
      assert chain[|chain| - 1] in Get(index, front[|front| - 1]);
    }
  }

  ghost predicate Rests(index: Index, direct: set<Ref>, r: Ref) {
    exists chain :: Chain(index, direct, chain) && chain[|chain| - 1] == r
  }

  /** The closure holds exactly what a chain of dependences reaches. */
  lemma ClosureIsReachability(index: Index, direct: set<Ref>, s: set<Ref>, r: Ref)
    requires IsClosure(index, direct, s)
    ensures r in s <==> Rests(index, direct, r)
  {
    if Rests(index, direct, r) {
      var chain :| Chain(index, direct, chain) && chain[|chain| - 1] == r;
      ChainStaysInside(index, direct, s, chain);
    }
    var reached := ReachedWithin(index, direct, s);
    assert s <= reached;
  }

  ghost function ReachedWithin(index: Index, direct: set<Ref>, s: set<Ref>): (t: set<Ref>)
    requires direct <= s && Closed(index, s)
    ensures direct <= t && Closed(index, t) && forall r :: r in t ==> Rests(index, direct, r)
  {
    var t := set r | r in s && Rests(index, direct, r);
    ReachedIsClosed(index, direct, s);
    t
  }

  lemma StartRests(index: Index, direct: set<Ref>, r: Ref)
    requires r in direct
    ensures Rests(index, direct, r)
  {
    var chain := [r];
    assert Chain(index, direct, chain) && chain[|chain| - 1] == r;
  }

  lemma NextRests(index: Index, direct: set<Ref>, r: Ref, d: Ref)
    requires Rests(index, direct, r) && d in Get(index, r)
    ensures Rests(index, direct, d)
  {
    var chain :| Chain(index, direct, chain) && chain[|chain| - 1] == r;
    var longer := chain + [d];
    forall i | 0 < i < |longer| ensures longer[i] in Get(index, longer[i - 1]) {
      if i < |chain| { assert chain[i] in Get(index, chain[i - 1]); }
    }
    assert Chain(index, direct, longer) && longer[|longer| - 1] == d;
  }

  lemma ReachedIsClosed(index: Index, direct: set<Ref>, s: set<Ref>)
    requires direct <= s && Closed(index, s)
    ensures var t := set r | r in s && Rests(index, direct, r); direct <= t && Closed(index, t)
  {
    var t := set r | r in s && Rests(index, direct, r);
    forall r | r in direct ensures r in t { StartRests(index, direct, r); }
    forall r | r in t ensures Get(index, r) <= t {
      forall d | d in Get(index, r) ensures d in t { NextRests(index, direct, r, d); }
    }
  }
}
