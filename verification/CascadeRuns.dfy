/** What a cascade guarantees, whole, interrupted or repeated. */
module CascadeRuns {
  import opened DependencyClosure
  import opened InvalidationCascade
  import opened CascadeEngine

  predicate IsStale(p: PathRecord) {
    p.status == STALE || p.status == PathStatus.INVALIDATED
  }

  /** Every path that cites the assumption is stale, and the objective it leads to is exposed. */
  lemma CitingPathsAreMarked(s: State, d: set<Ref>, a: int, against: set<int>, cause: int, p: int)
    requires WellFormed(s) && a in s.assumptions && RestsOn(s, a, d) && p in s.paths && a in s.paths[p].assumptions
    ensures var t := Cascaded(s, d, a, against, cause);
            && t.assumptions[a].status == AssumptionStatus.INVALIDATED
            && IsStale(t.paths[p]) && t.objectives[s.paths[p].objective].status == EXPOSED
  {
    assert Hit(s.paths, d, s.paths[p].objective);
  }

  /** So is every objective that cites the assumption or is named by it. */
  lemma NamedObjectivesAreExposed(s: State, d: set<Ref>, a: int, against: set<int>, cause: int, o: int)
    requires a in s.assumptions && RestsOn(s, a, d) && o in s.objectives
    requires a in s.objectives[o].assumptions || o in s.assumptions[a].objectives
    ensures Cascaded(s, d, a, against, cause).objectives[o].status == EXPOSED
  {
  }

  /** The object cites the assumption, or is an objective that the assumption names. */
  predicate CitesOrNamed(s: State, a: int, r: Ref) {
    || (r.Path? && r.id in s.paths && a in s.paths[r.id].assumptions)
    || (r.Objective? && r.id in s.objectives && a in s.objectives[r.id].assumptions)
    || (r.Objective? && a in s.assumptions && r.id in s.assumptions[a].objectives)
    || (a in s.citing && r in s.citing[a])
  }

  /** Each object of the chain rests directly on the one before it, and the first on the assumption. */
  predicate ChainFrom(s: State, a: int, chain: seq<Ref>) {
    && chain != [] && CitesOrNamed(s, a, chain[0])
    && forall i :: 0 < i < |chain| ==> RestsDirectly(s, chain[i], chain[i - 1])
  }

  /** A chain of dependences leads from the assumption to `r`. */
  ghost predicate RestsByChain(s: State, a: int, r: Ref) {
    exists chain :: ChainFrom(s, a, chain) && chain[|chain| - 1] == r
  }

  lemma ChainsAreChains(s: State, index: Index, a: int, r: Ref)
    requires IsIndex(s, index)
    ensures Rests(index, Direct(s, a), r) <==> RestsByChain(s, a, r)
  {
    forall x ensures x in Direct(s, a) <==> CitesOrNamed(s, a, x) { }
    forall chain ensures Chain(index, Direct(s, a), chain) <==> ChainFrom(s, a, chain) {
      forall i | 0 < i < |chain|
        ensures chain[i] in Get(index, chain[i - 1]) <==> RestsDirectly(s, chain[i], chain[i - 1]) { }
    }
    if Rests(index, Direct(s, a), r) {
      var chain :| Chain(index, Direct(s, a), chain) && chain[|chain| - 1] == r;
      assert ChainFrom(s, a, chain);
    }
    if RestsByChain(s, a, r) {
      var chain :| ChainFrom(s, a, chain) && chain[|chain| - 1] == r;
      assert Chain(index, Direct(s, a), chain);
    }
  }

  lemma ClosureIsByChain(s: State, a: int, d: set<Ref>, r: Ref)
    requires RestsOn(s, a, d)
    ensures r in d <==> RestsByChain(s, a, r)
  {
    var i :| IsIndex(s, i) && IsClosure(i, Direct(s, a), d);
    ClosureIsReachability(i, Direct(s, a), d, r);
    ChainsAreChains(s, i, a, r);
  }

  lemma SameIndexSameClosure(s: State, a: int, i: Index, j: Index, d: set<Ref>)
    requires IsIndex(s, i) && IsIndex(s, j) && IsClosure(i, Direct(s, a), d)
    ensures IsClosure(j, Direct(s, a), d)
  {
    forall r ensures Get(i, r) == Get(j, r) {
      forall x ensures x in Get(i, r) <==> x in Get(j, r) { assert RestsDirectly(s, x, r) == RestsDirectly(s, x, r); }
    }
  }

  /** The path's next version, unless it does not rest on the assumption or was stale already. */
  ghost predicate PathAfter(s: State, t: State, a: int, p: int)
    requires p in s.paths && p in t.paths
  {
    t.paths[p] == if !IsStale(s.paths[p]) && RestsByChain(s, a, Path(p))
                  then s.paths[p].(version := s.paths[p].version + 1, status := STALE) else s.paths[p]
  }

  /** The objective rests on the assumption itself, or a path that does leads to it. */
  ghost predicate Exposes(s: State, a: int, o: int) {
    || RestsByChain(s, a, Objective(o))
    || exists p :: p in s.paths && s.paths[p].objective == o && RestsByChain(s, a, Path(p))
  }

  ghost predicate ObjectiveAfter(s: State, t: State, a: int, o: int)
    requires o in s.objectives && o in t.objectives
  {
    t.objectives[o] == if s.objectives[o].status != EXPOSED && Exposes(s, a, o)
                       then s.objectives[o].(version := s.objectives[o].version + 1, status := EXPOSED)
                       else s.objectives[o]
  }

  /** The transitions of a cascade: the assumption's, each path's and its objective's, and each objective's own. */
  ghost predicate MarkedBy(s: State, a: int, cause: int, m: Mark) {
    || m == Mark(Assumption(a), Act(cause))
    || (exists p :: p in s.paths && RestsByChain(s, a, Path(p))
          && (m == Mark(Path(p), Act(cause)) || m == Mark(Objective(s.paths[p].objective), Through(cause, Path(p)))))
    || (exists o :: o in s.objectives && RestsByChain(s, a, Objective(o))
          && m == Mark(Objective(o), Through(cause, Assumption(a))))
  }

  /**
   * A completed cascade adds one version to exactly what rests on the assumption: to a path, if a chain of dependences
   * leads to it and it was not stale yet; to an objective, if such a chain leads to it or to a path that ends at it and
   * it was not exposed yet; to no other assumption.
   */
  lemma ChangesExactlyWhatRests(s: State, d: set<Ref>, a: int, against: set<int>, cause: int)
    requires a in s.assumptions && RestsOn(s, a, d)
    ensures var t := Cascaded(s, d, a, against, cause);
            && (forall p :: p in s.paths ==> p in t.paths && PathAfter(s, t, a, p))
            && (forall o :: o in s.objectives ==> o in t.objectives && ObjectiveAfter(s, t, a, o))
            && (forall x :: x in s.assumptions && x != a ==> t.assumptions[x] == s.assumptions[x])
    ensures var u := s.assumptions[a];
            Cascaded(s, d, a, against, cause).assumptions[a] ==
              if u.status == AssumptionStatus.INVALIDATED then u
              else AssumptionRecord(u.version + 1, AssumptionStatus.INVALIDATED, u.against + against, u.objectives)
  {
    var t := Cascaded(s, d, a, against, cause);
    forall r ensures r in d <==> RestsByChain(s, a, r) { ClosureIsByChain(s, a, d, r); }
    forall p | p in s.paths ensures PathAfter(s, t, a, p) { }
    forall o | o in s.objectives ensures ObjectiveAfter(s, t, a, o) {
      assert Hit(s.paths, d, o) <==> Exposes(s, a, o);
    }
  }

  /** It records exactly their transitions. */
  lemma MarksExactlyWhatRests(s: State, d: set<Ref>, a: int, against: set<int>, cause: int, m: Mark)
    requires a in s.assumptions && RestsOn(s, a, d)
    ensures m in Cascaded(s, d, a, against, cause).marks <==> m in s.marks || MarkedBy(s, a, cause, m)
  {
    forall r ensures r in d <==> RestsByChain(s, a, r) { ClosureIsByChain(s, a, d, r); }
    assert m in PathMarks(s.paths, d, cause) <==>
      exists p :: p in s.paths && Path(p) in d
        && (m == Mark(Path(p), Act(cause)) || m == Mark(Objective(s.paths[p].objective), Through(cause, Path(p))));
  }

  lemma RestsIsUnique(s: State, a: int, d: set<Ref>, e: set<Ref>)
    requires RestsOn(s, a, d) && RestsOn(s, a, e)
    ensures d == e
  {
    var i :| IsIndex(s, i) && IsClosure(i, Direct(s, a), d);
    var j :| IsIndex(s, j) && IsClosure(j, Direct(s, a), e);
    SameIndexSameClosure(s, a, j, i, e);
  }

  /** A call resumed from any state a crash can leave ends where the uninterrupted call ends. */
  lemma ResumedCallEndsTheSame(s: State, u: State, d: set<Ref>, e: set<Ref>, a: int, against: set<int>, cause: int)
    requires WellFormed(s) && a in s.assumptions && RestsOn(s, a, d)
    requires Between(s, Cascaded(s, d, a, against, cause), u) && RestsOn(u, a, e)
    ensures WellFormed(u) && a in u.assumptions
    ensures Cascaded(u, e, a, against, cause) == Cascaded(s, d, a, against, cause)
  {
    SameRests(s, u, a, d);
    RestsIsUnique(u, a, d, e);
    ResumeCompletes(s, u, d, a, against, cause);
    forall p | p in u.paths
      ensures u.paths[p].objective in u.objectives { assert u.paths[p].objective == s.paths[p].objective; }
  }

  /** Repeating a completed call changes nothing. */
  lemma RepeatedCallChangesNothing(s: State, d: set<Ref>, e: set<Ref>, a: int, against: set<int>, cause: int)
    requires WellFormed(s) && a in s.assumptions && RestsOn(s, a, d)
    requires RestsOn(Cascaded(s, d, a, against, cause), a, e)
    ensures Cascaded(Cascaded(s, d, a, against, cause), e, a, against, cause) == Cascaded(s, d, a, against, cause)
  {
    PartIsBetween(s, d, d, a, against, cause);
    ResumedCallEndsTheSame(s, Cascaded(s, d, a, against, cause), d, e, a, against, cause);
  }

  /**
   * An assumption that names an objective not on record stops the cascade. The paths are all restated, but an
   * objective at or above the missing id that no path of the worklist leads to is left as it was.
   */
  lemma StoppedShortLeaves(s: State, d: set<Ref>, a: int, against: set<int>, cause: int, missing: int, o: int)
    requires a in s.assumptions && o in s.objectives && missing !in s.objectives
    ensures var t := Marked(Withdrawn(s, a, against, cause), Reached(s, d, Id(missing)), a, cause);
            && (forall p :: p in s.paths && Path(p) in d ==> IsStale(t.paths[p]))
            && (t.objectives[o].status == EXPOSED <==>
                  || s.objectives[o].status == EXPOSED || (Objective(o) in d && o < missing)
                  || exists p :: p in s.paths && Path(p) in d && s.paths[p].objective == o)
  {
    var part := Reached(s, d, Id(missing));
    forall p | p in s.paths ensures Path(p) in part <==> Path(p) in d { }
    assert Objective(o) in part <==> Objective(o) in d && o < missing by {
      if Objective(o) in d { assert Objective(o).id in ObjectiveIds(d); }
    }
    assert Hit(s.paths, part, o) <==>
           Objective(o) in part || exists p :: p in s.paths && Path(p) in d && s.paths[p].objective == o;
  }
}
