/** Invalidating an assumption marks everything that rests on it, and picks up where an interrupted call stopped. */
module InvalidationCascade {
  import opened FiniteSets
  import opened DependencyClosure

  // ---------------------------------------------------------------- state

  datatype AssumptionStatus = HELD | UNCERTAIN | INVALIDATED | SUPERSEDED

  datatype PathStatus = PROPOSED | ASSESSED | CHANGED | STALE | INVALIDATED | RESOLVED

  datatype ObjectiveStatus = ACTIVE | EXPOSED | ACHIEVED | ABANDONED | SUPERSEDED

  datatype AssumptionRecord = AssumptionRecord(version: int, status: AssumptionStatus, against: set<int>,
        objectives: set<int>)

  /** `rests`: the analytical objects at the ends of its edges. */
  datatype PathRecord = PathRecord(version: int, status: PathStatus, objective: int, assumptions: set<int>,
        rests: set<Ref>)

  datatype ObjectiveRecord = ObjectiveRecord(version: int, status: ObjectiveStatus, assumptions: set<int>,
        depends: set<Ref>)

  /** What a transition is caused by: the act itself, or the act through the path or assumption it came by. */
  datatype Cause = Act(act: int) | Through(act: int, via: Ref)

  /** A recorded transition, identified by what it is about and its cause. */
  datatype Mark = Mark(subject: Ref, cause: Cause)

  /** Current versions; `others` and `citing` are the dependences of and on objects of other kinds. */
  datatype State = State(
    assumptions: map<int, AssumptionRecord>, paths: map<int, PathRecord>, objectives: map<int, ObjectiveRecord>,
    others: Index, citing: map<int, set<Ref>>, marks: set<Mark>)

  predicate OnlyOthers(s: set<Ref>) {
    forall r :: r in s ==> r.Other?
  }

  /** A path's objective was on record when the path was built, and records are never removed. */
  ghost predicate WellFormed(s: State) {
    && (forall p :: p in s.paths ==> s.paths[p].objective in s.objectives)
    && (forall r :: r in s.others ==> OnlyOthers(s.others[r]))
      && (forall a :: a in s.citing ==> OnlyOthers(s.citing[a]))
  }

  // ---------------------------------------------------------------- reverse dependencies

  predicate PathRestsOn(s: State, p: int, r: Ref) {
    p in s.paths && (r == Objective(s.paths[p].objective) || r in s.paths[p].rests)
  }

  predicate ObjectiveRestsOn(s: State, o: int, r: Ref) {
    o in s.objectives && r in s.objectives[o].depends
  }

  /** `x` rests directly on `r`. */
  predicate RestsDirectly(s: State, x: Ref, r: Ref) {
    x in Get(s.others, r) || (x.Path? && PathRestsOn(s, x.id, r)) || (x.Objective? && ObjectiveRestsOn(s, x.id, r))
  }

  /** What names the assumption, or is named by it. */
  function Direct(s: State, a: int): set<Ref> {
    (if a in s.assumptions then set o | o in s.assumptions[a].objectives :: Objective(o) else {})
    + (set p | p in s.paths && a in s.paths[p].assumptions :: Path(p))
    + (set o | o in s.objectives && a in s.objectives[o].assumptions :: Objective(o))
    + (if a in s.citing then s.citing[a] else {})
  }

  ghost predicate IsIndex(s: State, index: Index) {
    forall r, x :: x in Get(index, r) <==> RestsDirectly(s, x, r)
  }

  /** One object's dependences, added key by key. */
  method AddAll(index: Index, keys: set<Ref>, ref: Ref) returns (r: Index)
    ensures forall k, x :: x in Get(r, k) <==> x in Get(index, k) || (x == ref && k in keys)
  {
    r := index;
    var rest := keys;
    while rest != {}
      invariant rest <= keys
      invariant forall k, x :: x in Get(r, k) <==> x in Get(index, k) || (x == ref && k in keys && k !in rest)
      decreases |rest|
    {
      var k :| k in rest;
      r := r[k := Get(r, k) + {ref}];
      rest := rest - {k};
    }
  }

  method AddPaths(s: State, start: Index) returns (index: Index)
    ensures forall r, x :: x in Get(index, r) <==> x in Get(start, r) || (x.Path? && PathRestsOn(s, x.id, r))
  {
    index := start;
    var rest := s.paths.Keys;
    while rest != {}
      invariant rest <= s.paths.Keys
      invariant forall r, x ::
        x in Get(index, r) <==> x in Get(start, r) || (x.Path? && x.id !in rest && PathRestsOn(s, x.id, r))
      decreases |rest|
    {
      ghost var _ := SomeElement(rest);
      var p :| p in rest;
      index := AddAll(index, s.paths[p].rests + {Objective(s.paths[p].objective)}, Path(p));
      rest := rest - {p};
    }
  }

  method AddObjectives(s: State, start: Index) returns (index: Index)
    ensures forall r, x :: x in Get(index, r) <==> x in Get(start, r) || (x.Objective? && ObjectiveRestsOn(s, x.id, r))
  {
    index := start;
    var rest := s.objectives.Keys;
    while rest != {}
      invariant rest <= s.objectives.Keys
      invariant forall r, x ::
        x in Get(index, r) <==> x in Get(start, r) || (x.Objective? && x.id !in rest && ObjectiveRestsOn(s, x.id, r))
      decreases |rest|
    {
      ghost var _ := SomeElement(rest);
      var o :| o in rest;
      index := AddAll(index, s.objectives[o].depends, Objective(o));
      rest := rest - {o};
    }
  }

  /** Built by replaying the current records, paths first. */
  method BuildIndex(s: State) returns (index: Index)
    ensures IsIndex(s, index)
  {
    index := AddPaths(s, s.others);
    index := AddObjectives(s, index);
  }

  // ---------------------------------------------------------------- what marking a set of objects makes of the state

  function Gone(a: AssumptionRecord, against: set<int>): AssumptionRecord {
    if a.status == AssumptionStatus.INVALIDATED then a
        else a.(version := a.version + 1, status := AssumptionStatus.INVALIDATED, against := a.against + against)
  }

  function Stale(p: PathRecord): PathRecord {
    if p.status == STALE || p.status == PathStatus.INVALIDATED then p else p.(version := p.version + 1, status := STALE)
  }

  function Exposed(o: ObjectiveRecord): ObjectiveRecord {
    if o.status == EXPOSED then o else o.(version := o.version + 1, status := EXPOSED)
  }

  /** An objective is hit if it is in the set or a path of the set leads to it. */
  predicate Hit(paths: map<int, PathRecord>, d: set<Ref>, o: int) {
    Objective(o) in d || exists p :: p in paths && Path(p) in d && paths[p].objective == o
  }

  function PathMarks(paths: map<int, PathRecord>, d: set<Ref>, cause: int): set<Mark> {
    (set p | p in paths && Path(p) in d :: Mark(Path(p), Act(cause)))
    + (set p | p in paths && Path(p) in d :: Mark(Objective(paths[p].objective), Through(cause, Path(p))))
  }

  function ObjectiveMarks(known: set<int>, d: set<Ref>, a: int, cause: int): set<Mark> {
    set o | o in known && Objective(o) in d :: Mark(Objective(o), Through(cause, Assumption(a)))
  }

  /** The state once every object of `d` has been dealt with. */
  function Marked(s: State, d: set<Ref>, a: int, cause: int): State {
    s.(paths := map p | p in s.paths :: if Path(p) in d then Stale(s.paths[p]) else s.paths[p],
       objectives := map o | o in s.objectives ::
                       if Hit(s.paths, d, o) then Exposed(s.objectives[o]) else s.objectives[o],
       marks := s.marks + PathMarks(s.paths, d, cause) + ObjectiveMarks(s.objectives.Keys, d, a, cause))
  }

  function Withdrawn(s: State, a: int, against: set<int>, cause: int): State
    requires a in s.assumptions
  {
    s.(assumptions := s.assumptions[a := Gone(s.assumptions[a], against)],
       marks := s.marks + {Mark(Assumption(a), Act(cause))})
  }

  /** The state a completed call leaves, given everything that rests on the assumption. */
  function Cascaded(s: State, d: set<Ref>, a: int, against: set<int>, cause: int): State
    requires a in s.assumptions
  {
    Marked(Withdrawn(s, a, against, cause), d, a, cause)
  }

  /** Marking never changes what rests on what. */
  predicate SameStructure(s: State, t: State) {
    && s.assumptions.Keys == t.assumptions.Keys && s.paths.Keys == t.paths.Keys
      && s.objectives.Keys == t.objectives.Keys
    && s.others == t.others && s.citing == t.citing
    && (forall a :: a in s.assumptions ==> s.assumptions[a].objectives == t.assumptions[a].objectives)
    && (forall p :: p in s.paths ==>
      s.paths[p].(version := 0, status := STALE) == t.paths[p].(version := 0, status := STALE))
    && (forall o :: o in s.objectives ==>
      s.objectives[o].(version := 0, status := ACTIVE) == t.objectives[o].(version := 0, status := ACTIVE))
  }

  /** Everything that rests on the assumption. */
  ghost predicate RestsOn(s: State, a: int, d: set<Ref>) {
    exists index :: IsIndex(s, index) && IsClosure(index, Direct(s, a), d)
  }

  lemma SameRests(s: State, t: State, a: int, d: set<Ref>)
    requires SameStructure(s, t) && RestsOn(s, a, d)
    ensures RestsOn(t, a, d)
  {
    var index :| IsIndex(s, index) && IsClosure(index, Direct(s, a), d);
    forall r, x ensures x in Get(index, r) <==> RestsDirectly(t, x, r) { }
    assert IsIndex(t, index);
  }

  // ---------------------------------------------------------------- partial progress

  /** `u` is what a crash may leave on the way from `s` to `t`: each record as before or as after, some marks made. */
  ghost predicate Between(s: State, t: State, u: State) {
    && SameStructure(s, u)
    && (forall a :: a in s.assumptions ==>
      u.assumptions[a] == s.assumptions[a] || (a in t.assumptions && u.assumptions[a] == t.assumptions[a]))
    && (forall p :: p in s.paths ==> u.paths[p] == s.paths[p] || (p in t.paths && u.paths[p] == t.paths[p]))
    && (forall o :: o in s.objectives ==>
      u.objectives[o] == s.objectives[o] || (o in t.objectives && u.objectives[o] == t.objectives[o]))
    && s.marks <= u.marks <= t.marks
  }

  lemma BetweenTrans(s: State, t: State, early: State, late: State, u: State)
    requires Between(s, t, early) && Between(s, t, late) && Between(early, late, u)
    ensures Between(s, t, u)
  {
  }

  lemma MarkedKeepsStructure(s: State, d: set<Ref>, a: int, cause: int)
    ensures SameStructure(s, Marked(s, d, a, cause))
  {
  }

  /** Dealing with some of the objects is a step on the way. */
  lemma PartIsBetween(s: State, part: set<Ref>, d: set<Ref>, a: int, against: set<int>, cause: int)
    requires a in s.assumptions && part <= d
    ensures Between(s, Cascaded(s, d, a, against, cause), Marked(Withdrawn(s, a, against, cause), part, a, cause))
  {
    var w := Withdrawn(s, a, against, cause);
    var t, u := Marked(w, d, a, cause), Marked(w, part, a, cause);
    forall o | o in s.objectives ensures u.objectives[o] == s.objectives[o] || u.objectives[o] == t.objectives[o] {
      if Hit(s.paths, part, o) { assert Hit(s.paths, d, o); }
    }
    assert PathMarks(s.paths, part, cause) <= PathMarks(s.paths, d, cause);
    assert ObjectiveMarks(s.objectives.Keys, part, a, cause) <= ObjectiveMarks(s.objectives.Keys, d, a, cause);
  }

  lemma ResumeAssumptions(s: State, u: State, d: set<Ref>, a: int, against: set<int>, cause: int)
    requires a in s.assumptions && Between(s, Cascaded(s, d, a, against, cause), u)
    ensures Cascaded(u, d, a, against, cause).assumptions == Cascaded(s, d, a, against, cause).assumptions
  {
    var t, v := Cascaded(s, d, a, against, cause).assumptions, Cascaded(u, d, a, against, cause).assumptions;
    forall x | x in s.assumptions ensures v[x] == t[x] { }
  }

  /** Starting again from anything in between completes to the same state. */
  lemma ResumeCompletes(s: State, u: State, d: set<Ref>, a: int, against: set<int>, cause: int)
    requires a in s.assumptions && Between(s, Cascaded(s, d, a, against, cause), u)
    ensures Cascaded(u, d, a, against, cause) == Cascaded(s, d, a, against, cause)
  {
    ResumeAssumptions(s, u, d, a, against, cause);
  }

  // ---------------------------------------------------------------- marking one object after another

  predicate Agree(s: State, c: set<Ref>, d: set<Ref>) {
    && (forall p :: p in s.paths ==> (Path(p) in c <==> Path(p) in d))
    && (forall o :: o in s.objectives ==> (Objective(o) in c <==> Objective(o) in d))
  }

  lemma AgreeingSetsMarkAlike(s: State, c: set<Ref>, d: set<Ref>, a: int, cause: int)
    requires Agree(s, c, d)
    ensures Marked(s, c, a, cause) == Marked(s, d, a, cause)
  {
    forall o | o in s.objectives ensures Hit(s.paths, c, o) <==> Hit(s.paths, d, o) { }
    assert PathMarks(s.paths, c, cause) == PathMarks(s.paths, d, cause);
    assert ObjectiveMarks(s.objectives.Keys, c, a, cause) == ObjectiveMarks(s.objectives.Keys, d, a, cause);
  }

  lemma MarkedMarks(s: State, c: set<Ref>, d: set<Ref>, a: int, cause: int)
    ensures Marked(Marked(s, c, a, cause), d, a, cause).marks == Marked(s, c + d, a, cause).marks
  {
    var m := Marked(s, c, a, cause);
    MarkedKeepsStructure(s, c, a, cause);
    assert PathMarks(s.paths, c + d, cause) == PathMarks(s.paths, c, cause) + PathMarks(s.paths, d, cause);
    assert ObjectiveMarks(s.objectives.Keys, c + d, a, cause)
        == ObjectiveMarks(s.objectives.Keys, c, a, cause) + ObjectiveMarks(s.objectives.Keys, d, a, cause);
  }

  /** Dealing with two sets in turn is dealing with both. */
  lemma MarkedUnion(s: State, c: set<Ref>, d: set<Ref>, a: int, cause: int)
    ensures Marked(Marked(s, c, a, cause), d, a, cause) == Marked(s, c + d, a, cause)
  {
    MarkedMarks(s, c, d, a, cause);
  }

  /** The four appends of one path: its version, its mark, its objective's version, and the objective's mark. */
  function PathStage(s: State, p: int, a: int, cause: int, stage: int): State
    requires p in s.paths && s.paths[p].objective in s.objectives
  {
    var o := s.paths[p].objective;
    var first, second := {Mark(Path(p), Act(cause))}, {Mark(Objective(o), Through(cause, Path(p)))};
    s.(paths := s.paths[p := Stale(s.paths[p])],
       objectives := if stage >= 3 then s.objectives[o := Exposed(s.objectives[o])] else s.objectives,
       marks := s.marks + (if stage >= 2 then first else {}) + (if stage >= 4 then second else {}))
  }

  lemma PathStages(s: State, p: int, a: int, cause: int, stage: int)
    requires p in s.paths && s.paths[p].objective in s.objectives && 1 <= stage <= 4
    ensures Between(s, Marked(s, {Path(p)}, a, cause), PathStage(s, p, a, cause, stage))
    ensures stage == 4 ==> PathStage(s, p, a, cause, stage) == Marked(s, {Path(p)}, a, cause)
  {
    var t, u, o := Marked(s, {Path(p)}, a, cause), PathStage(s, p, a, cause, stage), s.paths[p].objective;
    assert PathMarks(s.paths, {Path(p)}, cause) ==
           {Mark(Path(p), Act(cause)), Mark(Objective(o), Through(cause, Path(p)))};
    assert ObjectiveMarks(s.objectives.Keys, {Path(p)}, a, cause) == {};
    assert Hit(s.paths, {Path(p)}, o);
    forall x | x in s.objectives && x != o ensures !Hit(s.paths, {Path(p)}, x) { }
    if stage == 4 { assert u.paths == t.paths && u.objectives == t.objectives && u.marks == t.marks; }
  }

  function ObjectiveStage(s: State, o: int, a: int, cause: int, stage: int): State
    requires o in s.objectives
  {
    s.(objectives := s.objectives[o := Exposed(s.objectives[o])],
       marks := s.marks + (if stage >= 2 then {Mark(Objective(o), Through(cause, Assumption(a)))} else {}))
  }

  lemma ObjectiveStages(s: State, o: int, a: int, cause: int, stage: int)
    requires o in s.objectives && 1 <= stage <= 2
    ensures Between(s, Marked(s, {Objective(o)}, a, cause), ObjectiveStage(s, o, a, cause, stage))
    ensures stage == 2 ==> ObjectiveStage(s, o, a, cause, stage) == Marked(s, {Objective(o)}, a, cause)
  {
    var t, u := Marked(s, {Objective(o)}, a, cause), ObjectiveStage(s, o, a, cause, stage);
    assert PathMarks(s.paths, {Objective(o)}, cause) == {};
    assert ObjectiveMarks(s.objectives.Keys, {Objective(o)}, a, cause) ==
           {Mark(Objective(o), Through(cause, Assumption(a)))};
    assert Hit(s.paths, {Objective(o)}, o);
    forall x | x in s.objectives && x != o ensures !Hit(s.paths, {Objective(o)}, x) { }
    if stage == 2 { assert u.paths == t.paths && u.objectives == t.objectives && u.marks == t.marks; }
  }

  /** One append: one record gets its next version, or one transition is recorded. */
  ghost predicate OneAppend(u: State, v: State) {
    || (exists a :: a in v.assumptions && v == u.(assumptions := u.assumptions[a := v.assumptions[a]]))
    || (exists p :: p in v.paths && v == u.(paths := u.paths[p := v.paths[p]]))
    || (exists o :: o in v.objectives && v == u.(objectives := u.objectives[o := v.objectives[o]]))
    || (exists m :: m in v.marks && v == u.(marks := u.marks + {m}))
  }

  lemma PathStageByStage(s: State, p: int, a: int, cause: int, stage: int)
    requires p in s.paths && s.paths[p].objective in s.objectives && 1 <= stage <= 4
    ensures OneAppend(if stage == 1 then s else PathStage(s, p, a, cause, stage - 1), PathStage(s, p, a, cause, stage))
  {
    var o := s.paths[p].objective;
    var u, v := (if stage == 1 then s else PathStage(s, p, a, cause, stage - 1)), PathStage(s, p, a, cause, stage);
    var first, second := Mark(Path(p), Act(cause)), Mark(Objective(o), Through(cause, Path(p)));
    match stage {
      case 1 => assert p in v.paths && v.marks == u.marks && v == u.(paths := u.paths[p := v.paths[p]]);
      case 2 => assert v.marks == u.marks + {first} && first in v.marks && v == u.(marks := u.marks + {first});
      case 3 => assert o in v.objectives && v == u.(objectives := u.objectives[o := v.objectives[o]]);
      case 4 => assert v.marks == u.marks + {second} && second in v.marks && v == u.(marks := u.marks + {second});
    }
  }

  lemma ObjectiveStageByStage(s: State, o: int, a: int, cause: int, stage: int)
    requires o in s.objectives && 1 <= stage <= 2
    ensures OneAppend(if stage == 1 then s else ObjectiveStage(s, o, a, cause, 1),
                      ObjectiveStage(s, o, a, cause, stage))
  {
    var u, v := (if stage == 1 then s else ObjectiveStage(s, o, a, cause, 1)), ObjectiveStage(s, o, a, cause, stage);
    var mark := Mark(Objective(o), Through(cause, Assumption(a)));
    if stage == 1 {
      assert o in v.objectives && v.marks == u.marks && v == u.(objectives := u.objectives[o := v.objectives[o]]);
    } else {
      assert v.marks == u.marks + {mark} && mark in v.marks && v == u.(marks := u.marks + {mark});
    }
  }

  // ---------------------------------------------------------------- what rests on the assumption is on record

  /** Only an objective the assumption itself names can be missing. */
  predicate OnRecord(s: State, a: int, r: Ref) {
    match r
    case Path(p) => p in s.paths
    case Objective(o) => o in s.objectives || (a in s.assumptions && o in s.assumptions[a].objectives)
    case _ => true
  }

  lemma RestsIsOnRecord(s: State, a: int, d: set<Ref>)
    requires WellFormed(s) && RestsOn(s, a, d)
    ensures forall r :: r in d ==> OnRecord(s, a, r)
  {
    var index :| IsIndex(s, index) && IsClosure(index, Direct(s, a), d);
    var t := set r | r in d && OnRecord(s, a, r);
    forall r, x | r in t && x in Get(index, r) ensures x in t {
      assert RestsDirectly(s, x, r);
      if x in Get(s.others, r) { assert r in s.others && OnlyOthers(s.others[r]); }
    }
    forall r | r in Direct(s, a) ensures r in t {
      if a in s.citing && r in s.citing[a] { assert OnlyOthers(s.citing[a]); }
    }
    assert Closed(index, t) && Direct(s, a) <= t;
  }
}
