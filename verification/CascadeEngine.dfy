/** The cascade as it runs: one append at a time, over the paths first and then the objectives in order of their ids. */
module CascadeEngine {
  import opened FiniteSets
  import opened DependencyClosure
  import opened InvalidationCascade

  datatype Outcome = Done | Raised | Refused

  /** Every append from `before` on left a state between `s` and `t`; nothing was appended if nothing changed. */
  ghost predicate Progress(before: seq<State>, after: seq<State>, s: State, t: State) {
    && before <= after
    && forall k :: |before| <= k < |after| ==> Between(s, t, after[k])
  }

  lemma ProgressWithin(start: seq<State>, mid: seq<State>, end: seq<State>, s: State, t: State, u: State, v: State)
    requires Progress(start, mid, s, t) && Progress(mid, end, u, v) && Between(s, t, u) && Between(s, t, v)
    ensures Progress(start, end, s, t)
  {
    forall k | |mid| <= k < |end| ensures Between(s, t, end[k]) { BetweenTrans(s, t, u, v, end[k]); }
  }

  /** The least id, as the sorted worklist takes it. */
  method Least(ids: set<int>) returns (least: int)
    requires ids != {}
    ensures least in ids && forall x :: x in ids ==> least <= x
  {
    ghost var _ := SomeElement(ids);
    least :| least in ids;
    var rest := ids;
    while rest != {}
      invariant rest <= ids && least in ids && forall x :: x in ids && x !in rest ==> least <= x
      decreases |rest|
    {
      ghost var _ := SomeElement(rest);
      var x :| x in rest;
      if x < least { least := x; }
      rest := rest - {x};
    }
  }

  ghost predicate StepAt(origin: State, trace: seq<State>, k: nat)
    requires k < |trace|
  {
    OneAppend(if k == 0 then origin else trace[k - 1], trace[k])
  }

  ghost predicate Steps(origin: State, trace: seq<State>, last: State) {
    && last == (if trace == [] then origin else trace[|trace| - 1])
    && forall k :: 0 <= k < |trace| ==> StepAt(origin, trace, k)
  }

  lemma OneMoreStep(origin: State, trace: seq<State>, last: State, next: State)
    requires Steps(origin, trace, last) && OneAppend(last, next)
    ensures Steps(origin, trace + [next], next)
  {
    var longer := trace + [next];
    forall k | 0 <= k < |longer| ensures StepAt(origin, longer, k) {
      if k < |trace| { assert StepAt(origin, trace, k); }
    }
  }

  class ImpactEngine {
    var state: State
    /** The state after each append. */
    ghost var trace: seq<State>
    ghost const origin: State

    /** Each state is one append away from the one before it. */
    ghost predicate Stepwise()
      reads this
    {
      Steps(origin, trace, state)
    }

    constructor (initial: State)
      ensures state == initial && trace == [] && Stepwise()
    {
      state, trace, origin := initial, [], initial;
    }

    /** One append on the way from `s` to `t`, unless the record or mark stands already. */
    method Append(next: State, ghost s: State, ghost t: State, ghost start: seq<State>)
      requires Progress(start, trace, s, t) && Between(s, t, next)
      requires Stepwise() && OneAppend(state, next)
      modifies this
      ensures state == next && Progress(start, trace, s, t) && Stepwise()
      ensures next == old(state) ==> trace == old(trace)
    {
      if next != state {
        OneMoreStep(origin, trace, state, next);
        state, trace := next, trace + [next];
      }
    }

    /** Restate one path and mark it, then expose the objective it leads to and mark that. */
    method DealWithPath(p: int, a: int, cause: int)
      requires p in state.paths && state.paths[p].objective in state.objectives
      requires Stepwise()
      modifies this
      ensures Stepwise()
      ensures state == Marked(old(state), {Path(p)}, a, cause)
      ensures Progress(old(trace), trace, old(state), state)
      ensures state == old(state) ==> trace == old(trace)
    {
      ghost var start := trace;
      var s := state;
      PathAppend(s, p, a, cause, 1, start);
      PathAppend(s, p, a, cause, 2, start);
      PathAppend(s, p, a, cause, 3, start);
      PathAppend(s, p, a, cause, 4, start);
      PathStages(s, p, a, cause, 4);
    }

    /** One of the four appends of a path that was dealt with from state `s` on. */
    method PathAppend(s: State, p: int, a: int, cause: int, stage: int, ghost start: seq<State>)
      requires p in s.paths && s.paths[p].objective in s.objectives && 1 <= stage <= 4
      requires state == if stage == 1 then s else PathStage(s, p, a, cause, stage - 1)
      requires Stepwise() && Progress(start, trace, s, Marked(s, {Path(p)}, a, cause))
      modifies this
      ensures Stepwise() && state == PathStage(s, p, a, cause, stage)
      ensures Progress(start, trace, s, Marked(s, {Path(p)}, a, cause))
      ensures state == old(state) ==> trace == old(trace)
    {
      PathStages(s, p, a, cause, stage);
      PathStageByStage(s, p, a, cause, stage);
      Append(PathStage(s, p, a, cause, stage), s, Marked(s, {Path(p)}, a, cause), start);
    }

    method DealWithObjective(o: int, a: int, cause: int)
      requires o in state.objectives
      requires Stepwise()
      modifies this
      ensures Stepwise()
      ensures state == Marked(old(state), {Objective(o)}, a, cause)
      ensures Progress(old(trace), trace, old(state), state)
      ensures state == old(state) ==> trace == old(trace)
    {
      var s := state;
      ghost var t, start := Marked(s, {Objective(o)}, a, cause), trace;
      ObjectiveStages(s, o, a, cause, 2);
      ObjectiveStages(s, o, a, cause, 1);
      ObjectiveStageByStage(s, o, a, cause, 1);
      Append(ObjectiveStage(s, o, a, cause, 1), s, t, start);
      ObjectiveStageByStage(s, o, a, cause, 2);
      Append(ObjectiveStage(s, o, a, cause, 2), s, t, start);
    }

    /** The assumption's own version and mark. */
    method Withdraw(a: int, against: set<int>, cause: int)
      requires a in state.assumptions
      requires Stepwise()
      modifies this
      ensures Stepwise()
      ensures state == Withdrawn(old(state), a, against, cause)
      ensures Progress(old(trace), trace, old(state), state)
      ensures state == old(state) ==> trace == old(trace)
    {
      var s := state;
      ghost var t, start := Withdrawn(s, a, against, cause), trace;
      var first := s.(assumptions := s.assumptions[a := Gone(s.assumptions[a], against)]);
      Append(first, s, t, start);
      Append(first.(marks := s.marks + {Mark(Assumption(a), Act(cause))}), s, t, start);
    }

    /** One path more, seen from the state `w` the worklist was started in. */
    method NextPath(p: int, ghost w: State, ghost done: set<Ref>, a: int, cause: int, ghost start: seq<State>)
      requires WellFormed(w) && p in w.paths && Partway(w, done, a, cause, start, state, trace)
      requires Stepwise()
      modifies this
      ensures Stepwise()
      ensures Partway(w, done + {Path(p)}, a, cause, start, state, trace)
    {
      ghost var m, before := state, trace;
      DealWithPath(p, a, cause);
      Onward(w, done, Path(p), a, cause, start, before, trace);
    }

    /** All paths of the worklist. */
    method DealWithPaths(d: set<Ref>, a: int, cause: int)
      requires WellFormed(state) && Stepwise()
      modifies this
      ensures Stepwise()
      ensures Partway(old(state), PathRefs(PathIds(old(state), d)), a, cause, old(trace), state, trace)
    {
      ghost var w, start := state, trace;
      var ids := PathIds(state, d);
      var rest := ids;
      NoRefs(ids);
      while rest != {}
        invariant Stepwise()
        invariant rest <= ids && Partway(w, PathRefs(ids - rest), a, cause, start, state, trace)
        decreases |rest|
      {
        var p := Least(rest);
        NextPath(p, w, PathRefs(ids - rest), a, cause, start);
        OneMoreRef(ids, rest, p);
        rest := rest - {p};
      }
      assert ids - {} == ids;
    }

    method NextObjective(o: int, ghost w: State, ghost done: set<Ref>, a: int, cause: int, ghost start: seq<State>)
      requires o in w.objectives && Partway(w, done, a, cause, start, state, trace)
      requires Stepwise()
      modifies this
      ensures Stepwise()
      ensures Partway(w, done + {Objective(o)}, a, cause, start, state, trace)
    {
      ghost var before := trace;
      DealWithObjective(o, a, cause);
      Onward(w, done, Objective(o), a, cause, start, before, trace);
    }

    /** The objectives of the worklist, in order; one that is not on record stops the call with an error. */
    method DealWithObjectives(d: set<Ref>, a: int, cause: int) returns (missing: MaybeId)
      requires Stepwise()
      modifies this
      ensures Stepwise()
      ensures FirstMissing(old(state), d, missing)
      ensures Partway(old(state), ObjectiveRefs(Before(ObjectiveIds(d), missing)), a, cause, old(trace), state, trace)
    {
      ghost var w, start := state, trace;
      var ids := ObjectiveIds(d);
      var rest := ids;
      NoObjectiveRefs(ids);
      while rest != {}
        invariant Stepwise()
        invariant rest <= ids && Partway(w, ObjectiveRefs(ids - rest), a, cause, start, state, trace)
        invariant KnownBelow(w, ids, rest)
        decreases |rest|
      {
        var o := Least(rest);
        KnownUpTo(w, d, rest, o);
        if o !in state.objectives { return Id(o); }
        NextObjective(o, w, ObjectiveRefs(ids - rest), a, cause, start);
        OneMoreObjective(ids, rest, o);
        rest := rest - {o};
      }
      assert ids - {} == Before(ids, NoId);
      missing := NoId;
    }

    /**
     * Invalidate an assumption and everything that rests on it. Wherever the call stops, the state lies between the
     * old one and the completed one; an error is raised exactly when the assumption names an objective not on record.
     */
    method InvalidateAssumption(a: int, against: set<int>, cause: int) returns (outcome: Outcome, ghost d: set<Ref>)
      requires WellFormed(state) && Stepwise()
      modifies this
      ensures Stepwise()
      ensures outcome.Refused? <==> a !in old(state).assumptions
      ensures outcome.Refused? ==> state == old(state) && trace == old(trace)
      ensures !outcome.Refused? ==>
        && RestsOn(old(state), a, d)
        && (outcome.Raised? <==> NamesMissing(old(state), a))
        && Progress(old(trace), trace, old(state), Cascaded(old(state), d, a, against, cause))
        && (state == old(state) ==> trace == old(trace))
      ensures outcome.Done? ==> state == Cascaded(old(state), d, a, against, cause)
      ensures outcome.Raised? ==> StoppedShort(old(state), d, a, against, cause, state)
    {
      d := {};
      if a !in state.assumptions { return Refused, {}; }
      ghost var s, start := state, trace;
      Withdraw(a, against, cause);
      ghost var w, withdrawn := state, trace;
      var index := BuildIndex(state);
      var affected := AffectedBy(index, Direct(state, a));
      d := affected;
      assert RestsOn(w, a, d);
      SameRests(w, s, a, d);
      DealWithPaths(affected, a, cause);
      ghost var m, half := state, trace;
      var missing := DealWithObjectives(affected, a, cause);
      Finished(s, d, a, against, cause, missing, start, withdrawn, half, trace, m, state);
      outcome := if missing.Id? then Raised else Done;
    }
  }

  /** The assumption names an objective that is not on record. */
  predicate NamesMissing(s: State, a: int)
    requires a in s.assumptions
  {
    exists o :: o in s.assumptions[a].objectives && o !in s.objectives
  }

  /** All paths were dealt with, and the objectives below the first one that is not on record. */
  ghost predicate StoppedShort(s: State, d: set<Ref>, a: int, against: set<int>, cause: int, t: State) {
    && a in s.assumptions
    && exists m: MaybeId :: m.Id? && FirstMissing(s, d, m)
         && t == Marked(Withdrawn(s, a, against, cause), Reached(s, d, m), a, cause)
  }

  /** What a call deals with: every path, and the objectives up to the first missing one. */
  function Reached(s: State, d: set<Ref>, missing: MaybeId): set<Ref> {
    PathRefs(PathIds(s, d)) + ObjectiveRefs(Before(ObjectiveIds(d), missing))
  }

  lemma MissingIsNamed(s: State, d: set<Ref>, a: int, missing: MaybeId)
    requires WellFormed(s) && a in s.assumptions && RestsOn(s, a, d) && FirstMissing(s, d, missing)
    ensures missing.Id? <==> NamesMissing(s, a)
  {
    RestsIsOnRecord(s, a, d);
    var index :| IsIndex(s, index) && IsClosure(index, Direct(s, a), d);
    if missing.Id? {
      assert OnRecord(s, a, Objective(missing.id));
    } else {
      forall o | o in s.assumptions[a].objectives ensures o in s.objectives {
        assert Objective(o) in Direct(s, a) && Objective(o).id in ObjectiveIds(d);
      }
    }
  }

  lemma Finished(s: State, d: set<Ref>, a: int, against: set<int>, cause: int, missing: MaybeId,
                 start: seq<State>, withdrawn: seq<State>, half: seq<State>, end: seq<State>, m: State, t: State)
    requires WellFormed(s) && a in s.assumptions && RestsOn(s, a, d)
    requires var w := Withdrawn(s, a, against, cause);
             && Progress(start, withdrawn, s, w) && (w == s ==> withdrawn == start)
             && Partway(w, PathRefs(PathIds(w, d)), a, cause, withdrawn, m, half)
             && FirstMissing(m, d, missing)
             && Partway(m, ObjectiveRefs(Before(ObjectiveIds(d), missing)), a, cause, half, t, end)
    ensures missing.Id? <==> NamesMissing(s, a)
    ensures Progress(start, end, s, Cascaded(s, d, a, against, cause))
    ensures missing.NoId? ==> t == Cascaded(s, d, a, against, cause)
    ensures t == s ==> end == start
    ensures missing.Id? ==> StoppedShort(s, d, a, against, cause, t)
  {
    var w := Withdrawn(s, a, against, cause);
    var paths := PathRefs(PathIds(w, d));
    SameMissing(s, w, paths, d, a, cause, missing);
    MissingIsNamed(s, d, a, missing);
    FinalState(s, d, a, against, cause, missing);
    StepsCompose(s, d, a, against, cause, paths, Reached(s, d, missing), start, withdrawn, half, end);
    if t == s { Idle(s, a, against, cause, paths, Reached(s, d, missing)); }
  }

  /** Dealing with paths records no objective and removes none. */
  lemma SameMissing(s: State, w: State, paths: set<Ref>, d: set<Ref>, a: int, cause: int, missing: MaybeId)
    requires w.objectives == s.objectives && FirstMissing(Marked(w, paths, a, cause), d, missing)
    ensures FirstMissing(s, d, missing)
  {
    assert Marked(w, paths, a, cause).objectives.Keys == s.objectives.Keys;
  }

  lemma FinalState(s: State, d: set<Ref>, a: int, against: set<int>, cause: int, missing: MaybeId)
    requires a in s.assumptions
    ensures var w := Withdrawn(s, a, against, cause);
            var t := Marked(Marked(w, PathRefs(PathIds(w, d)), a, cause),
                ObjectiveRefs(Before(ObjectiveIds(d), missing)), a, cause);
            && t == Marked(w, Reached(s, d, missing), a, cause)
            && (missing.NoId? ==> t == Cascaded(s, d, a, against, cause))
  {
    var w := Withdrawn(s, a, against, cause);
    MarkedUnion(w, PathRefs(PathIds(w, d)), ObjectiveRefs(Before(ObjectiveIds(d), missing)), a, cause);
    if missing.NoId? {
      AgreeingSetsMarkAlike(w, Reached(s, d, missing), d, a, cause);
    }
  }

  /** If a run leads back to where it started, nothing was changed on the way. */
  lemma Idle(s: State, a: int, against: set<int>, cause: int, paths: set<Ref>, part: set<Ref>)
    requires a in s.assumptions && paths <= part && Cascaded(s, part, a, against, cause) == s
    ensures Withdrawn(s, a, against, cause) == s && Marked(Withdrawn(s, a, against, cause), paths, a, cause) == s
  {
    PartIsBetween(s, {}, part, a, against, cause);
    NothingBetween(s, Withdrawn(s, a, against, cause));
    PartIsBetween(s, paths, part, a, against, cause);
    NothingBetween(s, Marked(Withdrawn(s, a, against, cause), paths, a, cause));
  }

  lemma StepsCompose(s: State, d: set<Ref>, a: int, against: set<int>, cause: int, paths: set<Ref>, part: set<Ref>,
                     start: seq<State>, withdrawn: seq<State>, half: seq<State>, end: seq<State>)
    requires a in s.assumptions && paths <= part <= d
    requires var w := Withdrawn(s, a, against, cause);
             && Progress(start, withdrawn, s, w) && Progress(withdrawn, half, w, Marked(w, paths, a, cause))
             && Progress(half, end, Marked(w, paths, a, cause), Marked(w, part, a, cause))
    ensures Progress(start, end, s, Cascaded(s, d, a, against, cause))
  {
    var w, t := Withdrawn(s, a, against, cause), Cascaded(s, d, a, against, cause);
    PartIsBetween(s, {}, d, a, against, cause);
    PartIsBetween(s, paths, d, a, against, cause);
    PartIsBetween(s, part, d, a, against, cause);
    Start(start, withdrawn, s, t, s, w);
    ProgressWithin(start, withdrawn, half, s, t, w, Marked(w, paths, a, cause));
    ProgressWithin(start, half, end, s, t, Marked(w, paths, a, cause), Marked(w, part, a, cause));
  }

  lemma Start(start: seq<State>, mid: seq<State>, s: State, t: State, u: State, v: State)
    requires Progress(start, mid, u, v) && Between(s, t, u) && Between(s, t, v)
    ensures Progress(start, mid, s, t)
  {
    forall k | |start| <= k < |mid| ensures Between(s, t, mid[k]) { BetweenTrans(s, t, u, v, mid[k]); }
  }

  datatype MaybeId = NoId | Id(id: int)

  function ObjectiveIds(d: set<Ref>): set<int> {
    set r | r in d && r.Objective? :: r.id
  }

  function ObjectiveRefs(ids: set<int>): set<Ref> {
    set o | o in ids :: Objective(o)
  }

  function Before(ids: set<int>, limit: MaybeId): set<int> {
    set o | o in ids && (limit.Id? ==> o < limit.id)
  }

  /** The least id of the worklist's objectives that is not on record, if any. */
  ghost predicate FirstMissing(s: State, d: set<Ref>, missing: MaybeId) {
    match missing
    case NoId => forall o :: o in ObjectiveIds(d) ==> o in s.objectives
    case Id(m) => m in ObjectiveIds(d) && m !in s.objectives && forall o :: o in Before(ObjectiveIds(d), missing) ==>
      o in s.objectives
  }

  /** Every objective dealt with is on record, and below every one still to come. */
  ghost predicate KnownBelow(s: State, ids: set<int>, rest: set<int>) {
    forall o :: o in ids && o !in rest ==> o in s.objectives && forall x :: x in rest ==> o < x
  }

  lemma KnownUpTo(s: State, d: set<Ref>, rest: set<int>, least: int)
    requires rest <= ObjectiveIds(d) && KnownBelow(s, ObjectiveIds(d), rest)
    requires least in rest && forall x :: x in rest ==> least <= x
    ensures least !in s.objectives ==>
              FirstMissing(s, d, Id(least)) && Before(ObjectiveIds(d), Id(least)) == ObjectiveIds(d) - rest
    ensures least in s.objectives ==> KnownBelow(s, ObjectiveIds(d), rest - {least})
  {
  }

  lemma NoObjectiveRefs(ids: set<int>)
    ensures ObjectiveRefs(ids - ids) == {}
  {
  }

  lemma OneMoreObjective(ids: set<int>, rest: set<int>, o: int)
    requires o in rest && rest <= ids
    ensures ObjectiveRefs(ids - rest) + {Objective(o)} == ObjectiveRefs(ids - (rest - {o}))
  {
  }

  /** The worklist was started in `w` and has dealt with `done`. */
  ghost predicate Partway(w: State, done: set<Ref>, a: int, cause: int, start: seq<State>, s: State,
        trace: seq<State>) {
    s == Marked(w, done, a, cause) && Progress(start, trace, w, s) && (s == w ==> trace == start)
  }

  function PathIds(s: State, d: set<Ref>): set<int> {
    set p | p in s.paths && Path(p) in d
  }

  function PathRefs(ids: set<int>): set<Ref> {
    set p | p in ids :: Path(p)
  }

  lemma NoRefs(ids: set<int>)
    ensures PathRefs(ids - ids) == {}
  {
  }

  lemma OneMoreRef(ids: set<int>, rest: set<int>, p: int)
    requires p in rest && rest <= ids
    ensures PathRefs(ids - rest) + {Path(p)} == PathRefs(ids - (rest - {p}))
  {
  }

  lemma MarkedPartIsBetween(w: State, part: set<Ref>, d: set<Ref>, a: int, cause: int)
    requires part <= d
    ensures Between(w, Marked(w, d, a, cause), Marked(w, part, a, cause))
  {
    var t, u := Marked(w, d, a, cause), Marked(w, part, a, cause);
    forall o | o in w.objectives ensures u.objectives[o] == w.objectives[o] || u.objectives[o] == t.objectives[o] {
      if Hit(w.paths, part, o) { assert Hit(w.paths, d, o); }
    }
    assert PathMarks(w.paths, part, cause) <= PathMarks(w.paths, d, cause);
    assert ObjectiveMarks(w.objectives.Keys, part, a, cause) <= ObjectiveMarks(w.objectives.Keys, d, a, cause);
  }

  lemma NothingBetween(w: State, u: State)
    requires Between(w, w, u)
    ensures u == w
  {
    forall a | a in w.assumptions ensures u.assumptions[a] == w.assumptions[a] { }
    forall p | p in w.paths ensures u.paths[p] == w.paths[p] { }
    forall o | o in w.objectives ensures u.objectives[o] == w.objectives[o] { }
    assert u.assumptions == w.assumptions && u.paths == w.paths && u.objectives == w.objectives && u.marks == w.marks;
  }

  /** One more object dealt with is one step further from the same start. */
  lemma Onward(w: State, done: set<Ref>, r: Ref, a: int, cause: int, start: seq<State>, mid: seq<State>,
        end: seq<State>)
    requires var m := Marked(w, done, a, cause);
             Progress(start, mid, w, m) && Progress(mid, end, m, Marked(m, {r}, a, cause))
    ensures Marked(Marked(w, done, a, cause), {r}, a, cause) == Marked(w, done + {r}, a, cause)
    ensures Progress(start, end, w, Marked(w, done + {r}, a, cause))
    ensures Marked(w, done + {r}, a, cause) == w ==> Marked(w, done, a, cause) == w
  {
    if Marked(w, done + {r}, a, cause) == w {
      MarkedPartIsBetween(w, done, done + {r}, a, cause);
      NothingBetween(w, Marked(w, done, a, cause));
    }
    MarkedUnion(w, done, {r}, a, cause);
    var m, t := Marked(w, done, a, cause), Marked(w, done + {r}, a, cause);
    MarkedPartIsBetween(w, done, done + {r}, a, cause);
    MarkedPartIsBetween(w, done + {r}, done + {r}, a, cause);
    MarkedPartIsBetween(w, {}, done + {r}, a, cause);
    forall k | |start| <= k < |mid| ensures Between(w, t, mid[k]) { BetweenTrans(w, t, w, m, mid[k]); }
    ProgressWithin(start, mid, end, w, t, m, t);
  }
}
