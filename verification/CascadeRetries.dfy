/** A cascade that an objective not on record has stopped: retried as it is, and once the objective is recorded. */
module CascadeRetries {
  import opened DependencyClosure
  import opened InvalidationCascade
  import opened CascadeEngine
  import opened CascadeRuns

  lemma StoppedAt(s: State, d: set<Ref>, a: int, against: set<int>, cause: int, t: State) returns (m: MaybeId)
    requires StoppedShort(s, d, a, against, cause, t)
    ensures m.Id? && FirstMissing(s, d, m) && t == Cascaded(s, Reached(s, d, m), a, against, cause)
    ensures Reached(s, d, m) <= d
  {
    m :| m.Id? && FirstMissing(s, d, m) && t == Marked(Withdrawn(s, a, against, cause), Reached(s, d, m), a, cause);
  }

  lemma MissingIsLeast(s: State, d: set<Ref>, m: MaybeId)
    requires FirstMissing(s, d, m)
    ensures forall o :: o in ObjectiveIds(d) && o !in s.objectives ==> m.Id? && m.id <= o
  {
    forall o | o in ObjectiveIds(d) && m.Id? && o < m.id ensures o in s.objectives {
      assert o in Before(ObjectiveIds(d), m);
    }
  }

  lemma FirstMissingIsUnique(s: State, t: State, d: set<Ref>, m: MaybeId, n: MaybeId)
    requires s.objectives.Keys == t.objectives.Keys && FirstMissing(s, d, m) && FirstMissing(t, d, n)
    ensures m == n
  {
    MissingIsLeast(s, d, m);
    MissingIsLeast(t, d, n);
  }

  /** While the objective that stopped it is still not on record, a retry stops there again and changes nothing. */
  lemma RetryStopsTheSame(
      s: State, d: set<Ref>, a: int, against: set<int>, cause: int, t: State, e: set<Ref>, again: set<int>, u: State)
    requires RestsOn(s, a, d) && StoppedShort(s, d, a, against, cause, t)
    requires RestsOn(t, a, e) && StoppedShort(t, e, a, again, cause, u)
    ensures u == t
  {
    var m := StoppedAt(s, d, a, against, cause, t);
    var part := Reached(s, d, m);
    PartIsBetween(s, part, part, a, against, cause);
    SameRests(s, t, a, d);
    RestsIsUnique(t, a, d, e);
    var n := StoppedAt(t, d, a, again, cause, u);
    assert Withdrawn(t, a, again, cause) == Withdrawn(t, a, against, cause);
    FirstMissingIsUnique(s, t, d, m, n);
    assert Reached(t, d, m) == part;
    ResumeCompletes(s, t, part, a, against, cause);
  }

  // ---------------------------------------------------------------- once the missing objectives are recorded

  function Recorded(s: State, more: map<int, ObjectiveRecord>): State {
    s.(objectives := s.objectives + more)
  }

  lemma RecordingAddsDependents(s: State, more: map<int, ObjectiveRecord>, a: int, d: set<Ref>, e: set<Ref>)
    requires more.Keys !! s.objectives.Keys && RestsOn(s, a, d) && RestsOn(Recorded(s, more), a, e)
    ensures d <= e
  {
    var after := Recorded(s, more);
    var i :| IsIndex(s, i) && IsClosure(i, Direct(s, a), d);
    var j :| IsIndex(after, j) && IsClosure(j, Direct(after, a), e);
    forall r, x | r in e && x in Get(i, r) ensures x in e {
      assert RestsDirectly(s, x, r);
      assert RestsDirectly(after, x, r);
    }
    assert Closed(i, e);
    forall o | o in s.objectives ensures after.objectives[o] == s.objectives[o] { }
    assert Direct(s, a) <= Direct(after, a);
  }

  /** Everything that would be marked is on record. */
  ghost predicate AllOnRecord(s: State, part: set<Ref>) {
    && (forall o :: Objective(o) in part ==> o in s.objectives)
    && (forall p :: p in s.paths ==> s.paths[p].objective in s.objectives)
  }

  lemma OneObjectiveIgnoresOthers(
      s: State, more: map<int, ObjectiveRecord>, part: set<Ref>, a: int, cause: int, o: int)
    requires more.Keys !! s.objectives.Keys && AllOnRecord(s, part) && (o in s.objectives || o in more)
    ensures Marked(Recorded(s, more), part, a, cause).objectives[o]
         == (Marked(s, part, a, cause).objectives + more)[o]
  {
    if o in more { assert !Hit(s.paths, part, o); }
  }

  lemma MarkedObjectivesIgnoreOthers(s: State, more: map<int, ObjectiveRecord>, part: set<Ref>, a: int, cause: int)
    requires more.Keys !! s.objectives.Keys && AllOnRecord(s, part)
    ensures Marked(Recorded(s, more), part, a, cause).objectives == Marked(s, part, a, cause).objectives + more
  {
    var l, r := Marked(Recorded(s, more), part, a, cause).objectives, Marked(s, part, a, cause).objectives + more;
    assert l.Keys == s.objectives.Keys + more.Keys == r.Keys;
    forall o | o in l ensures l[o] == r[o] { OneObjectiveIgnoresOthers(s, more, part, a, cause, o); }
  }

  lemma MarksIgnoreOthers(s: State, more: map<int, ObjectiveRecord>, part: set<Ref>, a: int, cause: int)
    requires AllOnRecord(s, part)
    ensures Marked(Recorded(s, more), part, a, cause).marks == Marked(s, part, a, cause).marks
  {
    assert ObjectiveMarks(Recorded(s, more).objectives.Keys, part, a, cause)
        == ObjectiveMarks(s.objectives.Keys, part, a, cause);
  }

  /** Marking objects on record does the same before and after further objectives are recorded. */
  lemma MarkingIgnoresOthers(s: State, more: map<int, ObjectiveRecord>, part: set<Ref>, a: int, cause: int)
    requires more.Keys !! s.objectives.Keys && AllOnRecord(s, part)
    ensures Marked(Recorded(s, more), part, a, cause) == Recorded(Marked(s, part, a, cause), more)
  {
    MarkedObjectivesIgnoreOthers(s, more, part, a, cause);
    MarksIgnoreOthers(s, more, part, a, cause);
  }

  lemma RecordedIsBetween(s: State, more: map<int, ObjectiveRecord>, d: set<Ref>, e: set<Ref>, a: int,
        against: set<int>, cause: int, t: State)
    requires WellFormed(s) && RestsOn(s, a, d) && StoppedShort(s, d, a, against, cause, t)
    requires more.Keys !! s.objectives.Keys && RestsOn(Recorded(s, more), a, e)
    ensures Between(Recorded(s, more), Cascaded(Recorded(s, more), e, a, against, cause), Recorded(t, more))
  {
    var m := StoppedAt(s, d, a, against, cause, t);
    var part := Reached(s, d, m);
    RecordingAddsDependents(s, more, a, d, e);
    forall o | Objective(o) in part ensures o in s.objectives { assert o in Before(ObjectiveIds(d), m); }
    MarkingIgnoresOthers(Withdrawn(s, a, against, cause), more, part, a, cause);
    assert Withdrawn(Recorded(s, more), a, against, cause) == Recorded(Withdrawn(s, a, against, cause), more);
    PartIsBetween(Recorded(s, more), part, e, a, against, cause);
  }

  /**
   * Objectives are recorded after a call was stopped, the missing one among them or not. What rests on the assumption
   * now is the same as if they had been on record all along, and so is the state that completing the call leads to.
   */
  lemma RecordingRepairs(s: State, more: map<int, ObjectiveRecord>, d: set<Ref>, e: set<Ref>, a: int,
        against: set<int>, cause: int, t: State)
    requires WellFormed(s) && RestsOn(s, a, d) && StoppedShort(s, d, a, against, cause, t)
    requires more.Keys !! s.objectives.Keys && RestsOn(Recorded(s, more), a, e)
    ensures WellFormed(Recorded(t, more)) && a in t.assumptions && RestsOn(Recorded(t, more), a, e)
    ensures Cascaded(Recorded(t, more), e, a, against, cause) == Cascaded(Recorded(s, more), e, a, against, cause)
    ensures NamesMissing(Recorded(t, more), a) <==> NamesMissing(Recorded(s, more), a)
  {
    var before, stopped := Recorded(s, more), Recorded(t, more);
    RecordedIsBetween(s, more, d, e, a, against, cause, t);
    SameRests(before, stopped, a, e);
    ResumedCallEndsTheSame(before, stopped, e, e, a, against, cause);
  }

  /** Once no objective the assumption names is missing, the retry completes, and every one of them ends exposed. */
  lemma RetryAfterRecordingCompletes(s: State, more: map<int, ObjectiveRecord>, d: set<Ref>, e: set<Ref>, a: int,
        against: set<int>, cause: int, t: State, o: int)
    requires WellFormed(s) && RestsOn(s, a, d) && StoppedShort(s, d, a, against, cause, t)
    requires more.Keys !! s.objectives.Keys && RestsOn(Recorded(t, more), a, e)
    requires o in s.assumptions[a].objectives
    requires forall x :: x in s.assumptions[a].objectives ==> x in s.objectives || x in more
    ensures a in t.assumptions && !NamesMissing(Recorded(t, more), a)
    ensures Cascaded(Recorded(t, more), e, a, against, cause) == Cascaded(Recorded(s, more), e, a, against, cause)
    ensures o in t.objectives || o in more
    ensures Cascaded(Recorded(t, more), e, a, against, cause).objectives[o].status == EXPOSED
  {
    SameRestsRecorded(s, more, d, e, a, against, cause, t);
    RecordingRepairs(s, more, d, e, a, against, cause, t);
    NamedObjectivesAreExposed(Recorded(t, more), e, a, against, cause, o);
  }

  lemma RecordingKeepsStructure(s: State, t: State, more: map<int, ObjectiveRecord>)
    requires SameStructure(s, t) && more.Keys !! s.objectives.Keys
    ensures SameStructure(Recorded(t, more), Recorded(s, more))
  {
    forall o | o in s.objectives
      ensures Recorded(t, more).objectives[o] == t.objectives[o]
      ensures Recorded(s, more).objectives[o] == s.objectives[o] { }
  }

  lemma SameRestsRecorded(s: State, more: map<int, ObjectiveRecord>, d: set<Ref>, e: set<Ref>, a: int,
        against: set<int>, cause: int, t: State)
    requires StoppedShort(s, d, a, against, cause, t) && more.Keys !! s.objectives.Keys
    requires RestsOn(Recorded(t, more), a, e)
    ensures RestsOn(Recorded(s, more), a, e)
  {
    var m := StoppedAt(s, d, a, against, cause, t);
    PartIsBetween(s, Reached(s, d, m), d, a, against, cause);
    RecordingKeepsStructure(s, t, more);
    SameRests(Recorded(t, more), Recorded(s, more), a, e);
  }

  // ---------------------------------------------------------------- a state that stops

  /** The assumption names two objectives; the first of them is not on record. */
  const NAMING := State(
    map[1 := AssumptionRecord(1, HELD, {}, {5, 7})], map[], map[7 := ObjectiveRecord(1, ACTIVE, {}, {})],
    map[], map[], {})
  const NAMED: set<Ref> := {Objective(5), Objective(7)}
  const LATER := map[5 := ObjectiveRecord(1, ACTIVE, {}, {})]

  lemma NamedRestOnIt(s: State)
    requires s == NAMING || s == Withdrawn(NAMING, 1, {}, 0) || s == Recorded(Withdrawn(NAMING, 1, {}, 0), LATER)
    ensures RestsOn(s, 1, NAMED)
  {
    var none: Index := map[];
    assert IsIndex(s, none);
    assert Direct(s, 1) == NAMED;
    assert IsClosure(none, NAMED, NAMED);
  }

  /** The call stops at objective 5; objective 7 is on record and named, and stays as it was, in a retry as well. */
  lemma StopsBeforeTheSecond(u: State, e: set<Ref>)
    ensures var t := Withdrawn(NAMING, 1, {}, 0);
            && WellFormed(NAMING) && RestsOn(NAMING, 1, NAMED) && StoppedShort(NAMING, NAMED, 1, {}, 0, t)
            && t.objectives[7].status == ACTIVE
            && (RestsOn(t, 1, e) && StoppedShort(t, e, 1, {}, 0, u) ==> u == t)
  {
    var t := Withdrawn(NAMING, 1, {}, 0);
    NamedRestOnIt(NAMING);
    assert ObjectiveIds(NAMED) == {5, 7} by {
      assert Objective(5).id in ObjectiveIds(NAMED) && Objective(7).id in ObjectiveIds(NAMED);
    }
    assert FirstMissing(NAMING, NAMED, Id(5)) && Reached(NAMING, NAMED, Id(5)) == {};
    NothingMarkedIsTheSame(t, 1, 0);
    if RestsOn(t, 1, e) && StoppedShort(t, e, 1, {}, 0, u) {
      RetryStopsTheSame(NAMING, NAMED, 1, {}, 0, t, e, {}, u);
    }
  }

  lemma NothingMarkedIsTheSame(s: State, a: int, cause: int)
    ensures Marked(s, {}, a, cause) == s
  {
    assert PathMarks(s.paths, {}, cause) == {} && ObjectiveMarks(s.objectives.Keys, {}, a, cause) == {};
    assert Marked(s, {}, a, cause).paths == s.paths && Marked(s, {}, a, cause).objectives == s.objectives;
  }

  /** Once objective 5 is recorded, the retry exposes both. */
  lemma RecordingTheFirstRepairs()
    ensures var t := Recorded(Withdrawn(NAMING, 1, {}, 0), LATER);
            && RestsOn(t, 1, NAMED) && !NamesMissing(t, 1)
            && Cascaded(t, NAMED, 1, {}, 0).objectives[5].status == EXPOSED
            && Cascaded(t, NAMED, 1, {}, 0).objectives[7].status == EXPOSED
  {
    var t := Withdrawn(NAMING, 1, {}, 0);
    StopsBeforeTheSecond(t, NAMED);
    NamedRestOnIt(Recorded(t, LATER));
    RetryAfterRecordingCompletes(NAMING, LATER, NAMED, NAMED, 1, {}, 0, t, 5);
    RetryAfterRecordingCompletes(NAMING, LATER, NAMED, NAMED, 1, {}, 0, t, 7);
  }
}
