/** Requirements, tasks and evidence requests: their flow tables, under writers that act on the same log at once. */
module Missions {
  import opened EventLog

  // ---------------------------------------------------------------- records

  datatype Kind = REQUIREMENT | ANALYST_TASK | EVIDENCE_REQUEST

  datatype Status =
    | OPEN | EVIDENCE_PENDING | ANSWERED | CLOSED_UNANSWERED
    | ASSIGNED | IN_PROGRESS | BLOCKED | DONE | ABANDONED
    | FULFILLED | FAILED

  datatype Subject = Subject(kind: Kind, id: int)

  datatype Transition = Transition(
    subject: Subject, origin: Status, target: Status, actor: int, human: bool, evidence: seq<int>, noted: bool)

  /** LOW to CRITICAL. */
  type Priority = p: int | 0 <= p <= 3

  datatype Requirement = Requirement(id: int, version: int, priority: Priority, affected: seq<int>)

  datatype Record =
    | RequirementRecorded(r: Requirement)
    | TaskRecorded(id: int, assignee: int)
    | EvidenceRequested(id: int, requirement: int)
    | Transitioned(t: Transition)

  type History = Log<Record>

  // ---------------------------------------------------------------- the flow tables

  function Flow(kind: Kind, s: Status): set<Status> {
    match kind
    case REQUIREMENT =>
      (match s
       case OPEN => {EVIDENCE_PENDING, ANSWERED, CLOSED_UNANSWERED}
       case EVIDENCE_PENDING => {OPEN, ANSWERED, CLOSED_UNANSWERED}
       case _ => {})
    case ANALYST_TASK =>
      (match s
       case ASSIGNED => {IN_PROGRESS, BLOCKED, ABANDONED}
       case IN_PROGRESS => {BLOCKED, DONE, ABANDONED}
       case BLOCKED => {IN_PROGRESS, ABANDONED}
       case _ => {})
    case EVIDENCE_REQUEST => if s == OPEN then {FULFILLED, FAILED} else {}
  }

  /** The tables move by move. */
  predicate IsMove(kind: Kind, s: Status, target: Status) {
    match kind
    case REQUIREMENT =>
      || ((s == OPEN || s == EVIDENCE_PENDING) && (target == ANSWERED || target == CLOSED_UNANSWERED))
      || (s == OPEN && target == EVIDENCE_PENDING) || (s == EVIDENCE_PENDING && target == OPEN)
    case ANALYST_TASK =>
      || ((s == ASSIGNED || s == IN_PROGRESS || s == BLOCKED) && target == ABANDONED)
      || ((s == ASSIGNED || s == BLOCKED) && target == IN_PROGRESS)
      || ((s == ASSIGNED || s == IN_PROGRESS) && target == BLOCKED)
      || (s == IN_PROGRESS && target == DONE)
    case EVIDENCE_REQUEST => s == OPEN && (target == FULFILLED || target == FAILED)
  }

  lemma FlowIsMoves(kind: Kind, s: Status, target: Status)
    ensures target in Flow(kind, s) <==> IsMove(kind, s, target)
  {
  }

  function Initial(kind: Kind): Status {
    if kind == ANALYST_TASK then ASSIGNED else OPEN
  }

  predicate HumanOnly(kind: Kind, target: Status) {
    match kind
    case REQUIREMENT => target == ANSWERED || target == CLOSED_UNANSWERED
    case ANALYST_TASK => target == DONE
    case EVIDENCE_REQUEST => false
  }

  // ---------------------------------------------------------------- replayed views

  predicate Known(log: History, s: Subject) {
    log.Append? && (Opens(log.record, s) || Known(log.prev, s))
  }

  predicate Opens(r: Record, s: Subject) {
    match r
    case RequirementRecorded(q) => s == Subject(REQUIREMENT, q.id)
    case TaskRecorded(id, _) => s == Subject(ANALYST_TASK, id)
    case EvidenceRequested(id, _) => s == Subject(EVIDENCE_REQUEST, id)
    case Transitioned(_) => false
  }

  /** What opens a subject is the record of its kind under its id. */
  ghost predicate OnRecord(log: History, s: Subject) {
    match s.kind
    case REQUIREMENT => exists r :: Recorded(log, RequirementRecorded(r)) && r.id == s.id
    case ANALYST_TASK => exists assignee :: Recorded(log, TaskRecorded(s.id, assignee))
    case EVIDENCE_REQUEST => exists requirement :: Recorded(log, EvidenceRequested(s.id, requirement))
  }

  lemma {:induction false} KnownIsOnRecord(log: History, s: Subject)
    ensures Known(log, s) <==> OnRecord(log, s)
  {
    if log.Append? {
      KnownIsOnRecord(log.prev, s);
      if Opens(log.record, s) { assert Recorded(log, log.record); }
    }
  }

  predicate AssignedTo(log: History, task: int, actor: int) {
    log.Append? && (if log.record.TaskRecorded? && log.record.id == task then log.record.assignee == actor
                    else AssignedTo(log.prev, task, actor))
  }

  /** The audit trail of a subject, oldest first. */
  function Trail(log: History, s: Subject): seq<Transition> {
    if log.Empty? then []
    else Trail(log.prev, s) + (if log.record.Transitioned? && log.record.t.subject == s then [log.record.t] else [])
  }

  /** Where a subject on record stands: at its latest transition's target, or where it was opened. */
  function StatusOf(log: History, s: Subject): Status {
    if log.Empty? then Initial(s.kind)
    else if log.record.Transitioned? && log.record.t.subject == s then log.record.t.target
    else StatusOf(log.prev, s)
  }

  datatype MaybeRequirement = NoRequirement | TheRequirement(r: Requirement)

  function LatestRequirement(log: History, id: int): (m: MaybeRequirement)
    ensures m.TheRequirement? ==> m.r.id == id
  {
    if log.Empty? then NoRequirement
    else if log.record.RequirementRecorded? && log.record.r.id == id then TheRequirement(log.record.r)
    else LatestRequirement(log.prev, id)
  }

  // ---------------------------------------------------------------- the rule of each append

  /** What a transition must show, whoever asks. */
  predicate Proper(log: History, t: Transition) {
    && t.target in Flow(t.subject.kind, t.origin)
    && (HumanOnly(t.subject.kind, t.target) ==> t.human)
    && (t.subject.kind == REQUIREMENT && t.target == ANSWERED ==> t.evidence != [])
    && (t.target == CLOSED_UNANSWERED || t.target == FAILED || t.target == ABANDONED ==> t.noted)
    && (t.subject.kind == ANALYST_TASK && t.target == DONE ==> AssignedTo(log, t.subject.id, t.actor))
  }

  predicate NoRepeats(s: seq<int>) {
    forall i, j :: 0 <= i < j < |s| ==> s[i] != s[j]
  }

  /** First mentions only. */
  function Distinct(s: seq<int>): (r: seq<int>)
    ensures NoRepeats(r) && forall x :: x in r <==> x in s
  {
    if s == [] then []
    else
      var front, last := Distinct(s[..|s| - 1]), s[|s| - 1];
      assert s == s[..|s| - 1] + [last];
      if last in front then front else front + [last]
  }

  /** What was affected and what is now said to be. */
  function Union(a: seq<int>, b: seq<int>): seq<int> {
    Distinct(a + b)
  }

  lemma {:induction false} DistinctOfDistinct(s: seq<int>)
    requires NoRepeats(s)
    ensures Distinct(s) == s
  {
    if s != [] { DistinctOfDistinct(s[..|s| - 1]); }
  }

  lemma {:induction false} NothingNew(a: seq<int>, b: seq<int>)
    requires NoRepeats(a) && forall x :: x in b ==> x in a
    ensures Distinct(a + b) == a
  {
    if b == [] {
      assert a + b == a;
      DistinctOfDistinct(a);
    } else {
      NothingNew(a, b[..|b| - 1]);
      assert (a + b)[..|a + b| - 1] == a + b[..|b| - 1];
    }
  }

  /** Folding changes nothing exactly if nothing is new and nothing was mentioned twice. */
  lemma UnionIsTheSameIff(a: seq<int>, b: seq<int>)
    ensures Union(a, b) == a <==> NoRepeats(a) && forall x :: x in b ==> x in a
  {
    if NoRepeats(a) && forall x :: x in b ==> x in a { NothingNew(a, b); }
  }

  /** A later call may raise the priority and widen the affected set; it can do neither the other way. */
  function Folded(r: Requirement, priority: Priority, affected: seq<int>): Requirement {
    Requirement(r.id, r.version + 1,
                if r.priority >= priority then r.priority else priority, Union(r.affected, affected))
  }

  /** A fold is of the version that was read; a store that checks versions takes it only if that is still the last. */
  ghost predicate LegalRequirement(log: History, r: Requirement, versioned: bool) {
    && (versioned ==>
      r.version == (match LatestRequirement(log, r.id) case NoRequirement => 1 case TheRequirement(q) => q.version + 1))
    && (r.version == 1 || exists seen, priority, affected ::
          Extends(log, seen) && LatestRequirement(seen, r.id).TheRequirement?
          && r == Folded(LatestRequirement(seen, r.id).r, priority, affected))
  }

  ghost predicate Legal(log: History, record: Record, versioned: bool) {
    match record
    case RequirementRecorded(r) => LegalRequirement(log, r, versioned)
    // a task's id is a digest that covers its assignee
    case TaskRecorded(id, assignee) => Known(log, Subject(ANALYST_TASK, id)) ==> AssignedTo(log, id, assignee)
    case EvidenceRequested(_, _) => true
    case Transitioned(t) => Known(log, t.subject) && t.origin == StatusOf(log, t.subject) && Proper(log, t)
  }

  ghost predicate Reachable(log: History, versioned: bool) {
    log.Append? ==> Reachable(log.prev, versioned) && Legal(log.prev, log.record, versioned)
  }

  // ---------------------------------------------------------------- every trail is a path of its flow table

  /** An answer, a closing and a finished task come from a human; an answer shows evidence, giving up says why. */
  predicate ShowsItsDue(t: Transition) {
    && (t.target == ANSWERED || t.target == CLOSED_UNANSWERED || t.target == DONE ==> t.human)
    && (t.target == ANSWERED ==> t.evidence != [])
    && (t.target == CLOSED_UNANSWERED || t.target == FAILED || t.target == ABANDONED ==> t.noted)
  }

  predicate FlowPath(kind: Kind, trail: seq<Transition>) {
    && (trail != [] ==> trail[0].origin == if kind == ANALYST_TASK then ASSIGNED else OPEN)
    && (forall i :: 0 < i < |trail| ==> trail[i].origin == trail[i - 1].target)
    && (forall i :: 0 <= i < |trail| ==> IsMove(kind, trail[i].origin, trail[i].target) && ShowsItsDue(trail[i]))
  }

  lemma {:induction false} StatusEndsTheTrail(log: History, s: Subject)
    ensures StatusOf(log, s) == var trail := Trail(log, s); if trail == [] then Initial(s.kind)
            else trail[|trail| - 1].target
  {
    if log.Append? { StatusEndsTheTrail(log.prev, s); }
  }

  lemma ProperMove(log: History, t: Transition)
    requires Proper(log, t)
    ensures IsMove(t.subject.kind, t.origin, t.target) && ShowsItsDue(t)
  {
    FlowIsMoves(t.subject.kind, t.origin, t.target);
  }

  /** Under any interleaving of writers, a subject's transitions form one linked path of its flow table. */
  lemma {:induction false} TrailIsAFlowPath(log: History, versioned: bool, s: Subject)
    requires Reachable(log, versioned)
    ensures FlowPath(s.kind, Trail(log, s))
  {
    if log.Append? {
      TrailIsAFlowPath(log.prev, versioned, s);
      StatusEndsTheTrail(log.prev, s);
      if log.record.Transitioned? && log.record.t.subject == s { ProperMove(log.prev, log.record.t); }
    }
  }

  /** Only the analyst a task is assigned to can have finished it. */
  lemma {:induction false} DoneByItsAssignee(log: History, versioned: bool, task: int, t: Transition)
    requires Reachable(log, versioned) && t in Trail(log, Subject(ANALYST_TASK, task)) && t.target == DONE
    ensures AssignedTo(log, task, t.actor)
  {
    if t in Trail(log.prev, Subject(ANALYST_TASK, task)) {
      DoneByItsAssignee(log.prev, versioned, task, t);
      assert Extends(log, log.prev);
      TaskStaysAssigned(log, log.prev, versioned, task, t.actor);
    }
  }

  /** A terminal status is absorbing: once a trail reaches it, the trail has ended for good. */
  lemma {:induction false} TerminalIsAbsorbing(log: History, kept: History, versioned: bool, s: Subject)
    requires Reachable(log, versioned) && Extends(log, kept)
    requires StatusOf(kept, s) in {ANSWERED, CLOSED_UNANSWERED, DONE, ABANDONED, FULFILLED, FAILED}
    ensures Trail(log, s) == Trail(kept, s) && StatusOf(log, s) == StatusOf(kept, s)
  {
    if log != kept {
      TerminalIsAbsorbing(log.prev, kept, versioned, s);
    }
  }

  // ---------------------------------------------------------------- requirements only grow

  /** Nothing the older version said is lost in the newer one. */
  predicate Covers(newer: Requirement, older: Requirement) {
    older.priority <= newer.priority && forall x :: x in older.affected ==> x in newer.affected
  }

  lemma {:induction false} VersionNamesOne(log: History, seen: History, id: int)
    requires Reachable(log, true) && Extends(log, seen) && LatestRequirement(seen, id).TheRequirement?
    ensures LatestRequirement(log, id).TheRequirement?
    ensures LatestRequirement(seen, id).r.version <= LatestRequirement(log, id).r.version
    ensures LatestRequirement(seen, id).r.version == LatestRequirement(log, id).r.version ==>
              LatestRequirement(seen, id) == LatestRequirement(log, id)
  {
    if log != seen { VersionNamesOne(log.prev, seen, id); }
  }

  /** In a store that checks versions, no writer ever lowers a priority or drops an affected id. */
  lemma {:induction false} RequirementsOnlyGrow(log: History, kept: History, id: int)
    requires Reachable(log, true) && Extends(log, kept) && LatestRequirement(kept, id).TheRequirement?
    ensures LatestRequirement(log, id).TheRequirement?
            && Covers(LatestRequirement(log, id).r, LatestRequirement(kept, id).r)
  {
    if log != kept {
      RequirementsOnlyGrow(log.prev, kept, id);
      if log.record.RequirementRecorded? && log.record.r.id == id {
        var r := log.record.r;
        FirstHasVersionOne(log.prev, id);
        var seen, priority, affected :| Extends(log.prev, seen) && LatestRequirement(seen, id).TheRequirement?
                                        && r == Folded(LatestRequirement(seen, id).r, priority, affected);
        VersionNamesOne(log.prev, seen, id);
      }
    }
  }

  lemma {:induction false} FirstHasVersionOne(log: History, id: int)
    requires Reachable(log, true) && LatestRequirement(log, id).TheRequirement?
    ensures LatestRequirement(log, id).r.version >= 1
  {
    if log.record.RequirementRecorded? && log.record.r.id == id {
      if LatestRequirement(log.prev, id).TheRequirement? { FirstHasVersionOne(log.prev, id); }
    } else {
      FirstHasVersionOne(log.prev, id);
    }
  }

  /** A fold appended to `live` on the strength of what was read in `seen`. */
  ghost predicate FoldOfRead(live: History, seen: History, id: int, r: Requirement) {
    && Extends(live, seen) && LatestRequirement(seen, id).TheRequirement?
    && exists priority, affected :: r == Folded(LatestRequirement(seen, id).r, priority, affected)
  }

  /** In any store, a fold of what is still the latest version loses nothing. */
  lemma FoldOfTheLatestGrows(live: History, seen: History, id: int, r: Requirement)
    requires FoldOfRead(live, seen, id, r) && LatestRequirement(live, id) == LatestRequirement(seen, id)
    ensures Covers(r, LatestRequirement(live, id).r)
  {
    var priority, affected :| r == Folded(LatestRequirement(seen, id).r, priority, affected);
  }

  /**
   * No fold of what was read, whatever it adds, can be relied on to keep the latest version, unless the read covers it.
   */
  lemma EveryFoldKeepsIff(live: History, seen: History, id: int)
    requires Extends(live, seen) && LatestRequirement(seen, id).TheRequirement?
             && LatestRequirement(live, id).TheRequirement?
    ensures (forall r :: FoldOfRead(live, seen, id, r) ==> Covers(r, LatestRequirement(live, id).r))
            <==> Covers(LatestRequirement(seen, id).r, LatestRequirement(live, id).r)
  {
    var read := LatestRequirement(seen, id).r;
    forall r | FoldOfRead(live, seen, id, r) ensures Covers(r, read) {
      var priority, affected :| r == Folded(read, priority, affected);
    }
    assert FoldOfRead(live, seen, id, Folded(read, 0, []));
  }

  /**
   * The base store does not check requirement versions. There, of two folds of the same version the later one
   * overwrites the earlier: a raised priority and an added affected id are lost.
   */
  lemma UnversionedFoldCanBeLost(log: History, time: Time, id: int, added: int, more: int)
    returns (raised: History, later: History)
    requires Reachable(log, false) && LatestRequirement(log, id).TheRequirement?
             && LatestRequirement(log, id).r.priority < 3
    requires added !in LatestRequirement(log, id).r.affected && added != more
    ensures Reachable(later, false) && Extends(later, raised) && Extends(raised, log)
    ensures LatestRequirement(raised, id).TheRequirement? && LatestRequirement(later, id).TheRequirement?
    ensures LatestRequirement(later, id).r.priority < LatestRequirement(raised, id).r.priority
    ensures added in LatestRequirement(raised, id).r.affected && added !in LatestRequirement(later, id).r.affected
    ensures !Reachable(later, true)
  {
    var r := LatestRequirement(log, id).r;
    var high, wide := Folded(r, 3, [added]), Folded(r, 0, [more]);
    assert Extends(log, log);
    assert LegalRequirement(log, high, false);
    raised := Append(log, time, RequirementRecorded(high));
    assert Extends(raised, log);
    assert LegalRequirement(raised, wide, false);
    later := Append(raised, time, RequirementRecorded(wide));
    assert !LegalRequirement(raised, wide, true);
  }

  /**
   * Nor does the base store refuse a second opening: of two writers that both find no requirement the later one
   * overwrites the earlier, with a lower priority and without its affected ids.
   */
  lemma TwoFirstOpeningsCanBothLand(log: History, time: Time, id: int, first: int, second: int) returns (later: History)
    requires Reachable(log, false) && LatestRequirement(log, id).NoRequirement? && first != second
    ensures Reachable(later, false) && Extends(later, log) && !Reachable(later, true)
    ensures Recorded(later, RequirementRecorded(Requirement(id, 1, 3, [first])))
    ensures LatestRequirement(later, id) == TheRequirement(Requirement(id, 1, 0, [second]))
    ensures !Covers(Requirement(id, 1, 0, [second]), Requirement(id, 1, 3, [first]))
  {
    var one: History := Append(log, time, RequirementRecorded(Requirement(id, 1, 3, [first])));
    later := Append(one, time, RequirementRecorded(Requirement(id, 1, 0, [second])));
    assert Extends(one, log);
    assert !LegalRequirement(one, Requirement(id, 1, 0, [second]), true);
  }

  // ---------------------------------------------------------------- the workflow over its store

  class MissionWorkflow {
    var log: History
    /** Whether the store checks the versions of requirements. */
    const versioned: bool

    ghost predicate Valid()
      reads this
    {
      Reachable(log, versioned)
    }

    constructor (versioned: bool)
      ensures Valid() && log == Empty && this.versioned == versioned
    {
      this.versioned := versioned;
      log := Empty;
    }

    /** Other writers may append here; a caller may rely only on what this promises. */
    method OtherWriters()
      requires Valid()
      modifies this
      ensures Valid() && Extends(log, old(log))
    {
    }

    /** The checks of one move, in their order. */
    method CheckMove(t: Transition) returns (proper: bool)
      ensures proper == Proper(log, t)
    {
      if t.target !in Flow(t.subject.kind, t.origin) { return false; }
      if t.subject.kind == REQUIREMENT {
        if (t.target == ANSWERED || t.target == CLOSED_UNANSWERED) && !t.human { return false; }
        if t.target == ANSWERED && t.evidence == [] { return false; }
      }
      if t.subject.kind == ANALYST_TASK && t.target == DONE {
        if !t.human || !AssignedTo(log, t.subject.id, t.actor) { return false; }
      }
      if (t.target == CLOSED_UNANSWERED || t.target == FAILED || t.target == ABANDONED) && !t.noted { return false; }
      return true;
    }

    /** Read the status, check, and append if the subject has not moved meanwhile. */
    method Move(time: Time, s: Subject, target: Status, actor: int, human: bool, evidence: seq<int>, noted: bool)
      returns (moved: bool, ghost live: History)
      requires Valid()
      modifies this
      ensures Valid() && Extends(live, old(log))
      ensures var t := Transition(s, StatusOf(old(log), s), target, actor, human, evidence, noted);
              && (moved <==> Known(old(log), s) && Proper(old(log), t) && StatusOf(live, s) == t.origin)
              && log == if moved then Append(live, time, Transitioned(t)) else live
    {
      live := log;
      if !Known(log, s) { return false, live; }
      var t := Transition(s, StatusOf(log, s), target, actor, human, evidence, noted);
      var proper := CheckMove(t);
      if !proper { return false, live; }
      ghost var seen := log;
      OtherWriters();
      live := log;
      StaysKnown(log, seen, s);
      if AssignedTo(seen, s.id, actor) { TaskStaysAssigned(log, seen, versioned, s.id, actor); }
      if StatusOf(log, s) != t.origin { return false, live; }
      log := Append(log, time, Transitioned(t));
      return true, live;
    }

    /** Open a requirement, or fold what a repeated call adds into the one that stands. */
    method OpenRequirement(time: Time, id: int, priority: Priority, affected: seq<int>)
      returns (done: bool, ghost live: History)
      requires Valid()
      modifies this
      ensures Valid() && Extends(live, old(log))
      ensures done ==> LatestRequirement(log, id).TheRequirement?
                       && priority <= LatestRequirement(log, id).r.priority
                       && forall x :: x in affected ==> x in LatestRequirement(log, id).r.affected
      ensures !done ==> versioned && log == live
      ensures done ==> var r := LatestRequirement(log, id).r;
        match LatestRequirement(old(log), id)
        case NoRequirement => r == Requirement(id, 1, priority, affected)
        case TheRequirement(q) =>
          if priority <= q.priority && NoRepeats(q.affected) && (forall x :: x in affected ==> x in q.affected)
          then log == old(log)
          else && r.version == q.version + 1 && r.priority == (if q.priority < priority then priority else q.priority)
               && NoRepeats(r.affected) && forall x :: x in r.affected <==> x in q.affected || x in affected
    {
      live := log;
      var latest := LatestRequirement(log, id);
      if latest.TheRequirement? {
        var folded := Folded(latest.r, priority, affected);
        UnionIsTheSameIff(latest.r.affected, affected);
        if folded.priority == latest.r.priority && folded.affected == latest.r.affected { return true, live; }
        done, live := AppendRequirement(time, folded, log, priority, affected);
      } else {
        done, live := AppendRequirement(time, Requirement(id, 1, priority, affected), log, priority, affected);
      }
    }

    method AppendRequirement(time: Time, r: Requirement, ghost seen: History, ghost priority: Priority,
          ghost affected: seq<int>)
      returns (done: bool, ghost live: History)
      requires Valid() && seen == log
      requires match LatestRequirement(seen, r.id)
               case NoRequirement => r.version == 1
               case TheRequirement(q) => r == Folded(q, priority, affected)
      modifies this
      ensures Valid() && Extends(live, old(log))
      ensures log == if done then Append(live, time, RequirementRecorded(r)) else live
      ensures !done ==> versioned
    {
      OtherWriters();
      live := log;
      var latest := LatestRequirement(log, r.id);
      if versioned && r.version != (if latest.TheRequirement? then latest.r.version + 1 else 1) { return false, live; }
      assert LegalRequirement(log, r, versioned);
      log := Append(log, time, RequirementRecorded(r));
      return true, live;
    }
  }

  lemma {:induction false} StaysKnown(log: History, seen: History, s: Subject)
    requires Extends(log, seen) && Known(seen, s)
    ensures Known(log, s)
  {
    if log != seen { StaysKnown(log.prev, seen, s); }
  }

  lemma {:induction false} TaskStaysAssigned(log: History, seen: History, versioned: bool, task: int, actor: int)
    requires Reachable(log, versioned) && Extends(log, seen) && AssignedTo(seen, task, actor)
    ensures AssignedTo(log, task, actor) && Known(log, Subject(ANALYST_TASK, task))
  {
    if log != seen {
      TaskStaysAssigned(log.prev, seen, versioned, task, actor);
      if log.record.TaskRecorded? && log.record.id == task { OneAssignee(log.prev, task, actor, log.record.assignee); }
    } else if !(log.record.TaskRecorded? && log.record.id == task) {
      TaskStaysAssigned(log.prev, log.prev, versioned, task, actor);
    }
  }

  lemma {:induction false} OneAssignee(log: History, task: int, a: int, b: int)
    requires AssignedTo(log, task, a) && AssignedTo(log, task, b)
    ensures a == b
  {
    if !(log.record.TaskRecorded? && log.record.id == task) { OneAssignee(log.prev, task, a, b); }
  }
}
