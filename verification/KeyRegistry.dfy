/** Enrolling, revoking and rotating keys, with other writers at work on the same log. */
module KeyRegistries {
  import opened EventLog
  import opened KeyLifecycle

  datatype Reply = Written(record: KeyRecord) | Standing(record: KeyRecord) | Refused

  function AfterReply(log: IdentityLog, now: Time, reply: Reply): IdentityLog {
    if reply.Written? then Append(log, now, Key(reply.record)) else log
  }

  // ---------------------------------------------------------------- enrolment, atomic under the store's lock

  function NewKey(actor: int, kind: int, public: int, now: Time, supersedes: Replaces): KeyRecord {
    KeyRecord(Digest(public), 1, actor, kind, public, ACTIVE, now, now, supersedes, false)
  }

  function EnrolReply(log: IdentityLog, actor: int, kind: int, public: int, now: Time, supersedes: Replaces): Reply {
    match Current(log, Digest(public))
    case TheKey(e) =>
      if e.actor == actor && e.kind == kind && e.status == ACTIVE && e.supersedes == supersedes then Standing(e)
          else Refused
    case NoKey =>
      if OwnsOtherKind(log, actor, kind) || |ActiveIds(log, actor)| >= MAX_ACTIVE_KEYS || !Admits(log, now) then Refused
      else Written(NewKey(actor, kind, public, now, supersedes))
  }

  /** The actor holds the key as it was to be enrolled: active, of that kind, in the place of that key. */
  predicate Holds(log: IdentityLog, actor: int, kind: int, public: int, supersedes: Replaces) {
    && IsActive(log, actor, Digest(public))
    && Current(log, Digest(public)).key.kind == kind && Current(log, Digest(public)).key.supersedes == supersedes
  }

  /** Enrolment is refused exactly when afterwards the actor does not hold the key; asking again appends nothing. */
  lemma EnrolmentMeans(
      log: IdentityLog, actor: int, kind: int, public: int, now: Time, supersedes: Replaces, later: Time)
    ensures var reply := EnrolReply(log, actor, kind, public, now, supersedes);
            var after := AfterReply(log, now, reply);
            && (!reply.Refused? <==> Holds(after, actor, kind, public, supersedes))
            && (!reply.Refused? ==>
                  EnrolReply(after, actor, kind, public, later, supersedes) ==
                    Standing(Current(after, Digest(public)).key))
  {
    var reply := EnrolReply(log, actor, kind, public, now, supersedes);
    var after := AfterReply(log, now, reply);
    if reply.Written? { assert Current(after, Digest(public)) == TheKey(reply.record); }
  }

  /** Every key of the actor on record, in whatever state, is of that kind. */
  ghost predicate OnlyKind(log: IdentityLog, actor: int, kind: int) {
    forall id :: Current(log, id).TheKey? && Current(log, id).key.actor == actor ==> Current(log, id).key.kind == kind
  }

  lemma {:induction false} OwnedKindIsOnRecord(log: IdentityLog, actor: int, kind: int)
    requires Reachable(log)
    ensures OwnsOtherKind(log, actor, kind) <==> !OnlyKind(log, actor, kind)
  {
    if id :| Current(log, id).TheKey? && Current(log, id).key.actor == actor && Current(log, id).key.kind != kind {
      KindIsOwned(log, actor, id);
    }
    if log.Append? {
      OwnedKindIsOnRecord(log.prev, actor, kind);
      if log.record.Key? && log.record.key.actor == actor && log.record.key.kind != kind {
        assert Current(log, log.record.key.id).TheKey?;
      } else if id :| Current(log.prev, id).TheKey? && Current(log.prev, id).key.actor == actor
                      && Current(log.prev, id).key.kind != kind {
        KindIsOwned(log, actor, id);
      }
    }
  }

  /**
   * A new key is enrolled exactly if it is not on record, the actor's keys share its kind, fewer than eight of them are
   * active, and the clock is not behind the log.
   */
  lemma EnrolmentIsWrittenIff(log: IdentityLog, actor: int, kind: int, public: int, now: Time, supersedes: Replaces)
    requires Reachable(log)
    ensures var reply := EnrolReply(log, actor, kind, public, now, supersedes);
            && (reply.Written? <==>
                  && Current(log, Digest(public)).NoKey? && OnlyKind(log, actor, kind)
                  && |ActiveIds(log, actor)| < 8 && (log.Append? ==> log.time <= now))
            && (reply.Written? ==>
                  reply.record ==
                    KeyRecord(Digest(public), 1, actor, kind, public, ACTIVE, now, now, supersedes, false))
            && (reply.Standing? <==> Holds(log, actor, kind, public, supersedes))
  {
    OwnedKindIsOnRecord(log, actor, kind);
  }

  /** The key is the one addition to anybody's active keys, and no other key changes. */
  lemma EnrolmentAddsOne(log: IdentityLog, actor: int, kind: int, public: int, now: Time, supersedes: Replaces,
        other: int)
    ensures var reply := EnrolReply(log, actor, kind, public, now, supersedes);
            ActiveIds(AfterReply(log, now, reply), other) ==
              ActiveIds(log, other) + (if other == actor && !reply.Refused? then {Digest(public)} else {})
    ensures var after := AfterReply(log, now, EnrolReply(log, actor, kind, public, now, supersedes));
            forall k :: k != Digest(public) ==> Current(after, k) == Current(log, k)
  {
    var reply := EnrolReply(log, actor, kind, public, now, supersedes);
    if reply.Written? {
      NewKeyIsAdded(log, now, reply.record, other);
    } else {
      ActiveIffInSet(log, actor, Digest(public));
    }
  }

  lemma NewKeyIsAdded(log: IdentityLog, now: Time, v: KeyRecord, other: int)
    requires Current(log, v.id).NoKey? && v.status == ACTIVE
    ensures ActiveIds(Append(log, now, Key(v)), other) ==
            ActiveIds(log, other) + (if other == v.actor then {v.id} else {})
  {
    var after: IdentityLog := Append(log, now, Key(v));
    forall k ensures k in ActiveIds(after, other) <==> (k in ActiveIds(log, other) || (other == v.actor && k == v.id)) {
      ActiveIffInSet(after, other, k);
      ActiveIffInSet(log, other, k);
    }
  }

  // ---------------------------------------------------------------- a settling step, planned first and committed later

  datatype Plan = UnknownKey | Settled(record: KeyRecord) | Propose(record: KeyRecord)

  /** What a caller reads before it asks the store to append. */
  function PlanStep(seen: IdentityLog, id: KeyId, status: KeyStatus, tagged: bool, compromised: bool, now: Time): Plan {
    match Current(seen, id)
    case NoKey => UnknownKey
    case TheKey(u) =>
      if u.status != ACTIVE && !(compromised && !u.tagged) then Settled(u)
      else Propose(u.(version := u.version + 1, status := status, statusTime := now, tagged := tagged || compromised))
  }

  /** What the store does with a proposal: nothing, if the key has moved since it was read. */
  function CommitReply(live: IdentityLog, proposal: KeyRecord, now: Time): Reply {
    match Current(live, proposal.id)
    case NoKey => Refused
    case TheKey(u) =>
      if u.version != proposal.version - 1 then Standing(u)
      else if !Admits(live, now) then Refused
      else Written(proposal)
  }

  /** The same step taken in one go. */
  function AtomicReply(live: IdentityLog, id: KeyId, status: KeyStatus, tagged: bool, compromised: bool,
        now: Time): Reply {
    match PlanStep(live, id, status, tagged, compromised, now)
    case UnknownKey => Refused
    case Settled(u) => Standing(u)
    case Propose(r) => CommitReply(live, r, now)
  }

  /** A plain reason may be typed to start with the tag; a retirement's never does. */
  predicate WellCalled(status: KeyStatus, tagged: bool, compromised: bool) {
    status == REVOKED || (status == RETIRED && !tagged && !compromised)
  }

  /** A version number names one version: if it has not moved, nothing about the key has. */
  lemma {:induction false} SameVersionSameKey(live: IdentityLog, seen: IdentityLog, id: KeyId)
    requires Reachable(live) && Extends(live, seen) && Current(seen, id).TheKey?
    ensures Current(live, id).TheKey? && Current(seen, id).key.version <= Current(live, id).key.version
    ensures Current(live, id).key.version == Current(seen, id).key.version ==> Current(live, id) == Current(seen, id)
    ensures Current(live, id) == Current(seen, id) || Current(live, id).key.status != ACTIVE
  {
    if live != seen { SameVersionSameKey(live.prev, seen, id); }
  }

  lemma CommitIsLegal(live: IdentityLog, seen: IdentityLog, id: KeyId, status: KeyStatus, tagged: bool,
        compromised: bool, now: Time)
    requires Reachable(live) && Extends(live, seen) && WellCalled(status, tagged, compromised)
    requires PlanStep(seen, id, status, tagged, compromised, now).Propose?
    ensures var proposal := PlanStep(seen, id, status, tagged, compromised, now).record;
            var reply := CommitReply(live, proposal, now);
            reply.Written? ==> Legal(live, now, Key(proposal))
  {
    SameVersionSameKey(live, seen, id);
  }

  /**
   * Reading first and appending on condition is as good as one atomic step, except in one race: a compromise that
   * another settling step overtakes is dropped without an error.
   */
  lemma OptimisticIsAtomicUnlessOvertaken(
      live: IdentityLog, seen: IdentityLog, id: KeyId, status: KeyStatus, tagged: bool, compromised: bool, now: Time)
    requires Reachable(live) && Extends(live, seen) && PlanStep(seen, id, status, tagged, compromised, now).Propose?
    ensures CommitReply(live, PlanStep(seen, id, status, tagged, compromised, now).record, now)
              == AtomicReply(live, id, status, tagged, compromised, now)
            <==> !(&& compromised && Current(live, id) != Current(seen, id)
                   && Current(live, id).TheKey? && !Current(live, id).key.tagged)
  {
    SameVersionSameKey(live, seen, id);
  }

  /** The race, from any active key: a retirement lands first, and the key's past signatures stay valid. */
  lemma CompromiseCanBeLost(seen: IdentityLog, id: KeyId, now: Time) returns (live: IdentityLog)
    requires Reachable(seen) && Admits(seen, now) && Current(seen, id).TheKey? && Current(seen, id).key.status == ACTIVE
    ensures Reachable(live) && Extends(live, seen)
    ensures var plan := PlanStep(seen, id, REVOKED, false, true, now);
            plan.Propose? && CommitReply(live, plan.record, now).Standing?
    ensures forall at :: Current(seen, id).key.enrolled <= at < now ==> StandingAt(live, id, at) == VALID
  {
    var retire := AtomicReply(seen, id, RETIRED, false, false, now);
    live := AfterReply(seen, now, retire);
    CommitIsLegal(seen, seen, id, RETIRED, false, false, now);
    CurrentIsLast(seen, id);
    EveryKeyHasAHistory(seen, id);
    forall at | Current(seen, id).key.enrolled <= at < now ensures StandingAt(live, id, at) == VALID {
      ValidMeans(live, id, at);
      assert KeyVersions(live, id) == [Current(seen, id).key, retire.record];
    }
  }

  // ---------------------------------------------------------------- rotation

  /** The order of an actor's keys: by enrolment, then by id. */
  predicate Later(a: KeyRecord, b: KeyRecord) {
    a.enrolled < b.enrolled || (a.enrolled == b.enrolled && a.id.public <= b.id.public)
  }

  /** The newest of the actor's active keys among those enrolled in `part` of the log. */
  function NewestActive(part: IdentityLog, log: IdentityLog, actor: int): MaybeKey {
    if part.Empty? then NoKey
    else
      var best := NewestActive(part.prev, log, actor);
      if part.record.Key? && IsActive(log, actor, part.record.key.id) then
        var k := Current(log, part.record.key.id).key;
        if best.NoKey? || Later(best.key, k) then TheKey(k) else best
      else best
  }

  function ActiveKeyFor(log: IdentityLog, actor: int): MaybeKey {
    NewestActive(log, log, actor)
  }

  lemma {:induction false} NewestActiveIs(part: IdentityLog, log: IdentityLog, actor: int)
    requires Extends(log, part)
    ensures var best := NewestActive(part, log, actor);
            && (best.TheKey? ==> IsActive(log, actor, best.key.id) && Current(log, best.key.id) == best)
            && (forall id :: id in KeyIds(part) && IsActive(log, actor, id) ==>
                  best.TheKey? && Later(Current(log, id).key, best.key))
  {
    if part.Append? {
      PrefixOf(log, part);
      NewestActiveIs(part.prev, log, actor);
    }
  }

  lemma {:induction false} PrefixOf(log: IdentityLog, part: IdentityLog)
    requires Extends(log, part) && part.Append?
    ensures Extends(log, part.prev)
  {
    if log != part { PrefixOf(log.prev, part); }
  }

  /** The key an actor's rotation replaces: none of its active keys is newer. */
  lemma ActiveKeyForIs(log: IdentityLog, actor: int)
    ensures ActiveKeyFor(log, actor).NoKey? <==> ActiveIds(log, actor) == {}
    ensures var best := ActiveKeyFor(log, actor);
            best.TheKey? ==>
              && IsActive(log, actor, best.key.id) && Current(log, best.key.id) == best
              && forall id :: IsActive(log, actor, id) ==>
                   var other := Current(log, id).key;
                   || other.enrolled < best.key.enrolled
                   || (other.enrolled == best.key.enrolled && other.id.public <= best.key.id.public)
  {
    NewestActiveIs(log, log, actor);
    forall id ensures id in ActiveIds(log, actor) <==> IsActive(log, actor, id) { ActiveIffInSet(log, actor, id); }
    forall id | IsActive(log, actor, id) ensures id in KeyIds(log) { KnownIds(log, id); }
    if ActiveKeyFor(log, actor).TheKey? {
      assert ActiveKeyFor(log, actor).key.id in ActiveIds(log, actor);
    }
  }

  datatype Rotation = Rejected | AlreadyCurrent(record: KeyRecord)
                    | Rotated(record: KeyRecord, predecessor: KeyId, enrolled: IdentityLog, done: IdentityLog)

  function Retire(log: IdentityLog, id: KeyId, now: Time): IdentityLog {
    AfterReply(log, now, AtomicReply(log, id, RETIRED, false, false, now))
  }

  /** An undisturbed rotation: the log after its enrolment and after its retirement. */
  function Rotate(log: IdentityLog, actor: int, public: int, now: Time): Rotation {
    var existing := Current(log, Digest(public));
    if existing.TheKey? && existing.key.supersedes.Predecessor? then
      if existing.key.actor != actor then Rejected
      else
        var p := existing.key.supersedes.key;
        Rotated(existing.key, p, log, Retire(log, p, now))
    else
      var predecessor := ActiveKeyFor(log, actor);
      if predecessor.NoKey? then Rejected
      else if predecessor.key.id == Digest(public) then AlreadyCurrent(predecessor.key)
      else
        var p := predecessor.key.id;
        var reply := EnrolReply(log, actor, predecessor.key.kind, public, now, Predecessor(p));
        if reply.Refused? then Rejected
        else
          var enrolled := AfterReply(log, now, reply);
          Rotated(reply.record, p, enrolled, Retire(enrolled, p, now))
  }

  ghost predicate SameStatuses(a: IdentityLog, b: IdentityLog) {
    forall id :: Current(a, id).TheKey? == Current(b, id).TheKey?
                 && (Current(a, id).TheKey? ==> Current(a, id).key.status == Current(b, id).key.status)
  }

  /** A key on record that replaces another names one that is on record for the same actor. */
  lemma {:induction false} PredecessorIsKnown(log: IdentityLog, id: KeyId)
    requires Reachable(log) && Current(log, id).TheKey? && Current(log, id).key.supersedes.Predecessor?
    ensures var p := Current(log, id).key.supersedes.key;
            p != id && Current(log, p).TheKey? && Current(log, p).key.actor == Current(log, id).key.actor
  {
    if log.record.Key? && log.record.key.id == id {
      if Current(log.prev, id).TheKey? { PredecessorIsKnown(log.prev, id); }
    } else {
      PredecessorIsKnown(log.prev, id);
    }
  }

  lemma RotationShape(log: IdentityLog, actor: int, public: int, now: Time)
    requires Reachable(log) && Admits(log, now) && Rotate(log, actor, public, now).Rotated?
    ensures var r := Rotate(log, actor, public, now);
            && Reachable(r.enrolled) && Admits(r.enrolled, now) && Current(r.enrolled, r.predecessor).TheKey?
            && r.predecessor != Digest(public)
            && r.done == Retire(r.enrolled, r.predecessor, now)
            && Current(r.enrolled, Digest(public)) == TheKey(r.record)
            && r.record.supersedes == Predecessor(r.predecessor) && r.record.actor == actor
            && (forall k :: k != Digest(public) ==> Current(r.enrolled, k) == Current(log, k))
  {
    ActiveKeyForIs(log, actor);
    var existing := Current(log, Digest(public));
    if existing.TheKey? && existing.key.supersedes.Predecessor? { PredecessorIsKnown(log, Digest(public)); }
  }

  /** If the new key is absent or active, the actor holds it, active, after every append of the rotation. */
  lemma RotationNeverStrands(log: IdentityLog, actor: int, public: int, now: Time)
    requires Reachable(log) && Admits(log, now) && Rotate(log, actor, public, now).Rotated?
    requires Current(log, Digest(public)).NoKey? || Current(log, Digest(public)).key.status == ACTIVE
    ensures var r := Rotate(log, actor, public, now);
            && Reachable(r.done) && Extends(r.enrolled, log) && Extends(r.done, r.enrolled)
            && IsActive(r.enrolled, actor, Digest(public)) && IsActive(r.done, actor, Digest(public))
            && !IsActive(r.done, actor, r.predecessor)
  {
    RotationShape(log, actor, public, now);
    var r := Rotate(log, actor, public, now);
  }

  /**
   * When the new key was itself settled between the crash and the retry, the retry still retires the predecessor:
   * it leaves the actor without an active key exactly when the predecessor was its only one.
   */
  lemma ResumedRotationStrandsIff(log: IdentityLog, actor: int, public: int, now: Time)
    requires Reachable(log) && Admits(log, now) && Rotate(log, actor, public, now).Rotated?
    requires Current(log, Digest(public)).TheKey? && Current(log, Digest(public)).key.status != ACTIVE
    ensures var r := Rotate(log, actor, public, now);
            ActiveIds(r.done, actor) == {} <==> ActiveIds(log, actor) <= {r.predecessor}
  {
    RotationShape(log, actor, public, now);
    var r := Rotate(log, actor, public, now);
    forall id ensures id in ActiveIds(r.done, actor) <==> id in ActiveIds(log, actor) && id != r.predecessor {
      ActiveIffInSet(r.done, actor, id);
      ActiveIffInSet(log, actor, id);
    }
  }

  /**
   * It can happen to any actor with one key: the rotation stops behind its enrolment, the new key is revoked, and
   * the retry retires the predecessor. The actor is left without an active key.
   */
  lemma RotationCanStrand(log: IdentityLog, actor: int, public: int, now: Time) returns (stranded: IdentityLog)
    requires Reachable(log) && Admits(log, now) && Current(log, Digest(public)).NoKey?
    requires Rotate(log, actor, public, now).Rotated? && |ActiveIds(log, actor)| == 1
    ensures Reachable(stranded) && Extends(stranded, log) && ActiveIds(stranded, actor) == {}
  {
    RotationShape(log, actor, public, now);
    ActiveKeyForIs(log, actor);
    var r, id := Rotate(log, actor, public, now), Digest(public);
    var enrolled := r.enrolled;
    var plan := PlanStep(enrolled, id, REVOKED, false, false, now);
    CommitIsLegal(enrolled, enrolled, id, REVOKED, false, false, now);
    var revoked: IdentityLog := Append(enrolled, now, Key(plan.record));
    assert Rotate(revoked, actor, public, now).predecessor == r.predecessor;
    OnlyPredecessorIsActive(log, revoked, actor, id, r.predecessor);
    ResumedRotationStrandsIff(revoked, actor, public, now);
    RotationShape(revoked, actor, public, now);
    stranded := Rotate(revoked, actor, public, now).done;
    RetireIsReachable(revoked, r.predecessor, now);
    assert Extends(enrolled, log) && Extends(revoked, enrolled);
    ExtendsTrans(revoked, enrolled, log);
    ExtendsTrans(stranded, revoked, log);
  }

  lemma OnlyPredecessorIsActive(log: IdentityLog, revoked: IdentityLog, actor: int, id: KeyId, predecessor: KeyId)
    requires |ActiveIds(log, actor)| == 1 && IsActive(log, actor, predecessor)
    requires forall k :: k != id ==> Current(revoked, k) == Current(log, k)
    requires Current(revoked, id).TheKey? && Current(revoked, id).key.status != ACTIVE
    ensures ActiveIds(revoked, actor) <= {predecessor}
  {
    ActiveIffInSet(log, actor, predecessor);
    assert |ActiveIds(log, actor) - {predecessor}| == 0;
    assert ActiveIds(log, actor) == (ActiveIds(log, actor) - {predecessor}) + {predecessor};
    forall k | k in ActiveIds(revoked, actor) ensures k == predecessor {
      ActiveIffInSet(revoked, actor, k);
      ActiveIffInSet(log, actor, k);
      assert k in ActiveIds(log, actor);
    }
  }

  lemma RetireIsReachable(log: IdentityLog, id: KeyId, now: Time)
    requires Reachable(log) && Admits(log, now) && Current(log, id).TheKey?
    ensures Reachable(Retire(log, id, now)) && Extends(Retire(log, id, now), log)
  {
    if PlanStep(log, id, RETIRED, false, false, now).Propose? {
      CommitIsLegal(log, log, id, RETIRED, false, false, now);
    }
  }

  /** Stopping after the enrolment and calling again, at any later time, reaches the statuses of an unbroken run. */
  lemma RotationResumes(log: IdentityLog, actor: int, public: int, now: Time, later: Time)
    requires Reachable(log) && Admits(log, now) && now <= later && Rotate(log, actor, public, now).Rotated?
    ensures var r := Rotate(log, actor, public, now);
            var again := Rotate(r.enrolled, actor, public, later);
            again.Rotated? && again.record == r.record && SameStatuses(again.done, r.done)
  {
    RotationShape(log, actor, public, now);
    var r := Rotate(log, actor, public, now);
  }

  /** A further call appends nothing. */
  lemma RotationIsIdempotent(log: IdentityLog, actor: int, public: int, now: Time, later: Time)
    requires Reachable(log) && Admits(log, now) && now <= later && Rotate(log, actor, public, now).Rotated?
    ensures var r := Rotate(log, actor, public, now);
            Rotate(r.done, actor, public, later) == Rotated(r.record, r.predecessor, r.done, r.done)
  {
    RotationShape(log, actor, public, now);
    var r := Rotate(log, actor, public, now);
  }

  // ---------------------------------------------------------------- the registry over its store

  class KeyRegistry {
    var log: IdentityLog

    ghost predicate Valid()
      reads this
    {
      Reachable(log)
    }

    constructor ()
      ensures Valid() && log == Empty
    {
      log := Empty;
    }

    /**
     * Other writers may append here. A caller may rely only on what this promises: that the log grew by legal
     * appends, and on whether it grew at all.
     */
    method OtherWriters() returns (ghost wrote: bool)
      requires Valid()
      modifies this
      ensures Valid() && Extends(log, old(log)) && (wrote || log == old(log))
    {
      wrote := false;
    }

    method Enroll(actor: int, kind: int, public: int, now: Time, supersedes: Replaces) returns (reply: Reply)
      requires Valid()
      requires supersedes.Predecessor? ==>
        supersedes.key != Digest(public) && Current(log, supersedes.key).TheKey?
        && Current(log, supersedes.key).key.actor == actor
      modifies this
      ensures Valid() && reply == EnrolReply(old(log), actor, kind, public, now, supersedes)
      ensures log == AfterReply(old(log), now, reply)
      ensures !reply.Refused? <==> Holds(log, actor, kind, public, supersedes)
      ensures ActiveIds(log, actor) == ActiveIds(old(log), actor) + (if reply.Refused? then {} else {Digest(public)})
      ensures |ActiveIds(log, actor)| <= MAX_ACTIVE_KEYS
    {
      EnrolmentMeans(log, actor, kind, public, now, supersedes, now);
      EnrolmentAddsOne(log, actor, kind, public, now, supersedes, actor);
      reply := EnrolReply(log, actor, kind, public, now, supersedes);
      log := AfterReply(log, now, reply);
      ActiveKeysAreBounded(log, actor);
    }

    /** Read, then append if the key has not moved meanwhile. `live` is the log the store saw. */
    method Step(id: KeyId, status: KeyStatus, tagged: bool, compromised: bool, now: Time)
      returns (reply: Reply, ghost live: IdentityLog, ghost disturbed: bool)
      requires Valid() && WellCalled(status, tagged, compromised)
      modifies this
      ensures Valid() && Reachable(live) && Extends(live, old(log)) && (disturbed || live == old(log))
      ensures log == AfterReply(live, now, reply)
      ensures match PlanStep(old(log), id, status, tagged, compromised, now)
              case UnknownKey => reply.Refused?
              case Settled(u) => reply == Standing(u)
              case Propose(r) => reply == CommitReply(live, r, now)
      ensures live == old(log) ==> reply == AtomicReply(old(log), id, status, tagged, compromised, now)
    {
      var plan := PlanStep(log, id, status, tagged, compromised, now);
      live, disturbed := log, false;
      if plan.UnknownKey? { return Refused, live, disturbed; }
      if plan.Settled? { return Standing(plan.record), live, disturbed; }
      ghost var seen := log;
      disturbed := OtherWriters();
      live := log;
      CommitIsLegal(log, seen, id, status, tagged, compromised, now);
      reply := CommitReply(log, plan.record, now);
      log := AfterReply(log, now, reply);
    }

    method Revoke(id: KeyId, tagged: bool, compromised: bool, now: Time) returns (reply: Reply)
      requires Valid()
      modifies this
      ensures Valid() && Extends(log, old(log))
      ensures reply.Written? ==> Current(log, id) == TheKey(reply.record) && reply.record.status == REVOKED
      ensures reply.Written? && (compromised || tagged) ==> forall at :: StandingAt(log, id, at) == COMPROMISED
    {
      ghost var before := log;
      ghost var live, disturbed;
      reply, live, disturbed := Step(id, REVOKED, tagged, compromised, now);
      ExtendsTrans(log, live, before);
      CurrentIsLast(log, id);
    }

    /** Undisturbed by other writers, the log becomes exactly that of `Rotate`. */
    method RotateKeys(actor: int, public: int, now: Time) returns (rotated: bool, ghost disturbed: bool)
      requires Valid() && Admits(log, now)
      modifies this
      ensures Valid()
      ensures rotated <==> !Rotate(old(log), actor, public, now).Rejected?
      ensures !disturbed ==>
        log == match Rotate(old(log), actor, public, now)
               case Rotated(_, _, _, done) => done
               case _ => old(log)
      ensures Rotate(old(log), actor, public, now).Rotated? ==>
        var p := Rotate(old(log), actor, public, now).predecessor;
        Current(log, p).TheKey? && (disturbed || Current(log, p).key.status != ACTIVE)
    {
      disturbed := false;
      ghost var plan := Rotate(log, actor, public, now);
      if plan.Rotated? {
        RotationShape(log, actor, public, now);
      }
      ActiveKeyForIs(log, actor);
      var existing := Current(log, Digest(public));
      var p: KeyId;
      if existing.TheKey? && existing.key.supersedes.Predecessor? {
        if existing.key.actor != actor { return false, false; }
        p := existing.key.supersedes.key;
      } else {
        var predecessor := ActiveKeyFor(log, actor);
        if predecessor.NoKey? { return false, false; }
        if predecessor.key.id == Digest(public) { return true, false; }
        p := predecessor.key.id;
        var reply := Enroll(actor, predecessor.key.kind, public, now, Predecessor(p));
        if reply.Refused? { return false, false; }
      }
      ghost var enrolled := log;
      ghost var live;
      var _, l, d := Step(p, RETIRED, false, false, now);
      live, disturbed := l, d;
      SameVersionSameKey(live, enrolled, p);
      return true, disturbed;
    }
  }
}
