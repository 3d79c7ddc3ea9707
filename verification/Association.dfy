/** Entity association that can be undone: SAME_AS follows the last resolution of its pair. */
module Association {
  import opened EventLog

  // ---------------------------------------------------------------- records

  /** A proposal's id is a digest of its ordered pair and its time. */
  datatype ProposalId = Assoc(left: int, right: int, time: Time)

  datatype Resolution = ACCEPTED | REJECTED | SPLIT | REVERSED

  datatype RelationType = SAME_AS | POSSIBLY_SAME_AS

  datatype RelationStatus = ACTIVE | PROPOSED | DISMISSED | RETIRED

  /** What evaluating a pair can conclude. */
  datatype Outcome = AUTO_ASSOCIATE | PROPOSE_ASSOCIATION | REJECT_ASSOCIATION | UNKNOWN

  datatype Relation = Relation(kind: RelationType, left: int, right: int)

  datatype Record =
    | Proposal(id: ProposalId)
    | Resolved(id: ProposalId, resolution: Resolution)
    | Relationship(relation: Relation, version: int, status: RelationStatus)
    | Elsewhere

  type History = Log<Record>

  // ---------------------------------------------------------------- replayed views

  datatype LastResolution = Never | Last(resolution: Resolution)

  /** The last resolution of any proposal about the ordered pair. */
  function LastOf(log: History, left: int, right: int): LastResolution {
    if log.Empty? then Never
    else if log.record.Resolved? && log.record.id.left == left && log.record.id.right == right then
        Last(log.record.resolution)
    else LastOf(log.prev, left, right)
  }

  datatype Standing = Absent | Stands(version: int, status: RelationStatus)

  function StandingOf(log: History, r: Relation): Standing {
    if log.Empty? then Absent
    else if log.record.Relationship? && log.record.relation == r then Stands(log.record.version, log.record.status)
    else StandingOf(log.prev, r)
  }

  function NextVersion(log: History, r: Relation): int {
    var s := StandingOf(log, r);
    if s.Absent? then 1 else s.version + 1
  }

  predicate IsActive(log: History, r: Relation) {
    StandingOf(log, r).Stands? && StandingOf(log, r).status == ACTIVE
  }

  predicate IsOpen(log: History, r: Relation) {
    StandingOf(log, r).Stands? && (StandingOf(log, r).status == ACTIVE || StandingOf(log, r).status == PROPOSED)
  }

  predicate ProposalKnown(log: History, id: ProposalId) {
    Recorded(log, Proposal(id))
  }

  function Same(left: int, right: int): Relation {
    Relation(SAME_AS, left, right)
  }

  function Possibly(left: int, right: int): Relation {
    Relation(POSSIBLY_SAME_AS, left, right)
  }

  /** SAME_AS stands for the pair exactly when its last resolution accepted it. */
  predicate Agrees(log: History, left: int, right: int) {
    IsActive(log, Same(left, right)) <==> LastOf(log, left, right) == Last(ACCEPTED)
  }

  ghost predicate AllAgree(log: History) {
    forall left, right :: Agrees(log, left, right)
  }

  // ---------------------------------------------------------------- the engine

  /** The status an undoing resolution leaves. */
  function Undone(r: Resolution): RelationStatus {
    if r == REVERSED then RETIRED else DISMISSED
  }

  predicate About(record: Record, left: int, right: int) {
    match record
    case Proposal(_) => true
    case Resolved(id, _) => id.left == left && id.right == right
    case Relationship(r, _, _) => r.left == left && r.right == right
    case Elsewhere => true
  }

  /** Everything appended since `before` is about the pair, or about no pair at all. */
  predicate OnlyPair(after: History, before: History, left: int, right: int) {
    after == before || (after.Append? && About(after.record, left, right) && OnlyPair(after.prev, before, left, right))
  }

  lemma {:induction false} OtherPairs(after: History, before: History, left: int, right: int, r: Relation)
    requires OnlyPair(after, before, left, right) && (r.left, r.right) != (left, right)
    ensures StandingOf(after, r) == StandingOf(before, r)
            && LastOf(after, r.left, r.right) == LastOf(before, r.left, r.right)
  {
    if after != before { OtherPairs(after.prev, before, left, right, r); }
  }

  lemma {:induction false} KnownStays(after: History, before: History, left: int, right: int, id: ProposalId)
    requires OnlyPair(after, before, left, right) && ProposalKnown(before, id)
    ensures ProposalKnown(after, id)
  {
    if after != before { KnownStays(after.prev, before, left, right, id); }
  }

  lemma {:induction false} OnlyPairTrans(c: History, b: History, a: History, left: int, right: int)
    requires OnlyPair(c, b, left, right) && OnlyPair(b, a, left, right)
    ensures OnlyPair(c, a, left, right)
    decreases c
  {
    if c != b { OnlyPairTrans(c.prev, b, a, left, right); }
  }

  lemma AgreementIsKept(after: History, before: History, left: int, right: int)
    requires OnlyPair(after, before, left, right) && AllAgree(before) && Agrees(after, left, right)
    ensures AllAgree(after)
  {
    forall l, r ensures Agrees(after, l, r) {
      if (l, r) != (left, right) {
        OtherPairs(after, before, left, right, Same(l, r));
        assert Agrees(before, l, r);
      }
    }
  }

  class AssociationEngine {
    var log: History

    constructor ()
      ensures log == Empty && AllAgree(log)
    {
      log := Empty;
    }

    /** Evidence, objects and anything else, recorded by others. */
    method Learn(time: Time)
      modifies this
      ensures log == Append(old(log), time, Elsewhere)
    {
      log := Append(log, time, Elsewhere);
    }

    method Relate(time: Time, r: Relation, status: RelationStatus)
      modifies this
      ensures log == Append(old(log), time, Relationship(r, NextVersion(old(log), r), status))
      ensures match StandingOf(old(log), r)
              case Absent => log.record.version == 1
              case Stands(version, _) => log.record.version == version + 1
    {
      log := Append(log, time, Relationship(r, NextVersion(log, r), status));
    }

    /** Withdraw a relation that is active or proposed, and leave any other alone. */
    method Undo(time: Time, r: Relation, status: RelationStatus)
      requires status == DISMISSED || status == RETIRED
      modifies this
      ensures !IsOpen(log, r)
      ensures log == if IsOpen(old(log), r) then
              Append(old(log), time, Relationship(r, NextVersion(old(log), r), status))
                     else old(log)
    {
      if IsOpen(log, r) { Relate(time, r, status); }
    }

    /** The relations that follow a resolution already on record. */
    method Follow(time: Time, left: int, right: int, resolution: Resolution)
      requires LastOf(log, left, right) == Last(resolution)
      modifies this
      ensures OnlyPair(log, old(log), left, right)
      ensures LastOf(log, left, right) == Last(resolution) && Agrees(log, left, right)
      ensures resolution != ACCEPTED ==> !IsOpen(log, Same(left, right)) && !IsOpen(log, Possibly(left, right))
    {
      if resolution == ACCEPTED {
        Relate(time, Same(left, right), ACTIVE);
        return;
      }
      ghost var before := log;
      Undo(time, Same(left, right), Undone(resolution));
      if log != before { assert log.prev == before && !log.record.Resolved?; }
      assert log == Next(before, time, left, right, Follows(resolution));
      assert OnlyPair(log, before, left, right);
      assert LastOf(log, left, right) == Last(resolution);
      Undo(time, Possibly(left, right), Undone(resolution));
    }

    /**
     * The resolution first, then the relations that follow it. Whatever the pair's state was before, interrupted
     * calls included, a completed call leaves it in agreement; every other pair is untouched.
     */
    method Resolve(time: Time, id: ProposalId, resolution: Resolution) returns (resolved: bool)
      modifies this
      ensures resolved <==> ProposalKnown(old(log), id)
      ensures !resolved ==> log == old(log)
      ensures OnlyPair(log, old(log), id.left, id.right)
      ensures resolved ==>
        && LastOf(log, id.left, id.right) == Last(resolution) && Agrees(log, id.left, id.right)
        && (resolution != ACCEPTED ==>
          !IsOpen(log, Same(id.left, id.right)) && !IsOpen(log, Possibly(id.left, id.right)))
      ensures AllAgree(old(log)) ==> AllAgree(log)
    {
      if !ProposalKnown(log, id) { return false; }
      ghost var before := log;
      log := Append(log, time, Resolved(id, resolution));
      ghost var recorded := log;
      assert OnlyPair(recorded, before, id.left, id.right);
      Follow(time, id.left, id.right, resolution);
      OnlyPairTrans(log, recorded, before, id.left, id.right);
      if AllAgree(before) { AgreementIsKept(log, before, id.left, id.right); }
      return true;
    }

    /** Evaluate a pair: exact agreement accepts itself if allowed to, a weaker match only proposes. */
    method Evaluate(time: Time, left: int, right: int, decided: Outcome, autoAccept: bool) returns (outcome: Outcome)
      modifies this
      ensures outcome == if decided == AUTO_ASSOCIATE && !autoAccept then PROPOSE_ASSOCIATION else decided
      ensures ProposalKnown(log, Assoc(left, right, time)) && OnlyPair(log, old(log), left, right)
      ensures LastOf(log, left, right) == if outcome == AUTO_ASSOCIATE then Last(ACCEPTED)
              else LastOf(old(log), left, right)
      ensures outcome == AUTO_ASSOCIATE ==> IsActive(log, Same(left, right))
      ensures outcome != AUTO_ASSOCIATE ==>
              StandingOf(log, Same(left, right)) == StandingOf(old(log), Same(left, right))
      ensures outcome == PROPOSE_ASSOCIATION ==> IsOpen(log, Possibly(left, right))
      ensures AllAgree(old(log)) ==> AllAgree(log)
    {
      outcome := if decided == AUTO_ASSOCIATE && !autoAccept then PROPOSE_ASSOCIATION else decided;
      var id := Assoc(left, right, time);
      ghost var before := log;
      log := Append(log, time, Proposal(id));
      ghost var proposed := log;
      assert OnlyPair(proposed, before, left, right);
      assert Agrees(proposed, left, right) == Agrees(before, left, right);
      if outcome == AUTO_ASSOCIATE {
        var _ := Resolve(time, id, ACCEPTED);
        KnownStays(log, proposed, left, right, id);
        OnlyPairTrans(log, proposed, before, left, right);
      } else if outcome == PROPOSE_ASSOCIATION {
        Relate(time, Possibly(left, right), PROPOSED);
      }
      if AllAgree(before) {
        assert Agrees(before, left, right);
        AgreementIsKept(log, before, left, right);
      }
    }
  }

  // ---------------------------------------------------------------- between the two appends

  /**
   * A crash after the resolution and before the relation that follows it breaks the agreement exactly when the
   * resolution would have changed whether SAME_AS stands. Resolving again, either way, restores it.
   */
  lemma InterruptedResolutionAgreesIff(before: History, time: Time, id: ProposalId, resolution: Resolution)
    requires Agrees(before, id.left, id.right)
    ensures var crashed: History := Append(before, time, Resolved(id, resolution));
            Agrees(crashed, id.left, id.right) <==>
              (resolution == ACCEPTED <==> LastOf(before, id.left, id.right) == Last(ACCEPTED))
  {
    var crashed: History := Append(before, time, Resolved(id, resolution));
    assert StandingOf(crashed, Same(id.left, id.right)) == StandingOf(before, Same(id.left, id.right));
  }

  // ---------------------------------------------------------------- several resolvers of one pair

  /**
   * What a resolver of the pair does, one append at a time: it records its resolution, and later brings SAME_AS in
   * line with it. The store refuses a version that is not the next, so the second part is one step or none.
   */
  datatype Act = Resolves(id: ProposalId, resolution: Resolution) | Follows(resolution: Resolution)

  function Next(log: History, time: Time, left: int, right: int, act: Act): History {
    match act
    case Resolves(id, resolution) => Append(log, time, Resolved(id, resolution))
    case Follows(resolution) =>
      var same := Same(left, right);
      if resolution == ACCEPTED then Append(log, time, Relationship(same, NextVersion(log, same), ACTIVE))
      else if IsOpen(log, same) then Append(log, time, Relationship(same, NextVersion(log, same), Undone(resolution)))
      else log
  }

  /** The steps of any number of resolvers, in any order. */
  function After(log: History, time: Time, left: int, right: int, acts: seq<Act>): History {
    if acts == [] then log
    else Next(After(log, time, left, right, acts[..|acts| - 1]), time, left, right, acts[|acts| - 1])
  }

  predicate OfPair(acts: seq<Act>, left: int, right: int) {
    forall i :: 0 <= i < |acts| && acts[i].Resolves? ==> acts[i].id.left == left && acts[i].id.right == right
  }

  /** Whether the last resolution recorded accepts, given whether the last one before did. */
  function LastRecordedAccepts(acts: seq<Act>, before: bool): bool {
    if acts == [] then before
    else
      var last := acts[|acts| - 1];
      if last.Resolves? then last.resolution == ACCEPTED else LastRecordedAccepts(acts[..|acts| - 1], before)
  }

  function LastFollowedAccepts(acts: seq<Act>, before: bool): bool {
    if acts == [] then before
    else
      var last := acts[|acts| - 1];
      if last.Follows? then last.resolution == ACCEPTED else LastFollowedAccepts(acts[..|acts| - 1], before)
  }

  lemma {:induction false} StandsAsLastFollowed(log: History, time: Time, left: int, right: int, acts: seq<Act>)
    requires OfPair(acts, left, right)
    ensures var after := After(log, time, left, right, acts);
            && (IsActive(after, Same(left, right)) <==> LastFollowedAccepts(acts, IsActive(log, Same(left, right))))
            && (LastOf(after, left, right) == Last(ACCEPTED)
                <==> LastRecordedAccepts(acts, LastOf(log, left, right) == Last(ACCEPTED)))
  {
    if acts != [] { StandsAsLastFollowed(log, time, left, right, acts[..|acts| - 1]); }
  }

  /**
   * However the steps of several resolvers interleave, the pair ends in agreement exactly when the resolution that
   * SAME_AS was last brought in line with and the one last recorded both accept or both do not.
   */
  lemma InterleavedResolutionsAgreeIff(log: History, time: Time, left: int, right: int, acts: seq<Act>)
    requires OfPair(acts, left, right) && Agrees(log, left, right)
    ensures var before := IsActive(log, Same(left, right));
            Agrees(After(log, time, left, right, acts), left, right)
            <==> (LastFollowedAccepts(acts, before) <==> LastRecordedAccepts(acts, before))
  {
    StandsAsLastFollowed(log, time, left, right, acts);
  }

  /** Two resolvers: if the one that records first is the last to follow, they must be of one mind. */
  lemma TwoResolversAgreeIff(
      log: History, time: Time, one: ProposalId, two: ProposalId, first: Resolution, second: Resolution)
    requires one.left == two.left && one.right == two.right && Agrees(log, one.left, one.right)
    ensures var crossed := After(log, time, one.left, one.right,
                                 [Resolves(one, first), Resolves(two, second), Follows(second), Follows(first)]);
            Agrees(crossed, one.left, one.right) <==> (first == ACCEPTED <==> second == ACCEPTED)
    ensures var straight := After(log, time, one.left, one.right,
                                  [Resolves(one, first), Resolves(two, second), Follows(first), Follows(second)]);
            Agrees(straight, one.left, one.right)
  {
    var before := IsActive(log, Same(one.left, one.right));
    var crossed := [Resolves(one, first), Resolves(two, second), Follows(second), Follows(first)];
    var straight := [Resolves(one, first), Resolves(two, second), Follows(first), Follows(second)];
    assert crossed[..3][..2][1] == straight[..3][..2][1] == Resolves(two, second);
    assert LastRecordedAccepts(crossed[..3][..2], before) <==> second == ACCEPTED;
    assert LastRecordedAccepts(straight[..3][..2], before) <==> second == ACCEPTED;
    InterleavedResolutionsAgreeIff(log, time, one.left, one.right, crossed);
    InterleavedResolutionsAgreeIff(log, time, one.left, one.right, straight);
  }
}
