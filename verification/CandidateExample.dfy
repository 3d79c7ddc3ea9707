/** A concrete run from a model's candidate to the object a human let it become, and to that object's next version. */
module CandidateExample {
  import opened Options
  import opened EventLog
  import opened Candidates

  const CONTENT: Content := map[Statement := Text(7), SupportingClaims := Items(multiset{3, 4})]
  const OFFERED := Proposal(5, 1, Candidate(Narrative), CONTENT, PROPOSED)
  const TAKEN := Proposal(5, 1, Candidate(Narrative), CONTENT, ACCEPTED)
  const MADE := Identity(Narrative, DigestOf(map[Statement := Text(7)]))
  const REWORDED: Content := map[Statement := Text(8), SupportingClaims := Items(multiset{3, 4})]

  const OFFERED_LOG: History := Append(Append(Empty, 0, Inference(1)), 1, Proposed(OFFERED))
  const DECIDED_LOG: History := Append(OFFERED_LOG, 2, Resolution(5, true, true))
  const TAKEN_LOG: History := Append(DECIDED_LOG, 2, Proposed(TAKEN))
  const MADE_LOG: History := Append(TAKEN_LOG, 3, Version(MADE, 1, Carries(5), CONTENT))
  const NEXT_LOG: History := Append(MADE_LOG, 4, Version(MADE, 2, Carries(5), REWORDED))

  lemma TakenIsReachable()
    ensures Reachable(TAKEN_LOG) && LatestProposal(TAKEN_LOG, 5) == Latest(TAKEN)
    ensures LatestProposal(OFFERED_LOG, 5) == Latest(OFFERED)
  {
    var first: History := Append(Empty, 0, Inference(1));
    assert Reachable(first);
    assert LegalProposal(first, OFFERED);
    assert Extends(DECIDED_LOG, OFFERED_LOG);
    assert TAKEN.(status := PROPOSED) == OFFERED;
    assert SomeProposed(DECIDED_LOG, TAKEN);
    assert LegalProposal(DECIDED_LOG, TAKEN);
  }

  /** A proposal that nobody has accepted opens no gate; the accepted one does, for exactly what was accepted. */
  lemma OnlyWhatWasAcceptedPasses()
    ensures !GateOpens(OFFERED_LOG, 1, 5, Narrative, CONTENT)
    ensures GateOpens(TAKEN_LOG, 1, 5, Narrative, CONTENT)
    ensures !GateOpens(TAKEN_LOG, 1, 5, Narrative, REWORDED) && !GateOpens(TAKEN_LOG, 1, 5, Theme, CONTENT)
    ensures !GateOpens(TAKEN_LOG, 2, 5, Narrative, CONTENT)
  {
    TakenIsReachable();
    assert Materialization(OFFERED_LOG, 5).Unspent? && Materialization(DECIDED_LOG, 5).Unspent?;
    assert !Binds(CONTENT, Narrative, REWORDED) by { assert CONTENT[Statement] != REWORDED[Statement]; }
  }

  /** The object is made once. Its next version keeps the proposal without a gate; the acceptance stays spent on it. */
  lemma AcceptedBecomesOneObject()
    ensures Reachable(NEXT_LOG) && Extends(NEXT_LOG, TAKEN_LOG)
    ensures Materialization(MADE_LOG, 5) == SpentBy(MADE) && Materialization(NEXT_LOG, 5) == SpentBy(MADE)
    ensures VersionOf(NEXT_LOG, MADE) == 2
    ensures !GateOpens(MADE_LOG, 1, 5, Narrative, CONTENT)
  {
    TakenIsReachable();
    OnlyWhatWasAcceptedPasses();
    assert Materialization(TAKEN_LOG, 5).Unspent?;
    assert VersionOf(OFFERED_LOG, MADE) == 0 && VersionOf(TAKEN_LOG, MADE) == 0;
    assert IdFields(Narrative) == {Statement};
    assert (map f | f in IdFields(Narrative) && f in CONTENT :: CONTENT[f]) == map[Statement := Text(7)];
    assert IsNamedBy(MADE, CONTENT);
    assert Extends(TAKEN_LOG, TAKEN_LOG);
    assert GateOpened(TAKEN_LOG, MADE, 5, CONTENT);
    assert PassedGate(TAKEN_LOG, MADE, 5, CONTENT);
    assert Reachable(MADE_LOG);
    assert CarriedBy(MADE_LOG, MADE, 5);
    assert Extends(MADE_LOG, TAKEN_LOG);
  }
}
