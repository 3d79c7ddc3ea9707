/** A theme whose refresh stops behind its version, at unchanged and at changing evidence. */
module ThemeExample {
  import opened Options
  import opened Evidence
  import opened ThemeRefresh

  const BACKED := Claim(9, 1, [], Instant.Unstated, Instant.Unstated)
  const WITHDRAWN := ClaimState(9, false, true)
  const BACKED_BASIS :=
    Basis([9], [], 0, 0, 0, {}, 0, Instant.Unstated, Instant.Unstated, Instant.Unstated, Instant.Unstated)

  const RESTORED := ClaimState(9, true, false)

  const FRESH := Theme(1, EMERGING, BACKED_BASIS)
  const GONE_STALE := Theme(2, STALE, BACKED_BASIS.(degraded := 1))

  /** The only claim of a theme is retracted, and the refresh that notices stops behind its version. */
  const CRASHED := State(GONE_STALE, [Version(FRESH), Version(GONE_STALE)])

  lemma CrashedIsReached()
    ensures IsBasis([BACKED], [9], [], BACKED_BASIS) && DeriveStatus(BACKED_BASIS) == EMERGING
    ensures BasisOf([BACKED, WITHDRAWN], FRESH, GONE_STALE.basis) && Refreshed(FRESH, GONE_STALE.basis) == GONE_STALE
    ensures !Settled([BACKED, WITHDRAWN], FRESH) && WENT_STALE in Notes(FRESH, GONE_STALE.basis)
  {
    BackedBasis([BACKED], 0);
    BackedBasis([BACKED, WITHDRAWN], 1);
    SettledIff([BACKED, WITHDRAWN], FRESH, GONE_STALE.basis);
  }

  /** At the same evidence no refresh ever notes that it went stale. */
  lemma StaleNoteStaysMissing(evidence: seq<seq<Fact>>, states: seq<State>, causes: seq<int>)
    requires Refreshes(evidence, states, causes) && Frozen(evidence, [BACKED, WITHDRAWN]) && states[0] == CRASHED
    ensures forall cause :: Note(WENT_STALE, cause) !in states[|causes|].events
  {
    CrashedIsReached();
    RefreshedIsSettled([BACKED, WITHDRAWN], FRESH, GONE_STALE.basis);
    SettledStaysTheSame([BACKED, WITHDRAWN], evidence, states, causes, |causes|);
  }

  const RESTORED_FACTS := [BACKED, WITHDRAWN, RESTORED]
  const WITHDRAWN_AGAIN := [BACKED, WITHDRAWN, RESTORED, WITHDRAWN]

  lemma RestoredIsEmerging(after: State, cause: int)
    requires RefreshStep(RESTORED_FACTS, CRASHED, after, cause)
    ensures after.theme == Theme(3, EMERGING, BACKED_BASIS)
  {
    BackedBasis(RESTORED_FACTS, 0);
    SettledIff(RESTORED_FACTS, GONE_STALE, BACKED_BASIS);
    var b :| BasisOf(RESTORED_FACTS, GONE_STALE, b) && after.theme == Refreshed(GONE_STALE, b);
    BasisIsUnique(RESTORED_FACTS, [9], [], b, BACKED_BASIS);
  }

  lemma WithdrawalCallsForTheNote()
    ensures CallsFor(WITHDRAWN_AGAIN, Theme(3, EMERGING, BACKED_BASIS), WENT_STALE)
  {
    BackedBasis(WITHDRAWN_AGAIN, 1);
    SettledIff(WITHDRAWN_AGAIN, Theme(3, EMERGING, BACKED_BASIS), GONE_STALE.basis);
    assert BasisOf(WITHDRAWN_AGAIN, Theme(3, EMERGING, BACKED_BASIS), GONE_STALE.basis);
    assert WENT_STALE in Notes(Theme(3, EMERGING, BACKED_BASIS), GONE_STALE.basis);
  }

  /** If the claim is restored and withdrawn again, the refresh that notices the second time does note it. */
  lemma LaterWithdrawalIsNoted(states: seq<State>, causes: seq<int>)
    requires Refreshes([RESTORED_FACTS, WITHDRAWN_AGAIN], states, causes) && states[0] == CRASHED
    ensures Note(WENT_STALE, causes[1]) in states[2].events
  {
    var evidence := [RESTORED_FACTS, WITHDRAWN_AGAIN];
    assert RefreshStep(evidence[0], states[0], states[1], causes[0]);
    assert RefreshStep(evidence[1], states[1], states[2], causes[1]);
    RestoredIsEmerging(states[1], causes[0]);
    WithdrawalCallsForTheNote();
    StepNotesWhatItCallsFor(WITHDRAWN_AGAIN, states[1], states[2], causes[1], WENT_STALE, causes[1]);
  }

  /** The claim, and then whatever was said of its state. */
  predicate BackedStory(facts: seq<Fact>) {
    |facts| > 0 && facts[0] == BACKED && forall i :: 0 < i < |facts| ==> facts[i].ClaimState? && facts[i].claim == 9
  }

  lemma {:induction false} BackedClaim(facts: seq<Fact>)
    requires BackedStory(facts)
    ensures ClaimById(facts, 9) == Some(BACKED)
  {
    if |facts| > 1 { BackedClaim(facts[..|facts| - 1]); }
  }

  lemma BackedState(facts: seq<Fact>)
    requires BackedStory(facts)
    ensures IsDegraded(facts, 9) <==> |facts| > 1 && facts[|facts| - 1].degraded
  {
    if |facts| == 1 {
      assert facts[..|facts| - 1] == [];
      assert StateById(facts, 9).None?;
    } else {
      assert StateById(facts, 9) == Some(facts[|facts| - 1]);
    }
  }

  lemma BackedBasis(facts: seq<Fact>, degraded: nat)
    requires BackedStory(facts) && degraded == if |facts| > 1 && facts[|facts| - 1].degraded then 1 else 0
    ensures IsBasis(facts, [9], [], BACKED_BASIS.(degraded := degraded))
  {
    BackedClaim(facts);
    BackedState(facts);
    assert ObservationsOf(facts, 9) == [] && FromOf(facts, 9).Unstated? && ToOf(facts, 9).Unstated?;
    assert [9][..0] == [] && Resolved(facts, []) == [] && Resolved(facts, [9]) == [9];
    assert DegradedSet(facts, [9]) == if degraded == 1 then {9} else {};
    NoEvidence(facts);
  }

  lemma NoEvidence(facts: seq<Fact>)
    requires ObservationsOf(facts, 9) == [] && FromOf(facts, 9).Unstated? && ToOf(facts, 9).Unstated?
    ensures ObservationSet(facts, [9]) == {} && ManifestSet(facts, [9]) == {} && SourceSet(facts, [9]) == {}
    ensures FamilySet(facts, [9]) == {} && TimeSet(facts, [9]) == {}
    ensures FromSet(facts, [9]) == {} && ToSet(facts, [9]) == {}
  {
  }
}
