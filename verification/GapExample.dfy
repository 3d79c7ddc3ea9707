/** A concrete run that stops between the landing of a firing's effect and the landing of its mark. */
module GapExample {
  import opened Options
  import opened EventLog
  import opened Evidence
  import opened ForecastLog
  import opened ForecastRuns

  const NOTHING := Basis([], [], 0, 0, 0, {}, 0, Unstated, Unstated, Unstated, Unstated)
  const OPENED := Forecast(1, 1, 7, 100, HumanJudgment, 0.3, NOTHING, [], OPEN, NoProposal, Nobody, [], Created)
  const WATCHING := Indicator(2, 1, [1], PRESENCE, SUPPORTS, Watch(Anything, Exactly(5), Anything, Anything),
                              APPLY_PROBABILITY(0.8), ARMED, 0, 0, [])
  const SIGHTING := Observation(3, 4, 10, Pattern(0, 5, 0, 0))
  const CAPTURE := Manifestation(4, 0, 0, false, Unstated, Unstated, At(10))
  const FIRING := WATCHING.(version := 2, status := FIRED, fired := 10, evidence := [3])
  const MOVED := OPENED.(version := 2, probability := 0.8, cause := IndicatorPass(2))

  const OPENED_LOG: History := Append(Empty, 0, ForecastVersion(OPENED))
  const ARMED_LOG: History := Append(OPENED_LOG, 0, IndicatorVersion(WATCHING))
  const SEEN_LOG: History := Append(Append(ARMED_LOG, 10, Known(CAPTURE)), 10, Known(SIGHTING))
  const FIRED_LOG: History := Append(SEEN_LOG, 10, IndicatorVersion(FIRING))
  const MOVED_LOG: History := Append(FIRED_LOG, 11, ForecastVersion(MOVED))

  lemma OpenedIsReachable()
    ensures Reachable(OPENED_LOG)
  {
    assert Facts(Empty) == [];
    assert Resolved([], []) == [];
    assert ObservationSet([], []) == {} && ManifestSet([], []) == {} && SourceSet([], []) == {}
           && FamilySet([], []) == {};
    assert TimeSet([], []) == {} && FromSet([], []) == {} && ToSet([], []) == {} && DegradedSet([], []) == {};
    assert IsBasis(Facts(Empty), [], [], NOTHING);
    assert CurrentForecast(Empty, 1).NoForecast?;
  }

  lemma FiredIsReachable()
    ensures Reachable(FIRED_LOG)
    ensures CurrentForecast(FIRED_LOG, 1) == TheForecast(OPENED)
            && CurrentIndicator(FIRED_LOG, 2) == TheIndicator(FIRING)
  {
    OpenedIsReachable();
    assert Reachable(ARMED_LOG);
    assert Reachable(SEEN_LOG);
  }

  lemma MovedIsReachable()
    ensures Reachable(MOVED_LOG) && !HasTransition(MOVED_LOG, Marker(2, 1)) && MovesBy(MOVED_LOG, 2, 1) == 1
    ensures CurrentIndicator(MOVED_LOG, 2) == TheIndicator(FIRING)
  {
    FiredIsReachable();
    var armed: History := Append(ARMED_LOG, 10, Known(CAPTURE));
    assert !HasTransition(ARMED_LOG, Marker(2, 1)) && !HasTransition(SEEN_LOG, Marker(2, 1));
    assert !HasTransition(FIRED_LOG, Marker(2, 1));
    assert !StoodAt(ARMED_LOG, 1, 0.8, 10) && !StoodAt(SEEN_LOG, 1, 0.8, 10) && !StoodAt(FIRED_LOG, 1, 0.8, 10);
    assert LegalMove(FIRED_LOG, 11, OPENED, MOVED);
    assert MovesBy(ARMED_LOG, 2, 1) == 0 && MovesBy(SEEN_LOG, 2, 1) == 0 && MovesBy(FIRED_LOG, 2, 1) == 0;
  }

  /** The gap is reached: the pass has moved the number to 0.8 and was interrupted before it marked the firing. */
  lemma TheGapIsReached()
    ensures Reachable(MOVED_LOG) && MovesBy(MOVED_LOG, 2, 1) == 1
    ensures IsLive(MOVED_LOG, 1) && !HasTransition(MOVED_LOG, Marker(2, 1))
  {
    MovedIsReachable();
  }

  /** One firing, two moves: the second over a human's number. */
  lemma DirectCallMovesTwice() returns (log: History)
    ensures Reachable(log) && Extends(log, MOVED_LOG) && MovesBy(log, 2, 1) == 2
  {
    TheGapIsReached();
    log := EveryGapAllowsASecondMove(MOVED_LOG, 2, 1);
  }
}
