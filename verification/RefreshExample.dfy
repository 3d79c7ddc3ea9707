/** A concrete run in which a refresh stops behind its version, past the horizon. */
module RefreshExample {
  import opened EventLog
  import opened Evidence
  import opened ForecastLog
  import opened ForecastRuns
  import opened ForecastRefresh
  import opened GapExample

  const PASSED := OPENED.(version := 2, status := HORIZON_PASSED, cause := Refresh)
  const PASSED_LOG: History := Append(OPENED_LOG, 101, ForecastVersion(PASSED))

  lemma PassedIsReachable()
    ensures Reachable(PASSED_LOG) && BasisOf(OPENED_LOG, OPENED, NOTHING)
    ensures PASSED == Refreshed(OPENED, NOTHING, true) && CurrentForecast(OPENED_LOG, 1) == TheForecast(OPENED)
  {
    OpenedIsReachable();
    assert Facts(OPENED_LOG) == Facts(Empty) == [];
    assert BasisOf(OPENED_LOG, OPENED, NOTHING);
    assert PASSED == Refreshed(OPENED, NOTHING, true);
    RefreshIsLegal(OPENED_LOG, 101, OPENED, NOTHING, true);
  }

  /** The forecast stands HORIZON_PASSED, and whatever evidence arrives no refresh ever records that it passed. */
  lemma HorizonNoteStaysMissing(logs: seq<History>, grown: seq<History>, readings: seq<Time>)
    requires Refreshes(logs, grown, readings, 1) && logs[0] == PASSED_LOG && Reachable(logs[|readings|])
    ensures Reachable(PASSED_LOG) && CurrentForecast(PASSED_LOG, 1).f.status == HORIZON_PASSED
    ensures HorizonPassed(1) in Owed(OPENED, NOTHING, HORIZON_PASSED)
    ensures !HasTransition(logs[|readings|], HorizonPassed(1))
  {
    PassedIsReachable();
    assert !HasTransition(OPENED_LOG, HorizonPassed(1));
    HorizonFindingIsLostForGood(logs, grown, readings, 1);
  }
}
