/** A concrete run in which every repetition of one creation call appends another version. */
module CreationExample {
  import opened EventLog
  import opened Evidence
  import opened ForecastLog
  import opened ForecastRuns
  import opened AnalyticContexts
  import opened ForecastUpdate
  import opened ForecastCreation
  import opened GapExample

  /** The call that opened the forecast, now citing a claim that is not on record. */
  const CITING := Request(1, 7, 100, HumanJudgment, 0.3, [9], [], [], false, Anything, 0)
  const CREATED_LOG: History := Append(OPENED_LOG, 0, Moved(Transition(OnForecast(1), CREATED, Given(0))))

  /** One allowed call of `create_forecast` that ran to its end. */
  ghost predicate Called(before: History, after: History) {
    && CreationAllowed(before, CITING) && AfterCreation(before, after, CITING)
    && Confined(after, before, Scope({1}, {}, {}))
  }

  ghost predicate Calls(logs: seq<History>) {
    logs != [] && logs[0] == CREATED_LOG && forall i :: 0 < i < |logs| ==> Called(logs[i - 1], logs[i])
  }

  /** However often it is repeated, the next call appends again: the forecast stands at one version more per call. */
  lemma {:induction false} EveryCallAppends(logs: seq<History>)
    requires Calls(logs)
    ensures Reachable(CREATED_LOG)
    ensures var last := logs[|logs| - 1];
            && CurrentForecast(last, 1).TheForecast? && CurrentForecast(last, 1).f.version == |logs|
            && CreationAllowed(last, CITING) && !CreationSettled(last, CITING)
    decreases |logs|
  {
    CreatedIsReachable();
    CallsStay(logs);
  }

  lemma CreatedIsReachable()
    ensures Reachable(CREATED_LOG)
  {
    OpenedIsReachable();
    assert LegalTransition(OPENED_LOG, Transition(OnForecast(1), CREATED, Given(0)));
  }

  /** The forecast after some calls: open, at its number, its basis as empty as the evidence. */
  predicate StillOpen(log: History, version: int) {
    && Facts(log) == []
    && CurrentForecast(log, 1).TheForecast?
    && var f := CurrentForecast(log, 1).f;
       f.version == version && f.status == OPEN && f.probability == 0.3 && f.basis.supporting == []
         && f.basis.contradicting == []
  }

  lemma {:induction false} NothingResolves(ids: seq<Id>)
    ensures Resolved([], ids) == []
  {
    if ids != [] { NothingResolves(ids[..|ids| - 1]); }
  }

  lemma CallAppends(before: History, after: History, version: int)
    requires StillOpen(before, version) && Called(before, after)
    ensures StillOpen(after, version + 1)
  {
    ConfinedExtends(after, before, Scope({1}, {}, {}));
    assert Missing([9], []) == [9];
    NothingResolves([] + [9]);
    NothingResolves([] + Missing([], []));
  }

  lemma {:induction false} CallsStay(logs: seq<History>)
    requires Calls(logs)
    ensures StillOpen(logs[|logs| - 1], |logs|) && !CreationSettled(logs[|logs| - 1], CITING)
    decreases |logs|
  {
    var n := |logs|;
    assert Missing([9], []) == [9];
    if n == 1 {
      assert Facts(CREATED_LOG) == Facts(Empty) == [];
    } else {
      CallsStay(logs[..n - 1]);
      CallAppends(logs[n - 2], logs[n - 1], n - 1);
    }
  }
}
