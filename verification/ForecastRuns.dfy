/** What holds of every log the forecast and indicator engines can leave, crashes included. */
module ForecastRuns {
  import opened Options
  import opened EventLog
  import opened Evidence
  import opened ForecastLog

  // ---------------------------------------------------------------- a forecast's version history

  datatype Dated = Dated(forecast: Forecast, time: Time)

  /** Every version of one forecast, oldest first, with the time it was recorded. */
  function Versions(log: History, id: Id): seq<Dated> {
    if log.Empty? then []
    else Versions(log.prev, id)
         + (if log.record.ForecastVersion? && log.record.forecast.id == id then
           [Dated(log.record.forecast, log.time)] else [])
  }

  lemma {:induction false} CurrentIsLast(log: History, id: Id)
    ensures CurrentForecast(log, id).NoForecast? <==> Versions(log, id) == []
    ensures Versions(log, id) != [] ==>
              CurrentForecast(log, id) == TheForecast(Versions(log, id)[|Versions(log, id)| - 1].forecast)
  {
    if log.Append? { CurrentIsLast(log.prev, id); }
  }

  predicate MovesTheNumber(c: Cause) {
    c.HumanUpdate? || c.ModelUpdate? || c.IndicatorPass? || c.IndicatorCall?
  }

  /** What one version owes the one before it. */
  predicate Succeeds(u: Dated, v: Dated) {
    && Continues(u.forecast, v.forecast) && u.time <= v.time
    && !Terminal(u.forecast.status)
    && (u.forecast.status == HORIZON_PASSED ==> v.forecast.status == HORIZON_PASSED || Terminal(v.forecast.status))
    && (u.forecast.status == UPDATE_REQUIRED && v.forecast.status == OPEN ==>
          v.forecast.cause.HumanUpdate? || v.forecast.cause.ModelUpdate?)
    && (v.forecast.probability != u.forecast.probability ==> MovesTheNumber(v.forecast.cause))
    && (Terminal(v.forecast.status) ==> v.forecast.probability == u.forecast.probability)
    && (v.forecast.resolver != Nobody ==> Terminal(v.forecast.status))
    && (v.forecast.resolver == Service ==> v.forecast.cause == MachineResolution)
  }

  predicate Lifecycle(versions: seq<Dated>) {
    && (versions != [] ==>
          && versions[0].forecast.version == 1 && versions[0].forecast.status == OPEN
          && versions[0].forecast.resolver == Nobody)
    && (forall i :: 0 <= i < |versions| ==> IsProbability(versions[i].forecast.probability))
    && (forall i :: 0 < i < |versions| ==> Succeeds(versions[i - 1], versions[i]))
  }

  lemma LegalMoveSucceeds(log: History, time: Time, u: Dated, v: Forecast)
    requires LegalMove(log, time, u.forecast, v) && u.time <= time
    requires u.forecast.resolver == Nobody
    ensures Succeeds(u, Dated(v, time))
  {
  }

  lemma {:induction false} VersionTimes(log: History, id: Id, v: Dated)
    requires Ordered(log) && v in Versions(log, id)
    ensures log.Append? && v.time <= log.time
  {
    if v in Versions(log.prev, id) { VersionTimes(log.prev, id, v); }
  }

  lemma {:induction false} ReachableIsOrdered(log: History)
    requires Reachable(log)
    ensures Ordered(log)
  {
    if log.Append? { ReachableIsOrdered(log.prev); }
  }

  lemma LiveHasNoResolver(versions: seq<Dated>)
    requires Lifecycle(versions) && versions != []
    requires !Terminal(versions[|versions| - 1].forecast.status)
    ensures versions[|versions| - 1].forecast.resolver == Nobody
  {
    if |versions| > 1 {
      assert Succeeds(versions[|versions| - 2], versions[|versions| - 1]);
    }
  }

  lemma NextVersionSucceeds(log: History, id: Id)
    requires Reachable(log) && log.Append? && log.record.ForecastVersion? && log.record.forecast.id == id
    requires Lifecycle(Versions(log.prev, id)) && Versions(log.prev, id) != []
    ensures var before := Versions(log.prev, id);
            Succeeds(before[|before| - 1], Dated(log.record.forecast, log.time))
              && IsProbability(log.record.forecast.probability)
  {
    var before, v := Versions(log.prev, id), log.record.forecast;
    var u := before[|before| - 1];
    CurrentIsLast(log.prev, id);
    ReachableIsOrdered(log);
    VersionTimes(log.prev, id, u);
    LiveHasNoResolver(before);
    LegalMoveSucceeds(log.prev, log.time, u, v);
  }

  /**
   * Whichever engine acts next, and wherever it is interrupted: versions stay contiguous, the question, horizon and
   * rule never change, nothing follows a terminal version, a passed horizon never un-passes, and only a human or
   * accepted-candidate update clears UPDATE_REQUIRED.
   */
  lemma {:induction false} EveryHistoryIsALifecycle(log: History, id: Id)
    requires Reachable(log)
    ensures Lifecycle(Versions(log, id))
  {
    if log.Append? {
      EveryHistoryIsALifecycle(log.prev, id);
      if log.record.ForecastVersion? && log.record.forecast.id == id {
        CurrentIsLast(log.prev, id);
        if Versions(log.prev, id) != [] { NextVersionSucceeds(log, id); }
      }
    }
  }

  /** The consequences over any distance: version numbers, fixed terms, terminal last, horizon monotone. */
  lemma {:induction false} LifecycleOverDistance(versions: seq<Dated>, i: nat, j: nat)
    requires Lifecycle(versions) && i <= j < |versions|
    ensures versions[j].forecast.version == j + 1
    ensures var u, v := versions[i].forecast, versions[j].forecast;
            && v.question == u.question && v.horizon == u.horizon && v.rule == u.rule && v.id == u.id
            && versions[i].time <= versions[j].time
            && (Terminal(u.status) ==> i == j)
            && (u.status == HORIZON_PASSED ==> v.status == HORIZON_PASSED || Terminal(v.status))
    decreases j
  {
    if j > 0 {
      assert Succeeds(versions[j - 1], versions[j]);
      if i < j {
        assert Succeeds(versions[(i + 1) - 1], versions[i + 1]);
        LifecycleOverDistance(versions, i, j - 1);
      } else {
        LifecycleOverDistance(versions, i - 1, j - 1);
      }
    }
  }

  // ---------------------------------------------------------------- exactly-once effects of a firing

  predicate IsMoveBy(record: Record, indicator: Id, forecast: Id) {
    && record.ForecastVersion? && record.forecast.id == forecast
    && (record.forecast.cause == IndicatorPass(indicator) || record.forecast.cause == IndicatorCall(indicator))
  }

  /** How often one indicator has moved one forecast. */
  function MovesBy(log: History, indicator: Id, forecast: Id): nat {
    if log.Empty? then 0
    else MovesBy(log.prev, indicator, forecast) + (if IsMoveBy(log.record, indicator, forecast) then 1 else 0)
  }

  /** A version recorded at or after a firing that stands at its number, within the tolerance. */
  predicate ShowsEffect(v: Dated, i: Indicator)
    requires i.effect.APPLY_PROBABILITY?
  {
    i.fired <= v.time && -0.000000001 <= v.forecast.probability - i.effect.target <= 0.000000001
  }

  /** An effect counts as landed exactly when some version of the forecast shows it. */
  lemma {:induction false} EffectIsAVersion(log: History, i: Indicator, forecast: Id)
    ensures EffectExecuted(log, i, forecast) <==>
              i.effect.APPLY_PROBABILITY? && exists v :: v in Versions(log, forecast) && ShowsEffect(v, i)
  {
    if i.effect.APPLY_PROBABILITY? && log.Append? {
      EffectIsAVersion(log.prev, i, forecast);
      if log.record.ForecastVersion? && log.record.forecast.id == forecast {
        var last := Dated(log.record.forecast, log.time);
        assert forall v :: v in Versions(log, forecast) <==> v in Versions(log.prev, forecast) || v == last;
        assert last in Versions(log, forecast);
        assert StoodAt(log, forecast, i.effect.target, i.fired) <==>
                 ShowsEffect(last, i) || StoodAt(log.prev, forecast, i.effect.target, i.fired);
      } else {
        assert Versions(log, forecast) == Versions(log.prev, forecast);
      }
    }
  }

  /** A firing is final, and its firing time is in the past of the log. */
  lemma {:induction false} FiringIsPast(log: History, i: Id)
    requires Reachable(log) && CurrentIndicator(log, i).TheIndicator? && CurrentIndicator(log, i).i.status == FIRED
    ensures log.Append? && CurrentIndicator(log, i).i.fired <= log.time
  {
    if log.record.IndicatorVersion? && log.record.indicator.id == i {
    } else {
      FiringIsPast(log.prev, i);
    }
  }

  lemma {:induction false} FiredStaysFired(log: History, kept: History, i: Id)
    requires Reachable(log) && Extends(log, kept)
    requires CurrentIndicator(kept, i).TheIndicator? && CurrentIndicator(kept, i).i.status == FIRED
    ensures CurrentIndicator(log, i) == CurrentIndicator(kept, i)
  {
    if log != kept { FiredStaysFired(log.prev, kept, i); }
  }

  /** Once an indicator has moved a forecast, the effect is on record for every later look at the log. */
  lemma {:induction false} AMoveIsOnRecord(log: History, i: Id, forecast: Id)
    requires Reachable(log) && MovesBy(log, i, forecast) > 0
    ensures CurrentIndicator(log, i).TheIndicator? && CurrentIndicator(log, i).i.status == FIRED
    ensures EffectExecuted(log, CurrentIndicator(log, i).i, forecast)
    ensures forecast in CurrentIndicator(log, i).i.forecasts
  {
    if IsMoveBy(log.record, i, forecast) {
      FiringIsPast(log.prev, i);
    } else {
      AMoveIsOnRecord(log.prev, i, forecast);
      FiredStaysFired(log, log.prev, i);
    }
  }

  /** A pass never moves a forecast that the indicator has already moved, whatever happened in between. */
  lemma PassMovesOnlyFirst(log: History, i: Id, forecast: Id)
    requires Reachable(log) && log.Append? && IsMoveBy(log.record, i, forecast)
    requires log.record.forecast.cause == IndicatorPass(i)
    ensures MovesBy(log.prev, i, forecast) == 0
  {
    if MovesBy(log.prev, i, forecast) > 0 {
      AMoveIsOnRecord(log.prev, i, forecast);
    }
  }

  /** No direct call of `update_probability` with the indicator's id has moved the forecast. */
  predicate NeverCalled(log: History, i: Id, forecast: Id) {
    log.Append? ==>
      && NeverCalled(log.prev, i, forecast)
      && !(IsMoveBy(log.record, i, forecast) && log.record.forecast.cause == IndicatorCall(i))
  }

  /** Left to the passes, a firing moves each forecast at most once, in every run and across every crash. */
  lemma {:induction false} PassesMoveOnce(log: History, i: Id, forecast: Id)
    requires Reachable(log) && NeverCalled(log, i, forecast)
    ensures MovesBy(log, i, forecast) <= 1
  {
    if log.Append? {
      PassesMoveOnce(log.prev, i, forecast);
      if IsMoveBy(log.record, i, forecast) { PassMovesOnlyFirst(log, i, forecast); }
    }
  }

  lemma {:induction false} TargetIsProbability(log: History, i: Id)
    requires Reachable(log) && CurrentIndicator(log, i).TheIndicator?
    requires CurrentIndicator(log, i).i.effect.APPLY_PROBABILITY?
    ensures IsProbability(CurrentIndicator(log, i).i.effect.target)
  {
    if log.record.IndicatorVersion? && log.record.indicator.id == i {
      if CurrentIndicator(log.prev, i).TheIndicator? { TargetIsProbability(log.prev, i); }
    } else {
      TargetIsProbability(log.prev, i);
    }
  }

  /** A probability well away from another one. */
  function Away(p: real): real {
    if p >= 0.5 then p / 2.0 else (p + 1.0) / 2.0
  }

  lemma HumanMovesAway(log: History, forecast: Id, target: real) returns (reviewed: History)
    requires Reachable(log) && log.Append? && IsLive(log, forecast) && IsProbability(target)
    ensures reviewed.Append? && reviewed.prev == log && !reviewed.record.Moved? && Reachable(reviewed)
    ensures IsLive(reviewed, forecast) && !Close(CurrentForecast(reviewed, forecast).f.probability, target)
    ensures reviewed.record.ForecastVersion? && reviewed.record.forecast.cause == HumanUpdate
  {
    var u := CurrentForecast(log, forecast).f;
    var v := u.(version := u.version + 1, cause := HumanUpdate, probability := Away(target),
                status := StatusAfterUpdate(u.status), trail := NoProposal);
    assert LegalMove(log, log.time, u, v);
    reviewed := Append(log, log.time, ForecastVersion(v));
  }

  lemma CallMovesBack(log: History, i: Id, forecast: Id) returns (again: History)
    requires Reachable(log) && log.Append? && IsLive(log, forecast)
    requires CurrentIndicator(log, i).TheIndicator? && CurrentIndicator(log, i).i.status == FIRED
    requires forecast in CurrentIndicator(log, i).i.forecasts && CurrentIndicator(log, i).i.effect.APPLY_PROBABILITY?
    requires IsProbability(CurrentIndicator(log, i).i.effect.target)
    requires !Close(CurrentForecast(log, forecast).f.probability, CurrentIndicator(log, i).i.effect.target)
    requires !HasTransition(log, Marker(i, forecast))
    ensures again.Append? && again.prev == log && Reachable(again) && IsMoveBy(again.record, i, forecast)
    ensures again.record.forecast.cause == IndicatorCall(i)
  {
    var u, target := CurrentForecast(log, forecast).f, CurrentIndicator(log, i).i.effect.target;
    var v := u.(version := u.version + 1, cause := IndicatorCall(i), probability := target, trail := NoProposal);
    assert LegalMove(log, log.time, u, v);
    again := Append(log, log.time, ForecastVersion(v));
  }

  /**
   * The gap is real: in every state where an effect has landed on a live forecast and its mark has not, a human
   * update followed by a direct call moves the forecast a second time, over the human's number.
   */
  lemma EveryGapAllowsASecondMove(log: History, i: Id, forecast: Id) returns (later: History)
    requires Reachable(log) && MovesBy(log, i, forecast) > 0 && IsLive(log, forecast)
    requires !HasTransition(log, Marker(i, forecast))
    ensures Reachable(later) && Extends(later, log) && MovesBy(later, i, forecast) == MovesBy(log, i, forecast) + 1
    ensures later.Append? && IsMoveBy(later.record, i, forecast) && later.record.forecast.cause == IndicatorCall(i)
  {
    AMoveIsOnRecord(log, i, forecast);
    TargetIsProbability(log, i);
    var reviewed := HumanMovesAway(log, forecast, CurrentIndicator(log, i).i.effect.target);
    later := CallMovesBack(reviewed, i, forecast);
  }

  lemma {:induction false} MarkIsKept(log: History, kept: History, t: Transition)
    requires Extends(log, kept) && HasTransition(kept, t)
    ensures HasTransition(log, t)
  {
    if log != kept { MarkIsKept(log.prev, kept, t); }
  }

  /** The gap closes for good when the mark lands: after it, no path at all lets the indicator move the number. */
  lemma {:induction false} NoMoveAfterTheMark(log: History, kept: History, i: Id, forecast: Id)
    requires Reachable(log) && Extends(log, kept) && HasTransition(kept, Marker(i, forecast))
    ensures MovesBy(log, i, forecast) == MovesBy(kept, i, forecast)
  {
    if log != kept {
      NoMoveAfterTheMark(log.prev, kept, i, forecast);
      MarkIsKept(log.prev, kept, Marker(i, forecast));
      if IsMoveBy(log.record, i, forecast) {
      }
    }
  }

  /** A settled forecast is history: nobody moves it, and nothing is appended to it. */
  lemma {:induction false} NoMoveAfterSettlement(log: History, kept: History, i: Id, forecast: Id)
    requires Reachable(log) && Extends(log, kept)
    requires CurrentForecast(kept, forecast).TheForecast? && Terminal(CurrentForecast(kept, forecast).f.status)
    ensures CurrentForecast(log, forecast) == CurrentForecast(kept, forecast)
    ensures MovesBy(log, i, forecast) == MovesBy(kept, i, forecast)
  {
    if log != kept { NoMoveAfterSettlement(log.prev, kept, i, forecast); }
  }

  lemma {:induction false} MovedIsKnown(log: History, i: Id, forecast: Id)
    requires MovesBy(log, i, forecast) > 0
    ensures CurrentForecast(log, forecast).TheForecast?
  {
    if !IsMoveBy(log.record, i, forecast) { MovedIsKnown(log.prev, i, forecast); }
  }

  /** In no continuation does the indicator move the forecast again. */
  ghost predicate MovesNoMore(log: History, i: Id, forecast: Id) {
    forall later :: Reachable(later) && Extends(later, log) ==> MovesBy(later, i, forecast) == MovesBy(log, i, forecast)
  }

  /**
   * The effect of a firing has landed on a forecast. Whatever anyone does from now on, it never moves the forecast
   * again, exactly when its mark is on the log or the forecast is settled.
   */
  lemma AtMostOneMove(log: History, i: Id, forecast: Id)
    requires Reachable(log) && MovesBy(log, i, forecast) > 0
    ensures MovesNoMore(log, i, forecast) <==> HasTransition(log, Marker(i, forecast)) || !IsLive(log, forecast)
  {
    MovedIsKnown(log, i, forecast);
    if HasTransition(log, Marker(i, forecast)) {
      forall later | Reachable(later) && Extends(later, log)
        ensures MovesBy(later, i, forecast) == MovesBy(log, i, forecast)
      {
        NoMoveAfterTheMark(later, log, i, forecast);
      }
    } else if !IsLive(log, forecast) {
      forall later | Reachable(later) && Extends(later, log)
        ensures MovesBy(later, i, forecast) == MovesBy(log, i, forecast)
      {
        NoMoveAfterSettlement(later, log, i, forecast);
      }
    } else {
      var later := EveryGapAllowsASecondMove(log, i, forecast);
    }
  }

  /** A mark is never recorded for an effect that neither landed nor already stood. */
  lemma {:induction false} MarkMeansEffect(log: History, i: Id, forecast: Id)
    requires Reachable(log) && HasTransition(log, Marker(i, forecast))
    ensures exists kept ::
              && Extends(log, kept) && kept.Append?
              && CurrentIndicator(kept, i).TheIndicator? && CurrentForecast(kept, forecast).TheForecast?
              && CurrentIndicator(kept, i).i.status == FIRED
              && (CurrentIndicator(kept, i).i.effect.APPLY_PROBABILITY? ==>
                    EffectExecuted(kept, CurrentIndicator(kept, i).i, forecast)
                    || -0.000000002 <= CurrentForecast(kept, forecast).f.probability
                                       - CurrentIndicator(kept, i).i.effect.target <= 0.000000002)
  {
    if log.record == Moved(Marker(i, forecast)) {
      assert LegalTransition(log.prev, Marker(i, forecast));
      assert Extends(log, log);
    } else {
      MarkMeansEffect(log.prev, i, forecast);
    }
  }

  /** An indicator only ever puts a number that stood elsewhere at its target. */
  lemma AMoveMoves(log: History, i: Id, forecast: Id)
    requires Reachable(log) && log.Append? && IsMoveBy(log.record, i, forecast)
    ensures CurrentIndicator(log.prev, i).TheIndicator? && CurrentForecast(log.prev, forecast).TheForecast?
    ensures var ind, u := CurrentIndicator(log.prev, i).i, CurrentForecast(log.prev, forecast).f;
            var v := log.record.forecast;
            && ind.status == FIRED && forecast in ind.forecasts && ind.effect.APPLY_PROBABILITY?
            && -0.000000001 <= v.probability - ind.effect.target <= 0.000000001
            && !(-0.000000001 <= v.probability - u.probability <= 0.000000001)
  {
    assert LegalForecast(log.prev, log.time, log.record.forecast);
  }

  /** A forecast stands HORIZON_PASSED only once its horizon has passed. */
  lemma {:induction false} PassedHasPassed(log: History, id: Id)
    requires Reachable(log) && CurrentForecast(log, id).TheForecast?
    requires CurrentForecast(log, id).f.status == HORIZON_PASSED
    ensures log.Append? && CurrentForecast(log, id).f.horizon < log.time
  {
    if log.record.ForecastVersion? && log.record.forecast.id == id {
      if CurrentForecast(log.prev, id).TheForecast? && CurrentForecast(log.prev, id).f.status == HORIZON_PASSED {
        PassedHasPassed(log.prev, id);
      }
    } else {
      PassedHasPassed(log.prev, id);
    }
  }

  // ---------------------------------------------------------------- machine resolution is sound

  /** The append at which a log recorded a forecast's latest version. */
  lemma {:induction false} AppendOfCurrent(log: History, id: Id) returns (kept: History)
    requires CurrentForecast(log, id).TheForecast?
    ensures Extends(log, kept) && kept.Append? && kept.record == ForecastVersion(CurrentForecast(log, id).f)
  {
    if log.record.ForecastVersion? && log.record.forecast.id == id {
      kept := log;
    } else {
      kept := AppendOfCurrent(log.prev, id);
    }
  }

  /** What stood behind a machine verdict when it was given. */
  ghost predicate Justified(kept: History, v: Forecast) {
    && kept.Append? && kept.record == ForecastVersion(v)
    && !v.rule.HumanJudgment? && v.resolution != [] && CitesGrounds(Facts(kept.prev), v, v.status, v.resolution)
    && (v.status == RESOLVED_FALSE ==>
          && v.horizon < kept.time
          && !Matched(Facts(kept.prev), v)
          && (DiffersSince(Facts(kept.prev), v) || AbsenceCovered(Facts(kept.prev), v)))
    && (v.status == RESOLVED_TRUE ==>
          match v.rule
          case ClaimPredicate(claim, _, _, _, _) =>
            && ClaimMatches(Facts(kept.prev), v.rule)
            // everything on record by the horizon, the match included, or evidence dated by the horizon
            && (Admits(kept.prev, v.horizon) || EvidenceBy(Facts(kept.prev), claim, v.horizon))
          case _ => Matched(Facts(kept.prev), v))
  }

  /**
   * Silence never resolves FALSE and hindsight never resolves TRUE: whatever the run, a verdict given by the
   * service had its grounds on the log when it was given.
   */
  lemma MachineVerdictsAreJustified(log: History, id: Id)
    requires Reachable(log) && CurrentForecast(log, id).TheForecast?
    requires CurrentForecast(log, id).f.resolver == Service
    ensures var v := CurrentForecast(log, id).f;
            && (v.status == RESOLVED_TRUE || v.status == RESOLVED_FALSE)
            && exists kept :: Extends(log, kept) && Justified(kept, v)
  {
    var v := CurrentForecast(log, id).f;
    var kept := AppendOfCurrent(log, id);
    CrashLeavesReachable(log, kept);
    CurrentIsLast(kept.prev, id);
    EveryHistoryIsALifecycle(kept, id);
    var versions, before := Versions(kept, id), Versions(kept.prev, id);
    assert versions == before + [Dated(v, kept.time)];
    assert before != [];
    assert Succeeds(versions[|before| - 1], versions[|before|]);
    assert LegalMove(kept.prev, kept.time, before[|before| - 1].forecast, v);
    assert Justified(kept, v);
  }

  // ---------------------------------------------------------------- absence never fires early

  lemma {:induction false} BlockedIsPastDeadline(log: History, i: Id)
    requires Reachable(log) && CurrentIndicator(log, i).TheIndicator?
    requires CurrentIndicator(log, i).i.status == COVERAGE_BLOCKED
    ensures CurrentIndicator(log, i).i.kind.ABSENCE? && log.Append?
            && CurrentIndicator(log, i).i.kind.deadline < log.time
  {
    if log.record.IndicatorVersion? && log.record.indicator.id == i {
    } else {
      BlockedIsPastDeadline(log.prev, i);
    }
  }

  /**
   * An ABSENCE indicator that has just fired did so after its deadline, with nothing observed that held by the
   * deadline, and with every declared source searched since the deadline.
   */
  lemma AbsenceFiresOnlyOnCoveredSilence(log: History)
    requires Reachable(log) && log.Append? && log.record.IndicatorVersion?
    requires log.record.indicator.status == FIRED && log.record.indicator.kind.ABSENCE?
    ensures var i := log.record.indicator;
            && i.kind.deadline < log.time && !Defeated(Facts(log.prev), i) && WatchCovered(Facts(log.prev), i)
            && CoverageEvidence(Facts(log.prev), i.kind.sources, i.kind.deadline, i.watch.subject, i.evidence)
  {
    var v := log.record.indicator;
    var u := CurrentIndicator(log.prev, v.id);
    if u.i.status == COVERAGE_BLOCKED {
      BlockedIsPastDeadline(log.prev, v.id);
    }
    assert forall o :: DefeatMatch(Facts(log.prev), u.i, o) == DefeatMatch(Facts(log.prev), v, o);
  }

  // ---------------------------------------------------------------- an acceptance moves one forecast once

  /** A version made by an accepted candidate; later versions may still carry its id. */
  predicate Spends(record: Record, proposal: Id) {
    && record.ForecastVersion? && record.forecast.trail == FromProposal(proposal)
    && (record.forecast.cause.Created? || record.forecast.cause.ModelUpdate?)
  }

  lemma {:induction false} SpendingShows(log: History, kept: History, proposal: Id)
    requires Extends(log, kept) && kept.Append? && Spends(kept.record, proposal)
    ensures ProposalSpent(log, proposal)
  {
    if log != kept { SpendingShows(log.prev, kept, proposal); }
  }

  /** Over all forecasts and all runs, one human acceptance makes at most one version: two that it made are one. */
  lemma {:induction false} AcceptanceMovesOnce(log: History, one: History, two: History, proposal: Id)
    requires Reachable(log)
    requires Extends(log, one) && one.Append? && Spends(one.record, proposal)
    requires Extends(log, two) && two.Append? && Spends(two.record, proposal)
    ensures one == two
  {
    if one != log && two != log {
      AcceptanceMovesOnce(log.prev, one, two, proposal);
    } else if one != two {
      assert LegalForecast(log.prev, log.time, log.record.forecast);
      SpendingShows(log.prev, if one == log then two else one, proposal);
    }
  }

  /**
   * A version that carries a proposal was made by it, or continues one of its forecast that was; and a human had
   * accepted that very number for that very question and horizon.
   */
  lemma {:induction false} CarriedWasSpent(log: History, id: Id, proposal: Id) returns (kept: History)
    requires Reachable(log) && CurrentForecast(log, id).TheForecast?
    requires CurrentForecast(log, id).f.trail == FromProposal(proposal)
    ensures Extends(log, kept) && kept.Append? && Spends(kept.record, proposal) && kept.record.forecast.id == id
    ensures var v := kept.record.forecast;
            Recorded(kept.prev, Accepted(proposal, v.question, v.horizon, v.probability))
  {
    if log.record.ForecastVersion? && log.record.forecast.id == id && Spends(log.record, proposal) {
      assert LegalForecast(log.prev, log.time, log.record.forecast);
      kept := log;
    } else {
      kept := CarriedWasSpent(log.prev, id, proposal);
    }
  }
}
