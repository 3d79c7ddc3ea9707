/** Executing a fired indicator: each forecast it names is moved at most once, and an interrupted pass is completed. */
module IndicatorEffects {
  import opened EventLog
  import opened Evidence
  import opened ForecastLog
  import opened ForecastRuns
  import opened AnalyticContexts
  import opened ForecastUpdate
  import opened ForecastCreation

  /** The firing has been executed, or has nothing left to execute, on every forecast the indicator names. */
  ghost predicate EffectsComplete(log: History, i: Indicator) {
    forall f :: f in i.forecasts ==> !IsLive(log, f) || HasTransition(log, Marker(i.id, f))
  }

  ghost predicate SameLiveness(later: History, earlier: History) {
    forall f :: IsLive(later, f) == IsLive(earlier, f)
  }

  predicate IsFired(log: History, i: Indicator) {
    CurrentIndicator(log, i.id) == TheIndicator(i) && i.status == FIRED
  }

  function EffectScope(i: Id, f: Id): Scope {
    Scope({f}, {}, {IndicatorReview(i, f)})
  }

  function EffectsScope(i: Indicator): Scope {
    Scope(set f | f in i.forecasts, {}, set f | f in i.forecasts :: IndicatorReview(i.id, f))
  }

  function Flagged(f: Forecast, i: Id): Forecast {
    f.(version := f.version + 1, cause := ReviewRequired(i), status := UPDATE_REQUIRED)
  }

  /** A pass is never refused: what it asks for is exactly what was authorised, and it asks only once. */
  lemma PassIsAllowed(log: History, i: Indicator, f: Id)
    requires Reachable(log) && IsFired(log, i) && f in i.forecasts && IsLive(log, f)
    requires i.effect.APPLY_PROBABILITY? && !HasTransition(log, Marker(i.id, f))
    ensures UpdateAllowed(log, f, i.effect.target, true, ByIndicator(i.id, true))
  {
    TargetIsProbability(log, i.id);
  }

  lemma FlagIsLegal(log: History, time: Time, i: Indicator, f: Forecast)
    requires Reachable(log) && Admits(log, time) && IsFired(log, i)
    requires CurrentForecast(log, f.id) == TheForecast(f) && f.status == OPEN
    ensures Legal(log, time, ForecastVersion(Flagged(f, i.id)))
  {
    StandsAtAProbability(log, f.id);
    assert LegalMove(log, time, f, Flagged(f, i.id));
  }

  /** REVIEW_ONLY: ask a human, by status and by review item. */
  method AskForReview(ctx: AnalyticContext, i: Indicator, f: Id)
    requires ctx.Valid() && IsFired(ctx.log, i) && f in i.forecasts && IsLive(ctx.log, f)
    modifies ctx
    ensures ctx.Valid() && old(ctx.clock) <= ctx.clock
    ensures Confined(ctx.log, old(ctx.log), EffectScope(i.id, f))
    ensures ReviewKnown(ctx.log, IndicatorReview(i.id, f))
    ensures var u := CurrentForecast(old(ctx.log), f).f;
            CurrentForecast(ctx.log, f) == TheForecast(if u.status == OPEN then Flagged(u, i.id) else u)
  {
    ghost var before, scope := ctx.log, EffectScope(i.id, f);
    var u := CurrentForecast(ctx.log, f).f;
    if u.status == OPEN {
      var now := ctx.Now();
      FlagIsLegal(ctx.log, now, i, u);
      ctx.Add(now, ForecastVersion(Flagged(u, i.id)));
      assert Confined(ctx.log, before, scope);
    }
    ctx.OpenReviewItem(IndicatorReview(i.id, f));
  }

  lemma {:induction false} StillFired(later: History, earlier: History, scope: Scope, i: Indicator)
    requires Confined(later, earlier, scope) && i.id !in scope.indicators && IsFired(earlier, i)
    ensures IsFired(later, i)
  {
    OtherIndicator(later, earlier, scope, i.id);
  }

  /** What executing a firing on one forecast leaves of it. */
  predicate AfterEffect(u: Forecast, v: Forecast, i: Indicator, landed: bool) {
    match i.effect
    case APPLY_PROBABILITY(target) =>
      v == if landed then u else Updated(u, target, ByIndicator(i.id, true))
    case REVIEW_ONLY => v == if u.status == OPEN then Flagged(u, i.id) else u
  }

  /** Nobody has moved the forecast to the firing's number since the firing. */
  predicate NoneShows(log: History, i: Indicator, f: Id)
    requires i.effect.APPLY_PROBABILITY?
  {
    forall v :: v in Versions(log, f) ==> !ShowsEffect(v, i)
  }

  /** The forecast stands at the firing's number, within the tolerance. */
  predicate AtTarget(log: History, i: Indicator, f: Id)
    requires i.effect.APPLY_PROBABILITY?
  {
    CurrentForecast(log, f).TheForecast?
    && -0.000000001 <= CurrentForecast(log, f).f.probability - i.effect.target <= 0.000000001
  }

  /** One forecast of one firing: the effect unless it has landed, then the mark. */
  method Execute(ctx: AnalyticContext, i: Indicator, f: Id)
    requires ctx.Valid() && IsFired(ctx.log, i) && f in i.forecasts && IsLive(ctx.log, f)
    requires !HasTransition(ctx.log, Marker(i.id, f))
    modifies ctx
    ensures ctx.Valid() && old(ctx.clock) <= ctx.clock
    ensures Confined(ctx.log, old(ctx.log), EffectScope(i.id, f))
    ensures HasTransition(ctx.log, Marker(i.id, f)) && IsLive(ctx.log, f)
    ensures AfterEffect(CurrentForecast(old(ctx.log), f).f, CurrentForecast(ctx.log, f).f, i,
                        EffectExecuted(old(ctx.log), i, f))
    ensures i.effect.APPLY_PROBABILITY? && NoneShows(old(ctx.log), i, f) ==> AtTarget(ctx.log, i, f)
    ensures i.effect.APPLY_PROBABILITY? && CurrentForecast(ctx.log, f) != CurrentForecast(old(ctx.log), f) ==>
            CurrentForecast(ctx.log, f).f.cause == IndicatorPass(i.id)
  {
    EffectIsAVersion(ctx.log, i, f);
    ghost var before, scope := ctx.log, EffectScope(i.id, f);
    if i.effect.APPLY_PROBABILITY? {
      if !EffectExecuted(ctx.log, i, f) {
        PassIsAllowed(ctx.log, i, f);
        var _ := UpdateProbability(ctx, f, i.effect.target, true, ByIndicator(i.id, true));
        ConfinedTrans(ctx.log, before, before, Scope({f}, {}, {}), scope);
        return;
      }
    } else {
      AskForReview(ctx, i, f);
      StillFired(ctx.log, before, scope, i);
    }
    ghost var asked := ctx.log;
    ctx.RecordTransition(Marker(i.id, f));
    if ctx.log != asked { ConfinedTrans(ctx.log, asked, before, scope, scope); }
  }

  /** What a pass over a firing makes of one forecast: nothing if it is settled or marked, and else the effect. */
  predicate EffectOn(later: History, earlier: History, i: Indicator, f: Id) {
    if !IsLive(earlier, f) || HasTransition(earlier, Marker(i.id, f))
    then CurrentForecast(later, f) == CurrentForecast(earlier, f)
    else CurrentForecast(later, f).TheForecast?
         && AfterEffect(CurrentForecast(earlier, f).f, CurrentForecast(later, f).f, i, EffectExecuted(earlier, i, f))
  }

  /** Nothing about the forecast or its mark has changed. */
  ghost predicate Untouched(later: History, earlier: History, i: Indicator, f: Id) {
    && CurrentForecast(later, f) == CurrentForecast(earlier, f) && Versions(later, f) == Versions(earlier, f)
    && HasTransition(later, Marker(i.id, f)) == HasTransition(earlier, Marker(i.id, f))
  }

  ghost predicate EffectsUpTo(later: History, earlier: History, i: Indicator, n: nat)
    requires n <= |i.forecasts|
  {
    forall f :: if f in i.forecasts[..n] then EffectOn(later, earlier, i, f) else Untouched(later, earlier, i, f)
  }

  lemma UntouchedByOthers(later: History, mid: History, i: Indicator, f: Id, g: Id)
    requires Confined(later, mid, EffectScope(i.id, f)) && g != f
    ensures Untouched(later, mid, i, g)
  {
    OtherForecast(later, mid, EffectScope(i.id, f), g);
    OtherVersions(later, mid, EffectScope(i.id, f), g);
    OtherMark(later, mid, EffectScope(i.id, f), i.id, g);
  }

  lemma SameEffect(mid: History, earlier: History, i: Indicator, f: Id)
    requires Untouched(mid, earlier, i, f)
    ensures EffectExecuted(mid, i, f) == EffectExecuted(earlier, i, f) && IsLive(mid, f) == IsLive(earlier, f)
  {
    EffectIsAVersion(mid, i, f);
    EffectIsAVersion(earlier, i, f);
  }

  lemma OneMoreEffect(later: History, mid: History, earlier: History, i: Indicator, n: nat)
    requires n < |i.forecasts| && EffectsUpTo(mid, earlier, i, n) && DoneUpTo(mid, i, n)
    requires Confined(later, mid, EffectScope(i.id, i.forecasts[n])) && EffectOn(later, mid, i, i.forecasts[n])
    ensures EffectsUpTo(later, earlier, i, n + 1)
  {
    var f := i.forecasts[n];
    assert i.forecasts[..n + 1] == i.forecasts[..n] + [f];
    forall g
      ensures if g in i.forecasts[..n + 1] then EffectOn(later, earlier, i, g) else Untouched(later, earlier, i, g)
    {
      if g != f {
        UntouchedByOthers(later, mid, i, f, g);
      } else if f !in i.forecasts[..n] {
        SameEffect(mid, earlier, i, f);
      }
    }
  }

  /** Every forecast whose number no version has shown since the firing ends there, if the firing may still move it. */
  lemma UnshownEndAtTarget(later: History, earlier: History, i: Indicator, f: Id)
    requires EffectOn(later, earlier, i, f) && i.effect.APPLY_PROBABILITY?
    requires IsLive(earlier, f) && !HasTransition(earlier, Marker(i.id, f)) && NoneShows(earlier, i, f)
    ensures AtTarget(later, i, f)
  {
    EffectIsAVersion(earlier, i, f);
  }

  /** The same, unless the forecast is settled or the firing was executed on it before. */
  method ApplyTo(ctx: AnalyticContext, i: Indicator, f: Id)
    requires ctx.Valid() && IsFired(ctx.log, i) && f in i.forecasts
    modifies ctx
    ensures ctx.Valid() && old(ctx.clock) <= ctx.clock
    ensures Confined(ctx.log, old(ctx.log), EffectScope(i.id, f))
    ensures !IsLive(ctx.log, f) || HasTransition(ctx.log, Marker(i.id, f))
    ensures IsLive(ctx.log, f) == IsLive(old(ctx.log), f)
    ensures !IsLive(old(ctx.log), f) || HasTransition(old(ctx.log), Marker(i.id, f)) ==> ctx.log == old(ctx.log)
    ensures EffectOn(ctx.log, old(ctx.log), i, f)
  {
    if !IsLive(ctx.log, f) || HasTransition(ctx.log, Marker(i.id, f)) { return; }
    Execute(ctx, i, f);
  }

  lemma LivenessFromOne(later: History, earlier: History, scope: Scope, f: Id)
    requires Confined(later, earlier, scope) && scope.forecasts == {f} && IsLive(later, f) == IsLive(earlier, f)
    ensures SameLiveness(later, earlier)
  {
    forall g ensures IsLive(later, g) == IsLive(earlier, g) {
      if g != f { OtherForecast(later, earlier, scope, g); }
    }
  }

  /** Every forecast among the first `n` has been dealt with. */
  ghost predicate DoneUpTo(log: History, i: Indicator, n: nat) {
    forall k :: 0 <= k < n <= |i.forecasts| ==>
      !IsLive(log, i.forecasts[k]) || HasTransition(log, Marker(i.id, i.forecasts[k]))
  }

  lemma DoneAfterOne(later: History, earlier: History, i: Indicator, n: nat, scope: Scope)
    requires n < |i.forecasts| && DoneUpTo(earlier, i, n) && Confined(later, earlier, scope)
             && SameLiveness(later, earlier)
    requires !IsLive(later, i.forecasts[n]) || HasTransition(later, Marker(i.id, i.forecasts[n]))
    ensures DoneUpTo(later, i, n + 1)
  {
    ConfinedExtends(later, earlier, scope);
    forall k | 0 <= k < n && IsLive(later, i.forecasts[k]) ensures HasTransition(later, Marker(i.id, i.forecasts[k])) {
      MarkIsKept(later, earlier, Marker(i.id, i.forecasts[k]));
    }
  }

  /** Execute, or complete, a firing. A completed firing appends nothing. */
  method ApplyEffects(ctx: AnalyticContext, i: Indicator)
    requires ctx.Valid() && IsFired(ctx.log, i)
    modifies ctx
    ensures ctx.Valid() && old(ctx.clock) <= ctx.clock
    ensures Confined(ctx.log, old(ctx.log), EffectsScope(i))
    ensures EffectsComplete(ctx.log, i) && SameLiveness(ctx.log, old(ctx.log))
    ensures EffectsComplete(old(ctx.log), i) ==> ctx.log == old(ctx.log)
    ensures forall f :: f in i.forecasts ==> EffectOn(ctx.log, old(ctx.log), i, f)
    ensures i.effect.APPLY_PROBABILITY? ==>
      forall f | f in i.forecasts && IsLive(old(ctx.log), f) && !HasTransition(old(ctx.log), Marker(i.id, f)) ::
        NoneShows(old(ctx.log), i, f) ==> AtTarget(ctx.log, i, f)
  {
    ghost var before, scope := ctx.log, EffectsScope(i);
    for n := 0 to |i.forecasts|
      invariant ctx.Valid() && old(ctx.clock) <= ctx.clock
      invariant Confined(ctx.log, before, scope) && IsFired(ctx.log, i)
      invariant SameLiveness(ctx.log, before) && DoneUpTo(ctx.log, i, n) && EffectsUpTo(ctx.log, before, i, n)
      invariant EffectsComplete(before, i) ==> ctx.log == before
    {
      ghost var mid := ctx.log;
      var f := i.forecasts[n];
      ApplyTo(ctx, i, f);
      ConfinedTrans(ctx.log, mid, before, EffectScope(i.id, f), scope);
      LivenessFromOne(ctx.log, mid, EffectScope(i.id, f), f);
      OneMoreEffect(ctx.log, mid, before, i, n);
      DoneAfterOne(ctx.log, mid, i, n, EffectScope(i.id, f));
      StillFired(ctx.log, mid, EffectScope(i.id, f), i);
    }
    assert i.forecasts[..|i.forecasts|] == i.forecasts;
    if i.effect.APPLY_PROBABILITY? {
      forall f | f in i.forecasts && IsLive(before, f) && !HasTransition(before, Marker(i.id, f))
                 && NoneShows(before, i, f)
        ensures AtTarget(ctx.log, i, f)
      {
        UnshownEndAtTarget(ctx.log, before, i, f);
      }
    }
  }
}
