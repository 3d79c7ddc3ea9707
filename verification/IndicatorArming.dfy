/** Arming an indicator over live forecasts, and listing it on each of them. */
module IndicatorArming {
  import opened EventLog
  import opened Evidence
  import opened ForecastLog
  import opened ForecastRuns
  import opened AnalyticContexts
  import opened ForecastUpdate
  import opened ForecastCreation
  import opened IndicatorEffects

  /** What an arming call states. `id` is the digest of the description and the sorted forecasts. */
  datatype Plan = Plan(
    id: Id, forecasts: seq<Id>, kind: Kind, direction: Direction, watch: Watch, effect: Effect)

  /** What the record itself demands: named forecasts, a bounded pattern, declared coverage for silence. */
  predicate WellFormed(p: Plan) {
    && p.forecasts != []
    && (p.kind.PRESENCE? ==> p.watch.subject.Exactly? || p.watch.attribute.Exactly?)
    && (p.kind.ABSENCE? ==> 1 <= p.kind.minimum <= |p.kind.sources|)
    && (p.effect.APPLY_PROBABILITY? ==> IsProbability(p.effect.target) && p.watch.subject.Exactly?)
  }

  predicate SameTerms(i: Indicator, p: Plan) {
    i.kind == p.kind && i.direction == p.direction && i.watch == p.watch && i.effect == p.effect
  }

  /** A standing authorisation is never replaced by re-arming it. */
  predicate ArmingAllowed(log: History, p: Plan) {
    match CurrentIndicator(log, p.id)
    case NoIndicator => WellFormed(p) && forall f :: f in p.forecasts ==> IsLive(log, f)
    case TheIndicator(i) => SameTerms(i, p)
  }

  function Armed(p: Plan, armed: Time): Indicator {
    Indicator(p.id, 1, p.forecasts, p.kind, p.direction, p.watch, p.effect, ARMED, armed, 0, [])
  }

  predicate Lists(log: History, f: Id, i: Id) {
    CurrentForecast(log, f).TheForecast? && i in CurrentForecast(log, f).f.indicators
  }

  /** Every live forecast the indicator names lists it. */
  ghost predicate FoldedIn(log: History, i: Indicator) {
    forall f :: f in i.forecasts && IsLive(log, f) ==> Lists(log, f, i.id)
  }

  ghost predicate ArmingSettled(log: History, p: Plan) {
    && CurrentIndicator(log, p.id).TheIndicator? && FoldedIn(log, CurrentIndicator(log, p.id).i)
    && SubjectHas(log, OnIndicator(p.id), INDICATOR_REACHED(ARMED))
  }

  function WithIndicator(f: Forecast, i: Id): Forecast {
    f.(version := f.version + 1, cause := IndicatorFold(i), indicators := f.indicators + [i])
  }

  lemma ListingIsLegal(log: History, time: Time, f: Forecast, i: Id)
    requires Reachable(log) && Admits(log, time) && CurrentForecast(log, f.id) == TheForecast(f) && !Terminal(f.status)
    requires i !in f.indicators && CurrentIndicator(log, i).TheIndicator?
    ensures Legal(log, time, ForecastVersion(WithIndicator(f, i)))
  {
    StandsAtAProbability(log, f.id);
    assert LegalMove(log, time, f, WithIndicator(f, i));
  }

  method ListOn(ctx: AnalyticContext, i: Id, f: Id)
    requires ctx.Valid() && CurrentIndicator(ctx.log, i).TheIndicator?
    modifies ctx
    ensures ctx.Valid() && old(ctx.clock) <= ctx.clock
    ensures Confined(ctx.log, old(ctx.log), Scope({f}, {}, {}))
    ensures IsLive(ctx.log, f) ==> Lists(ctx.log, f, i)
    ensures IsLive(ctx.log, f) == IsLive(old(ctx.log), f)
    ensures !IsLive(old(ctx.log), f) || Lists(old(ctx.log), f, i) ==> ctx.log == old(ctx.log)
  {
    if !IsLive(ctx.log, f) { return; }
    var u := CurrentForecast(ctx.log, f).f;
    if i in u.indicators { return; }
    var now := ctx.Now();
    ListingIsLegal(ctx.log, now, u, i);
    ctx.Add(now, ForecastVersion(WithIndicator(u, i)));
  }

  /** Every live one among the first `n` forecasts lists the indicator. */
  ghost predicate ListedUpTo(log: History, i: Indicator, n: nat) {
    forall k :: 0 <= k < n <= |i.forecasts| && IsLive(log, i.forecasts[k]) ==> Lists(log, i.forecasts[k], i.id)
  }

  lemma ListedAfterOne(later: History, earlier: History, i: Indicator, n: nat)
    requires n < |i.forecasts| && ListedUpTo(earlier, i, n)
    requires Confined(later, earlier, Scope({i.forecasts[n]}, {}, {}))
    requires IsLive(later, i.forecasts[n]) ==> Lists(later, i.forecasts[n], i.id)
    ensures ListedUpTo(later, i, n + 1)
  {
    forall k | 0 <= k < n && IsLive(later, i.forecasts[k]) ensures Lists(later, i.forecasts[k], i.id) {
      if i.forecasts[k] != i.forecasts[n] {
        OtherForecast(later, earlier, Scope({i.forecasts[n]}, {}, {}), i.forecasts[k]);
      }
    }
  }

  function ListScope(i: Indicator): Scope {
    Scope(set f | f in i.forecasts, {}, {})
  }

  method FoldIntoForecasts(ctx: AnalyticContext, i: Indicator)
    requires ctx.Valid() && CurrentIndicator(ctx.log, i.id) == TheIndicator(i)
    modifies ctx
    ensures ctx.Valid() && old(ctx.clock) <= ctx.clock
    ensures Confined(ctx.log, old(ctx.log), ListScope(i))
    ensures FoldedIn(ctx.log, i) && SameLiveness(ctx.log, old(ctx.log))
    ensures FoldedIn(old(ctx.log), i) ==> ctx.log == old(ctx.log)
  {
    ghost var before, scope := ctx.log, ListScope(i);
    for n := 0 to |i.forecasts|
      invariant ctx.Valid() && old(ctx.clock) <= ctx.clock
      invariant Confined(ctx.log, before, scope) && CurrentIndicator(ctx.log, i.id) == TheIndicator(i)
      invariant SameLiveness(ctx.log, before) && ListedUpTo(ctx.log, i, n)
      invariant FoldedIn(before, i) ==> ctx.log == before
    {
      ghost var mid := ctx.log;
      var f := i.forecasts[n];
      ListOn(ctx, i.id, f);
      ConfinedTrans(ctx.log, mid, before, Scope({f}, {}, {}), scope);
      LivenessFromOne(ctx.log, mid, Scope({f}, {}, {}), f);
      ListedAfterOne(ctx.log, mid, i, n);
      OtherIndicator(ctx.log, mid, Scope({f}, {}, {}), i.id);
    }
  }

  predicate ArmedAs(log: History, p: Plan) {
    && CurrentIndicator(log, p.id).TheIndicator?
    && CurrentIndicator(log, p.id).i == Armed(p, CurrentIndicator(log, p.id).i.armed)
  }

  method ArmNew(ctx: AnalyticContext, p: Plan)
    requires ctx.Valid() && CurrentIndicator(ctx.log, p.id).NoIndicator? && ArmingAllowed(ctx.log, p)
    modifies ctx
    ensures ctx.Valid() && old(ctx.clock) <= ctx.clock
    ensures Confined(ctx.log, old(ctx.log), Scope({}, {p.id}, {}))
    ensures SubjectHas(ctx.log, OnIndicator(p.id), INDICATOR_REACHED(ARMED))
    ensures ArmedAs(ctx.log, p) && old(ctx.clock) <= CurrentIndicator(ctx.log, p.id).i.armed <= ctx.clock
  {
    ghost var before := ctx.log;
    var armed := ctx.Now();
    var i := Armed(p, armed);
    var now := ctx.Now();
    assert LegalArming(ctx.log, now, i);
    ctx.Add(now, IndicatorVersion(i));
    assert Confined(ctx.log, before, Scope({}, {p.id}, {}));
    ctx.EnsureTransition(Transition(OnIndicator(p.id), INDICATOR_REACHED(ARMED), Given(p.id)));
  }

  /** The checks of a plan, as the record makes them. */
  method CheckPlan(p: Plan) returns (ok: bool)
    ensures ok == WellFormed(p)
  {
    if |p.forecasts| == 0 { return false; }
    match p.kind {
      case PRESENCE => if p.watch.subject == Anything && p.watch.attribute == Anything { return false; }
      case ABSENCE(_, minimum, sources) => if minimum < 1 || |sources| < minimum { return false; }
    }
    match p.effect
    case REVIEW_ONLY => return true;
    case APPLY_PROBABILITY(target) => return 0.0 < target && target < 1.0 && p.watch.subject != Anything;
  }

  method CheckLive(log: History, forecasts: seq<Id>) returns (ok: bool)
    ensures ok <==> forall f :: f in forecasts ==> IsLive(log, f)
  {
    for n := 0 to |forecasts|
      invariant forall k :: 0 <= k < n ==> IsLive(log, forecasts[k])
    {
      if !IsLive(log, forecasts[n]) { return false; }
    }
    return true;
  }

  /** Re-arming with any different term is refused; a repeated call completes what a crash left undone. */
  method ArmIndicator(ctx: AnalyticContext, p: Plan) returns (outcome: Outcome)
    requires ctx.Valid()
    modifies ctx
    ensures ctx.Valid() && old(ctx.clock) <= ctx.clock
    ensures outcome.Done? <==> ArmingAllowed(old(ctx.log), p)
    ensures outcome.Done? ==> ArmingSettled(ctx.log, p) && SameTerms(CurrentIndicator(ctx.log, p.id).i, p)
    ensures CurrentIndicator(old(ctx.log), p.id).TheIndicator? ==>
              CurrentIndicator(ctx.log, p.id) == CurrentIndicator(old(ctx.log), p.id)
    ensures CurrentIndicator(old(ctx.log), p.id).NoIndicator? && outcome.Done? ==> ArmedAs(ctx.log, p)
    ensures ArmingSettled(old(ctx.log), p) ==> ctx.log == old(ctx.log)
  {
    ghost var before := ctx.log;
    if CurrentIndicator(ctx.log, p.id).TheIndicator? {
      ctx.EnsureTransition(Transition(OnIndicator(p.id), INDICATOR_REACHED(ARMED), Given(p.id)));
      var standing := CurrentIndicator(ctx.log, p.id).i;
      if standing.kind != p.kind || standing.direction != p.direction { return Refused; }
      if standing.watch != p.watch || standing.effect != p.effect { return Refused; }
    } else {
      var wellFormed := CheckPlan(p);
      var live := CheckLive(ctx.log, p.forecasts);
      if !wellFormed || !live { return Refused; }
      ArmNew(ctx, p);
    }
    ghost var armed := ctx.log;
    var i := CurrentIndicator(ctx.log, p.id).i;
    FoldIntoForecasts(ctx, i);
    OtherIndicator(ctx.log, armed, ListScope(i), p.id);
    MarkOfKindIsKept(ctx.log, armed, ListScope(i), OnIndicator(p.id), INDICATOR_REACHED(ARMED));
    return Done;
  }
}
