/**
 * One pass over the indicators: presence fires on later evidence, absence only on covered silence after its deadline.
 */
module IndicatorPass {
  import opened FiniteSets
  import opened Options
  import opened EventLog
  import opened Evidence
  import opened ForecastLog
  import opened ForecastRuns
  import opened ForecastVerdicts
  import opened AnalyticContexts
  import opened IndicatorEffects

  /** Something an indicator watches is still undecided. */
  predicate SomeLive(log: History, i: Indicator) {
    exists f :: f in i.forecasts && IsLive(log, f)
  }

  predicate SomeMatch(facts: seq<Fact>, i: Indicator) {
    exists o :: o in facts && PostArmingMatch(facts, i, o)
  }

  /** A check at clock reading `t` would append nothing. */
  ghost predicate CheckSettled(log: History, id: Id, t: Time) {
    CurrentIndicator(log, id).TheIndicator? ==>
      var i := CurrentIndicator(log, id).i;
      match i.status
      case FIRED => EffectsComplete(log, i) && !ReviewOpen(log, IndicatorCoverage(id))
      case ARMED =>
        SomeLive(log, i) && (match i.kind
                             case PRESENCE => !SomeMatch(Facts(log), i)
                             case ABSENCE(deadline, _, _) => t <= deadline)
      case COVERAGE_BLOCKED =>
        SomeLive(log, i) && (i.kind.ABSENCE? ==> !Defeated(Facts(log), i) && !WatchCovered(Facts(log), i))
      case _ => true
  }

  function CheckScope(i: Indicator): Scope {
    Scope(set f | f in i.forecasts, {i.id},
          {IndicatorCoverage(i.id)} + set f | f in i.forecasts :: IndicatorReview(i.id, f))
  }

  /** What completing a firing may touch: no version of an indicator, and no transition into an indicator's status. */
  function FiredScope(i: Indicator): Scope {
    Scope(set f | f in i.forecasts, {},
          {IndicatorCoverage(i.id)} + set f | f in i.forecasts :: IndicatorReview(i.id, f))
  }

  /** The next version of an indicator that is not fired. */
  function Become(i: Indicator, status: IndicatorStatus): Indicator {
    i.(version := i.version + 1, status := status)
  }

  function Fired(i: Indicator, at: Time, evidence: seq<Id>): Indicator {
    i.(version := i.version + 1, status := FIRED, fired := at, evidence := evidence)
  }

  /** The indicator's next version is its firing. */
  predicate HasFired(log: History, i: Indicator) {
    CurrentIndicator(log, i.id).TheIndicator?
    && var v := CurrentIndicator(log, i.id).i; v == Fired(i, v.fired, v.evidence) && HasTransition(log, Reaches(v))
  }

  predicate Watching(i: Indicator) {
    i.status == ARMED || i.status == COVERAGE_BLOCKED
  }

  predicate Stands(log: History, i: Indicator) {
    CurrentIndicator(log, i.id) == TheIndicator(i)
  }

  /** The transition into an indicator status; the key differs by status. */
  function Reaches(i: Indicator): Transition {
    Transition(OnIndicator(i.id), INDICATOR_REACHED(i.status), OnceKey(OnIndicator(i.id)))
  }

  lemma IndicatorActsKeepLiveness(later: History, earlier: History, scope: Scope)
    requires Confined(later, earlier, scope) && scope.forecasts == {}
    ensures SameLiveness(later, earlier)
  {
    forall f ensures IsLive(later, f) == IsLive(earlier, f) { OtherForecast(later, earlier, scope, f); }
  }

  lemma MovesLater(log: History, time: Time, later: Time, u: Indicator, v: Indicator)
    requires LegalIndicatorMove(log, time, u, v) && time <= later
    ensures LegalIndicatorMove(log, later, u, v)
  {
  }

  /** Append the next version of an indicator and its transition. */
  method Advance(ctx: AnalyticContext, i: Indicator, v: Indicator)
    requires ctx.Valid() && v.id == i.id && Stands(ctx.log, i) && LegalIndicatorMove(ctx.log, ctx.clock, i, v)
    modifies ctx
    ensures ctx.Valid() && old(ctx.clock) <= ctx.clock
    ensures Confined(ctx.log, old(ctx.log), Scope({}, {i.id}, {}))
    ensures Stands(ctx.log, v) && HasTransition(ctx.log, Reaches(v)) && SameLiveness(ctx.log, old(ctx.log))
  {
    ghost var before, asked := ctx.log, ctx.clock;
    var now := ctx.Now();
    MovesLater(ctx.log, asked, now, i, v);
    ctx.Add(now, IndicatorVersion(v));
    assert Confined(ctx.log, before, Scope({}, {v.id}, {}));
    ctx.RecordTransition(Reaches(v));
    IndicatorActsKeepLiveness(ctx.log, before, Scope({}, {v.id}, {}));
  }

  /** The fired version, its transition, its effects, and the coverage question it settles. */
  method Fire(ctx: AnalyticContext, i: Indicator, evidence: seq<Id>)
    requires ctx.Valid() && Stands(ctx.log, i)
    requires LegalIndicatorMove(ctx.log, ctx.clock, i, Fired(i, ctx.clock, evidence))
    modifies ctx
    ensures ctx.Valid() && old(ctx.clock) <= ctx.clock
    ensures Confined(ctx.log, old(ctx.log), CheckScope(i)) && SameLiveness(ctx.log, old(ctx.log))
    ensures Stands(ctx.log, Fired(i, old(ctx.clock), evidence)) && CheckSettled(ctx.log, i.id, old(ctx.clock))
    ensures HasTransition(ctx.log, Reaches(Become(i, FIRED)))
    ensures forall f :: f in i.forecasts ==>
      EffectOn(ctx.log, old(ctx.log), Fired(i, old(ctx.clock), evidence), f)
  {
    ghost var before := ctx.log;
    var v := Fired(i, ctx.clock, evidence);
    Advance(ctx, i, v);
    ConfinedTrans(ctx.log, before, before, Scope({}, {v.id}, {}), CheckScope(i));
    ghost var fired := ctx.log;
    Complete(ctx, v);
    forall f | f in i.forecasts ensures EffectOn(ctx.log, before, v, f) { EffectSince(ctx.log, fired, before, v, f); }
    ConfinedTrans(ctx.log, fired, before, FiredScope(v), CheckScope(i));
    ConfinedExtends(ctx.log, fired, FiredScope(v));
    MarkIsKept(ctx.log, fired, Reaches(v));
  }

  /** Execute or complete a firing and close its coverage question. */
  method Complete(ctx: AnalyticContext, i: Indicator)
    requires ctx.Valid() && IsFired(ctx.log, i)
    modifies ctx
    ensures ctx.Valid() && old(ctx.clock) <= ctx.clock
    ensures Confined(ctx.log, old(ctx.log), FiredScope(i)) && SameLiveness(ctx.log, old(ctx.log))
    ensures Stands(ctx.log, i) && EffectsComplete(ctx.log, i) && !ReviewOpen(ctx.log, IndicatorCoverage(i.id))
    ensures forall f :: f in i.forecasts ==> EffectOn(ctx.log, old(ctx.log), i, f)
    ensures EffectsComplete(old(ctx.log), i) && !ReviewOpen(old(ctx.log), IndicatorCoverage(i.id)) ==>
            ctx.log == old(ctx.log)
  {
    ghost var before := ctx.log;
    ApplyEffects(ctx, i);
    ghost var applied := ctx.log;
    ConfinedTrans(applied, before, before, EffectsScope(i), FiredScope(i));
    StillFired(applied, before, EffectsScope(i), i);
    ctx.CloseReviewItem(IndicatorCoverage(i.id));
    forall f ensures CurrentForecast(ctx.log, f) == CurrentForecast(applied, f) {
      OtherForecast(ctx.log, applied, CoverageScope(i.id), f);
    }
    EffectsStayComplete(ctx.log, applied, CoverageScope(i.id), i);
    IndicatorActsKeepLiveness(ctx.log, applied, CoverageScope(i.id));
    ConfinedTrans(ctx.log, applied, before, CoverageScope(i.id), FiredScope(i));
  }

  /** The firing's own version changes nothing about what its effect then finds. */
  lemma EffectSince(later: History, fired: History, earlier: History, v: Indicator, f: Id)
    requires Confined(fired, earlier, Scope({}, {v.id}, {})) && EffectOn(later, fired, v, f)
    ensures EffectOn(later, earlier, v, f)
  {
    OtherForecast(fired, earlier, Scope({}, {v.id}, {}), f);
    OtherVersions(fired, earlier, Scope({}, {v.id}, {}), f);
    OtherMark(fired, earlier, Scope({}, {v.id}, {}), v.id, f);
    SameEffect(fired, earlier, v, f);
  }

  function CoverageScope(i: Id): Scope {
    Scope({}, {}, {IndicatorCoverage(i)})
  }

  lemma EffectsStayComplete(later: History, earlier: History, scope: Scope, i: Indicator)
    requires Confined(later, earlier, scope) && SameLiveness(later, earlier) && EffectsComplete(earlier, i)
    ensures EffectsComplete(later, i)
  {
    ConfinedExtends(later, earlier, scope);
    forall f | f in i.forecasts && IsLive(later, f) ensures HasTransition(later, Marker(i.id, f)) {
      MarkIsKept(later, earlier, Marker(i.id, f));
    }
  }

  // ---------------------------------------------------------------- one indicator

  /** Up to five matching observations, in the order they were recorded. */
  method PostArmingMatches(facts: seq<Fact>, i: Indicator) returns (refs: seq<Id>)
    ensures refs != [] <==> SomeMatch(facts, i)
    ensures refs != [] <==> exists o :: o in facts && SeenAfterArming(facts, i, o)
    ensures |refs| <= 5
    ensures forall ref :: ref in refs ==> exists o :: o in facts && PostArmingMatch(facts, i, o) && o.observation == ref
  {
    refs := [];
    forall o { SightingRules(facts, i, o); }
    for k := 0 to |facts|
      invariant |refs| <= 5 && (refs == [] ==> forall j :: 0 <= j < k ==> !PostArmingMatch(facts, i, facts[j]))
      invariant forall ref :: ref in refs ==>
                exists o :: o in facts && PostArmingMatch(facts, i, o) && o.observation == ref
    {
      if PostArmingMatch(facts, i, facts[k]) && |refs| < 5 {
        assert facts[k] in facts;
        refs := refs + [facts[k].observation];
      }
    }
    if refs != [] {
      var first := refs[0];
      assert first in refs;
      assert exists o :: o in facts && PostArmingMatch(facts, i, o) && o.observation == first;
    } else {
      assert forall o :: o in facts ==> !PostArmingMatch(facts, i, o);
    }
  }

  method DefeatMatches(facts: seq<Fact>, i: Indicator) returns (defeated: bool)
    requires i.kind.ABSENCE?
    ensures defeated == Defeated(facts, i)
    ensures defeated <==> exists o :: o in facts && SeenByDeadline(facts, i, o)
  {
    forall o { SightingRules(facts, i, o); }
    for k := 0 to |facts|
      invariant forall j :: 0 <= j < k ==> !DefeatMatch(facts, i, facts[j])
    {
      if DefeatMatch(facts, i, facts[k]) { return true; }
    }
    return false;
  }

  /** Expire or retire: the indicator acts no more, so its coverage question is moot. */
  method Retire(ctx: AnalyticContext, i: Indicator, status: IndicatorStatus)
    requires ctx.Valid() && Stands(ctx.log, i) && (status == EXPIRED_UNFIRED || status == RETIRED)
    requires LegalIndicatorMove(ctx.log, ctx.clock, i, Become(i, status))
    modifies ctx
    ensures ctx.Valid() && old(ctx.clock) <= ctx.clock
    ensures Confined(ctx.log, old(ctx.log), CheckScope(i)) && SameLiveness(ctx.log, old(ctx.log))
    ensures Stands(ctx.log, Become(i, status)) && !ReviewOpen(ctx.log, IndicatorCoverage(i.id))
    ensures HasTransition(ctx.log, Reaches(Become(i, status)))
  {
    ghost var before := ctx.log;
    Advance(ctx, i, Become(i, status));
    ghost var advanced := ctx.log;
    ConfinedTrans(advanced, before, before, Scope({}, {i.id}, {}), CheckScope(i));
    ctx.CloseReviewItem(IndicatorCoverage(i.id));
    IndicatorActsKeepLiveness(ctx.log, advanced, CoverageScope(i.id));
    ConfinedTrans(ctx.log, advanced, before, CoverageScope(i.id), CheckScope(i));
  }

  /** Silence without the declared coverage moves nothing; it opens a collection question. */
  method Block(ctx: AnalyticContext, i: Indicator)
    requires ctx.Valid() && Stands(ctx.log, i) && i.status == ARMED
    requires LegalIndicatorMove(ctx.log, ctx.clock, i, Become(i, COVERAGE_BLOCKED))
    modifies ctx
    ensures ctx.Valid() && old(ctx.clock) <= ctx.clock
    ensures Confined(ctx.log, old(ctx.log), CheckScope(i)) && SameLiveness(ctx.log, old(ctx.log))
    ensures Stands(ctx.log, Become(i, COVERAGE_BLOCKED)) && ReviewKnown(ctx.log, IndicatorCoverage(i.id))
    ensures HasTransition(ctx.log, Reaches(Become(i, COVERAGE_BLOCKED)))
  {
    ghost var before := ctx.log;
    Advance(ctx, i, Become(i, COVERAGE_BLOCKED));
    ghost var advanced := ctx.log;
    ConfinedTrans(advanced, before, before, Scope({}, {i.id}, {}), CheckScope(i));
    ctx.OpenReviewItem(IndicatorCoverage(i.id));
    IndicatorActsKeepLiveness(ctx.log, advanced, CoverageScope(i.id));
    ConfinedTrans(ctx.log, advanced, before, CoverageScope(i.id), CheckScope(i));
  }

  method CheckPresence(ctx: AnalyticContext, i: Indicator)
    requires ctx.Valid() && Stands(ctx.log, i) && i.status == ARMED && i.kind.PRESENCE? && SomeLive(ctx.log, i)
    modifies ctx
    ensures ctx.Valid() && old(ctx.clock) <= ctx.clock
    ensures Confined(ctx.log, old(ctx.log), CheckScope(i)) && SameLiveness(ctx.log, old(ctx.log))
    ensures CheckSettled(ctx.log, i.id, old(ctx.clock))
    ensures if exists o :: o in Facts(old(ctx.log)) && SeenAfterArming(Facts(old(ctx.log)), i, o)
            then HasFired(ctx.log, i) else ctx.log == old(ctx.log)
    ensures !SomeMatch(Facts(old(ctx.log)), i) ==> ctx.log == old(ctx.log)
  {
    var refs := PostArmingMatches(Facts(ctx.log), i);
    if refs == [] { return; }
    var fired := ctx.Now();
    Fire(ctx, i, refs);
    SettledEarlier(ctx.log, i.id, old(ctx.clock), fired);
  }

  /** An earlier reading of the clock asks no more of a check. */
  lemma SettledEarlier(log: History, id: Id, early: Time, late: Time)
    requires CheckSettled(log, id, late) && early <= late
    ensures CheckSettled(log, id, early)
  {
  }

  method CheckAbsence(ctx: AnalyticContext, i: Indicator)
    requires ctx.Valid() && Stands(ctx.log, i) && Watching(i) && i.kind.ABSENCE? && SomeLive(ctx.log, i)
    requires i.status == ARMED ==> i.kind.deadline < ctx.clock
    modifies ctx
    ensures ctx.Valid() && old(ctx.clock) <= ctx.clock
    ensures Confined(ctx.log, old(ctx.log), CheckScope(i)) && SameLiveness(ctx.log, old(ctx.log))
    ensures CheckSettled(ctx.log, i.id, old(ctx.clock))
    ensures CheckSettled(old(ctx.log), i.id, ctx.clock) ==> ctx.log == old(ctx.log)
    ensures var facts := Facts(old(ctx.log));
            if exists o :: o in facts && SeenByDeadline(facts, i, o) then Stands(ctx.log, Become(i, RETIRED))
            else if SilenceIsCovered(facts, i.kind.minimum, i.kind.sources, i.kind.deadline, i.watch.subject)
            then HasFired(ctx.log, i)
            else Stands(ctx.log, if i.status == ARMED then Become(i, COVERAGE_BLOCKED) else i)
  {
    ghost var before := ctx.log;
    var facts := Facts(ctx.log);
    var defeated := DefeatMatches(facts, i);
    if defeated {
      Retire(ctx, i, RETIRED);
      return;
    }
    CoverageRules(facts, i.kind.minimum, i.kind.sources, i.kind.deadline, i.watch.subject);
    var satisfied, refs := AbsenceCoverage(facts, i.kind.minimum, i.kind.sources, i.kind.deadline, i.watch.subject);
    if satisfied {
      var fired := ctx.Now();
      Fire(ctx, i, refs);
      SettledEarlier(ctx.log, i.id, old(ctx.clock), fired);
    } else if i.status == ARMED {
      Block(ctx, i);
      StillSilent(ctx.log, before, i, Become(i, COVERAGE_BLOCKED));
    }
  }

  lemma StillSilent(later: History, earlier: History, i: Indicator, v: Indicator)
    requires Confined(later, earlier, CheckScope(i)) && SameLiveness(later, earlier) && SomeLive(earlier, i)
    requires i.kind.ABSENCE? && !Defeated(Facts(earlier), i) && !WatchCovered(Facts(earlier), i)
    requires v.kind == i.kind && v.watch == i.watch && v.forecasts == i.forecasts
    ensures SomeLive(later, v) && !Defeated(Facts(later), v) && !WatchCovered(Facts(later), v)
  {
    ConfinedExtends(later, earlier, CheckScope(i));
    var f :| f in i.forecasts && IsLive(earlier, f);
    assert IsLive(later, f);
    assert forall o :: DefeatMatch(Facts(later), v, o) == DefeatMatch(Facts(earlier), i, o);
  }

  /** Everything an indicator watches is settled: it expires, whatever evidence there is. */
  method Check(ctx: AnalyticContext, i: Indicator)
    requires ctx.Valid() && Stands(ctx.log, i)
    modifies ctx
    ensures ctx.Valid() && old(ctx.clock) <= ctx.clock
    ensures Confined(ctx.log, old(ctx.log), CheckScope(i)) && SameLiveness(ctx.log, old(ctx.log))
    ensures CheckSettled(ctx.log, i.id, old(ctx.clock))
    ensures CheckSettled(old(ctx.log), i.id, ctx.clock) ==> ctx.log == old(ctx.log)
    ensures Watching(i) && !SomeLive(old(ctx.log), i) ==> Stands(ctx.log, Become(i, EXPIRED_UNFIRED))
    ensures i.status == FIRED ==> Confined(ctx.log, old(ctx.log), FiredScope(i))
  {
    if i.status == FIRED {
      ghost var before := ctx.log;
      Complete(ctx, i);
      ConfinedTrans(ctx.log, before, before, FiredScope(i), CheckScope(i));
    } else if Watching(i) {
      if !SomeLive(ctx.log, i) {
        Retire(ctx, i, EXPIRED_UNFIRED);
      } else if i.kind.PRESENCE? {
        if i.status == ARMED { CheckPresence(ctx, i); }
      } else if i.status == COVERAGE_BLOCKED {
        CheckAbsence(ctx, i);
      } else {
        CheckArmedAbsence(ctx, i);
      }
    }
  }

  method CheckArmedAbsence(ctx: AnalyticContext, i: Indicator)
    requires ctx.Valid() && Stands(ctx.log, i) && i.status == ARMED && i.kind.ABSENCE? && SomeLive(ctx.log, i)
    modifies ctx
    ensures ctx.Valid() && old(ctx.clock) <= ctx.clock
    ensures Confined(ctx.log, old(ctx.log), CheckScope(i)) && SameLiveness(ctx.log, old(ctx.log))
    ensures CheckSettled(ctx.log, i.id, old(ctx.clock))
    ensures CheckSettled(old(ctx.log), i.id, ctx.clock) ==> ctx.log == old(ctx.log)
  {
    var now := ctx.Now();
    if now <= i.kind.deadline { return; }
    CheckAbsence(ctx, i);
    SettledEarlier(ctx.log, i.id, old(ctx.clock), now);
  }

  // ---------------------------------------------------------------- what an interrupted check leaves undone

  /**
   * A check that stops behind the version it appends leaves the indicator settled, so no later check at the same
   * evidence appends anything: the transition stays missing, the coverage question of a blocked indicator is never
   * opened, and that of an expired or retired one never closed.
   */
  lemma InterruptedCheckIsNotCompleted(log: History, time: Time, u: Indicator, v: Indicator, t: Time)
    requires Stands(log, u) && v.id == u.id && LegalIndicatorMove(log, time, u, v) && v.status != FIRED
    requires v.status == COVERAGE_BLOCKED ==> SomeLive(log, u)
    ensures var crashed: History := Append(log, time, IndicatorVersion(v));
            && CheckSettled(crashed, v.id, t)
            && (forall x :: HasTransition(crashed, x) <==> HasTransition(log, x))
            && (forall item :: ReviewOpen(crashed, item) <==> ReviewOpen(log, item))
            && (forall item :: ReviewKnown(crashed, item) <==> ReviewKnown(log, item))
  {
    var crashed: History := Append(log, time, IndicatorVersion(v));
    if v.status == COVERAGE_BLOCKED {
      var f :| f in u.forecasts && IsLive(log, f);
      assert IsLive(crashed, f);
      assert forall o :: DefeatMatch(Facts(crashed), v, o) == DefeatMatch(Facts(log), u, o);
    }
  }

  /** Completing a firing executes its effects and never records its transition. */
  lemma {:induction false} InterruptedFiringIsNotAnnounced(later: History, crashed: History, v: Indicator)
    requires Confined(later, crashed, FiredScope(v))
    ensures HasTransition(later, Reaches(v)) <==> HasTransition(crashed, Reaches(v))
  {
    if later != crashed { InterruptedFiringIsNotAnnounced(later.prev, crashed, v); }
  }

  // ---------------------------------------------------------------- the whole pass

  function IndicatorIds(log: History): set<Id> {
    if log.Empty? then {}
    else IndicatorIds(log.prev) + if log.record.IndicatorVersion? then {log.record.indicator.id} else {}
  }

  lemma {:induction false} IdsAreKnown(log: History, id: Id)
    ensures id in IndicatorIds(log) <==> CurrentIndicator(log, id).TheIndicator?
  {
    if log.Append? { IdsAreKnown(log.prev, id); }
  }

  /** Checking one indicator leaves every other one as settled as it was. */
  lemma OthersStaySettled(later: History, earlier: History, i: Indicator, id: Id, t: Time)
    requires Confined(later, earlier, CheckScope(i)) && SameLiveness(later, earlier)
    requires id != i.id && CheckSettled(earlier, id, t)
    ensures CheckSettled(later, id, t)
  {
    OtherIndicator(later, earlier, CheckScope(i), id);
    ConfinedExtends(later, earlier, CheckScope(i));
    OtherReview(later, earlier, CheckScope(i), IndicatorCoverage(id));
    if CurrentIndicator(earlier, id).TheIndicator? {
      var j := CurrentIndicator(earlier, id).i;
      if j.status == FIRED {
        EffectsStayComplete(later, earlier, CheckScope(i), j);
      } else if SomeLive(earlier, j) {
        var f :| f in j.forecasts && IsLive(earlier, f);
        assert IsLive(later, f);
      }
    }
  }

  /** Every indicator of the set is settled at `t`. */
  ghost predicate AllSettled(log: History, ids: set<Id>, t: Time) {
    forall id :: id in ids ==> CheckSettled(log, id, t)
  }

  lemma AllSettledEarlier(log: History, ids: set<Id>, early: Time, late: Time)
    requires AllSettled(log, ids, late) && early <= late
    ensures AllSettled(log, ids, early)
  {
    forall id | id in ids ensures CheckSettled(log, id, early) { SettledEarlier(log, id, early, late); }
  }

  lemma OneMoreSettled(later: History, earlier: History, i: Indicator, done: set<Id>, t: Time)
    requires Confined(later, earlier, CheckScope(i)) && SameLiveness(later, earlier)
    requires AllSettled(earlier, done, t) && CheckSettled(later, i.id, t)
    ensures AllSettled(later, done + {i.id}, t)
  {
    forall id | id in done && id != i.id ensures CheckSettled(later, id, t) {
      OthersStaySettled(later, earlier, i, id, t);
    }
  }

  /** Checking one indicator neither adds nor removes another. */
  lemma SameIds(later: History, earlier: History, i: Indicator)
    requires Confined(later, earlier, CheckScope(i)) && Stands(earlier, i)
    requires CurrentIndicator(later, i.id).TheIndicator?
    ensures IndicatorIds(later) == IndicatorIds(earlier)
  {
    forall id ensures id in IndicatorIds(later) <==> id in IndicatorIds(earlier) {
      IdsAreKnown(later, id);
      IdsAreKnown(earlier, id);
      if id != i.id { OtherIndicator(later, earlier, CheckScope(i), id); }
    }
  }

  lemma {:induction false} IndicatorStaysKnown(later: History, earlier: History, id: Id)
    requires Extends(later, earlier) && CurrentIndicator(earlier, id).TheIndicator?
    ensures CurrentIndicator(later, id).TheIndicator?
  {
    if later != earlier { IndicatorStaysKnown(later.prev, earlier, id); }
  }

  /**
   * One pass, in any order: every firing is executed, no covered silence and no later match is left unanswered, and
   * a pass at the same evidence and clock reading appends nothing.
   */
  method CheckIndicators(ctx: AnalyticContext)
    requires ctx.Valid()
    modifies ctx
    ensures ctx.Valid() && old(ctx.clock) <= ctx.clock
    ensures Extends(ctx.log, old(ctx.log)) && Facts(ctx.log) == Facts(old(ctx.log))
            && SameLiveness(ctx.log, old(ctx.log))
    ensures AllSettled(ctx.log, IndicatorIds(ctx.log), old(ctx.clock))
    ensures AllSettled(old(ctx.log), IndicatorIds(old(ctx.log)), ctx.clock) ==> ctx.log == old(ctx.log)
  {
    ghost var before, start := ctx.log, ctx.clock;
    var ids := IndicatorIds(ctx.log);
    var rest: set<Id> := ids;
    while rest != {}
      invariant ctx.Valid() && start <= ctx.clock && rest <= ids && IndicatorIds(ctx.log) == ids
      invariant Extends(ctx.log, before) && Facts(ctx.log) == Facts(before) && SameLiveness(ctx.log, before)
      invariant AllSettled(ctx.log, ids - rest, start)
      invariant AllSettled(before, ids, ctx.clock) ==> ctx.log == before
      decreases |rest|
    {
      ghost var _ := SomeElement(rest);
      var id :| id in rest;
      IdsAreKnown(ctx.log, id);
      ghost var mid, reading := ctx.log, ctx.clock;
      var i := CurrentIndicator(ctx.log, id).i;
      Check(ctx, i);
      ConfinedExtends(ctx.log, mid, CheckScope(i));
      ExtendsTrans(ctx.log, mid, before);
      IndicatorStaysKnown(ctx.log, mid, id);
      SameIds(ctx.log, mid, i);
      SettledEarlier(ctx.log, id, start, reading);
      OneMoreSettled(ctx.log, mid, i, ids - rest, start);
      if AllSettled(before, ids, ctx.clock) {
        AllSettledEarlier(before, ids, reading, ctx.clock);
      }
      rest := rest - {id};
      assert ids - rest == (ids - (rest + {id})) + {id};
    }
    assert ids - rest == ids;
  }
}
