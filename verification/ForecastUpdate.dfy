/** Moving a forecast's number: a human act, an accepted candidate, or a firing that was authorised beforehand. */
module ForecastUpdate {
  import opened EventLog
  import opened Evidence
  import opened ForecastLog
  import opened ForecastRuns
  import opened AnalyticContexts

  /** Who asks for an update; `pass` marks the pass over fired indicators. */
  datatype Caller = ByHuman(indicator: Wanted) | ByModel(proposal: Wanted, indicator: Wanted) | ByIndicator(i: Id,
        pass: bool)
                  | ByService

  datatype Outcome = Done | Refused

  /** An indicator's id accompanies only the execution of that indicator's firing. */
  predicate MixesAuthority(caller: Caller) {
    (caller.ByHuman? || caller.ByModel?) && caller.indicator.Exactly?
  }

  predicate AlreadyMaterialized(f: Forecast, p: real, caller: Caller) {
    caller.ByModel? && caller.proposal.Exactly? && f.trail == FromProposal(caller.proposal.id)
      && Close(f.probability, p)
  }

  /** A firing whose target already stands is consumed without a new version. */
  predicate ConsumesOnly(f: Forecast, p: real, caller: Caller) {
    caller.ByIndicator? && Close(f.probability, p)
  }

  /** The fired indicator names the forecast and authorises this number, and its firing was not executed before. */
  predicate FiringAuthorizes(log: History, i: Id, f: Id, p: real) {
    && CurrentIndicator(log, i).TheIndicator?
    && (var ind := CurrentIndicator(log, i).i;
        && ind.status == FIRED && f in ind.forecasts && ind.effect.APPLY_PROBABILITY? && Close(ind.effect.target, p))
    && !HasTransition(log, Marker(i, f))
  }

  /** The authority an update must show: a human, an accepted unspent candidate, or a firing not executed before. */
  predicate Authorized(log: History, f: Forecast, p: real, caller: Caller) {
    match caller
    case ByHuman(_) => true
    case ByModel(proposal, _) =>
      && proposal.Exactly? && Recorded(log, Accepted(proposal.id, f.question, f.horizon, p))
      && !ProposalSpent(log, proposal.id)
    case ByIndicator(i, _) => FiringAuthorizes(log, i, f.id, p)
    case ByService => false
  }

  predicate UpdateAllowed(log: History, id: Id, p: real, reasoned: bool, caller: Caller) {
    && IsLive(log, id) && reasoned && !MixesAuthority(caller)
    && (var f := CurrentForecast(log, id).f;
        AlreadyMaterialized(f, p, caller)
        || (Authorized(log, f, p, caller) && (ConsumesOnly(f, p, caller) || IsProbability(p))))
  }

  function CauseOf(caller: Caller): Cause {
    match caller
    case ByModel(proposal, _) => if proposal.Exactly? then ModelUpdate(proposal.id) else HumanUpdate
    case ByIndicator(i, pass) => if pass then IndicatorPass(i) else IndicatorCall(i)
    case _ => HumanUpdate
  }

  /** The version that moves the number. Only a human or model act clears UPDATE_REQUIRED. */
  function MovedVersion(f: Forecast, p: real, caller: Caller): Forecast {
    f.(version := f.version + 1, cause := CauseOf(caller), probability := p,
       status := if caller.ByIndicator? then f.status else StatusAfterUpdate(f.status),
       trail := if caller.ByModel? && caller.proposal.Exactly? then FromProposal(caller.proposal.id) else NoProposal)
  }

  /** The note of a version that moved the number. */
  function UpdateNote(f: Forecast): Transition {
    Transition(OnForecast(f.id), PROBABILITY_UPDATED, UpdateKey(f.id, f.version))
  }

  /** What stands after an allowed update. */
  function Updated(f: Forecast, p: real, caller: Caller): Forecast {
    if AlreadyMaterialized(f, p, caller) || ConsumesOnly(f, p, caller) then f else MovedVersion(f, p, caller)
  }

  /** The pass over fired indicators calls the update only when the effect has not landed. */
  predicate PassIsFirst(log: History, id: Id, caller: Caller) {
    caller.ByIndicator? && caller.pass && CurrentIndicator(log, caller.i).TheIndicator? ==>
      !EffectExecuted(log, CurrentIndicator(log, caller.i).i, id)
  }

  lemma MoveIsLegal(log: History, time: Time, id: Id, p: real, caller: Caller)
    requires Admits(log, time) && IsLive(log, id) && IsProbability(p) && !MixesAuthority(caller)
    requires var f := CurrentForecast(log, id).f;
             Authorized(log, f, p, caller) && !AlreadyMaterialized(f, p, caller) && !ConsumesOnly(f, p, caller)
    requires PassIsFirst(log, id, caller)
    ensures Legal(log, time, ForecastVersion(MovedVersion(CurrentForecast(log, id).f, p, caller)))
  {
    assert LegalMove(log, time, CurrentForecast(log, id).f, MovedVersion(CurrentForecast(log, id).f, p, caller));
  }

  /** Once the number the firing authorised stands, the mark may be recorded. */
  lemma MarkIsLegal(log: History, i: Id, id: Id, p: real)
    requires FiringAuthorizes(log, i, id, p)
    requires CurrentForecast(log, id).TheForecast? && Close(CurrentForecast(log, id).f.probability, p)
    ensures LegalTransition(log, Marker(i, id))
  {
  }

  lemma StillAuthorized(log: History, time: Time, record: Record, i: Id, id: Id, p: real)
    requires FiringAuthorizes(log, i, id, p) && !record.IndicatorVersion? && record != Moved(Marker(i, id))
    ensures FiringAuthorizes(Append(log, time, record), i, id, p)
  {
  }

  /** The checks of a firing's authority, in their order. */
  method CheckFiring(log: History, i: Id, f: Id, p: real) returns (ok: bool)
    ensures ok == FiringAuthorizes(log, i, f, p)
  {
    var indicator := CurrentIndicator(log, i);
    if indicator.NoIndicator? || indicator.i.status != FIRED { return false; }
    if f !in indicator.i.forecasts || indicator.i.effect.REVIEW_ONLY? { return false; }
    var target := indicator.i.effect.target;
    if target - p > 0.000000001 || p - target > 0.000000001 { return false; }
    return !HasTransition(log, Transition(OnForecast(f), INDICATOR_FIRED, FireKey(i, f)));
  }

  /** The checks of a model's authority: a human accepted this number for this question, and it is not spent. */
  method CheckAcceptance(log: History, f: Forecast, p: real, proposal: Wanted) returns (ok: bool)
    ensures ok == Authorized(log, f, p, ByModel(proposal, Anything))
  {
    match proposal
    case Anything => return false;
    case Exactly(id) => return Recorded(log, Accepted(id, f.question, f.horizon, p)) && !ProposalSpent(log, id);
  }

  method CheckAuthority(log: History, f: Forecast, p: real, caller: Caller) returns (ok: bool)
    ensures ok == Authorized(log, f, p, caller)
  {
    match caller
    case ByModel(proposal, _) => ok := CheckAcceptance(log, f, p, proposal);
    case ByHuman(_) => ok := true;
    case ByIndicator(i, _) => ok := CheckFiring(log, i, f.id, p);
    case ByService => ok := false;
  }

  /** The version, then the note of it, then the mark if a firing made it: a crash may keep any first part. */
  method MoveNumber(ctx: AnalyticContext, id: Id, p: real, caller: Caller)
    requires ctx.Valid() && IsLive(ctx.log, id) && IsProbability(p) && !MixesAuthority(caller)
    requires var f := CurrentForecast(ctx.log, id).f;
             Authorized(ctx.log, f, p, caller) && !AlreadyMaterialized(f, p, caller) && !ConsumesOnly(f, p, caller)
    requires PassIsFirst(ctx.log, id, caller)
    modifies ctx
    ensures ctx.Valid() && old(ctx.clock) <= ctx.clock
    ensures Confined(ctx.log, old(ctx.log), Scope({id}, {}, {}))
    ensures CurrentForecast(ctx.log, id) == TheForecast(MovedVersion(CurrentForecast(old(ctx.log), id).f, p, caller))
    ensures HasTransition(ctx.log,
              Transition(OnForecast(id), PROBABILITY_UPDATED, UpdateKey(id, CurrentForecast(ctx.log, id).f.version)))
    ensures caller.ByIndicator? ==> HasTransition(ctx.log, Marker(caller.i, id))
  {
    ghost var before := ctx.log;
    var v := MovedVersion(CurrentForecast(ctx.log, id).f, p, caller);
    var now := ctx.Now();
    MoveIsLegal(ctx.log, now, id, p, caller);
    ctx.Add(now, ForecastVersion(v));
    ghost var moved := ctx.log;
    assert Confined(moved, before, Scope({id}, {}, {}));
    var note := UpdateNote(v);
    ctx.RecordTransition(note);
    ghost var noted := ctx.log;
    assert Confined(noted, before, Scope({id}, {}, {}));
    if caller.ByIndicator? {
      StillAuthorized(before, now, ForecastVersion(v), caller.i, id, p);
      if noted != moved { StillAuthorized(moved, noted.time, Moved(note), caller.i, id, p); }
      MarkIsLegal(ctx.log, caller.i, id, p);
      ctx.RecordTransition(Marker(caller.i, id));
    }
  }

  /**
   * The number moves only by a human act, an accepted candidate nobody has used, or a firing that names this
   * forecast, authorises this number, and was not executed before.
   */
  method UpdateProbability(ctx: AnalyticContext, id: Id, p: real, reasoned: bool, caller: Caller)
    returns (outcome: Outcome)
    requires ctx.Valid() && PassIsFirst(ctx.log, id, caller)
    modifies ctx
    ensures ctx.Valid() && old(ctx.clock) <= ctx.clock
    ensures outcome.Done? <==> UpdateAllowed(old(ctx.log), id, p, reasoned, caller)
    ensures outcome.Refused? ==> ctx.log == old(ctx.log)
    ensures Confined(ctx.log, old(ctx.log), Scope({id}, {}, {}))
    ensures outcome.Done? ==>
              CurrentForecast(ctx.log, id) == TheForecast(Updated(CurrentForecast(old(ctx.log), id).f, p, caller))
    ensures outcome.Done? && !ConsumesOnly(CurrentForecast(old(ctx.log), id).f, p, caller) ==>
              HasTransition(ctx.log, UpdateNote(CurrentForecast(ctx.log, id).f))
    ensures outcome.Done? && caller.ByIndicator? ==> HasTransition(ctx.log, Marker(caller.i, id))
    ensures outcome.Done? && CurrentForecast(ctx.log, id) != CurrentForecast(old(ctx.log), id) ==>
      var u, v := CurrentForecast(old(ctx.log), id).f, CurrentForecast(ctx.log, id).f;
      && v.probability == p && v.version == u.version + 1
      && v.status == if u.status == UPDATE_REQUIRED && !caller.ByIndicator? then OPEN else u.status
  {
    if !IsLive(ctx.log, id) || !reasoned { return Refused; }
    if caller.ByHuman? && caller.indicator != Anything { return Refused; }
    if caller.ByModel? && caller.indicator != Anything { return Refused; }
    var f := CurrentForecast(ctx.log, id).f;
    var stands := -0.000000001 <= f.probability - p <= 0.000000001;
    if caller.ByModel? && caller.proposal.Exactly? && f.trail == FromProposal(caller.proposal.id) && stands {
      ctx.RecordTransition(UpdateNote(f));
      return Done;
    }
    var authorized := CheckAuthority(ctx.log, f, p, caller);
    if !authorized { return Refused; }
    if caller.ByIndicator? && stands {
      MarkIsLegal(ctx.log, caller.i, id, p);
      ctx.RecordTransition(Marker(caller.i, id));
      return Done;
    }
    if p <= 0.0 || 1.0 <= p { return Refused; }
    MoveNumber(ctx, id, p, caller);
    return Done;
  }

  // ---------------------------------------------------------------- what an update cannot do

  /** A firing is spent by its execution: the same call again is refused, whatever anyone did in between. */
  lemma SpentFiringIsRefused(log: History, later: History, id: Id, i: Id, p: real, pass: bool)
    requires HasTransition(log, Marker(i, id)) && Extends(later, log)
    ensures !UpdateAllowed(later, id, p, true, ByIndicator(i, pass))
  {
    MarkIsKept(later, log, Marker(i, id));
  }
}
