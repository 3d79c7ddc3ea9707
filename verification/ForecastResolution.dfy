/** Settling a forecast: by machine from evidence, by a human, or by withdrawal. Silence alone settles nothing. */
module ForecastResolution {
  import opened Options
  import opened EventLog
  import opened Evidence
  import opened ForecastLog
  import opened ForecastRuns
  import opened ForecastVerdicts
  import opened AnalyticContexts
  import opened ForecastUpdate
  import opened ForecastCreation

  function ResolutionScope(id: Id): Scope {
    Scope({id}, {}, {ForecastCoverage(id), LateMatch(id)})
  }

  /** What a refresh may find: a degraded basis, or a horizon that has passed. */
  predicate IsFinding(t: Transition) {
    t.kind == BASIS_DEGRADED || t.kind == REACHED(HORIZON_PASSED)
  }

  /** No finding was recorded since `earlier`. */
  predicate NoFindings(later: History, earlier: History) {
    later == earlier
    || (later.Append? && !(later.record.Moved? && IsFinding(later.record.transition))
      && NoFindings(later.prev, earlier))
  }

  lemma {:induction false} NoFindingsTrans(c: History, b: History, a: History)
    requires NoFindings(c, b) && NoFindings(b, a)
    ensures NoFindings(c, a)
    decreases c
  {
    if c != b { NoFindingsTrans(c.prev, b, a); }
  }

  lemma {:induction false} FindingsKept(later: History, earlier: History, t: Transition)
    requires NoFindings(later, earlier) && IsFinding(t)
    ensures HasTransition(later, t) <==> HasTransition(earlier, t)
  {
    if later != earlier { FindingsKept(later.prev, earlier, t); }
  }

  // ---------------------------------------------------------------- appending a settlement

  function Verdict(f: Forecast, status: Status, evidence: seq<Id>): Forecast {
    f.(version := f.version + 1, cause := MachineResolution, status := status, resolver := Service,
       resolution := evidence)
  }

  function HumanVerdict(f: Forecast, status: Status, evidence: seq<Id>, actor: Id): Forecast {
    f.(version := f.version + 1, cause := HumanResolution, status := status, resolver := Human(actor),
       resolution := evidence)
  }

  function Withdrawn(f: Forecast, actor: Id): Forecast {
    f.(version := f.version + 1, cause := Withdrawal, status := WITHDRAWN, resolver := Human(actor))
  }

  predicate Settles(c: Cause) {
    c.MachineResolution? || c.HumanResolution? || c.Withdrawal?
  }

  function GapScope(id: Id): Scope {
    Scope({}, {}, {ForecastCoverage(id), LateMatch(id)})
  }

  /** Settling the question closes both of its review items. */
  method CloseGaps(ctx: AnalyticContext, id: Id)
    requires ctx.Valid()
    modifies ctx
    ensures ctx.Valid() && old(ctx.clock) <= ctx.clock
    ensures Confined(ctx.log, old(ctx.log), GapScope(id)) && NoFindings(ctx.log, old(ctx.log))
    ensures !ReviewOpen(ctx.log, ForecastCoverage(id)) && !ReviewOpen(ctx.log, LateMatch(id))
  {
    ghost var before := ctx.log;
    ctx.CloseReviewItem(ForecastCoverage(id));
    assert Confined(ctx.log, before, GapScope(id)) && NoFindings(ctx.log, before);
    ctx.CloseReviewItem(LateMatch(id));
  }

  /** The terminal version, then its transition, then the review items it makes moot. */
  method Settle(ctx: AnalyticContext, v: Forecast, key: Key)
    requires ctx.Valid() && IsLive(ctx.log, v.id) && Settles(v.cause) && Terminal(v.status)
    requires LegalMove(ctx.log, ctx.clock, CurrentForecast(ctx.log, v.id).f, v)
    modifies ctx
    ensures ctx.Valid() && old(ctx.clock) <= ctx.clock
    ensures Confined(ctx.log, old(ctx.log), ResolutionScope(v.id)) && NoFindings(ctx.log, old(ctx.log))
    ensures CurrentForecast(ctx.log, v.id) == TheForecast(v)
    ensures !ReviewOpen(ctx.log, ForecastCoverage(v.id)) && !ReviewOpen(ctx.log, LateMatch(v.id))
    ensures HasTransition(ctx.log, Transition(OnForecast(v.id), REACHED(v.status), key))
  {
    ghost var before, scope := ctx.log, ResolutionScope(v.id);
    ghost var asked := ctx.clock;
    var now := ctx.Now();
    ctx.Add(now, ForecastVersion(v));
    assert Confined(ctx.log, before, scope);
    ctx.RecordTransition(Transition(OnForecast(v.id), REACHED(v.status), key));
    assert Confined(ctx.log, before, scope) && NoFindings(ctx.log, before);
    ghost var settled := ctx.log;
    CloseGaps(ctx, v.id);
    ConfinedTrans(ctx.log, settled, before, GapScope(v.id), scope);
    NoFindingsTrans(ctx.log, settled, before);
    ConfinedExtends(ctx.log, settled, GapScope(v.id));
    OtherForecast(ctx.log, settled, GapScope(v.id), v.id);
    MarkIsKept(ctx.log, settled, Transition(OnForecast(v.id), REACHED(v.status), key));
  }

  // ---------------------------------------------------------------- human acts

  datatype Verdicts = TRUE | FALSE | VOID

  function StatusOf(v: Verdicts): Status {
    match v
    case TRUE => RESOLVED_TRUE
    case FALSE => RESOLVED_FALSE
    case VOID => RESOLVED_VOID
  }

  method ResolveForecastHuman(ctx: AnalyticContext, id: Id, verdict: Verdicts, evidence: seq<Id>, noted: bool,
        actor: Id, human: bool)
    returns (outcome: Outcome)
    requires ctx.Valid()
    modifies ctx
    ensures ctx.Valid() && old(ctx.clock) <= ctx.clock
    ensures outcome.Done? <==> human && noted && IsLive(old(ctx.log), id) && (verdict != VOID ==> evidence != [])
    ensures outcome.Refused? ==> ctx.log == old(ctx.log)
    ensures Confined(ctx.log, old(ctx.log), ResolutionScope(id))
    ensures outcome.Done? ==>
      && CurrentForecast(ctx.log, id) ==
           TheForecast(HumanVerdict(CurrentForecast(old(ctx.log), id).f, StatusOf(verdict), evidence, actor))
      && CurrentForecast(ctx.log, id).f.status ==
           (match verdict case TRUE => RESOLVED_TRUE case FALSE => RESOLVED_FALSE case VOID => RESOLVED_VOID)
      && !ReviewOpen(ctx.log, ForecastCoverage(id)) && !ReviewOpen(ctx.log, LateMatch(id))
      && HasTransition(ctx.log, Transition(OnForecast(id), REACHED(StatusOf(verdict)), ActorKey(actor)))
  {
    if !human || !IsLive(ctx.log, id) || (verdict != VOID && evidence == []) || !noted { return Refused; }
    var v := HumanVerdict(CurrentForecast(ctx.log, id).f, StatusOf(verdict), evidence, actor);
    StandsAtAProbability(ctx.log, id);
    Settle(ctx, v, ActorKey(actor));
    return Done;
  }

  method WithdrawForecast(ctx: AnalyticContext, id: Id, actor: Id, human: bool) returns (outcome: Outcome)
    requires ctx.Valid()
    modifies ctx
    ensures ctx.Valid() && old(ctx.clock) <= ctx.clock
    ensures outcome.Done? <==> human && IsLive(old(ctx.log), id)
    ensures outcome.Refused? ==> ctx.log == old(ctx.log)
    ensures Confined(ctx.log, old(ctx.log), ResolutionScope(id))
    ensures outcome.Done? ==>
      && CurrentForecast(ctx.log, id) == TheForecast(Withdrawn(CurrentForecast(old(ctx.log), id).f, actor))
      && !ReviewOpen(ctx.log, ForecastCoverage(id)) && !ReviewOpen(ctx.log, LateMatch(id))
      && HasTransition(ctx.log, Transition(OnForecast(id), REACHED(WITHDRAWN), ActorKey(actor)))
  {
    if !human || !IsLive(ctx.log, id) { return Refused; }
    var v := Withdrawn(CurrentForecast(ctx.log, id).f, actor);
    StandsAtAProbability(ctx.log, id);
    Settle(ctx, v, ActorKey(actor));
    return Done;
  }

  // ---------------------------------------------------------------- machine resolution

  /** Nothing is left for a machine to do about the forecast at clock reading `t`. */
  predicate Waits(log: History, f: Forecast, t: Time) {
    var facts := Facts(log);
    if t <= f.horizon then !Matched(facts, f)
    else if f.rule.ClaimPredicate? && ClaimMatches(facts, f.rule) then
      !EvidenceBy(facts, f.rule.claim, f.horizon) && ReviewKnown(log, LateMatch(f.id))
    else
      !Matched(facts, f) && !DiffersSince(facts, f) && !AbsenceCovered(facts, f)
        && ReviewKnown(log, ForecastCoverage(f.id))
  }

  predicate ResolutionSettled(log: History, id: Id, t: Time) {
    && CurrentForecast(log, id).TheForecast?
    && var f := CurrentForecast(log, id).f;
       Terminal(f.status) || f.rule.HumanJudgment? || ReviewOpen(log, LateMatch(id)) || Waits(log, f, t)
  }

  /** A machine leaves a forecast alone or settles it TRUE or FALSE, changing nothing else about it. */
  predicate Decided(f: Forecast, g: Forecast) {
    g == f || (g == Verdict(f, g.status, g.resolution) && (g.status == RESOLVED_TRUE || g.status == RESOLVED_FALSE))
  }

  predicate DecidedIn(before: History, after: History, id: Id) {
    && CurrentForecast(before, id).TheForecast? && CurrentForecast(after, id).TheForecast?
    && Decided(CurrentForecast(before, id).f, CurrentForecast(after, id).f)
  }

  /** A forecast that a machine may look at. */
  predicate Undecided(log: History, id: Id) {
    IsLive(log, id) && !CurrentForecast(log, id).f.rule.HumanJudgment? && !ReviewOpen(log, LateMatch(id))
  }

  /** Where a machine leaves a forecast at clock reading `t`, by the grounds it finds. */
  predicate DecidedOn(facts: seq<Fact>, f: Forecast, t: Time, status: Status) {
    status == if GroundsForTrue(facts, f, t <= f.horizon) then RESOLVED_TRUE
              else if f.horizon < t && GroundsForFalse(facts, f) then RESOLVED_FALSE
              else f.status
  }

  lemma VerdictIsLegal(log: History, time: Time, f: Forecast, status: Status, evidence: seq<Id>)
    requires Reachable(log) && Admits(log, time) && CurrentForecast(log, f.id) == TheForecast(f) && Undecided(log, f.id)
    requires evidence != [] && (status == RESOLVED_TRUE || status == RESOLVED_FALSE)
    requires CitesGrounds(Facts(log), f, status, evidence)
    requires status == RESOLVED_TRUE ==> GroundsForTrue(Facts(log), f, Admits(log, f.horizon))
    requires status == RESOLVED_FALSE ==> f.horizon < time && GroundsForFalse(Facts(log), f)
    ensures LegalMove(log, time, f, Verdict(f, status, evidence))
  {
    StandsAtAProbability(log, f.id);
  }

  /** The machine's verdict, given on grounds that stand on the log and that it cites. */
  method Resolve(ctx: AnalyticContext, id: Id, status: Status, evidence: seq<Id>)
    requires ctx.Valid() && Undecided(ctx.log, id)
    requires evidence != [] && (status == RESOLVED_TRUE || status == RESOLVED_FALSE)
    requires CitesGrounds(Facts(ctx.log), CurrentForecast(ctx.log, id).f, status, evidence)
    requires var f := CurrentForecast(ctx.log, id).f;
             && (status == RESOLVED_TRUE ==> GroundsForTrue(Facts(ctx.log), f, Admits(ctx.log, f.horizon)))
             && (status == RESOLVED_FALSE ==> f.horizon < ctx.clock && GroundsForFalse(Facts(ctx.log), f))
    modifies ctx
    ensures ctx.Valid() && old(ctx.clock) <= ctx.clock
    ensures Confined(ctx.log, old(ctx.log), ResolutionScope(id)) && NoFindings(ctx.log, old(ctx.log))
    ensures CurrentForecast(ctx.log, id) == TheForecast(Verdict(CurrentForecast(old(ctx.log), id).f, status, evidence))
    ensures HasTransition(ctx.log, Transition(OnForecast(id), REACHED(status), OnceKey(OnForecast(id))))
    ensures !ReviewOpen(ctx.log, ForecastCoverage(id)) && !ReviewOpen(ctx.log, LateMatch(id))
  {
    var f := CurrentForecast(ctx.log, id).f;
    VerdictIsLegal(ctx.log, ctx.clock, f, status, evidence);
    Settle(ctx, Verdict(f, status, evidence), OnceKey(OnForecast(id)));
  }

  method FalseByAbsenceOrWait(ctx: AnalyticContext, id: Id)
    requires ctx.Valid() && Undecided(ctx.log, id) && CurrentForecast(ctx.log, id).f.horizon < ctx.clock
    requires var f := CurrentForecast(ctx.log, id).f; !Matched(Facts(ctx.log), f) && !DiffersSince(Facts(ctx.log), f)
    modifies ctx
    ensures ctx.Valid() && old(ctx.clock) <= ctx.clock
    ensures Confined(ctx.log, old(ctx.log), ResolutionScope(id)) && NoFindings(ctx.log, old(ctx.log))
    ensures ResolutionSettled(ctx.log, id, old(ctx.clock)) && DecidedIn(old(ctx.log), ctx.log, id)
    ensures ResolutionSettled(old(ctx.log), id, old(ctx.clock)) ==> ctx.log == old(ctx.log)
    ensures DecidedOn(Facts(old(ctx.log)), CurrentForecast(old(ctx.log), id).f, old(ctx.clock),
                      CurrentForecast(ctx.log, id).f.status)
  {
    var f := CurrentForecast(ctx.log, id).f;
    var satisfied, refs :=
      AbsenceCoverage(Facts(ctx.log), f.rule.minimum, f.rule.sources, f.horizon, Exactly(f.rule.subject));
    if satisfied {
      Resolve(ctx, id, RESOLVED_FALSE, refs);
      return;
    }
    ctx.OpenReviewItem(ForecastCoverage(id));
  }

  method TryClaim(ctx: AnalyticContext, id: Id)
    requires ctx.Valid() && Undecided(ctx.log, id) && CurrentForecast(ctx.log, id).f.rule.ClaimPredicate?
    modifies ctx
    ensures ctx.Valid() && old(ctx.clock) <= ctx.clock
    ensures Confined(ctx.log, old(ctx.log), ResolutionScope(id)) && NoFindings(ctx.log, old(ctx.log))
    ensures ResolutionSettled(ctx.log, id, old(ctx.clock)) && DecidedIn(old(ctx.log), ctx.log, id)
    ensures ResolutionSettled(old(ctx.log), id, old(ctx.clock)) ==> ctx.log == old(ctx.log)
    ensures DecidedOn(Facts(old(ctx.log)), CurrentForecast(old(ctx.log), id).f, old(ctx.clock),
                      CurrentForecast(ctx.log, id).f.status)
  {
    var f, facts := CurrentForecast(ctx.log, id).f, Facts(ctx.log);
    var passed := f.horizon < ctx.clock;
    var claim := f.rule.claim;
    var latest := ClaimEvidenceTime(facts, ObservationsOf(facts, claim));
    if ClaimMatches(facts, f.rule) {
      if !passed || (latest.At? && latest.time <= f.horizon) {
        Resolve(ctx, id, RESOLVED_TRUE, [claim]);
      } else {
        // the value stands, but only in evidence newer than the horizon: a human must judge
        ctx.OpenReviewItem(LateMatch(id));
      }
      return;
    }
    if !passed { return; }
    if ClaimDiffers(facts, f.rule) && latest.At? && f.horizon <= latest.time {
      Resolve(ctx, id, RESOLVED_FALSE, [claim]);
      return;
    }
    FalseByAbsenceOrWait(ctx, id);
  }

  method FirstMatchingEvent(facts: seq<Fact>, f: Forecast) returns (found: Option<Fact>)
    requires f.rule.EventOccurred?
    ensures found.Some? <==> Matched(facts, f)
    ensures found.Some? ==> found.value in facts && EventMatches(found.value, f.rule, f.horizon)
  {
    for i := 0 to |facts|
      invariant forall k :: 0 <= k < i ==> !EventMatches(facts[k], f.rule, f.horizon)
    {
      if EventMatches(facts[i], f.rule, f.horizon) { return Some(facts[i]); }
    }
    return None;
  }

  method TryEvent(ctx: AnalyticContext, id: Id)
    requires ctx.Valid() && Undecided(ctx.log, id) && CurrentForecast(ctx.log, id).f.rule.EventOccurred?
    modifies ctx
    ensures ctx.Valid() && old(ctx.clock) <= ctx.clock
    ensures Confined(ctx.log, old(ctx.log), ResolutionScope(id)) && NoFindings(ctx.log, old(ctx.log))
    ensures ResolutionSettled(ctx.log, id, old(ctx.clock)) && DecidedIn(old(ctx.log), ctx.log, id)
    ensures ResolutionSettled(old(ctx.log), id, old(ctx.clock)) ==> ctx.log == old(ctx.log)
    ensures DecidedOn(Facts(old(ctx.log)), CurrentForecast(old(ctx.log), id).f, old(ctx.clock),
                      CurrentForecast(ctx.log, id).f.status)
  {
    var f := CurrentForecast(ctx.log, id).f;
    var found := FirstMatchingEvent(Facts(ctx.log), f);
    if found.Some? {
      Resolve(ctx, id, RESOLVED_TRUE, [found.value.activity]);
    } else if f.horizon < ctx.clock {
      FalseByAbsenceOrWait(ctx, id);
    }
  }

  /**
   * Settles the forecast if the evidence on the log allows it at the clock reading `at`, and otherwise leaves it
   * waiting with its gap on record. A second attempt at the same reading appends nothing.
   */
  method TryMachineResolution(ctx: AnalyticContext, id: Id) returns (outcome: Outcome, at: Time)
    requires ctx.Valid()
    modifies ctx
    ensures ctx.Valid() && old(ctx.clock) <= at <= ctx.clock
    ensures outcome.Done? <==> CurrentForecast(old(ctx.log), id).TheForecast?
    ensures Confined(ctx.log, old(ctx.log), ResolutionScope(id)) && NoFindings(ctx.log, old(ctx.log))
    ensures outcome.Done? ==> ResolutionSettled(ctx.log, id, at) && DecidedIn(old(ctx.log), ctx.log, id)
    ensures ResolutionSettled(old(ctx.log), id, at) ==> ctx.log == old(ctx.log)
    ensures outcome.Refused? ==> ctx.log == old(ctx.log)
    ensures outcome.Done? && Undecided(old(ctx.log), id) ==>
      var f, facts := CurrentForecast(old(ctx.log), id).f, Facts(old(ctx.log));
      CurrentForecast(ctx.log, id).f.status ==
        if TrueIsEarned(facts, f, at <= f.horizon) then RESOLVED_TRUE
        else if f.horizon < at && FalseIsEarned(facts, f) then RESOLVED_FALSE
        else f.status
  {
    at := ctx.clock;
    if CurrentForecast(ctx.log, id).NoForecast? { return Refused, at; }
    if !Undecided(ctx.log, id) { return Done, at; }
    at := ctx.Now();
    GroundsAreEarned(Facts(ctx.log), CurrentForecast(ctx.log, id).f, at <= CurrentForecast(ctx.log, id).f.horizon);
    if CurrentForecast(ctx.log, id).f.rule.ClaimPredicate? {
      TryClaim(ctx, id);
    } else {
      TryEvent(ctx, id);
    }
    return Done, at;
  }
}
