/** Re-deriving a forecast's standing from live evidence: a changed basis asks for review and never moves the number. */
module ForecastRefresh {
  import opened EventLog
  import opened Evidence
  import opened ForecastLog
  import opened ForecastRuns
  import opened AnalyticContexts
  import opened ForecastUpdate
  import opened ForecastCreation
  import opened ForecastResolution

  /** The version a refresh appends, given the recomputed basis and whether the horizon has passed. */
  function Refreshed(f: Forecast, b: Basis, passed: bool): Forecast {
    f.(version := f.version + 1, cause := Refresh, basis := if AnyChange(BasisChanged(f.basis, b)) then b else f.basis,
       status := StatusAfterRefresh(f.status, BasisChanged(f.basis, b), passed))
  }

  /** A refresh has nothing to write: same basis, and no status that the evidence or the clock would change. */
  predicate Unmoved(f: Forecast, b: Basis, passed: bool) {
    !AnyChange(BasisChanged(f.basis, b)) && StatusAfterRefresh(f.status, BasisChanged(f.basis, b), passed) == f.status
  }

  ghost predicate BasisOf(log: History, f: Forecast, b: Basis) {
    IsBasis(Facts(log), f.basis.supporting, f.basis.contradicting, b)
  }

  /** The basis on record is what the evidence gives, and the status what basis and clock give. */
  ghost predicate Steady(log: History, f: Forecast, t: Time) {
    exists b :: BasisOf(log, f, b) && Unmoved(f, b, f.horizon < t)
  }

  /** At clock reading `t` a refresh would append nothing. */
  ghost predicate RefreshSettled(log: History, id: Id, t: Time) {
    && CurrentForecast(log, id).TheForecast?
    && var f := CurrentForecast(log, id).f;
       Terminal(f.status)
       || (Steady(log, f, t) && (f.horizon < t ==> ResolutionSettled(log, id, t)))
  }

  function Step(f: Forecast, b: Basis, t: Time): Forecast {
    if Unmoved(f, b, f.horizon < t) then f else Refreshed(f, b, f.horizon < t)
  }

  /** What a refresh may make of `f` at clock reading `t`. */
  ghost predicate AfterRefresh(log: History, f: Forecast, t: Time, g: Forecast) {
    exists b :: BasisOf(log, f, b) &&
      if f.horizon < t then Decided(Step(f, b, t), g) else g == Step(f, b, t)
  }

  /** The status of a live forecast after a refresh at clock reading `t`. */
  ghost predicate StatusReads(f: Forecast, b: Basis, t: Time, status: Status) {
    status == if f.horizon < t then HORIZON_PASSED
              else if f.status == OPEN
                      && (f.basis.degraded != b.degraded || !SameClaims(f.basis.contradicting, b.contradicting))
              then UPDATE_REQUIRED
              else f.status
  }

  /** The forecast in line with the evidence: as it was if nothing reads differently, else its next version. */
  ghost predicate InLine(f: Forecast, b: Basis, t: Time, g: Forecast) {
    && StatusReads(f, b, t, g.status)
    && g == if SameReading(f.basis, b) && g.status == f.status then f
            else f.(version := f.version + 1, cause := Refresh, status := g.status,
                    basis := if SameReading(f.basis, b) then f.basis else b)
  }

  lemma StepIsInLine(f: Forecast, b: Basis, t: Time)
    requires !Terminal(f.status)
    ensures InLine(f, b, t, Step(f, b, t))
  {
    NoChangeMeans(f.basis, b);
  }

  lemma RefreshIsLegal(log: History, time: Time, f: Forecast, b: Basis, passed: bool)
    requires Reachable(log) && Admits(log, time) && CurrentForecast(log, f.id) == TheForecast(f) && !Terminal(f.status)
    requires BasisOf(log, f, b) && (passed ==> f.horizon < time)
    ensures Legal(log, time, ForecastVersion(Refreshed(f, b, passed)))
  {
    StandsAtAProbability(log, f.id);
    assert LegalMove(log, time, f, Refreshed(f, b, passed));
  }

  /** Recomputing the basis of what a refresh left gives that basis again, and leaves its status alone. */
  lemma StepIsSteady(log: History, later: History, f: Forecast, b: Basis, t: Time)
    requires BasisOf(log, f, b) && Facts(later) == Facts(log)
    ensures Steady(later, Step(f, b, t), t)
  {
    BasisOfItsOwnClaims(Facts(log), f.basis.supporting, f.basis.contradicting, b);
    assert BasisOf(later, Step(f, b, t), b);
    StepIsUnmoved(f, b, t);
  }

  lemma StepIsUnmoved(f: Forecast, b: Basis, t: Time)
    ensures Unmoved(Step(f, b, t), b, f.horizon < t)
  {
  }

  lemma StaysSteady(log: History, later: History, h: Forecast, g: Forecast, t: Time)
    requires Steady(log, h, t) && Facts(later) == Facts(log) && Decided(h, g)
    ensures Terminal(g.status) || Steady(later, g, t)
  {
    if g == h {
      var b :| BasisOf(log, h, b) && Unmoved(h, b, h.horizon < t);
      assert BasisOf(later, g, b);
    }
  }

  /** The refreshed version and the findings it records. */
  method AppendRefresh(ctx: AnalyticContext, id: Id, b: Basis, passed: bool)
    requires ctx.Valid() && IsLive(ctx.log, id) && BasisOf(ctx.log, CurrentForecast(ctx.log, id).f, b)
    requires passed ==> CurrentForecast(ctx.log, id).f.horizon < ctx.clock
    modifies ctx
    ensures ctx.Valid() && old(ctx.clock) <= ctx.clock
    ensures Confined(ctx.log, old(ctx.log), Scope({id}, {}, {}))
    ensures CurrentForecast(ctx.log, id) == TheForecast(Refreshed(CurrentForecast(old(ctx.log), id).f, b, passed))
    ensures FindingsExactly(ctx.log, old(ctx.log),
                            Owed(CurrentForecast(old(ctx.log), id).f, b, CurrentForecast(ctx.log, id).f.status))
  {
    ghost var before, scope := ctx.log, Scope({id}, {}, {});
    var f := CurrentForecast(ctx.log, id).f;
    var g := Refreshed(f, b, passed);
    var now := ctx.Now();
    RefreshIsLegal(ctx.log, now, f, b, passed);
    ctx.Add(now, ForecastVersion(g));
    assert Confined(ctx.log, before, scope);
    ghost var appended := ctx.log;
    NoteFindings(ctx, f, g, b);
    ConfinedTrans(ctx.log, appended, before, NOTHING_BUT_TRANSITIONS, scope);
    OtherForecast(ctx.log, appended, NOTHING_BUT_TRANSITIONS, id);
  }

  const NOTHING_BUT_TRANSITIONS := Scope({}, {}, {})

  /** What a refresh of `f` to `status` over basis `b` has to record. */
  function Owed(f: Forecast, b: Basis, status: Status): set<Transition> {
    (if BasisChanged(f.basis, b).degradation || BasisChanged(f.basis, b).contradiction then {Degraded(f.id, b)} else {})
    + (if status == HORIZON_PASSED && f.status != HORIZON_PASSED then {HorizonPassed(f.id)} else {})
  }

  /** The findings on record are those that were, and these. */
  ghost predicate FindingsExactly(later: History, earlier: History, these: set<Transition>) {
    forall t :: IsFinding(t) ==> (HasTransition(later, t) <==> HasTransition(earlier, t) || t in these)
  }

  /** The transitions that say why the version was appended. */
  method NoteFindings(ctx: AnalyticContext, f: Forecast, g: Forecast, b: Basis)
    requires ctx.Valid()
    modifies ctx
    ensures ctx.Valid() && old(ctx.clock) <= ctx.clock
    ensures Confined(ctx.log, old(ctx.log), NOTHING_BUT_TRANSITIONS)
    ensures FindingsExactly(ctx.log, old(ctx.log), Owed(f, b, g.status))
  {
    ghost var before, owed := ctx.log, Owed(f, b, g.status);
    if BasisChanged(f.basis, b).degradation || BasisChanged(f.basis, b).contradiction {
      ctx.RecordTransition(Degraded(f.id, b));
    }
    ghost var noted := ctx.log;
    assert FindingsExactly(noted, before, owed - {HorizonPassed(f.id)});
    if g.status == HORIZON_PASSED && f.status != HORIZON_PASSED {
      ctx.RecordTransition(HorizonPassed(f.id));
      assert HorizonPassed(f.id) in owed;
      assert FindingsExactly(ctx.log, noted, {HorizonPassed(f.id)});
    } else {
      assert owed - {HorizonPassed(f.id)} == owed;
    }
  }

  function Degraded(id: Id, b: Basis): Transition {
    Transition(OnForecast(id), BASIS_DEGRADED, DegradedKey(id, (set c | c in b.contradicting), b.degraded))
  }

  function HorizonPassed(id: Id): Transition {
    Transition(OnForecast(id), REACHED(HORIZON_PASSED), OnceKey(OnForecast(id)))
  }

  /** What one refresh of `f` at clock reading `t` makes of it, and the findings it records. */
  ghost predicate RefreshedTo(before: History, after: History, f: Forecast, t: Time, g: Forecast, b: Basis) {
    && BasisOf(before, f, b)
    && (if f.horizon < t then Decided(Step(f, b, t), g) else g == Step(f, b, t))
    && FindingsExactly(after, before, if Unmoved(f, b, f.horizon < t) then {} else Owed(f, b, Step(f, b, t).status))
  }

  /** One call of `refresh_forecast` that ran to its end. */
  ghost predicate RefreshStep(before: History, after: History, id: Id, t: Time) {
    && Confined(after, before, ResolutionScope(id))
    && CurrentForecast(before, id).TheForecast? && CurrentForecast(after, id).TheForecast?
    && (var f := CurrentForecast(before, id).f;
        if Terminal(f.status) then after == before
        else exists b :: RefreshedTo(before, after, f, t, CurrentForecast(after, id).f, b))
  }

  /**
   * Brings the forecast in line with the evidence and the clock reading `at`, and attempts resolution once the
   * horizon has passed. A second refresh at the same evidence and reading appends nothing.
   */
  method RefreshForecast(ctx: AnalyticContext, id: Id) returns (outcome: Outcome, at: Time)
    requires ctx.Valid()
    modifies ctx
    ensures ctx.Valid() && old(ctx.clock) <= at <= ctx.clock
    ensures outcome.Done? <==> CurrentForecast(old(ctx.log), id).TheForecast?
    ensures outcome.Refused? ==> ctx.log == old(ctx.log)
    ensures Confined(ctx.log, old(ctx.log), ResolutionScope(id))
    ensures outcome.Done? ==> RefreshSettled(ctx.log, id, at) && RefreshStep(old(ctx.log), ctx.log, id, at)
    ensures RefreshSettled(old(ctx.log), id, at) ==> ctx.log == old(ctx.log)
    ensures IsLive(old(ctx.log), id) ==>
      && CurrentForecast(ctx.log, id).TheForecast?
      && AfterRefresh(old(ctx.log), CurrentForecast(old(ctx.log), id).f, at, CurrentForecast(ctx.log, id).f)
    ensures IsLive(old(ctx.log), id) ==>
      var f, g := CurrentForecast(old(ctx.log), id).f, CurrentForecast(ctx.log, id).f;
      exists b, h :: BasisOf(old(ctx.log), f, b) && InLine(f, b, at, h)
                     && if at <= f.horizon then g == h else Decided(h, g)
  {
    at := ctx.clock;
    if CurrentForecast(ctx.log, id).NoForecast? { return Refused, at; }
    var f := CurrentForecast(ctx.log, id).f;
    if Terminal(f.status) { return Done, at; }
    var b := ComputeBasis(Facts(ctx.log), f.basis.supporting, f.basis.contradicting);
    at := ctx.Now();
    RefreshLive(ctx, id, b);
    forall c { StepIsInLine(f, c, at); }
    return Done, at;
  }

  /** The refreshed version and its findings, if the evidence or the clock calls for one. */
  method AppendIfMoved(ctx: AnalyticContext, id: Id, b: Basis)
    requires ctx.Valid() && IsLive(ctx.log, id) && BasisOf(ctx.log, CurrentForecast(ctx.log, id).f, b)
    modifies ctx
    ensures ctx.Valid() && old(ctx.clock) <= ctx.clock
    ensures Confined(ctx.log, old(ctx.log), ResolutionScope(id)) && Facts(ctx.log) == Facts(old(ctx.log))
    ensures var f, t := CurrentForecast(old(ctx.log), id).f, old(ctx.clock);
            && CurrentForecast(ctx.log, id) == TheForecast(Step(f, b, t))
            && RefreshedTo(old(ctx.log), ctx.log, f, t, Step(f, b, t), b)
            && (Unmoved(f, b, f.horizon < t) ==> ctx.log == old(ctx.log))
  {
    ghost var before := ctx.log;
    var f := CurrentForecast(ctx.log, id).f;
    var passed := f.horizon < ctx.clock;
    if !Unmoved(f, b, passed) {
      AppendRefresh(ctx, id, b, passed);
      ConfinedExtends(ctx.log, before, Scope({id}, {}, {}));
      ConfinedTrans(ctx.log, before, before, Scope({id}, {}, {}), ResolutionScope(id));
    }
  }

  /** Resolution after the step adds no finding: the call as a whole is one refresh. */
  lemma ResolvingIsPartOfTheStep(before: History, stepped: History, after: History, id: Id, t: Time, b: Basis)
    requires IsLive(before, id) && CurrentForecast(after, id).TheForecast?
    requires Confined(stepped, before, ResolutionScope(id)) && Confined(after, stepped, ResolutionScope(id))
    requires NoFindings(after, stepped)
    requires var f := CurrentForecast(before, id).f;
             && RefreshedTo(before, stepped, f, t, Step(f, b, t), b)
             && (if f.horizon < t then Decided(Step(f, b, t), CurrentForecast(after, id).f)
                 else CurrentForecast(after, id).f == Step(f, b, t))
    ensures RefreshStep(before, after, id, t)
  {
    ConfinedTrans(after, stepped, before, ResolutionScope(id), ResolutionScope(id));
    forall x | IsFinding(x)
      ensures HasTransition(after, x) <==> HasTransition(stepped, x) { FindingsKept(after, stepped, x); }
    assert RefreshedTo(before, after, CurrentForecast(before, id).f, t, CurrentForecast(after, id).f, b);
  }

  method RefreshLive(ctx: AnalyticContext, id: Id, b: Basis)
    requires ctx.Valid() && IsLive(ctx.log, id) && BasisOf(ctx.log, CurrentForecast(ctx.log, id).f, b)
    modifies ctx
    ensures ctx.Valid() && old(ctx.clock) <= ctx.clock
    ensures RefreshSettled(ctx.log, id, old(ctx.clock))
    ensures RefreshSettled(old(ctx.log), id, old(ctx.clock)) ==> ctx.log == old(ctx.log)
    ensures RefreshStep(old(ctx.log), ctx.log, id, old(ctx.clock))
  {
    ghost var before, start := ctx.log, ctx.clock;
    var f := CurrentForecast(ctx.log, id).f;
    var passed := f.horizon < ctx.clock;
    AppendIfMoved(ctx, id, b);
    ghost var stepped, h := ctx.log, Step(f, b, start);
    StepIsSteady(before, stepped, f, b, start);
    if passed {
      var _, at := TryMachineResolution(ctx, id);
      ConfinedExtends(ctx.log, stepped, ResolutionScope(id));
      StaysSteady(stepped, ctx.log, h, CurrentForecast(ctx.log, id).f, start);
    }
    ResolvingIsPartOfTheStep(before, stepped, ctx.log, id, start, b);
    if RefreshSettled(before, id, start) { SettledIsUnmoved(before, id, start, b); }
  }

  lemma SettledIsUnmoved(log: History, id: Id, t: Time, b: Basis)
    requires RefreshSettled(log, id, t) && IsLive(log, id) && BasisOf(log, CurrentForecast(log, id).f, b)
    ensures Unmoved(CurrentForecast(log, id).f, b, CurrentForecast(log, id).f.horizon < t)
  {
    var f := CurrentForecast(log, id).f;
    var c :| BasisOf(log, f, c) && Unmoved(f, c, f.horizon < t);
    BasisIsUnique(Facts(log), f.basis.supporting, f.basis.contradicting, b, c);
  }

  // ---------------------------------------------------------------- what a refresh can and cannot do

  /** A refresh moves no number; past the horizon it leaves the question passed or settled, never open. */
  lemma RefreshKeepsTheNumber(log: History, f: Forecast, t: Time, g: Forecast)
    requires AfterRefresh(log, f, t, g) && !Terminal(f.status)
    ensures g.probability == f.probability && g.horizon == f.horizon && g.rule == f.rule
    ensures f.horizon < t ==> g.status == HORIZON_PASSED || (Terminal(g.status) && g.resolver == Service)
    ensures f.horizon >= t && f.status == UPDATE_REQUIRED ==> g.status == UPDATE_REQUIRED
  {
  }

  // ---------------------------------------------------------------- what an interrupted refresh leaves undone

  /**
   * Any number of refreshes at any clock readings. Before each of them the log may grow by anything that is not part
   * of a refresh: evidence, and whatever the other engines append.
   */
  ghost predicate Refreshes(logs: seq<History>, grown: seq<History>, readings: seq<Time>, id: Id) {
    && |logs| == |readings| + 1 && |grown| == |readings|
    && forall i :: 0 <= i < |readings| ==> RefreshAfter(logs, grown, readings, id, i)
  }

  ghost predicate RefreshAfter(logs: seq<History>, grown: seq<History>, readings: seq<Time>, id: Id, i: nat)
    requires i < |readings| == |grown| && |logs| == |readings| + 1
  {
    NoFindings(grown[i], logs[i]) && RefreshStep(grown[i], logs[i + 1], id, readings[i])
  }

  /** A refresh of this log at clock reading `t` has this to record. */
  ghost predicate CallsFor(log: History, id: Id, t: Time, finding: Transition) {
    && CurrentForecast(log, id).TheForecast?
    && var f := CurrentForecast(log, id).f;
       !Terminal(f.status) && exists b :: OwedOver(log, f, t, b, finding)
  }

  ghost predicate OwedOver(log: History, f: Forecast, t: Time, b: Basis, finding: Transition) {
    BasisOf(log, f, b) && !Unmoved(f, b, f.horizon < t) && finding in Owed(f, b, Step(f, b, t).status)
  }

  /** Some one of the first `n` refreshes has this to record. */
  ghost predicate CalledFor(grown: seq<History>, readings: seq<Time>, id: Id, finding: Transition, n: nat)
    requires n <= |grown| == |readings|
  {
    exists i :: 0 <= i < n && CallsFor(grown[i], id, readings[i], finding)
  }

  lemma StepRecordsWhatItCallsFor(before: History, after: History, id: Id, t: Time, finding: Transition)
    requires RefreshStep(before, after, id, t) && IsFinding(finding)
    ensures HasTransition(after, finding) <==> HasTransition(before, finding) || CallsFor(before, id, t, finding)
  {
    var f, g := CurrentForecast(before, id).f, CurrentForecast(after, id).f;
    if !Terminal(f.status) {
      var b :| RefreshedTo(before, after, f, t, g, b);
      forall c | OwedOver(before, f, t, c, finding) ensures c == b {
        BasisIsUnique(Facts(before), f.basis.supporting, f.basis.contradicting, b, c);
      }
      if !Unmoved(f, b, f.horizon < t) && finding in Owed(f, b, Step(f, b, t).status) {
        assert OwedOver(before, f, t, b, finding);
      }
    }
  }

  /** Whatever happens in between, a finding is on record exactly if it was, or a refresh itself called for it. */
  lemma {:induction false} FoundIffCalledFor(logs: seq<History>, grown: seq<History>, readings: seq<Time>, id: Id,
        finding: Transition, n: nat)
    requires Refreshes(logs, grown, readings, id) && IsFinding(finding) && n <= |readings|
    ensures HasTransition(logs[n], finding) <==>
              HasTransition(logs[0], finding) || CalledFor(grown, readings, id, finding, n)
  {
    if n > 0 {
      FoundIffCalledFor(logs, grown, readings, id, finding, n - 1);
      OneMoreRefresh(logs, grown, readings, id, finding, n - 1);
      OneMoreCall(grown, readings, id, finding, n - 1);
    }
  }

  lemma OneMoreRefresh(
      logs: seq<History>, grown: seq<History>, readings: seq<Time>, id: Id, finding: Transition, i: nat)
    requires Refreshes(logs, grown, readings, id) && IsFinding(finding) && i < |readings|
    ensures HasTransition(logs[i + 1], finding) <==>
              HasTransition(logs[i], finding) || CallsFor(grown[i], id, readings[i], finding)
  {
    assert RefreshAfter(logs, grown, readings, id, i);
    FindingsKept(grown[i], logs[i], finding);
    StepRecordsWhatItCallsFor(grown[i], logs[i + 1], id, readings[i], finding);
  }

  lemma OneMoreCall(grown: seq<History>, readings: seq<Time>, id: Id, finding: Transition, n: nat)
    requires n < |grown| == |readings|
    ensures CalledFor(grown, readings, id, finding, n + 1) <==>
              CalledFor(grown, readings, id, finding, n) || CallsFor(grown[n], id, readings[n], finding)
  {
  }

  /** A refresh of `f` over basis `b` stopped after its version, and perhaps after some of its transitions. */
  ghost predicate Landed(crashed: History, log: History, f: Forecast, b: Basis, passed: bool) {
    && CurrentForecast(log, f.id) == TheForecast(f) && BasisOf(log, f, b) && !Unmoved(f, b, passed)
    && Confined(crashed, log, ResolutionScope(f.id))
    && CurrentForecast(crashed, f.id) == TheForecast(Refreshed(f, b, passed))
  }

  /** The basis is that of the evidence, and a horizon that is owed as a finding has been passed already. */
  ghost predicate NothingNew(log: History, id: Id, passed: bool) {
    && CurrentForecast(log, id).TheForecast?
    && var g := CurrentForecast(log, id).f;
       && (Terminal(g.status) || exists b :: BasisOf(log, g, b) && !AnyChange(BasisChanged(g.basis, b)))
       && (passed ==> g.status == HORIZON_PASSED || Terminal(g.status))
  }

  lemma LandedIsNothingNew(crashed: History, log: History, f: Forecast, b: Basis, passed: bool)
    requires Landed(crashed, log, f, b, passed) && !Terminal(f.status)
    ensures NothingNew(crashed, f.id, passed)
  {
    ConfinedExtends(crashed, log, ResolutionScope(f.id));
    BasisOfItsOwnClaims(Facts(log), f.basis.supporting, f.basis.contradicting, b);
    assert BasisOf(crashed, Refreshed(f, b, passed), b);
  }

  lemma UnchangedBasis(log: History, f: Forecast, b: Basis)
    requires BasisOf(log, f, b) && exists c :: BasisOf(log, f, c) && !AnyChange(BasisChanged(f.basis, c))
    ensures !AnyChange(BasisChanged(f.basis, b))
  {
    var c :| BasisOf(log, f, c) && !AnyChange(BasisChanged(f.basis, c));
    BasisIsUnique(Facts(log), f.basis.supporting, f.basis.contradicting, b, c);
  }

  lemma SteadyBasisOwesNothing(f: Forecast, b: Basis, t: Time, passed: bool, finding: Transition)
    requires !AnyChange(BasisChanged(f.basis, b)) && (passed ==> f.status == HORIZON_PASSED)
    requires finding.kind == BASIS_DEGRADED || (passed && finding.kind == REACHED(HORIZON_PASSED))
    ensures Step(f, b, t).basis == f.basis && finding !in Owed(f, b, Step(f, b, t).status)
    ensures passed ==> Step(f, b, t) == f
  {
  }

  lemma StepFindsNothing(before: History, after: History, id: Id, t: Time, passed: bool, finding: Transition)
    requires RefreshStep(before, after, id, t) && NothingNew(before, id, passed)
    requires finding.kind == BASIS_DEGRADED || (passed && finding.kind == REACHED(HORIZON_PASSED))
    ensures NothingNew(after, id, passed) && (HasTransition(after, finding) <==> HasTransition(before, finding))
  {
    var f, g := CurrentForecast(before, id).f, CurrentForecast(after, id).f;
    if !Terminal(f.status) {
      ConfinedExtends(after, before, ResolutionScope(id));
      var b :| RefreshedTo(before, after, f, t, g, b);
      UnchangedBasis(before, f, b);
      SteadyBasisOwesNothing(f, b, t, passed, finding);
      assert Terminal(g.status) || BasisOf(after, g, b);
    }
  }

  /** Nothing but refreshes happens. */
  ghost predicate OnlyRefreshes(logs: seq<History>, grown: seq<History>) {
    |grown| <= |logs| && forall i :: 0 <= i < |grown| ==> grown[i] == logs[i]
  }

  lemma {:induction false} NothingIsFound(logs: seq<History>, grown: seq<History>, readings: seq<Time>, id: Id,
        passed: bool, finding: Transition, n: nat)
    requires Refreshes(logs, grown, readings, id) && OnlyRefreshes(logs, grown) && n <= |readings|
    requires NothingNew(logs[0], id, passed)
    requires finding.kind == BASIS_DEGRADED || (passed && finding.kind == REACHED(HORIZON_PASSED))
    ensures NothingNew(logs[n], id, passed) && (HasTransition(logs[n], finding) <==> HasTransition(logs[0], finding))
  {
    if n > 0 {
      NothingIsFound(logs, grown, readings, id, passed, finding, n - 1);
      assert RefreshAfter(logs, grown, readings, id, n - 1);
      StepFindsNothing(logs[n - 1], logs[n], id, readings[n - 1], passed, finding);
    }
  }

  /**
   * The version lands before the transitions that explain it, and whatever a refresh still owed when it was
   * interrupted is not made up for. A finding is on record afterwards exactly if it was at the crash or a later
   * refresh itself calls for it; as long as nothing but refreshes happens, none does, whenever they come.
   */
  lemma InterruptedRefreshIsNotCompleted(
      log: History, crashed: History, f: Forecast, b: Basis, passed: bool, logs: seq<History>, grown: seq<History>,
      readings: seq<Time>, finding: Transition)
    requires Landed(crashed, log, f, b, passed) && !Terminal(f.status)
             && finding in Owed(f, b, Refreshed(f, b, passed).status)
    requires Refreshes(logs, grown, readings, f.id) && logs[0] == crashed
    ensures HasTransition(logs[|readings|], finding) <==>
              HasTransition(crashed, finding) || CalledFor(grown, readings, f.id, finding, |readings|)
    ensures OnlyRefreshes(logs, grown) ==>
              (HasTransition(logs[|readings|], finding) <==> HasTransition(crashed, finding))
    ensures crashed.Append? && crashed.prev == log ==>
              (HasTransition(crashed, finding) <==> HasTransition(log, finding))
  {
    FoundIffCalledFor(logs, grown, readings, f.id, finding, |readings|);
    if OnlyRefreshes(logs, grown) {
      LandedIsNothingNew(crashed, log, f, b, passed);
      NothingIsFound(logs, grown, readings, f.id, passed, finding, |readings|);
    }
  }

  // ---------------------------------------------------------------- a passed horizon is lost for good

  /** The forecast stands HORIZON_PASSED, or is settled. */
  predicate IsPast(log: History, id: Id) {
    && CurrentForecast(log, id).TheForecast?
    && (CurrentForecast(log, id).f.status == HORIZON_PASSED || Terminal(CurrentForecast(log, id).f.status))
  }

  lemma {:induction false} PastStaysPast(later: History, earlier: History, id: Id)
    requires Reachable(later) && Extends(later, earlier) && IsPast(earlier, id)
    ensures IsPast(later, id)
  {
    if later != earlier {
      PastStaysPast(later.prev, earlier, id);
      if later.record.ForecastVersion? && later.record.forecast.id == id {
        EveryHistoryIsALifecycle(later.prev, id);
        CurrentIsLast(later.prev, id);
        NextVersionSucceeds(later, id);
      }
    }
  }

  lemma {:induction false} NoFindingsExtends(later: History, earlier: History)
    requires NoFindings(later, earlier)
    ensures Extends(later, earlier)
  {
    if later != earlier { NoFindingsExtends(later.prev, earlier); }
  }

  /**
   * Once the version says HORIZON_PASSED, the transition that says so is on record exactly if it was then: whatever
   * evidence arrives and whatever the engines append, no refresh calls for it again.
   */
  lemma HorizonFindingIsLostForGood(logs: seq<History>, grown: seq<History>, readings: seq<Time>, id: Id)
    requires Refreshes(logs, grown, readings, id) && IsPast(logs[0], id) && Reachable(logs[|readings|])
    ensures IsPast(logs[|readings|], id)
    ensures HasTransition(logs[|readings|], HorizonPassed(id)) <==> HasTransition(logs[0], HorizonPassed(id))
  {
    StillPast(logs, grown, readings, id, |readings|);
  }

  lemma {:induction false} StillPast(logs: seq<History>, grown: seq<History>, readings: seq<Time>, id: Id, n: nat)
    requires Refreshes(logs, grown, readings, id) && n <= |readings| && IsPast(logs[0], id) && Reachable(logs[n])
    ensures IsPast(logs[n], id)
    ensures HasTransition(logs[n], HorizonPassed(id)) <==> HasTransition(logs[0], HorizonPassed(id))
  {
    if n > 0 {
      assert RefreshAfter(logs, grown, readings, id, n - 1);
      OneMorePastRefresh(logs[n - 1], grown[n - 1], logs[n], id, readings[n - 1]);
      StillPast(logs, grown, readings, id, n - 1);
      PastRefreshFindsNothing(logs[n - 1], grown[n - 1], logs[n], id, readings[n - 1]);
    }
  }

  lemma OneMorePastRefresh(before: History, grown: History, after: History, id: Id, t: Time)
    requires NoFindings(grown, before) && RefreshStep(grown, after, id, t) && Reachable(after)
    ensures Extends(after, grown) && Extends(grown, before) && Reachable(grown) && Reachable(before)
  {
    ConfinedExtends(after, grown, ResolutionScope(id));
    NoFindingsExtends(grown, before);
    CrashLeavesReachable(after, grown);
    CrashLeavesReachable(grown, before);
  }

  lemma PastRefreshFindsNothing(before: History, grown: History, after: History, id: Id, t: Time)
    requires NoFindings(grown, before) && RefreshStep(grown, after, id, t) && Reachable(after) && IsPast(before, id)
    ensures IsPast(after, id)
    ensures HasTransition(after, HorizonPassed(id)) <==> HasTransition(before, HorizonPassed(id))
  {
    OneMorePastRefresh(before, grown, after, id, t);
    PastStaysPast(grown, before, id);
    PastStaysPast(after, grown, id);
    FindingsKept(grown, before, HorizonPassed(id));
    StepRecordsWhatItCallsFor(grown, after, id, t, HorizonPassed(id));
    NoHorizonOwed(grown, id, t);
  }

  lemma NoHorizonOwed(log: History, id: Id, t: Time)
    requires IsPast(log, id)
    ensures !CallsFor(log, id, t, HorizonPassed(id))
  {
  }

  /**
   * A settlement that is interrupted behind its version is not completed either: a refresh leaves a settled forecast
   * alone, so its transition stays missing and its review items stay open.
   */
  lemma InterruptedSettlementIsNotCompleted(log: History, time: Time, v: Forecast, logs: seq<History>,
        grown: seq<History>, readings: seq<Time>)
    requires Terminal(v.status) && Refreshes(logs, grown, readings, v.id) && OnlyRefreshes(logs, grown)
    requires logs[0] == Append(log, time, ForecastVersion(v))
    ensures forall t :: HasTransition(logs[|readings|], t) <==> HasTransition(log, t)
    ensures forall item :: ReviewOpen(logs[|readings|], item) <==> ReviewOpen(log, item)
  {
    SettledStaysTheSame(logs, grown, readings, v.id, |readings|);
  }

  lemma {:induction false} SettledStaysTheSame(
      logs: seq<History>, grown: seq<History>, readings: seq<Time>, id: Id, n: nat)
    requires Refreshes(logs, grown, readings, id) && OnlyRefreshes(logs, grown) && n <= |readings|
    requires CurrentForecast(logs[0], id).TheForecast? && Terminal(CurrentForecast(logs[0], id).f.status)
    ensures logs[n] == logs[0]
  {
    if n > 0 {
      SettledStaysTheSame(logs, grown, readings, id, n - 1);
      assert RefreshAfter(logs, grown, readings, id, n - 1);
    }
  }
}
