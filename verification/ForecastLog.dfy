/**
 * Forecasts and indicators as versions in the event log, and the rule every append of an engine obeys. A log in
 * which every event obeys its rule is one that the engines, stopped after any append and started again, can leave.
 */
module ForecastLog {
  import opened Options
  import opened EventLog
  import opened Evidence

  // ---------------------------------------------------------------- records

  datatype Status = OPEN | UPDATE_REQUIRED | HORIZON_PASSED | RESOLVED_TRUE | RESOLVED_FALSE | RESOLVED_VOID | WITHDRAWN

  predicate Terminal(s: Status) {
    s == RESOLVED_TRUE || s == RESOLVED_FALSE || s == RESOLVED_VOID || s == WITHDRAWN
  }

  /** How a forecast resolves; only the first two kinds resolve by machine. */
  datatype Rule =
    | ClaimPredicate(claim: Id, expected: Id, subject: Id, minimum: int, sources: seq<Id>)
    | EventOccurred(activityType: Id, subject: Id, minimum: int, sources: seq<Id>)
    | HumanJudgment

  datatype Resolver = Nobody | Service | Human(actor: Id)

  /** What made a version: the engine path that appended it. */
  datatype Cause =
    | Created
    | CreationFold
    | HumanUpdate
    | ModelUpdate(proposal: Id)
    | IndicatorPass(indicator: Id)      // check_indicators executing a firing
    | IndicatorCall(indicator: Id)      // update_probability called with a fired indicator's id
    | Refresh
    | MachineResolution
    | HumanResolution
    | Withdrawal
    | IndicatorFold(indicator: Id)
    | ReviewRequired(indicator: Id)

  /** A proposal id on a version, if a model's accepted candidate made it. */
  datatype Trail = NoProposal | FromProposal(proposal: Id)

  datatype Forecast = Forecast(
    id: Id, version: int, question: Id, horizon: Time, rule: Rule, probability: real, basis: Basis, indicators: seq<Id>,
    status: Status, trail: Trail, resolver: Resolver, resolution: seq<Id>, cause: Cause)

  datatype IndicatorStatus = ARMED | FIRED | COVERAGE_BLOCKED | EXPIRED_UNFIRED | RETIRED

  datatype Effect = REVIEW_ONLY | APPLY_PROBABILITY(target: real)

  /** What an indicator watches for; an unset field matches anything. */
  datatype Watch = Watch(kind: Wanted, subject: Wanted, attribute: Wanted, value: Wanted)

  datatype Kind = PRESENCE | ABSENCE(deadline: Time, minimum: int, sources: seq<Id>)

  /** Whether firing speaks for the forecast or against it. */
  datatype Direction = SUPPORTS | UNDERMINES

  datatype Indicator = Indicator(
    id: Id, version: int, forecasts: seq<Id>, kind: Kind, direction: Direction, watch: Watch, effect: Effect,
    status: IndicatorStatus, armed: Time, fired: Time, evidence: seq<Id>)

  /** What a transition is about, its type, and the key of what caused it: together its identity. */
  datatype Subject = OnForecast(id: Id) | OnIndicator(id: Id)

  datatype TransitionType =
    | CREATED | EVIDENCE_UPDATED | PROBABILITY_UPDATED | INDICATOR_FIRED | BASIS_DEGRADED | REACHED(status: Status)
    | INDICATOR_REACHED(state: IndicatorStatus)

  datatype Key =
    | Given(id: Id)
    | FoldKey(forecast: Id, claims: multiset<Id>)
    | UpdateKey(forecast: Id, version: int)
    | FireKey(indicator: Id, forecast: Id)
    | DegradedKey(forecast: Id, contradicting: set<Id>, degraded: int)
    | OnceKey(subject: Subject)
    | ActorKey(actor: Id)

  datatype Transition = Transition(subject: Subject, kind: TransitionType, key: Key)

  datatype ReviewId = LateMatch(forecast: Id) | ForecastCoverage(forecast: Id) | IndicatorCoverage(indicator: Id)
                    | IndicatorReview(indicator: Id, forecast: Id)

  datatype Record =
    | Known(fact: Fact)
    | Accepted(proposal: Id, question: Id, horizon: Time, probability: real)
    | ForecastVersion(forecast: Forecast)
    | IndicatorVersion(indicator: Indicator)
    | Moved(transition: Transition)
    | Review(item: ReviewId, open: bool)

  type History = Log<Record>

  // ---------------------------------------------------------------- replayed views

  datatype MaybeForecast = NoForecast | TheForecast(f: Forecast)
  datatype MaybeIndicator = NoIndicator | TheIndicator(i: Indicator)

  function CurrentForecast(log: History, id: Id): (r: MaybeForecast)
    ensures r.TheForecast? ==> r.f.id == id
  {
    if log.Empty? then NoForecast
    else if log.record.ForecastVersion? && log.record.forecast.id == id then TheForecast(log.record.forecast)
    else CurrentForecast(log.prev, id)
  }

  function CurrentIndicator(log: History, id: Id): (r: MaybeIndicator)
    ensures r.TheIndicator? ==> r.i.id == id
  {
    if log.Empty? then NoIndicator
    else if log.record.IndicatorVersion? && log.record.indicator.id == id then TheIndicator(log.record.indicator)
    else CurrentIndicator(log.prev, id)
  }

  predicate HasTransition(log: History, t: Transition) {
    Recorded(log, Moved(t))
  }

  predicate SubjectHas(log: History, subject: Subject, kind: TransitionType) {
    log.Append?
      && ((log.record.Moved? && log.record.transition.subject == subject && log.record.transition.kind == kind)
                    || SubjectHas(log.prev, subject, kind))
  }

  predicate ReviewKnown(log: History, item: ReviewId) {
    log.Append? && ((log.record.Review? && log.record.item == item) || ReviewKnown(log.prev, item))
  }

  /** The latest version of a review item is OPEN. */
  predicate ReviewOpen(log: History, item: ReviewId) {
    log.Append? && if log.record.Review? && log.record.item == item then log.record.open else ReviewOpen(log.prev, item)
  }

  function Facts(log: History): seq<Fact> {
    if log.Empty? then []
    else if log.record.Known? then Facts(log.prev) + [log.record.fact]
    else Facts(log.prev)
  }

  predicate ProposalSpent(log: History, proposal: Id) {
    log.Append? && ((log.record.ForecastVersion? && log.record.forecast.trail == FromProposal(proposal))
                    || ProposalSpent(log.prev, proposal))
  }

  lemma {:induction false} SubjectHasMeans(log: History, subject: Subject, kind: TransitionType)
    ensures SubjectHas(log, subject, kind) <==> exists key :: HasTransition(log, Transition(subject, kind, key))
  {
    if log.Append? {
      SubjectHasMeans(log.prev, subject, kind);
      if log.record.Moved? { assert HasTransition(log, log.record.transition); }
    }
  }

  /** A proposal is spent once any version has carried it. */
  lemma {:induction false} ProposalSpentMeans(log: History, proposal: Id)
    ensures ProposalSpent(log, proposal) <==>
            exists f :: Recorded(log, ForecastVersion(f)) && f.trail == FromProposal(proposal)
  {
    if log.Append? {
      ProposalSpentMeans(log.prev, proposal);
      if log.record.ForecastVersion? { assert Recorded(log, ForecastVersion(log.record.forecast)); }
    }
  }

  const EPSILON: real := 0.000000001

  /** Two stored probabilities that the engines treat as the same number. */
  predicate Close(a: real, b: real) {
    -EPSILON <= a - b <= EPSILON
  }

  /** Both numbers were treated as one and the same third, so they may be two tolerances apart. */
  predicate Standing(a: real, b: real) {
    -2.0 * EPSILON <= a - b <= 2.0 * EPSILON
  }

  predicate IsProbability(p: real) {
    0.0 < p < 1.0
  }

  /** Some version of the forecast, recorded at or after `since`, stands at `target`. */
  predicate StoodAt(log: History, forecast: Id, target: real, since: Time) {
    log.Append? && ((log.record.ForecastVersion? && log.record.forecast.id == forecast
                     && Close(log.record.forecast.probability, target) && since <= log.time)
                    || StoodAt(log.prev, forecast, target, since))
  }

  function Marker(indicator: Id, forecast: Id): Transition {
    Transition(OnForecast(forecast), INDICATOR_FIRED, FireKey(indicator, forecast))
  }

  predicate EffectExecuted(log: History, i: Indicator, forecast: Id) {
    i.effect.APPLY_PROBABILITY? && StoodAt(log, forecast, i.effect.target, i.fired)
  }

  // ---------------------------------------------------------------- resolution by evidence

  predicate ClaimMatches(facts: seq<Fact>, rule: Rule)
    requires rule.ClaimPredicate?
  {
    IsCurrent(facts, rule.claim) && ClaimById(facts, rule.claim).value.value == rule.expected
  }

  predicate ClaimDiffers(facts: seq<Fact>, rule: Rule)
    requires rule.ClaimPredicate?
  {
    IsCurrent(facts, rule.claim) && ClaimById(facts, rule.claim).value.value != rule.expected
  }

  /** The newest evidence behind a claim is dated, and not after (or not before) an instant. */
  predicate EvidenceBy(facts: seq<Fact>, claim: Id, limit: Time) {
    var times := TimesOf(facts, ObservationsOf(facts, claim));
    times != {} && forall t :: t in times ==> t <= limit
  }

  predicate EvidenceSince(facts: seq<Fact>, claim: Id, since: Time) {
    exists t :: t in TimesOf(facts, ObservationsOf(facts, claim)) && since <= t
  }

  function OccurredAt(a: Fact): Instant
    requires a.Activity?
  {
    if a.startTime.At? then a.startTime else a.statedTime
  }

  predicate EventMatches(a: Fact, rule: Rule, horizon: Time)
    requires rule.EventOccurred?
  {
    && a.Activity? && a.activityType == rule.activityType && rule.subject in a.subjects
    && OccurredAt(a).At? && OccurredAt(a).time <= horizon
  }

  predicate AbsenceCovered(facts: seq<Fact>, f: Forecast) {
    !f.rule.HumanJudgment?
    && CoverageSatisfied(facts, f.rule.minimum, f.rule.sources, f.horizon, Exactly(f.rule.subject))
  }

  /** What the rule asks for is on record: a CURRENT claim reads so, or the event occurred by the horizon. */
  predicate Matched(facts: seq<Fact>, f: Forecast) {
    match f.rule
    case ClaimPredicate(_, _, _, _, _) => ClaimMatches(facts, f.rule)
    case EventOccurred(_, _, _, _) => exists a :: a in facts && EventMatches(a, f.rule, f.horizon)
    case HumanJudgment => false
  }

  /** Grounds for a machine TRUE, given whether the decision was made by the horizon. */
  predicate GroundsForTrue(facts: seq<Fact>, f: Forecast, inTime: bool) {
    match f.rule
    case ClaimPredicate(claim, _, _, _, _) => ClaimMatches(facts, f.rule)
      && (inTime || EvidenceBy(facts, claim, f.horizon))
    case _ => Matched(facts, f)
  }

  predicate DiffersSince(facts: seq<Fact>, f: Forecast) {
    f.rule.ClaimPredicate? && ClaimDiffers(facts, f.rule) && EvidenceSince(facts, f.rule.claim, f.horizon)
  }

  /** Grounds for a machine FALSE once the horizon has passed. */
  predicate GroundsForFalse(facts: seq<Fact>, f: Forecast) {
    !Matched(facts, f) && (DiffersSince(facts, f) || AbsenceCovered(facts, f))
  }

  /** A machine verdict cites what decided it: the claim, the event, or the searches that found nothing. */
  predicate CitesGrounds(facts: seq<Fact>, f: Forecast, status: Status, refs: seq<Id>) {
    match f.rule
    case ClaimPredicate(claim, _, subject, _, sources) =>
      if status == RESOLVED_TRUE || DiffersSince(facts, f) then refs == [claim]
      else CoverageEvidence(facts, sources, f.horizon, Exactly(subject), refs)
    case EventOccurred(_, subject, _, sources) =>
      if status == RESOLVED_TRUE
      then exists a :: a in facts && EventMatches(a, f.rule, f.horizon) && refs == [a.activity]
      else CoverageEvidence(facts, sources, f.horizon, Exactly(subject), refs)
    case HumanJudgment => false
  }

  // ---------------------------------------------------------------- indicators and evidence

  predicate Wants(w: Wanted, value: Id) {
    w.Exactly? ==> w.id == value
  }

  predicate Matches(watch: Watch, p: Pattern) {
    && Wants(watch.kind, p.kind) && Wants(watch.subject, p.subject)
    && Wants(watch.attribute, p.attribute) && Wants(watch.value, p.value)
  }

  /** A match about the world after arming: recorded later, and of a source state that is dated later. */
  predicate PostArmingMatch(facts: seq<Fact>, i: Indicator, o: Fact) {
    && o.Observation? && i.armed < o.observedTime && Matches(i.watch, o.pattern)
    && (var m := ManifestationById(facts, o.manifestation);
        m.Some? && StateTime(m.value).At? && i.armed < StateTime(m.value).time)
  }

  /** A match that held at some point up to the deadline, undated evidence counting from when it was recorded. */
  predicate DefeatMatch(facts: seq<Fact>, i: Indicator, o: Fact)
    requires i.kind.ABSENCE?
  {
    && o.Observation? && Matches(i.watch, o.pattern)
    && (var m := ManifestationById(facts, o.manifestation);
        var held := if m.Some? && StateTime(m.value).At? then StateTime(m.value).time else o.observedTime;
        held <= i.kind.deadline)
  }

  predicate Defeated(facts: seq<Fact>, i: Indicator)
    requires i.kind.ABSENCE?
  {
    exists o :: o in facts && DefeatMatch(facts, i, o)
  }

  predicate WatchCovered(facts: seq<Fact>, i: Indicator)
    requires i.kind.ABSENCE?
  {
    CoverageSatisfied(facts, i.kind.minimum, i.kind.sources, i.kind.deadline, i.watch.subject)
  }

  predicate IsLive(log: History, forecast: Id) {
    CurrentForecast(log, forecast).TheForecast? && !Terminal(CurrentForecast(log, forecast).f.status)
  }

  // ---------------------------------------------------------------- the rule of each append

  /** A version that continues `u`: same question, horizon and rule, next version number. */
  predicate Continues(u: Forecast, v: Forecast) {
    v.id == u.id && v.version == u.version + 1 && v.question == u.question && v.horizon == u.horizon && v.rule == u.rule
  }

  /** Moving the number by human or model act clears UPDATE_REQUIRED and nothing else. */
  function StatusAfterUpdate(s: Status): Status {
    if s == UPDATE_REQUIRED then OPEN else s
  }

  function StatusAfterRefresh(s: Status, changes: Changes, passed: bool): Status {
    if passed && (s == OPEN || s == UPDATE_REQUIRED) then HORIZON_PASSED
    else if (changes.degradation || changes.contradiction) && s == OPEN then UPDATE_REQUIRED
    else s
  }

  predicate FiringCovers(log: History, i: Id, f: Forecast, v: Forecast) {
    && CurrentIndicator(log, i).TheIndicator?
    && (var ind := CurrentIndicator(log, i).i;
        && ind.status == FIRED && f.id in ind.forecasts
        && ind.effect.APPLY_PROBABILITY? && Close(ind.effect.target, v.probability))
    && !HasTransition(log, Marker(i, f.id))
    && !Close(f.probability, v.probability)
  }

  /** The next version `v` of a live forecast `u`, by cause. */
  ghost predicate LegalMove(log: History, time: Time, u: Forecast, v: Forecast) {
    Continues(u, v) && !Terminal(u.status) && IsProbability(v.probability) &&
    match v.cause
    case Created => false
    case CreationFold =>
      exists supporting, contradicting ::
        && IsBasis(Facts(log), u.basis.supporting + supporting, u.basis.contradicting + contradicting, v.basis)
        && v == u.(version := v.version, cause := v.cause, basis := v.basis)
    case HumanUpdate =>
      v == u.(version := v.version, cause := v.cause, probability := v.probability,
              status := StatusAfterUpdate(u.status), trail := NoProposal)
    case ModelUpdate(p) =>
      && Recorded(log, Accepted(p, u.question, u.horizon, v.probability)) && !ProposalSpent(log, p)
      && v == u.(version := v.version, cause := v.cause, probability := v.probability,
                 status := StatusAfterUpdate(u.status), trail := FromProposal(p))
    case IndicatorPass(i) =>
      && FiringCovers(log, i, u, v) && !EffectExecuted(log, CurrentIndicator(log, i).i, u.id)
      && v == u.(version := v.version, cause := v.cause, probability := v.probability, trail := NoProposal)
    case IndicatorCall(i) =>
      && FiringCovers(log, i, u, v)
      && v == u.(version := v.version, cause := v.cause, probability := v.probability, trail := NoProposal)
    case Refresh =>
      exists b, passed ::
        && IsBasis(Facts(log), u.basis.supporting, u.basis.contradicting, b)
        && (passed ==> u.horizon < time)
        && v == u.(version := v.version, cause := v.cause,
                   basis := if AnyChange(BasisChanged(u.basis, b)) then b else u.basis,
                   status := StatusAfterRefresh(u.status, BasisChanged(u.basis, b), passed))
    case MachineResolution =>
      && !u.rule.HumanJudgment? && !ReviewOpen(log, LateMatch(u.id))
      && v.resolution != [] && CitesGrounds(Facts(log), u, v.status, v.resolution)
      && (v.status == RESOLVED_TRUE || v.status == RESOLVED_FALSE)
      && (v.status == RESOLVED_TRUE ==> GroundsForTrue(Facts(log), u, Admits(log, u.horizon)))
      && (v.status == RESOLVED_FALSE ==> u.horizon < time && GroundsForFalse(Facts(log), u))
      && v == u.(version := v.version, cause := v.cause, status := v.status, resolver := Service,
        resolution := v.resolution)
    case HumanResolution =>
      && v.resolver.Human? && (v.status == RESOLVED_TRUE || v.status == RESOLVED_FALSE || v.status == RESOLVED_VOID)
      && (v.status != RESOLVED_VOID ==> v.resolution != [])
      && v == u.(version := v.version, cause := v.cause, status := v.status, resolver := v.resolver,
        resolution := v.resolution)
    case Withdrawal =>
      v.resolver.Human? && v == u.(version := v.version, cause := v.cause, status := WITHDRAWN, resolver := v.resolver)
    case IndicatorFold(i) =>
      && i !in u.indicators && CurrentIndicator(log, i).TheIndicator?
      && v == u.(version := v.version, cause := v.cause, indicators := u.indicators + [i])
    case ReviewRequired(i) =>
      && CurrentIndicator(log, i).TheIndicator? && CurrentIndicator(log, i).i.status == FIRED && u.status == OPEN
      && v == u.(version := v.version, cause := v.cause, status := UPDATE_REQUIRED)
  }

  ghost predicate LegalOpening(log: History, v: Forecast) {
    && v.version == 1 && v.status == OPEN && v.cause == Created && IsProbability(v.probability)
    && v.resolver == Nobody && v.resolution == []
    && (v.trail.FromProposal? ==>
          Recorded(log, Accepted(v.trail.proposal, v.question, v.horizon, v.probability))
            && !ProposalSpent(log, v.trail.proposal))
    && exists supporting, contradicting :: IsBasis(Facts(log), supporting, contradicting, v.basis)
  }

  ghost predicate LegalForecast(log: History, time: Time, v: Forecast) {
    var current := CurrentForecast(log, v.id);
    if current.NoForecast? then LegalOpening(log, v) else LegalMove(log, time, current.f, v)
  }

  ghost predicate LegalArming(log: History, time: Time, v: Indicator) {
    && v.version == 1 && v.status == ARMED && Admits(log, v.armed) && v.armed <= time
    && v.evidence == [] && v.forecasts != []
    && (v.effect.APPLY_PROBABILITY? ==> IsProbability(v.effect.target) && v.watch.subject.Exactly?)
    && forall f :: f in v.forecasts ==> IsLive(log, f)
  }

  ghost predicate LegalIndicatorMove(log: History, time: Time, u: Indicator, v: Indicator) {
    && v.version == u.version + 1 && (u.status == ARMED || u.status == COVERAGE_BLOCKED)
    && v == u.(version := v.version, status := v.status, fired := v.fired, evidence := v.evidence)
    && match v.status
       case ARMED => false
       case FIRED =>
         && Admits(log, v.fired) && v.fired <= time
         && (match u.kind
             case PRESENCE =>
               && u.status == ARMED && v.evidence != []
               && forall ref :: ref in v.evidence ==>
                    exists o :: o in Facts(log) && PostArmingMatch(Facts(log), u, o) && o.observation == ref
             case ABSENCE(deadline, _, sources) =>
               && (u.status == ARMED ==> deadline < time)
               && CoverageEvidence(Facts(log), sources, deadline, u.watch.subject, v.evidence)
               && !Defeated(Facts(log), u) && WatchCovered(Facts(log), u))
       case COVERAGE_BLOCKED =>
         && u.status == ARMED && u.kind.ABSENCE? && u.kind.deadline < time
         && !Defeated(Facts(log), u) && !WatchCovered(Facts(log), u)
       case EXPIRED_UNFIRED => forall f :: f in u.forecasts ==> !IsLive(log, f)
       case RETIRED => u.kind.ABSENCE? && (u.status == ARMED ==> u.kind.deadline < time) && Defeated(Facts(log), u)
  }

  ghost predicate LegalIndicator(log: History, time: Time, v: Indicator) {
    var current := CurrentIndicator(log, v.id);
    if current.NoIndicator? then LegalArming(log, time, v) else LegalIndicatorMove(log, time, current.i, v)
  }

  /** A transition is recorded once; the mark of an executed firing only once its effect stands or needs nothing. */
  ghost predicate LegalTransition(log: History, t: Transition) {
    && !HasTransition(log, t)
    && (t.kind == INDICATOR_FIRED ==>
          && t.subject.OnForecast? && t.key.FireKey? && t.key == FireKey(t.key.indicator, t.subject.id)
          && CurrentIndicator(log, t.key.indicator).TheIndicator? && CurrentForecast(log, t.subject.id).TheForecast?
          && (var i := CurrentIndicator(log, t.key.indicator).i;
              && i.status == FIRED && t.subject.id in i.forecasts
              && (i.effect.APPLY_PROBABILITY? ==>
                    EffectExecuted(log, i, t.subject.id)
                    || Standing(CurrentForecast(log, t.subject.id).f.probability, i.effect.target))))
  }

  ghost predicate Legal(log: History, time: Time, record: Record) {
    Admits(log, time) &&
    match record
    case Known(_) => true
    case Accepted(_, _, _, _) => true
    case ForecastVersion(v) => LegalForecast(log, time, v)
    case IndicatorVersion(v) => LegalIndicator(log, time, v)
    case Moved(t) => LegalTransition(log, t)
    case Review(_, _) => true
  }

  ghost predicate Reachable(log: History) {
    log.Append? ==> Reachable(log.prev) && Legal(log.prev, log.time, log.record)
  }

  /** A crash keeps a prefix of the log, and a prefix of a reachable log is reachable. */
  lemma {:induction false} CrashLeavesReachable(log: History, kept: History)
    requires Reachable(log) && Extends(log, kept)
    ensures Reachable(kept)
  {
    if log != kept { CrashLeavesReachable(log.prev, kept); }
  }
}
