/** What machine verdicts and firings rest on, said in the fields of the records on the log. */
module ForecastVerdicts {
  import opened Options
  import opened EventLog
  import opened Evidence
  import opened ForecastLog
  import opened ForecastRuns

  // ---------------------------------------------------------------- what the records say

  /** The newest record of a claim, at position `k`, and its newest state, if it has any, is CURRENT. */
  ghost predicate CurrentAt(facts: seq<Fact>, claim: Id, k: int) {
    NewestClaim(facts, claim, k) && forall n :: NewestState(facts, claim, n) ==> facts[n].current
  }

  ghost predicate ClaimSays(facts: seq<Fact>, claim: Id, expected: Id) {
    exists k :: CurrentAt(facts, claim, k) && facts[k].value == expected
  }

  /** Some observation behind the claim shows its source as of `since` or later. */
  ghost predicate ShownSince(facts: seq<Fact>, claim: Id, since: Time) {
    exists k, o, t :: NewestClaim(facts, claim, k) && o in facts[k].observations && ObservedAt(facts, o) == At(t)
                      && since <= t
  }

  /** The observations behind the claim that are dated at all, and there are some, show no source after `limit`. */
  ghost predicate ShownBy(facts: seq<Fact>, claim: Id, limit: Time) {
    exists k :: NewestClaim(facts, claim, k)
      && (exists o :: o in facts[k].observations && ObservedAt(facts, o).At?)
      && (forall o :: o in facts[k].observations && ObservedAt(facts, o).At? ==> ObservedAt(facts, o).time <= limit)
  }

  /** The claim stands and says something else, on evidence as of the horizon or later. */
  ghost predicate ContraryClaim(facts: seq<Fact>, claim: Id, expected: Id, horizon: Time) {
    && (exists k :: CurrentAt(facts, claim, k) && facts[k].value != expected)
    && ShownSince(facts, claim, horizon)
  }

  /** An activity of that type on the subject began, or is otherwise said to have happened, by the horizon. */
  ghost predicate Happened(facts: seq<Fact>, id: Id, activityType: Id, subject: Id, horizon: Time) {
    exists subjects, began, stated :: Activity(id, activityType, subjects, began, stated) in facts
      && subject in subjects
      && ((began.At? && began.time <= horizon) || (began.Unstated? && stated.At? && stated.time <= horizon))
  }

  ghost predicate HappenedBy(facts: seq<Fact>, activityType: Id, subject: Id, horizon: Time) {
    exists id :: Happened(facts, id, activityType, subject, horizon)
  }

  /** Enough sources were declared, and each was searched since, successfully and for the subject. */
  ghost predicate SilenceIsCovered(facts: seq<Fact>, minimum: int, sources: seq<Id>, since: Time, subject: Wanted) {
    && sources != [] && minimum <= |sources|
    && forall s :: s in sources ==> SearchOnRecord(facts, s, since, subject)
  }

  lemma ClaimRules(facts: seq<Fact>, rule: Rule)
    requires rule.ClaimPredicate?
    ensures ClaimMatches(facts, rule) <==> ClaimSays(facts, rule.claim, rule.expected)
    ensures ClaimDiffers(facts, rule) <==>
              exists k :: CurrentAt(facts, rule.claim, k) && facts[k].value != rule.expected
  {
    CurrentMeans(facts, rule.claim);
    ClaimByIdIsNewest(facts, rule.claim);
    NewestIsUnique(facts, rule.claim);
  }

  lemma EvidenceTimes(facts: seq<Fact>, claim: Id, limit: Time)
    ensures EvidenceSince(facts, claim, limit) <==> ShownSince(facts, claim, limit)
    ensures EvidenceBy(facts, claim, limit) <==> ShownBy(facts, claim, limit)
  {
    ClaimByIdIsNewest(facts, claim);
    NewestIsUnique(facts, claim);
    var observations := ObservationsOf(facts, claim);
    forall t ensures t in TimesOf(facts, observations) <==>
                       exists o :: o in observations && ObservedAt(facts, o) == At(t)
    {
      forall o ensures t in Instants(ObservedAt(facts, o)) <==> ObservedAt(facts, o) == At(t) {}
    }
  }

  lemma EventIs(facts: seq<Fact>, rule: Rule, horizon: Time, id: Id)
    requires rule.EventOccurred?
    ensures (exists a :: a in facts && EventMatches(a, rule, horizon) && a.activity == id)
            <==> Happened(facts, id, rule.activityType, rule.subject, horizon)
  {
    if a :| a in facts && EventMatches(a, rule, horizon) && a.activity == id {
      assert a == Activity(id, rule.activityType, a.subjects, a.startTime, a.statedTime);
    }
    if Happened(facts, id, rule.activityType, rule.subject, horizon) {
      var subjects, began, stated :| Activity(id, rule.activityType, subjects, began, stated) in facts
        && rule.subject in subjects
        && ((began.At? && began.time <= horizon) || (began.Unstated? && stated.At? && stated.time <= horizon));
      assert EventMatches(Activity(id, rule.activityType, subjects, began, stated), rule, horizon);
    }
  }

  lemma EventRules(facts: seq<Fact>, f: Forecast)
    requires f.rule.EventOccurred?
    ensures Matched(facts, f) <==> HappenedBy(facts, f.rule.activityType, f.rule.subject, f.horizon)
  {
    forall id { EventIs(facts, f.rule, f.horizon, id); }
    if a :| a in facts && EventMatches(a, f.rule, f.horizon) {
      assert Happened(facts, a.activity, f.rule.activityType, f.rule.subject, f.horizon);
    }
  }

  lemma CoverageRules(facts: seq<Fact>, minimum: int, sources: seq<Id>, since: Time, subject: Wanted)
    ensures CoverageSatisfied(facts, minimum, sources, since, subject)
            <==> SilenceIsCovered(facts, minimum, sources, since, subject)
  {
    forall s { CoveredIsOnRecord(facts, s, since, subject); }
  }

  // ---------------------------------------------------------------- verdicts

  ghost predicate FalseIsEarned(facts: seq<Fact>, v: Forecast) {
    match v.rule
    case ClaimPredicate(claim, expected, subject, minimum, sources) =>
      && !ClaimSays(facts, claim, expected)
      && (ContraryClaim(facts, claim, expected, v.horizon)
          || SilenceIsCovered(facts, minimum, sources, v.horizon, Exactly(subject)))
    case EventOccurred(activityType, subject, minimum, sources) =>
      && !HappenedBy(facts, activityType, subject, v.horizon)
      && SilenceIsCovered(facts, minimum, sources, v.horizon, Exactly(subject))
    case HumanJudgment => false
  }

  /** `inTime`: everything on record is recorded by the horizon. */
  ghost predicate TrueIsEarned(facts: seq<Fact>, v: Forecast, inTime: bool) {
    match v.rule
    case ClaimPredicate(claim, expected, _, _, _) =>
      ClaimSays(facts, claim, expected) && (inTime || ShownBy(facts, claim, v.horizon))
    case EventOccurred(activityType, subject, _, _) => HappenedBy(facts, activityType, subject, v.horizon)
    case HumanJudgment => false
  }

  /** The grounds on which the engine decides are these, and no others. */
  lemma GroundsAreEarned(facts: seq<Fact>, f: Forecast, inTime: bool)
    ensures GroundsForFalse(facts, f) <==> FalseIsEarned(facts, f)
    ensures GroundsForTrue(facts, f, inTime) <==> TrueIsEarned(facts, f, inTime)
  {
    match f.rule {
      case ClaimPredicate(claim, _, subject, minimum, sources) =>
        ClaimRules(facts, f.rule);
        EvidenceTimes(facts, claim, f.horizon);
        CoverageRules(facts, minimum, sources, f.horizon, Exactly(subject));
      case EventOccurred(_, subject, minimum, sources) =>
        EventRules(facts, f);
        CoverageRules(facts, minimum, sources, f.horizon, Exactly(subject));
      case HumanJudgment =>
    }
  }

  /** Every citation is a successful search of a declared source for the subject, ended since. */
  ghost predicate CitesSearches(facts: seq<Fact>, sources: seq<Id>, since: Time, subject: Id, refs: seq<Id>) {
    forall ref :: ref in refs ==> exists s, t, about ::
      Execution(ref, s, true, At(t), about) in facts && s in sources && since <= t && subject in about
  }

  /** A verdict cites the claim that says so, the event that occurred, or the searches that found nothing. */
  ghost predicate Cites(facts: seq<Fact>, v: Forecast) {
    match v.rule
    case ClaimPredicate(claim, expected, subject, _, sources) =>
      if v.status == RESOLVED_TRUE || ContraryClaim(facts, claim, expected, v.horizon) then v.resolution == [claim]
      else CitesSearches(facts, sources, v.horizon, subject, v.resolution)
    case EventOccurred(activityType, subject, _, sources) =>
      if v.status == RESOLVED_TRUE
      then exists id :: Happened(facts, id, activityType, subject, v.horizon) && v.resolution == [id]
      else CitesSearches(facts, sources, v.horizon, subject, v.resolution)
    case HumanJudgment => false
  }

  lemma SearchesAreCited(facts: seq<Fact>, sources: seq<Id>, since: Time, subject: Id, refs: seq<Id>)
    requires CoverageEvidence(facts, sources, since, Exactly(subject), refs)
    ensures CitesSearches(facts, sources, since, subject, refs)
  {
    forall ref | ref in refs
      ensures exists s, t, about ::
        Execution(ref, s, true, At(t), about) in facts && s in sources && since <= t && subject in about
    {
      var f, s :| f in facts && s in sources && Searched(f, s, since, Exactly(subject)) && f.execution == ref;
      assert f == Execution(ref, s, true, At(f.completed.time), f.about);
    }
  }

  lemma GroundsAreCited(facts: seq<Fact>, v: Forecast)
    requires CitesGrounds(facts, v, v.status, v.resolution)
    ensures Cites(facts, v)
  {
    match v.rule {
      case ClaimPredicate(claim, _, subject, _, sources) =>
        ClaimRules(facts, v.rule);
        EvidenceTimes(facts, claim, v.horizon);
        if v.status != RESOLVED_TRUE && !DiffersSince(facts, v) {
          SearchesAreCited(facts, sources, v.horizon, subject, v.resolution);
        }
      case EventOccurred(_, subject, _, sources) =>
        if v.status == RESOLVED_TRUE {
          var a :| a in facts && EventMatches(a, v.rule, v.horizon) && v.resolution == [a.activity];
          EventIs(facts, v.rule, v.horizon, a.activity);
        } else {
          SearchesAreCited(facts, sources, v.horizon, subject, v.resolution);
        }
    }
  }

  /** A verdict of the service was appended to a log whose records earned it; FALSE only once the horizon had passed. */
  ghost predicate EarnedWhenGiven(kept: History, v: Forecast) {
    && kept.Append? && kept.record == ForecastVersion(v)
    && (v.status == RESOLVED_TRUE || v.status == RESOLVED_FALSE)
    && v.resolution != [] && Cites(Facts(kept.prev), v)
    && (v.status == RESOLVED_FALSE ==> v.horizon < kept.time && FalseIsEarned(Facts(kept.prev), v))
    && (v.status == RESOLVED_TRUE ==> TrueIsEarned(Facts(kept.prev), v, Admits(kept.prev, v.horizon)))
  }

  /**
   * In every run: a FALSE given by the service that no contrary claim supports has, for every declared source, a
   * successful search of it for the subject, ended at the horizon or later; a TRUE has its claim or its event.
   */
  lemma MachineVerdictsAreEarned(log: History, id: Id)
    requires Reachable(log) && CurrentForecast(log, id).TheForecast?
    requires CurrentForecast(log, id).f.resolver == Service
    ensures exists kept :: Extends(log, kept) && EarnedWhenGiven(kept, CurrentForecast(log, id).f)
  {
    var v := CurrentForecast(log, id).f;
    MachineVerdictsAreJustified(log, id);
    var kept :| Extends(log, kept) && Justified(kept, v);
    GroundsAreEarned(Facts(kept.prev), v, Admits(kept.prev, v.horizon));
    GroundsAreCited(Facts(kept.prev), v);
    assert EarnedWhenGiven(kept, v);
  }

  // ---------------------------------------------------------------- firings

  /** Every field the watch sets is the pattern's. */
  predicate Fits(watch: Watch, p: Pattern) {
    && (watch.kind == Anything || watch.kind == Exactly(p.kind))
    && (watch.subject == Anything || watch.subject == Exactly(p.subject))
    && (watch.attribute == Anything || watch.attribute == Exactly(p.attribute))
    && (watch.value == Anything || watch.value == Exactly(p.value))
  }

  /** The newest record of a manifestation shows its source as of `t`. */
  ghost predicate ShownAsOf(facts: seq<Fact>, manifestation: Id, t: Time) {
    exists n :: NewestManifestation(facts, manifestation, n) && ShowsAsOf(facts[n], t)
  }

  /** A fitting observation recorded after the arming, of a source as it was after the arming. */
  ghost predicate SeenAfterArming(facts: seq<Fact>, i: Indicator, o: Fact) {
    && o.Observation? && i.armed < o.observedTime && Fits(i.watch, o.pattern)
    && exists t :: ShownAsOf(facts, o.manifestation, t) && i.armed < t
  }

  /** A fitting observation of a source as it was by the deadline; undated, one recorded by the deadline. */
  ghost predicate SeenByDeadline(facts: seq<Fact>, i: Indicator, o: Fact)
    requires i.kind.ABSENCE?
  {
    && o.Observation? && Fits(i.watch, o.pattern)
    && if exists t :: ShownAsOf(facts, o.manifestation, t)
       then exists t :: ShownAsOf(facts, o.manifestation, t) && t <= i.kind.deadline
       else o.observedTime <= i.kind.deadline
  }

  lemma ShownMeans(facts: seq<Fact>, manifestation: Id)
    ensures var m := ManifestationById(facts, manifestation);
            forall t :: ShownAsOf(facts, manifestation, t) <==> m.Some? && StateTime(m.value) == At(t)
  {
    ManifestationByIdIsNewest(facts, manifestation);
    NewestIsUnique(facts, manifestation);
  }

  lemma SightingRules(facts: seq<Fact>, i: Indicator, o: Fact)
    ensures PostArmingMatch(facts, i, o) <==> SeenAfterArming(facts, i, o)
    ensures i.kind.ABSENCE? ==> (DefeatMatch(facts, i, o) <==> SeenByDeadline(facts, i, o))
  {
    if o.Observation? {
      ShownMeans(facts, o.manifestation);
    }
  }

  /** A PRESENCE indicator fires on sightings of what it watches that are later than its arming in both senses. */
  lemma PresenceFiresOnLaterSightings(log: History)
    requires Reachable(log) && log.Append? && log.record.IndicatorVersion?
    requires log.record.indicator.status == FIRED && log.record.indicator.kind.PRESENCE?
    ensures var i := log.record.indicator;
            i.evidence != [] && forall ref :: ref in i.evidence ==>
              exists o :: o in Facts(log.prev) && SeenAfterArming(Facts(log.prev), i, o) && o.observation == ref
  {
    var v, facts := log.record.indicator, Facts(log.prev);
    var u := CurrentIndicator(log.prev, v.id).i;
    forall ref | ref in v.evidence
      ensures exists o :: o in facts && SeenAfterArming(facts, v, o) && o.observation == ref
    {
      var o :| o in facts && PostArmingMatch(facts, u, o) && o.observation == ref;
      SightingRules(facts, u, o);
      assert SeenAfterArming(facts, v, o);
    }
  }

  /**
   * An ABSENCE indicator fires after its deadline, with no sighting by the deadline on record, and with a successful
   * search for its subject of every declared source, ended at the deadline or later.
   */
  lemma AbsenceFiresOnSearchedSilence(log: History)
    requires Reachable(log) && log.Append? && log.record.IndicatorVersion?
    requires log.record.indicator.status == FIRED && log.record.indicator.kind.ABSENCE?
    ensures var i := log.record.indicator;
            && i.kind.deadline < log.time
            && (forall o :: o in Facts(log.prev) ==> !SeenByDeadline(Facts(log.prev), i, o))
            && SilenceIsCovered(Facts(log.prev), i.kind.minimum, i.kind.sources, i.kind.deadline, i.watch.subject)
  {
    var v, facts := log.record.indicator, Facts(log.prev);
    AbsenceFiresOnlyOnCoveredSilence(log);
    CoverageRules(facts, v.kind.minimum, v.kind.sources, v.kind.deadline, v.watch.subject);
    forall o | o in facts ensures !SeenByDeadline(facts, v, o) { SightingRules(facts, v, o); }
  }
}
