/** The context an engine acts in: one log, one clock, and the appends that are safe to repeat after a crash. */
module AnalyticContexts {
  import opened EventLog
  import opened Evidence
  import opened ForecastLog
  import opened ForecastRuns

  // ---------------------------------------------------------------- what an act may touch

  /**
   * The forecasts, indicators and review items an act may append a version of. Transitions are allowed, those into an
   * indicator's status only with the indicator, and the mark of a firing only with the forecast.
   */
  datatype Scope = Scope(forecasts: set<Id>, indicators: set<Id>, reviews: set<ReviewId>)

  predicate Within(record: Record, scope: Scope) {
    match record
    case ForecastVersion(f) => f.id in scope.forecasts
    case IndicatorVersion(i) => i.id in scope.indicators
    case Review(item, _) => item in scope.reviews
    case Moved(t) =>
      && (t.kind.INDICATOR_REACHED? ==> t.subject.OnIndicator? && t.subject.id in scope.indicators)
      && (t.kind.INDICATOR_FIRED? ==> t.subject.OnForecast? && t.subject.id in scope.forecasts)
    case _ => false
  }

  /** Everything appended since `earlier` is in scope. */
  predicate Confined(later: History, earlier: History, scope: Scope) {
    later == earlier || (later.Append? && Within(later.record, scope) && Confined(later.prev, earlier, scope))
  }

  predicate Wider(big: Scope, small: Scope) {
    small.forecasts <= big.forecasts && small.indicators <= big.indicators && small.reviews <= big.reviews
  }

  lemma {:induction false} ConfinedTrans(c: History, b: History, a: History, inner: Scope, outer: Scope)
    requires Confined(c, b, inner) && Confined(b, a, outer) && Wider(outer, inner)
    ensures Confined(c, a, outer)
    decreases c
  {
    if c != b { ConfinedTrans(c.prev, b, a, inner, outer); }
  }

  lemma {:induction false} ConfinedExtends(later: History, earlier: History, scope: Scope)
    requires Confined(later, earlier, scope)
    ensures Extends(later, earlier) && Facts(later) == Facts(earlier)
  {
    if later != earlier { ConfinedExtends(later.prev, earlier, scope); }
  }

  lemma {:induction false} OtherForecast(later: History, earlier: History, scope: Scope, f: Id)
    requires Confined(later, earlier, scope) && f !in scope.forecasts
    ensures CurrentForecast(later, f) == CurrentForecast(earlier, f)
  {
    if later != earlier { OtherForecast(later.prev, earlier, scope, f); }
  }

  lemma {:induction false} OtherVersions(later: History, earlier: History, scope: Scope, f: Id)
    requires Confined(later, earlier, scope) && f !in scope.forecasts
    ensures Versions(later, f) == Versions(earlier, f)
  {
    if later != earlier { OtherVersions(later.prev, earlier, scope, f); }
  }

  lemma {:induction false} OtherMark(later: History, earlier: History, scope: Scope, i: Id, f: Id)
    requires Confined(later, earlier, scope) && f !in scope.forecasts
    ensures HasTransition(later, Marker(i, f)) == HasTransition(earlier, Marker(i, f))
  {
    if later != earlier { OtherMark(later.prev, earlier, scope, i, f); }
  }

  lemma {:induction false} OtherIndicator(later: History, earlier: History, scope: Scope, i: Id)
    requires Confined(later, earlier, scope) && i !in scope.indicators
    ensures CurrentIndicator(later, i) == CurrentIndicator(earlier, i)
  {
    if later != earlier { OtherIndicator(later.prev, earlier, scope, i); }
  }

  lemma {:induction false} OtherReview(later: History, earlier: History, scope: Scope, item: ReviewId)
    requires Confined(later, earlier, scope) && item !in scope.reviews
    ensures ReviewOpen(later, item) == ReviewOpen(earlier, item)
            && ReviewKnown(later, item) == ReviewKnown(earlier, item)
  {
    if later != earlier { OtherReview(later.prev, earlier, scope, item); }
  }

  lemma {:induction false} ReviewStaysKnown(later: History, earlier: History, item: ReviewId)
    requires Extends(later, earlier) && ReviewKnown(earlier, item)
    ensures ReviewKnown(later, item)
  {
    if later != earlier { ReviewStaysKnown(later.prev, earlier, item); }
  }

  lemma {:induction false} NoTransitionOfKind(log: History, t: Transition)
    requires !SubjectHas(log, t.subject, t.kind)
    ensures !HasTransition(log, t)
  {
    if log.Append? { NoTransitionOfKind(log.prev, t); }
  }

  // ---------------------------------------------------------------- the context

  class AnalyticContext {
    var log: History
    /** The clock's last reading. */
    var clock: Time

    ghost predicate Valid()
      reads this
    {
      Reachable(log) && Admits(log, clock)
    }

    constructor (start: Time)
      ensures Valid() && log == Empty && clock == start
    {
      log := Empty;
      clock := start;
    }

    /** Read the clock: it may have advanced since the last reading. */
    method Now() returns (t: Time)
      requires Valid()
      modifies this`clock
      ensures Valid() && t == clock && old(clock) <= clock
    {
      var reading: Time :| clock <= reading;
      clock := reading;
      t := reading;
    }

    method Add(t: Time, record: Record)
      requires Valid() && t == clock && Legal(log, t, record)
      modifies this`log
      ensures Valid() && log == Append(old(log), t, record)
    {
      log := Append(log, t, record);
    }

    /** Evidence, or a human's acceptance of a candidate, arrives from elsewhere in the system. */
    method Learn(record: Record)
      requires Valid() && (record.Known? || record.Accepted?)
      modifies this
      ensures Valid() && log == Append(old(log), clock, record)
    {
      var t := Now();
      Add(t, record);
    }

    /** Append one typed transition, once per cause. */
    method RecordTransition(t: Transition)
      requires Valid() && (HasTransition(log, t) || LegalTransition(log, t))
      modifies this
      ensures Valid() && old(clock) <= clock
      ensures HasTransition(log, t)
      ensures if HasTransition(old(log), t) then log == old(log) && clock == old(clock)
              else log == Append(old(log), clock, Moved(t))
    {
      if HasTransition(log, t) { return; }
      var now := Now();
      Add(now, Moved(t));
    }

    /** Record a transition only if its subject has none of its type yet. */
    method EnsureTransition(t: Transition)
      requires Valid() && t.kind != INDICATOR_FIRED
      modifies this
      ensures Valid() && old(clock) <= clock
      ensures SubjectHas(log, t.subject, t.kind)
      ensures if SubjectHas(old(log), t.subject, t.kind) then log == old(log) && clock == old(clock)
              else log == Append(old(log), clock, Moved(t))
    {
      if SubjectHas(log, t.subject, t.kind) { return; }
      NoTransitionOfKind(log, t);
      RecordTransition(t);
    }

    /** Resolve one open review item, leaving absent or resolved ones alone. */
    method CloseReviewItem(item: ReviewId)
      requires Valid()
      modifies this
      ensures Valid() && old(clock) <= clock
      ensures !ReviewOpen(log, item)
      ensures if ReviewOpen(old(log), item) then log == Append(old(log), clock, Review(item, false))
              else log == old(log) && clock == old(clock)
    {
      if !ReviewOpen(log, item) { return; }
      var now := Now();
      Add(now, Review(item, false));
    }

    /** Open a review item unless one with its id was ever recorded. */
    method OpenReviewItem(item: ReviewId)
      requires Valid()
      modifies this
      ensures Valid() && old(clock) <= clock
      ensures ReviewKnown(log, item)
      ensures if ReviewKnown(old(log), item) then log == old(log) && clock == old(clock)
              else log == Append(old(log), clock, Review(item, true))
    {
      if ReviewKnown(log, item) { return; }
      var now := Now();
      Add(now, Review(item, true));
    }
  }
}
