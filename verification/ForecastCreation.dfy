/** Creating a forecast: once per question and horizon, with later calls folding in new evidence. */
module ForecastCreation {
  import opened Options
  import opened EventLog
  import opened Evidence
  import opened ForecastLog
  import opened ForecastRuns
  import opened AnalyticContexts
  import opened ForecastUpdate

  /** A creation call. `id` is the digest of the case-folded question and the horizon. */
  datatype Request = Request(
    id: Id, question: Id, horizon: Time, rule: Rule, probability: real, supporting: seq<Id>, contradicting: seq<Id>,
    indicators: seq<Id>, model: bool, proposal: Wanted, cause: Id)

  predicate AcceptedFor(log: History, r: Request) {
    && r.proposal.Exactly? && Recorded(log, Accepted(r.proposal.id, r.question, r.horizon, r.probability))
    && !ProposalSpent(log, r.proposal.id)
  }

  predicate CreationAllowed(log: History, r: Request) {
    match CurrentForecast(log, r.id)
    case NoForecast => IsProbability(r.probability) && (r.model ==> AcceptedFor(log, r))
    case TheForecast(f) =>
      Terminal(f.status)
      || ((r.model ==> r.proposal.Exactly? && f.trail == FromProposal(r.proposal.id))
        && Close(f.probability, r.probability))
  }

  /** The ids not yet known, in order. */
  function Missing(ids: seq<Id>, known: seq<Id>): (r: seq<Id>)
    ensures forall x :: x in r <==> x in ids && x !in known
  {
    if ids == [] then []
    else if ids[0] in known then Missing(ids[1..], known)
    else [ids[0]] + Missing(ids[1..], known)
  }

  /** Nothing cited is new to the forecast. */
  predicate Cites(f: Forecast, r: Request) {
    Missing(r.supporting, f.basis.supporting) == [] && Missing(r.contradicting, f.basis.contradicting) == []
  }

  function Opening(r: Request, basis: Basis): Forecast {
    Forecast(r.id, 1, r.question, r.horizon, r.rule, r.probability, basis, r.indicators, OPEN,
             if r.model && r.proposal.Exactly? then FromProposal(r.proposal.id) else NoProposal, Nobody, [], Created)
  }

  function Folded(f: Forecast, basis: Basis): Forecast {
    f.(version := f.version + 1, cause := CreationFold, basis := basis)
  }

  /** What stands after an allowed call. */
  predicate AfterCreation(before: History, after: History, r: Request) {
    && CurrentForecast(after, r.id).TheForecast?
    && var g := CurrentForecast(after, r.id).f;
       match CurrentForecast(before, r.id)
       case NoForecast => g == Opening(r, g.basis) && IsBasis(Facts(before), r.supporting, r.contradicting, g.basis)
       case TheForecast(f) =>
         if Terminal(f.status) || Cites(f, r) then g == f
         else && g == Folded(f, g.basis)
              && IsBasis(Facts(before), f.basis.supporting + Missing(r.supporting, f.basis.supporting),
                         f.basis.contradicting + Missing(r.contradicting, f.basis.contradicting), g.basis)
  }

  /** A call that has nothing left to do. */
  predicate CreationSettled(log: History, r: Request) {
    && SubjectHas(log, OnForecast(r.id), CREATED) && CurrentForecast(log, r.id).TheForecast?
    && (Terminal(CurrentForecast(log, r.id).f.status) || Cites(CurrentForecast(log, r.id).f, r))
  }

  lemma FoldIsLegal(log: History, time: Time, f: Forecast, supporting: seq<Id>, contradicting: seq<Id>, basis: Basis)
    requires Reachable(log) && Admits(log, time) && CurrentForecast(log, f.id) == TheForecast(f) && !Terminal(f.status)
    requires IsBasis(Facts(log), f.basis.supporting + supporting, f.basis.contradicting + contradicting, basis)
    ensures Legal(log, time, ForecastVersion(Folded(f, basis)))
  {
    StandsAtAProbability(log, f.id);
    assert LegalMove(log, time, f, Folded(f, basis));
  }

  lemma StandsAtAProbability(log: History, id: Id)
    requires Reachable(log) && CurrentForecast(log, id).TheForecast?
    ensures IsProbability(CurrentForecast(log, id).f.probability)
  {
    EveryHistoryIsALifecycle(log, id);
    CurrentIsLast(log, id);
  }

  method OpenForecast(ctx: AnalyticContext, r: Request)
    requires ctx.Valid() && CurrentForecast(ctx.log, r.id).NoForecast? && CreationAllowed(ctx.log, r)
    modifies ctx
    ensures ctx.Valid() && old(ctx.clock) <= ctx.clock
    ensures Confined(ctx.log, old(ctx.log), Scope({r.id}, {}, {}))
    ensures AfterCreation(old(ctx.log), ctx.log, r) && SubjectHas(ctx.log, OnForecast(r.id), CREATED)
  {
    ghost var before := ctx.log;
    var basis := ComputeBasis(Facts(ctx.log), r.supporting, r.contradicting);
    var now := ctx.Now();
    ctx.Add(now, ForecastVersion(Opening(r, basis)));
    assert Confined(ctx.log, before, Scope({r.id}, {}, {}));
    ctx.EnsureTransition(Transition(OnForecast(r.id), CREATED, Given(r.cause)));
  }

  /** The note of a fold, keyed by what it adds. */
  function FoldNote(f: Forecast, r: Request): Transition {
    Transition(OnForecast(r.id), EVIDENCE_UPDATED,
               FoldKey(r.id, multiset(Missing(r.supporting, f.basis.supporting))
                             + multiset(Missing(r.contradicting, f.basis.contradicting))))
  }

  /** The claims that key it are those cited now and not rested on before, on the side they are cited for. */
  lemma FoldNoteMeans(f: Forecast, r: Request)
    ensures FoldNote(f, r).key.FoldKey?
    ensures forall x :: x in FoldNote(f, r).key.claims <==>
              || (x in r.supporting && x !in f.basis.supporting)
              || (x in r.contradicting && x !in f.basis.contradicting)
  {
    var added, against := Missing(r.supporting, f.basis.supporting), Missing(r.contradicting, f.basis.contradicting);
    assert forall x :: x in multiset(added) + multiset(against) <==> x in added || x in against;
  }

  /** A call that folds in evidence leaves the note of it. */
  predicate FoldNoted(before: History, after: History, r: Request) {
    IsLive(before, r.id) && !Cites(CurrentForecast(before, r.id).f, r) ==>
      HasTransition(after, FoldNote(CurrentForecast(before, r.id).f, r))
  }

  lemma FoldLands(before: History, time: Time, r: Request, basis: Basis)
    requires IsLive(before, r.id) && !Cites(CurrentForecast(before, r.id).f, r)
    requires var f := CurrentForecast(before, r.id).f;
             IsBasis(Facts(before), f.basis.supporting + Missing(r.supporting, f.basis.supporting),
                     f.basis.contradicting + Missing(r.contradicting, f.basis.contradicting), basis)
    ensures var after: History := Append(before, time, ForecastVersion(Folded(CurrentForecast(before, r.id).f, basis)));
            AfterCreation(before, after, r) && Confined(after, before, Scope({r.id}, {}, {}))
  {
  }

  lemma NoteKeepsTheFold(before: History, landed: History, after: History, r: Request)
    requires AfterCreation(before, landed, r) && Confined(landed, before, Scope({r.id}, {}, {}))
    requires IsLive(before, r.id)
    requires after.Append? && after.prev == landed
             && after.record == Moved(FoldNote(CurrentForecast(before, r.id).f, r))
    ensures AfterCreation(before, after, r) && Confined(after, before, Scope({r.id}, {}, {}))
  {
  }

  method FoldEvidence(ctx: AnalyticContext, r: Request)
    requires ctx.Valid() && IsLive(ctx.log, r.id) && !Cites(CurrentForecast(ctx.log, r.id).f, r)
    modifies ctx
    ensures ctx.Valid() && old(ctx.clock) <= ctx.clock
    ensures Confined(ctx.log, old(ctx.log), Scope({r.id}, {}, {}))
    ensures AfterCreation(old(ctx.log), ctx.log, r) && FoldNoted(old(ctx.log), ctx.log, r)
  {
    ghost var before := ctx.log;
    var f := CurrentForecast(ctx.log, r.id).f;
    var supporting := Missing(r.supporting, f.basis.supporting);
    var contradicting := Missing(r.contradicting, f.basis.contradicting);
    var basis := ComputeBasis(Facts(ctx.log), f.basis.supporting + supporting, f.basis.contradicting + contradicting);
    var now := ctx.Now();
    FoldIsLegal(ctx.log, now, f, supporting, contradicting, basis);
    ctx.Add(now, ForecastVersion(Folded(f, basis)));
    FoldLands(before, now, r, basis);
    ghost var landed := ctx.log;
    ctx.RecordTransition(FoldNote(f, r));
    if ctx.log != landed { NoteKeepsTheFold(before, landed, ctx.log, r); }
  }

  /** Re-calling never moves a number: a different probability, or another model's proposal, is refused. */
  method CreateForecast(ctx: AnalyticContext, r: Request) returns (outcome: Outcome)
    requires ctx.Valid()
    modifies ctx
    ensures ctx.Valid() && old(ctx.clock) <= ctx.clock
    ensures outcome.Done? <==> CreationAllowed(old(ctx.log), r)
    ensures Confined(ctx.log, old(ctx.log), Scope({r.id}, {}, {}))
    ensures outcome.Refused? ==> CurrentForecast(ctx.log, r.id) == CurrentForecast(old(ctx.log), r.id)
    ensures outcome.Done? ==>
      AfterCreation(old(ctx.log), ctx.log, r) && SubjectHas(ctx.log, OnForecast(r.id), CREATED)
        && FoldNoted(old(ctx.log), ctx.log, r)
    ensures CreationSettled(old(ctx.log), r) ==> ctx.log == old(ctx.log)
    ensures outcome.Done? && CurrentForecast(old(ctx.log), r.id).NoForecast? ==>
      var g := CurrentForecast(ctx.log, r.id).f;
      && g.probability == r.probability && g.status == OPEN && g.version == 1
      && g.trail == if r.model then FromProposal(r.proposal.id) else NoProposal
  {
    ghost var before := ctx.log;
    if CurrentForecast(ctx.log, r.id).NoForecast? {
      if r.probability <= 0.0 || 1.0 <= r.probability { return Refused; }
      if r.model {
        if r.proposal == Anything || ProposalSpent(ctx.log, r.proposal.id) { return Refused; }
        if !Recorded(ctx.log, Accepted(r.proposal.id, r.question, r.horizon, r.probability)) { return Refused; }
      }
      OpenForecast(ctx, r);
      return Done;
    }
    var f := CurrentForecast(ctx.log, r.id).f;
    ctx.EnsureTransition(Transition(OnForecast(r.id), CREATED, Given(r.cause)));
    if Terminal(f.status) { return Done; }
    if r.model && !(r.proposal.Exactly? && f.trail == FromProposal(r.proposal.id)) { return Refused; }
    if f.probability - r.probability > 0.000000001 || r.probability - f.probability > 0.000000001 { return Refused; }
    if Cites(f, r) { return Done; }
    ghost var noted := ctx.log;
    assert Confined(noted, before, Scope({r.id}, {}, {}));
    FoldEvidence(ctx, r);
    ConfinedTrans(ctx.log, noted, before, Scope({r.id}, {}, {}), Scope({r.id}, {}, {}));
    MarkOfKindIsKept(ctx.log, noted, Scope({r.id}, {}, {}), OnForecast(r.id), CREATED);
    return Done;
  }

  lemma {:induction false} MarkOfKindIsKept(later: History, earlier: History, scope: Scope, subject: Subject,
        kind: TransitionType)
    requires Confined(later, earlier, scope) && SubjectHas(earlier, subject, kind)
    ensures SubjectHas(later, subject, kind)
  {
    if later != earlier { MarkOfKindIsKept(later.prev, earlier, scope, subject, kind); }
  }

  // ---------------------------------------------------------------- when a second call changes nothing

  predicate OnRecord(facts: seq<Fact>, ids: seq<Id>) {
    forall id :: id in ids ==> ClaimById(facts, id).Some?
  }

  /** Every claim a basis rests on is on record, and stays so. */
  lemma {:induction false} BasisIsOnRecord(log: History, id: Id)
    requires Reachable(log) && CurrentForecast(log, id).TheForecast?
    ensures OnRecord(Facts(log), CurrentForecast(log, id).f.basis.supporting)
    ensures OnRecord(Facts(log), CurrentForecast(log, id).f.basis.contradicting)
  {
    if log.record.ForecastVersion? && log.record.forecast.id == id {
      var f := log.record.forecast;
      if CurrentForecast(log.prev, id).TheForecast? {
        BasisIsOnRecord(log.prev, id);
        NewBasisIsOnRecord(log.prev, log.time, CurrentForecast(log.prev, id).f, f);
      } else {
        var supporting, contradicting :| IsBasis(Facts(log.prev), supporting, contradicting, f.basis);
        ResolvedIs(Facts(log.prev), supporting);
        ResolvedIs(Facts(log.prev), contradicting);
      }
    } else {
      BasisIsOnRecord(log.prev, id);
      if log.record.Known? {
        var basis := CurrentForecast(log, id).f.basis;
        forall c | c in basis.supporting ensures ClaimById(Facts(log), c).Some? {
        }
        forall c | c in basis.contradicting ensures ClaimById(Facts(log), c).Some? {
        }
      }
    }
  }

  lemma NewBasisIsOnRecord(log: History, time: Time, u: Forecast, v: Forecast)
    requires LegalMove(log, time, u, v)
    requires OnRecord(Facts(log), u.basis.supporting) && OnRecord(Facts(log), u.basis.contradicting)
    ensures OnRecord(Facts(log), v.basis.supporting) && OnRecord(Facts(log), v.basis.contradicting)
  {
    if v.cause.CreationFold? {
      var supporting, contradicting :|
        IsBasis(Facts(log), u.basis.supporting + supporting, u.basis.contradicting + contradicting, v.basis);
      ResolvedIs(Facts(log), u.basis.supporting + supporting);
      ResolvedIs(Facts(log), u.basis.contradicting + contradicting);
    } else if v.cause.Refresh? && v.basis != u.basis {
      assert IsBasis(Facts(log), u.basis.supporting, u.basis.contradicting, v.basis);
      ResolvedIs(Facts(log), u.basis.supporting);
      ResolvedIs(Facts(log), u.basis.contradicting);
    }
  }

  /**
   * Creation is idempotent exactly when every claim the call cites is on record. A cited id that names no claim
   * never enters the basis, so each repetition of the call appends another fold of it.
   */
  lemma RepeatingIsIdleIffClaimsExist(before: History, after: History, r: Request)
    requires Reachable(before) && Reachable(after) && Confined(after, before, Scope({r.id}, {}, {}))
    requires AfterCreation(before, after, r) && SubjectHas(after, OnForecast(r.id), CREATED)
    requires !Terminal(CurrentForecast(after, r.id).f.status)
    ensures CreationSettled(after, r) <==>
            OnRecord(Facts(before), r.supporting) && OnRecord(Facts(before), r.contradicting)
  {
    var g := CurrentForecast(after, r.id).f;
    ConfinedExtends(after, before, Scope({r.id}, {}, {}));
    BasisIsOnRecord(after, r.id);
    ResolvedIs(Facts(before), r.supporting);
    ResolvedIs(Facts(before), r.contradicting);
    if CurrentForecast(before, r.id).TheForecast? {
      var f := CurrentForecast(before, r.id).f;
      ResolvedIs(Facts(before), f.basis.supporting + Missing(r.supporting, f.basis.supporting));
      ResolvedIs(Facts(before), f.basis.contradicting + Missing(r.contradicting, f.basis.contradicting));
    }
    CitesMeansKnown(g, r);
  }

  lemma CitesMeansKnown(f: Forecast, r: Request)
    ensures Cites(f, r) <==> (forall x :: x in r.supporting ==> x in f.basis.supporting)
                             && (forall x :: x in r.contradicting ==> x in f.basis.contradicting)
  {
    NothingMissing(r.supporting, f.basis.supporting);
    NothingMissing(r.contradicting, f.basis.contradicting);
  }

  lemma NothingMissing(ids: seq<Id>, known: seq<Id>)
    ensures Missing(ids, known) == [] <==> forall x :: x in ids ==> x in known
  {
    var missing := Missing(ids, known);
    if missing == [] {
      forall x | x in ids ensures x in known {
        assert x in missing <==> x !in known;
      }
    } else {
      var x := missing[0];
      assert x in missing && x in ids && x !in known;
    }
  }
}
