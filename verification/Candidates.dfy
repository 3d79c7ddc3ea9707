/** Model candidates: a human acceptance binds what it may become, and is spent by becoming it once. */
module Candidates {
  import opened Options
  import opened EventLog
  import opened FiniteSets

  // ---------------------------------------------------------------- records

  datatype Kind =
    | Theme | Narrative | Variant | PropagationEdge | StakeholderAssessment | Influence | ImpactPath | ResponseOption
    | Analogue | Forecast | Indicator | Warning

  datatype Field =
    | Title | SupportingClaims | Statement | Relation | ClaimIds | NarrativeId | FromManifestation | ToManifestation
    | EntityObject | ContextKind | ContextId | RoleInContext | Claims | SourceObject | TargetObject | InfluenceKind
    | ObjectiveId | Summary | EdgeChain | PathId | Description | QueryId | EpisodeId
    | Question | Probability | HorizonTime | IndicatorKind | ForecastIds | Further(name: int)

  /** A list is compared as a sorted tuple: in any order, but with its repetitions. */
  datatype Value = Text(text: int) | Number(number: real) | Items(items: multiset<int>)

  type Content = map<Field, Value>

  datatype ProposalStatus = PROPOSED | ACCEPTED | REJECTED

  /** An operational proposal type, or a candidate for one kind of analytical object. */
  datatype Target = Operational | Candidate(kind: Kind)

  datatype Proposal = Proposal(id: int, inference: int, target: Target, content: Content, status: ProposalStatus)

  /** The proposal id a version carries; a version that leaves it out carries none. */
  datatype Carried = NoProposal | Carries(proposal: int)

  /** An id that is a digest of fields the acceptance binds, or one that covers more than those. */
  datatype ObjectId = DigestOf(fields: Content) | Named(name: int)

  datatype Identity = Identity(kind: Kind, id: ObjectId)

  datatype Record =
    | Inference(inference: int)
    | Resolution(proposal: int, accept: bool, human: bool)
    | Proposed(p: Proposal)
    | Version(subject: Identity, version: int, carried: Carried, fields: Content)
    | Transition(transition: int)

  type History = Log<Record>

  // ---------------------------------------------------------------- replayed views

  datatype MaybeProposal = NoProposalYet | Latest(p: Proposal)

  /** The last record appended under the proposal's id. */
  function LatestProposal(log: History, id: int): (r: MaybeProposal)
    ensures r.Latest? ==> r.p.id == id
  {
    if log.Empty? then NoProposalYet
    else if log.record.Proposed? && log.record.p.id == id then Latest(log.record.p)
    else LatestProposal(log.prev, id)
  }

  datatype Spent = Unspent | SpentBy(subject: Identity)

  /** What first carried the proposal. */
  function Materialization(log: History, proposal: int): Spent {
    if log.Empty? then Unspent
    else if Materialization(log.prev, proposal).SpentBy? then Materialization(log.prev, proposal)
    else if log.record.Version? && log.record.carried == Carries(proposal) then SpentBy(log.record.subject)
    else Unspent
  }

  predicate HasTransition(log: History, id: int) {
    Recorded(log, Transition(id))
  }

  function VersionOf(log: History, o: Identity): int {
    if log.Empty? then 0
    else if log.record.Version? && log.record.subject == o then log.record.version
    else VersionOf(log.prev, o)
  }

  // ---------------------------------------------------------------- the gate

  /** The fields a candidate of a kind must declare and its materialization must match. */
  function BindingFields(kind: Kind): set<Field> {
    match kind
    case Theme => {Title, SupportingClaims}
    case Narrative => {Statement, SupportingClaims}
    case Variant => {Statement, Relation, ClaimIds}
    case PropagationEdge => {NarrativeId, FromManifestation, ToManifestation}
    case StakeholderAssessment => {EntityObject, ContextKind, ContextId, RoleInContext, Claims}
    case Influence => {SourceObject, TargetObject, InfluenceKind}
    case ImpactPath => {ObjectiveId, Summary, EdgeChain}
    case ResponseOption => {ObjectiveId, PathId, Description}
    case Analogue => {QueryId, EpisodeId}
    case Forecast => {Question, Probability, HorizonTime}
    case Indicator => {Description, IndicatorKind, ForecastIds}
    case Warning => {}
  }

  /** The bound fields whose digest is the object's id; none where the id also covers what is not bound. */
  function IdFields(kind: Kind): (r: set<Field>)
    ensures r <= BindingFields(kind)
  {
    match kind
    case Narrative => {Statement}
    case PropagationEdge => {NarrativeId, FromManifestation, ToManifestation}
    case StakeholderAssessment => {EntityObject, ContextKind, ContextId}
    case Influence => {SourceObject, TargetObject, InfluenceKind}
    case ResponseOption => {ObjectiveId, PathId, Description}
    case Forecast => {Question, HorizonTime}
    case Indicator => {Description, ForecastIds}
    // a parent theme, a narrative, edge labels and a query's kind are in these ids and not bound
    case Theme | Variant | ImpactPath | Analogue | Warning => {}
  }

  /** The object's id is the one its fields give it. */
  predicate IsNamedBy(o: Identity, fields: Content) {
    IdFields(o.kind) != {} ==> o.id == DigestOf(map f | f in IdFields(o.kind) && f in fields :: fields[f])
  }

  /** The materialization is what the human accepted: every binding field, and every field both state. */
  predicate Binds(content: Content, kind: Kind, materialized: Content) {
    && (forall f :: f in BindingFields(kind) ==> f in materialized && f in content && content[f] == materialized[f])
    && (forall f :: f in materialized && f in content ==> content[f] == materialized[f])
  }

  /** The same, asked of one field. */
  predicate IsBound(kind: Kind, f: Field) {
    match kind
    case Theme => f.Title? || f.SupportingClaims?
    case Narrative => f.Statement? || f.SupportingClaims?
    case Variant => f.Statement? || f.Relation? || f.ClaimIds?
    case PropagationEdge => f.NarrativeId? || f.FromManifestation? || f.ToManifestation?
    case StakeholderAssessment => f.EntityObject? || f.ContextKind? || f.ContextId? || f.RoleInContext? || f.Claims?
    case Influence => f.SourceObject? || f.TargetObject? || f.InfluenceKind?
    case ImpactPath => f.ObjectiveId? || f.Summary? || f.EdgeChain?
    case ResponseOption => f.ObjectiveId? || f.PathId? || f.Description?
    case Analogue => f.QueryId? || f.EpisodeId?
    case Forecast => f.Question? || f.Probability? || f.HorizonTime?
    case Indicator => f.Description? || f.IndicatorKind? || f.ForecastIds?
    case Warning => false
  }

  predicate OfDiscourse(kind: Kind) {
    kind.Theme? || kind.Narrative? || kind.Variant? || kind.PropagationEdge? || kind.StakeholderAssessment?
  }

  lemma BoundOfDiscourse(kind: Kind, f: Field)
    requires OfDiscourse(kind)
    ensures IsBound(kind, f) <==> f in BindingFields(kind)
  {
  }

  lemma BoundOfOutlook(kind: Kind, f: Field)
    requires !OfDiscourse(kind)
    ensures IsBound(kind, f) <==> f in BindingFields(kind)
  {
  }

  lemma BoundIsBinding(kind: Kind, f: Field)
    ensures IsBound(kind, f) <==> f in BindingFields(kind)
  {
    if OfDiscourse(kind) { BoundOfDiscourse(kind, f); } else { BoundOfOutlook(kind, f); }
  }

  /** Every one of the fields is declared, stated, and stated as declared. */
  method CheckDeclared(content: Content, fields: set<Field>, materialized: Content) returns (ok: bool)
    ensures ok <==> forall f :: f in fields ==> f in materialized && f in content && content[f] == materialized[f]
  {
    var rest := fields;
    while rest != {}
      invariant rest <= fields
      invariant forall f :: f in fields && f !in rest ==>
        f in materialized && f in content && content[f] == materialized[f]
      decreases |rest|
    {
      ghost var _ := SomeElement(rest);
      var f :| f in rest;
      if f !in content || f !in materialized || content[f] != materialized[f] { return false; }
      rest := rest - {f};
    }
    return true;
  }

  /** The bound fields first, then whatever else both state. */
  method CheckBinding(content: Content, kind: Kind, materialized: Content) returns (ok: bool)
    ensures ok == Binds(content, kind, materialized)
  {
    var declared := CheckDeclared(content, BindingFields(kind), materialized);
    if !declared { return false; }
    ok := CheckStated(content, materialized);
  }

  /** Whatever both state they state alike. */
  method CheckStated(content: Content, materialized: Content) returns (ok: bool)
    ensures ok <==> forall f :: f in materialized && f in content ==> content[f] == materialized[f]
  {
    var stated := materialized.Keys;
    while stated != {}
      invariant stated <= materialized.Keys
      invariant forall f :: f in materialized && f !in stated && f in content ==> content[f] == materialized[f]
      decreases |stated|
    {
      ghost var _ := SomeElement(stated);
      var f :| f in stated;
      if f in content && content[f] != materialized[f] { return false; }
      stated := stated - {f};
    }
    return true;
  }

  /** Everything the gate checks of one materialization. */
  predicate GateOpens(log: History, inference: int, proposal: int, kind: Kind, materialized: Content) {
    && Recorded(log, Inference(inference))
    && LatestProposal(log, proposal).Latest?
    && (var p := LatestProposal(log, proposal).p;
        p.status == ACCEPTED && p.inference == inference && p.target == Candidate(kind)
          && Binds(p.content, kind, materialized))
    && Materialization(log, proposal).Unspent?
  }

  /** The gate's checks, in their order. */
  method CheckGate(log: History, inference: int, proposal: int, kind: Kind, materialized: Content) returns (ok: bool)
    ensures ok == GateOpens(log, inference, proposal, kind, materialized)
  {
    if !Recorded(log, Inference(inference)) { return false; }
    var latest := LatestProposal(log, proposal);
    if latest.NoProposalYet? || latest.p.inference != inference { return false; }
    if latest.p.target.Operational? || latest.p.target.kind != kind { return false; }
    if latest.p.status != ACCEPTED { return false; }
    var bound := CheckBinding(latest.p.content, kind, materialized);
    if !bound { return false; }
    return Materialization(log, proposal).Unspent?;
  }

  // ---------------------------------------------------------------- the rule of each append

  /** A candidate declares its binding fields; only a human's acceptance makes a proposal accepted. */
  ghost predicate LegalProposal(log: History, p: Proposal) {
    match p.status
    case PROPOSED => p.target.Candidate? && BindingFields(p.target.kind) <= p.content.Keys && p.target.kind != Warning
    case ACCEPTED => Recorded(log, Resolution(p.id, true, true)) && SomeProposed(log, p)
    case REJECTED => SomeProposed(log, p)
  }

  /** A resolution re-appends a proposal as it was when it was read, PROPOSED. */
  ghost predicate SomeProposed(log: History, p: Proposal) {
    exists seen :: Extends(log, seen) && LatestProposal(seen, p.id) == Latest(p.(status := PROPOSED))
  }

  /** A version that carries a proposal keeps it from the version before, or passed the gate on the log it read. */
  ghost predicate LegalVersion(log: History, o: Identity, version: int, carried: Carried, fields: Content) {
    && version == VersionOf(log, o) + 1
    && (carried.Carries? ==> CarriedBy(log, o, carried.proposal) || PassedGate(log, o, carried.proposal, fields))
  }

  /** Some version of the object carries the proposal. */
  predicate CarriedBy(log: History, o: Identity, proposal: int) {
    log.Append? && ((log.record.Version? && log.record.subject == o && log.record.carried == Carries(proposal))
                    || CarriedBy(log.prev, o, proposal))
  }

  ghost predicate GateOpened(seen: History, o: Identity, proposal: int, fields: Content) {
    IsNamedBy(o, fields) && exists inference :: GateOpens(seen, inference, proposal, o.kind, fields)
  }

  ghost predicate PassedGate(log: History, o: Identity, proposal: int, fields: Content) {
    exists seen :: Extends(log, seen) && GateOpened(seen, o, proposal, fields)
  }

  ghost predicate Legal(log: History, record: Record) {
    match record
    case Inference(_) => true
    case Resolution(_, accept, human) => accept ==> human
    case Proposed(p) => LegalProposal(log, p)
    case Version(o, version, carried, fields) => LegalVersion(log, o, version, carried, fields)
    case Transition(_) => true
  }

  ghost predicate Reachable(log: History) {
    log.Append? ==> Reachable(log.prev) && Legal(log.prev, log.record)
  }

  // ---------------------------------------------------------------- runs: what each append had read

  /** What a version rests on: nothing it had to read, or the gate as it stood on the log it read. */
  datatype Reading = NoReading | GateRead(seen: History)

  datatype Run = Start | Then(before: Run, time: Time, record: Record, reading: Reading)

  function LogOf(run: Run): History {
    if run.Start? then Empty else Append(LogOf(run.before), run.time, run.record)
  }

  /** The append gives the proposal to an object that did not carry it. */
  predicate Spends(log: History, record: Record, proposal: int) {
    record.Version? && record.carried == Carries(proposal) && !CarriedBy(log, record.subject, proposal)
  }

  /** A spending append names the log on which its gate opened. */
  ghost predicate RestsOnGate(log: History, record: Record, reading: Reading) {
    record.Version? && record.carried.Carries? && Spends(log, record, record.carried.proposal) ==>
      && reading.GateRead? && Extends(log, reading.seen)
      && GateOpened(reading.seen, record.subject, record.carried.proposal, record.fields)
  }

  ghost predicate ValidRun(run: Run) {
    run.Then? ==>
      && ValidRun(run.before) && Legal(LogOf(run.before), run.record)
      && RestsOnGate(LogOf(run.before), run.record, run.reading)
  }

  lemma {:induction false} RunIsReachable(run: Run)
    requires ValidRun(run)
    ensures Reachable(LogOf(run))
  {
    if run.Then? { RunIsReachable(run.before); }
  }

  /** Every log that can be reached is that of a run. */
  lemma {:induction false} ReachableHasRun(log: History) returns (run: Run)
    requires Reachable(log)
    ensures ValidRun(run) && LogOf(run) == log
  {
    if log.Empty? { return Start; }
    var before := ReachableHasRun(log.prev);
    var r, reading := log.record, NoReading;
    if r.Version? && r.carried.Carries? && Spends(log.prev, r, r.carried.proposal) {
      var seen :| Extends(log.prev, seen) && GateOpened(seen, r.subject, r.carried.proposal, r.fields);
      reading := GateRead(seen);
    }
    run := Then(before, log.time, r, reading);
  }

  // ---------------------------------------------------------------- acceptance is spent once

  lemma {:induction false} SpentStaysSpent(log: History, kept: History, proposal: int)
    requires Extends(log, kept) && Materialization(kept, proposal).SpentBy?
    ensures Materialization(log, proposal) == Materialization(kept, proposal)
  {
    if log != kept { SpentStaysSpent(log.prev, kept, proposal); }
  }

  lemma {:induction false} CarriedMeansSpent(log: History, o: Identity, proposal: int)
    requires CarriedBy(log, o, proposal)
    ensures Materialization(log, proposal).SpentBy?
  {
    if CarriedBy(log.prev, o, proposal) { CarriedMeansSpent(log.prev, o, proposal); }
  }

  /** All records that carry the proposal are of one object. */
  ghost predicate OneCarrier(log: History, proposal: int) {
    forall a, b :: CarriedBy(log, a, proposal) && CarriedBy(log, b, proposal) ==> a == b
  }

  /** Between reading `seen` and the end of the log, a version of another object than `o` carried the proposal. */
  predicate CarriedSince(log: History, seen: History, o: Identity, proposal: int) {
    && log != seen && log.Append?
    && ((log.record.Version? && log.record.carried == Carries(proposal) && log.record.subject != o)
        || CarriedSince(log.prev, seen, o, proposal))
  }

  /** Some append spent the proposal although another object had been given it since the gate was read. */
  predicate Disturbed(run: Run, proposal: int) {
    run.Then? &&
    (Disturbed(run.before, proposal)
     || (Spends(LogOf(run.before), run.record, proposal) && run.reading.GateRead?
         && CarriedSince(LogOf(run.before), run.reading.seen, run.record.subject, proposal)))
  }

  lemma {:induction false} OthersSince(log: History, seen: History, o: Identity, x: Identity, proposal: int)
    requires Extends(log, seen) && CarriedBy(log, x, proposal) && !CarriedBy(seen, x, proposal) && x != o
    ensures CarriedSince(log, seen, o, proposal)
  {
    if CarriedBy(log.prev, x, proposal) { OthersSince(log.prev, seen, o, x, proposal); }
  }

  lemma {:induction false} SomeOther(log: History, seen: History, o: Identity, proposal: int) returns (x: Identity)
    requires CarriedSince(log, seen, o, proposal)
    ensures x != o && CarriedBy(log, x, proposal)
  {
    if log.record.Version? && log.record.carried == Carries(proposal) && log.record.subject != o {
      x := log.record.subject;
    } else {
      x := SomeOther(log.prev, seen, o, proposal);
    }
  }

  lemma {:induction false} FirstCarrierCarries(log: History, proposal: int)
    requires Materialization(log, proposal).SpentBy?
    ensures CarriedBy(log, Materialization(log, proposal).subject, proposal)
  {
    if Materialization(log.prev, proposal).SpentBy? { FirstCarrierCarries(log.prev, proposal); }
  }

  /** Behind a gate that saw the proposal unspent, a spending append is disturbed exactly if it is spent by now. */
  lemma SpendingIsFirstIff(log: History, seen: History, o: Identity, proposal: int)
    requires Extends(log, seen) && Materialization(seen, proposal).Unspent? && !CarriedBy(log, o, proposal)
    ensures CarriedSince(log, seen, o, proposal) <==> Materialization(log, proposal).SpentBy?
  {
    if CarriedSince(log, seen, o, proposal) {
      var x := SomeOther(log, seen, o, proposal);
      CarriedMeansSpent(log, x, proposal);
    }
    if Materialization(log, proposal).SpentBy? {
      FirstCarrierCarries(log, proposal);
      var x := Materialization(log, proposal).subject;
      if CarriedBy(seen, x, proposal) { CarriedMeansSpent(seen, x, proposal); }
      OthersSince(log, seen, o, x, proposal);
    }
  }

  /**
   * In every run, all records that carry a proposal are of one object, exactly when no spending append came after
   * another object had been given the proposal since that append's gate was read.
   */
  lemma {:induction false} AcceptanceIsSpentOnce(run: Run, proposal: int)
    requires ValidRun(run)
    ensures OneCarrier(LogOf(run), proposal) <==> !Disturbed(run, proposal)
  {
    if run.Start? { return; }
    AcceptanceIsSpentOnce(run.before, proposal);
    var log, record := LogOf(run.before), run.record;
    if Spends(log, record, proposal) {
      SpendingIsFirstIff(log, run.reading.seen, record.subject, proposal);
      if Materialization(log, proposal).SpentBy? {
        FirstCarrierCarries(log, proposal);
        assert CarriedBy(LogOf(run), Materialization(log, proposal).subject, proposal);
        assert CarriedBy(LogOf(run), record.subject, proposal);
      } else {
        forall x | CarriedBy(LogOf(run), x, proposal) ensures x == record.subject {
          if CarriedBy(log, x, proposal) { CarriedMeansSpent(log, x, proposal); }
        }
        forall x ensures !CarriedBy(log, x, proposal) {
          if CarriedBy(log, x, proposal) { CarriedMeansSpent(log, x, proposal); }
        }
      }
    } else {
      forall x ensures CarriedBy(LogOf(run), x, proposal) <==> CarriedBy(log, x, proposal) { }
    }
  }

  /** Every spending append was made on condition that the proposal is still unspent in the log it lands on. */
  predicate OnCondition(run: Run, proposal: int) {
    run.Then? ==>
      && OnCondition(run.before, proposal)
      && (Spends(LogOf(run.before), run.record, proposal) ==> Materialization(LogOf(run.before), proposal).Unspent?)
  }

  /** Were the gate's own test a condition of the append, the race could not happen. */
  lemma {:induction false} ConditionRulesOutTheRace(run: Run, proposal: int)
    requires ValidRun(run) && OnCondition(run, proposal)
    ensures !Disturbed(run, proposal) && OneCarrier(LogOf(run), proposal)
  {
    if run.Then? {
      ConditionRulesOutTheRace(run.before, proposal);
      var log, record := LogOf(run.before), run.record;
      if Spends(log, record, proposal) && CarriedSince(log, run.reading.seen, record.subject, proposal) {
        var x := SomeOther(log, run.reading.seen, record.subject, proposal);
        CarriedMeansSpent(log, x, proposal);
      }
    }
    AcceptanceIsSpentOnce(run, proposal);
  }

  /** A writer that appends on the log its gate read leaves the acceptance spent on one object. */
  lemma UndisturbedGateIsNotOvertaken(
      run: Run, time: Time, o: Identity, version: int, fields: Content, proposal: int)
    requires ValidRun(run) && OneCarrier(LogOf(run), proposal) && GateOpened(LogOf(run), o, proposal, fields)
    requires version == VersionOf(LogOf(run), o) + 1
    ensures var next := Then(run, time, Version(o, version, Carries(proposal), fields), GateRead(LogOf(run)));
            && ValidRun(next) && !Disturbed(next, proposal) && OneCarrier(LogOf(next), proposal)
            && Materialization(LogOf(next), proposal) == SpentBy(o)
  {
    var next := Then(run, time, Version(o, version, Carries(proposal), fields), GateRead(LogOf(run)));
    assert Extends(LogOf(run), LogOf(run));
    assert Legal(LogOf(run), next.record);
    AcceptanceIsSpentOnce(run, proposal);
    AcceptanceIsSpentOnce(next, proposal);
  }

  /** The race is open for every kind whose id covers more than what is bound: two such objects can both be made. */
  lemma TwoWritersCanSpendTwice(run: Run, time: Time, a: Identity, b: Identity, inference: int, proposal: int,
        fields: Content)
    returns (raced: Run)
    requires ValidRun(run) && GateOpens(LogOf(run), inference, proposal, a.kind, fields)
    requires a != b && a.kind == b.kind && IdFields(a.kind) == {}
    requires VersionOf(LogOf(run), a) == 0 && VersionOf(LogOf(run), b) == 0
    ensures ValidRun(raced) && Extends(LogOf(raced), LogOf(run))
    ensures Disturbed(raced, proposal) && !OneCarrier(LogOf(raced), proposal)
  {
    var log := LogOf(run);
    assert GateOpened(log, a, proposal, fields) && GateOpened(log, b, proposal, fields);
    var first := Then(run, time, Version(a, 1, Carries(proposal), fields), GateRead(log));
    assert Extends(log, log);
    assert Legal(log, first.record);
    raced := Then(first, time, Version(b, 1, Carries(proposal), fields), GateRead(log));
    assert Extends(LogOf(first), log);
    assert Legal(LogOf(first), raced.record);
    if CarriedBy(log, b, proposal) { CarriedMeansSpent(log, b, proposal); }
    assert Disturbed(raced, proposal);
    AcceptanceIsSpentOnce(raced, proposal);
  }

  // ---------------------------------------------------------------- what the binding fixes

  /** All that was recorded under the proposal's id states one kind and one content. */
  ghost predicate OneContent(log: History, proposal: int) {
    forall p, q :: Recorded(log, Proposed(p)) && Recorded(log, Proposed(q)) && p.id == proposal && q.id == proposal ==>
      p.target == q.target && p.content == q.content
  }

  lemma {:induction false} LatestIsRecorded(log: History, id: int)
    requires LatestProposal(log, id).Latest?
    ensures Recorded(log, Proposed(LatestProposal(log, id).p))
  {
    if !(log.record.Proposed? && log.record.p.id == id) { LatestIsRecorded(log.prev, id); }
  }

  /** A version was checked against a recorded proposal: its kind, its binding fields and its id are that proposal's. */
  ghost predicate MadeFrom(log: History, o: Identity, proposal: int, fields: Content) {
    exists p :: Recorded(log, Proposed(p)) && p.id == proposal && p.target == Candidate(o.kind)
                && Binds(p.content, o.kind, fields) && IsNamedBy(o, fields)
  }

  lemma SpendingIsMadeFrom(log: History, kept: History, proposal: int)
    requires Reachable(log) && Extends(log, kept) && kept.Append? && Spends(kept.prev, kept.record, proposal)
    ensures MadeFrom(log, kept.record.subject, proposal, kept.record.fields)
  {
    PrefixIsReachable(log, kept);
    var o, fields := kept.record.subject, kept.record.fields;
    var seen :| Extends(kept.prev, seen) && GateOpened(seen, o, proposal, fields);
    var inference :| GateOpens(seen, inference, proposal, o.kind, fields);
    LatestIsRecorded(seen, proposal);
    var p := LatestProposal(seen, proposal).p;
    assert Extends(kept, seen);
    ExtendsTrans(log, kept, seen);
    RecordedStays(log, seen, Proposed(p));
  }

  /** Whatever two materializations of one accepted content there are, they agree on every field their kind binds. */
  lemma BindingIsUnavoidable(log: History, one: History, two: History, proposal: int)
    requires Reachable(log) && OneContent(log, proposal)
    requires Extends(log, one) && one.Append? && Spends(one.prev, one.record, proposal)
    requires Extends(log, two) && two.Append? && Spends(two.prev, two.record, proposal)
    ensures one.record.subject.kind == two.record.subject.kind
    ensures var a, b := one.record.fields, two.record.fields;
            forall f :: IsBound(one.record.subject.kind, f) ==> f in a && f in b && a[f] == b[f]
  {
    forall f { BoundIsBinding(one.record.subject.kind, f); }
    SpendingIsMadeFrom(log, one, proposal);
    SpendingIsMadeFrom(log, two, proposal);
  }

  /** The append that gave an object the proposal. */
  lemma {:induction false} SpendingAppend(log: History, o: Identity, proposal: int) returns (kept: History)
    requires CarriedBy(log, o, proposal)
    ensures Extends(log, kept) && kept.Append? && Spends(kept.prev, kept.record, proposal) && kept.record.subject == o
  {
    if CarriedBy(log.prev, o, proposal) { kept := SpendingAppend(log.prev, o, proposal); } else { kept := log; }
  }

  /** Where the id is a digest of bound fields there is no race: one content can only ever become one object. */
  lemma FixedIdIsSpentOnce(log: History, proposal: int)
    requires Reachable(log) && OneContent(log, proposal)
    requires forall o :: CarriedBy(log, o, proposal) ==> IdFields(o.kind) != {}
    ensures OneCarrier(log, proposal)
  {
    forall a, b | CarriedBy(log, a, proposal) && CarriedBy(log, b, proposal) ensures a == b {
      var one := SpendingAppend(log, a, proposal);
      var two := SpendingAppend(log, b, proposal);
      BindingIsUnavoidable(log, one, two, proposal);
      SpendingIsMadeFrom(log, one, proposal);
      SpendingIsMadeFrom(log, two, proposal);
      var fa, fb, keys := one.record.fields, two.record.fields, IdFields(a.kind);
      assert (map f | f in keys && f in fa :: fa[f]) == (map f | f in keys && f in fb :: fb[f]);
    }
  }

  // ---------------------------------------------------------------- the first materialization followed a human

  /** The append at which a proposal was first carried. */
  lemma {:induction false} FirstCarrying(log: History, proposal: int) returns (kept: History)
    requires Materialization(log, proposal).SpentBy?
    ensures Extends(log, kept) && kept.Append? && Materialization(kept.prev, proposal).Unspent?
    ensures kept.record.Version? && kept.record.carried == Carries(proposal)
    ensures Materialization(log, proposal) == SpentBy(kept.record.subject)
  {
    if Materialization(log.prev, proposal).SpentBy? { kept := FirstCarrying(log.prev, proposal); } else { kept := log; }
  }

  lemma {:induction false} PrefixIsReachable(log: History, kept: History)
    requires Reachable(log) && Extends(log, kept)
    ensures Reachable(kept)
  {
    if log != kept { PrefixIsReachable(log.prev, kept); }
  }

  lemma {:induction false} AcceptedByHuman(log: History, id: int)
    requires Reachable(log) && LatestProposal(log, id).Latest? && LatestProposal(log, id).p.status == ACCEPTED
    ensures Recorded(log, Resolution(id, true, true))
  {
    if log.record.Proposed? && log.record.p.id == id {
    } else {
      AcceptedByHuman(log.prev, id);
    }
  }

  /** A proposal is recorded under its id exactly if there is a latest one. */
  lemma {:induction false} LatestExistsIff(log: History, id: int)
    ensures LatestProposal(log, id).Latest? <==> exists p :: Recorded(log, Proposed(p)) && p.id == id
  {
    if log.Append? {
      LatestExistsIff(log.prev, id);
      if log.record.Proposed? { assert Recorded(log, Proposed(log.record.p)); }
    }
  }

  /** Resolving changes nothing of a proposal but its status: what was accepted is what was proposed. */
  lemma {:induction false} ResolvedIsAsProposed(log: History, p: Proposal)
    requires Reachable(log) && Recorded(log, Proposed(p))
    ensures Recorded(log, Proposed(p.(status := PROPOSED)))
  {
    if log.record == Proposed(p) {
      if p.status != PROPOSED {
        var seen :| Extends(log.prev, seen) && LatestProposal(seen, p.id) == Latest(p.(status := PROPOSED));
        LatestIsRecorded(seen, p.id);
        RecordedStays(log.prev, seen, Proposed(p.(status := PROPOSED)));
      } else {
        assert p.(status := PROPOSED) == p;
      }
    } else {
      ResolvedIsAsProposed(log.prev, p);
    }
  }

  /** An object's versions, oldest first. */
  function VersionsOf(log: History, o: Identity): seq<int> {
    if log.Empty? then []
    else VersionsOf(log.prev, o) + (if log.record.Version? && log.record.subject == o then [log.record.version] else [])
  }

  /** They are numbered 1, 2, 3 and so on, whoever writes them. */
  lemma {:induction false} VersionsAreNumbered(log: History, o: Identity)
    requires Reachable(log)
    ensures VersionOf(log, o) == |VersionsOf(log, o)|
    ensures forall i :: 0 <= i < |VersionsOf(log, o)| ==> VersionsOf(log, o)[i] == i + 1
  {
    if log.Append? { VersionsAreNumbered(log.prev, o); }
  }

  lemma {:induction false} RecordedStays(log: History, kept: History, r: Record)
    requires Extends(log, kept) && Recorded(kept, r)
    ensures Recorded(log, r)
  {
    if log != kept { RecordedStays(log.prev, kept, r); }
  }

  /** The accepted proposal that a version was checked against. */
  ghost predicate AcceptedFor(log: History, proposal: int, kind: Kind, fields: Content) {
    exists seen :: Extends(log, seen) && LatestProposal(seen, proposal).Latest?
                   && LatestProposal(seen, proposal).p.status == ACCEPTED
                   && LatestProposal(seen, proposal).p.target == Candidate(kind)
                   && Binds(LatestProposal(seen, proposal).p.content, kind, fields)
  }

  /** Whatever first carries a proposal was accepted by a human, for that kind, with those fields. */
  lemma FirstMaterializationWasAccepted(log: History, proposal: int) returns (kept: History)
    requires Reachable(log) && Materialization(log, proposal).SpentBy?
    ensures Extends(log, kept) && kept.Append? && kept.record.Version? && kept.record.carried == Carries(proposal)
    ensures Materialization(log, proposal) == SpentBy(kept.record.subject)
    ensures Recorded(kept.prev, Resolution(proposal, true, true))
    ensures AcceptedFor(kept.prev, proposal, kept.record.subject.kind, kept.record.fields)
  {
    kept := FirstCarrying(log, proposal);
    PrefixIsReachable(log, kept);
    var o, fields := kept.record.subject, kept.record.fields;
    if CarriedBy(kept.prev, o, proposal) { CarriedMeansSpent(kept.prev, o, proposal); }
    var seen :| Extends(kept.prev, seen) && GateOpened(seen, o, proposal, fields);
    var inference :| GateOpens(seen, inference, proposal, o.kind, fields);
    PrefixIsReachable(kept.prev, seen);
    AcceptedByHuman(seen, proposal);
    RecordedStays(kept.prev, seen, Resolution(proposal, true, true));
  }

  /**
   * Resolving has no condition on its append: two resolvers that both read PROPOSED both succeed, the later one stands.
   */
  lemma TwoResolversCanBothSucceed(log: History, time: Time, id: int) returns (later: History)
    requires Reachable(log) && LatestProposal(log, id).Latest? && LatestProposal(log, id).p.status == PROPOSED
    ensures Reachable(later) && Extends(later, log)
    ensures var p := LatestProposal(log, id).p;
            && Recorded(later, Proposed(p.(status := ACCEPTED)))
            && LatestProposal(later, id) == Latest(p.(status := REJECTED))
  {
    var p := LatestProposal(log, id).p;
    var yes: History := Append(log, time, Resolution(id, true, true));
    assert Extends(yes, log) && LatestProposal(log, id) == Latest(p.(status := PROPOSED));
    var accepted: History := Append(yes, time, Proposed(p.(status := ACCEPTED)));
    assert p.(status := ACCEPTED).(status := PROPOSED) == p && p.(status := REJECTED).(status := PROPOSED) == p;
    assert SomeProposed(yes, p.(status := ACCEPTED));
    assert Recorded(yes, Resolution(p.id, true, true));
    assert Reachable(accepted);
    var no: History := Append(accepted, time, Resolution(id, false, true));
    assert Extends(accepted, log) && Extends(no, log);
    later := Append(no, time, Proposed(p.(status := REJECTED)));
    assert SomeProposed(no, p.(status := REJECTED));
  }

  // ---------------------------------------------------------------- the store's indexes

  class AnalyticStore {
    var log: History
    var materializations: map<int, Identity>
    var transitions: set<int>
    /** The appends that made the log, with what each had read. */
    ghost var run: Run

    /** The indexes are what a recomputation from the whole log would give. */
    ghost predicate Indexed()
      reads this
    {
      && (forall p :: p in materializations <==> Materialization(log, p).SpentBy?)
      && (forall p :: p in materializations ==> Materialization(log, p) == SpentBy(materializations[p]))
      && (forall t :: t in transitions <==> HasTransition(log, t))
    }

    ghost predicate Valid()
      reads this
    {
      Indexed() && ValidRun(run) && LogOf(run) == log
    }

    constructor ()
      ensures Valid() && log == Empty
    {
      log, materializations, transitions, run := Empty, map[], {}, Start;
    }

    /** Keep the indexes up to date with one more record; the first carrier of a proposal stays. */
    method IndexRecord(record: Record)
      modifies this`materializations, this`transitions
      ensures transitions == old(transitions) + if record.Transition? then {record.transition} else {}
      ensures materializations ==
        if record.Version? && record.carried.Carries? && record.carried.proposal !in old(materializations)
        then old(materializations)[record.carried.proposal := record.subject] else old(materializations)
    {
      if record.Transition? {
        transitions := transitions + {record.transition};
      } else if record.Version? && record.carried.Carries? && record.carried.proposal !in materializations {
        materializations := materializations[record.carried.proposal := record.subject];
      }
    }

    method Write(time: Time, record: Record, ghost reading: Reading)
      requires Valid() && Legal(log, record) && RestsOnGate(log, record, reading)
      modifies this
      ensures Valid() && log == Append(old(log), time, record) && run == Then(old(run), time, record, reading)
    {
      log, run := Append(log, time, record), Then(run, time, record, reading);
      IndexRecord(record);
    }

    /** Opening a store replays its log into empty indexes. */
    method Reopen()
      requires ValidRun(run) && LogOf(run) == log
      modifies this`materializations, this`transitions
      ensures Valid()
    {
      materializations, transitions := map[], {};
      var records := Records(log);
      RecordsOfPrefix(log);
      for i := 0 to |records|
        invariant IndexOf(records[..i], materializations, transitions)
      {
        assert records[..i + 1] == records[..i] + [records[i]];
        ghost var m, t := materializations, transitions;
        IndexRecord(records[i]);
      }
      assert records[..|records|] == records;
    }

    method MaterializationOf(proposal: int) returns (r: Spent)
      requires Indexed()
      ensures r == Materialization(log, proposal)
    {
      return if proposal in materializations then SpentBy(materializations[proposal]) else Unspent;
    }

    /** Other writers may append here; a caller may rely only on what this promises. */
    method OtherWriters() returns (ghost wrote: bool)
      requires Valid()
      modifies this
      ensures Valid() && Extends(log, old(log)) && (wrote || log == old(log))
    {
      wrote := false;
    }

    /** A candidate that does not declare its binding fields is refused. */
    method RecordCandidate(time: Time, id: int, kind: Kind, content: Content, inference: int) returns (recorded: bool)
      requires Valid()
      modifies this
      ensures Valid()
      ensures recorded <==> kind != Warning && forall f :: IsBound(kind, f) ==> f in content
      ensures log == if recorded then
              Append(old(log), time, Proposed(Proposal(id, inference, Candidate(kind), content, PROPOSED)))
                     else old(log)
    {
      forall f { BoundIsBinding(kind, f); }
      if kind == Warning || !(BindingFields(kind) <= content.Keys) { return false; }
      Write(time, Proposed(Proposal(id, inference, Candidate(kind), content, PROPOSED)), NoReading);
      return true;
    }

    /** The act first, then the proposal's new status; only a human accepts. */
    method ResolveCandidate(time: Time, id: int, accept: bool, human: bool) returns (resolved: bool)
      requires Valid()
      modifies this
      ensures Valid() && Extends(log, old(log))
      ensures resolved <==>
                LatestProposal(old(log), id).Latest? && LatestProposal(old(log), id).p.status == PROPOSED
                  && (accept ==> human)
      ensures resolved ==>
                LatestProposal(log, id) ==
                  Latest(LatestProposal(old(log), id).p.(status := if accept then ACCEPTED else REJECTED))
      ensures !resolved ==> log == old(log)
    {
      ghost var seen := log;
      var latest := LatestProposal(log, id);
      if latest.NoProposalYet? || latest.p.status != PROPOSED || (accept && !human) { return false; }
      Write(time, Resolution(id, accept, human), NoReading);
      ghost var acted := log;
      var _ := OtherWriters();
      RecordedStays(log, acted, Resolution(id, accept, human));
      ExtendsTrans(log, acted, seen);
      assert LatestProposal(seen, id) == Latest(latest.p.(status := PROPOSED));
      Write(time, Proposed(latest.p.(status := if accept then ACCEPTED else REJECTED)), NoReading);
      return true;
    }

    /** The first version of an object made from an accepted candidate: the gate is read, then the version appended. */
    method Materialize(time: Time, subject: Identity, fields: Content, inference: int, proposal: int)
      returns (made: bool, ghost disturbed: bool)
      requires Valid() && VersionOf(log, subject) == 0 && IsNamedBy(subject, fields)
      modifies this
      ensures Valid() && Extends(log, old(log))
      ensures made ==>
                run.Then?
                && run == Then(run.before, time, Version(subject, 1, Carries(proposal), fields), GateRead(old(log)))
      ensures made ==> GateOpens(old(log), inference, proposal, subject.kind, fields)
      ensures !GateOpens(old(log), inference, proposal, subject.kind, fields) ==> log == old(log)
      ensures made && !disturbed ==>
                Materialization(log, proposal) == SpentBy(subject)
                && (OneCarrier(old(log), proposal) ==> OneCarrier(log, proposal))
      ensures !disturbed ==> (made <==> GateOpens(old(log), inference, proposal, subject.kind, fields))
    {
      disturbed := false;
      ghost var seen := log;
      var spent := MaterializationOf(proposal);
      if spent.SpentBy? { return false, false; }
      var admitted := CheckGate(log, inference, proposal, subject.kind, fields);
      if !admitted { return false, false; }
      disturbed := OtherWriters();
      // the store takes a first version only of an object that still has none
      if VersionOf(log, subject) != 0 { return false, disturbed; }
      assert GateOpened(seen, subject, proposal, fields);
      ghost var live := run;
      Write(time, Version(subject, 1, Carries(proposal), fields), GateRead(seen));
      if !disturbed && OneCarrier(seen, proposal) {
        UndisturbedGateIsNotOvertaken(live, time, subject, 1, fields, proposal);
      }
      made := true;
    }
  }

  function Records(log: History): seq<Record> {
    if log.Empty? then [] else Records(log.prev) + [log.record]
  }

  /** The first carrier of a proposal among the first records. */
  function FirstCarrier(records: seq<Record>, proposal: int): Spent {
    if records == [] then Unspent
    else
      var before, last := FirstCarrier(records[..|records| - 1], proposal), records[|records| - 1];
      if before.SpentBy? then before
      else if last.Version? && last.carried == Carries(proposal) then SpentBy(last.subject)
      else Unspent
  }

  ghost predicate IndexOf(records: seq<Record>, materializations: map<int, Identity>, transitions: set<int>) {
    && (forall p :: p in materializations <==> FirstCarrier(records, p).SpentBy?)
    && (forall p :: p in materializations ==> FirstCarrier(records, p) == SpentBy(materializations[p]))
    && (forall t :: t in transitions <==> Transition(t) in records)
  }

  lemma {:induction false} RecordsOfPrefix(log: History)
    ensures forall p :: FirstCarrier(Records(log), p) == Materialization(log, p)
    ensures forall t :: Transition(t) in Records(log) <==> HasTransition(log, t)
  {
    if log.Append? {
      RecordsOfPrefix(log.prev);
      assert Records(log)[..|Records(log)| - 1] == Records(log.prev);
    }
  }
}
