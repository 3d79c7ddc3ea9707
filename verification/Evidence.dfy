/** The evidence a forecast rests on and is resolved by, and the basis summary computed from it. */
module Evidence {
  import opened Options
  import opened EventLog

  /** Opaque identifiers and values; two are equal exactly when the source's strings are. */
  type Id = int

  datatype Fact =
    | Claim(id: Id, value: Id, observations: seq<Id>, validFrom: Instant, validTo: Instant)
    | ClaimState(claim: Id, current: bool, degraded: bool)
    | Observation(observation: Id, manifestation: Id, observedTime: Time, pattern: Pattern)
    | Manifestation(manifest: Id, source: Id, family: Id, historical: bool, captureTime: Instant,
                    sourceTime: Instant, retrievalTime: Instant)
    | Execution(execution: Id, searched: Id, successful: bool, completed: Instant, about: set<Id>)
    | Activity(activity: Id, activityType: Id, subjects: set<Id>, startTime: Instant, statedTime: Instant)

  /** An instant that a record may leave out. */
  datatype Instant = Unstated | At(time: Time)

  /** What an observation says, and what an indicator may ask of it. */
  datatype Pattern = Pattern(kind: Id, subject: Id, attribute: Id, value: Id)

  /** One field of a pattern: unset, or the value it must have. */
  datatype Wanted = Anything | Exactly(id: Id)

  // ---------------------------------------------------------------- latest-wins views

  function ClaimById(facts: seq<Fact>, id: Id): Option<Fact>
    ensures ClaimById(facts, id).Some? ==> ClaimById(facts, id).value.Claim? && ClaimById(facts, id).value in facts
    ensures ClaimById(facts, id).Some? ==> ClaimById(facts, id).value.id == id
  {
    if facts == [] then None
    else
      var last := facts[|facts| - 1];
      if last.Claim? && last.id == id then Some(last) else ClaimById(facts[..|facts| - 1], id)
  }

  function StateById(facts: seq<Fact>, id: Id): Option<Fact>
    ensures StateById(facts, id).Some? ==> StateById(facts, id).value.ClaimState?
  {
    if facts == [] then None
    else
      var last := facts[|facts| - 1];
      if last.ClaimState? && last.claim == id then Some(last) else StateById(facts[..|facts| - 1], id)
  }

  function ObservationById(facts: seq<Fact>, id: Id): Option<Fact>
    ensures ObservationById(facts, id).Some? ==> ObservationById(facts, id).value.Observation?
  {
    if facts == [] then None
    else
      var last := facts[|facts| - 1];
      if last.Observation? && last.observation == id then Some(last) else ObservationById(facts[..|facts| - 1], id)
  }

  function ManifestationById(facts: seq<Fact>, id: Id): Option<Fact>
    ensures ManifestationById(facts, id).Some? ==> ManifestationById(facts, id).value.Manifestation?
  {
    if facts == [] then None
    else
      var last := facts[|facts| - 1];
      if last.Manifestation? && last.manifest == id then Some(last) else ManifestationById(facts[..|facts| - 1], id)
  }

  /** The record at position `k` is the newest one of its kind under its id. */
  predicate NewestClaim(facts: seq<Fact>, id: Id, k: int) {
    0 <= k < |facts| && facts[k].Claim? && facts[k].id == id
    && forall j :: k < j < |facts| && facts[j].Claim? ==> facts[j].id != id
  }

  predicate NewestState(facts: seq<Fact>, id: Id, k: int) {
    0 <= k < |facts| && facts[k].ClaimState? && facts[k].claim == id
    && forall j :: k < j < |facts| && facts[j].ClaimState? ==> facts[j].claim != id
  }

  predicate NewestObservation(facts: seq<Fact>, id: Id, k: int) {
    0 <= k < |facts| && facts[k].Observation? && facts[k].observation == id
    && forall j :: k < j < |facts| && facts[j].Observation? ==> facts[j].observation != id
  }

  predicate NewestManifestation(facts: seq<Fact>, id: Id, k: int) {
    0 <= k < |facts| && facts[k].Manifestation? && facts[k].manifest == id
    && forall j :: k < j < |facts| && facts[j].Manifestation? ==> facts[j].manifest != id
  }

  lemma {:induction false} ClaimByIdIsNewest(facts: seq<Fact>, id: Id)
    ensures match ClaimById(facts, id)
            case None => forall c :: c in facts && c.Claim? ==> c.id != id
            case Some(c) => exists k :: NewestClaim(facts, id, k) && facts[k] == c
  {
    if facts != [] {
      var front, last := facts[..|facts| - 1], |facts| - 1;
      ClaimByIdIsNewest(front, id);
      assert facts == front + [facts[last]];
      if facts[last].Claim? && facts[last].id == id {
        assert NewestClaim(facts, id, last);
      } else if ClaimById(front, id).Some? {
        var k :| NewestClaim(front, id, k) && front[k] == ClaimById(front, id).value;
        assert NewestClaim(facts, id, k);
      }
    }
  }

  lemma {:induction false} StateByIdIsNewest(facts: seq<Fact>, id: Id)
    ensures match StateById(facts, id)
            case None => forall s :: s in facts && s.ClaimState? ==> s.claim != id
            case Some(s) => exists k :: NewestState(facts, id, k) && facts[k] == s
  {
    if facts != [] {
      var front, last := facts[..|facts| - 1], |facts| - 1;
      StateByIdIsNewest(front, id);
      assert facts == front + [facts[last]];
      if facts[last].ClaimState? && facts[last].claim == id {
        assert NewestState(facts, id, last);
      } else if StateById(front, id).Some? {
        var k :| NewestState(front, id, k) && front[k] == StateById(front, id).value;
        assert NewestState(facts, id, k);
      }
    }
  }

  lemma {:induction false} ObservationByIdIsNewest(facts: seq<Fact>, id: Id)
    ensures match ObservationById(facts, id)
            case None => forall o :: o in facts && o.Observation? ==> o.observation != id
            case Some(o) => exists k :: NewestObservation(facts, id, k) && facts[k] == o
  {
    if facts != [] {
      var front, last := facts[..|facts| - 1], |facts| - 1;
      ObservationByIdIsNewest(front, id);
      assert facts == front + [facts[last]];
      if facts[last].Observation? && facts[last].observation == id {
        assert NewestObservation(facts, id, last);
      } else if ObservationById(front, id).Some? {
        var k :| NewestObservation(front, id, k) && front[k] == ObservationById(front, id).value;
        assert NewestObservation(facts, id, k);
      }
    }
  }

  lemma {:induction false} ManifestationByIdIsNewest(facts: seq<Fact>, id: Id)
    ensures match ManifestationById(facts, id)
            case None => forall m :: m in facts && m.Manifestation? ==> m.manifest != id
            case Some(m) => exists k :: NewestManifestation(facts, id, k) && facts[k] == m
  {
    if facts != [] {
      var front, last := facts[..|facts| - 1], |facts| - 1;
      ManifestationByIdIsNewest(front, id);
      assert facts == front + [facts[last]];
      if facts[last].Manifestation? && facts[last].manifest == id {
        assert NewestManifestation(facts, id, last);
      } else if ManifestationById(front, id).Some? {
        var k :| NewestManifestation(front, id, k) && front[k] == ManifestationById(front, id).value;
        assert NewestManifestation(facts, id, k);
      }
    }
  }

  lemma NewestIsUnique(facts: seq<Fact>, id: Id)
    ensures forall j, k :: NewestClaim(facts, id, j) && NewestClaim(facts, id, k) ==> j == k
    ensures forall j, k :: NewestState(facts, id, j) && NewestState(facts, id, k) ==> j == k
    ensures forall j, k :: NewestObservation(facts, id, j) && NewestObservation(facts, id, k) ==> j == k
    ensures forall j, k :: NewestManifestation(facts, id, j) && NewestManifestation(facts, id, k) ==> j == k
  {
  }

  /** A claim without a recorded state is CURRENT. */
  predicate IsCurrent(facts: seq<Fact>, id: Id) {
    ClaimById(facts, id).Some? && (StateById(facts, id).None? || StateById(facts, id).value.current)
  }

  predicate IsDegraded(facts: seq<Fact>, id: Id) {
    StateById(facts, id).Some? && StateById(facts, id).value.degraded
  }

  /** When the observed source state was current: capture time for an archive, retrieval time for a live fetch. */
  function StateTime(m: Fact): Instant
    requires m.Manifestation?
  {
    if m.historical then (if m.captureTime.At? then m.captureTime else m.sourceTime) else m.retrievalTime
  }

  function ManifestationOf(facts: seq<Fact>, observation: Id): Option<Fact>
    ensures ManifestationOf(facts, observation).Some? ==> ManifestationOf(facts, observation).value.Manifestation?
  {
    var o := ObservationById(facts, observation);
    if o.None? then None else ManifestationById(facts, o.value.manifestation)
  }

  function ObservedAt(facts: seq<Fact>, observation: Id): Instant {
    var m := ManifestationOf(facts, observation);
    if m.None? then Unstated else StateTime(m.value)
  }

  /** A claim is CURRENT if it is on record and its newest state, if it has any, says so. */
  lemma CurrentMeans(facts: seq<Fact>, id: Id)
    ensures IsCurrent(facts, id) <==>
            && (exists c :: c in facts && c.Claim? && c.id == id)
            && (forall k :: NewestState(facts, id, k) ==> facts[k].current)
    ensures IsDegraded(facts, id) <==> exists k :: NewestState(facts, id, k) && facts[k].degraded
  {
    ClaimByIdIsNewest(facts, id);
    StateByIdIsNewest(facts, id);
    NewestIsUnique(facts, id);
  }

  /** A manifestation shows its source as of `t`. */
  predicate ShowsAsOf(m: Fact, t: Time)
    requires m.Manifestation?
  {
    || (!m.historical && m.retrievalTime == At(t))
    || (m.historical && m.captureTime == At(t))
    || (m.historical && m.captureTime == Unstated && m.sourceTime == At(t))
  }

  /** An observation's state time comes from the newest manifestation that its newest record names. */
  lemma ObservedAtMeans(facts: seq<Fact>, observation: Id, t: Time)
    ensures ObservedAt(facts, observation) == At(t) <==>
            exists k, n :: NewestObservation(facts, observation, k)
                           && NewestManifestation(facts, facts[k].manifestation, n) && ShowsAsOf(facts[n], t)
  {
    ObservationByIdIsNewest(facts, observation);
    NewestIsUnique(facts, observation);
    var o := ObservationById(facts, observation);
    if o.Some? {
      ManifestationByIdIsNewest(facts, o.value.manifestation);
      NewestIsUnique(facts, o.value.manifestation);
    }
  }

  // ---------------------------------------------------------------- first and last instants

  predicate Earliest(times: set<Time>, earliest: Instant) {
    if earliest.Unstated? then times == {}
    else earliest.time in times && forall t :: t in times ==> earliest.time <= t
  }

  function Earlier(a: Instant, b: Instant): Instant {
    if a.Unstated? then b else if b.Unstated? then a else if a.time <= b.time then a else b
  }

  predicate Latest(times: set<Time>, latest: Instant) {
    if latest.Unstated? then times == {}
    else latest.time in times && forall t :: t in times ==> t <= latest.time
  }

  function Later(a: Instant, b: Instant): Instant {
    if a.Unstated? then b else if b.Unstated? then a else if a.time >= b.time then a else b
  }

  function Instants(t: Instant): set<Time> {
    if t.Unstated? then {} else {t.time}
  }

  function TimesOf(facts: seq<Fact>, observations: seq<Id>): set<Time> {
    set o, t | o in observations && t in Instants(ObservedAt(facts, o)) :: t
  }

  lemma TimesGrow(facts: seq<Fact>, observations: seq<Id>, o: Id)
    ensures TimesOf(facts, observations + [o]) == TimesOf(facts, observations) + Instants(ObservedAt(facts, o))
  {
    forall t | t in Instants(ObservedAt(facts, o)) ensures t in TimesOf(facts, observations + [o]) {
      assert o in observations + [o];
    }
    forall t | t in TimesOf(facts, observations) ensures t in TimesOf(facts, observations + [o]) {
      var x :| x in observations && t in Instants(ObservedAt(facts, x));
      assert x in observations + [o];
    }
  }

  /** The newest source state behind a claim. */
  method ClaimEvidenceTime(facts: seq<Fact>, observations: seq<Id>) returns (latest: Instant)
    ensures Latest(TimesOf(facts, observations), latest)
  {
    latest := Unstated;
    for i := 0 to |observations|
      invariant Latest(TimesOf(facts, observations[..i]), latest)
    {
      assert observations[..i + 1] == observations[..i] + [observations[i]];
      TimesGrow(facts, observations[..i], observations[i]);
      latest := Later(latest, ObservedAt(facts, observations[i]));
    }
    assert observations[..|observations|] == observations;
  }

  // ---------------------------------------------------------------- the basis summary

  /** Counts and sets of what a claim set resolves to, and when it was observed and is said to hold. */
  datatype Basis = Basis(
    supporting: seq<Id>, contradicting: seq<Id>, observations: nat, manifestations: nat, sources: nat,
    families: set<Id>, degraded: nat, earliest: Instant, latest: Instant, statedFrom: Instant, statedTo: Instant)

  predicate NoRepeats(s: seq<Id>) {
    forall i, j :: 0 <= i < j < |s| ==> s[i] != s[j]
  }

  /** The ids that resolve to a claim, each once, in the order first asked for. */
  function Resolved(facts: seq<Fact>, ids: seq<Id>): seq<Id>
  {
    if ids == [] then []
    else
      var front, last := Resolved(facts, ids[..|ids| - 1]), ids[|ids| - 1];
      if last !in front && ClaimById(facts, last).Some? then front + [last] else front
  }

  lemma {:induction false} ResolvedIs(facts: seq<Fact>, ids: seq<Id>)
    ensures NoRepeats(Resolved(facts, ids))
    ensures forall id :: id in Resolved(facts, ids) <==> id in ids && ClaimById(facts, id).Some?
  {
    if ids != [] {
      ResolvedIs(facts, ids[..|ids| - 1]);
      assert ids == ids[..|ids| - 1] + [ids[|ids| - 1]];
    }
  }

  lemma {:induction false} ResolvedIsFixed(facts: seq<Fact>, ids: seq<Id>)
    requires NoRepeats(ids) && forall id :: id in ids ==> ClaimById(facts, id).Some?
    ensures Resolved(facts, ids) == ids
  {
    if ids != [] {
      var front := ids[..|ids| - 1];
      assert forall i :: 0 <= i < |front| ==> front[i] in ids;
      assert ids[|ids| - 1] in ids;
      ResolvedIsFixed(facts, front);
    }
  }

  function ObservationsOf(facts: seq<Fact>, claim: Id): seq<Id> {
    var c := ClaimById(facts, claim);
    if c.None? then [] else c.value.observations
  }

  function KnownAmong(facts: seq<Fact>, observations: seq<Id>): set<Id> {
    set o | o in observations && ObservationById(facts, o).Some?
  }

  function FamiliesAmong(facts: seq<Fact>, observations: seq<Id>): set<Id> {
    set o | o in observations && ManifestationOf(facts, o).Some? :: ManifestationOf(facts, o).value.family
  }

  function ManifestsAmong(facts: seq<Fact>, observations: seq<Id>): set<Id> {
    set o | o in observations && ManifestationOf(facts, o).Some? :: ManifestationOf(facts, o).value.manifest
  }

  function SourcesAmong(facts: seq<Fact>, observations: seq<Id>): set<Id> {
    set o | o in observations && ManifestationOf(facts, o).Some? :: ManifestationOf(facts, o).value.source
  }

  function ObservationSet(facts: seq<Fact>, claims: seq<Id>): set<Id> {
    set c, o | c in claims && o in KnownAmong(facts, ObservationsOf(facts, c)) :: o
  }

  function ManifestSet(facts: seq<Fact>, claims: seq<Id>): set<Id> {
    set c, m | c in claims && m in ManifestsAmong(facts, ObservationsOf(facts, c)) :: m
  }

  function SourceSet(facts: seq<Fact>, claims: seq<Id>): set<Id> {
    set c, s | c in claims && s in SourcesAmong(facts, ObservationsOf(facts, c)) :: s
  }

  function FamilySet(facts: seq<Fact>, claims: seq<Id>): set<Id> {
    set c, f | c in claims && f in FamiliesAmong(facts, ObservationsOf(facts, c)) :: f
  }

  function TimeSet(facts: seq<Fact>, claims: seq<Id>): set<Time> {
    set c, t | c in claims && t in TimesOf(facts, ObservationsOf(facts, c)) :: t
  }

  function FromOf(facts: seq<Fact>, claim: Id): Instant {
    var c := ClaimById(facts, claim);
    if c.None? then Unstated else c.value.validFrom
  }

  function ToOf(facts: seq<Fact>, claim: Id): Instant {
    var c := ClaimById(facts, claim);
    if c.None? then Unstated else c.value.validTo
  }

  /** When the claims are said to begin and to cease to hold. */
  function FromSet(facts: seq<Fact>, claims: seq<Id>): set<Time> {
    set c, t | c in claims && t in Instants(FromOf(facts, c)) :: t
  }

  function ToSet(facts: seq<Fact>, claims: seq<Id>): set<Time> {
    set c, t | c in claims && t in Instants(ToOf(facts, c)) :: t
  }

  lemma StatedTimesOf(facts: seq<Fact>, c: Id, t: Time)
    ensures t in Instants(FromOf(facts, c)) <==> exists k :: NewestClaim(facts, c, k) && facts[k].validFrom == At(t)
    ensures t in Instants(ToOf(facts, c)) <==> exists k :: NewestClaim(facts, c, k) && facts[k].validTo == At(t)
  {
    ClaimByIdIsNewest(facts, c);
    NewestIsUnique(facts, c);
  }

  /** The stated times are those of the newest records of the claims. */
  lemma StatedTimesMean(facts: seq<Fact>, claims: seq<Id>, t: Time)
    ensures t in FromSet(facts, claims) <==>
            exists c, k :: c in claims && NewestClaim(facts, c, k) && facts[k].validFrom == At(t)
    ensures t in ToSet(facts, claims) <==>
            exists c, k :: c in claims && NewestClaim(facts, c, k) && facts[k].validTo == At(t)
  {
    forall c: Id { StatedTimesOf(facts, c, t); }
    assert t in FromSet(facts, claims) <==> exists c :: c in claims && t in Instants(FromOf(facts, c));
    assert t in ToSet(facts, claims) <==> exists c :: c in claims && t in Instants(ToOf(facts, c));
  }

  function DegradedSet(facts: seq<Fact>, claims: seq<Id>): set<Id> {
    set c | c in claims && IsDegraded(facts, c)
  }

  /** The evidence behind the supporting claims: how much, from how many origins, and from when to when. */
  predicate RestsOnEvidence(facts: seq<Fact>, b: Basis) {
    && b.observations == |ObservationSet(facts, b.supporting)|
    && b.manifestations == |ManifestSet(facts, b.supporting)|
    && b.sources == |SourceSet(facts, b.supporting)|
    && b.families == FamilySet(facts, b.supporting)
    && Earliest(TimeSet(facts, b.supporting), b.earliest)
    && Latest(TimeSet(facts, b.supporting), b.latest)
  }

  /** What `compute_basis` resolves a claim set to. Ids that name no claim carry no weight. */
  predicate IsBasis(facts: seq<Fact>, supporting: seq<Id>, contradicting: seq<Id>, b: Basis) {
    && b.supporting == Resolved(facts, supporting)
    && b.contradicting == Resolved(facts, contradicting)
    && b.degraded == |DegradedSet(facts, b.supporting)|
    && RestsOnEvidence(facts, b)
    && Earliest(FromSet(facts, b.supporting), b.statedFrom)
    && Latest(ToSet(facts, b.supporting), b.statedTo)
  }

  lemma InstantsAreUnique(times: set<Time>, a: Instant, b: Instant)
    ensures Latest(times, a) && Latest(times, b) ==> a == b
    ensures Earliest(times, a) && Earliest(times, b) ==> a == b
  {
  }

  /** A basis is determined by the claims asked for and the evidence. */
  lemma BasisIsUnique(facts: seq<Fact>, supporting: seq<Id>, contradicting: seq<Id>, a: Basis, b: Basis)
    requires IsBasis(facts, supporting, contradicting, a) && IsBasis(facts, supporting, contradicting, b)
    ensures a == b
  {
    InstantsAreUnique(TimeSet(facts, a.supporting), a.earliest, b.earliest);
    InstantsAreUnique(TimeSet(facts, a.supporting), a.latest, b.latest);
    InstantsAreUnique(FromSet(facts, a.supporting), a.statedFrom, b.statedFrom);
    InstantsAreUnique(ToSet(facts, a.supporting), a.statedTo, b.statedTo);
  }

  /** A basis is the basis of its own claims. */
  lemma BasisOfItsOwnClaims(facts: seq<Fact>, supporting: seq<Id>, contradicting: seq<Id>, b: Basis)
    requires IsBasis(facts, supporting, contradicting, b)
    ensures IsBasis(facts, b.supporting, b.contradicting, b)
  {
    ResolvedIs(facts, supporting);
    ResolvedIs(facts, contradicting);
    ResolvedIsFixed(facts, b.supporting);
    ResolvedIsFixed(facts, b.contradicting);
  }

  /** Recomputing a basis from its own claims at the same evidence gives the same basis. */
  lemma BasisIsAFixedPoint(facts: seq<Fact>, supporting: seq<Id>, contradicting: seq<Id>, b: Basis, again: Basis)
    requires IsBasis(facts, supporting, contradicting, b)
    requires IsBasis(facts, b.supporting, b.contradicting, again)
    ensures again == b
  {
    BasisOfItsOwnClaims(facts, supporting, contradicting, b);
    BasisIsUnique(facts, b.supporting, b.contradicting, b, again);
  }

  /** What has been gathered from some observations, or from the observations of some claims. */
  datatype Gathering = Gathering(
    observations: set<Id>, manifests: set<Id>, sources: set<Id>, families: set<Id>, earliest: Instant, latest: Instant)

  const NOTHING_YET := Gathering({}, {}, {}, {}, Unstated, Unstated)

  function Merge(a: Gathering, b: Gathering): Gathering {
    Gathering(a.observations + b.observations, a.manifests + b.manifests, a.sources + b.sources,
              a.families + b.families,
              Earlier(a.earliest, b.earliest), Later(a.latest, b.latest))
  }

  predicate FromObservations(facts: seq<Fact>, observations: seq<Id>, g: Gathering) {
    && g.observations == KnownAmong(facts, observations)
    && g.manifests == ManifestsAmong(facts, observations)
    && g.sources == SourcesAmong(facts, observations)
    && g.families == FamiliesAmong(facts, observations)
    && Earliest(TimesOf(facts, observations), g.earliest)
    && Latest(TimesOf(facts, observations), g.latest)
  }

  predicate FromClaims(facts: seq<Fact>, claims: seq<Id>, g: Gathering) {
    && g.observations == ObservationSet(facts, claims)
    && g.manifests == ManifestSet(facts, claims)
    && g.sources == SourceSet(facts, claims)
    && g.families == FamilySet(facts, claims)
    && Earliest(TimeSet(facts, claims), g.earliest)
    && Latest(TimeSet(facts, claims), g.latest)
  }

  lemma TimesJoin(a: set<Time>, b: set<Time>, early: Instant, first: Instant, late: Instant, last: Instant)
    requires Earliest(a, early) && Earliest(b, first) && Latest(a, late) && Latest(b, last)
    ensures Earliest(a + b, Earlier(early, first)) && Latest(a + b, Later(late, last))
  {
  }

  lemma OneMoreClaim(facts: seq<Fact>, claims: seq<Id>, c: Id, g: Gathering, more: Gathering)
    requires FromClaims(facts, claims, g) && FromObservations(facts, ObservationsOf(facts, c), more)
    ensures FromClaims(facts, claims + [c], Merge(g, more))
  {
    var all, ids := claims + [c], ObservationsOf(facts, c);
    assert ObservationSet(facts, all) == ObservationSet(facts, claims) + KnownAmong(facts, ids);
    assert ManifestSet(facts, all) == ManifestSet(facts, claims) + ManifestsAmong(facts, ids);
    assert SourceSet(facts, all) == SourceSet(facts, claims) + SourcesAmong(facts, ids);
    assert FamilySet(facts, all) == FamilySet(facts, claims) + FamiliesAmong(facts, ids);
    assert TimeSet(facts, all) == TimeSet(facts, claims) + TimesOf(facts, ids);
    TimesJoin(TimeSet(facts, claims), TimesOf(facts, ids), g.earliest, more.earliest, g.latest, more.latest);
  }

  lemma DegradedGrows(facts: seq<Fact>, claims: seq<Id>, c: Id)
    requires c !in claims
    ensures |DegradedSet(facts, claims + [c])| == |DegradedSet(facts, claims)| + if IsDegraded(facts, c) then 1 else 0
  {
    assert DegradedSet(facts, claims + [c]) == DegradedSet(facts, claims) + if IsDegraded(facts, c) then {c} else {};
  }

  /** What one observation adds: itself if it is known, and its manifestation if that is. */
  function GatheredFrom(facts: seq<Fact>, o: Id): Gathering {
    var observation := ObservationById(facts, o);
    if observation.None? then NOTHING_YET
    else
      var m := ManifestationById(facts, observation.value.manifestation);
      if m.None? then NOTHING_YET.(observations := {o})
      else Gathering({o}, {m.value.manifest}, {m.value.source}, {m.value.family}, StateTime(m.value),
          StateTime(m.value))
  }

  lemma OneMoreObservation(facts: seq<Fact>, ids: seq<Id>, o: Id, g: Gathering)
    requires FromObservations(facts, ids, g)
    ensures FromObservations(facts, ids + [o], Merge(g, GatheredFrom(facts, o)))
  {
    var all, more, m := ids + [o], GatheredFrom(facts, o), ManifestationOf(facts, o);
    assert KnownAmong(facts, all) == KnownAmong(facts, ids) + more.observations;
    assert ManifestsAmong(facts, all) == ManifestsAmong(facts, ids) + more.manifests;
    assert SourcesAmong(facts, all) == SourcesAmong(facts, ids) + more.sources;
    assert FamiliesAmong(facts, all) == FamiliesAmong(facts, ids) + more.families;
    TimesGrow(facts, ids, o);
    TimesJoin(TimesOf(facts, ids), Instants(ObservedAt(facts, o)), g.earliest, more.earliest, g.latest, more.latest);
  }

  /** One supporting claim's observations, manifestations and times, gathered one observation at a time. */
  method Gather(facts: seq<Fact>, claim: Id) returns (g: Gathering)
    ensures FromObservations(facts, ObservationsOf(facts, claim), g)
  {
    g := NOTHING_YET;
    var ids := ObservationsOf(facts, claim);
    for i := 0 to |ids|
      invariant FromObservations(facts, ids[..i], g)
    {
      assert ids[..i + 1] == ids[..i] + [ids[i]];
      OneMoreObservation(facts, ids[..i], ids[i], g);
      g := Merge(g, GatheredFrom(facts, ids[i]));
    }
    assert ids[..|ids|] == ids;
  }

  /** When some claims are said to hold, and how many of them are degraded. */
  predicate StatedBy(facts: seq<Fact>, claims: seq<Id>, degraded: nat, statedFrom: Instant, statedTo: Instant) {
    && degraded == |DegradedSet(facts, claims)|
    && Earliest(FromSet(facts, claims), statedFrom) && Latest(ToSet(facts, claims), statedTo)
  }

  lemma OneMoreStated(facts: seq<Fact>, claims: seq<Id>, c: Id, degraded: nat, statedFrom: Instant, statedTo: Instant)
    requires StatedBy(facts, claims, degraded, statedFrom, statedTo) && c !in claims
    ensures StatedBy(facts, claims + [c], degraded + (if IsDegraded(facts, c) then 1 else 0),
                     Earlier(statedFrom, FromOf(facts, c)), Later(statedTo, ToOf(facts, c)))
  {
    DegradedGrows(facts, claims, c);
    assert FromSet(facts, claims + [c]) == FromSet(facts, claims) + Instants(FromOf(facts, c));
    assert ToSet(facts, claims + [c]) == ToSet(facts, claims) + Instants(ToOf(facts, c));
  }

  method ComputeBasis(facts: seq<Fact>, supporting: seq<Id>, contradicting: seq<Id>) returns (b: Basis)
    ensures IsBasis(facts, supporting, contradicting, b)
  {
    var known := Resolved(facts, supporting);
    var gathered, degraded: nat, statedFrom, statedTo := NOTHING_YET, 0, Unstated, Unstated;
    ResolvedIs(facts, supporting);
    for i := 0 to |known|
      invariant FromClaims(facts, known[..i], gathered)
      invariant StatedBy(facts, known[..i], degraded, statedFrom, statedTo)
    {
      var c := known[i];
      assert known[..i + 1] == known[..i] + [c];
      OneMoreStated(facts, known[..i], c, degraded, statedFrom, statedTo);
      statedFrom, statedTo := Earlier(statedFrom, FromOf(facts, c)), Later(statedTo, ToOf(facts, c));
      if IsDegraded(facts, c) {
        degraded := degraded + 1;
      }
      var more := Gather(facts, c);
      OneMoreClaim(facts, known[..i], c, gathered, more);
      gathered := Merge(gathered, more);
    }
    assert known[..|known|] == known;
    b := Basis(known, Resolved(facts, contradicting), |gathered.observations|, |gathered.manifests|, |gathered.sources|,
               gathered.families, degraded, gathered.earliest, gathered.latest, statedFrom, statedTo);
  }

  datatype Changes = Changes(membership: bool, contradiction: bool, diversity: bool, degradation: bool, evidence: bool)

  function BasisChanged(before: Basis, after: Basis): Changes {
    Changes((set c | c in before.supporting) != (set c | c in after.supporting),
            (set c | c in before.contradicting) != (set c | c in after.contradicting),
            before.families != after.families,
            before.degraded != after.degraded,
            before.observations != after.observations || before.latest != after.latest)
  }

  predicate AnyChange(c: Changes) {
    c.membership || c.contradiction || c.diversity || c.degradation || c.evidence
  }

  /** Two bases read the same: the claims, their families and degraded support, and the extent of their evidence. */
  ghost predicate SameReading(a: Basis, b: Basis) {
    && SameClaims(a.supporting, b.supporting) && SameClaims(a.contradicting, b.contradicting)
    && a.families == b.families && a.degraded == b.degraded
    && a.observations == b.observations && a.latest == b.latest
  }

  ghost predicate SameClaims(a: seq<Id>, b: seq<Id>) {
    forall c :: c in a <==> c in b
  }

  lemma SameMembers(a: seq<Id>, b: seq<Id>)
    ensures (set c | c in a) == (set c | c in b) <==> SameClaims(a, b)
  {
    var x, y := (set c | c in a), (set c | c in b);
    assert (forall c :: c in x <==> c in a) && (forall c :: c in y <==> c in b);
    if x == y {
      forall c ensures c in a <==> c in b { assert c in x <==> c in y; }
    }
    if SameClaims(a, b) {
      assert forall c :: c in x <==> c in y;
      assert x == y;
    }
  }

  /** A change is noticed exactly if the two do not read the same. */
  lemma NoChangeMeans(a: Basis, b: Basis)
    ensures !AnyChange(BasisChanged(a, b)) <==> SameReading(a, b)
    ensures BasisChanged(a, b).degradation <==> a.degraded != b.degraded
    ensures BasisChanged(a, b).contradiction <==> !SameClaims(a.contradicting, b.contradicting)
  {
    SameMembers(a.supporting, b.supporting);
    SameMembers(a.contradicting, b.contradicting);
  }

  // ---------------------------------------------------------------- absence coverage

  /** A successful search of `source`, completed since `since` and attributable to `subject`. */
  predicate Searched(f: Fact, source: Id, since: Time, subject: Wanted) {
    && f.Execution? && f.successful && f.searched == source
    && f.completed.At? && since <= f.completed.time
    && (subject.Exactly? ==> subject.id in f.about)
  }

  predicate Covered(facts: seq<Fact>, source: Id, since: Time, subject: Wanted) {
    exists f :: f in facts && Searched(f, source, since, subject)
  }

  /** The record of a successful search of `source`, ended since `since` and about `subject` if one is named. */
  ghost predicate SearchOnRecord(facts: seq<Fact>, source: Id, since: Time, subject: Wanted) {
    exists id, t, about :: Execution(id, source, true, At(t), about) in facts
      && since <= t && (subject == Anything || subject.id in about)
  }

  lemma CoveredIsOnRecord(facts: seq<Fact>, source: Id, since: Time, subject: Wanted)
    ensures Covered(facts, source, since, subject) <==> SearchOnRecord(facts, source, since, subject)
  {
    if f :| f in facts && Searched(f, source, since, subject) {
      assert f == Execution(f.execution, source, true, At(f.completed.time), f.about);
    }
    if SearchOnRecord(facts, source, since, subject) {
      var id, t, about :| Execution(id, source, true, At(t), about) in facts
        && since <= t && (subject == Anything || subject.id in about);
      assert Searched(Execution(id, source, true, At(t), about), source, since, subject);
    }
  }

  /** Every declared source was searched, and at least the declared number of sources was declared. */
  predicate CoverageSatisfied(facts: seq<Fact>, minimum: int, sources: seq<Id>, since: Time, subject: Wanted) {
    sources != [] && minimum <= |sources| && forall s :: s in sources ==> Covered(facts, s, since, subject)
  }

  /** The cited executions are real searches of declared sources in the window. */
  predicate CoverageEvidence(facts: seq<Fact>, sources: seq<Id>, since: Time, subject: Wanted, refs: seq<Id>) {
    forall ref :: ref in refs ==>
      exists f, s :: f in facts && s in sources && Searched(f, s, since, subject) && f.execution == ref
  }

  /** The first successful attributable execution seen of each source. */
  ghost predicate SuccessesOf(facts: seq<Fact>, since: Time, subject: Wanted, successes: map<Id, Id>) {
    && (forall s :: s in successes <==> Covered(facts, s, since, subject))
    && (forall s :: s in successes ==>
      exists f :: f in facts && Searched(f, s, since, subject) && f.execution == successes[s])
  }

  method Successes(facts: seq<Fact>, since: Time, subject: Wanted) returns (successes: map<Id, Id>)
    ensures SuccessesOf(facts, since, subject, successes)
  {
    successes := map[];
    for i := 0 to |facts|
      invariant SuccessesOf(facts[..i], since, subject, successes)
    {
      var f := facts[i];
      assert facts[..i + 1] == facts[..i] + [f];
      if f.Execution? && Searched(f, f.searched, since, subject) && f.searched !in successes {
        successes := successes[f.searched := f.execution];
      }
    }
    assert facts[..|facts|] == facts;
  }

  method AbsenceCoverage(facts: seq<Fact>, minimum: int, sources: seq<Id>, since: Time, subject: Wanted)
    returns (satisfied: bool, refs: seq<Id>)
    ensures satisfied == CoverageSatisfied(facts, minimum, sources, since, subject)
    ensures satisfied <==>
      && sources != [] && minimum <= |sources|
      && forall s :: s in sources ==> SearchOnRecord(facts, s, since, subject)
    ensures satisfied ==> CoverageEvidence(facts, sources, since, subject, refs) && 0 < |refs| <= 8
  {
    refs := [];
    forall s { CoveredIsOnRecord(facts, s, since, subject); }
    var successes := Successes(facts, since, subject);
    if sources == [] { return false, []; }
    for i := 0 to |sources|
      invariant forall k :: 0 <= k < i ==> Covered(facts, sources[k], since, subject)
      invariant |refs| == if i < 8 then i else 8
      invariant CoverageEvidence(facts, sources, since, subject, refs)
    {
      if sources[i] !in successes {
        assert sources[i] in sources && !Covered(facts, sources[i], since, subject);
        return false, [];
      }
      if i < 8 {
        assert sources[i] in sources;
        refs := refs + [successes[sources[i]]];
      }
    }
    satisfied := |sources| >= minimum;
  }
}
