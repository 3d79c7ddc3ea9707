/** Scoring without hindsight: which probability of a resolved forecast is held against its outcome. */
module Calibration {
  import opened EventLog
  import opened Evidence
  import opened ForecastLog
  import opened ForecastRuns

  datatype Score = NothingToScore | NothingAtStake | HindsightLeak | Stood(p: real)

  predicate Scored(v: Dated) {
    v.forecast.status == RESOLVED_TRUE || v.forecast.status == RESOLVED_FALSE
  }

  function ScoredUpTo(versions: seq<Dated>, n: nat): seq<Dated>
    requires n <= |versions|
  {
    if n == 0 then [] else ScoredUpTo(versions, n - 1) + (if Scored(versions[n - 1]) then [versions[n - 1]] else [])
  }

  function ScoredOf(versions: seq<Dated>): seq<Dated> {
    ScoredUpTo(versions, |versions|)
  }

  function BeforeUpTo(versions: seq<Dated>, n: nat, number: int): seq<Dated>
    requires n <= |versions|
  {
    if n == 0 then []
    else
      BeforeUpTo(versions, n - 1, number)
      + (if versions[n - 1].forecast.version < number then [versions[n - 1]] else [])
  }

  function Before(versions: seq<Dated>, number: int): seq<Dated> {
    BeforeUpTo(versions, |versions|, number)
  }

  function InTimeUpTo(versions: seq<Dated>, n: nat, limit: Time): seq<Dated>
    requires n <= |versions|
  {
    if n == 0 then []
    else InTimeUpTo(versions, n - 1, limit) + (if versions[n - 1].time <= limit then [versions[n - 1]] else [])
  }

  function InTime(versions: seq<Dated>, limit: Time): seq<Dated> {
    InTimeUpTo(versions, |versions|, limit)
  }

  function LastOf(versions: seq<Dated>): Dated
    requires versions != []
  {
    versions[|versions| - 1]
  }

  /** The entry of the highest version number, by the field and not by position. */
  function NewestUpTo(versions: seq<Dated>, n: nat): Dated
    requires 0 < n <= |versions|
  {
    if n == 1 then versions[0]
    else
      var best := NewestUpTo(versions, n - 1);
      if versions[n - 1].forecast.version > best.forecast.version then versions[n - 1] else best
  }

  function Newest(versions: seq<Dated>): Dated
    requires versions != []
  {
    NewestUpTo(versions, |versions|)
  }

  function OldestUpTo(versions: seq<Dated>, n: nat): Dated
    requires 0 < n <= |versions|
  {
    if n == 1 then versions[0]
    else
      var best := OldestUpTo(versions, n - 1);
      if versions[n - 1].forecast.version < best.forecast.version then versions[n - 1] else best
  }

  function Oldest(versions: seq<Dated>): Dated
    requires versions != []
  {
    OldestUpTo(versions, |versions|)
  }

  /** Some resolution carries a number the record did not hold. */
  predicate Leaks(terminal: seq<Dated>, standing: real) {
    exists i :: 0 <= i < |terminal| && !Close(terminal[i].forecast.probability, standing)
  }

  /** The last version recorded by the horizon; the opening one if the forecast was authored after it. */
  function AtStake(prior: seq<Dated>, horizon: Instant): Dated
    requires prior != []
  {
    if horizon.Unstated? then Newest(prior)
    else if InTime(prior, horizon.time) != [] then Newest(InTime(prior, horizon.time))
    else Oldest(prior)
  }

  /** The probability a resolution is scored against. */
  function StandingProbability(versions: seq<Dated>, horizon: Instant): Score {
    var terminal := ScoredOf(versions);
    if terminal == [] then NothingToScore
    else
      var prior := Before(versions, Oldest(terminal).forecast.version);
      if prior == [] then NothingAtStake
      else if Leaks(terminal, Newest(prior).forecast.probability) then HindsightLeak
      else Stood(AtStake(prior, horizon).forecast.probability)
  }

  // ---------------------------------------------------------------- what a score means, on any list of versions

  predicate WasResolved(v: Dated) {
    v.forecast.status == RESOLVED_TRUE || v.forecast.status == RESOLVED_FALSE
  }

  predicate Within(a: real, b: real) {
    -0.000000001 <= a - b <= 0.000000001
  }

  /** Of the resolutions, one with the lowest version number. */
  ghost predicate FirstResolution(versions: seq<Dated>, r: Dated) {
    && r in versions && WasResolved(r)
    && forall s :: s in versions && WasResolved(s) ==> r.forecast.version <= s.forecast.version
  }

  /** Of the versions numbered below `number` and recorded by `limit`, one with the highest number. */
  ghost predicate LastBelow(versions: seq<Dated>, number: int, limit: Instant, v: Dated) {
    && v in versions && v.forecast.version < number && (limit == Unstated || v.time <= limit.time)
    && forall u :: u in versions && u.forecast.version < number && (limit == Unstated || u.time <= limit.time) ==>
         u.forecast.version <= v.forecast.version
  }

  /** Of the versions numbered below `number`, one with the lowest number. */
  ghost predicate FirstBelow(versions: seq<Dated>, number: int, v: Dated) {
    && v in versions && v.forecast.version < number
    && forall u :: u in versions && u.forecast.version < number ==> v.forecast.version <= u.forecast.version
  }

  lemma {:induction false} FilteredAre(versions: seq<Dated>, n: nat, number: int, limit: Time)
    requires n <= |versions|
    ensures forall v :: v in ScoredUpTo(versions, n) <==> v in versions[..n] && WasResolved(v)
    ensures forall v :: v in BeforeUpTo(versions, n, number) <==> v in versions[..n] && v.forecast.version < number
    ensures forall v :: v in InTimeUpTo(versions, n, limit) <==> v in versions[..n] && v.time <= limit
  {
    if n > 0 {
      FilteredAre(versions, n - 1, number, limit);
      assert versions[..n] == versions[..n - 1] + [versions[n - 1]];
    }
  }

  lemma {:induction false} EndsAreExtreme(versions: seq<Dated>, n: nat)
    requires 0 < n <= |versions|
    ensures NewestUpTo(versions, n) in versions && OldestUpTo(versions, n) in versions
    ensures forall i :: 0 <= i < n ==>
              && versions[i].forecast.version <= NewestUpTo(versions, n).forecast.version
              && OldestUpTo(versions, n).forecast.version <= versions[i].forecast.version
  {
    if n > 1 { EndsAreExtreme(versions, n - 1); }
  }

  /** The version a score takes its number from, among those below the first resolution's. */
  ghost predicate IsAtStake(versions: seq<Dated>, number: int, horizon: Instant, v: Dated) {
    if exists u :: u in versions && u.forecast.version < number && (horizon == Unstated || u.time <= horizon.time)
    then LastBelow(versions, number, horizon, v)
    else FirstBelow(versions, number, v)
  }

  lemma BeforeAre(versions: seq<Dated>, number: int)
    ensures forall v :: v in Before(versions, number) <==> v in versions && v.forecast.version < number
  {
    FilteredAre(versions, |versions|, number, 0);
    assert versions[..|versions|] == versions;
  }

  lemma InTimeAre(versions: seq<Dated>, limit: Time)
    ensures forall v :: v in InTime(versions, limit) <==> v in versions && v.time <= limit
  {
    FilteredAre(versions, |versions|, 0, limit);
    assert versions[..|versions|] == versions;
  }

  lemma NewestIsLastBelow(versions: seq<Dated>, number: int)
    requires Before(versions, number) != []
    ensures LastBelow(versions, number, Unstated, Newest(Before(versions, number)))
    ensures FirstBelow(versions, number, Oldest(Before(versions, number)))
  {
    var prior := Before(versions, number);
    BeforeAre(versions, number);
    EndsAreExtreme(prior, |prior|);
  }

  lemma NewestInTimeIsLastBelow(versions: seq<Dated>, number: int, limit: Time)
    requires InTime(Before(versions, number), limit) != []
    ensures LastBelow(versions, number, At(limit), Newest(InTime(Before(versions, number), limit)))
  {
    var kept := InTime(Before(versions, number), limit);
    BeforeAre(versions, number);
    InTimeAre(Before(versions, number), limit);
    EndsAreExtreme(kept, |kept|);
  }

  lemma AtStakeMeans(versions: seq<Dated>, number: int, horizon: Instant)
    requires Before(versions, number) != []
    ensures LastBelow(versions, number, Unstated, Newest(Before(versions, number)))
    ensures IsAtStake(versions, number, horizon, AtStake(Before(versions, number), horizon))
  {
    var prior := Before(versions, number);
    NewestIsLastBelow(versions, number);
    if horizon.At? {
      BeforeAre(versions, number);
      InTimeAre(prior, horizon.time);
      if InTime(prior, horizon.time) != [] {
        NewestInTimeIsLastBelow(versions, number, horizon.time);
      } else {
        assert forall v :: v in prior ==> v !in InTime(prior, horizon.time);
      }
    }
  }

  /** Every resolution carries the number that stood before the first of them. */
  ghost predicate CarriesStanding(versions: seq<Dated>, r: Dated, last: Dated) {
    && FirstResolution(versions, r) && LastBelow(versions, r.forecast.version, Unstated, last)
    && forall s :: s in versions && WasResolved(s) ==> Within(s.forecast.probability, last.forecast.probability)
  }

  /** Some resolution carries a number that did not stand before the first of them. */
  ghost predicate CarriesAnother(versions: seq<Dated>, r: Dated, last: Dated) {
    && FirstResolution(versions, r) && LastBelow(versions, r.forecast.version, Unstated, last)
    && exists s :: s in versions && WasResolved(s) && !Within(s.forecast.probability, last.forecast.probability)
  }

  lemma FirstResolutionIs(versions: seq<Dated>)
    ensures ScoredOf(versions) == [] ==> forall v :: v in versions ==> !WasResolved(v)
    ensures ScoredOf(versions) != [] ==> FirstResolution(versions, Oldest(ScoredOf(versions)))
  {
    var terminal := ScoredOf(versions);
    FilteredAre(versions, |versions|, 0, 0);
    assert versions[..|versions|] == versions;
    if terminal == [] {
      forall v | v in versions ensures !WasResolved(v) {
        assert v !in terminal;
      }
    } else {
      EndsAreExtreme(terminal, |terminal|);
    }
  }

  lemma LeaksMeans(versions: seq<Dated>)
    requires ScoredOf(versions) != []
    requires Before(versions, Oldest(ScoredOf(versions)).forecast.version) != []
    ensures var r := Oldest(ScoredOf(versions));
            var last := Newest(Before(versions, r.forecast.version));
            if Leaks(ScoredOf(versions), last.forecast.probability) then CarriesAnother(versions, r, last)
            else CarriesStanding(versions, r, last)
  {
    var terminal := ScoredOf(versions);
    var r := Oldest(terminal);
    FirstResolutionIs(versions);
    AtStakeMeans(versions, r.forecast.version, Unstated);
    FilteredAre(versions, |versions|, 0, 0);
    assert versions[..|versions|] == versions;
    assert forall i :: 0 <= i < |terminal| ==> terminal[i] in terminal;
  }

  lemma NoneBelow(versions: seq<Dated>, number: int)
    requires Before(versions, number) == []
    ensures forall v :: v in versions ==> number <= v.forecast.version
  {
    FilteredAre(versions, |versions|, number, 0);
    assert versions[..|versions|] == versions;
    forall v | v in versions ensures number <= v.forecast.version {
      assert v !in Before(versions, number);
    }
  }

  /**
   * On any list of versions: nothing to score without a resolution, nothing at stake without a version below the
   * first one, a leak if a resolution carries a number the last version below it did not, and else the number of the
   * last of them in time, or of the first.
   */
  lemma ScoreMeans(versions: seq<Dated>, horizon: Instant)
    ensures match StandingProbability(versions, horizon)
            case NothingToScore => forall v :: v in versions ==> !WasResolved(v)
            case NothingAtStake =>
              exists r :: FirstResolution(versions, r)
                && forall v :: v in versions ==> r.forecast.version <= v.forecast.version
            case HindsightLeak => exists r, last :: CarriesAnother(versions, r, last)
            case Stood(p) =>
              exists r, last, v :: CarriesStanding(versions, r, last)
                && IsAtStake(versions, r.forecast.version, horizon, v) && v.forecast.probability == p
  {
    FirstResolutionIs(versions);
    if ScoredOf(versions) != [] {
      var r := Oldest(ScoredOf(versions));
      var prior := Before(versions, r.forecast.version);
      if prior == [] {
        NoneBelow(versions, r.forecast.version);
      } else {
        LeaksMeans(versions);
        AtStakeMeans(versions, r.forecast.version, horizon);
      }
    }
  }

  // ---------------------------------------------------------------- the lists a run produces

  predicate Rising(versions: seq<Dated>) {
    forall i, j :: 0 <= i < j < |versions| ==> versions[i].forecast.version < versions[j].forecast.version
  }

  lemma {:induction false} EndsByVersion(versions: seq<Dated>, n: nat)
    requires 0 < n <= |versions| && Rising(versions)
    ensures NewestUpTo(versions, n) == versions[n - 1] && OldestUpTo(versions, n) == versions[0]
  {
    if n > 1 { EndsByVersion(versions, n - 1); }
  }

  /** What a prefix of a list has in time is rising, and ends below whatever follows it. */
  lemma {:induction false} InTimeIsRising(versions: seq<Dated>, n: nat, limit: Time)
    requires Rising(versions) && n <= |versions|
    ensures var kept := InTimeUpTo(versions, n, limit);
            Rising(kept) && forall i :: 0 <= i < |kept| ==>
              n > 0 && kept[i].forecast.version <= versions[n - 1].forecast.version
  {
    if n > 0 { InTimeIsRising(versions, n - 1, limit); }
  }

  lemma {:induction false} AllInTime(versions: seq<Dated>, n: nat, limit: Time)
    requires n <= |versions| && forall i :: 0 <= i < n ==> versions[i].time <= limit
    ensures InTimeUpTo(versions, n, limit) == versions[..n]
  {
    if n > 0 {
      AllInTime(versions, n - 1, limit);
      assert versions[..n] == versions[..n - 1] + [versions[n - 1]];
    }
  }

  lemma {:induction false} NoneScored(versions: seq<Dated>, n: nat)
    requires n <= |versions| && forall i :: 0 <= i < n ==> !Scored(versions[i])
    ensures ScoredUpTo(versions, n) == []
  {
    if n > 0 { NoneScored(versions, n - 1); }
  }

  lemma {:induction false} AllBefore(versions: seq<Dated>, n: nat, number: int)
    requires n <= |versions| && forall i :: 0 <= i < n ==> versions[i].forecast.version < number
    ensures BeforeUpTo(versions, n, number) == versions[..n]
  {
    if n > 0 {
      AllBefore(versions, n - 1, number);
      assert versions[..n] == versions[..n - 1] + [versions[n - 1]];
    }
  }

  /** A longer list has the same in time among its first entries. */
  lemma {:induction false} InTimeOfPrefix(a: seq<Dated>, b: seq<Dated>, n: nat, limit: Time)
    requires n <= |a| && n <= |b| && forall i :: 0 <= i < n ==> a[i] == b[i]
    ensures InTimeUpTo(a, n, limit) == InTimeUpTo(b, n, limit)
  {
    if n > 0 { InTimeOfPrefix(a, b, n - 1, limit); }
  }

  /** A lifecycle that ended in TRUE or FALSE. */
  predicate EndsResolved(versions: seq<Dated>) {
    Lifecycle(versions) && versions != [] && Scored(LastOf(versions))
  }

  lemma LifecycleIsRising(versions: seq<Dated>)
    requires Lifecycle(versions)
    ensures Rising(versions)
  {
    forall i, j | 0 <= i < j < |versions| ensures versions[i].forecast.version < versions[j].forecast.version {
      LifecycleOverDistance(versions, i, i);
      LifecycleOverDistance(versions, i, j);
    }
  }

  /** Its last version alone is scored, after at least one open version whose number it carries. */
  lemma ResolvedShape(versions: seq<Dated>)
    requires EndsResolved(versions)
    ensures var n := |versions|;
            && n >= 2 && versions[n - 1].forecast.version == n
            && versions[n - 1].forecast.probability == versions[n - 2].forecast.probability
            && (forall i :: 0 <= i < n - 1 ==>
              !Scored(versions[i]) && versions[i].forecast.version < n && versions[i].time <= versions[n - 1].time)
  {
    var n := |versions|;
    assert versions[0].forecast.status == OPEN;
    assert Succeeds(versions[n - 2], versions[n - 1]);
    LifecycleOverDistance(versions, n - 1, n - 1);
    forall i | 0 <= i < n - 1
      ensures !Scored(versions[i]) && versions[i].forecast.version < n && versions[i].time <= versions[n - 1].time
    {
      LifecycleOverDistance(versions, i, i);
      LifecycleOverDistance(versions, i, n - 1);
    }
  }

  lemma ScoredIsLast(versions: seq<Dated>)
    requires EndsResolved(versions)
    ensures ScoredOf(versions) == [LastOf(versions)]
            && Before(versions, LastOf(versions).forecast.version) == versions[..|versions| - 1]
  {
    var n := |versions|;
    ResolvedShape(versions);
    NoneScored(versions, n - 1);
    AllBefore(versions, n - 1, n);
  }

  lemma StandsOnFront(versions: seq<Dated>, horizon: Instant)
    requires EndsResolved(versions)
    ensures var prior := versions[..|versions| - 1];
            prior != [] && StandingProbability(versions, horizon) == Stood(AtStake(prior, horizon).forecast.probability)
  {
    var prior := versions[..|versions| - 1];
    ResolvedShape(versions);
    ScoredIsLast(versions);
    LifecycleIsRising(versions);
    EndsByVersion(prior, |prior|);
    assert OldestUpTo([LastOf(versions)], 1) == LastOf(versions);
  }

  /** The last number recorded by an instant, or else the first. */
  function LastBy(versions: seq<Dated>, limit: Time): real
    requires versions != []
  {
    (if InTime(versions, limit) != [] then LastOf(InTime(versions, limit)) else versions[0]).forecast.probability
  }

  lemma AtStakeOfRising(prior: seq<Dated>, horizon: Time)
    requires Rising(prior) && prior != []
    ensures AtStake(prior, At(horizon)).forecast.probability == LastBy(prior, horizon)
  {
    EndsByVersion(prior, |prior|);
    InTimeIsRising(prior, |prior|, horizon);
    var kept := InTime(prior, horizon);
    if kept != [] { EndsByVersion(kept, |kept|); }
  }

  /** The resolving version itself never changes which number was the last in time. */
  lemma ResolutionAddsNothing(versions: seq<Dated>, horizon: Time)
    requires EndsResolved(versions)
    ensures |versions| >= 2 && LastBy(versions[..|versions| - 1], horizon) == LastBy(versions, horizon)
  {
    var n := |versions|;
    var prior := versions[..n - 1];
    ResolvedShape(versions);
    InTimeOfPrefix(prior, versions, n - 1, horizon);
    if versions[n - 1].time <= horizon {
      AllInTime(versions, n, horizon);
      AllInTime(prior, n - 1, horizon);
    }
  }

  /** On a list a run produced, the score is the last number recorded by the horizon, or else the first. */
  lemma ScoreOfResolved(versions: seq<Dated>, horizon: Time)
    requires EndsResolved(versions)
    ensures StandingProbability(versions, At(horizon)) == Stood(LastBy(versions, horizon))
  {
    StandsOnFront(versions, At(horizon));
    ResolutionAddsNothing(versions, horizon);
    LifecycleIsRising(versions);
    AtStakeOfRising(versions[..|versions| - 1], horizon);
  }

  // ---------------------------------------------------------------- the number on record at the horizon

  /** What the log had recorded by an instant. */
  function AsOf(log: History, limit: Time): History {
    if log.Empty? || log.time <= limit then log else AsOf(log.prev, limit)
  }

  lemma {:induction false} VersionsAsOf(log: History, id: Id, limit: Time)
    requires Ordered(log)
    ensures Versions(AsOf(log, limit), id) == InTime(Versions(log, id), limit)
  {
    if log.Append? {
      var versions := Versions(log, id);
      if log.time <= limit {
        forall i | 0 <= i < |versions| ensures versions[i].time <= limit { VersionTimes(log, id, versions[i]); }
        AllInTime(versions, |versions|, limit);
      } else {
        VersionsAsOf(log.prev, id, limit);
        var before := Versions(log.prev, id);
        InTimeOfPrefix(before, versions, |before|, limit);
      }
    }
  }

  /** The number that stood when the horizon came, or the opening one if the forecast was authored after it. */
  function NumberAtStake(log: History, id: Id, horizon: Time): real
    requires Versions(log, id) != []
  {
    var standing := CurrentForecast(AsOf(log, horizon), id);
    if standing.TheForecast? then standing.f.probability else Versions(log, id)[0].forecast.probability
  }

  lemma NumberAtStakeIsLast(log: History, id: Id, horizon: Time)
    requires Reachable(log) && Versions(log, id) != []
    ensures NumberAtStake(log, id, horizon) == LastBy(Versions(log, id), horizon)
  {
    ReachableIsOrdered(log);
    VersionsAsOf(log, id, horizon);
    CurrentIsLast(AsOf(log, horizon), id);
  }

  /**
   * Scoring never fails on a resolved forecast, and scores exactly the number that was on record at the horizon:
   * in every log the engines can leave, whatever was appended to it later.
   */
  lemma ScoreIsTheNumberAtStake(log: History, id: Id, horizon: Time)
    requires Reachable(log) && Versions(log, id) != [] && Scored(LastOf(Versions(log, id)))
    ensures StandingProbability(Versions(log, id), At(horizon)) == Stood(NumberAtStake(log, id, horizon))
  {
    EveryHistoryIsALifecycle(log, id);
    NumberAtStakeIsLast(log, id, horizon);
    ScoreOfResolved(Versions(log, id), horizon);
  }

  lemma {:induction false} NoneInTime(versions: seq<Dated>, n: nat, limit: Time)
    requires n <= |versions| && forall i :: 0 <= i < n ==> limit < versions[i].time
    ensures InTimeUpTo(versions, n, limit) == []
  {
    if n > 0 { NoneInTime(versions, n - 1, limit); }
  }

  /** A forecast first recorded after its horizon is scored by its opening number. */
  lemma AuthoredLate(log: History, id: Id, horizon: Time)
    requires Reachable(log) && Versions(log, id) != [] && Scored(LastOf(Versions(log, id)))
    requires horizon < Versions(log, id)[0].time
    ensures StandingProbability(Versions(log, id), At(horizon)) == Stood(Versions(log, id)[0].forecast.probability)
  {
    var versions := Versions(log, id);
    EveryHistoryIsALifecycle(log, id);
    forall i | 0 <= i < |versions| ensures horizon < versions[i].time { LifecycleOverDistance(versions, 0, i); }
    NoneInTime(versions, |versions|, horizon);
    ScoreOfResolved(versions, horizon);
  }

  /**
   * All a score may depend on: the log as it stood at the horizon, or the opening version of a forecast authored later.
   */
  predicate SameAtStake(one: History, two: History, id: Id, horizon: Time)
    requires Versions(one, id) != [] && Versions(two, id) != []
  {
    || (AsOf(one, horizon) == AsOf(two, horizon) && CurrentForecast(AsOf(one, horizon), id).TheForecast?)
    || (Versions(one, id)[0] == Versions(two, id)[0] && horizon < Versions(one, id)[0].time)
  }

  /**
   * No hindsight: two runs that had the same log at an instant, and had opened the forecast by then, score the same
   * against that instant, however each was updated, refreshed and resolved afterwards. If the forecast was only
   * opened later, it is enough that they opened it alike.
   */
  lemma NoHindsight(one: History, two: History, id: Id, horizon: Time)
    requires Reachable(one) && Versions(one, id) != [] && Scored(LastOf(Versions(one, id)))
    requires Reachable(two) && Versions(two, id) != [] && Scored(LastOf(Versions(two, id)))
    requires SameAtStake(one, two, id, horizon)
    ensures StandingProbability(Versions(one, id), At(horizon)) == StandingProbability(Versions(two, id), At(horizon))
  {
    if horizon < Versions(one, id)[0].time && Versions(one, id)[0] == Versions(two, id)[0] {
      AuthoredLate(one, id, horizon);
      AuthoredLate(two, id, horizon);
    } else {
      ScoreIsTheNumberAtStake(one, id, horizon);
      ScoreIsTheNumberAtStake(two, id, horizon);
    }
  }

  // ---------------------------------------------------------------- moves after the horizon

  /** The version a list was resolved at, if it was. */
  datatype ResolvedAt = Unresolved | Version(number: int)

  function ResolvingVersion(versions: seq<Dated>): ResolvedAt {
    if ScoredOf(versions) == [] then Unresolved else Version(Oldest(ScoredOf(versions)).forecast.version)
  }

  /** A counted move: later than the horizon, before any resolution, and not within the tolerance. */
  predicate LateMove(versions: seq<Dated>, k: nat, horizon: Time, resolving: ResolvedAt)
    requires 0 < k < |versions|
  {
    && (resolving.Version? ==> versions[k].forecast.version < resolving.number) && horizon < versions[k].time
    && !Close(versions[k].forecast.probability, versions[k - 1].forecast.probability)
  }

  function LateMoves(versions: seq<Dated>, n: nat, horizon: Time, resolving: ResolvedAt): nat
    requires n <= |versions|
  {
    if n <= 1 then 0
    else
      LateMoves(versions, n - 1, horizon, resolving)
      + (if LateMove(versions, n - 1, horizon, resolving) then 1 else 0)
  }

  method PostHorizonUpdateCount(versions: seq<Dated>, horizon: Time) returns (count: nat)
    ensures count == LateMoves(versions, |versions|, horizon, ResolvingVersion(versions))
    ensures count == |LateIndices(versions, |versions|, horizon, ResolvingVersion(versions))|
  {
    var resolving := ResolvingVersion(versions);
    count := 0;
    LateMovesAreIndices(versions, |versions|, horizon, resolving);
    if versions == [] { return; }
    for k := 1 to |versions|
      invariant count == LateMoves(versions, k, horizon, resolving)
    {
      if resolving.Version? && versions[k].forecast.version >= resolving.number {
      } else if Close(versions[k].forecast.probability, versions[k - 1].forecast.probability) {
      } else if versions[k].time > horizon {
        count := count + 1;
      }
    }
  }

  /** The lowest version number of a resolution, if there is one. */
  lemma ResolvingVersionIs(versions: seq<Dated>)
    ensures match ResolvingVersion(versions)
            case Unresolved => forall v :: v in versions ==> !WasResolved(v)
            case Version(number) => exists r :: FirstResolution(versions, r) && r.forecast.version == number
  {
    FirstResolutionIs(versions);
  }

  /** Where the number moved by more than the tolerance, after the horizon and short of the resolving version. */
  function LateIndices(versions: seq<Dated>, n: nat, horizon: Time, resolving: ResolvedAt): set<int>
    requires n <= |versions|
  {
    set k | 0 < k < n
      && horizon < versions[k].time
      && !(-0.000000001 <= versions[k].forecast.probability - versions[k - 1].forecast.probability <= 0.000000001)
      && match resolving { case Unresolved => true case Version(number) => versions[k].forecast.version < number }
  }

  lemma OneMoreIndex(versions: seq<Dated>, n: nat, horizon: Time, resolving: ResolvedAt)
    requires 1 < n <= |versions|
    ensures var before := LateIndices(versions, n - 1, horizon, resolving);
            && n - 1 !in before
            && LateIndices(versions, n, horizon, resolving) ==
                 if LateMove(versions, n - 1, horizon, resolving) then before + {n - 1} else before
  {
  }

  lemma {:induction false} LateMovesAreIndices(versions: seq<Dated>, n: nat, horizon: Time, resolving: ResolvedAt)
    requires n <= |versions|
    ensures LateMoves(versions, n, horizon, resolving) == |LateIndices(versions, n, horizon, resolving)|
  {
    if n <= 1 {
      assert LateIndices(versions, n, horizon, resolving) == {};
    } else {
      LateMovesAreIndices(versions, n - 1, horizon, resolving);
      OneMoreIndex(versions, n, horizon, resolving);
    }
  }

  /** From the horizon on, a number that no count shows can only have drifted by tolerances. */
  lemma {:induction false} UncountedDrift(versions: seq<Dated>, horizon: Time, since: nat, until: nat)
    requires EndsResolved(versions) && since <= until < |versions| - 1
    requires LateMoves(versions, until + 1, horizon, ResolvingVersion(versions)) == 0
    requires forall k :: since < k <= until ==> horizon < versions[k].time
    ensures var drift := versions[until].forecast.probability - versions[since].forecast.probability;
            var bound := (until - since) as real * 0.000000001;
            -bound <= drift <= bound
    decreases until
  {
    ResolvedShape(versions);
    ScoredIsLast(versions);
    if since < until {
      UncountedDrift(versions, horizon, since, until - 1);
      assert !LateMove(versions, until, horizon, ResolvingVersion(versions));
    }
  }
}
