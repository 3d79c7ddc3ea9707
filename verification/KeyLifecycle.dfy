/** Actor keys as versions in the event log, the rule each append obeys, and what that fixes for good. */
module KeyLifecycle {
  import opened FiniteSets
  import opened EventLog

  // ---------------------------------------------------------------- records

  /** A key's id is the digest of its public key. */
  datatype KeyId = Digest(public: int)

  datatype KeyStatus = ACTIVE | REVOKED | RETIRED

  datatype Replaces = Nothing | Predecessor(key: KeyId)

  /** `tagged`: the reason on record starts with the compromise tag. */
  datatype KeyRecord = KeyRecord(
    id: KeyId, version: int, actor: int, kind: int, public: int, status: KeyStatus, enrolled: Time, statusTime: Time,
    supersedes: Replaces, tagged: bool)

  /** What an actor signs: the action, its target and version, the mission, a nonce and a timestamp. */
  datatype Payload = Payload(
    actor: int, kind: int, action: int, target: int, token: int, mission: int, nonce: int, timestamp: Time,
    command: int)

  /** A signature by a private key, named by its public half; verification accepts exactly these. */
  datatype Signature<P> = Made(public: int, payload: P) | Noise(bits: int)

  predicate Verifies<P(==)>(public: int, signature: Signature<P>, payload: P) {
    signature == Made(public, payload)
  }

  datatype PayloadDigest = DigestOf(payload: Payload)

  datatype SignedAction = SignedAction(
    actor: int, kind: int, key: KeyId, action: int, target: int, token: int, mission: int, nonce: int, timestamp: Time,
    digest: PayloadDigest, signature: Signature<Payload>, payload: Payload)

  datatype IdentityRecord = Key(key: KeyRecord) | Signed(action: SignedAction) | Elsewhere

  type IdentityLog = Log<IdentityRecord>

  // ---------------------------------------------------------------- replayed views

  datatype MaybeKey = NoKey | TheKey(key: KeyRecord)

  function Current(log: IdentityLog, id: KeyId): (r: MaybeKey)
    ensures r.TheKey? ==> r.key.id == id
  {
    if log.Empty? then NoKey
    else if log.record.Key? && log.record.key.id == id then TheKey(log.record.key)
    else Current(log.prev, id)
  }

  /** Every version of one key, oldest first. */
  function KeyVersions(log: IdentityLog, id: KeyId): seq<KeyRecord> {
    if log.Empty? then []
    else KeyVersions(log.prev, id) + (if log.record.Key? && log.record.key.id == id then [log.record.key] else [])
  }

  function KeyIds(log: IdentityLog): set<KeyId> {
    if log.Empty? then {} else KeyIds(log.prev) + (if log.record.Key? then {log.record.key.id} else {})
  }

  predicate IsActive(log: IdentityLog, actor: int, id: KeyId) {
    Current(log, id).TheKey? && Current(log, id).key.actor == actor && Current(log, id).key.status == ACTIVE
  }

  function ActiveIds(log: IdentityLog, actor: int): set<KeyId> {
    set id | id in KeyIds(log) && IsActive(log, actor, id)
  }

  /** Some record of the actor carries another kind. */
  predicate OwnsOtherKind(log: IdentityLog, actor: int, kind: int) {
    log.Append? && ((log.record.Key? && log.record.key.actor == actor && log.record.key.kind != kind)
                    || OwnsOtherKind(log.prev, actor, kind))
  }

  predicate NonceSeen(log: IdentityLog, nonce: int) {
    log.Append? && ((log.record.Signed? && log.record.action.nonce == nonce) || NonceSeen(log.prev, nonce))
  }

  // ---------------------------------------------------------------- the rule of each append

  const MAX_ACTIVE_KEYS := 8

  predicate LegalEnrolment(log: IdentityLog, time: Time, v: KeyRecord) {
    && v.version == 1 && v.id == Digest(v.public) && v.status == ACTIVE && !v.tagged
    && v.enrolled == time && v.statusTime == time
    && (v.supersedes.Predecessor? ==>
          v.supersedes.key != v.id && Current(log, v.supersedes.key).TheKey?
          && Current(log, v.supersedes.key).key.actor == v.actor)
    && !OwnsOtherKind(log, v.actor, v.kind)
    && |ActiveIds(log, v.actor)| < MAX_ACTIVE_KEYS
  }

  /** A settled key changes once more only to record a compromise. */
  predicate LegalKeyMove(time: Time, u: KeyRecord, v: KeyRecord) {
    && v == u.(version := u.version + 1, status := v.status, statusTime := time, tagged := v.tagged)
    && v.status != ACTIVE
    && (u.status == ACTIVE || (!u.tagged && v.status == REVOKED && v.tagged))
    && (v.status == RETIRED ==> !v.tagged)
  }

  predicate LegalKey(log: IdentityLog, time: Time, v: KeyRecord) {
    match Current(log, v.id)
    case NoKey => LegalEnrolment(log, time, v)
    case TheKey(u) => LegalKeyMove(time, u, v)
  }

  /** What verification established, on the log it read, of an action it accepted. */
  predicate AcceptedAt(seen: IdentityLog, a: SignedAction) {
    && a.payload ==
      Payload(a.actor, a.kind, a.action, a.target, a.token, a.mission, a.nonce, a.timestamp, a.payload.command)
    && a.digest == DigestOf(a.payload)
    && IsActive(seen, a.actor, a.key) && StandingAt(seen, a.key, a.timestamp) == VALID
    && Verifies(Current(seen, a.key).key.public, a.signature, a.payload)
  }

  /** An action is committed after it was verified on the log as it was then, and only under a nonce not yet used. */
  ghost predicate LegalAction(log: IdentityLog, a: SignedAction) {
    !NonceSeen(log, a.nonce) && exists seen :: Extends(log, seen) && AcceptedAt(seen, a)
  }

  ghost predicate Legal(log: IdentityLog, time: Time, record: IdentityRecord) {
    Admits(log, time) &&
    match record
    case Key(v) => LegalKey(log, time, v)
    case Signed(a) => LegalAction(log, a)
    case Elsewhere => true
  }

  ghost predicate Reachable(log: IdentityLog) {
    log.Append? ==> Reachable(log.prev) && Legal(log.prev, log.time, log.record)
  }

  // ---------------------------------------------------------------- a key's history

  /** What is fixed at enrolment, and what may follow what. */
  predicate Follows(u: KeyRecord, v: KeyRecord) {
    && v.id == u.id && v.actor == u.actor && v.kind == u.kind && v.public == u.public
    && v.enrolled == u.enrolled && v.supersedes == u.supersedes
    && v.status != ACTIVE && u.statusTime <= v.statusTime
    && (u.status == ACTIVE || (v.status == REVOKED && v.tagged && !u.tagged))
  }

  predicate KeyHistory(versions: seq<KeyRecord>) {
    && (versions != [] ==>
          versions[0].status == ACTIVE && !versions[0].tagged && versions[0].statusTime == versions[0].enrolled
          && versions[0].id == Digest(versions[0].public))
    && (forall i :: 0 <= i < |versions| ==> versions[i].version == i + 1)
    && (forall i, j :: 0 <= i < j < |versions| ==> Follows(versions[i], versions[j]))
  }

  lemma {:induction false} CurrentIsLast(log: IdentityLog, id: KeyId)
    ensures Current(log, id).NoKey? <==> KeyVersions(log, id) == []
    ensures KeyVersions(log, id) != [] ==> Current(log, id) == TheKey(KeyVersions(log, id)[|KeyVersions(log, id)| - 1])
  {
    if log.Append? { CurrentIsLast(log.prev, id); }
  }

  lemma {:induction false} StatusTimesArePast(log: IdentityLog, id: KeyId)
    requires Reachable(log)
    ensures forall v :: v in KeyVersions(log, id) ==> log.Append? && v.statusTime <= log.time
  {
    if log.Append? { StatusTimesArePast(log.prev, id); }
  }

  /**
   * Under any interleaving of enrolments, revocations and rotations: a key's actor, kind and public key never change,
   * it is never active again, and after it is settled the only further step records a compromise, once.
   */
  lemma {:induction false} EveryKeyHasAHistory(log: IdentityLog, id: KeyId)
    requires Reachable(log)
    ensures KeyHistory(KeyVersions(log, id)) && |KeyVersions(log, id)| <= 3
  {
    if log.Append? {
      EveryKeyHasAHistory(log.prev, id);
      if log.record.Key? && log.record.key.id == id {
        CurrentIsLast(log.prev, id);
        StatusTimesArePast(log.prev, id);
        Extend(KeyVersions(log.prev, id), log.time, log.record.key);
      }
    }
  }

  lemma ThirdIsLast(versions: seq<KeyRecord>)
    requires KeyHistory(versions) && |versions| >= 3
    ensures versions[|versions| - 1].status == REVOKED && versions[|versions| - 1].tagged
  {
    assert Follows(versions[0], versions[1]) && Follows(versions[1], versions[|versions| - 1]);
  }

  lemma Extend(before: seq<KeyRecord>, time: Time, v: KeyRecord)
    requires KeyHistory(before) && |before| <= 3
    requires before == [] ==>
             v.version == 1 && v.id == Digest(v.public) && v.status == ACTIVE && !v.tagged && v.enrolled == v.statusTime
    requires before != [] ==> LegalKeyMove(time, before[|before| - 1], v)
    requires forall u :: u in before ==> u.statusTime <= time
    ensures KeyHistory(before + [v]) && |before| <= 2
  {
    var after := before + [v];
    if before != [] {
      var n, last := |before|, before[|before| - 1];
      if n >= 3 { ThirdIsLast(before); }
      forall i | 0 <= i < n ensures Follows(after[i], v) {
        assert before[i] in before;
        if i < n - 1 { assert Follows(before[i], last); }
      }
    }
  }

  lemma {:induction false} KnownIds(log: IdentityLog, id: KeyId)
    ensures id in KeyIds(log) <==> Current(log, id).TheKey?
  {
    if log.Append? { KnownIds(log.prev, id); }
  }

  lemma ActiveIffInSet(log: IdentityLog, actor: int, id: KeyId)
    ensures id in ActiveIds(log, actor) <==> IsActive(log, actor, id)
  {
    KnownIds(log, id);
  }

  lemma ActiveSetAfter(log: IdentityLog, after: IdentityLog, actor: int)
    requires after.Append? && after.prev == log && after.record.Key? && LegalKey(log, after.time, after.record.key)
    ensures var v := after.record.key;
            if Current(log, v.id).NoKey? && actor == v.actor then
                ActiveIds(after, actor) == ActiveIds(log, actor) + {v.id}
            else ActiveIds(after, actor) <= ActiveIds(log, actor)
  {
    var v := after.record.key;
    forall id ensures id in ActiveIds(after, actor) <==>
                        if id == v.id then Current(log, id).NoKey? && actor == v.actor else id in ActiveIds(log, actor)
    {
      ActiveIffInSet(after, actor, id);
      ActiveIffInSet(log, actor, id);
    }
    ActiveIffInSet(log, actor, v.id);
  }

  /** An actor never has more than eight active keys. */
  lemma {:induction false} ActiveKeysAreBounded(log: IdentityLog, actor: int)
    requires Reachable(log)
    ensures |ActiveIds(log, actor)| <= MAX_ACTIVE_KEYS
  {
    if log.Append? {
      ActiveKeysAreBounded(log.prev, actor);
      if log.record.Key? {
        ActiveSetAfter(log.prev, log, actor);
        if ActiveIds(log, actor) <= ActiveIds(log.prev, actor) {
          SubsetIsNotLarger(ActiveIds(log, actor), ActiveIds(log.prev, actor));
        }
      } else {
        forall id ensures id in ActiveIds(log, actor) <==> id in ActiveIds(log.prev, actor) {
          ActiveIffInSet(log, actor, id);
          ActiveIffInSet(log.prev, actor, id);
        }
        assert ActiveIds(log, actor) == ActiveIds(log.prev, actor);
      }
    }
  }

  /** All of an actor's keys, in whatever state, share one kind. */
  lemma {:induction false} OneKindPerActor(log: IdentityLog, actor: int, a: KeyId, b: KeyId)
    requires Reachable(log) && Current(log, a).TheKey? && Current(log, b).TheKey?
    requires Current(log, a).key.actor == actor && Current(log, b).key.actor == actor
    ensures Current(log, a).key.kind == Current(log, b).key.kind
  {
    KindIsOwned(log, actor, a);
    KindIsOwned(log, actor, b);
  }

  /** No record of the actor carries another kind than its current key does. */
  lemma {:induction false} KindIsOwned(log: IdentityLog, actor: int, a: KeyId)
    requires Reachable(log) && Current(log, a).TheKey? && Current(log, a).key.actor == actor
    ensures !OwnsOtherKind(log, actor, Current(log, a).key.kind)
    ensures forall kind :: kind != Current(log, a).key.kind ==> OwnsOtherKind(log, actor, kind)
  {
    if log.record.Key? && log.record.key.id == a {
      if Current(log.prev, a).TheKey? { KindIsOwned(log.prev, actor, a); }
    } else {
      KindIsOwned(log.prev, actor, a);
      if log.record.Key? && log.record.key.actor == actor {
        var b := log.record.key.id;
        if Current(log.prev, b).TheKey? { KindIsOwned(log.prev, actor, b); }
      }
    }
  }

  // ---------------------------------------------------------------- validity at a point in time

  datatype KeyStanding = VALID | NOT_YET_ENROLLED | UNKNOWN | COMPROMISED | WAS(status: KeyStatus)

  predicate Compromised(log: IdentityLog, id: KeyId) {
    Current(log, id).TheKey? && Current(log, id).key.status == REVOKED && Current(log, id).key.tagged
  }

  /** The last version, in order, whose status time has come. */
  function Effective(versions: seq<KeyRecord>, at: Time): MaybeKey {
    if versions == [] then NoKey
    else
      var last := versions[|versions| - 1];
      if last.statusTime <= at then TheKey(last) else Effective(versions[..|versions| - 1], at)
  }

  function StandingAt(log: IdentityLog, id: KeyId, at: Time): KeyStanding {
    var versions := KeyVersions(log, id);
    if versions == [] then UNKNOWN
    else if Compromised(log, id) then COMPROMISED
    else if at < versions[0].enrolled then NOT_YET_ENROLLED
    else
      var effective := Effective(versions, at);
      if effective.NoKey? || effective.key.status == ACTIVE then VALID else WAS(effective.key.status)
  }

  /** The read-only scan over a key's versions. */
  method VerificationStatusAt(log: IdentityLog, id: KeyId, at: Time) returns (r: KeyStanding)
    ensures r == StandingAt(log, id, at)
  {
    var versions := KeyVersions(log, id);
    if versions == [] { return UNKNOWN; }
    CurrentIsLast(log, id);
    var latest := versions[|versions| - 1];
    if latest.status == REVOKED && latest.tagged { return COMPROMISED; }
    if at < versions[0].enrolled { return NOT_YET_ENROLLED; }
    var effective := NoKey;
    for i := 0 to |versions|
      invariant effective == Effective(versions[..i], at)
    {
      assert versions[..i + 1][..i] == versions[..i];
      if versions[i].statusTime <= at {
        effective := TheKey(versions[i]);
      }
    }
    assert versions[..|versions|] == versions;
    return if effective.NoKey? || effective.key.status == ACTIVE then VALID else WAS(effective.key.status);
  }

  /** A key was valid at an instant: enrolled by then, never compromised since, and not settled by then. */
  lemma ValidMeans(log: IdentityLog, id: KeyId, at: Time)
    requires Reachable(log)
    ensures StandingAt(log, id, at) == VALID <==>
              var versions := KeyVersions(log, id);
              && versions != [] && !Compromised(log, id) && versions[0].enrolled <= at
              && Unsettled(versions, at)
  {
    var versions := KeyVersions(log, id);
    EveryKeyHasAHistory(log, id);
    EffectiveIsLatest(versions, at);
  }

  /** At `at` the key had not been settled. */
  predicate Unsettled(versions: seq<KeyRecord>, at: Time) {
    forall v :: v in versions && v.statusTime <= at ==> v.status == ACTIVE
  }

  lemma {:induction false} EffectiveIsLatest(versions: seq<KeyRecord>, at: Time)
    requires KeyHistory(versions)
    ensures Unsettled(versions, at) <==> Effective(versions, at).NoKey? || Effective(versions, at).key.status == ACTIVE
  {
    if versions != [] {
      var front, last := versions[..|versions| - 1], versions[|versions| - 1];
      EffectiveIsLatest(front, at);
      assert last in versions && forall v :: v in versions <==> v in front || v == last;
    }
  }

  /** Everything recorded after `kept` was recorded later than `at`. */
  predicate OnlyLater(log: IdentityLog, kept: IdentityLog, at: Time) {
    log == kept || (log.Append? && at < log.time && OnlyLater(log.prev, kept, at))
  }

  lemma {:induction false} LaterVersions(log: IdentityLog, kept: IdentityLog, id: KeyId, at: Time)
    requires Reachable(log) && OnlyLater(log, kept, at)
    ensures Effective(KeyVersions(log, id), at) == Effective(KeyVersions(kept, id), at)
    ensures KeyVersions(kept, id) != [] ==>
            KeyVersions(log, id) != [] && KeyVersions(log, id)[0] == KeyVersions(kept, id)[0]
    ensures KeyVersions(kept, id) == [] && KeyVersions(log, id) != [] ==> at < KeyVersions(log, id)[0].enrolled
  {
    if log != kept {
      LaterVersions(log.prev, kept, id, at);
      if log.record.Key? && log.record.key.id == id {
        CurrentIsLast(log.prev, id);
        var before, after := KeyVersions(log.prev, id), KeyVersions(log, id);
        assert after[..|after| - 1] == before;
      } else {
        assert KeyVersions(log, id) == KeyVersions(log.prev, id);
      }
    }
  }

  /**
   * History is fixed: whatever happens later, a key's standing at an instant stays what it was, unless the key is
   * then marked compromised, which is retroactive; and a key enrolled later reads as not yet enrolled.
   */
  lemma StandingIsFixed(log: IdentityLog, kept: IdentityLog, id: KeyId, at: Time)
    requires Reachable(log) && OnlyLater(log, kept, at)
    ensures StandingAt(log, id, at) ==
              if Compromised(log, id) then COMPROMISED
              else if Current(kept, id).NoKey? && Current(log, id).TheKey? then NOT_YET_ENROLLED
              else StandingAt(kept, id, at)
  {
    LaterVersions(log, kept, id, at);
    CurrentIsLast(log, id);
    CurrentIsLast(kept, id);
    if Compromised(kept, id) { CompromiseIsFinal(log, kept, id, at); }
  }

  lemma {:induction false} CompromiseIsFinal(log: IdentityLog, kept: IdentityLog, id: KeyId, at: Time)
    requires Reachable(log) && OnlyLater(log, kept, at) && Compromised(kept, id)
    ensures Compromised(log, id)
  {
    if log != kept { CompromiseIsFinal(log.prev, kept, id, at); }
  }

  /** An append changes a key's standing at an earlier instant only by enrolling it or by marking it compromised. */
  lemma OnlyCompromiseRewritesThePast(log: IdentityLog, id: KeyId, at: Time)
    requires Reachable(log) && log.Append? && at < log.time
    ensures StandingAt(log, id, at) != StandingAt(log.prev, id, at) <==>
              && log.record.Key? && log.record.key.id == id
              && (log.record.key.version == 1 || (log.record.key.status == REVOKED && log.record.key.tagged))
  {
    assert OnlyLater(log.prev, log.prev, at);
    assert OnlyLater(log, log.prev, at);
    StandingIsFixed(log, log.prev, id, at);
    CurrentIsLast(log.prev, id);
    CurrentIsLast(log, id);
    EveryKeyHasAHistory(log, id);
  }
}
