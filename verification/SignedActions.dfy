/** Verifying a signed action, committing it, and replaying its signature from the log alone. */
module SignedActions {
  import opened Options
  import opened EventLog
  import opened KeyLifecycle
  import opened KeyRegistries
  import opened SignIn

  const MAX_SKEW := 300

  /** What the server is about to perform, which the signed payload must be about. */
  datatype Operation = Operation(action: int, target: int, token: int, mission: int)

  datatype Verdict = Accepted(action: SignedAction)
                   | ExpiredSession | WrongActor | WrongMission | WrongTarget | ReplayedNonce | StaleVersion
                   | ClockSkew | InvalidSignature | KeyNotValid(standing: KeyStanding)

  function Skew(a: Time, b: Time): int {
    if a < b then b - a else a - b
  }

  function ActionFor(session: Session, payload: Payload, signature: Signature<Payload>, op: Operation): SignedAction {
    SignedAction(session.actor, session.kind, session.key, op.action, op.target, op.token, op.mission, payload.nonce,
                 payload.timestamp, DigestOf(payload), signature, payload)
  }

  /** The checks, in their fixed order. */
  function Checked(log: IdentityLog, session: Option<Session>, payload: Payload, signature: Signature<Payload>,
        op: Operation,
                   now: Time): Verdict {
    if session.None? then ExpiredSession
    else
      var s := session.value;
      if payload.actor != s.actor || payload.kind != s.kind then WrongActor
      else if payload.mission != op.mission then WrongMission
      else if payload.action != op.action || payload.target != op.target then WrongTarget
      else if NonceSeen(log, payload.nonce) then ReplayedNonce
      else if payload.token != op.token then StaleVersion
      else if Skew(payload.timestamp, now) > MAX_SKEW then ClockSkew
      else if Current(log, s.key).NoKey? || !Verifies(Current(log, s.key).key.public, signature, payload) then
          InvalidSignature
      else
        var standing := StandingAt(log, s.key, payload.timestamp);
        if standing != VALID then KeyNotValid(standing) else Accepted(ActionFor(s, payload, signature, op))
  }

  /** A session as sign-in opens it: for a key on record of that actor and kind. */
  predicate SessionOnRecord(log: IdentityLog, s: Session) {
    Current(log, s.key).TheKey? && Current(log, s.key).key.actor == s.actor && Current(log, s.key).key.kind == s.kind
  }

  predicate KeyStands(log: IdentityLog, key: KeyId) {
    Current(log, key).TheKey? && Current(log, key).key.status == ACTIVE
  }

  /** What was signed is what the server is about to perform. */
  predicate IsAbout(payload: Payload, op: Operation) {
    && payload.mission == op.mission && payload.action == op.action && payload.target == op.target
    && payload.token == op.token
  }

  /** Signed within five minutes of the server's clock, under a nonce no committed action carries. */
  ghost predicate IsFresh(log: IdentityLog, payload: Payload, now: Time) {
    && -300 <= payload.timestamp - now <= 300
    && forall a :: Recorded(log, Signed(a)) ==> a.nonce != payload.nonce
  }

  lemma {:induction false} NonceIsOnRecord(log: IdentityLog, nonce: int)
    ensures NonceSeen(log, nonce) <==> exists a :: Recorded(log, Signed(a)) && a.nonce == nonce
  {
    if log.Append? {
      NonceIsOnRecord(log.prev, nonce);
      if log.record.Signed? { assert Recorded(log, Signed(log.record.action)); }
    }
  }

  /** An active key has no version but its enrolment, so it stands from then on. */
  lemma ActiveStandsSinceEnrolment(log: IdentityLog, id: KeyId, at: Time)
    requires Reachable(log) && KeyStands(log, id)
    ensures StandingAt(log, id, at) == VALID <==> Current(log, id).key.enrolled <= at
  {
    EveryKeyHasAHistory(log, id);
    CurrentIsLast(log, id);
    var versions := KeyVersions(log, id);
    assert |versions| > 1 ==> Follows(versions[0], versions[|versions| - 1]);
  }

  lemma AcceptanceMeans(log: IdentityLog, s: Session, payload: Payload, signature: Signature<Payload>, op: Operation,
                        now: Time)
    requires Reachable(log) && KeyStands(log, s.key)
    ensures var verdict := Checked(log, Some(s), payload, signature, op, now);
            && (verdict.Accepted? <==>
                && payload.actor == s.actor && payload.kind == s.kind
                && IsAbout(payload, op) && IsFresh(log, payload, now)
                && signature == Made(Current(log, s.key).key.public, payload)
                && Current(log, s.key).key.enrolled <= payload.timestamp)
            && (verdict.Accepted? ==> verdict.action == ActionFor(s, payload, signature, op))
            && (verdict.Accepted? && SessionOnRecord(log, s) ==> AcceptedAt(log, verdict.action))
  {
    NonceIsOnRecord(log, payload.nonce);
    ActiveStandsSinceEnrolment(log, s.key, payload.timestamp);
  }

  /** Each refusal of a standing session is for its own reason, and no reason tested before it applies. */
  ghost predicate FirstFailure(log: IdentityLog, s: Session, payload: Payload, signature: Signature<Payload>,
        op: Operation, now: Time, verdict: Verdict)
    requires Current(log, s.key).TheKey?
  {
    var sameActor := payload.actor == s.actor && payload.kind == s.kind;
    var sameTarget := payload.action == op.action && payload.target == op.target;
    var unused := forall a :: Recorded(log, Signed(a)) ==> a.nonce != payload.nonce;
    var inTime := -300 <= payload.timestamp - now <= 300;
    match verdict
    case ExpiredSession => false
    case WrongActor => !sameActor
    case WrongMission => sameActor && payload.mission != op.mission
    case WrongTarget => sameActor && payload.mission == op.mission && !sameTarget
    case ReplayedNonce => sameActor && payload.mission == op.mission && sameTarget && !unused
    case StaleVersion => sameActor && payload.mission == op.mission && sameTarget && unused && payload.token != op.token
    case ClockSkew => sameActor && IsAbout(payload, op) && unused && !inTime
    case InvalidSignature =>
      sameActor && IsAbout(payload, op) && unused && inTime
      && signature != Made(Current(log, s.key).key.public, payload)
    case KeyNotValid(standing) =>
      && sameActor && IsAbout(payload, op) && unused && inTime
      && signature == Made(Current(log, s.key).key.public, payload)
      && payload.timestamp < Current(log, s.key).key.enrolled && standing == NOT_YET_ENROLLED
    case Accepted(_) => true
  }

  lemma RefusalMeans(log: IdentityLog, s: Session, payload: Payload, signature: Signature<Payload>, op: Operation,
                     now: Time)
    requires Reachable(log) && KeyStands(log, s.key)
    ensures FirstFailure(log, s, payload, signature, op, now, Checked(log, Some(s), payload, signature, op, now))
  {
    NonceIsOnRecord(log, payload.nonce);
    ActiveStandsSinceEnrolment(log, s.key, payload.timestamp);
    EveryKeyHasAHistory(log, s.key);
    CurrentIsLast(log, s.key);
    var versions := KeyVersions(log, s.key);
    assert |versions| > 1 ==> Follows(versions[0], versions[|versions| - 1]);
  }

  /** Verification writes nothing to the log. */
  method VerifyAction(registry: KeyRegistry, sessions: SessionManager, session: int, payload: Payload,
                      signature: Signature<Payload>, op: Operation, now: Time) returns (verdict: Verdict)
    requires registry.Valid() && sessions.Valid()
    modifies sessions
    ensures sessions.Valid()
    ensures verdict.Accepted? <==>
      && session in old(sessions.sessions)
      && var s := old(sessions.sessions)[session];
      && now <= s.expires && KeyStands(registry.log, s.key)
      && payload.actor == s.actor && payload.kind == s.kind
      && IsAbout(payload, op) && IsFresh(registry.log, payload, now)
      && signature == Made(Current(registry.log, s.key).key.public, payload)
      && Current(registry.log, s.key).key.enrolled <= payload.timestamp
    ensures verdict.Accepted? ==>
      && verdict.action == ActionFor(old(sessions.sessions)[session], payload, signature, op)
      && (SessionOnRecord(registry.log, old(sessions.sessions)[session]) ==> AcceptedAt(registry.log, verdict.action))
    ensures verdict.ExpiredSession? <==>
      !(&& session in old(sessions.sessions) && now <= old(sessions.sessions)[session].expires
        && KeyStands(registry.log, old(sessions.sessions)[session].key))
    ensures !verdict.ExpiredSession? ==>
      FirstFailure(registry.log, old(sessions.sessions)[session], payload, signature, op, now, verdict)
  {
    var resolved := sessions.Resolve(registry.log, session, now);
    verdict := Checked(registry.log, resolved, payload, signature, op, now);
    if resolved.Some? {
      AcceptanceMeans(registry.log, resolved.value, payload, signature, op, now);
      RefusalMeans(registry.log, resolved.value, payload, signature, op, now);
    }
  }

  /** Called after the command succeeded; another commit of the same nonce may have come first. */
  method CommitAction(registry: KeyRegistry, a: SignedAction, ghost seen: IdentityLog, now: Time)
    returns (committed: bool)
    requires registry.Valid() && Extends(registry.log, seen) && AcceptedAt(seen, a)
    modifies registry
    ensures registry.Valid()
    ensures committed <==> !NonceSeen(old(registry.log), a.nonce) && Admits(old(registry.log), now)
    ensures registry.log == if committed then Append(old(registry.log), now, Signed(a)) else old(registry.log)
  {
    if NonceSeen(registry.log, a.nonce) || !Admits(registry.log, now) { return false; }
    assert LegalAction(registry.log, a);
    registry.log := Append(registry.log, now, Signed(a));
    return true;
  }

  // ---------------------------------------------------------------- nonces

  /** The committed actions, oldest first. */
  function ActionsOf(log: IdentityLog): seq<SignedAction> {
    if log.Empty? then []
    else if log.record.Signed? then ActionsOf(log.prev) + [log.record.action]
    else ActionsOf(log.prev)
  }

  lemma {:induction false} ActionsAreRecorded(log: IdentityLog, a: SignedAction)
    ensures a in ActionsOf(log) <==> Recorded(log, Signed(a))
  {
    if log.Append? { ActionsAreRecorded(log.prev, a); }
  }

  /** Under any interleaving of verifications and commits, no two committed actions carry the same nonce. */
  lemma {:induction false} NonceIsCommittedOnce(log: IdentityLog, i: nat, j: nat)
    requires Reachable(log) && i < j < |ActionsOf(log)|
    ensures ActionsOf(log)[i].nonce != ActionsOf(log)[j].nonce
  {
    if j < |ActionsOf(log.prev)| {
      NonceIsCommittedOnce(log.prev, i, j);
    } else {
      ActionsAreRecorded(log.prev, ActionsOf(log)[i]);
      NonceIsOnRecord(log.prev, ActionsOf(log)[j].nonce);
    }
  }

  // ---------------------------------------------------------------- replay

  datatype ReplayVerdict = GENUINE | DIGEST_MISMATCH | KEY_UNKNOWN | SIGNATURE_INVALID | KEY_NOT_VALID_AT_TIME

  function Replay(log: IdentityLog, a: SignedAction): ReplayVerdict {
    if DigestOf(a.payload) != a.digest then DIGEST_MISMATCH
    else if Current(log, a.key).NoKey? then KEY_UNKNOWN
    else if !Verifies(Current(log, a.key).key.public, a.signature, a.payload) then SIGNATURE_INVALID
    else if StandingAt(log, a.key, a.timestamp) == VALID then GENUINE
    else KEY_NOT_VALID_AT_TIME
  }

  /**
   * What a replay of any action on any log the system wrote says: GENUINE if the digest and the signature are those of
   * the payload and the key was enrolled by the timestamp, not settled by it, and is not compromised. The digest is
   * looked at first, the key's standing last.
   */
  lemma ReplayMeans(log: IdentityLog, a: SignedAction)
    requires Reachable(log)
    ensures var k, verdict := Current(log, a.key), Replay(log, a);
            var signed := k.TheKey? && a.signature == Made(k.key.public, a.payload);
            && (verdict == DIGEST_MISMATCH <==> a.digest != DigestOf(a.payload))
            && (verdict == KEY_UNKNOWN <==> a.digest == DigestOf(a.payload) && k.NoKey?)
            && (verdict == SIGNATURE_INVALID <==> a.digest == DigestOf(a.payload) && k.TheKey? && !signed)
            && (verdict == GENUINE <==>
                  && a.digest == DigestOf(a.payload) && signed && k.key.enrolled <= a.timestamp
                  && StillStands(log, a))
  {
    ValidMeans(log, a.key, a.timestamp);
    CurrentIsLast(log, a.key);
    EveryKeyHasAHistory(log, a.key);
    var versions := KeyVersions(log, a.key);
    assert |versions| > 1 ==> Follows(versions[0], versions[|versions| - 1]);
  }

  /** Nothing that settles the key bears on the instant of signing. */
  predicate StillStands(log: IdentityLog, a: SignedAction) {
    !Compromised(log, a.key) && Unsettled(KeyVersions(log, a.key), a.timestamp)
  }

  lemma {:induction false} KeyIsFixed(log: IdentityLog, seen: IdentityLog, id: KeyId)
    requires Reachable(log) && Extends(log, seen) && Current(seen, id).TheKey?
    ensures Current(log, id).TheKey? && Current(log, id).key.public == Current(seen, id).key.public
    ensures KeyVersions(log, id) != [] && KeyVersions(seen, id) != []
            && KeyVersions(log, id)[0] == KeyVersions(seen, id)[0]
  {
    CurrentIsLast(seen, id);
    if log != seen { KeyIsFixed(log.prev, seen, id); }
  }

  lemma {:induction false} EarlierIsReachable(log: IdentityLog, seen: IdentityLog)
    requires Reachable(log) && Extends(log, seen)
    ensures Reachable(seen)
  {
    if log != seen { EarlierIsReachable(log.prev, seen); }
  }

  /**
   * An accepted action replays as genuine in a later log exactly when its key was neither compromised nor settled
   * at or before its timestamp; no other verdict than that of the key can ever turn against it.
   */
  lemma AcceptedReplays(log: IdentityLog, seen: IdentityLog, a: SignedAction)
    requires Reachable(log) && Extends(log, seen) && AcceptedAt(seen, a)
    ensures Replay(log, a) == if StillStands(log, a) then GENUINE else KEY_NOT_VALID_AT_TIME
  {
    EarlierIsReachable(log, seen);
    KeyIsFixed(log, seen, a.key);
    ValidMeans(seen, a.key, a.timestamp);
    ValidMeans(log, a.key, a.timestamp);
  }

  /** With a timestamp before every later step, only a compromise can do that. */
  lemma GenuineUnlessCompromised(log: IdentityLog, seen: IdentityLog, a: SignedAction)
    requires Reachable(log) && Extends(log, seen) && OnlyLater(log, seen, a.timestamp) && AcceptedAt(seen, a)
    ensures Replay(log, a) == if Compromised(log, a.key) then KEY_NOT_VALID_AT_TIME else GENUINE
  {
    AcceptedReplays(log, seen, a);
    StandingIsFixed(log, seen, a.key, a.timestamp);
    ValidMeans(log, a.key, a.timestamp);
  }

  /** Every action of a reachable log was verified before it was committed. */
  lemma {:induction false} CommittedWasAccepted(log: IdentityLog, a: SignedAction)
    requires Reachable(log) && Recorded(log, Signed(a))
    ensures exists seen :: Extends(log, seen) && AcceptedAt(seen, a)
  {
    if log.record == Signed(a) {
      var seen :| Extends(log.prev, seen) && AcceptedAt(seen, a);
      assert Extends(log, seen) by { ExtendsTrans(log, log.prev, seen); }
    } else {
      CommittedWasAccepted(log.prev, a);
      var seen :| Extends(log.prev, seen) && AcceptedAt(seen, a);
      assert Extends(log, seen) by { ExtendsTrans(log, log.prev, seen); }
    }
  }

  /** Over every run: replay of a committed action turns on its key's history alone. */
  lemma CommittedReplays(log: IdentityLog, a: SignedAction)
    requires Reachable(log) && Recorded(log, Signed(a))
    ensures Replay(log, a) == if StillStands(log, a) then GENUINE else KEY_NOT_VALID_AT_TIME
  {
    CommittedWasAccepted(log, a);
    var seen :| Extends(log, seen) && AcceptedAt(seen, a);
    AcceptedReplays(log, seen, a);
  }

  /**
   * The allowed skew is a gap: an action dated ahead of the server's clock is accepted now, and a plain retirement
   * of its key before that date makes it replay as not valid.
   */
  lemma FutureDatedActionCanLapse(log: IdentityLog, a: SignedAction, now: Time) returns (later: IdentityLog)
    requires Reachable(log) && Admits(log, now) && AcceptedAt(log, a) && now <= a.timestamp <= now + MAX_SKEW
    ensures Reachable(later) && Extends(later, log) && !Compromised(later, a.key)
    ensures Replay(log, a) == GENUINE && Replay(later, a) == KEY_NOT_VALID_AT_TIME
  {
    assert Extends(log, log);
    ValidMeans(log, a.key, a.timestamp);
    AcceptedReplays(log, log, a);
    later := Retire(log, a.key, now);
    AcceptedReplays(later, log, a);
    CurrentIsLast(later, a.key);
    var versions := KeyVersions(later, a.key);
    assert versions[|versions| - 1] in versions;
  }

  // ---------------------------------------------------------------- replaying the whole log

  method VerifyAll(log: IdentityLog) returns (verdicts: seq<ReplayVerdict>, allGenuine: bool)
    ensures |verdicts| == |ActionsOf(log)|
    ensures forall i :: 0 <= i < |verdicts| ==> verdicts[i] == Replay(log, ActionsOf(log)[i])
    ensures allGenuine <==> forall a :: a in ActionsOf(log) ==> Replay(log, a) == GENUINE
  {
    var actions := ActionsOf(log);
    verdicts, allGenuine := [], true;
    for i := 0 to |actions|
      invariant |verdicts| == i
      invariant forall k :: 0 <= k < i ==> verdicts[k] == Replay(log, actions[k])
      invariant allGenuine <==> forall k :: 0 <= k < i ==> verdicts[k] == GENUINE
    {
      var verdict := Replay(log, actions[i]);
      verdicts := verdicts + [verdict];
      allGenuine := allGenuine && verdict == GENUINE;
    }
    assert forall k :: 0 <= k < |actions| ==> actions[k] in actions;
  }

  /** A log the system wrote replays as all genuine exactly when every action's key still stands at its signing. */
  lemma LogIsGenuineIff(log: IdentityLog)
    requires Reachable(log)
    ensures (forall a :: a in ActionsOf(log) ==> Replay(log, a) == GENUINE)
            <==> forall a :: Recorded(log, Signed(a)) ==> StillStands(log, a)
  {
    forall a ensures a in ActionsOf(log) <==> Recorded(log, Signed(a)) { ActionsAreRecorded(log, a); }
    forall a | Recorded(log, Signed(a))
      ensures Replay(log, a) == GENUINE <==> StillStands(log, a) { CommittedReplays(log, a); }
  }

  // ---------------------------------------------------------------- sessions stay on record

  /** What sign-in checked of a session's key stays true of every later log. */
  lemma {:induction false} SessionStaysOnRecord(log: IdentityLog, seen: IdentityLog, s: Session)
    requires Reachable(log) && Extends(log, seen) && SessionOnRecord(seen, s)
    ensures SessionOnRecord(log, s)
  {
    if log != seen { SessionStaysOnRecord(log.prev, seen, s); }
  }
}
