/** Challenge-response sign-in: two bounded tables, evicting only the caller's own oldest entry. */
module SignIn {
  import opened FiniteSets
  import opened Options
  import opened EventLog
  import opened KeyLifecycle

  datatype Challenge = Challenge(actor: int, owner: int, issued: Time, expires: Time)

  datatype Session = Session(id: int, actor: int, kind: int, key: KeyId, issued: Time, expires: Time)

  datatype SignInPayload = SignInPayload(actor: int, nonce: int)

  const MAX_PENDING := 4096
  const MAX_SESSIONS := 8192

  // ---------------------------------------------------------------- pruning a table

  /** An entry of either table, as pruning sees it. */
  datatype Entry = Entry(owner: int, issued: Time, expires: Time)

  function ExpiredIn(table: map<int, Entry>, now: Time): set<int> {
    set n | n in table && table[n].expires < now
  }

  /** The owner's entries that have not expired. */
  function OwnedIn(table: map<int, Entry>, owner: int, now: Time): set<int> {
    set n | n in table && table[n].owner == owner && now <= table[n].expires
  }

  ghost predicate OldestOwned(table: map<int, Entry>, n: int, owner: int, now: Time) {
    n in OwnedIn(table, owner, now) && forall m :: m in OwnedIn(table, owner, now) ==>
      table[n].issued <= table[m].issued
  }

  /** What goes to make room under `capacity`: expired entries, and under pressure the owner's oldest and no other. */
  ghost predicate Evicts(table: map<int, Entry>, gone: set<int>, now: Time, owner: int, capacity: nat, room: bool) {
    var expired := ExpiredIn(table, now);
    if |table.Keys - expired| < capacity then room && gone == expired
    else if room then exists victim :: OldestOwned(table, victim, owner, now) && gone == expired + {victim}
    else gone == expired && OwnedIn(table, owner, now) == {}
  }

  method Oldest(table: map<int, Entry>, owner: int, now: Time) returns (victim: int)
    requires OwnedIn(table, owner, now) != {}
    ensures OldestOwned(table, victim, owner, now)
  {
    var owned := OwnedIn(table, owner, now);
    var rest := owned;
    ghost var _ := SomeElement(rest);
    victim :| victim in rest;
    while rest != {}
      invariant rest <= owned && victim in owned
      invariant forall m :: m in owned && m !in rest ==> table[victim].issued <= table[m].issued
      decreases |rest|
    {
      ghost var _ := SomeElement(rest);
      var n :| n in rest;
      if table[n].issued < table[victim].issued { victim := n; }
      rest := rest - {n};
    }
  }

  /** The eviction loop. A table that never exceeds its capacity loses at most one entry that has not expired. */
  method Prune(table: map<int, Entry>, now: Time, owner: int, capacity: nat) returns (gone: set<int>, room: bool)
    requires |table| <= capacity && capacity > 0
    ensures Evicts(table, gone, now, owner, capacity, room)
    ensures gone <= table.Keys && (room <==> |table.Keys - gone| < capacity)
  {
    gone := ExpiredIn(table, now);
    assert |table.Keys| == |table|;
    SubsetIsNotLarger(table.Keys - gone, table.Keys);
    while |table.Keys - gone| >= capacity
      invariant gone <= table.Keys
      invariant gone == ExpiredIn(table, now)
                || (|table.Keys - gone| < capacity && |table.Keys - ExpiredIn(table, now)| >= capacity
                    && exists victim ::
                         OldestOwned(table, victim, owner, now) && gone == ExpiredIn(table, now) + {victim})
      decreases |table.Keys - gone|
    {
      if OwnedIn(table, owner, now) == {} { return gone, false; }
      var victim := Oldest(table, owner, now);
      assert table.Keys - (gone + {victim}) == (table.Keys - gone) - {victim};
      SubsetIsNotLarger(table.Keys - gone, table.Keys);
      gone := gone + {victim};
    }
    return gone, true;
  }

  function PendingEntries(pending: map<int, Challenge>): map<int, Entry> {
    map n | n in pending :: Entry(pending[n].owner, pending[n].issued, pending[n].expires)
  }

  function SessionEntries(sessions: map<int, Session>): map<int, Entry> {
    map n | n in sessions :: Entry(sessions[n].actor, sessions[n].issued, sessions[n].expires)
  }

  lemma SameKeys(pending: map<int, Challenge>, sessions: map<int, Session>)
    ensures PendingEntries(pending).Keys == pending.Keys && |PendingEntries(pending)| == |pending|
    ensures SessionEntries(sessions).Keys == sessions.Keys && |SessionEntries(sessions)| == |sessions|
  {
    assert |pending.Keys| == |pending| && |PendingEntries(pending).Keys| == |PendingEntries(pending)|;
    assert |sessions.Keys| == |sessions| && |SessionEntries(sessions).Keys| == |SessionEntries(sessions)|;
  }

  /** Whether it was right to drop the challenge, or to keep it: the expired go, and else the owner's longest issued. */
  ghost predicate ChallengeDealtWith(pending: map<int, Challenge>, gone: set<int>, now: Time, owner: int, n: int) {
    && (n in gone ==> n in pending)
    && (n in pending && pending[n].expires < now ==> n in gone)
    && (n in gone && now <= pending[n].expires ==>
          && pending[n].owner == owner
          && forall m :: m in pending && now <= pending[m].expires ==>
               && (pending[m].owner == owner ==> pending[n].issued <= pending[m].issued)
               && (m in gone ==> n == m))
  }

  /** Of the challenges, every expired one goes, and of the others at most one: the owner's longest issued. */
  ghost predicate DropsChallenges(pending: map<int, Challenge>, gone: set<int>, now: Time, owner: int) {
    forall n :: ChallengeDealtWith(pending, gone, now, owner, n)
  }

  ghost predicate SessionDealtWith(sessions: map<int, Session>, gone: set<int>, now: Time, actor: int, n: int) {
    && (n in gone ==> n in sessions)
    && (n in sessions && sessions[n].expires < now ==> n in gone)
    && (n in gone && now <= sessions[n].expires ==>
          && sessions[n].actor == actor
          && forall m :: m in sessions && now <= sessions[m].expires ==>
               && (sessions[m].actor == actor ==> sessions[n].issued <= sessions[m].issued)
               && (m in gone ==> n == m))
  }

  /** The same of the sessions. */
  ghost predicate DropsSessions(sessions: map<int, Session>, gone: set<int>, now: Time, actor: int) {
    forall n :: SessionDealtWith(sessions, gone, now, actor, n)
  }

  lemma EvictedChallenges(pending: map<int, Challenge>, gone: set<int>, now: Time, owner: int, room: bool)
    requires Evicts(PendingEntries(pending), gone, now, owner, MAX_PENDING, room)
    ensures DropsChallenges(pending, gone, now, owner)
  {
    var table := PendingEntries(pending);
    forall n ensures ChallengeDealtWith(pending, gone, now, owner, n) {
      assert forall m :: m in OwnedIn(table, owner, now) <==>
                           m in pending && pending[m].owner == owner && now <= pending[m].expires;
    }
  }

  lemma EvictedSessions(sessions: map<int, Session>, gone: set<int>, now: Time, actor: int, room: bool)
    requires Evicts(SessionEntries(sessions), gone, now, actor, MAX_SESSIONS, room)
    ensures DropsSessions(sessions, gone, now, actor)
  {
    var table := SessionEntries(sessions);
    forall n ensures SessionDealtWith(sessions, gone, now, actor, n) {
      assert forall m :: m in OwnedIn(table, actor, now) <==>
                           m in sessions && sessions[m].actor == actor && now <= sessions[m].expires;
    }
  }

  /** Beside the entries of `added`, exactly those not `gone` are left, as they were. */
  ghost predicate Kept<V(!new)>(after: map<int, V>, before: map<int, V>, gone: set<int>, added: set<int>) {
    forall n :: n !in added ==>
      && (n in after <==> n in before && n !in gone)
      && (n in after && n in before ==> after[n] == before[n])
  }

  // ---------------------------------------------------------------- the manager

  class SessionManager {
    const challengeTtl: int
    const sessionTtl: int
    var pending: map<int, Challenge>
    var sessions: map<int, Session>
    /** Every nonce ever issued, and every one that opened a session. */
    ghost var issued: set<int>
    ghost var spent: set<int>

    ghost predicate Valid()
      reads this
    {
      && |pending| <= MAX_PENDING && |sessions| <= MAX_SESSIONS
      && (forall n :: n in pending ==> n in issued && n !in spent)
      && (forall n :: n in spent ==> n in issued)
    }

    constructor (challengeTtl: int, sessionTtl: int)
      ensures Valid() && pending == map[] && sessions == map[] && issued == {} && spent == {}
    {
      this.challengeTtl := challengeTtl;
      this.sessionTtl := sessionTtl;
      pending, sessions, issued, spent := map[], map[], {}, {};
    }

    method PrunePending(now: Time, owner: int) returns (room: bool, ghost gone: set<int>)
      requires Valid()
      modifies this`pending
      ensures Valid() && Kept(pending, old(pending), gone, {}) && (room <==> |pending| < MAX_PENDING)
      ensures Evicts(PendingEntries(old(pending)), gone, now, owner, MAX_PENDING, room)
    {
      SameKeys(pending, sessions);
      var out, r := Prune(PendingEntries(pending), now, owner, MAX_PENDING);
      room, gone := r, out;
      pending := pending - out;
    }

    method PruneSessions(now: Time, actor: int) returns (room: bool, ghost gone: set<int>)
      requires Valid()
      modifies this`sessions
      ensures Valid() && Kept(sessions, old(sessions), gone, {}) && (room <==> |sessions| < MAX_SESSIONS)
      ensures Evicts(SessionEntries(old(sessions)), gone, now, actor, MAX_SESSIONS, room)
    {
      SameKeys(pending, sessions);
      var out, r := Prune(SessionEntries(sessions), now, actor, MAX_SESSIONS);
      room, gone := r, out;
      sessions := sessions - out;
    }

    /** `nonce` is the random token; that it was never drawn before is what its 256 bits stand for. */
    method IssueChallenge(actor: int, owner: int, nonce: int, now: Time) returns (issuedOne: bool, ghost gone: set<int>)
      requires Valid() && nonce !in issued
      modifies this`pending, this`issued
      ensures Valid()
      ensures Evicts(PendingEntries(old(pending)), gone, now, owner, MAX_PENDING, issuedOne)
      ensures DropsChallenges(old(pending), gone, now, owner)
      ensures issued == old(issued) + if issuedOne then {nonce} else {}
      ensures Kept(pending, old(pending), gone, if issuedOne then {nonce} else {})
      ensures issuedOne ==> nonce in pending && pending[nonce] == Challenge(actor, owner, now, now + challengeTtl)
    {
      issuedOne, gone := PrunePending(now, owner);
      EvictedChallenges(old(pending), gone, now, owner, issuedOne);
      if !issuedOne { return; }
      pending := pending[nonce := Challenge(actor, owner, now, now + challengeTtl)];
      issued := issued + {nonce};
    }

    /**
     * Presenting a nonce spends it, whether or not it opens a session; only a full session table gives it back.
     * A nonce opens at most one session, for an active key of the actor it was issued to.
     */
    method Authenticate(log: IdentityLog, actor: int, nonce: int, signature: Signature<SignInPayload>, token: int,
          now: Time)
      returns (session: Option<Session>, ghost gone: set<int>)
      requires Valid() && token !in sessions
      modifies this
      ensures Valid() && issued == old(issued)
      ensures session.Some? ==>
        && Opens(log, old(pending), actor, nonce, signature, now) && nonce !in old(spent)
        && session.value == Session(token, actor, session.value.kind, session.value.key, now, now + sessionTtl)
        && SignedIn(log, session.value, nonce, signature)
      ensures spent == old(spent) + if session.Some? then {nonce} else {}
      ensures if session.None? && Opens(log, old(pending), actor, nonce, signature, now) then
              Kept(pending, old(pending), {}, {})
              else Kept(pending, old(pending), {nonce}, {})
      ensures Kept(sessions, old(sessions), gone, if session.Some? then {token} else {})
      ensures session.Some? ==> token in sessions && sessions[token] == session.value
      ensures if Opens(log, old(pending), actor, nonce, signature, now)
              then Evicts(SessionEntries(old(sessions)), gone, now, actor, MAX_SESSIONS, session.Some?)
                   && DropsSessions(old(sessions), gone, now, actor)
              else gone == {}
    {
      gone := {};
      var challenge := TakeChallenge(actor, nonce, now);
      if challenge.None? { return None, {}; }
      var key := VerifyingKey(log, actor, nonce, signature);
      if key.NoKey? { return None, {}; }
      session, gone := OpenSession(nonce, challenge.value, key.key, token, now);
      EvictedSessions(old(sessions), gone, now, actor, session.Some?);
    }

    /** Look a challenge up by its nonce, removing it. */
    method TakeChallenge(actor: int, nonce: int, now: Time) returns (challenge: Option<Challenge>)
      requires Valid()
      modifies this`pending
      ensures Valid() && Kept(pending, old(pending), {nonce}, {})
      ensures challenge.Some? <==>
                nonce in old(pending) && old(pending)[nonce].actor == actor && now <= old(pending)[nonce].expires
      ensures challenge.Some? ==>
                challenge.value == old(pending)[nonce] && nonce in issued && nonce !in spent && |pending| < MAX_PENDING
    {
      if nonce !in pending { return None; }
      var found := pending[nonce];
      pending := pending - {nonce};
      return if found.actor == actor && now <= found.expires then Some(found) else None;
    }

    /** Make room and open the session; without room, put the challenge back. */
    method OpenSession(nonce: int, challenge: Challenge, key: KeyRecord, token: int, now: Time)
      returns (session: Option<Session>, ghost gone: set<int>)
      requires Valid() && token !in sessions
      requires nonce in issued && nonce !in spent && nonce !in pending && |pending| < MAX_PENDING
      modifies this
      ensures Valid() && issued == old(issued)
      ensures session.Some? ==>
              session.value == Session(token, challenge.actor, key.kind, key.id, now, now + sessionTtl)
      ensures spent == old(spent) + if session.Some? then {nonce} else {}
      ensures session.Some? ==> pending == old(pending)
      ensures session.None? ==>
              Kept(pending, old(pending), {}, {nonce}) && nonce in pending && pending[nonce] == challenge
      ensures Kept(sessions, old(sessions), gone, if session.Some? then {token} else {})
      ensures session.Some? ==> token in sessions && sessions[token] == session.value
      ensures Evicts(SessionEntries(old(sessions)), gone, now, challenge.actor, MAX_SESSIONS, session.Some?)
    {
      var room, g := PruneSessions(now, challenge.actor);
      gone := g;
      if !room {
        pending := pending[nonce := challenge];
        return None, gone;
      }
      var begun := Session(token, challenge.actor, key.kind, key.id, now, now + sessionTtl);
      sessions := sessions[token := begun];
      spent := spent + {nonce};
      return Some(begun), gone;
    }

    /** A session stands while it has not expired and its key is still active; otherwise it is dropped. */
    method Resolve(log: IdentityLog, id: int, now: Time) returns (session: Option<Session>)
      requires Valid()
      modifies this`sessions
      ensures Valid()
      ensures session.Some? <==>
        && id in old(sessions) && now <= old(sessions)[id].expires
        && Current(log, old(sessions)[id].key).TheKey?
        && Current(log, old(sessions)[id].key).key.status == ACTIVE
      ensures session.Some? ==> session.value == old(sessions)[id] && sessions == old(sessions)
      ensures session.None? ==> sessions == old(sessions) - {id}
    {
      if id !in sessions {
        assert sessions - {id} == sessions;
        return None;
      }
      var found := sessions[id];
      if !StillGood(log, found, now) {
        sessions := sessions - {id};
        return None;
      }
      return Some(found);
    }

    method RevokeSession(id: int)
      requires Valid()
      modifies this`sessions
      ensures Valid() && sessions == old(sessions) - {id}
    {
      sessions := sessions - {id};
    }
  }

  predicate StillGood(log: IdentityLog, session: Session, now: Time) {
    now <= session.expires && Current(log, session.key).TheKey? && Current(log, session.key).key.status == ACTIVE
  }

  /** The session is for an active key of its actor, of that key's kind, and the key verifies the answer. */
  predicate SignedIn(log: IdentityLog, s: Session, nonce: int, signature: Signature<SignInPayload>) {
    && IsActive(log, s.actor, s.key) && s.kind == Current(log, s.key).key.kind
    && Verifies(Current(log, s.key).key.public, signature, SignInPayload(s.actor, nonce))
  }

  /** Some active key of the actor verifies the signed challenge. */
  predicate SomeKeyVerifies(log: IdentityLog, actor: int, nonce: int, signature: Signature<SignInPayload>) {
    exists id :: id in ActiveIds(log, actor)
      && Verifies(Current(log, id).key.public, signature, SignInPayload(actor, nonce))
  }

  /** The presented answer is good: only room for the session is still needed. */
  predicate Opens(log: IdentityLog, pending: map<int, Challenge>, actor: int, nonce: int,
        signature: Signature<SignInPayload>, now: Time) {
    && nonce in pending && pending[nonce].actor == actor && now <= pending[nonce].expires
    && SomeKeyVerifies(log, actor, nonce, signature)
  }

  /** Tries the actor's active keys one by one. */
  method VerifyingKey(log: IdentityLog, actor: int, nonce: int, signature: Signature<SignInPayload>)
    returns (key: MaybeKey)
    ensures key.TheKey? <==> SomeKeyVerifies(log, actor, nonce, signature)
    ensures key.TheKey? ==>
      && IsActive(log, actor, key.key.id) && Current(log, key.key.id) == key
      && Verifies(key.key.public, signature, SignInPayload(actor, nonce))
  {
    var rest := ActiveIds(log, actor);
    while rest != {}
      invariant rest <= ActiveIds(log, actor)
      invariant forall id :: id in ActiveIds(log, actor) && id !in rest ==>
        !Verifies(Current(log, id).key.public, signature, SignInPayload(actor, nonce))
      decreases |rest|
    {
      ghost var _ := SomeElement(rest);
      var id :| id in rest;
      if Verifies(Current(log, id).key.public, signature, SignInPayload(actor, nonce)) { return Current(log, id); }
      rest := rest - {id};
    }
    return NoKey;
  }
}
