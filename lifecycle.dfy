/** Sequences of requests and user events against the store, and what holds
    across them: a session that is inactive stays inactive, a blocked session
    stays blocked, so after reuse detection or logout every later refresh with
    any token of that session fails. */
module Lifecycle {
  import opened Wrappers
  import opened Entities
  import opened Auth
  import opened AuthProperties
  import opened Users

  /** One request to the auth service or one user event, with the replies of the remote services it gets. */
  datatype Event =
    | LoginEvent(email: string, password: string, passwordMatches: (string, string) -> bool, now: int,
                 accessReply: MintReply, refreshReply: MintReply)
    | RefreshEvent(token: string, reply: VerifyReply, now: int, accessReply: MintReply, refreshReply: MintReply)
    | LogoutEvent(reply: VerifyReply)
    | ValidateEvent(reply: VerifyReply)
    | RegisterEvent(form: Registration, hashedPassword: string, created: UserCreated, now: int,
                    accessReply: MintReply, refreshReply: MintReply)
    | MirrorEvent(msg: Message)

  /** The store after one event. */
  function Apply(db: Db, e: Event): Db
  {
    match e
    case LoginEvent(email, password, passwordMatches, now, accessReply, refreshReply) =>
      Login(db, email, password, passwordMatches, now, accessReply, refreshReply).db
    case RefreshEvent(token, reply, now, accessReply, refreshReply) =>
      Refresh(db, token, reply, now, accessReply, refreshReply).db
    case LogoutEvent(reply) => Logout(db, reply).db
    case ValidateEvent(reply) => ValidateSession(db, reply).db
    case RegisterEvent(form, hashedPassword, created, now, accessReply, refreshReply) =>
      Register(db, form, hashedPassword, created, now, accessReply, refreshReply).db
    case MirrorEvent(msg) => ApplyMessage(db, msg)
  }

  /** The store after a sequence of events, in order. */
  function Run(db: Db, events: seq<Event>): Db
    decreases |events|
  {
    if events == [] then db else Run(Apply(db, events[0]), events[1..])
  }

  /** Session `sid` was handed out and is inactive or gone. */
  ghost predicate Inactive(db: Db, sid: int)
  {
    sid < db.nextSessionId && (sid in db.sessions ==> !db.sessions[sid].isActive)
  }

  /** Session `sid` was handed out and is blocked or gone. */
  ghost predicate Blocked(db: Db, sid: int)
  {
    sid < db.nextSessionId && (sid in db.sessions ==> db.sessions[sid].isBlocked)
  }

  /** What every event keeps: the store stays valid, ids only grow, a session that reappears is the same
      session, no session is set active again or unblocked, and a session that is new got a fresh id. */
  ghost predicate Monotone(db: Db, db': Db)
  {
    && Valid(db')
    && db.nextSessionId <= db'.nextSessionId
    && (forall s :: s in db'.sessions && s in db.sessions ==>
          && (db.sessions[s].isBlocked ==> db'.sessions[s].isBlocked)
          && (!db.sessions[s].isActive ==> !db'.sessions[s].isActive))
    && (forall s :: s in db'.sessions && s !in db.sessions ==> db.nextSessionId <= s)
  }

  /** Opening a session adds one under a fresh id and changes no existing session. */
  lemma CreateSessionIsMonotone(db: Db, userId: int, now: int, accessReply: MintReply, refreshReply: MintReply)
    requires Valid(db)
    ensures var after := CreateUserSessionAndTokens(db, userId, now, accessReply, refreshReply).db;
      && Monotone(db, after)
      && (forall s :: s in db.sessions ==> s in after.sessions && after.sessions[s] == db.sessions[s])
      && after.sessions.Keys == db.sessions.Keys + {db.nextSessionId}
  {
    CreateSessionKeepsValid(db, userId, now, accessReply, refreshReply);
  }

  lemma RefreshIsMonotone(db: Db, token: string, reply: VerifyReply, now: int, accessReply: MintReply,
                          refreshReply: MintReply)
    requires Valid(db)
    ensures Monotone(db, Refresh(db, token, reply, now, accessReply, refreshReply).db)
  {
    var st := Refresh(db, token, reply, now, accessReply, refreshReply);
    if st.result.Ok? {
      RotationReplacesOnePair(db, token, reply, now, accessReply, refreshReply);
    } else if IsReplay(db, token, reply, now) {
      EndingSessionKeepsValid(db, SessionOf(db, token));
    }
  }

  lemma LogoutIsMonotone(db: Db, reply: VerifyReply)
    requires Valid(db)
    ensures Monotone(db, Logout(db, reply).db)
  {
    if Logout(db, reply).result.Ok? {
      EndingSessionKeepsValid(db, reply.claims.value.sessionId);
    }
  }

  lemma ValidateIsMonotone(db: Db, reply: VerifyReply)
    requires Valid(db)
    ensures Monotone(db, ValidateSession(db, reply).db)
  {
  }

  lemma MirrorIsMonotone(db: Db, msg: Message)
    requires Valid(db)
    ensures Monotone(db, ApplyMessage(db, msg))
  {
  }

  /** Every event keeps the store valid and never revives or unblocks a session. */
  lemma ApplyIsMonotone(db: Db, e: Event)
    requires Valid(db)
    ensures Monotone(db, Apply(db, e))
  {
    match e
    case LoginEvent(email, password, passwordMatches, now, accessReply, refreshReply) =>
      var found := UserByEmail(db.users, email);
      if found.Some? && passwordMatches(password, db.users[found.value].hashedPassword) {
        CreateSessionIsMonotone(db, found.value, now, accessReply, refreshReply);
      }
    case RefreshEvent(token, reply, now, accessReply, refreshReply) =>
      RefreshIsMonotone(db, token, reply, now, accessReply, refreshReply);
    case LogoutEvent(reply) =>
      LogoutIsMonotone(db, reply);
    case ValidateEvent(reply) =>
      ValidateIsMonotone(db, reply);
    case RegisterEvent(form, hashedPassword, created, now, accessReply, refreshReply) =>
      if created.status < 400 && created.id.Some? && created.id.value !in db.users {
        var mirrored := User(form.email, false, hashedPassword, created.createdAt, created.updatedAt);
        CreateSessionIsMonotone(db.(users := db.users[created.id.value := mirrored]), created.id.value, now,
                                accessReply, refreshReply);
      }
    case MirrorEvent(msg) =>
      MirrorIsMonotone(db, msg);
  }

  /** Across any sequence of events, an inactive session stays inactive and a blocked one stays blocked. */
  lemma {:induction false} DeadSessionsStayDead(db: Db, events: seq<Event>, sid: int)
    requires Valid(db)
    ensures Valid(Run(db, events))
    ensures Inactive(db, sid) ==> Inactive(Run(db, events), sid)
    ensures Blocked(db, sid) ==> Blocked(Run(db, events), sid)
    decreases |events|
  {
    if events != [] {
      ApplyIsMonotone(db, events[0]);
      DeadSessionsStayDead(Apply(db, events[0]), events[1..], sid);
    }
  }

  /** A refresh whose token resolves to an inactive or vanished session fails with error type 3 (or with the
      earlier verification error) and changes nothing. */
  lemma RefreshOfInactiveSessionFails(db: Db, token: string, reply: VerifyReply, now: int,
                                      accessReply: MintReply, refreshReply: MintReply)
    requires RefreshRowByToken(db, token).Some?
    requires Inactive(db, SessionOf(db, token))
    ensures var st := Refresh(db, token, reply, now, accessReply, refreshReply);
      && st.result.Err? && st.db == db && st.sent == []
      && (Verified(reply, "Invalid refresh token").Ok? ==>
            st.result == Err(InvalidToken("Session is inactive or does not exist", SessionInactive)))
  {
  }

  /** Reuse detection is final: once a rotated-away refresh token was presented, its session is blocked for
      good, and after any later events every refresh with any token of that session, the newest included,
      fails and changes nothing. */
  lemma ReplayBlocksEveryLaterRefresh(db: Db, token: string, reply: VerifyReply, now: int,
                                      accessReply: MintReply, refreshReply: MintReply, later: seq<Event>,
                                      token': string, reply': VerifyReply, now': int,
                                      accessReply': MintReply, refreshReply': MintReply)
    requires Valid(db)
    requires IsReplay(db, token, reply, now)
    ensures var sid := SessionOf(db, token);
            var after := Run(Refresh(db, token, reply, now, accessReply, refreshReply).db, later);
            var st := Refresh(after, token', reply', now', accessReply', refreshReply');
      && Blocked(after, sid) && Inactive(after, sid)
      && (RefreshRowByToken(after, token').Some? && SessionOf(after, token') == sid ==>
            && st.result.Err? && st.db == after && st.sent == []
            && (Verified(reply', "Invalid refresh token").Ok? ==>
                  st.result == Err(InvalidToken("Session is inactive or does not exist", SessionInactive))))
  {
    var sid := SessionOf(db, token);
    var killed := Refresh(db, token, reply, now, accessReply, refreshReply).db;
    ReplayKillsSession(db, token, reply, now, accessReply, refreshReply);
    RefreshIsMonotone(db, token, reply, now, accessReply, refreshReply);
    assert Inactive(killed, sid) && Blocked(killed, sid);
    DeadSessionsStayDead(killed, later, sid);
    var after := Run(killed, later);
    if RefreshRowByToken(after, token').Some? && SessionOf(after, token') == sid {
      RefreshOfInactiveSessionFails(after, token', reply', now', accessReply', refreshReply');
    }
  }

  /** A stolen refresh token locks out both holders: after a successful rotation, presenting the old token again
      while its session still passes the checks is a replay; it blocks the session, and after any later events
      the token the rotation issued, like every other token of that session, is refused. */
  lemma ReplayAfterRotationEndsTheSession(db: Db, token: string, reply: VerifyReply, now: int,
                                          accessReply: MintReply, refreshReply: MintReply,
                                          reply': VerifyReply, now': int,
                                          accessReply': MintReply, refreshReply': MintReply, later: seq<Event>,
                                          reply'': VerifyReply, now'': int,
                                          accessReply'': MintReply, refreshReply'': MintReply)
    requires Valid(db)
    requires Refresh(db, token, reply, now, accessReply, refreshReply).result.Ok?
    requires PassesChecks(Refresh(db, token, reply, now, accessReply, refreshReply).db, token, reply', now')
    ensures var sid := SessionOf(db, token);
            var rotated := Refresh(db, token, reply, now, accessReply, refreshReply).db;
            var after := Run(Refresh(rotated, token, reply', now', accessReply', refreshReply').db, later);
            var st := Refresh(after, refreshReply.token, reply'', now'', accessReply'', refreshReply'');
      && IsReplay(rotated, token, reply', now')
      && Blocked(after, sid) && Inactive(after, sid)
      && (RefreshRowByToken(after, refreshReply.token).Some? && SessionOf(after, refreshReply.token) == sid ==>
            st.result.Err? && st.db == after && st.sent == [])
  {
    var rotated := Refresh(db, token, reply, now, accessReply, refreshReply).db;
    RotationReplacesOnePair(db, token, reply, now, accessReply, refreshReply);
    RotatedTokenIsRefusedNextTime(db, token, reply, now, accessReply, refreshReply,
                                  reply', now', accessReply', refreshReply');
    assert SessionOf(rotated, token) == SessionOf(db, token);
    ReplayBlocksEveryLaterRefresh(rotated, token, reply', now', accessReply', refreshReply', later,
                                  refreshReply.token, reply'', now'', accessReply'', refreshReply'');
  }

  /** After a logout, whatever happens next, no token of that session can be refreshed. */
  lemma LogoutEndsEveryLaterRefresh(db: Db, reply: VerifyReply, later: seq<Event>,
                                    token: string, reply': VerifyReply, now: int,
                                    accessReply: MintReply, refreshReply: MintReply)
    requires Valid(db)
    requires Logout(db, reply).result.Ok?
    ensures var sid := reply.claims.value.sessionId;
            var after := Run(Logout(db, reply).db, later);
            var st := Refresh(after, token, reply', now, accessReply, refreshReply);
      && Inactive(after, sid)
      && (RefreshRowByToken(after, token).Some? && SessionOf(after, token) == sid ==>
            && st.result.Err? && st.db == after && st.sent == []
            && (Verified(reply', "Invalid refresh token").Ok? ==>
                  st.result == Err(InvalidToken("Session is inactive or does not exist", SessionInactive))))
  {
    var sid := reply.claims.value.sessionId;
    var out := Logout(db, reply).db;
    ApplyIsMonotone(db, LogoutEvent(reply));
    assert Inactive(out, sid);
    DeadSessionsStayDead(out, later, sid);
    var after := Run(out, later);
    if RefreshRowByToken(after, token).Some? && SessionOf(after, token) == sid {
      RefreshOfInactiveSessionFails(after, token, reply', now, accessReply, refreshReply);
    }
  }
}
