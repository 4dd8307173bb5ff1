/** What the auth service promises about its transitions: the order of the
    refresh checks, reuse detection, rotation, the lifetime asked for on
    rotation, uniform login failures, logout and session validation. */
module AuthProperties {
  import opened Wrappers
  import opened Entities
  import opened Auth

  /** The refresh row a presented token resolves to passes all five checks of `refresh_token`. */
  ghost predicate PassesChecks(db: Db, token: string, reply: VerifyReply, now: int)
  {
    && Verified(reply, "Invalid refresh token").Ok?
    && RefreshRowByToken(db, token).Some?
    && var sid := db.refreshTokens[RefreshRowByToken(db, token).value].sessionId;
       && sid in db.sessions
       && db.sessions[sid].isActive
       && !db.sessions[sid].isBlocked
       && now <= db.sessions[sid].expiresAt
  }

  /** The session a token that passes the checks belongs to. */
  ghost function SessionOf(db: Db, token: string): int
    requires RefreshRowByToken(db, token).Some?
  {
    db.refreshTokens[RefreshRowByToken(db, token).value].sessionId
  }

  /** A token that passes the checks but was already rotated away. */
  ghost predicate IsReplay(db: Db, token: string, reply: VerifyReply, now: int)
  {
    PassesChecks(db, token, reply, now) && db.refreshTokens[RefreshRowByToken(db, token).value].isExpired
  }

  /** The reuse-detection write and the logout write keep the store valid: they add no row and expire tokens. */
  lemma EndingSessionKeepsValid(db: Db, sid: int)
    requires Valid(db) && sid in db.sessions
    ensures Valid(BlockSession(db, sid)) && Valid(EndSession(db, sid))
  {
  }

  /** Adding a token pair to a session that has no unexpired refresh token keeps the store valid: the new pair
      becomes the session's one unexpired pair. */
  lemma AddTokenPairKeepsValid(db: Db, sid: int, access: string, refresh: string)
    requires Valid(db) && sid < db.nextSessionId
    requires forall k :: k in db.refreshTokens && !db.refreshTokens[k].isExpired ==> db.refreshTokens[k].sessionId != sid
    ensures Valid(AddTokenPair(db, sid, access, refresh))
  {
    var after := AddTokenPair(db, sid, access, refresh);
    var aid, nid := db.nextAccessTokenId, db.nextRefreshTokenId;
    forall a | a in after.accessTokens && !after.accessTokens[a].isExpired
      ensures exists r :: r in after.refreshTokens && PairedLive(after, r, a)
    {
      if a == aid {
        assert PairedLive(after, nid, aid);
      } else {
        var r :| r in db.refreshTokens && PairedLive(db, r, a);
        assert PairedLive(after, r, a);
      }
    }
  }

  /** Opening a session keeps the store valid, whether or not its tokens could be minted. */
  lemma CreateSessionKeepsValid(db: Db, userId: int, now: int, accessReply: MintReply, refreshReply: MintReply)
    requires Valid(db)
    ensures Valid(CreateUserSessionAndTokens(db, userId, now, accessReply, refreshReply).db)
  {
    var sid := db.nextSessionId;
    var withSession := db.(sessions := db.sessions[sid := Session(userId, true, false, now + REFRESH_TOKEN_EXPIRE_DAYS * SECONDS_PER_DAY)],
                           nextSessionId := sid + 1);
    AddTokenPairKeepsValid(withSession, sid, accessReply.token, refreshReply.token);
  }

  /** The rotation write keeps the store valid: the presented row was the session's only unexpired refresh row,
      it and its paired access row are expired, and the one new pair takes their place. */
  lemma RotateKeepsValid(db: Db, rid: int, access: string, refresh: string)
    requires Valid(db)
    requires rid in db.refreshTokens && db.refreshTokens[rid].accessTokenId in db.accessTokens
    requires !db.refreshTokens[rid].isExpired && db.refreshTokens[rid].sessionId in db.sessions
    ensures Valid(Rotate(db, rid, access, refresh))
  {
    var row := db.refreshTokens[rid];
    var paired := db.accessTokens[row.accessTokenId];
    var retired := db.(refreshTokens := db.refreshTokens[rid := row.(isExpired := true)],
                       accessTokens := db.accessTokens[row.accessTokenId := paired.(isExpired := true)]);
    forall a | a in retired.accessTokens && !retired.accessTokens[a].isExpired
      ensures exists r :: r in retired.refreshTokens && PairedLive(retired, r, a)
    {
      var r :| r in db.refreshTokens && PairedLive(db, r, a);
      assert PairedLive(retired, r, a);
    }
    assert Valid(retired);
    AddTokenPairKeepsValid(retired, row.sessionId, access, refresh);
  }

  /** The five rejections come in a fixed order, and none of them writes anything or asks for a token. */
  lemma RefreshRejectsInOrder(db: Db, token: string, reply: VerifyReply, now: int, accessReply: MintReply,
                              refreshReply: MintReply)
    ensures var st := Refresh(db, token, reply, now, accessReply, refreshReply);
      && (!PassesChecks(db, token, reply, now) ==> st.db == db && st.sent == [] && st.result.Err?)
      && (reply.status >= 400 ==> st.result == Err(Upstream(reply.status)))
      && (reply.status < 400 && (reply.claims.None? || !reply.claims.value.verified) ==>
            st.result == Err(InvalidToken("Invalid refresh token", TokenInvalid)))
      && (Verified(reply, "Invalid refresh token").Ok? && RefreshRowByToken(db, token).None? ==>
            st.result == Err(InvalidToken("Refresh token not found", TokenNotFound)))
      && (Verified(reply, "Invalid refresh token").Ok? && RefreshRowByToken(db, token).Some? ==>
            var sid := SessionOf(db, token);
            && (sid !in db.sessions || !db.sessions[sid].isActive ==>
                  st.result == Err(InvalidToken("Session is inactive or does not exist", SessionInactive)))
            && (sid in db.sessions && db.sessions[sid].isActive && db.sessions[sid].isBlocked ==>
                  st.result == Err(InvalidToken("Session is blocked", SessionBlocked)))
            && (sid in db.sessions && db.sessions[sid].isActive && !db.sessions[sid].isBlocked
                && db.sessions[sid].expiresAt < now ==>
                  st.result == Err(InvalidToken("Session expired", SessionExpired))))
  {
  }

  /** Presenting a rotated-away refresh token kills the whole session: inactive, blocked, every token of it
      expired, nothing minted, and the caller sees error type 5. Nothing outside that session changes. */
  lemma ReplayKillsSession(db: Db, token: string, reply: VerifyReply, now: int, accessReply: MintReply,
                           refreshReply: MintReply)
    requires IsReplay(db, token, reply, now)
    ensures var st := Refresh(db, token, reply, now, accessReply, refreshReply);
            var sid := SessionOf(db, token);
      && st.result == Err(InvalidToken("Refresh token expired, Session blocked", SessionExpired))
      && st.sent == []
      && sid in st.db.sessions
      && !st.db.sessions[sid].isActive && st.db.sessions[sid].isBlocked
      && st.db.sessions[sid].userId == db.sessions[sid].userId
      && st.db.sessions[sid].expiresAt == db.sessions[sid].expiresAt
      && st.db.sessions.Keys == db.sessions.Keys
      && (forall s :: s in db.sessions && s != sid ==> st.db.sessions[s] == db.sessions[s])
      && st.db.accessTokens.Keys == db.accessTokens.Keys
      && st.db.refreshTokens.Keys == db.refreshTokens.Keys
      && (forall id :: id in db.accessTokens ==>
            if db.accessTokens[id].sessionId == sid then st.db.accessTokens[id] == db.accessTokens[id].(isExpired := true)
            else st.db.accessTokens[id] == db.accessTokens[id])
      && (forall id :: id in db.refreshTokens ==>
            if db.refreshTokens[id].sessionId == sid then st.db.refreshTokens[id] == db.refreshTokens[id].(isExpired := true)
            else st.db.refreshTokens[id] == db.refreshTokens[id])
      && st.db.users == db.users
  {
  }

  /** A successful refresh retires exactly the presented refresh token and its paired access token, adds exactly
      one new access token and one new refresh token paired with it under the same session, and changes nothing
      else: no session flag, no other token. */
  lemma RotationReplacesOnePair(db: Db, token: string, reply: VerifyReply, now: int, accessReply: MintReply,
                                refreshReply: MintReply)
    requires Valid(db)
    requires Refresh(db, token, reply, now, accessReply, refreshReply).result.Ok?
    ensures PassesChecks(db, token, reply, now) && !IsReplay(db, token, reply, now)
    ensures var st := Refresh(db, token, reply, now, accessReply, refreshReply);
            var rid := RefreshRowByToken(db, token).value;
            var was := db.refreshTokens[rid];
            var aid := db.nextAccessTokenId;
            var nid := db.nextRefreshTokenId;
      && st.result.value == TokenResponse(CREATED, accessReply.token, refreshReply.token)
      && st.db.sessions == db.sessions
      && st.db.users == db.users
      && aid !in db.accessTokens && nid !in db.refreshTokens
      && st.db.accessTokens.Keys == db.accessTokens.Keys + {aid}
      && st.db.refreshTokens.Keys == db.refreshTokens.Keys + {nid}
      && |st.db.accessTokens| == |db.accessTokens| + 1
      && |st.db.refreshTokens| == |db.refreshTokens| + 1
      && st.db.accessTokens[aid] == AccessToken(was.sessionId, accessReply.token, false)
      && st.db.refreshTokens[nid] == RefreshToken(was.sessionId, refreshReply.token, aid, false)
      && st.db.refreshTokens[rid] == was.(isExpired := true)
      && st.db.accessTokens[was.accessTokenId] == db.accessTokens[was.accessTokenId].(isExpired := true)
      && (forall id :: id in db.refreshTokens && id != rid ==> st.db.refreshTokens[id] == db.refreshTokens[id])
      && (forall id :: id in db.accessTokens && id != was.accessTokenId ==> st.db.accessTokens[id] == db.accessTokens[id])
      && Valid(st.db)
  {
    var rid := RefreshRowByToken(db, token).value;
    RotateKeepsValid(db, rid, accessReply.token, refreshReply.token);
  }

  /** A refresh token rotated away by a successful refresh is refused the next time it is presented: it still
      resolves to its own row, now expired, so the next refresh with it never mints anything. Either it fails
      one of the five checks and writes nothing, or it passes them, which makes it a replay that blocks the
      session. The refresh token issued by the rotation belongs to that same session. */
  lemma RotatedTokenIsRefusedNextTime(db: Db, token: string, reply: VerifyReply, now: int, accessReply: MintReply,
                                      refreshReply: MintReply, reply': VerifyReply, now': int,
                                      accessReply': MintReply, refreshReply': MintReply)
    requires Valid(db)
    requires Refresh(db, token, reply, now, accessReply, refreshReply).result.Ok?
    ensures var rid := RefreshRowByToken(db, token).value;
            var db1 := Refresh(db, token, reply, now, accessReply, refreshReply).db;
            var st := Refresh(db1, token, reply', now', accessReply', refreshReply');
      && RefreshRowByToken(db1, token) == Some(rid)
      && db1.refreshTokens[rid].isExpired
      && db1.refreshTokens[db.nextRefreshTokenId].sessionId == db1.refreshTokens[rid].sessionId
      && st.result.Err? && st.sent == []
      && (PassesChecks(db1, token, reply', now') <==> IsReplay(db1, token, reply', now'))
      && (PassesChecks(db1, token, reply', now') ==>
            st.result == Err(InvalidToken("Refresh token expired, Session blocked", SessionExpired)))
      && (!PassesChecks(db1, token, reply', now') ==> st.db == db1)
  {
    RotationReplacesOnePair(db, token, reply, now, accessReply, refreshReply);
    var rid := RefreshRowByToken(db, token).value;
    var db1 := Refresh(db, token, reply, now, accessReply, refreshReply).db;
    assert JoinedRow(db1, rid, token);
    // every row the token joins after the rotation, except the new one, joined before it
    forall id | JoinedRow(db1, id, token) && id != db.nextRefreshTokenId ensures JoinedRow(db, id, token) {
      assert db.refreshTokens[id].accessTokenId < db.nextAccessTokenId;
    }
    RefreshRejectsInOrder(db1, token, reply', now', accessReply', refreshReply');
  }

  /** The refresh lifetime a rotation asks for is a whole number of days of the session's remaining lifetime, in
      minutes, so the new refresh token never outlives the session; with less than a day left no lifetime is
      sent at all. */
  lemma RotationLifetimeWithinSession(expiresAt: int, now: int)
    requires now <= expiresAt
    ensures var asked := RefreshExpiresIn(RemainingDays(expiresAt, now));
      && (asked.None? <==> expiresAt - now < SECONDS_PER_DAY)
      && (asked.Some? ==> 0 < asked.value && asked.value % MINUTES_PER_DAY == 0
                          && asked.value * 60 <= expiresAt - now
                          && expiresAt - now < asked.value * 60 + SECONDS_PER_DAY)
  {
  }

  /** The refresh request a rotation sends carries the lifetime above, computed from the session's own
      `expires_at`; the access request asks for `ACCESS_TOKEN_EXPIRE_MINUTES`. */
  lemma RotationRequests(db: Db, token: string, reply: VerifyReply, now: int, accessReply: MintReply,
                         refreshReply: MintReply)
    requires PassesChecks(db, token, reply, now) && !IsReplay(db, token, reply, now)
    ensures var st := Refresh(db, token, reply, now, accessReply, refreshReply);
            var sid := SessionOf(db, token);
            var userId := reply.claims.value.userId;
      && 1 <= |st.sent| <= 2
      && st.sent[0] == MintRequest(userId, sid, Some(ACCESS_TOKEN_EXPIRE_MINUTES))
      && (|st.sent| == 2 <==> accessReply.status < 400)
      && (|st.sent| == 2 ==> st.sent[1] == MintRequest(userId, sid, RefreshExpiresIn(RemainingDays(db.sessions[sid].expiresAt, now))))
      && (st.result.Ok? <==> accessReply.status < 400 && refreshReply.status < 400)
      && (st.result.Err? ==> st.db == db)
  {
  }

  /** An unknown email and a wrong password give the same 401 error with the same message, and nothing is
      written; a known email with the right password never gives that error. */
  lemma LoginFailsUniformly(db: Db, email: string, password: string, passwordMatches: (string, string) -> bool,
                            now: int, accessReply: MintReply, refreshReply: MintReply)
    ensures var st := Login(db, email, password, passwordMatches, now, accessReply, refreshReply);
            var found := UserByEmail(db.users, email);
            var rejected := found.None? || !passwordMatches(password, db.users[found.value].hashedPassword);
      && (st.result == Err(InvalidCredentials("Invalid Credentials")) <==> rejected)
      && (rejected ==> st.db == db && st.sent == [])
      && (rejected ==> st.result.error.Status() == Some(401))
      && (!rejected && st.result.Err? ==> st.result.error.Upstream?)
  {
  }

  /** A successful login adds exactly one session, active, unblocked and expiring `REFRESH_TOKEN_EXPIRE_DAYS` from
      now, for the first user with that email, and exactly one access/refresh pair linked to it. */
  lemma LoginOpensOneSession(db: Db, email: string, password: string, passwordMatches: (string, string) -> bool,
                             now: int, accessReply: MintReply, refreshReply: MintReply)
    requires Valid(db)
    requires Login(db, email, password, passwordMatches, now, accessReply, refreshReply).result.Ok?
    ensures var st := Login(db, email, password, passwordMatches, now, accessReply, refreshReply);
            var uid := UserByEmail(db.users, email).value;
            var sid := db.nextSessionId;
            var aid := db.nextAccessTokenId;
            var rid := db.nextRefreshTokenId;
      && UserByEmail(db.users, email).Some?
      && passwordMatches(password, db.users[uid].hashedPassword)
      && sid !in db.sessions && aid !in db.accessTokens && rid !in db.refreshTokens
      && st.db.sessions == db.sessions[sid := Session(uid, true, false, now + REFRESH_TOKEN_EXPIRE_DAYS * SECONDS_PER_DAY)]
      && st.db.accessTokens == db.accessTokens[aid := AccessToken(sid, accessReply.token, false)]
      && st.db.refreshTokens == db.refreshTokens[rid := RefreshToken(sid, refreshReply.token, aid, false)]
      && |st.db.sessions| == |db.sessions| + 1
      && st.db.users == db.users
      && st.result.value == TokenResponse(CREATED, accessReply.token, refreshReply.token)
      && st.sent == [MintRequest(uid, sid, Some(ACCESS_TOKEN_EXPIRE_MINUTES)),
                     MintRequest(uid, sid, Some(REFRESH_TOKEN_EXPIRE_DAYS * MINUTES_PER_DAY))]
      && Valid(st.db)
  {
    assert db.nextSessionId !in db.sessions;
    CreateSessionKeepsValid(db, UserByEmail(db.users, email).value, now, accessReply, refreshReply);
  }

  /** When the token service fails after the session row was committed, the new session stays behind, active
      and without any token. */
  lemma LoginMintFailureLeavesSession(db: Db, email: string, password: string,
                                      passwordMatches: (string, string) -> bool, now: int,
                                      accessReply: MintReply, refreshReply: MintReply)
    requires Valid(db)
    requires UserByEmail(db.users, email).Some?
    requires passwordMatches(password, db.users[UserByEmail(db.users, email).value].hashedPassword)
    requires accessReply.status >= 400 || refreshReply.status >= 400
    ensures var st := Login(db, email, password, passwordMatches, now, accessReply, refreshReply);
            var sid := db.nextSessionId;
      && st.result.Err? && st.result.error.Upstream?
      && sid !in db.sessions && sid in st.db.sessions && st.db.sessions[sid].isActive
      && (forall id :: id in st.db.accessTokens ==> st.db.accessTokens[id].sessionId != sid)
      && (forall id :: id in st.db.refreshTokens ==> st.db.refreshTokens[id].sessionId != sid)
  {
  }

  /** `logout`: the three rejections write nothing; otherwise the session becomes inactive, keeps its blocked
      flag, and every token of that session, and only of that session, is expired. */
  lemma LogoutOutcomes(db: Db, reply: VerifyReply)
    ensures var st := Logout(db, reply);
      && st.sent == []
      && (Verified(reply, "Invalid access token").Err? ==>
            st.db == db && st.result == Err(Verified(reply, "Invalid access token").error))
      && (Verified(reply, "Invalid access token").Ok? ==>
            var claims := reply.claims.value;
            var sid := claims.sessionId;
            && (claims.expired ==> st.db == db && st.result == Err(InvalidToken("Access token expired0", SessionExpired)))
            && (!claims.expired && sid !in db.sessions ==>
                  st.db == db && st.result == Err(InvalidSession("Session does not exist"))
                  && st.result.error.Status() == Some(403))
            && (!claims.expired && sid in db.sessions ==>
                  && st.result == Ok(())
                  && st.db.sessions == db.sessions[sid := db.sessions[sid].(isActive := false)]
                  && st.db.sessions[sid].isBlocked == db.sessions[sid].isBlocked
                  && st.db.users == db.users
                  && st.db.accessTokens.Keys == db.accessTokens.Keys
                  && st.db.refreshTokens.Keys == db.refreshTokens.Keys
                  && (forall id :: id in db.accessTokens ==>
                        if db.accessTokens[id].sessionId == sid then st.db.accessTokens[id] == db.accessTokens[id].(isExpired := true)
                        else st.db.accessTokens[id] == db.accessTokens[id])
                  && (forall id :: id in db.refreshTokens ==>
                        if db.refreshTokens[id].sessionId == sid then st.db.refreshTokens[id] == db.refreshTokens[id].(isExpired := true)
                        else st.db.refreshTokens[id] == db.refreshTokens[id])))
  {
  }

  /** A second logout with the same token succeeds again and leaves the store as the first one left it. */
  lemma LogoutTwiceIsLogoutOnce(db: Db, reply: VerifyReply)
    requires Logout(db, reply).result.Ok?
    ensures Logout(Logout(db, reply).db, reply) == Logout(db, reply)
  {
  }

  /** `validate_session`: an expired token of an existing session expires that session's access tokens (its
      refresh tokens and flags stay) and raises type 5; an expired token of a missing session raises type 5 and
      writes nothing; a verified, unexpired token passes and writes nothing. */
  lemma ValidateSessionOutcomes(db: Db, reply: VerifyReply)
    ensures var st := ValidateSession(db, reply);
      && st.sent == []
      && (Verified(reply, "Invalid access token").Err? ==>
            st.db == db && st.result == Err(Verified(reply, "Invalid access token").error))
      && (Verified(reply, "Invalid access token").Ok? ==>
            var claims := reply.claims.value;
            var sid := claims.sessionId;
            && (!claims.expired ==> st.db == db && st.result == Ok(()))
            && (claims.expired ==> st.result.Err? && st.result.error.InvalidToken?
                                   && st.result.error.errorType == SessionExpired)
            && (claims.expired && sid !in db.sessions ==> st.db == db)
            && (claims.expired && sid in db.sessions ==>
                  && st.db.sessions == db.sessions
                  && st.db.refreshTokens == db.refreshTokens
                  && st.db.users == db.users
                  && st.db.accessTokens.Keys == db.accessTokens.Keys
                  && (forall id :: id in db.accessTokens ==>
                        if db.accessTokens[id].sessionId == sid then st.db.accessTokens[id] == db.accessTokens[id].(isExpired := true)
                        else st.db.accessTokens[id] == db.accessTokens[id])))
  {
  }

  /** `register` mirrors the new user locally, unverified and with the given hash, then logs that user in: the
      new session belongs to the new id. A failed creation, a reply without an id, or an id already mirrored
      writes nothing. */
  lemma RegisterMirrorsThenLogsIn(db: Db, form: Registration, hashedPassword: string, created: UserCreated,
                                  now: int, accessReply: MintReply, refreshReply: MintReply)
    requires Valid(db)
    ensures var st := Register(db, form, hashedPassword, created, now, accessReply, refreshReply);
      && (created.status >= 400 ==> st.db == db && st.result == Err(Upstream(created.status)))
      && (created.status < 400 && (created.id.None? || created.id.value in db.users) ==>
            st.db == db && st.result == Err(Failure("/auth/register")))
      && (created.status < 400 && created.id.Some? && created.id.value !in db.users ==>
            var uid := created.id.value;
            var sid := db.nextSessionId;
            && st.db.users == db.users[uid := User(form.email, false, hashedPassword, created.createdAt, created.updatedAt)]
            && sid !in db.sessions
            && st.db.sessions == db.sessions[sid := Session(uid, true, false, now + REFRESH_TOKEN_EXPIRE_DAYS * SECONDS_PER_DAY)]
            && (st.result.Ok? <==> accessReply.status < 400 && refreshReply.status < 400)
            && (st.result.Ok? ==> st.result.value == TokenResponse(CREATED, accessReply.token, refreshReply.token)))
  {
  }
}
