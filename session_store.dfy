/** The relational store as the services use it: an object whose tables are
    updated in place by `login`, `refresh_token`, `logout`, `validate_session`,
    `register` and `update_from_rabbitMQ`. Each method says that its new
    state, its result and the token requests it sent are those of the
    transition in `Auth` or `Users`, whose properties are proved there. */
module SessionStore {
  import opened Wrappers
  import opened Entities
  import Auth
  import Users
  import Lifecycle

  class Database {
    var users: map<int, User>
    var sessions: map<int, Session>
    var accessTokens: map<int, AccessToken>
    var refreshTokens: map<int, RefreshToken>
    var nextSessionId: int
    var nextAccessTokenId: int
    var nextRefreshTokenId: int

    /** The tables as one value. */
    function State(): Db
      reads this
    {
      Db(users, sessions, accessTokens, refreshTokens, nextSessionId, nextAccessTokenId, nextRefreshTokenId)
    }

    /** The object invariant: the store invariant of `Entities.Valid` holds for the tables. */
    predicate Valid()
      reads this
    {
      Entities.Valid(State())
    }

    /** Empty tables; auto-increment ids start at 1. */
    constructor ()
      ensures Valid()
      ensures State() == Db(map[], map[], map[], map[], 1, 1, 1)
    {
      users, sessions, accessTokens, refreshTokens := map[], map[], map[], map[];
      nextSessionId, nextAccessTokenId, nextRefreshTokenId := 1, 1, 1;
    }

    /** `db.add(AccessToken(...))` and the commit that assigns its id. */
    method AddAccessToken(sid: int, token: string) returns (aid: int)
      modifies this`accessTokens, this`nextAccessTokenId
      ensures aid == old(nextAccessTokenId) && nextAccessTokenId == aid + 1
      ensures accessTokens == old(accessTokens)[aid := AccessToken(sid, token, false)]
    {
      aid := nextAccessTokenId;
      accessTokens := accessTokens[aid := AccessToken(sid, token, false)];
      nextAccessTokenId := aid + 1;
    }

    /** `db.add(RefreshToken(...))` and the commit that assigns its id. */
    method AddRefreshToken(sid: int, token: string, aid: int) returns (rid: int)
      modifies this`refreshTokens, this`nextRefreshTokenId
      ensures rid == old(nextRefreshTokenId) && nextRefreshTokenId == rid + 1
      ensures refreshTokens == old(refreshTokens)[rid := Entities.RefreshToken(sid, token, aid, false)]
    {
      rid := nextRefreshTokenId;
      refreshTokens := refreshTokens[rid := Entities.RefreshToken(sid, token, aid, false)];
      nextRefreshTokenId := rid + 1;
    }

    /** The two bulk `update({"is_expired": True})` queries on the tokens of session `sid`. */
    method ExpireTokensOfSession(sid: int)
      modifies this`accessTokens, this`refreshTokens
      ensures accessTokens == ExpireAccessTokensOf(old(accessTokens), sid)
      ensures refreshTokens == ExpireRefreshTokensOf(old(refreshTokens), sid)
    {
      accessTokens := ExpireAccessTokensOf(accessTokens, sid);
      refreshTokens := ExpireRefreshTokensOf(refreshTokens, sid);
    }

    /** `create_user_session_and_tokens` */
    method CreateUserSessionAndTokens(userId: int, now: int, accessReply: Auth.MintReply,
                                      refreshReply: Auth.MintReply)
      returns (r: Result<Auth.TokenResponse, Auth.GatewayError>, sent: seq<Auth.MintRequest>)
      requires Valid()
      modifies this
      ensures Valid()
      ensures var st := Auth.CreateUserSessionAndTokens(old(State()), userId, now, accessReply, refreshReply);
              State() == st.db && r == st.result && sent == st.sent
    {
      ghost var before := State();
      var sid := nextSessionId;
      sessions := sessions[sid := Session(userId, true, false, now + REFRESH_TOKEN_EXPIRE_DAYS * SECONDS_PER_DAY)];
      nextSessionId := sid + 1;
      sent := [Auth.MintRequest(userId, sid, Some(ACCESS_TOKEN_EXPIRE_MINUTES))];
      if accessReply.status >= 400 {
        r := Err(Auth.Upstream(accessReply.status));
      } else {
        sent := sent + [Auth.MintRequest(userId, sid, Auth.RefreshExpiresIn(REFRESH_TOKEN_EXPIRE_DAYS))];
        if refreshReply.status >= 400 {
          r := Err(Auth.Upstream(refreshReply.status));
        } else {
          var aid := AddAccessToken(sid, accessReply.token);
          var _ := AddRefreshToken(sid, refreshReply.token, aid);
          r := Ok(Auth.TokenResponse(Auth.CREATED, accessReply.token, refreshReply.token));
        }
      }
      assert State() == Auth.CreateUserSessionAndTokens(before, userId, now, accessReply, refreshReply).db;
      Lifecycle.CreateSessionIsMonotone(before, userId, now, accessReply, refreshReply);
    }

    /** `login` */
    method Login(email: string, password: string, passwordMatches: (string, string) -> bool, now: int,
                 accessReply: Auth.MintReply, refreshReply: Auth.MintReply)
      returns (r: Result<Auth.TokenResponse, Auth.GatewayError>, sent: seq<Auth.MintRequest>)
      requires Valid()
      modifies this
      ensures Valid()
      ensures var st := Auth.Login(old(State()), email, password, passwordMatches, now, accessReply, refreshReply);
              State() == st.db && r == st.result && sent == st.sent
    {
      var found := UserByEmail(users, email);
      if found.None? || !passwordMatches(password, users[found.value].hashedPassword) {
        r, sent := Err(Auth.InvalidCredentials("Invalid Credentials")), [];
      } else {
        r, sent := CreateUserSessionAndTokens(found.value, now, accessReply, refreshReply);
      }
    }

    /** `refresh_token` */
    method RefreshToken(token: string, reply: Auth.VerifyReply, now: int, accessReply: Auth.MintReply,
                        refreshReply: Auth.MintReply)
      returns (r: Result<Auth.TokenResponse, Auth.GatewayError>, sent: seq<Auth.MintRequest>)
      requires Valid()
      modifies this
      ensures Valid()
      ensures var st := Auth.Refresh(old(State()), token, reply, now, accessReply, refreshReply);
              State() == st.db && r == st.result && sent == st.sent
    {
      ghost var before := State();
      ghost var after := Auth.Refresh(before, token, reply, now, accessReply, refreshReply).db;
      Lifecycle.RefreshIsMonotone(before, token, reply, now, accessReply, refreshReply);
      assert Entities.Valid(after);
      sent := [];
      var verified := Auth.Verified(reply, "Invalid refresh token");
      if verified.Err? {
        r := Err(verified.error);
        return;
      }
      var found := RefreshRowByToken(State(), token);
      if found.None? {
        r := Err(Auth.InvalidToken("Refresh token not found", Auth.TokenNotFound));
        return;
      }
      var rid := found.value;
      var row := refreshTokens[rid];
      var sid := row.sessionId;
      if sid !in sessions || !sessions[sid].isActive {
        r := Err(Auth.InvalidToken("Session is inactive or does not exist", Auth.SessionInactive));
        return;
      }
      var session := sessions[sid];
      if session.isBlocked {
        r := Err(Auth.InvalidToken("Session is blocked", Auth.SessionBlocked));
        return;
      }
      if session.expiresAt < now {
        r := Err(Auth.InvalidToken("Session expired", Auth.SessionExpired));
        return;
      }
      if row.isExpired {
        sessions := sessions[sid := session.(isActive := false, isBlocked := true)];
        ExpireTokensOfSession(sid);
        r := Err(Auth.InvalidToken("Refresh token expired, Session blocked", Auth.SessionExpired));
        assert State() == after;
        return;
      }
      sent := [Auth.MintRequest(verified.value.userId, sid, Some(ACCESS_TOKEN_EXPIRE_MINUTES))];
      if accessReply.status >= 400 {
        r := Err(Auth.Upstream(accessReply.status));
        return;
      }
      var days := Auth.RemainingDays(session.expiresAt, now);
      sent := sent + [Auth.MintRequest(verified.value.userId, sid, Auth.RefreshExpiresIn(days))];
      if refreshReply.status >= 400 {
        r := Err(Auth.Upstream(refreshReply.status));
        return;
      }
      refreshTokens := refreshTokens[rid := row.(isExpired := true)];
      var paired := accessTokens[row.accessTokenId];
      accessTokens := accessTokens[row.accessTokenId := paired.(isExpired := true)];
      var aid := AddAccessToken(sid, accessReply.token);
      var _ := AddRefreshToken(sid, refreshReply.token, aid);
      r := Ok(Auth.TokenResponse(Auth.CREATED, accessReply.token, refreshReply.token));
      assert State() == after;
    }

    /** `logout` */
    method Logout(reply: Auth.VerifyReply) returns (r: Result<(), Auth.GatewayError>)
      requires Valid()
      modifies this
      ensures Valid()
      ensures var st := Auth.Logout(old(State()), reply);
              State() == st.db && r == st.result
    {
      Lifecycle.ApplyIsMonotone(State(), Lifecycle.LogoutEvent(reply));
      var verified := Auth.Verified(reply, "Invalid access token");
      if verified.Err? {
        r := Err(verified.error);
      } else if verified.value.expired {
        r := Err(Auth.InvalidToken("Access token expired0", Auth.SessionExpired));
      } else if verified.value.sessionId !in sessions {
        r := Err(Auth.InvalidSession("Session does not exist"));
      } else {
        var sid := verified.value.sessionId;
        sessions := sessions[sid := sessions[sid].(isActive := false)];
        ExpireTokensOfSession(sid);
        r := Ok(());
      }
    }

    /** `validate_session` */
    method ValidateSession(reply: Auth.VerifyReply) returns (r: Result<(), Auth.GatewayError>)
      requires Valid()
      modifies this
      ensures Valid()
      ensures var st := Auth.ValidateSession(old(State()), reply);
              State() == st.db && r == st.result
    {
      Lifecycle.ApplyIsMonotone(State(), Lifecycle.ValidateEvent(reply));
      var verified := Auth.Verified(reply, "Invalid access token");
      if verified.Err? {
        r := Err(verified.error);
      } else if !verified.value.expired {
        r := Ok(());
      } else if verified.value.sessionId in sessions {
        accessTokens := ExpireAccessTokensOf(accessTokens, verified.value.sessionId);
        r := Err(Auth.InvalidToken("Access token expired", Auth.SessionExpired));
      } else {
        r := Err(Auth.InvalidToken("Access token is of an expired session", Auth.SessionExpired));
      }
    }

    /** `register` */
    method Register(form: Auth.Registration, hashedPassword: string, created: Auth.UserCreated, now: int,
                    accessReply: Auth.MintReply, refreshReply: Auth.MintReply)
      returns (r: Result<Auth.TokenResponse, Auth.GatewayError>, sent: seq<Auth.MintRequest>)
      requires Valid()
      modifies this
      ensures Valid()
      ensures var st := Auth.Register(old(State()), form, hashedPassword, created, now, accessReply, refreshReply);
              State() == st.db && r == st.result && sent == st.sent
    {
      if created.status >= 400 {
        r, sent := Err(Auth.Upstream(created.status)), [];
      } else if created.id.None? || created.id.value in users {
        r, sent := Err(Auth.Failure("/auth/register")), [];
      } else {
        var id := created.id.value;
        users := users[id := User(form.email, false, hashedPassword, created.createdAt, created.updatedAt)];
        r, sent := CreateUserSessionAndTokens(id, now, accessReply, refreshReply);
      }
    }

    /** `update_from_rabbitMQ`, with the insert of an unknown user done as intended. */
    method UpdateFromRabbitMQ(msg: Users.Message)
      requires Valid()
      modifies this
      ensures Valid()
      ensures State() == Users.ApplyMessage(old(State()), msg)
    {
      ghost var before := State();
      var id := msg.data.id;
      if msg.msgType == Users.RABBIT_UPDATE_TYPE {
        if id !in users {
          users := users[id := Users.NewUser(msg.data)];
        } else {
          users := users[id := Users.Overwritten(users[id], msg.data)];
        }
      } else if msg.msgType == Users.RABBIT_DELETE_TYPE && id in users {
        users := map u | u in users && u != id :: users[u];
        sessions := map s | s in sessions && sessions[s].userId != id :: sessions[s];
      }
      assert State() == Users.ApplyMessage(before, msg);
      Lifecycle.MirrorIsMonotone(before, msg);
    }

    /** `get_email_status_from_token`: reads the tables, writes nothing. */
    method GetEmailStatusFromToken(reply: Auth.VerifyReply) returns (r: Result<bool, Auth.GatewayError>)
      ensures r == Users.EmailStatus(State(), reply)
      ensures r.Ok? ==> exists sid :: sid in sessions && sessions[sid].userId in users
                                      && r.value == users[sessions[sid].userId].emailVerified
    {
      var sid := Auth.GetSessionIdFromToken(reply);
      if sid.Err? {
        r := Err(sid.error);
      } else if sid.value !in sessions {
        r := Err(Auth.NotFound("Session not found"));
      } else if sessions[sid.value].userId !in users {
        r := Err(Auth.NotFound("User not found"));
      } else {
        r := Ok(users[sessions[sid.value].userId].emailVerified);
      }
    }
  }
}
