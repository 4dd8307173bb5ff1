/** The session and token lifecycle of the gateway's auth service: login,
    refresh-token rotation with reuse detection, logout, session validation and
    registration, each as a transition of the relational store.

    The external token service is not called: its replies are parameters (the
    reply to `/token/verify`, the replies to the two `/token/create` calls), and
    a transition returns the `/token/create` requests it sent, so that the
    lifetimes it asked for can be stated. */
module Auth {
  import opened Wrappers
  import opened Entities

  /** `InvalidTokenErrorType`: the `error_type` carried by an invalid-token error. */
  datatype TokenErrorType = TokenInvalid | TokenNotFound | SessionInactive | SessionBlocked | SessionExpired
  {
    /** The integer the error body carries. */
    function Code(): (c: int)
      ensures 1 <= c <= 5
      ensures c == 1 <==> this == TokenInvalid
      ensures c == 2 <==> this == TokenNotFound
      ensures c == 3 <==> this == SessionInactive
      ensures c == 4 <==> this == SessionBlocked
      ensures c == 5 <==> this == SessionExpired
    {
      match this
      case TokenInvalid => 1
      case TokenNotFound => 2
      case SessionInactive => 3
      case SessionBlocked => 4
      case SessionExpired => 5
    }
  }

  /** The exceptions the auth and users services raise. */
  datatype GatewayError =
    /** `InvalidCredentialsException(detail)`: "Unauthorized", 401, url "/login". */
    | InvalidCredentials(detail: string)
    /** `InvalidSessionException(detail)`: "Forbidden", 403, url "/logout". */
    | InvalidSession(detail: string)
    /** `InvalidTokenException(detail, errorType)`: "Unauthorized", 401, url "/token/verify". */
    | InvalidToken(detail: string, errorType: TokenErrorType)
    /** `OrientatiException` raised because a remote service answered with `status >= 400`. */
    | Upstream(status: int)
    /** `OrientatiException` with status 404, message "Not Found" and `detail` as the details message. */
    | NotFound(detail: string)
    /** `OrientatiException` raised at `url` for any other failure. */
    | Failure(url: string)
  {
    /** The HTTP status the error carries; the status of a `Failure` is set by code that is not part of this model. */
    function Status(): (s: Option<int>)
      ensures InvalidCredentials? || InvalidToken? ==> s == Some(401)
      ensures InvalidSession? ==> s == Some(403)
      ensures Upstream? ==> s == Some(status)
      ensures NotFound? ==> s == Some(404)
      ensures Failure? <==> s.None?
    {
      match this
      case InvalidCredentials(_) => Some(401)
      case InvalidSession(_) => Some(403)
      case InvalidToken(_, _) => Some(401)
      case Upstream(status) => Some(status)
      case NotFound(_) => Some(404)
      case Failure(_) => None
    }
  }

  /** HttpCodes.CREATED */
  const CREATED: int := 201

  /** The fields of a `/token/verify` payload the service reads. */
  datatype TokenClaims = TokenClaims(verified: bool, expired: bool, userId: int, sessionId: int)

  /** A reply of `/token/verify`; `claims == None` is an empty (falsy) payload. */
  datatype VerifyReply = VerifyReply(status: int, claims: Option<TokenClaims>)

  /** A reply of `/token/create`. */
  datatype MintReply = MintReply(status: int, token: string)

  /** A `/token/create` request: the payload and the `expires_in` parameter, if one was sent. */
  datatype MintRequest = MintRequest(userId: int, sessionId: int, expiresIn: Option<int>)

  /** A reply of the users service's `POST /users/`; `id == None` is a reply without an id. */
  datatype UserCreated = UserCreated(status: int, id: Option<int>, createdAt: int, updatedAt: int)

  /** The registration form. */
  datatype Registration = Registration(name: string, surname: string, email: string, password: string)

  /** `TokenResponse` */
  datatype TokenResponse = TokenResponse(statusCode: int, accessToken: string, refreshToken: string)

  /** The store after an operation, what the operation returned or raised, and the `/token/create` requests it sent. */
  datatype Step<T> = Step(db: Db, result: Result<T, GatewayError>, sent: seq<MintRequest>)

  /** `verify_token` followed by the `not payload or not payload["verified"]` check every caller makes. */
  function Verified(reply: VerifyReply, detail: string): (r: Result<TokenClaims, GatewayError>)
    ensures r.Ok? <==> reply.status < 400 && reply.claims.Some? && reply.claims.value.verified
    ensures r.Ok? ==> r.value == reply.claims.value
    ensures reply.status >= 400 ==> r == Err(Upstream(reply.status))
    ensures reply.status < 400 && r.Err? ==> r == Err(InvalidToken(detail, TokenInvalid))
  {
    if reply.status >= 400 then Err(Upstream(reply.status))
    else if reply.claims.None? || !reply.claims.value.verified then Err(InvalidToken(detail, TokenInvalid))
    else Ok(reply.claims.value)
  }

  /** The `expires_in` that `create_refresh_token(expire_days=days)` sends: `days * 24 * 60` minutes, or
      nothing when `days` is 0. */
  function RefreshExpiresIn(days: int): Option<int>
  {
    if days != 0 then Some(days * MINUTES_PER_DAY) else None
  }

  /** The `expire_days` a rotation passes: `(expires_at - now).days`, which floors. */
  function RemainingDays(expiresAt: int, now: int): int
  {
    (expiresAt - now) / SECONDS_PER_DAY
  }

  /** Adds a new access row and a new refresh row paired with it, both unexpired, under session `sid`. */
  function AddTokenPair(db: Db, sid: int, access: string, refresh: string): Db
  {
    var aid := db.nextAccessTokenId;
    db.(accessTokens := db.accessTokens[aid := AccessToken(sid, access, false)],
        refreshTokens := db.refreshTokens[db.nextRefreshTokenId := RefreshToken(sid, refresh, aid, false)],
        nextAccessTokenId := aid + 1,
        nextRefreshTokenId := db.nextRefreshTokenId + 1)
  }

  /** The reuse-detection write: the session becomes inactive and blocked and every token of it expired. */
  function BlockSession(db: Db, sid: int): Db
    requires sid in db.sessions
  {
    db.(sessions := db.sessions[sid := db.sessions[sid].(isActive := false, isBlocked := true)],
        accessTokens := ExpireAccessTokensOf(db.accessTokens, sid),
        refreshTokens := ExpireRefreshTokensOf(db.refreshTokens, sid))
  }

  /** The logout write: the session becomes inactive and every token of it expired. */
  function EndSession(db: Db, sid: int): Db
    requires sid in db.sessions
  {
    db.(sessions := db.sessions[sid := db.sessions[sid].(isActive := false)],
        accessTokens := ExpireAccessTokensOf(db.accessTokens, sid),
        refreshTokens := ExpireRefreshTokensOf(db.refreshTokens, sid))
  }

  /** The rotation write: refresh row `rid` and its paired access row expired, then a new pair under the same session. */
  function Rotate(db: Db, rid: int, access: string, refresh: string): Db
    requires rid in db.refreshTokens && db.refreshTokens[rid].accessTokenId in db.accessTokens
  {
    var row := db.refreshTokens[rid];
    var paired := db.accessTokens[row.accessTokenId];
    var retired := db.(refreshTokens := db.refreshTokens[rid := row.(isExpired := true)],
                       accessTokens := db.accessTokens[row.accessTokenId := paired.(isExpired := true)]);
    AddTokenPair(retired, row.sessionId, access, refresh)
  }

  /** `create_user_session_and_tokens`: the session is committed first, then the two tokens are minted, then
      both token rows are written. */
  function CreateUserSessionAndTokens(db: Db, userId: int, now: int, accessReply: MintReply, refreshReply: MintReply)
    : Step<TokenResponse>
  {
    var sid := db.nextSessionId;
    var withSession := db.(sessions := db.sessions[sid := Session(userId, true, false, now + REFRESH_TOKEN_EXPIRE_DAYS * SECONDS_PER_DAY)],
                           nextSessionId := sid + 1);
    var askAccess := MintRequest(userId, sid, Some(ACCESS_TOKEN_EXPIRE_MINUTES));
    var askRefresh := MintRequest(userId, sid, RefreshExpiresIn(REFRESH_TOKEN_EXPIRE_DAYS));
    if accessReply.status >= 400 then
      Step(withSession, Err(Upstream(accessReply.status)), [askAccess])
    else if refreshReply.status >= 400 then
      Step(withSession, Err(Upstream(refreshReply.status)), [askAccess, askRefresh])
    else
      Step(AddTokenPair(withSession, sid, accessReply.token, refreshReply.token),
           Ok(TokenResponse(CREATED, accessReply.token, refreshReply.token)),
           [askAccess, askRefresh])
  }

  /** `login`: the first user with that email, checked with `passwordMatches` (the argon2 verification). */
  function Login(db: Db, email: string, password: string, passwordMatches: (string, string) -> bool,
                 now: int, accessReply: MintReply, refreshReply: MintReply): Step<TokenResponse>
  {
    var found := UserByEmail(db.users, email);
    if found.None? || !passwordMatches(password, db.users[found.value].hashedPassword) then
      Step(db, Err(InvalidCredentials("Invalid Credentials")), [])
    else
      CreateUserSessionAndTokens(db, found.value, now, accessReply, refreshReply)
  }

  /** `refresh_token`: five checks in order, reuse detection, then rotation. */
  function Refresh(db: Db, token: string, reply: VerifyReply, now: int,
                   accessReply: MintReply, refreshReply: MintReply): Step<TokenResponse>
  {
    match Verified(reply, "Invalid refresh token")
    case Err(e) => Step(db, Err(e), [])
    case Ok(claims) =>
      match RefreshRowByToken(db, token)
      case None => Step(db, Err(InvalidToken("Refresh token not found", TokenNotFound)), [])
      case Some(rid) =>
        var row := db.refreshTokens[rid];
        var sid := row.sessionId;
        if sid !in db.sessions || !db.sessions[sid].isActive then
          Step(db, Err(InvalidToken("Session is inactive or does not exist", SessionInactive)), [])
        else if db.sessions[sid].isBlocked then
          Step(db, Err(InvalidToken("Session is blocked", SessionBlocked)), [])
        else if db.sessions[sid].expiresAt < now then
          Step(db, Err(InvalidToken("Session expired", SessionExpired)), [])
        else if row.isExpired then
          Step(BlockSession(db, sid), Err(InvalidToken("Refresh token expired, Session blocked", SessionExpired)), [])
        else
          var askAccess := MintRequest(claims.userId, sid, Some(ACCESS_TOKEN_EXPIRE_MINUTES));
          var askRefresh := MintRequest(claims.userId, sid, RefreshExpiresIn(RemainingDays(db.sessions[sid].expiresAt, now)));
          if accessReply.status >= 400 then
            Step(db, Err(Upstream(accessReply.status)), [askAccess])
          else if refreshReply.status >= 400 then
            Step(db, Err(Upstream(refreshReply.status)), [askAccess, askRefresh])
          else
            Step(Rotate(db, rid, accessReply.token, refreshReply.token),
                 Ok(TokenResponse(CREATED, accessReply.token, refreshReply.token)),
                 [askAccess, askRefresh])
  }

  /** `logout` */
  function Logout(db: Db, reply: VerifyReply): Step<()>
  {
    match Verified(reply, "Invalid access token")
    case Err(e) => Step(db, Err(e), [])
    case Ok(claims) =>
      if claims.expired then
        Step(db, Err(InvalidToken("Access token expired0", SessionExpired)), [])
      else if claims.sessionId !in db.sessions then
        Step(db, Err(InvalidSession("Session does not exist")), [])
      else
        Step(EndSession(db, claims.sessionId), Ok(()), [])
  }

  /** `validate_session` */
  function ValidateSession(db: Db, reply: VerifyReply): Step<()>
  {
    match Verified(reply, "Invalid access token")
    case Err(e) => Step(db, Err(e), [])
    case Ok(claims) =>
      if !claims.expired then
        Step(db, Ok(()), [])
      else if claims.sessionId in db.sessions then
        Step(db.(accessTokens := ExpireAccessTokensOf(db.accessTokens, claims.sessionId)),
             Err(InvalidToken("Access token expired", SessionExpired)), [])
      else
        Step(db, Err(InvalidToken("Access token is of an expired session", SessionExpired)), [])
  }

  /** `get_session_id_from_token` */
  function GetSessionIdFromToken(reply: VerifyReply): (r: Result<int, GatewayError>)
    ensures r.Ok? <==> reply.status < 400 && reply.claims.Some? && reply.claims.value.verified
    ensures r.Ok? ==> r.value == reply.claims.value.sessionId
    ensures r.Err? && reply.status < 400 ==> r.error == InvalidToken("Invalid access token", TokenInvalid)
    ensures reply.status >= 400 ==> r == Err(Upstream(reply.status))
  {
    match Verified(reply, "Invalid access token")
    case Err(e) => Err(e)
    case Ok(claims) => Ok(claims.sessionId)
  }

  /** `register`: the users service creates the user, the gateway mirrors it with `hashedPassword` (the argon2
      hash of the password, computed outside the model) and logs the new user in. */
  function Register(db: Db, form: Registration, hashedPassword: string, created: UserCreated, now: int,
                    accessReply: MintReply, refreshReply: MintReply): Step<TokenResponse>
  {
    if created.status >= 400 then
      Step(db, Err(Upstream(created.status)), [])
    else if created.id.None? then
      Step(db, Err(Failure("/auth/register")), [])
    else if created.id.value in db.users then
      // the insert of a second row with the same primary key fails on commit
      Step(db, Err(Failure("/auth/register")), [])
    else
      var mirrored := User(form.email, false, hashedPassword, created.createdAt, created.updatedAt);
      CreateUserSessionAndTokens(db.(users := db.users[created.id.value := mirrored]), created.id.value, now,
                                 accessReply, refreshReply)
  }
}
