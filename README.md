# Orientati gateway: sessions, tokens, tickets and the kill switch

This project models the core of the Orientati FastAPI gateway in Dafny and proves properties of it. The core has four parts:

- **The auth service** (`app/services/auth.py`). It keeps four relational tables: users, sessions, access tokens and refresh tokens. It logs users in and rotates refresh tokens. Presenting a refresh token that was already rotated away kills the whole session (reuse detection). It also logs out, validates sessions and registers users. A new user is logged in straight away.
- **The cache** (`app/services/redis_service.py`). Redis holds:
  - one-time WebSocket tickets under `ws_ticket:<id>`;
  - cached sessions under `session:<id>`;
  - each user's set of cached session ids under `user_sessions:<user id>`.

  The kill switch deletes all of one user's cached sessions.
- **The users service** (`app/services/users.py`). It mirrors user events from the message bus into the local users table. It also answers whether a token's user has verified their email.
- **The `/ws` endpoint** (`app/api/v1/routes/websockets.py`). It consumes a ticket before it accepts a socket. An accepted socket echoes every message.

## Layout

| file | module | what it holds |
|---|---|---|
| `wrappers.dfy` | `Wrappers` | `Option` and `Result` |
| `entities.dfy` | `Entities` | The table rows, the store `Db` and its invariant `Valid`: ids lie below the next ones, every refresh row points at an access-token id already handed out, a session has at most one unexpired refresh token, and every unexpired access token is paired with an unexpired refresh token of its session. The `.first()` lookups and the bulk "expire every token of a session" updates. |
| `auth.dfy` | `Auth` | The error kinds and their HTTP statuses. Each auth operation is written as a pure transition `Db -> Step(db, result, sent)`, where `sent` lists the token-creation requests the operation made. |
| `auth_properties.dfy` | `AuthProperties` | What each auth operation promises. |
| `users.dfy` | `Users` | The user-event handler, both as written and as intended, and the email-status lookup. |
| `lifecycle.dfy` | `Lifecycle` | Arbitrary sequences of requests and events. Blocking and deactivation are one-way. |
| `session_store.dfy` | `SessionStore` | The class `Database`. Its map fields are updated in place by one method per operation. Each method is proved equal to the pure transition, so the properties proved about the transitions also hold for the methods. |
| `cache.dfy` | `Cache` | The key→(value, expiry) store and its four operations, as pure functions, with their properties. |
| `redis_service.dfy` | `RedisService` | The class `AsyncRedisSingleton`. The field `connected` models the no-client guard. Each method is proved equal to the function in `Cache`. |
| `websockets.dfy` | `WebSockets` | The ticket gate and the echo loop. `Transcript` is the list of socket actions. |

### How the outside world enters the model

- **The token service.** Its replies are parameters:
  - `VerifyReply` is the status plus an optional payload `{verified, expired, user_id, session_id}`.
  - `MintReply` is the status plus the new token.

  A status of 400 or more raises `Upstream(status)`, as `verify_token` and `create_*_token` do.
- **Password hashing.** Argon2 verification is a function-valued parameter `passwordMatches`. The hash computed by `register` is a parameter.
- **The users service.** Its reply to the user-creation request is the parameter `UserCreated`.
- **Time.** Every time is whole seconds, and `now` is a parameter. `timedelta.days` is floor division by 86400. Dafny's `/` gives the same result, because the divisor is positive.
- **Redis errors.** A failure from the Redis server or connection is a `failure` parameter. An entry with an expiry at or before `now` reads as absent.
- **`.first()` without an ordering** returns the row with the smallest id (`Entities.FirstId`).

### Where the tests disagree with the code

This model follows the code.

- `login` does not reject users whose email is unverified. Its message is "Invalid Credentials" (`auth.py:219-221`), not the message the security tests look for.
- `register` returns the token response of an automatic login with status 201 (`auth.py:356`), not a 202.
- `create_user_session_and_tokens` commits the session before it asks for any token (`auth.py:183`). So if the token service fails, an active session with no tokens is left behind. `AuthProperties.LoginMintFailureLeavesSession` states this.

## Model

| member | source | states |
|---|---|---|
| Entities.UserByEmail | app/services/auth.py:219 | The login lookup returns a user with that email, the one with the smallest id. It returns `None` exactly when no user has the email. |
| Entities.RefreshRowByToken | app/services/auth.py:236-237 | The refresh-row lookup finds the first row carrying the token whose paired access-token row exists (the inner join). It returns `None` exactly when no such row exists. |
| Entities.OneLivePairPerSession | app/services/auth.py:262-293 | In a valid store a session has at most one unexpired access token and at most one unexpired refresh token, and when it has both, the refresh token is paired with that access token. |
| Entities.ExpireAccessTokensOf | app/services/auth.py:256 | The bulk update marks expired every access token of the session. It keeps every other row and no row is added or removed. |
| Entities.ExpireRefreshTokensOf | app/services/auth.py:257 | The same as above, for refresh tokens. |
| Auth.TokenErrorType.Code | app/services/auth.py:44-49 | The five invalid-token kinds carry the codes 1 to 5, one-to-one. |
| Auth.GatewayError.Status | app/services/auth.py:21-60 | Invalid credentials and invalid tokens are 401. An invalid session is 403. A not-found error is 404. An upstream error carries the remote status. |
| Auth.Verified | app/services/auth.py:231-233 | A verify reply passes exactly when its status is below 400 and its payload is present and verified; it then yields that payload. A status of 400 or more raises the upstream error. Otherwise it raises error type 1 with the caller's message. |
| Auth.GetSessionIdFromToken | app/services/auth.py:402-420 | Returns the payload's session id exactly when the token verifies. A status of 400 or more raises exactly the upstream error with that status. Any other failure raises error type 1 with "Invalid access token". |
| AuthProperties.RefreshRejectsInOrder | app/services/auth.py:229-247 | A refresh is rejected in a fixed order: upstream error or type 1, then 2 (no joined row), then 3 (session missing or inactive), then 4 (blocked), then 5 (expired). Each rejection writes nothing and asks for no token. |
| AuthProperties.ReplayKillsSession | app/services/auth.py:249-260 | Presenting a rotated-away refresh token that passes the checks does several things. The session becomes inactive and blocked. Every access and refresh token of that session is expired, and nothing else in those rows changes. No token is minted. The caller gets type 5. Nothing outside the session changes. |
| AuthProperties.RotationReplacesOnePair | app/services/auth.py:262-293 | A successful refresh expires the presented refresh token and its paired access token. It adds exactly one new access token and one new refresh token paired with it, under the same session. Session rows, users and every other token stay the same, and the store stays valid. |
| AuthProperties.EndingSessionKeepsValid | app/services/auth.py:249-257 | The reuse-detection write and the logout write keep the store valid. Among other things, each session still has at most one unexpired refresh token. |
| AuthProperties.CreateSessionKeepsValid | app/services/auth.py:176-210 | Opening a session keeps the store valid, whether or not its tokens could be minted. |
| AuthProperties.AddTokenPairKeepsValid | app/services/auth.py:196-211 | Adding a token pair to a session that has no unexpired refresh token keeps the store valid, and the new pair becomes that session's one unexpired pair. |
| AuthProperties.RotateKeepsValid | app/services/auth.py:270-290 | The rotation write keeps the store valid. The presented row was its session's only unexpired refresh token. It and its paired access token are expired, and the new pair takes their place. Every refresh row still points at an access-token id already handed out. |
| AuthProperties.RotatedTokenIsRefusedNextTime | app/services/auth.py:236-260 | After a successful refresh, the presented token still resolves to its own row, which is now expired. The next refresh with that token is refused and asks for no token. If that token fails one of the five checks, nothing is written. If it passes them, it is a replay and gets type 5 with the session blocked. The new refresh token belongs to the same session. |
| AuthProperties.RotationLifetimeWithinSession | app/services/auth.py:108-110 | The lifetime asked for on rotation is the session's remaining whole days in minutes. It is positive, a multiple of 1440, never longer than the time the session has left, and less than one day short of it. When less than a day is left, no lifetime is sent. |
| AuthProperties.RotationRequests | app/services/auth.py:262-267 | A rotation first asks for an access token of 30 minutes. Only when that succeeds does it ask for a refresh token with the lifetime above, for the same user and session. A failure of either request writes nothing. |
| AuthProperties.LoginFailsUniformly | app/services/auth.py:216-226 | An unknown email and a wrong password give the same 401 "Invalid Credentials" and write nothing. A correct login can fail only with an upstream error. |
| AuthProperties.LoginOpensOneSession | app/services/auth.py:172-213 | A successful login adds exactly one session, active, unblocked and expiring 30 days later, for the first user with that email. It adds exactly one access token and one refresh token linked to it. It sends the two creation requests with 30 minutes and 30×1440 minutes. |
| AuthProperties.LoginMintFailureLeavesSession | app/services/auth.py:178-190 | When a token request fails after the session was committed, the new session stays active with no token pointing at it. |
| AuthProperties.LogoutOutcomes | app/services/auth.py:301-325 | Logout rejects a token that does not verify (type 1 or upstream), an expired payload (type 5) and a missing session (403 InvalidSession), and these write nothing. Otherwise the session becomes inactive with its blocked flag unchanged. Exactly that session's tokens are expired, and nothing else in those rows changes. |
| AuthProperties.LogoutTwiceIsLogoutOnce | app/services/auth.py:311-323 | A second logout with the same token succeeds again and leaves the store as the first logout left it. |
| AuthProperties.ValidateSessionOutcomes | app/services/auth.py:364-399 | A verified, unexpired token changes nothing. An expired token of an existing session expires that session's access tokens, changing nothing else in those rows, and raises type 5. An expired token of a missing session raises type 5 and writes nothing. |
| AuthProperties.RegisterMirrorsThenLogsIn | app/services/auth.py:332-360 | A failed user creation, a reply without an id, or an id already mirrored writes nothing. Otherwise the user is mirrored unverified with the local hash, and a session of that new user is opened. |
| Lifecycle.CreateSessionIsMonotone | app/services/auth.py:176-210 | Opening a session keeps the store valid. It adds exactly one session, under a fresh id, and every existing session row stays as it was. |
| Lifecycle.LogoutIsMonotone | app/services/auth.py:315-323 | A logout keeps the store valid and never reactivates or unblocks a session. |
| Lifecycle.ValidateIsMonotone | app/services/auth.py:388-392 | Session validation keeps the store valid and never reactivates or unblocks a session. |
| Lifecycle.MirrorIsMonotone | app/services/users.py:95-123 | A user event keeps the store valid and never reactivates or unblocks a session. |
| Lifecycle.RefreshIsMonotone | app/services/auth.py:229-293 | A refresh keeps the store valid and never reactivates or unblocks a session. |
| Lifecycle.ApplyIsMonotone | app/services/auth.py:251-252 | Every request and event keeps the store valid. A session is only ever set inactive or blocked, never back. |
| Lifecycle.DeadSessionsStayDead | app/services/auth.py:251-252 | Across any sequence of events, an inactive or vanished session stays so, and a blocked session stays blocked. |
| Lifecycle.RefreshOfInactiveSessionFails | app/services/auth.py:241-243 | A refresh with a token of an inactive or vanished session fails, writes nothing, and gives type 3 once the token verifies. |
| Lifecycle.ReplayBlocksEveryLaterRefresh | app/services/auth.py:249-260 | After reuse detection, whatever happens next, every refresh with any token of that session fails with type 3 and writes nothing. This includes the newest token. |
| Lifecycle.ReplayAfterRotationEndsTheSession | app/services/auth.py:249-293 | A stolen refresh token locks out both of its holders. After a successful rotation, presenting the old token again while the session passes the checks is a replay. The session is then blocked for good, and after any later events the token the rotation issued is refused and nothing is written. |
| Lifecycle.LogoutEndsEveryLaterRefresh | app/services/auth.py:315-323 | After a logout, whatever happens next, no token of that session can be refreshed. |
| SessionStore.Database.CreateUserSessionAndTokens | app/services/auth.py:172-213 | The in-place writes leave the tables, the result and the sent requests as `Auth.CreateUserSessionAndTokens` says, and keep the store valid. |
| SessionStore.Database.Login | app/services/auth.py:216-226 | The same, for `Auth.Login`. |
| SessionStore.Database.RefreshToken | app/services/auth.py:229-298 | The same, for `Auth.Refresh`. |
| SessionStore.Database.Logout | app/services/auth.py:301-329 | The same, for `Auth.Logout`. |
| SessionStore.Database.ValidateSession | app/services/auth.py:364-399 | The same, for `Auth.ValidateSession`. |
| SessionStore.Database.Register | app/services/auth.py:332-360 | The same, for `Auth.Register`. |
| SessionStore.Database.UpdateFromRabbitMQ | app/services/users.py:84-130 | The same, for `Users.ApplyMessage`, the corrected handler. |
| SessionStore.Database.GetEmailStatusFromToken | app/services/users.py:133-155 | Reads the tables, returns `Users.EmailStatus`, and succeeds only with the flag of a user who owns some session. |
| Users.DeleteUser | app/models/user.py:27-28 | Deleting a user removes that user and, through the delete-orphan cascade, exactly the sessions whose owner it is. |
| Users.EmailStatus | app/services/users.py:133-155 | The lookup fails as the session-id lookup does, gives 404 "Session not found" or 404 "User not found", or returns exactly that user's email-verified flag. |
| Users.UpdateInsertsUnknownUser | app/services/users.py:96-110 | An UPDATE for an unknown id inserts the user built from the event, unverified, and changes nothing else. |
| Users.UpdateOverwritesKnownUser | app/services/users.py:111-116 | An UPDATE for a known id overwrites email, hash and update time. It keeps the creation time and the verified flag, and changes no other user and no other table. |
| Users.ApplyMessageIsIdempotent | app/services/users.py:95-123 | Applying the same event twice leaves the store as applying it once. |
| Users.DeleteRemovesOnlyThatUser | app/services/users.py:118-123 | A DELETE removes exactly that user and its sessions and keeps every other row. A DELETE for an absent id changes nothing. |
| Users.OtherMessagesChangeNothing | app/services/users.py:125-128 | CREATE events and events of an unknown type change nothing. |
| Users.UpdateOfUnknownUserFailsAsWritten | app/services/users.py:97-110 | The handler as written fails exactly on an UPDATE for an id not mirrored yet, and inserts nothing there. On every other event it agrees with the corrected handler. |
| Cache.KeyKindsAreDisjoint | app/services/redis_service.py:89-173 | Ticket, session and user-set keys never coincide, and each key determines its id. So an operation on one kind of key never touches another kind. |
| Cache.TicketRoundTrip | app/services/redis_service.py:74-127 | A ticket stored with a positive lifetime and consumed before it expires gives back its payload. It is then gone, the rest of the store is as before the ticket was set, and a second consume gives `None`. |
| Cache.DefaultTicketLifetime | app/services/redis_service.py:74-95 | A ticket set with the default lifetime can be consumed, and gives back its payload, until exactly 300 seconds after it was set. |
| Cache.ConsumeAtMostOnce | app/services/redis_service.py:115-127 | Whatever the store holds, once a consume has returned a payload, the next consume of that ticket returns `None`. |
| Cache.ConsumeTouchesOnlyItsTicket | app/services/redis_service.py:111-127 | Consuming an absent or expired ticket returns `None` and changes nothing. A consume never touches any other key. |
| Cache.SetSessionStoresAndIndexes | app/services/redis_service.py:139-157 | Caching a session stores its payload with the lifetime. It adds the id to the user's set, keeping the members already there, and restarts the set's lifetime. No other key changes. |
| Cache.DefaultSessionLifetime | app/services/redis_service.py:139-157 | A session cached with the default lifetime, and the user's set with it, stay live until exactly 86400 seconds after caching. |
| Cache.RevokeDeletesExactlyTheUsersSessions | app/services/redis_service.py:159-178 | The kill switch deletes `session:<sid>` for every member of the user's set, and the set itself. It keeps every other key, including other users' sessions and all tickets. An empty or missing set deletes nothing. |
| Cache.RevokeIsIdempotent | app/services/redis_service.py:166-169 | Revoking a user's sessions twice is the same as revoking them once. |
| Cache.CachedSessionsAreRevokedTogether | app/services/redis_service.py:139-178 | Two sessions cached for one user are both gone, with the set, after a revocation while the set is live. |
| RedisService.AsyncRedisSingleton.SetWsTicket | app/services/redis_service.py:74-95 | Without a client, it neither writes nor raises. A failing SETEX is raised to the caller with the store unchanged. Otherwise the ticket is stored. |
| RedisService.AsyncRedisSingleton.ConsumeWsTicket | app/services/redis_service.py:97-137 | It never raises. Without a client, or on any Redis error, it returns `None` with the store unchanged. Otherwise it is the atomic get-and-delete of `Cache.ConsumeWsTicket`. |
| RedisService.AsyncRedisSingleton.SetSession | app/services/redis_service.py:139-157 | Without a client or on an error it does nothing. Otherwise it is `Cache.SetSession`. |
| RedisService.AsyncRedisSingleton.RevokeUserSessions | app/services/redis_service.py:159-178 | Without a client or on an error it does nothing. Otherwise it is `Cache.RevokeUserSessions`. |
| WebSockets.UserIdOf | app/api/v1/routes/websockets.py:29 | The connected user is the payload's `user_id`, or none when the payload has no such key. |
| WebSockets.Echoes | app/api/v1/routes/websockets.py:33-36 | There is exactly one reply per received message, in order, and reply i is `"Message received: "` followed by message i. |
| WebSockets.EchoLoop | app/api/v1/routes/websockets.py:32-36 | The receive/send loop produces exactly `Echoes` of what it received. |
| WebSockets.WebsocketEndpoint | app/api/v1/routes/websockets.py:11-44 | The ticket is consumed once, before anything else. The cache afterwards is the consume's result. The socket actions are `Transcript` of the consumed payload, and the user id is the admitted payload's `user_id`. |
| WebSockets.GateDecidesBeforeAnything | app/api/v1/routes/websockets.py:20-28 | The socket is accepted exactly when the consumed payload is non-empty. Then acceptance comes first and only once, and every message gets its reply. Otherwise the only action is a close with 1008. |
| WebSockets.TicketOpensAtMostOneSocket | app/api/v1/routes/websockets.py:20-25 | Of two connections that present the same ticket one after the other, at most one is accepted, whatever the cache holds. |
| WebSockets.IssuedTicketAdmitsOnce | app/api/v1/routes/websockets.py:20-29 | A ticket issued with a non-empty payload admits the first connection before it expires, for the payload's user. The next connection with that ticket is closed with 1008. |

## Left out

- HTTP calls to the token service and the users service (`send_request`, `create_access_token`, `create_refresh_token`, `verify_token`, `create_new_user`). Their replies are parameters, and only the rule that a status of 400 or more raises is modelled. The http client module is not part of this model.
- Argon2 hashing and verification through passlib. These are a parameter and a function-valued parameter.
- The Redis plumbing: the `connect` retry loop, `close`, `health_check`, the singleton `__new__` and the connection pool. The model's constructor takes the connection state and the cache contents as given.
- JSON encoding of cache payloads. Encoding and decoding are taken to be an exact round trip, so a payload is stored as the object itself.
- Concurrency. The WATCH/MULTI race in `consume_ws_ticket` and concurrent refreshes of one session are not modelled. A consume is one atomic step, and a `WatchError` is one of the failures that make it return `None`.
- SessionStore.Database.RefreshToken: the source reads the clock twice, once for the expiry check and once for the remaining days. The model uses a single `now` for both.
- Lifecycle.DeadSessionsStayDead: session ids come from a counter that never goes back, so a vanished session id is never handed out again. The session model file is not part of this model. If its primary key is a plain SQLite integer key without AUTOINCREMENT, as the users table's is (`app/models/user.py:15`, SQLite per `app/core/config.py:7`), SQLite gives a new row the largest id in use plus one. Deleting a user (`users.py:120`) whose session holds the largest id then lets the next login reuse that id, and the clause "a vanished session stays vanished" no longer holds.
- Lifecycle.ReplayBlocksEveryLaterRefresh and Lifecycle.LogoutEndsEveryLaterRefresh rest on the same never-reused ids. Under that id reuse, a leftover token row of the deleted session would resolve to the new session of another user, and a refresh with it would act on that session.
- Sessions and tokens of a deleted user. The model deletes a user's sessions through the cascade, but it does not model what the database does with the token rows that point at those sessions. The session and token model files are not part of this model.
- The `name` and `surname` fields of user events and registrations. The users table has no column for them, so the mirror does not keep them. In an UPDATE for a known user their assignments only set plain attributes of the object.
- The `hashed_password` field that `register` sends to the users service. It carries the plain password. This is visible at `auth.py:336-337`, but the users service is outside the model.
- Auth.GatewayError.Status: the status of the generic `OrientatiException(url=..., exc=...)` wrapper is set by code that is not part of this model, so `Failure` has no status.
- The CRUD proxy services and their routes (schools, subjects, study tracks, cities), the route modules that only map exceptions to responses, and the HTTP wrappers in `users.py` (`change_password`, `update_user`, `delete_user`, `request_email_verification`, `verify_email`). These only forward to remote services.
- The authentication dependency `validate_token` and the handler `handle_session_revocation`. Both are referenced but defined in files that are not part of this model.
- The database session factory. `get_db` (`app/db/session.py:33-35`) is an async generator that yields an `AsyncSession`. The services call `next(get_db())` (`auth.py:177,217,235,310,345,383`, `users.py:87,136`), which raises `TypeError` on an async generator. Each service turns that error into an `OrientatiException`, and an `AsyncSession` has no synchronous `.query` anyway. The model assumes a working synchronous session, so every database read and write happens as the service code describes.
- The timestamps `register` mirrors. `register` passes the users service's `created_at` and `updated_at` JSON strings straight to the `DateTime` columns (`auth.py:350-351`), which the SQLite backend (`app/core/config.py:7`) refuses. `Auth.UserCreated` carries them as already-parsed integers.
- Logging, Sentry, middleware, rate limiting and configuration. The two lifetimes (30 minutes, 30 days) appear as constants.
- WebSockets.WebsocketEndpoint: a crash part-way through sending a reply is modelled as a crash after the last complete reply. Whether the final close succeeds cannot be observed by the handler and is not recorded.

## Findings

| source | as written | input that shows it | evidently intended | confidence | as-written member | corrected member |
|---|---|---|---|---|---|---|
| app/services/users.py:98-106 | The insert for an UPDATE of an unknown user builds `User(..., name=..., surname=...)`. The mapped `User` class (`app/models/user.py:12-28`) has no `name` or `surname` attribute, so the declarative constructor raises `TypeError`, which the handler turns into an `OrientatiException`. | An UPDATE event whose `data.id` is not in the users table. | The unknown user is inserted from the event's columns and the event is acknowledged. | not executed | Users.UpdateOfUnknownUserFailsAsWritten | Users.UpdateInsertsUnknownUser |
