/** The relational tables of the gateway (users, sessions, access_tokens,
    refresh_tokens), the two lifetimes from the settings, and the row lookups
    and bulk updates the services issue against the tables.

    Times are whole seconds since an arbitrary epoch; a row id is an `int`. */
module Entities {
  import opened Wrappers

  /** settings.ACCESS_TOKEN_EXPIRE_MINUTES */
  const ACCESS_TOKEN_EXPIRE_MINUTES: int := 30
  /** settings.REFRESH_TOKEN_EXPIRE_DAYS */
  const REFRESH_TOKEN_EXPIRE_DAYS: int := 30
  /** Seconds in one `timedelta(days=1)`. */
  const SECONDS_PER_DAY: int := 86400
  /** The factor `24 * 60` the refresh-token request uses to turn days into minutes. */
  const MINUTES_PER_DAY: int := 24 * 60

  /** A row of `users`, keyed by its id. The table has no name or surname column. */
  datatype User = User(
    email: string,
    emailVerified: bool,
    hashedPassword: string,
    createdAt: int,
    updatedAt: int)

  /** A row of `sessions`, keyed by its id. */
  datatype Session = Session(userId: int, isActive: bool, isBlocked: bool, expiresAt: int)

  /** A row of `access_tokens`, keyed by its id. */
  datatype AccessToken = AccessToken(sessionId: int, token: string, isExpired: bool)

  /** A row of `refresh_tokens`, keyed by its id; `accessTokenId` is the paired access token. */
  datatype RefreshToken = RefreshToken(sessionId: int, token: string, accessTokenId: int, isExpired: bool)

  /** The whole relational store, with the next value of each auto-increment id. */
  datatype Db = Db(
    users: map<int, User>,
    sessions: map<int, Session>,
    accessTokens: map<int, AccessToken>,
    refreshTokens: map<int, RefreshToken>,
    nextSessionId: int,
    nextAccessTokenId: int,
    nextRefreshTokenId: int)

  /** Every auto-increment id handed out so far lies below the next one, so a new row never replaces an old
      one; every token row points at a session id and every refresh row at an access-token id already handed
      out; a session has at most one unexpired refresh token; and every unexpired access token is paired with
      an unexpired refresh token of its session. Together these give at most one unexpired access/refresh
      pair per session (`OneLivePairPerSession`). */
  predicate Valid(db: Db)
  {
    && (forall k :: k in db.sessions ==> k < db.nextSessionId)
    && (forall k :: k in db.accessTokens ==> k < db.nextAccessTokenId)
    && (forall k :: k in db.refreshTokens ==> k < db.nextRefreshTokenId)
    && (forall k :: k in db.accessTokens ==> db.accessTokens[k].sessionId < db.nextSessionId)
    && (forall k :: k in db.refreshTokens ==> db.refreshTokens[k].sessionId < db.nextSessionId)
    && (forall k :: k in db.refreshTokens ==> db.refreshTokens[k].accessTokenId < db.nextAccessTokenId)
    && OneLiveRefreshTokenPerSession(db.refreshTokens)
    && LiveAccessTokensArePaired(db)
  }

  /** No two unexpired refresh rows belong to the same session. */
  predicate OneLiveRefreshTokenPerSession(rows: map<int, RefreshToken>)
  {
    forall i, j ::
      i in rows && j in rows && !rows[i].isExpired && !rows[j].isExpired && rows[i].sessionId == rows[j].sessionId
      ==> i == j
  }

  /** Every unexpired access row is the paired access row of an unexpired refresh row of the same session. */
  predicate LiveAccessTokensArePaired(db: Db)
  {
    forall a :: a in db.accessTokens && !db.accessTokens[a].isExpired ==>
      exists r :: r in db.refreshTokens && PairedLive(db, r, a)
  }

  /** Refresh row `r` is unexpired and paired with access row `a` of the same session. */
  predicate PairedLive(db: Db, r: int, a: int)
    requires r in db.refreshTokens && a in db.accessTokens
  {
    && !db.refreshTokens[r].isExpired
    && db.refreshTokens[r].accessTokenId == a
    && db.refreshTokens[r].sessionId == db.accessTokens[a].sessionId
  }

  /** In a valid store a session has at most one unexpired access token and at most one unexpired refresh
      token, and when it has both the refresh token is paired with that access token. */
  lemma OneLivePairPerSession(db: Db)
    requires Valid(db)
    ensures forall i, j ::
      i in db.accessTokens && j in db.accessTokens && !db.accessTokens[i].isExpired && !db.accessTokens[j].isExpired
      && db.accessTokens[i].sessionId == db.accessTokens[j].sessionId
      ==> i == j
    ensures OneLiveRefreshTokenPerSession(db.refreshTokens)
    ensures forall a, r ::
      a in db.accessTokens && r in db.refreshTokens && !db.accessTokens[a].isExpired && !db.refreshTokens[r].isExpired
      && db.accessTokens[a].sessionId == db.refreshTokens[r].sessionId
      ==> db.refreshTokens[r].accessTokenId == a
  {
    forall i, j | i in db.accessTokens && j in db.accessTokens && !db.accessTokens[i].isExpired
                  && !db.accessTokens[j].isExpired && db.accessTokens[i].sessionId == db.accessTokens[j].sessionId
      ensures i == j
    {
      var ri :| ri in db.refreshTokens && PairedLive(db, ri, i);
      var rj :| rj in db.refreshTokens && PairedLive(db, rj, j);
      assert ri == rj;
    }
    forall a, r | a in db.accessTokens && r in db.refreshTokens && !db.accessTokens[a].isExpired
                  && !db.refreshTokens[r].isExpired && db.accessTokens[a].sessionId == db.refreshTokens[r].sessionId
      ensures db.refreshTokens[r].accessTokenId == a
    {
      var ra :| ra in db.refreshTokens && PairedLive(db, ra, a);
      assert ra == r;
    }
  }

  /** A set that is not empty has a member. */
  lemma NonEmptyHasMember(s: set<int>)
    requires s != {}
    ensures exists k :: k in s
  {
    if forall k :: k in s ==> false {
      assert false;
    }
  }

  lemma {:induction false} HasLeast(s: set<int>, w: int)
    requires w in s
    ensures exists m :: m in s && forall j :: j in s ==> m <= j
    decreases s
  {
    var rest := s - {w};
    if rest == {} {
      forall j | j in s ensures j == w {
        assert j !in rest;
      }
    } else {
      NonEmptyHasMember(rest);
      var v :| v in rest;
      HasLeast(rest, v);
      var m :| m in rest && forall j :: j in rest ==> m <= j;
      var least := if w < m then w else m;
      forall j | j in s ensures least <= j {
        if j != w {
          assert j in rest;
        }
      }
    }
  }

  /** The row `.first()` returns among the ids that match a query: tables are
      read in ascending id order. */
  function FirstId(ids: set<int>): (k: int)
    requires ids != {}
    ensures k in ids
    ensures forall j :: j in ids ==> k <= j
  {
    NonEmptyHasMember(ids);
    var w :| w in ids;
    HasLeast(ids, w);
    var k :| k in ids && forall j :: j in ids ==> k <= j;
    k
  }

  /** `db.query(User).filter(User.email == email).first()` */
  function UserByEmail(users: map<int, User>, email: string): (r: Option<int>)
    ensures r.None? <==> forall id :: id in users ==> users[id].email != email
    ensures r.Some? ==> r.value in users && users[r.value].email == email
    ensures r.Some? ==> forall id :: id in users && users[id].email == email ==> r.value <= id
  {
    var ids := set id | id in users && users[id].email == email;
    if ids == {} then
      assert forall id :: id in users ==> users[id].email != email by {
        forall id | id in users ensures users[id].email != email {
          assert id !in ids;
        }
      }
      None
    else
      assert forall id :: id in users && users[id].email == email ==> id in ids;
      Some(FirstId(ids))
  }

  /** `db.query(RefreshToken).filter(RefreshToken.token == token).join(AccessToken).first()`:
      the first refresh row carrying `token` whose paired access row exists. */
  function RefreshRowByToken(db: Db, token: string): (r: Option<int>)
    ensures r.None? <==> forall id :: id in db.refreshTokens ==> !JoinedRow(db, id, token)
    ensures r.Some? ==> JoinedRow(db, r.value, token)
    ensures r.Some? ==> forall id :: JoinedRow(db, id, token) ==> r.value <= id
  {
    var ids := set id | id in db.refreshTokens && JoinedRow(db, id, token);
    if ids == {} then
      assert forall id :: id in db.refreshTokens ==> !JoinedRow(db, id, token) by {
        forall id | id in db.refreshTokens ensures !JoinedRow(db, id, token) {
          assert id !in ids;
        }
      }
      None
    else
      assert forall id :: JoinedRow(db, id, token) ==> id in ids;
      Some(FirstId(ids))
  }

  /** Refresh row `id` carries `token` and its paired access row exists. */
  predicate JoinedRow(db: Db, id: int, token: string)
  {
    id in db.refreshTokens
    && db.refreshTokens[id].token == token
    && db.refreshTokens[id].accessTokenId in db.accessTokens
  }

  /** The bulk update that marks every access token of session `sid` expired, issued by reuse detection
      (app/services/auth.py:256), logout (auth.py:321) and session validation (auth.py:390). */
  function ExpireAccessTokensOf(rows: map<int, AccessToken>, sid: int): (r: map<int, AccessToken>)
    ensures r.Keys == rows.Keys
    ensures forall id :: id in rows && rows[id].sessionId == sid ==> r[id] == rows[id].(isExpired := true)
    ensures forall id :: id in rows && rows[id].sessionId != sid ==> r[id] == rows[id]
  {
    map id | id in rows :: if rows[id].sessionId == sid then rows[id].(isExpired := true) else rows[id]
  }

  /** The bulk update that marks every refresh token of session `sid` expired, issued by reuse detection
      (app/services/auth.py:257) and logout (auth.py:322). A separate query on a separate table from
      `ExpireAccessTokensOf`, hence a separate function over the refresh rows. */
  function ExpireRefreshTokensOf(rows: map<int, RefreshToken>, sid: int): (r: map<int, RefreshToken>)
    ensures r.Keys == rows.Keys
    ensures forall id :: id in rows && rows[id].sessionId == sid ==> r[id] == rows[id].(isExpired := true)
    ensures forall id :: id in rows && rows[id].sessionId != sid ==> r[id] == rows[id]
  {
    map id | id in rows :: if rows[id].sessionId == sid then rows[id].(isExpired := true) else rows[id]
  }
}
