/** The shared cache as the gateway uses it: a map from keys to values with
    an absolute expiry time, holding one-time WebSocket tickets under
    `ws_ticket:<id>`, cached sessions under `session:<id>` and each user's set of
    cached session ids under `user_sessions:<user id>`.

    A key whose expiry time has passed reads as absent, as in Redis. A payload
    is stored as the object itself: encoding it as JSON and decoding it again
    gives it back unchanged. */
module Cache {
  import opened Wrappers

  /** A JSON object as the ticket and session payloads use it. */
  type Payload = map<string, string>

  /** A Redis string holding an encoded payload, or a Redis set of session ids. */
  datatype Value = Text(payload: Payload) | Members(ids: set<string>)

  datatype Entry = Entry(value: Value, expiresAt: int)

  type Store = map<string, Entry>

  const TICKET_PREFIX: string := "ws_ticket:"
  const SESSION_PREFIX: string := "session:"
  const USER_SESSIONS_PREFIX: string := "user_sessions:"

  /** Default lifetime of a ticket, in seconds. */
  const DEFAULT_TICKET_TTL: int := 300
  /** Default lifetime of a cached session and of a user's session set, in seconds. */
  const DEFAULT_SESSION_TTL: int := 86400

  function TicketKey(ticketId: string): string { TICKET_PREFIX + ticketId }
  function SessionKey(sessionId: string): string { SESSION_PREFIX + sessionId }
  function UserSessionsKey(userId: string): string { USER_SESSIONS_PREFIX + userId }

  /** `key` exists and has not expired at time `now`. */
  predicate Live(store: Store, key: string, now: int)
  {
    key in store && now < store[key].expiresAt
  }

  /** `set_ws_ticket`: `SETEX ws_ticket:<id> ttl <data>`; Redis refuses a lifetime that is not positive, and
      the error reaches the caller. */
  function SetWsTicket(store: Store, ticketId: string, data: Payload, ttl: int, now: int): Result<Store, string>
  {
    if ttl <= 0 then Err("invalid expire time in 'setex' command")
    else Ok(store[TicketKey(ticketId) := Entry(Text(data), now + ttl)])
  }

  /** `consume_ws_ticket`, as one atomic step: a live ticket is deleted and its payload returned; an absent or
      expired ticket gives `None`, and so does a key of the wrong type, whose error is caught. */
  function ConsumeWsTicket(store: Store, ticketId: string, now: int): (Store, Option<Payload>)
  {
    var key := TicketKey(ticketId);
    if !Live(store, key, now) then (store, None)
    else match store[key].value
      case Text(data) => (store - {key}, Some(data))
      case Members(_) => (store, None)
  }

  /** `set_session`: one MULTI/EXEC transaction of `SETEX session:<sid>`, `SADD user_sessions:<uid> sid` and
      `EXPIRE user_sessions:<uid> ttl`. A command that fails inside the transaction does not undo the others,
      and the error is swallowed: a non-positive `ttl` makes SETEX fail and EXPIRE delete the set; a set key
      holding a string makes SADD fail. */
  function SetSession(store: Store, userId: string, sessionId: string, data: Payload, ttl: int, now: int): Store
  {
    var withSession := if ttl > 0 then store[SessionKey(sessionId) := Entry(Text(data), now + ttl)] else store;
    var setKey := UserSessionsKey(userId);
    var value :=
      if !Live(withSession, setKey, now) then Members({sessionId})
      else match withSession[setKey].value
        case Members(ids) => Members(ids + {sessionId})
        case Text(p) => Text(p);
    if ttl > 0 then withSession[setKey := Entry(value, now + ttl)]
    else withSession - {setKey}
  }

  /** The members of `user_sessions:<uid>` as `SMEMBERS` returns them; `None` when the key holds a string and
      the command fails. */
  function UserSessions(store: Store, userId: string, now: int): Option<set<string>>
  {
    var setKey := UserSessionsKey(userId);
    if !Live(store, setKey, now) then Some({})
    else match store[setKey].value
      case Members(ids) => Some(ids)
      case Text(_) => None
  }

  /** The keys `revoke_user_sessions` deletes for a user whose set holds `ids`. */
  function RevokedKeys(userId: string, ids: set<string>): set<string>
  {
    (set sid | sid in ids :: SessionKey(sid)) + {UserSessionsKey(userId)}
  }

  /** `revoke_user_sessions`, the kill switch: every cached session of the user and the user's set go; an empty
      or missing set, or a failing `SMEMBERS`, deletes nothing. */
  function RevokeUserSessions(store: Store, userId: string, now: int): Store
  {
    match UserSessions(store, userId, now)
    case None => store
    case Some(ids) => if ids == {} then store else store - RevokedKeys(userId, ids)
  }

  /** Keys of the three kinds never coincide, and each kind determines its id. */
  lemma {:induction false} KeyKindsAreDisjoint(a: string, b: string)
    ensures TicketKey(a) != SessionKey(b)
    ensures TicketKey(a) != UserSessionsKey(b)
    ensures SessionKey(a) != UserSessionsKey(b)
    ensures TicketKey(a) == TicketKey(b) ==> a == b
    ensures SessionKey(a) == SessionKey(b) ==> a == b
    ensures UserSessionsKey(a) == UserSessionsKey(b) ==> a == b
  {
    assert TicketKey(a)[0] == 'w' && SessionKey(b)[0] == 's' && UserSessionsKey(b)[0] == 'u';
    assert SessionKey(a)[0] == 's';
    if TicketKey(a) == TicketKey(b) {
      assert a == TicketKey(a)[|TICKET_PREFIX|..] == TicketKey(b)[|TICKET_PREFIX|..] == b;
    }
    if SessionKey(a) == SessionKey(b) {
      assert a == SessionKey(a)[|SESSION_PREFIX|..] == SessionKey(b)[|SESSION_PREFIX|..] == b;
    }
    if UserSessionsKey(a) == UserSessionsKey(b) {
      assert a == UserSessionsKey(a)[|USER_SESSIONS_PREFIX|..] == UserSessionsKey(b)[|USER_SESSIONS_PREFIX|..] == b;
    }
  }

  /** A ticket stored with a positive lifetime and consumed before it expires gives back exactly its payload and
      is gone afterwards, leaving the rest of the store as it was before the ticket was set; a second consume
      gives `None`. */
  lemma TicketRoundTrip(store: Store, ticketId: string, data: Payload, ttl: int, now: int, later: int, last: int)
    requires ttl > 0 && now <= later < now + ttl
    ensures SetWsTicket(store, ticketId, data, ttl, now).Ok?
    ensures var stored := SetWsTicket(store, ticketId, data, ttl, now).value;
            var (consumed, payload) := ConsumeWsTicket(stored, ticketId, later);
      && payload == Some(data)
      && TicketKey(ticketId) !in consumed
      && consumed == store - {TicketKey(ticketId)}
      && ConsumeWsTicket(consumed, ticketId, last) == (consumed, None)
  {
  }

  /** A ticket set with the default lifetime can be consumed exactly until five minutes after it was set. */
  lemma DefaultTicketLifetime(store: Store, ticketId: string, data: Payload, now: int, t: int)
    ensures SetWsTicket(store, ticketId, data, DEFAULT_TICKET_TTL, now).Ok?
    ensures ConsumeWsTicket(SetWsTicket(store, ticketId, data, DEFAULT_TICKET_TTL, now).value, ticketId, t).1 == Some(data)
            <==> t < now + 300
  {
  }

  /** A ticket is consumed at most once: whatever the store, once a consume has returned a payload, the next
      consume of the same ticket returns `None`. */
  lemma ConsumeAtMostOnce(store: Store, ticketId: string, now: int, later: int)
    ensures var (first, payload) := ConsumeWsTicket(store, ticketId, now);
            payload.Some? ==> ConsumeWsTicket(first, ticketId, later) == (first, None)
  {
  }

  /** Consuming an absent or expired ticket returns `None` and changes nothing; consuming never touches a key
      other than the ticket's own. */
  lemma ConsumeTouchesOnlyItsTicket(store: Store, ticketId: string, now: int)
    ensures !Live(store, TicketKey(ticketId), now) ==> ConsumeWsTicket(store, ticketId, now) == (store, None)
    ensures var after := ConsumeWsTicket(store, ticketId, now).0;
            forall k :: k != TicketKey(ticketId) ==> (k in after <==> k in store) && (k in after ==> after[k] == store[k])
  {
  }

  /** `set_session` with a positive lifetime stores the payload under `session:<sid>` with that lifetime, adds
      `sid` to the user's set keeping the members already there, restarts the set's lifetime, and touches no
      other key. */
  lemma SetSessionStoresAndIndexes(store: Store, userId: string, sessionId: string, data: Payload, ttl: int,
                                   now: int)
    requires ttl > 0
    requires UserSessions(store, userId, now).Some?
    ensures var after := SetSession(store, userId, sessionId, data, ttl, now);
            var setKey := UserSessionsKey(userId);
      && after[SessionKey(sessionId)] == Entry(Text(data), now + ttl)
      && setKey in after && after[setKey].expiresAt == now + ttl
      && after[setKey].value == Members(UserSessions(store, userId, now).value + {sessionId})
      && UserSessions(after, userId, now) == Some(UserSessions(store, userId, now).value + {sessionId})
      && (forall k :: k != SessionKey(sessionId) && k != setKey ==>
            (k in after <==> k in store) && (k in after ==> after[k] == store[k]))
  {
    KeyKindsAreDisjoint(sessionId, userId);
  }

  /** A session cached with the default lifetime, and the user's set with it, stay live exactly until one day
      after they were cached. */
  lemma DefaultSessionLifetime(store: Store, userId: string, sessionId: string, data: Payload, now: int, t: int)
    ensures var after := SetSession(store, userId, sessionId, data, DEFAULT_SESSION_TTL, now);
      && (Live(after, SessionKey(sessionId), t) <==> t < now + 86400)
      && (Live(after, UserSessionsKey(userId), t) <==> t < now + 86400)
      && after[SessionKey(sessionId)].value == Text(data)
  {
    KeyKindsAreDisjoint(sessionId, userId);
  }

  /** The kill switch deletes `session:<sid>` for every member of the user's set and the set itself, and keeps
      every other key, other users' sessions and all tickets included. */
  lemma RevokeDeletesExactlyTheUsersSessions(store: Store, userId: string, now: int)
    ensures var after := RevokeUserSessions(store, userId, now);
      && (UserSessions(store, userId, now).Some? && UserSessions(store, userId, now).value != {} ==>
            var ids := UserSessions(store, userId, now).value;
            && UserSessionsKey(userId) !in after
            && (forall sid :: sid in ids ==> SessionKey(sid) !in after)
            && (forall k :: k in store && k !in RevokedKeys(userId, ids) ==> k in after && after[k] == store[k])
            && (forall k :: k in after ==> k in store))
      && (UserSessions(store, userId, now).None? || UserSessions(store, userId, now) == Some({}) ==> after == store)
      && (forall t :: TicketKey(t) in store ==> TicketKey(t) in after && after[TicketKey(t)] == store[TicketKey(t)])
  {
    var after := RevokeUserSessions(store, userId, now);
    forall t | TicketKey(t) in store ensures TicketKey(t) in after && after[TicketKey(t)] == store[TicketKey(t)]
    {
      KeyKindsAreDisjoint(t, userId);
      forall sid ensures TicketKey(t) != SessionKey(sid) {
        KeyKindsAreDisjoint(t, sid);
      }
    }
  }

  /** Revoking twice is revoking once: after the first revocation the user's set is gone, so the second deletes
      nothing. */
  lemma RevokeIsIdempotent(store: Store, userId: string, now: int)
    ensures RevokeUserSessions(RevokeUserSessions(store, userId, now), userId, now) == RevokeUserSessions(store, userId, now)
  {
  }

  /** Two sessions cached for the same user are both gone, with the user's set, after the user's sessions are
      revoked while the set is still live. */
  lemma {:induction false} CachedSessionsAreRevokedTogether(store: Store, userId: string, first: string,
                                                            second: string, data: Payload, ttl: int, now: int,
                                                            later: int)
    requires ttl > 0 && now <= later < now + ttl
    requires UserSessions(store, userId, now).Some?
    ensures var cached := SetSession(SetSession(store, userId, first, data, ttl, now), userId, second, data, ttl, now);
            var revoked := RevokeUserSessions(cached, userId, later);
      && SessionKey(first) in cached && SessionKey(second) in cached
      && SessionKey(first) !in revoked && SessionKey(second) !in revoked && UserSessionsKey(userId) !in revoked
  {
    var once := SetSession(store, userId, first, data, ttl, now);
    SetSessionStoresAndIndexes(store, userId, first, data, ttl, now);
    var cached := SetSession(once, userId, second, data, ttl, now);
    SetSessionStoresAndIndexes(once, userId, second, data, ttl, now);
    var ids := UserSessions(once, userId, now).value + {second};
    assert first in ids && second in ids;
    assert UserSessions(cached, userId, later) == Some(ids);
    RevokeDeletesExactlyTheUsersSessions(cached, userId, later);
  }
}
