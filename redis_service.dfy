/** The gateway's Redis client wrapper. `connected` stands for "the client attribute is set"; every operation
    first checks it and does nothing without a client. `failure` stands for the server or the connection
    raising during the call (a lost connection, a `WatchError` from a concurrent writer): the call then changes
    nothing, and only `set_ws_ticket` lets the error reach its caller. The cache contents are the field
    `entries`, changed as the pure functions of `Cache` say. */
module RedisService {
  import opened Wrappers
  import opened Cache

  class AsyncRedisSingleton {
    var connected: bool
    var entries: Store

    /** A wrapper over an existing server, with or without a live client. */
    constructor (connected: bool, entries: Store)
      ensures this.connected == connected && this.entries == entries
    {
      this.connected := connected;
      this.entries := entries;
    }

    /** `set_ws_ticket`: without a client nothing happens and nothing is raised; a failing SETEX is raised to the
        caller (`raised`), otherwise the ticket is stored. */
    method SetWsTicket(ticketId: string, data: Payload, ttl: int, now: int, failure: bool) returns (raised: bool)
      modifies this
      ensures connected == old(connected)
      ensures !connected ==> !raised && entries == old(entries)
      ensures connected ==>
        var r := Cache.SetWsTicket(old(entries), ticketId, data, ttl, now);
        && raised == (failure || r.Err?)
        && entries == (if raised then old(entries) else r.value)
    {
      raised := false;
      if !connected {
        return;
      }
      var r := Cache.SetWsTicket(entries, ticketId, data, ttl, now);
      if failure || r.Err? {
        raised := true;
        return;
      }
      entries := r.value;
    }

    /** `consume_ws_ticket`: the payload of a live ticket, which is deleted in the same transaction; `None`
        without a client, on any error, or for an absent ticket. */
    method ConsumeWsTicket(ticketId: string, now: int, failure: bool) returns (payload: Option<Payload>)
      modifies this
      ensures connected == old(connected)
      ensures !connected || failure ==> payload == None && entries == old(entries)
      ensures connected && !failure ==> (entries, payload) == Cache.ConsumeWsTicket(old(entries), ticketId, now)
    {
      if !connected || failure {
        return None;
      }
      var (after, data) := Cache.ConsumeWsTicket(entries, ticketId, now);
      entries := after;
      payload := data;
    }

    /** `set_session`: caches the session and indexes it under its user; errors are logged and swallowed. */
    method SetSession(userId: string, sessionId: string, data: Payload, ttl: int, now: int, failure: bool)
      modifies this
      ensures connected == old(connected)
      ensures entries == (if connected && !failure then Cache.SetSession(old(entries), userId, sessionId, data, ttl, now)
                          else old(entries))
    {
      if connected && !failure {
        entries := Cache.SetSession(entries, userId, sessionId, data, ttl, now);
      }
    }

    /** `revoke_user_sessions`, the kill switch; errors are logged and swallowed. */
    method RevokeUserSessions(userId: string, now: int, failure: bool)
      modifies this
      ensures connected == old(connected)
      ensures entries == (if connected && !failure then Cache.RevokeUserSessions(old(entries), userId, now)
                          else old(entries))
    {
      if connected && !failure {
        entries := Cache.RevokeUserSessions(entries, userId, now);
      }
    }
  }
}
