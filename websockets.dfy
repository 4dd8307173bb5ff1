/** The `/ws` endpoint: a connection is admitted only with a one-time ticket,
    consumed from the cache before anything else happens; an admitted socket
    echoes every text message it receives. */
module WebSockets {
  import opened Wrappers
  import opened Cache
  import opened RedisService

  const WS_1008_POLICY_VIOLATION: int := 1008
  /** The code `close()` sends when it is given none. */
  const WS_1000_NORMAL_CLOSURE: int := 1000

  /** What the server does on the socket, in order. */
  datatype SocketEvent = Accepted | Sent(text: string) | Closed(code: int)

  /** How the receive loop ends: the client disconnects, or receiving or sending raises something else, after
      which the handler tries to close the socket and ignores any error of that close. */
  datatype StreamEnd = Disconnected | Crashed

  /** The reply to one received message. */
  function Reply(text: string): (r: string)
    ensures |r| == |"Message received: "| + |text|
    ensures r[..|"Message received: "|] == "Message received: "
    ensures r[|"Message received: "|..] == text
  {
    "Message received: " + text
  }

  /** A consumed ticket admits the connection when its payload is a non-empty object: `None` and `{}` are both
      falsy. */
  predicate Admits(data: Option<Payload>)
  {
    data.Some? && data.value != map[]
  }

  /** `ticket_data.get("user_id")`. */
  function UserIdOf(data: Payload): (r: Option<string>)
    ensures r.Some? <==> "user_id" in data
    ensures r.Some? ==> r.value == data["user_id"]
  {
    if "user_id" in data then Some(data["user_id"]) else None
  }

  /** One reply per received message, in the order received. */
  function Echoes(inbox: seq<string>): (r: seq<SocketEvent>)
    ensures |r| == |inbox|
    ensures forall i :: 0 <= i < |inbox| ==> r[i] == Sent(Reply(inbox[i]))
    decreases |inbox|
  {
    if inbox == [] then [] else Echoes(inbox[..|inbox| - 1]) + [Sent(Reply(inbox[|inbox| - 1]))]
  }

  /** Everything the endpoint does on the socket, given the consumed ticket's payload, the messages the client
      sends and how the stream ends. */
  function Transcript(data: Option<Payload>, inbox: seq<string>, end: StreamEnd): seq<SocketEvent>
  {
    if !Admits(data) then [Closed(WS_1008_POLICY_VIOLATION)]
    else [Accepted] + Echoes(inbox) + (if end == Crashed then [Closed(WS_1000_NORMAL_CLOSURE)] else [])
  }

  /** The receive loop: receive a text, send its reply, until the stream ends. */
  method EchoLoop(inbox: seq<string>) returns (replies: seq<SocketEvent>)
    ensures replies == Echoes(inbox)
  {
    replies := [];
    var i := 0;
    while i < |inbox|
      invariant 0 <= i <= |inbox|
      invariant replies == Echoes(inbox[..i])
    {
      assert inbox[..i + 1][..i] == inbox[..i];
      replies := replies + [Sent(Reply(inbox[i]))];
      i := i + 1;
    }
    assert inbox[..i] == inbox;
  }

  /** `websocket_endpoint`: consume the ticket; close with 1008 unless its payload admits the connection;
      otherwise accept, take the user id from the payload and echo until the stream ends. */
  method WebsocketEndpoint(redis: AsyncRedisSingleton, ticket: string, now: int, failure: bool,
                           inbox: seq<string>, end: StreamEnd)
    returns (events: seq<SocketEvent>, userId: Option<string>)
    modifies redis
    ensures redis.connected == old(redis.connected)
    ensures var (after, data) :=
              if old(redis.connected) && !failure then Cache.ConsumeWsTicket(old(redis.entries), ticket, now)
              else (old(redis.entries), None);
      && redis.entries == after
      && events == Transcript(data, inbox, end)
      && userId == (if Admits(data) then UserIdOf(data.value) else None)
  {
    var data := redis.ConsumeWsTicket(ticket, now, failure);
    if !Admits(data) {
      events := [Closed(WS_1008_POLICY_VIOLATION)];
      userId := None;
      return;
    }
    events := [Accepted];
    userId := UserIdOf(data.value);
    var replies := EchoLoop(inbox);
    events := events + replies;
    if end == Crashed {
      events := events + [Closed(WS_1000_NORMAL_CLOSURE)];
    }
  }

  /** The gate: the socket is accepted exactly when the ticket admits it, and then acceptance comes first and
      every message gets its reply; otherwise the only thing that happens is a close with 1008, so no message
      is ever answered on a socket that was not accepted. */
  lemma GateDecidesBeforeAnything(data: Option<Payload>, inbox: seq<string>, end: StreamEnd)
    ensures var t := Transcript(data, inbox, end);
      && (Accepted in t <==> Admits(data))
      && (!Admits(data) ==> t == [Closed(WS_1008_POLICY_VIOLATION)])
      && (Admits(data) ==>
            && t[0] == Accepted
            && Accepted !in t[1..]
            && (forall i :: 0 <= i < |inbox| ==> t[i + 1] == Sent(Reply(inbox[i])))
            && |t| == 1 + |inbox| + (if end == Crashed then 1 else 0))
  {
  }

  /** A ticket opens at most one socket: whatever the cache holds, of two connections presenting the same
      ticket one after the other, at most one is accepted. */
  lemma TicketOpensAtMostOneSocket(store: Store, ticket: string, now: int, later: int,
                                   inbox: seq<string>, end: StreamEnd, inbox': seq<string>, end': StreamEnd)
    ensures var (afterFirst, first) := Cache.ConsumeWsTicket(store, ticket, now);
            var (_, second) := Cache.ConsumeWsTicket(afterFirst, ticket, later);
      !(Accepted in Transcript(first, inbox, end) && Accepted in Transcript(second, inbox', end'))
  {
    var (afterFirst, first) := Cache.ConsumeWsTicket(store, ticket, now);
    var (_, second) := Cache.ConsumeWsTicket(afterFirst, ticket, later);
    ConsumeAtMostOnce(store, ticket, now, later);
    GateDecidesBeforeAnything(first, inbox, end);
    GateDecidesBeforeAnything(second, inbox', end');
  }

  /** A ticket issued with a non-empty payload and a positive lifetime admits the first connection that
      presents it before it expires, for that payload's user, and is refused to the next with 1008. */
  lemma IssuedTicketAdmitsOnce(store: Store, ticket: string, data: Payload, ttl: int, now: int, later: int,
                               last: int, inbox: seq<string>, end: StreamEnd, inbox': seq<string>, end': StreamEnd)
    requires data != map[] && ttl > 0 && now <= later < now + ttl
    ensures SetWsTicket(store, ticket, data, ttl, now).Ok?
    ensures var (afterFirst, first) := Cache.ConsumeWsTicket(SetWsTicket(store, ticket, data, ttl, now).value, ticket, later);
            var (_, second) := Cache.ConsumeWsTicket(afterFirst, ticket, last);
      && first == Some(data)
      && Transcript(first, inbox, end)[0] == Accepted
      && UserIdOf(first.value) == (if "user_id" in data then Some(data["user_id"]) else None)
      && Transcript(second, inbox', end') == [Closed(WS_1008_POLICY_VIOLATION)]
  {
    TicketRoundTrip(store, ticket, data, ttl, now, later, last);
  }
}
