/** The users service of the gateway: the handler that mirrors user events
    from the message bus into the local `users` table, and the lookup of a
    token's email-verification status. */
module Users {
  import opened Wrappers
  import opened Entities
  import opened Auth

  const RABBIT_DELETE_TYPE: string := "DELETE"
  const RABBIT_UPDATE_TYPE: string := "UPDATE"
  const RABBIT_CREATE_TYPE: string := "CREATE"

  /** The `data` object of a user event, its timestamps already parsed. */
  datatype UserData = UserData(
    id: int,
    email: string,
    name: string,
    surname: string,
    hashedPassword: string,
    createdAt: int,
    updatedAt: int)

  /** A user event: `{"type": ..., "data": ...}`. */
  datatype Message = Message(msgType: string, data: UserData)

  /** The row an UPDATE for an unknown id inserts: the event's columns, email not yet verified. */
  function NewUser(data: UserData): User
  {
    User(data.email, false, data.hashedPassword, data.createdAt, data.updatedAt)
  }

  /** The columns an UPDATE for a known id overwrites; `name` and `surname` are assigned too, but the table has
      no column to keep them. */
  function Overwritten(user: User, data: UserData): User
  {
    user.(email := data.email, hashedPassword := data.hashedPassword, updatedAt := data.updatedAt)
  }

  /** `db.delete(user)` with the `delete-orphan` cascade from `User.sessions`: the user row and the rows of its
      sessions go. */
  function DeleteUser(db: Db, id: int): (r: Db)
    ensures r.users.Keys == db.users.Keys - {id}
    ensures forall s :: s in r.sessions <==> s in db.sessions && db.sessions[s].userId != id
  {
    db.(users := map u | u in db.users && u != id :: db.users[u],
        sessions := map s | s in db.sessions && db.sessions[s].userId != id :: db.sessions[s])
  }

  /** `update_from_rabbitMQ` as the handler is meant to behave: UPDATE upserts the user, DELETE removes it,
      CREATE and any other type are ignored. */
  function ApplyMessage(db: Db, msg: Message): Db
  {
    var id := msg.data.id;
    if msg.msgType == RABBIT_UPDATE_TYPE then
      if id !in db.users then db.(users := db.users[id := NewUser(msg.data)])
      else db.(users := db.users[id := Overwritten(db.users[id], msg.data)])
    else if msg.msgType == RABBIT_DELETE_TYPE then
      if id in db.users then DeleteUser(db, id) else db
    else
      db
  }

  /** `update_from_rabbitMQ` as written: the insert builds `User(..., name=..., surname=...)`, and the mapped
      `User` class has no such attributes, so the declarative constructor raises `TypeError`, which the handler
      turns into an `OrientatiException`. Everything else is as in `ApplyMessage`. */
  function ApplyMessageAsWritten(db: Db, msg: Message): Result<Db, GatewayError>
  {
    if msg.msgType == RABBIT_UPDATE_TYPE && msg.data.id !in db.users then
      Err(Failure("users/update_from_rabbitMQ"))
    else
      Ok(ApplyMessage(db, msg))
  }

  /** `get_email_status_from_token`: the session of the token, then its user, then the user's flag. */
  function EmailStatus(db: Db, reply: VerifyReply): (r: Result<bool, GatewayError>)
    ensures GetSessionIdFromToken(reply).Err? ==> r == Err(GetSessionIdFromToken(reply).error)
    ensures GetSessionIdFromToken(reply).Ok? ==>
      var sid := GetSessionIdFromToken(reply).value;
      && (sid !in db.sessions ==> r == Err(NotFound("Session not found")))
      && (sid in db.sessions && db.sessions[sid].userId !in db.users ==> r == Err(NotFound("User not found")))
      && (sid in db.sessions && db.sessions[sid].userId in db.users ==>
            r == Ok(db.users[db.sessions[sid].userId].emailVerified))
    ensures r.Ok? ==> reply.claims.Some? && reply.claims.value.verified
  {
    match GetSessionIdFromToken(reply)
    case Err(e) => Err(e)
    case Ok(sid) =>
      if sid !in db.sessions then Err(NotFound("Session not found"))
      else if db.sessions[sid].userId !in db.users then Err(NotFound("User not found"))
      else Ok(db.users[db.sessions[sid].userId].emailVerified)
  }

  /** An UPDATE for an unknown id inserts the user built from the event and touches nothing else. */
  lemma UpdateInsertsUnknownUser(db: Db, data: UserData)
    requires data.id !in db.users
    ensures var r := ApplyMessage(db, Message(RABBIT_UPDATE_TYPE, data));
      && r.users == db.users[data.id := User(data.email, false, data.hashedPassword, data.createdAt, data.updatedAt)]
      && r.(users := db.users) == db
  {
  }

  /** An UPDATE for a known id overwrites email, password hash and update time, and keeps the id, the creation
      time and the verification flag; no other user and no other table changes. */
  lemma UpdateOverwritesKnownUser(db: Db, data: UserData)
    requires data.id in db.users
    ensures var r := ApplyMessage(db, Message(RABBIT_UPDATE_TYPE, data));
            var u := r.users[data.id];
      && r.users.Keys == db.users.Keys
      && u.email == data.email && u.hashedPassword == data.hashedPassword && u.updatedAt == data.updatedAt
      && u.createdAt == db.users[data.id].createdAt
      && u.emailVerified == db.users[data.id].emailVerified
      && (forall other :: other in db.users && other != data.id ==> r.users[other] == db.users[other])
      && r.(users := db.users) == db
  {
  }

  /** Events arrive at least once: applying the same event twice leaves the store as applying it once. */
  lemma ApplyMessageIsIdempotent(db: Db, msg: Message)
    ensures ApplyMessage(ApplyMessage(db, msg), msg) == ApplyMessage(db, msg)
  {
  }

  /** A DELETE removes exactly that user and its sessions; a DELETE for an absent id changes nothing. */
  lemma DeleteRemovesOnlyThatUser(db: Db, id: int, data: UserData)
    requires data.id == id
    ensures var r := ApplyMessage(db, Message(RABBIT_DELETE_TYPE, data));
      && (id !in db.users ==> r == db)
      && (id in db.users ==>
            && r.users.Keys == db.users.Keys - {id}
            && (forall u :: u in r.users ==> r.users[u] == db.users[u])
            && (forall s :: s in r.sessions <==> s in db.sessions && db.sessions[s].userId != id)
            && (forall s :: s in r.sessions ==> r.sessions[s] == db.sessions[s])
            && r.accessTokens == db.accessTokens && r.refreshTokens == db.refreshTokens)
  {
  }

  /** CREATE events and events of any other type leave the store as it was. */
  lemma OtherMessagesChangeNothing(db: Db, msg: Message)
    requires msg.msgType != RABBIT_UPDATE_TYPE && msg.msgType != RABBIT_DELETE_TYPE
    ensures ApplyMessage(db, msg) == db
    ensures ApplyMessage(db, msg.(msgType := RABBIT_CREATE_TYPE)) == db
  {
  }

  /** The handler as written fails on exactly one kind of event, an UPDATE for an id that is not mirrored yet,
      and there it inserts nothing; on every other event it agrees with `ApplyMessage`. */
  lemma UpdateOfUnknownUserFailsAsWritten(db: Db, msg: Message)
    ensures ApplyMessageAsWritten(db, msg).Err? <==> msg.msgType == RABBIT_UPDATE_TYPE && msg.data.id !in db.users
    ensures ApplyMessageAsWritten(db, msg).Ok? ==> ApplyMessageAsWritten(db, msg).value == ApplyMessage(db, msg)
    ensures msg.msgType == RABBIT_UPDATE_TYPE && msg.data.id !in db.users ==>
              msg.data.id in ApplyMessage(db, msg).users
  {
  }
}
