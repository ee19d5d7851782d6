/** The rows of the chat, member and user tables, and how one event changes one row.

    Times are nanoseconds.  A row is `None` while the table has no record of it.
 */
module Rows {
  import opened Updates

  /** What an event says about itself, as far as the tables are concerned. */
  datatype Info = Info(chatID: int, chatType: string, referer: string, timestamp: int, updateSession: bool)

  function Later(a: int, b: int): int {
    if a > b then a else b
  }

  // ----- chats -----

  datatype Chat = Chat(
    chatType: string, migratedFrom: int,
    firstAction: int, lastAction: int, lastUpdate: int,
    referer: string, canWrite: bool, wasBanned: bool)

  function UpdatedChat(row: Option<Chat>, info: Info, canWrite: bool, ban: bool): Chat {
    match row
    case None =>
      Chat(info.chatType, 0, info.timestamp, info.timestamp, info.timestamp, info.referer, canWrite, ban)
    case Some(chat) =>
      var c1 := chat.(lastAction := Later(chat.lastAction, info.timestamp));
      var c2 := if info.timestamp >= c1.lastUpdate && info.chatType != "" && c1.chatType != info.chatType
                then c1.(chatType := info.chatType, lastUpdate := info.timestamp) else c1;
      if info.timestamp >= c2.lastUpdate && (canWrite || ban)
      then c2.(canWrite := !ban && (c2.canWrite || canWrite), wasBanned := c2.wasBanned || ban,
               lastUpdate := info.timestamp)
      else c2
  }

  /** The row that a migrated chat gets under its new id. */
  function MigratedChat(chat: Chat, oldID: int, target: Option<Chat>): Chat {
    var base := match target
      case None => Chat("", 0, 0, chat.lastAction, chat.lastUpdate, "", false, false)
      case Some(found) => found;
    base.(migratedFrom := oldID, firstAction := chat.firstAction, referer := chat.referer,
          canWrite := chat.canWrite, wasBanned := chat.wasBanned)
  }

  function Lookup<K, R>(table: map<K, R>, key: K): Option<R> {
    if key in table then Some(table[key]) else None
  }

  function MigratedTable(chats: map<int, Chat>, oldID: int, newID: int): map<int, Chat> {
    if oldID == newID || oldID !in chats then chats
    else chats[newID := MigratedChat(chats[oldID], oldID, Lookup(chats, newID))] - {oldID}
  }

  // ----- members -----

  datatype Member = Member(
    firstJoin: Option<int>, lastJoin: Option<int>, lastLeave: Option<int>,
    lastAction: int, isMember: bool,
    firstJoinActor: int, lastJoinActor: int, lastLeaveActor: int, joinUrl: string)

  datatype Membership = Membership(timestamp: int, join: bool, leave: bool, url: string, actor: int)

  predicate NotBefore(timestamp: int, limit: Option<int>) {
    limit.None? || timestamp >= limit.value
  }

  /** The row the table gets when a record is created.  The membership column has the default
      true, and on insertion the ORM takes a false for a field that was left unset.  All other
      defaults are the zero values themselves. */
  function Inserted(m: Member): Member {
    if m.isMember then m else m.(isMember := true)
  }

  function UpdatedMember(row: Option<Member>, e: Membership): Member {
    match row
    case None =>
      Inserted(
        if e.join then
          Member(Some(e.timestamp), Some(e.timestamp), None, e.timestamp, !e.leave, e.actor, e.actor, 0, e.url)
        else if e.leave then
          Member(None, None, Some(e.timestamp), e.timestamp, false, 0, 0, e.actor, "")
        else
          Member(None, None, None, e.timestamp, true, 0, 0, 0, ""))
    case Some(m) =>
      var canApply := NotBefore(e.timestamp, m.lastJoin) && NotBefore(e.timestamp, m.lastLeave);
      var m1 := if canApply && e.join
                then m.(lastJoin := Some(e.timestamp), lastJoinActor := e.actor, isMember := true,
                        joinUrl := if m.joinUrl == "" then e.url else m.joinUrl)
                else m;
      var m2 := if canApply && e.leave
                then m1.(lastLeave := Some(e.timestamp), lastLeaveActor := e.actor, isMember := false)
                else m1;
      m2.(lastAction := Later(e.timestamp, m2.lastAction))
  }

  // ----- users -----

  datatype User = User(firstAction: int, lastAction: int, referer: string, sessionID: int, sessionReferer: string)

  /** What an event is told about its user. */
  datatype Stamp = Stamp(sessionID: int, referer: string, sessionReferer: string, userCreatedAt: int)

  const FIVE_MINUTES := 5 * 60 * 1_000_000_000

  /** Session numbers are 16-bit and wrap around. */
  function Wrap16(n: int): int {
    (n + 0x8000) % 0x1_0000 - 0x8000
  }

  function UpdatedUser(row: Option<User>, info: Info): User {
    match row
    case None => User(info.timestamp, info.timestamp, info.referer, 1, info.referer)
    case Some(user) =>
      if !info.updateSession then user
      else if user.lastAction < info.timestamp - FIVE_MINUTES then
        user.(sessionID := Wrap16(user.sessionID + 1), sessionReferer := info.referer, lastAction := info.timestamp)
      else user.(lastAction := info.timestamp)
  }

  function StampOf(user: User): Stamp {
    Stamp(user.sessionID, user.referer, user.sessionReferer, user.firstAction)
  }
}
