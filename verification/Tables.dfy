/** The three tables and the four kinds of call that change them, one call at a time. */
module Tables {
  import opened KeyMutexes
  import opened Rows
  import opened Updates

  datatype DB = DB(chats: map<int, Chat>, members: map<(int, int), Member>, users: map<int, User>)

  datatype Op =
    | ChatOp(info: Info, canWrite: bool, ban: bool)
    | MemberOp(chatID: int, memberID: int, event: Membership)
    | UserOp(userID: int, info: Info)
    | MigrateOp(oldID: int, newID: int)

  const STRIPES: nat := 47

  /** The id whose stripe a call locks. */
  function LockKey(op: Op): int
    requires !op.MigrateOp?
  {
    match op
    case ChatOp(info, _, _) => info.chatID
    case MemberOp(chatID, _, _) => chatID
    case UserOp(userID, _) => userID
  }

  function StripeOf(op: Op): (k: nat)
    requires !op.MigrateOp?
    ensures k < STRIPES
  {
    Stripe(ToUnsigned(LockKey(op)), STRIPES)
  }

  /** The row a call works on, as it reads it. */
  datatype Row = ChatRow(chat: Option<Chat>) | MemberRow(member: Option<Member>) | UserRow(user: Option<User>)

  function ReadRow(db: DB, op: Op): Row
    requires !op.MigrateOp?
  {
    match op
    case ChatOp(info, _, _) => ChatRow(Lookup(db.chats, info.chatID))
    case MemberOp(chatID, memberID, _) => MemberRow(Lookup(db.members, (chatID, memberID)))
    case UserOp(userID, _) => UserRow(Lookup(db.users, userID))
  }

  predicate FitsRow(op: Op, row: Row) {
    match op
    case ChatOp(_, _, _) => row.ChatRow?
    case MemberOp(_, _, _) => row.MemberRow?
    case UserOp(_, _) => row.UserRow?
    case MigrateOp(_, _) => false
  }

  /** The row a call computes from what it has read is written back. */
  function WriteRow(db: DB, op: Op, row: Row): DB
    requires FitsRow(op, row)
  {
    match op
    case ChatOp(info, canWrite, ban) =>
      db.(chats := db.chats[info.chatID := UpdatedChat(row.chat, info, canWrite, ban)])
    case MemberOp(chatID, memberID, event) =>
      db.(members := db.members[(chatID, memberID) := UpdatedMember(row.member, event)])
    case UserOp(userID, info) =>
      db.(users := db.users[userID := UpdatedUser(row.user, info)])
  }

  /** One whole call with nothing else going on. */
  function Perform(db: DB, op: Op): DB {
    match op
    case MigrateOp(oldID, newID) => db.(chats := MigratedTable(db.chats, oldID, newID))
    case _ => WriteRow(db, op, ReadRow(db, op))
  }

  /** What a call tells its caller: user calls stamp their event, the others say nothing. */
  function Answer(op: Op, row: Row): Option<Stamp>
    requires FitsRow(op, row)
  {
    if op.UserOp? then Some(StampOf(UpdatedUser(row.user, op.info))) else None
  }
}
