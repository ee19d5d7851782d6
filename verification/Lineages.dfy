/** What a migration does to the chat table, and what a chat keeps along any chain of updates and
    migrations.
 */
module Lineages {
  import opened Interleaving
  import opened Rows
  import opened Tables
  import opened Updates

  /** The call moves a row. */
  predicate Moves(db: DB, op: Op) {
    op.MigrateOp? && op.oldID != op.newID && op.oldID in db.chats
  }

  /** After a migration the old id is gone.  The row of the new id has the old row's first action,
      referer, write permission and ban flag, and names the old id; its type and its two later times
      are those of the row that was there already, or else no type and the old row's times.  No
      other row and no other table changes. */
  lemma MigrationMoves(db: DB, oldID: int, newID: int)
    requires Moves(db, MigrateOp(oldID, newID))
    ensures var after := Perform(db, MigrateOp(oldID, newID));
      oldID !in after.chats && newID in after.chats && after.members == db.members && after.users == db.users
    ensures var row, moved := Perform(db, MigrateOp(oldID, newID)).chats[newID], db.chats[oldID];
      && row.firstAction == moved.firstAction && row.referer == moved.referer
      && row.canWrite == moved.canWrite && row.wasBanned == moved.wasBanned && row.migratedFrom == oldID
      && var found := Lookup(db.chats, newID);
      if found.Some? then
        row.chatType == found.value.chatType && row.lastAction == found.value.lastAction
        && row.lastUpdate == found.value.lastUpdate
      else row.chatType == "" && row.lastAction == moved.lastAction && row.lastUpdate == moved.lastUpdate
    ensures forall id :: id != oldID && id != newID ==>
      Lookup(Perform(db, MigrateOp(oldID, newID)).chats, id) == Lookup(db.chats, id)
  {
  }

  /** A migration of an unknown chat, or onto itself, changes nothing. */
  lemma NoMigration(db: DB, oldID: int, newID: int)
    requires !Moves(db, MigrateOp(oldID, newID))
    ensures Perform(db, MigrateOp(oldID, newID)) == db
  {
  }

  /** Any other call changes the one row it is about, and no other. */
  lemma OthersUntouched(db: DB, op: Op)
    requires !op.MigrateOp?
    ensures var after := Perform(db, op);
      && (forall id :: Lookup(after.chats, id) == Lookup(db.chats, id) || (op.ChatOp? && id == op.info.chatID))
      && (forall key :: Lookup(after.members, key) == Lookup(db.members, key)
                        || (op.MemberOp? && key == (op.chatID, op.memberID)))
      && (forall id :: Lookup(after.users, id) == Lookup(db.users, id) || (op.UserOp? && id == op.userID))
  {
  }

  /** Where the chat that has the id after the call was before. */
  function Before(db: DB, op: Op, id: int): int {
    if Moves(db, op) && op.newID == id then op.oldID else id
  }

  /** Where the chat that has the id after all the calls was after the first m of them; None if it
      did not exist then. */
  function Origin(db: DB, ops: seq<Op>, order: seq<nat>, m: nat, id: int): Option<int>
    requires Indices(ops, order)
  {
    if |order| <= m then Some(id)
    else
      var front, op := order[..|order| - 1], ops[order[|order| - 1]];
      var mid := Serial(db, ops, front);
      if Before(mid, op, id) in mid.chats then Origin(db, ops, front, m, Before(mid, op, id)) else None
  }

  /** What a chat never loses. */
  ghost predicate Inherits(was: Chat, now: Chat) {
    now.firstAction == was.firstAction && now.referer == was.referer && (was.wasBanned ==> now.wasBanned)
  }

  /** The row was created by the event. */
  ghost predicate BornOf(op: Op, now: Chat) {
    op.ChatOp? && now.firstAction == op.info.timestamp && now.referer == op.info.referer
    && (op.ban ==> now.wasBanned)
  }

  lemma StepInherits(db: DB, op: Op, id: int)
    requires id in Perform(db, op).chats
    ensures var now := Perform(db, op).chats[id];
      if Before(db, op, id) in db.chats then Inherits(db.chats[Before(db, op, id)], now) else BornOf(op, now)
  {
  }

  /** Along any chain of updates and migrations, of this chat and of all others: the row has the
      first action and the referer of the row that the chat had at an earlier moment m, whatever its
      id was then, and is banned if that was; or it has those of the event that has created the chat
      since. */
  lemma {:induction false} LineageKeeps(db: DB, ops: seq<Op>, order: seq<nat>, m: nat, id: int)
    requires Indices(ops, order) && m <= |order| && id in Serial(db, ops, order).chats
    ensures var now := Serial(db, ops, order).chats[id];
      match Origin(db, ops, order, m, id)
      case Some(was) => was in Serial(db, ops, order[..m]).chats
                        && Inherits(Serial(db, ops, order[..m]).chats[was], now)
      case None => exists k :: m <= k < |order| && BornOf(ops[order[k]], now)
  {
    if m == |order| {
      assert order[..m] == order;
    } else {
      hide Perform;
      var last := |order| - 1;
      var front, op := order[..last], ops[order[last]];
      var mid := Serial(db, ops, front);
      var b := Before(mid, op, id);
      StepInherits(mid, op, id);
      if b in mid.chats {
        LineageKeeps(db, ops, front, m, b);
        assert front[..m] == order[..m];
      }
    }
  }

  /** After any concurrent run every chat has the first action and referer of the row that it had
      at the start, under whichever id, or else of one of the events. */
  lemma FinalLineages(db0: DB, ops: seq<Op>, ss: seq<Sys>, ts: seq<nat>, id: int)
    requires IsRun(db0, ops, ss, ts) && AllDone(ss[|ts|]) && id in ss[|ts|].db.chats
    ensures var now := ss[|ts|].db.chats[id];
      || (exists was :: was in db0.chats && Inherits(db0.chats[was], now))
      || (exists t: nat :: t < |ops| && BornOf(ops[t], now))
  {
    Serialisable(db0, ops, ss, ts);
    var order := ss[|ts|].order;
    LineageKeeps(db0, ops, order, 0, id);
    assert order[..0] == [];
    if Origin(db0, ops, order, 0, id).None? {
      var k :| 0 <= k < |order| && BornOf(ops[order[k]], ss[|ts|].db.chats[id]);
      assert order[k] < |ops|;
    }
  }
}
