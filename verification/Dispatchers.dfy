/** The dispatcher's calls as the Go code writes them, each run without interruption.  Other calls
    may hold locks meanwhile, as long as the call would not block.
 */
module Dispatchers {
  import opened KeyMutexes
  import opened Rows
  import opened Tables
  import opened Updates

  /** A reader/writer lock; as with the key mutex, a caller must find it free. */
  class RWMutex {
    var readers: nat
    var writing: bool

    constructor ()
      ensures readers == 0 && !writing
    {
      readers, writing := 0, false;
    }

    method RLock()
      requires !writing
      modifies this
      ensures readers == old(readers) + 1 && !writing
    {
      readers := readers + 1;
    }

    method RUnlock()
      requires readers > 0
      modifies this
      ensures readers == old(readers) - 1 && writing == old(writing)
    {
      readers := readers - 1;
    }

    method Lock()
      requires readers == 0 && !writing
      modifies this
      ensures readers == 0 && writing
    {
      writing := true;
    }

    method Unlock()
      requires writing
      modifies this
      ensures readers == old(readers) && !writing
    {
      writing := false;
    }
  }

  class UpdateDispatcher {
    const keymutex: KeyMutex
    const chatIDMutex: RWMutex
    var chats: map<int, Chat>
    var members: map<(int, int), Member>
    var users: map<int, User>

    function Value(): DB
      reads this
    {
      DB(chats, members, users)
    }

    ghost predicate Valid() {
      keymutex.Valid() && keymutex.count == STRIPES
    }

    /** The stripe of id is free; other stripes may be held by other calls. */
    ghost predicate StripeFree(id: int)
      requires Valid()
      reads keymutex.locks
    {
      !keymutex.locks[Stripe(ToUnsigned(id), STRIPES)]
    }

    /** Who holds which lock. */
    ghost function Held(): (nat, bool, seq<bool>)
      reads chatIDMutex, keymutex.locks
    {
      (chatIDMutex.readers, chatIDMutex.writing, keymutex.locks[..])
    }

    constructor ()
      ensures Valid() && Value() == DB(map[], map[], map[])
      ensures Held() == (0, false, seq(STRIPES, _ => false))
      ensures fresh(chatIDMutex) && fresh(keymutex) && fresh(keymutex.locks)
    {
      keymutex := new KeyMutex(STRIPES);
      chatIDMutex := new RWMutex();
      chats, members, users := map[], map[], map[];
      new;
      assert keymutex.locks[..] == seq(STRIPES, _ => false);
    }

    method UpdateChat(info: Info, canWrite: bool, ban: bool)
      requires Valid() && !chatIDMutex.writing && StripeFree(info.chatID)
      modifies this, chatIDMutex, keymutex.locks
      ensures Value() == Perform(old(Value()), ChatOp(info, canWrite, ban)) && Held() == old(Held())
    {
      chatIDMutex.RLock();
      keymutex.LockID(ToUnsigned(info.chatID));
      if info.chatID !in chats {
        chats := chats[info.chatID := Chat(info.chatType, 0, info.timestamp, info.timestamp, info.timestamp,
                                           info.referer, canWrite, ban)];
      } else {
        var chat := chats[info.chatID];
        chat := chat.(lastAction := Later(chat.lastAction, info.timestamp));
        if info.timestamp >= chat.lastUpdate && info.chatType != "" && chat.chatType != info.chatType {
          chat := chat.(chatType := info.chatType);
          chat := chat.(lastUpdate := info.timestamp);
        }
        if info.timestamp >= chat.lastUpdate && (canWrite || ban) {
          chat := chat.(canWrite := !ban && (chat.canWrite || canWrite));
          chat := chat.(wasBanned := chat.wasBanned || ban);
          chat := chat.(lastUpdate := info.timestamp);
        }
        chats := chats[info.chatID := chat];
      }
      keymutex.UnlockID(ToUnsigned(info.chatID));
      chatIDMutex.RUnlock();
      assert keymutex.locks[..] == old(keymutex.locks[..]);
    }

    method UpdateChatID(oldID: int, newID: int)
      requires Valid() && (oldID != newID ==> chatIDMutex.readers == 0 && !chatIDMutex.writing)
      modifies this, chatIDMutex
      ensures Value() == Perform(old(Value()), MigrateOp(oldID, newID)) && Held() == old(Held())
    {
      if oldID == newID {
        return;
      }
      chatIDMutex.Lock();
      if oldID in chats {
        var chat := chats[oldID];
        var newChat := Chat("", 0, 0, 0, 0, "", false, false);
        if newID in chats {
          newChat := chats[newID];
        } else {
          newChat := newChat.(lastAction := chat.lastAction, lastUpdate := chat.lastUpdate);
        }
        newChat := newChat.(migratedFrom := oldID);
        newChat := newChat.(firstAction := chat.firstAction, referer := chat.referer);
        newChat := newChat.(canWrite := chat.canWrite, wasBanned := chat.wasBanned);
        chats := chats[newID := newChat];
        chats := chats - {oldID};
      }
      chatIDMutex.Unlock();
    }

    method UpdateChatMember(chatID: int, memberID: int, e: Membership)
      requires Valid() && !chatIDMutex.writing && StripeFree(chatID)
      modifies this, chatIDMutex, keymutex.locks
      ensures Value() == Perform(old(Value()), MemberOp(chatID, memberID, e)) && Held() == old(Held())
    {
      chatIDMutex.RLock();
      keymutex.LockID(ToUnsigned(chatID));
      var key := (chatID, memberID);
      var m := Member(None, None, None, 0, false, 0, 0, 0, "");
      if key !in members && e.join {
        m := m.(firstJoin := Some(e.timestamp), lastJoin := Some(e.timestamp), lastAction := e.timestamp);
        m := m.(joinUrl := e.url, firstJoinActor := e.actor, lastJoinActor := e.actor, isMember := !e.leave);
        m := Inserted(m);
      } else if key !in members && e.leave {
        m := m.(lastLeave := Some(e.timestamp), lastAction := e.timestamp, lastLeaveActor := e.actor);
        m := m.(isMember := false);
        m := Inserted(m);
      } else if key !in members {
        m := m.(lastAction := e.timestamp, isMember := true);
        m := Inserted(m);
      } else {
        m := members[key];
        var canApplyJoin := m.lastJoin.None? || !(e.timestamp < m.lastJoin.value);
        var canApplyLeave := m.lastLeave.None? || !(e.timestamp < m.lastLeave.value);
        var canApply := canApplyJoin && canApplyLeave;
        if canApply && e.join {
          m := m.(lastJoin := Some(e.timestamp), lastJoinActor := e.actor, isMember := true);
          if m.joinUrl == "" {
            m := m.(joinUrl := e.url);
          }
        }
        if canApply && e.leave {
          m := m.(lastLeave := Some(e.timestamp), lastLeaveActor := e.actor, isMember := false);
        }
        m := m.(lastAction := Later(e.timestamp, m.lastAction));
      }
      members := members[key := m];
      keymutex.UnlockID(ToUnsigned(chatID));
      chatIDMutex.RUnlock();
      assert keymutex.locks[..] == old(keymutex.locks[..]);
    }

    method AddUserInfoToEvent(userID: int, info: Info) returns (stamp: Stamp)
      requires Valid() && StripeFree(userID)
      modifies this, keymutex.locks
      ensures Value() == Perform(old(Value()), UserOp(userID, info)) && Held() == old(Held())
      ensures Some(stamp) == Answer(UserOp(userID, info), ReadRow(old(Value()), UserOp(userID, info)))
    {
      keymutex.LockID(ToUnsigned(userID));
      var user: User;
      if userID !in users {
        user := User(info.timestamp, info.timestamp, info.referer, 1, info.referer);
        users := users[userID := user];
      } else {
        user := users[userID];
        if info.updateSession {
          if user.lastAction < info.timestamp - FIVE_MINUTES {
            user := user.(sessionID := Wrap16(user.sessionID + 1), sessionReferer := info.referer);
          }
          user := user.(lastAction := info.timestamp);
          users := users[userID := user];
        }
      }
      stamp := Stamp(user.sessionID, user.referer, user.sessionReferer, user.firstAction);
      keymutex.UnlockID(ToUnsigned(userID));
      assert keymutex.locks[..] == old(keymutex.locks[..]);
    }
  }
}
