/** What a row looks like after any history of events on it. */
module RowHistories {
  import opened Rows
  import opened Updates

  // ----- chats -----

  datatype ChatEvent = ChatEvent(info: Info, canWrite: bool, ban: bool)

  function ChatAfter(es: seq<ChatEvent>): Option<Chat> {
    if es == [] then None
    else
      var e := es[|es| - 1];
      Some(UpdatedChat(ChatAfter(es[..|es| - 1]), e.info, e.canWrite, e.ban))
  }

  /** t is the latest time of the events. */
  ghost predicate IsLatest(es: seq<ChatEvent>, t: int) {
    (exists e :: e in es && e.info.timestamp == t) && forall e :: e in es ==> e.info.timestamp <= t
  }

  /** Whatever the order in which events arrive, the last action is the latest of them, and no
      update is later than it. */
  lemma {:induction false} ChatLastAction(es: seq<ChatEvent>)
    requires es != []
    ensures IsLatest(es, ChatAfter(es).value.lastAction)
    ensures ChatAfter(es).value.lastUpdate <= ChatAfter(es).value.lastAction
  {
    var front, last := es[..|es| - 1], es[|es| - 1];
    assert last in es && forall e :: e in es <==> e in front || e == last;
    if front != [] {
      ChatLastAction(front);
    }
  }

  /** The update time never goes back, and a ban is never forgotten. */
  lemma {:induction false} ChatOnlyAdvances(es: seq<ChatEvent>, n: nat)
    requires 0 < n <= |es|
    ensures var was, now := ChatAfter(es[..n]).value, ChatAfter(es).value;
      && was.lastUpdate <= now.lastUpdate
      && (was.wasBanned ==> now.wasBanned)
      && was.firstAction == now.firstAction && was.referer == now.referer
  {
    if n < |es| {
      ChatOnlyAdvances(es[..|es| - 1], n);
      assert es[..|es| - 1][..n] == es[..n];
    } else {
      assert es[..n] == es;
    }
  }

  /** Event i is newer than all others, and says that the chat can be written to or that it has
      banned the bot. */
  ghost predicate LastWord(es: seq<ChatEvent>, i: nat) {
    && i < |es| && (es[i].ban <==> !es[i].canWrite)
    && forall j :: 0 <= j < |es| && j != i ==> es[j].info.timestamp < es[i].info.timestamp
  }

  /** Whatever the order in which the events came: the newest one decides whether the chat can be
      written to, its ban is remembered, and the type of the chat is the one it names. */
  lemma {:induction false} LastWordHolds(es: seq<ChatEvent>, i: nat)
    requires LastWord(es, i)
    ensures var chat := ChatAfter(es).value;
      && chat.canWrite == es[i].canWrite && (es[i].ban ==> chat.wasBanned)
      && chat.lastUpdate == es[i].info.timestamp
      && (es[i].info.chatType != "" ==> chat.chatType == es[i].info.chatType)
  {
    var front, last := es[..|es| - 1], es[|es| - 1];
    if i == |es| - 1 {
      if front != [] {
        ChatLastAction(front);
        assert forall e :: e in front ==> e.info.timestamp < last.info.timestamp;
      }
    } else {
      LastWordHolds(front, i);
      assert es[|es| - 1].info.timestamp < es[i].info.timestamp;
    }
  }

  // ----- members -----

  function MemberAfter(es: seq<Membership>): Option<Member> {
    if es == [] then None else Some(UpdatedMember(MemberAfter(es[..|es| - 1]), es[|es| - 1]))
  }

  predicate Decides(e: Membership) {
    e.join || e.leave
  }

  /** Event i is the last-arriving one among the deciding events of greatest time. */
  ghost predicate LastWriter(es: seq<Membership>, i: nat) {
    && i < |es| && Decides(es[i])
    && forall j :: 0 <= j < |es| && Decides(es[j]) ==>
         es[j].timestamp < es[i].timestamp || (es[j].timestamp == es[i].timestamp && j <= i)
  }

  /** The later of the two times recorded in a row. */
  function DecidedAt(m: Member): Option<int> {
    match (m.lastJoin, m.lastLeave)
    case (None, leave) => leave
    case (join, None) => join
    case (Some(j), Some(l)) => Some(Later(j, l))
  }

  /** The newest decision is a leave, and it is what created the row. */
  ghost predicate LeaveCreatedRow(es: seq<Membership>) {
    LastWriter(es, 0) && es[0].leave
  }

  lemma {:induction false} MemberFollowsWriter(es: seq<Membership>, i: nat)
    requires LastWriter(es, i)
    ensures MemberAfter(es).value.isMember <==> !es[i].leave || i == 0
    ensures DecidedAt(MemberAfter(es).value) == Some(es[i].timestamp)
  {
    var front, last := es[..|es| - 1], es[|es| - 1];
    if i < |es| - 1 {
      assert LastWriter(front, i);
      MemberFollowsWriter(front, i);
    } else if exists k: nat :: k < |front| && Decides(front[k]) {
      var k := WriterExists(front);
      MemberFollowsWriter(front, k);
    } else if front != [] {
      UndecidedMember(front);
    }
  }

  lemma {:induction false} UndecidedMember(es: seq<Membership>)
    requires es != [] && forall j :: 0 <= j < |es| ==> !Decides(es[j])
    ensures MemberAfter(es).value.isMember && DecidedAt(MemberAfter(es).value) == None
  {
    if |es| > 1 {
      UndecidedMember(es[..|es| - 1]);
    }
  }

  lemma {:induction false} WriterExists(es: seq<Membership>) returns (i: nat)
    requires exists k: nat :: k < |es| && Decides(es[k])
    ensures LastWriter(es, i)
  {
    var front, last := es[..|es| - 1], es[|es| - 1];
    if exists k: nat :: k < |front| && Decides(front[k]) {
      i := WriterExists(front);
      if Decides(last) && last.timestamp >= es[i].timestamp {
        i := |es| - 1;
      }
    } else {
      i := |es| - 1;
    }
  }

  /** Membership is a last-writer-wins register, and true while nothing has been decided, but
      for one case: a leave that creates the row, and has nothing newer after it, is not heard. */
  lemma MembershipIsLastWriterWins(es: seq<Membership>)
    requires es != []
    ensures forall i: nat :: LastWriter(es, i) ==>
      (MemberAfter(es).value.isMember == !es[i].leave <==> !LeaveCreatedRow(es))
    ensures (exists i: nat :: LastWriter(es, i)) || MemberAfter(es).value.isMember
  {
    forall i: nat | LastWriter(es, i)
      ensures MemberAfter(es).value.isMember == !es[i].leave <==> !LeaveCreatedRow(es)
    {
      MemberFollowsWriter(es, i);
      assert LastWriter(es, 0) ==> i == 0;
    }
    if exists k: nat :: k < |es| && Decides(es[k]) {
      var i := WriterExists(es);
    } else {
      UndecidedMember(es);
    }
  }

  ghost predicate DistinctTimes(es: seq<Membership>) {
    forall i, j :: 0 <= i < j < |es| && Decides(es[i]) && Decides(es[j]) ==> es[i].timestamp != es[j].timestamp
  }

  /** With different times for the deciding events, the last writer is the same event in every
      order of arrival. */
  lemma WriterIgnoresOrder(es: seq<Membership>, fs: seq<Membership>, i: nat) returns (k: nat)
    requires multiset(es) == multiset(fs) && DistinctTimes(es) && LastWriter(fs, i)
    ensures LastWriter(es, k) && es[k] == fs[i]
  {
    assert fs[i] in multiset(es);
    k :| 0 <= k < |es| && es[k] == fs[i];
    forall j | 0 <= j < |es| && Decides(es[j]) ensures es[j].timestamp < es[k].timestamp || j == k {
      assert es[j] in multiset(fs);
      var l :| 0 <= l < |fs| && fs[l] == es[j];
    }
  }

  /** Two orders of arrival of the same events, with different times for the deciding ones, leave
      the same membership, unless in just one of them the newest decision is a leave that comes
      first of all. */
  lemma MembershipIgnoresOrderExactlyWhen(es: seq<Membership>, fs: seq<Membership>)
    requires es != [] && multiset(es) == multiset(fs) && DistinctTimes(es)
    ensures fs != [] && (MemberAfter(es).value.isMember == MemberAfter(fs).value.isMember
                         <==> (LeaveCreatedRow(es) <==> LeaveCreatedRow(fs)))
  {
    assert es[0] in multiset(fs);
    MembershipIsLastWriterWins(es);
    MembershipIsLastWriterWins(fs);
    if i: nat :| LastWriter(fs, i) {
      var k := WriterIgnoresOrder(es, fs, i);
    } else if k: nat :| LastWriter(es, k) {
      assert es[k] in multiset(fs);
      var l :| 0 <= l < |fs| && fs[l] == es[k];
      var _ := WriterExists(fs);
    }
  }

  /** A lone leave leaves a member; and a leave and an earlier join, with different times, leave
      one or not depending on which arrives first. */
  lemma LeaveThatCreatesRowIsLost(join: Membership, leave: Membership)
    requires join.join && !join.leave && leave.leave && !leave.join && join.timestamp < leave.timestamp
    ensures MemberAfter([leave]).value.isMember
    ensures MemberAfter([leave, join]).value.isMember && !MemberAfter([join, leave]).value.isMember
  {
    assert LastWriter([leave], 0) && LastWriter([leave, join], 0) && LastWriter([join, leave], 1);
    MemberFollowsWriter([leave], 0);
    MemberFollowsWriter([leave, join], 0);
    MemberFollowsWriter([join, leave], 1);
  }

  /** Some event of that kind has that time and that actor. */
  ghost predicate TakenFrom(es: seq<Membership>, t: int, actor: int, kind: Membership -> bool) {
    exists i :: 0 <= i < |es| && kind(es[i]) && es[i].timestamp == t && es[i].actor == actor
  }

  lemma TakenOn(es: seq<Membership>, t: int, actor: int, kind: Membership -> bool)
    requires es != [] && TakenFrom(es[..|es| - 1], t, actor, kind)
    ensures TakenFrom(es, t, actor, kind)
  {
    var front := es[..|es| - 1];
    var i :| 0 <= i < |front| && kind(front[i]) && front[i].timestamp == t && front[i].actor == actor;
    assert es[i] == front[i];
  }

  predicate Joins(e: Membership) {
    e.join
  }

  predicate Leaves(e: Membership) {
    e.leave
  }

  /** No event is a join and a leave at once. */
  ghost predicate NeverBoth(es: seq<Membership>) {
    forall i :: 0 <= i < |es| ==> !(es[i].join && es[i].leave)
  }

  /** What a member row says about joins and leaves, whatever the order of events: the first join is
      that of the first event, if it was one; last join and last leave are those of some join and
      some leave, with their actors, never mixed up, and never later than them. */
  lemma {:induction false} MemberTimes(es: seq<Membership>)
    requires es != [] && NeverBoth(es)
    ensures var m := MemberAfter(es).value;
      && m.firstJoin == (if es[0].join then Some(es[0].timestamp) else None)
      && m.firstJoinActor == (if es[0].join then es[0].actor else 0)
      && (m.lastJoin.Some? ==> TakenFrom(es, m.lastJoin.value, m.lastJoinActor, Joins))
      && (m.lastLeave.Some? ==> TakenFrom(es, m.lastLeave.value, m.lastLeaveActor, Leaves))
      && (m.lastJoin.None? ==> m.lastJoinActor == 0) && (m.lastLeave.None? ==> m.lastLeaveActor == 0)
  {
    var front, last := es[..|es| - 1], es[|es| - 1];
    if front != [] {
      MemberTimes(front);
      var was := MemberAfter(front).value;
      if was.lastJoin.Some? {
        TakenOn(es, was.lastJoin.value, was.lastJoinActor, Joins);
      }
      if was.lastLeave.Some? {
        TakenOn(es, was.lastLeave.value, was.lastLeaveActor, Leaves);
      }
    }
  }

  /** The last writer has left its time and its actor. */
  lemma {:induction false} WriterRecorded(es: seq<Membership>, i: nat)
    requires LastWriter(es, i) && NeverBoth(es)
    ensures var m := MemberAfter(es).value;
      if es[i].join then m.lastJoin == Some(es[i].timestamp) && m.lastJoinActor == es[i].actor
      else m.lastLeave == Some(es[i].timestamp) && m.lastLeaveActor == es[i].actor
  {
    var front := es[..|es| - 1];
    if i < |es| - 1 {
      assert LastWriter(front, i);
      WriterRecorded(front, i);
      MemberFollowsWriter(front, i);
    } else if exists k: nat :: k < |front| && Decides(front[k]) {
      var k := WriterExists(front);
      MemberFollowsWriter(front, k);
    } else if front != [] {
      UndecidedMember(front);
    }
  }

  /** The last action is the latest time of all events. */
  lemma {:induction false} MemberLastAction(es: seq<Membership>)
    requires es != []
    ensures var t := MemberAfter(es).value.lastAction;
      (exists e :: e in es && e.timestamp == t) && forall e :: e in es ==> e.timestamp <= t
  {
    var front, last := es[..|es| - 1], es[|es| - 1];
    assert last in es && forall e :: e in es <==> e in front || e == last;
    if front != [] {
      MemberLastAction(front);
    }
  }

  /** The join url is that of a join, and once there is one it stays. */
  lemma {:induction false} JoinUrlStays(es: seq<Membership>, n: nat)
    requires 0 < n <= |es|
    ensures var was, now := MemberAfter(es[..n]).value.joinUrl, MemberAfter(es).value.joinUrl;
      && (was != "" ==> now == was)
      && (now != "" ==> exists e :: e in es && e.join && e.url == now)
    ensures es[0].join ==> MemberAfter(es[..1]).value.joinUrl == es[0].url
    decreases |es|
  {
    var front, last := es[..|es| - 1], es[|es| - 1];
    assert last in es && forall e :: e in front ==> e in es;
    assert es[..1][..0] == [];
    if n < |es| {
      JoinUrlStays(front, n);
      assert front[..n] == es[..n] && front[..1] == es[..1];
    } else {
      assert es[..n] == es;
      if |es| > 1 {
        JoinUrlStays(front, |es| - 1);
        assert front[..|es| - 1] == front && front[..1] == es[..1];
      }
    }
  }

  // ----- sessions -----

  function UserAfter(es: seq<Info>): Option<User> {
    if es == [] then None else Some(UpdatedUser(UserAfter(es[..|es| - 1]), es[|es| - 1]))
  }

  /** The times that count for sessions: that of the first event, and those of the later events
      that update the session. */
  function Marks(es: seq<Info>): seq<int> {
    if es == [] then []
    else
      var last := es[|es| - 1];
      Marks(es[..|es| - 1]) + if |es| == 1 || last.updateSession then [last.timestamp] else []
  }

  /** The number of consecutive marks strictly more than five minutes apart. */
  function Breaks(ts: seq<int>): nat {
    if |ts| < 2 then 0
    else Breaks(ts[..|ts| - 1]) + if ts[|ts| - 2] < ts[|ts| - 1] - FIVE_MINUTES then 1 else 0
  }

  lemma WrapStep(n: int)
    ensures Wrap16(Wrap16(n) + 1) == Wrap16(n + 1)
  {
  }

  /** The session number is one plus the number of breaks, as a 16-bit number. */
  lemma {:induction false} SessionCountsBreaks(es: seq<Info>)
    requires es != []
    ensures var user := UserAfter(es).value;
      && user.sessionID == Wrap16(1 + Breaks(Marks(es)))
      && Marks(es) != [] && user.lastAction == Marks(es)[|Marks(es)| - 1]
      && user.firstAction == es[0].timestamp && user.referer == es[0].referer
  {
    var front, last := es[..|es| - 1], es[|es| - 1];
    if |es| == 1 {
      assert Marks(es) == [last.timestamp];
    } else {
      SessionCountsBreaks(front);
      WrapStep(1 + Breaks(Marks(front)));
      MarksExtend(es);
    }
  }

  lemma MarksExtend(es: seq<Info>)
    requires |es| > 1
    ensures var front, last := Marks(es[..|es| - 1]), es[|es| - 1];
      if last.updateSession then Marks(es) == front + [last.timestamp] && Marks(es)[..|front|] == front
      else Marks(es) == front
  {
  }

  lemma {:induction false} BreaksGrow(es: seq<Info>, n: nat)
    requires 0 < n <= |es|
    ensures Breaks(Marks(es[..n])) <= Breaks(Marks(es))
  {
    if n < |es| {
      var front := es[..|es| - 1];
      BreaksGrow(front, n);
      assert front[..n] == es[..n];
      MarksExtend(es);
    } else {
      assert es[..n] == es;
    }
  }

  function SessionAfter(es: seq<Info>): int
    requires es != []
  {
    UserAfter(es).value.sessionID
  }

  /** The breaks that happen after the first n events. */
  ghost function BreaksSince(es: seq<Info>, n: nat): int
    requires n <= |es|
  {
    Breaks(Marks(es)) - Breaks(Marks(es[..n]))
  }

  /** Two moments share a session number iff the number of breaks between them is a multiple of
      65536. */
  lemma SessionSharedExactlyWhen(es: seq<Info>, n: nat)
    requires 0 < n <= |es|
    ensures SessionAfter(es[..n]) == SessionAfter(es) <==> BreaksSince(es, n) % 0x1_0000 == 0
  {
    SessionCountsBreaks(es[..n]);
    SessionCountsBreaks(es);
    WrapSame(1 + Breaks(Marks(es[..n])), 1 + Breaks(Marks(es)));
  }

  /** n events of one user, each more than five minutes after the one before. */
  function Spaced(n: nat): (es: seq<Info>)
    ensures |es| == n
  {
    seq(n, i => Info(0, "", "", i * (FIVE_MINUTES + 1), true))
  }

  lemma {:induction false} SpacedBreaks(n: nat)
    requires n > 0
    ensures var marks := Marks(Spaced(n));
      marks != [] && marks[|marks| - 1] == (n - 1) * (FIVE_MINUTES + 1) && Breaks(marks) == n - 1
  {
    assert Spaced(n)[..n - 1] == Spaced(n - 1);
    if n > 1 {
      SpacedBreaks(n - 1);
      MarksExtend(Spaced(n));
    }
  }

  /** For example: the first of 65537 such events and the last share a session number, although
      there is a break before every one but the first. */
  lemma SessionsCanCollide()
    ensures BreaksSince(Spaced(65537), 1) == 65536
    ensures SessionAfter(Spaced(65537)[..1]) == SessionAfter(Spaced(65537))
  {
    assert Spaced(65537)[..1] == Spaced(1);
    SpacedBreaks(1);
    SpacedBreaks(65537);
    SessionSharedExactlyWhen(Spaced(65537), 1);
  }

  /** So with fewer than 65536 breaks, iff there is none. */
  lemma SessionSharedIffNoBreak(es: seq<Info>, n: nat)
    requires 0 < n <= |es| && BreaksSince(es, n) < 0x1_0000
    ensures SessionAfter(es[..n]) == SessionAfter(es) <==> BreaksSince(es, n) == 0
  {
    BreaksGrow(es, n);
    SessionSharedExactlyWhen(es, n);
  }

  lemma WrapSame(a: int, b: int)
    ensures Wrap16(a) == Wrap16(b) <==> (b - a) % 0x1_0000 == 0
  {
    var x, y := a + 0x8000, b + 0x8000;
    var q, r := x / 0x1_0000, y / 0x1_0000;
    assert y - x == (r - q) * 0x1_0000 + (y % 0x1_0000 - x % 0x1_0000);
  }

  // ----- what an event is told about its user -----

  /** Event i has begun the current session: it is the first event, or it came after a break, and
      there has been none since. */
  ghost predicate BeganSession(es: seq<Info>, i: nat) {
    && i < |es| && BreaksSince(es, i + 1) == 0
    && (i == 0 || (es[i].updateSession && Breaks(Marks(es[..i])) < Breaks(Marks(es[..i + 1]))))
  }

  lemma FirstSession(es: seq<Info>)
    requires |es| == 1
    ensures BeganSession(es, 0) && UserAfter(es).value.sessionReferer == es[0].referer
  {
    assert es[..1] == es;
  }

  predicate BeginsSession(es: seq<Info>)
    requires es != []
  {
    Breaks(Marks(es[..|es| - 1])) < Breaks(Marks(es))
  }

  lemma SessionReferer(es: seq<Info>)
    requires |es| > 1
    ensures UserAfter(es).value.sessionReferer
         == if BeginsSession(es) then es[|es| - 1].referer else UserAfter(es[..|es| - 1]).value.sessionReferer
  {
    SessionCountsBreaks(es[..|es| - 1]);
    MarksExtend(es);
  }

  /** The last event goes on with the session that event i of the others has begun, or begins one. */
  lemma SessionGoesOn(es: seq<Info>, i: nat)
    requires |es| > 1 && BeganSession(es[..|es| - 1], i)
    ensures BeganSession(es, if BeginsSession(es) then |es| - 1 else i)
  {
    hide Breaks, Marks;
    var front := es[..|es| - 1];
    BreaksGrow(es, |front|);
    if BeginsSession(es) {
      UnmarkedKeeps(es);
    }
    assert es[..|es|] == es && front[..i] == es[..i] && front[..i + 1] == es[..i + 1];
  }

  lemma UnmarkedKeeps(es: seq<Info>)
    requires |es| > 1 && BeginsSession(es)
    ensures es[|es| - 1].updateSession
  {
    MarksExtend(es);
  }

  /** What an event is told: the number of the session, the referer of the user's first event, the
      referer of the event that began the session, and the time of the first event. */
  lemma {:induction false} StampTells(es: seq<Info>) returns (i: nat)
    requires es != []
    ensures BeganSession(es, i)
    ensures StampOf(UserAfter(es).value) == Stamp(Wrap16(1 + Breaks(Marks(es))), es[0].referer, es[i].referer,
                                                  es[0].timestamp)
  {
    hide Marks, Breaks, UserAfter;
    SessionCountsBreaks(es);
    if |es| == 1 {
      i := 0;
      FirstSession(es);
    } else {
      var front := es[..|es| - 1];
      i := StampTells(front);
      SessionCountsBreaks(front);
      SessionGoesOn(es, i);
      SessionReferer(es);
      if BeginsSession(es) {
        i := |es| - 1;
      }
    }
  }
}
