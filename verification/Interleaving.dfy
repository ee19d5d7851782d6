/** Any number of calls at once, one thread each, every call cut into its lock, read, write and
    unlock steps, and the steps interleaved in any way the locks allow.

    The reader/writer lock lets no new reader in once a writer has announced itself, and lets the
    writer in when the last reader has left.
 */
module Interleaving {
  import opened Rows
  import opened Tables
  import opened Updates

  /** Where a thread is.  A chat or member call goes Start, Shared, Holding, Looked, Stored,
      Released, Done; a user call does the same without Shared and Released; a migration goes
      Start, Waiting, Exclusive, SawOld, SawNew, Saved, Deleted, Done. */
  datatype Pc =
    | Start
    | Shared                    // has the reader lock
    | Holding                   // has the stripe as well
    | Looked(row: Row)          // has read its row
    | Stored                    // has written it back
    | Released                  // has given the stripe back
    | Waiting                   // a writer that has announced itself
    | Exclusive                 // has the writer lock
    | SawOld(chat: Chat)        // has found the old chat
    | SawNew(chat: Chat, target: Option<Chat>)  // has looked for the new chat
    | Saved                     // has written the new chat
    | Deleted                   // has removed the old one, or had nothing to do
    | Done

  /** The tables, the threads, the locks; and, as a history, the order in which the calls took
      effect and the answers of those that give one. */
  datatype Sys = Sys(
    db: DB,
    pcs: seq<Pc>,
    readers: set<nat>,
    writer: Option<nat>,
    stripes: map<nat, nat>,
    order: seq<nat>,
    answers: map<nat, Option<Stamp>>)

  function Init(db: DB, ops: seq<Op>): Sys {
    Sys(db, seq(|ops|, _ => Start), {}, None, map[], [], map[])
  }

  predicate IsReader(op: Op) {
    op.ChatOp? || op.MemberOp?
  }

  /** Thread t can take its next step. */
  predicate Enabled(ops: seq<Op>, s: Sys, t: nat)
    requires |s.pcs| == |ops|
  {
    t < |ops| &&
    match s.pcs[t]
    case Start =>
      if IsReader(ops[t]) then s.writer.None?
      else if ops[t].UserOp? then StripeOf(ops[t]) !in s.stripes
      else ops[t].oldID == ops[t].newID || s.writer.None?
    case Shared => !ops[t].MigrateOp? && StripeOf(ops[t]) !in s.stripes
    case Waiting => s.readers == {}
    case Done => false
    case _ => true
  }

  /** Writing back the row that was read; a user call that does not touch an existing session
      writes nothing. */
  function Store(db: DB, op: Op, row: Row): DB
    requires FitsRow(op, row)
  {
    if op.UserOp? && row.user.Some? && !op.info.updateSession then db else WriteRow(db, op, row)
  }

  /** A thread is where a call of its kind can be. */
  predicate FitsPc(op: Op, pc: Pc) {
    match pc
    case Start => true
    case Done => true
    case Shared => IsReader(op)
    case Released => IsReader(op)
    case Holding => !op.MigrateOp?
    case Looked(row) => FitsRow(op, row)
    case Stored => !op.MigrateOp?
    case _ => op.MigrateOp?
  }

  function Goto(s: Sys, t: nat, pc: Pc): Sys
    requires t < |s.pcs|
  {
    s.(pcs := s.pcs[t := pc])
  }

  /** t's call takes effect. */
  function Effect(s: Sys, t: nat, db: DB, answer: Option<Stamp>): Sys {
    s.(db := db, order := s.order + [t], answers := s.answers[t := answer])
  }

  function Acquire(ops: seq<Op>, s: Sys, t: nat): Sys
    requires |s.pcs| == |ops| && t < |ops| && !ops[t].MigrateOp?
  {
    Goto(s, t, Holding).(stripes := s.stripes[StripeOf(ops[t]) := t])
  }

  /** The step of thread t. */
  function Move(ops: seq<Op>, s: Sys, t: nat): Sys
    requires |s.pcs| == |ops| && Enabled(ops, s, t) && FitsPc(ops[t], s.pcs[t])
  {
    var op := ops[t];
    match s.pcs[t]
    case Start =>
      if IsReader(op) then Goto(s, t, Shared).(readers := s.readers + {t})
      else if op.UserOp? then Acquire(ops, s, t)
      else if op.oldID == op.newID then Effect(Goto(s, t, Done), t, s.db, None)
      else Goto(s, t, Waiting).(writer := Some(t))
    case Shared => Acquire(ops, s, t)
    case Holding => Goto(s, t, Looked(ReadRow(s.db, op)))
    case Looked(row) => Effect(Goto(s, t, Stored), t, Store(s.db, op, row), Answer(op, row))
    case Stored =>
      Goto(s, t, if IsReader(op) then Released else Done).(stripes := s.stripes - {StripeOf(op)})
    case Released => Goto(s, t, Done).(readers := s.readers - {t})
    case Waiting => Goto(s, t, Exclusive)
    case Exclusive =>
      if op.oldID in s.db.chats then Goto(s, t, SawOld(s.db.chats[op.oldID]))
      else Effect(Goto(s, t, Deleted), t, s.db, None)
    case SawOld(chat) => Goto(s, t, SawNew(chat, Lookup(s.db.chats, op.newID)))
    case SawNew(chat, target) =>
      var chats := s.db.chats[op.newID := MigratedChat(chat, op.oldID, target)];
      Effect(Goto(s, t, Saved), t, s.db.(chats := chats), None)
    case Saved => Goto(s, t, Deleted).(db := s.db.(chats := s.db.chats - {op.oldID}))
    case Deleted => Goto(s, t, Done).(writer := None)
  }

  // ----- one call at a time -----

  predicate Indices(ops: seq<Op>, order: seq<nat>) {
    forall i :: 0 <= i < |order| ==> order[i] < |ops|
  }

  /** The calls of the given order, run one after the other. */
  function Serial(db: DB, ops: seq<Op>, order: seq<nat>): DB
    requires Indices(ops, order)
  {
    if order == [] then db
    else Perform(Serial(db, ops, order[..|order| - 1]), ops[order[|order| - 1]])
  }

  /** The answer of call t when it is run on db. */
  function SerialAnswer(db: DB, op: Op): Option<Stamp> {
    if op.MigrateOp? then None else Answer(op, ReadRow(db, op))
  }

  // ----- the invariant -----

  predicate UsesReaderLock(pc: Pc) {
    pc.Shared? || pc.Holding? || pc.Looked? || pc.Stored? || pc.Released?
  }

  predicate UsesStripe(pc: Pc) {
    pc.Holding? || pc.Looked? || pc.Stored?
  }

  predicate UsesWriterLock(pc: Pc) {
    pc.Waiting? || InWriter(pc)
  }

  predicate InWriter(pc: Pc) {
    pc.Exclusive? || pc.SawOld? || pc.SawNew? || pc.Saved? || pc.Deleted?
  }

  predicate Effective(pc: Pc) {
    pc.Stored? || pc.Released? || pc.Saved? || pc.Deleted? || pc.Done?
  }

  ghost predicate Shape(ops: seq<Op>, s: Sys) {
    |s.pcs| == |ops| && forall t :: 0 <= t < |ops| ==> FitsPc(ops[t], s.pcs[t])
  }

  ghost predicate ReadersRight(ops: seq<Op>, s: Sys)
    requires Shape(ops, s)
  {
    forall t: nat :: t in s.readers <==> t < |ops| && IsReader(ops[t]) && UsesReaderLock(s.pcs[t])
  }

  ghost predicate WriterRight(ops: seq<Op>, s: Sys)
    requires Shape(ops, s)
  {
    forall t: nat :: s.writer == Some(t) <==> t < |ops| && UsesWriterLock(s.pcs[t])
  }

  ghost predicate HoldersRecorded(ops: seq<Op>, s: Sys)
    requires Shape(ops, s)
  {
    forall t: nat :: t < |ops| && UsesStripe(s.pcs[t]) ==>
      StripeOf(ops[t]) in s.stripes && s.stripes[StripeOf(ops[t])] == t
  }

  ghost predicate RecordsHold(ops: seq<Op>, s: Sys)
    requires Shape(ops, s)
  {
    forall k :: k in s.stripes ==>
      var t := s.stripes[k]; t < |ops| && UsesStripe(s.pcs[t]) && StripeOf(ops[t]) == k
  }

  ghost predicate WriterAlone(ops: seq<Op>, s: Sys)
    requires Shape(ops, s)
  {
    forall t: nat :: t < |ops| && InWriter(s.pcs[t]) ==> s.readers == {}
  }

  /** The locks are held by exactly the threads that are between their lock and unlock steps. */
  ghost predicate Locks(ops: seq<Op>, s: Sys)
    requires Shape(ops, s)
  {
    && ReadersRight(ops, s) && WriterRight(ops, s) && WriterAlone(ops, s)
    && HoldersRecorded(ops, s) && RecordsHold(ops, s)
  }

  /** What a thread has read and not yet used is still what the tables say. */
  ghost predicate Fresh(ops: seq<Op>, s: Sys)
    requires Shape(ops, s)
  {
    forall t: nat :: t < |ops| ==> FreshAt(s.db, ops[t], s.pcs[t])
  }

  ghost predicate FreshAt(db: DB, op: Op, pc: Pc)
    requires FitsPc(op, pc)
  {
    match pc
    case Looked(row) => row == ReadRow(db, op)
    case SawOld(chat) => op.oldID != op.newID && Lookup(db.chats, op.oldID) == Some(chat)
    case SawNew(chat, target) =>
      op.oldID != op.newID && Lookup(db.chats, op.oldID) == Some(chat) && Lookup(db.chats, op.newID) == target
    case Waiting => op.oldID != op.newID
    case Exclusive => op.oldID != op.newID
    case Saved => op.oldID != op.newID
    case _ => true
  }

  /** The tables as they will be when a migration that has saved the new chat has removed the
      old one. */
  function Settled(ops: seq<Op>, s: Sys): DB
    requires Shape(ops, s)
  {
    if s.writer.Some? && s.writer.value < |ops| && s.pcs[s.writer.value].Saved?
    then s.db.(chats := s.db.chats - {ops[s.writer.value].oldID})
    else s.db
  }

  /** The calls that have taken effect, each once, in an order in which running them one at a
      time gives the same tables and the same answers. */
  ghost predicate Serialised(db0: DB, ops: seq<Op>, s: Sys)
    requires Shape(ops, s)
  {
    && Indices(ops, s.order)
    && (forall t: nat :: t in s.order <==> t < |ops| && Effective(s.pcs[t]))
    && (forall i, j :: 0 <= i < j < |s.order| ==> s.order[i] != s.order[j])
    && Settled(ops, s) == Serial(db0, ops, s.order)
    && (forall i :: 0 <= i < |s.order| ==> AnsweredAt(db0, ops, s, i))
  }

  ghost predicate AnsweredAt(db0: DB, ops: seq<Op>, s: Sys, i: nat)
    requires Indices(ops, s.order) && i < |s.order|
  {
    s.order[i] in s.answers
    && s.answers[s.order[i]] == SerialAnswer(Serial(db0, ops, s.order[..i]), ops[s.order[i]])
  }

  ghost predicate Inv(db0: DB, ops: seq<Op>, s: Sys) {
    Shape(ops, s) && Locks(ops, s) && Fresh(ops, s) && Serialised(db0, ops, s)
  }

  lemma InitInv(db: DB, ops: seq<Op>)
    ensures Inv(db, ops, Init(db, ops))
  {
  }

  // ----- preservation, part by part -----

  lemma MoveShape(ops: seq<Op>, s: Sys, t: nat)
    requires Shape(ops, s) && Enabled(ops, s, t)
    ensures Shape(ops, Move(ops, s, t))
  {
  }

  /** A step moves only its own thread. */
  lemma MoveKeepsOthers(ops: seq<Op>, s: Sys, t: nat)
    requires Shape(ops, s) && Enabled(ops, s, t)
    ensures var s' := Move(ops, s, t);
      && |s'.pcs| == |ops| && s'.pcs == s.pcs[t := s'.pcs[t]]
      && StepsLeft(s'.pcs[t]) < StepsLeft(s.pcs[t])
  {
  }

  lemma MoveOrderGrows(ops: seq<Op>, s: Sys, t: nat)
    requires Shape(ops, s) && Enabled(ops, s, t)
    ensures s.order <= Move(ops, s, t).order
  {
  }

  lemma MoveReaders(ops: seq<Op>, s: Sys, t: nat)
    requires Shape(ops, s) && ReadersRight(ops, s) && Enabled(ops, s, t) && Shape(ops, Move(ops, s, t))
    ensures ReadersRight(ops, Move(ops, s, t))
  {
  }

  lemma MoveWriter(ops: seq<Op>, s: Sys, t: nat)
    requires Shape(ops, s) && WriterRight(ops, s) && Enabled(ops, s, t) && Shape(ops, Move(ops, s, t))
    ensures WriterRight(ops, Move(ops, s, t))
  {
  }

  lemma MoveAlone(ops: seq<Op>, s: Sys, t: nat)
    requires Shape(ops, s) && WriterRight(ops, s) && WriterAlone(ops, s)
    requires Enabled(ops, s, t) && Shape(ops, Move(ops, s, t))
    ensures WriterAlone(ops, Move(ops, s, t))
  {
  }

  lemma MoveHolders(ops: seq<Op>, s: Sys, t: nat)
    requires Shape(ops, s) && HoldersRecorded(ops, s) && Enabled(ops, s, t) && Shape(ops, Move(ops, s, t))
    ensures HoldersRecorded(ops, Move(ops, s, t))
  {
  }

  lemma MoveRecords(ops: seq<Op>, s: Sys, t: nat)
    requires Shape(ops, s) && HoldersRecorded(ops, s) && RecordsHold(ops, s)
    requires Enabled(ops, s, t) && Shape(ops, Move(ops, s, t))
    ensures RecordsHold(ops, Move(ops, s, t))
  {
  }

  lemma MoveLocks(ops: seq<Op>, s: Sys, t: nat)
    requires Shape(ops, s) && Locks(ops, s) && Enabled(ops, s, t)
    ensures Shape(ops, Move(ops, s, t)) && Locks(ops, Move(ops, s, t))
  {
    MoveShape(ops, s, t);
    MoveReaders(ops, s, t);
    MoveWriter(ops, s, t);
    MoveAlone(ops, s, t);
    MoveHolders(ops, s, t);
    MoveRecords(ops, s, t);
  }

  /** Calls on different stripes work on different rows. */
  lemma StoreElsewhere(db: DB, op: Op, row: Row, other: Op)
    requires FitsRow(op, row) && !other.MigrateOp? && StripeOf(op) != StripeOf(other)
    ensures ReadRow(Store(db, op, row), other) == ReadRow(db, other)
  {
    assert LockKey(op) != LockKey(other);
  }

  lemma StoreFresh(ops: seq<Op>, s: Sys, t: nat, u: nat)
    requires Shape(ops, s) && Locks(ops, s) && Fresh(ops, s)
    requires t < |ops| && s.pcs[t].Looked? && u < |ops| && u != t
    ensures FreshAt(Store(s.db, ops[t], s.pcs[t].row), ops[u], s.pcs[u])
  {
    var op, row := ops[t], s.pcs[t].row;
    assert FreshAt(s.db, ops[u], s.pcs[u]);
    if s.pcs[u].Looked? {
      assert StripeOf(op) != StripeOf(ops[u]);
      StoreElsewhere(s.db, op, row, ops[u]);
    } else if InWriter(s.pcs[u]) {
      assert t !in s.readers;
    }
  }

  /** What a writer writes is nothing that another thread has read. */
  lemma WriteFresh(ops: seq<Op>, s: Sys, t: nat, u: nat, chats: map<int, Chat>)
    requires Shape(ops, s) && Locks(ops, s) && Fresh(ops, s)
    requires t < |ops| && InWriter(s.pcs[t]) && u < |ops| && u != t
    ensures FreshAt(s.db.(chats := chats), ops[u], s.pcs[u])
  {
    assert FreshAt(s.db, ops[u], s.pcs[u]);
    assert s.writer == Some(t) && s.readers == {};
    if s.pcs[u].Looked? {
      assert u !in s.readers;
    }
  }

  lemma MoveFresh(ops: seq<Op>, s: Sys, t: nat)
    requires Shape(ops, s) && Locks(ops, s) && Fresh(ops, s) && Enabled(ops, s, t)
    requires Shape(ops, Move(ops, s, t))
    ensures Fresh(ops, Move(ops, s, t))
  {
    var s' := Move(ops, s, t);
    assert FreshAt(s.db, ops[t], s.pcs[t]);
    forall u: nat | u < |ops| ensures FreshAt(s'.db, ops[u], s'.pcs[u]) {
      if u != t {
        assert FreshAt(s.db, ops[u], s.pcs[u]);
        if s.pcs[t].Looked? {
          StoreFresh(ops, s, t, u);
        } else if InWriter(s.pcs[t]) {
          WriteFresh(ops, s, t, u, s'.db.chats);
        }
      }
    }
  }

  // ----- the history stays a serial one -----

  lemma HistoryExtends(db0: DB, ops: seq<Op>, s: Sys, t: nat, s': Sys)
    requires Shape(ops, s) && Shape(ops, s') && Serialised(db0, ops, s)
    requires t < |ops| && !Effective(s.pcs[t]) && Effective(s'.pcs[t])
    requires s'.pcs == s.pcs[t := s'.pcs[t]]
    requires s'.order == s.order + [t]
    requires s'.answers == s.answers[t := SerialAnswer(Settled(ops, s), ops[t])]
    requires Settled(ops, s') == Perform(Settled(ops, s), ops[t])
    ensures Serialised(db0, ops, s')
  {
    hide Perform, SerialAnswer;
    assert s'.order[..|s.order|] == s.order;
    forall i | 0 <= i < |s'.order| ensures AnsweredAt(db0, ops, s', i) {
      if i < |s.order| {
        assert AnsweredAt(db0, ops, s, i);
        assert s.order[i] in s.order;
        assert s'.order[..i] == s.order[..i];
      }
    }
    assert t !in s.order;
    assert forall u: nat :: u in s'.order <==> u in s.order || u == t;
  }

  lemma HistoryStays(db0: DB, ops: seq<Op>, s: Sys, t: nat, s': Sys)
    requires Shape(ops, s) && Shape(ops, s') && Serialised(db0, ops, s)
    requires t < |ops| && (Effective(s.pcs[t]) <==> Effective(s'.pcs[t]))
    requires s'.pcs == s.pcs[t := s'.pcs[t]]
    requires s'.order == s.order && s'.answers == s.answers
    requires Settled(ops, s') == Settled(ops, s)
    ensures Serialised(db0, ops, s')
  {
    forall i | 0 <= i < |s'.order| ensures AnsweredAt(db0, ops, s', i) {
      assert AnsweredAt(db0, ops, s, i);
    }
  }

  /** Writing back is the whole call, seen from outside. */
  lemma StoreIsPerform(ops: seq<Op>, s: Sys, t: nat)
    requires Shape(ops, s) && Locks(ops, s) && Fresh(ops, s)
    requires t < |ops| && s.pcs[t].Looked?
    ensures var s' := Move(ops, s, t);
      && Shape(ops, s')
      && Settled(ops, s') == Perform(Settled(ops, s), ops[t])
      && Answer(ops[t], s.pcs[t].row) == SerialAnswer(Settled(ops, s), ops[t])
  {
    var op := ops[t];
    MoveShape(ops, s, t);
    assert FreshAt(s.db, op, s.pcs[t]);
    assert Store(s.db, op, s.pcs[t].row) == WriteRow(s.db, op, ReadRow(s.db, op)) by {
      if op.UserOp? && s.pcs[t].row.user.Some? && !op.info.updateSession {
        assert s.db.users[op.userID := s.db.users[op.userID]] == s.db.users;
      }
    }
    if s.writer.Some? && s.writer.value < |ops| && s.pcs[s.writer.value].Saved? {
      assert t !in s.readers;
      assert op.UserOp?;
    }
  }

  lemma SaveIsPerform(ops: seq<Op>, s: Sys, t: nat)
    requires Shape(ops, s) && Locks(ops, s) && Fresh(ops, s)
    requires t < |ops| && s.pcs[t].SawNew?
    ensures var s' := Move(ops, s, t);
      Shape(ops, s') && Settled(ops, s') == Perform(Settled(ops, s), ops[t])
  {
    MoveShape(ops, s, t);
    assert FreshAt(s.db, ops[t], s.pcs[t]);
    assert s.writer == Some(t);
  }

  /** The calls that change nothing take effect where they find that out. */
  predicate GivesUp(op: Op, s: Sys, pc: Pc) {
    op.MigrateOp? && ((pc.Start? && op.oldID == op.newID) || (pc.Exclusive? && op.oldID !in s.db.chats))
  }

  lemma GivingUpIsPerform(ops: seq<Op>, s: Sys, t: nat)
    requires Shape(ops, s) && Locks(ops, s) && Enabled(ops, s, t) && GivesUp(ops[t], s, s.pcs[t])
    ensures var s' := Move(ops, s, t);
      && Shape(ops, s') && Effective(s'.pcs[t])
      && s'.order == s.order + [t] && s'.answers == s.answers[t := None]
      && Settled(ops, s') == Settled(ops, s) == Perform(Settled(ops, s), ops[t])
  {
    MoveShape(ops, s, t);
    if s.pcs[t].Exclusive? {
      assert s.writer == Some(t);
    }
  }

  /** All other steps only move the thread and the locks. */
  lemma QuietMove(ops: seq<Op>, s: Sys, t: nat)
    requires Shape(ops, s) && Locks(ops, s) && Enabled(ops, s, t)
    requires !s.pcs[t].Looked? && !s.pcs[t].SawNew? && !GivesUp(ops[t], s, s.pcs[t])
    ensures var s' := Move(ops, s, t);
      && Shape(ops, s') && (Effective(s.pcs[t]) <==> Effective(s'.pcs[t]))
      && s'.order == s.order && s'.answers == s.answers
      && Settled(ops, s') == Settled(ops, s)
  {
    MoveShape(ops, s, t);
    if UsesWriterLock(s.pcs[t]) {
      assert s.writer == Some(t);
    }
  }

  lemma MoveSerialised(db0: DB, ops: seq<Op>, s: Sys, t: nat)
    requires Inv(db0, ops, s) && Enabled(ops, s, t) && Shape(ops, Move(ops, s, t))
    ensures Serialised(db0, ops, Move(ops, s, t))
  {
    hide Perform, Settled, Serial;
    var s' := Move(ops, s, t);
    MoveKeepsOthers(ops, s, t);
    if s.pcs[t].Looked? {
      StoreIsPerform(ops, s, t);
      HistoryExtends(db0, ops, s, t, s');
    } else if s.pcs[t].SawNew? {
      SaveIsPerform(ops, s, t);
      HistoryExtends(db0, ops, s, t, s');
    } else if GivesUp(ops[t], s, s.pcs[t]) {
      GivingUpIsPerform(ops, s, t);
      HistoryExtends(db0, ops, s, t, s');
    } else {
      QuietMove(ops, s, t);
      HistoryStays(db0, ops, s, t, s');
    }
  }

  lemma MoveInv(db0: DB, ops: seq<Op>, s: Sys, t: nat)
    requires Inv(db0, ops, s) && Enabled(ops, s, t)
    ensures Inv(db0, ops, Move(ops, s, t))
  {
    MoveLocks(ops, s, t);
    MoveFresh(ops, s, t);
    MoveSerialised(db0, ops, s, t);
  }

  // ----- runs -----

  /** ss is a run from idle threads on the tables db0, thread ts[i] taking the i-th step. */
  ghost predicate IsRun(db0: DB, ops: seq<Op>, ss: seq<Sys>, ts: seq<nat>) {
    && |ss| == |ts| + 1 && ss[0] == Init(db0, ops)
    && forall i :: 0 <= i < |ts| ==>
         Shape(ops, ss[i]) && Enabled(ops, ss[i], ts[i]) && ss[i + 1] == Move(ops, ss[i], ts[i])
  }

  predicate AllDone(s: Sys) {
    forall t :: 0 <= t < |s.pcs| ==> s.pcs[t].Done?
  }

  lemma {:induction false} RunInv(db0: DB, ops: seq<Op>, ss: seq<Sys>, ts: seq<nat>, n: nat)
    requires IsRun(db0, ops, ss, ts) && n <= |ts|
    ensures Inv(db0, ops, ss[n])
  {
    if n == 0 {
      InitInv(db0, ops);
    } else {
      RunInv(db0, ops, ss, ts, n - 1);
      MoveInv(db0, ops, ss[n - 1], ts[n - 1]);
    }
  }

  /** order lists every call exactly once. */
  ghost predicate ListsAll(ops: seq<Op>, order: seq<nat>) {
    && Indices(ops, order)
    && (forall t: nat :: t < |ops| ==> t in order)
    && (forall i, j :: 0 <= i < j < |order| ==> order[i] != order[j])
  }

  /** Serialisability: however the steps are interleaved, when all calls are done the tables are
      what the calls leave when they are run one at a time in the recorded order, and every call
      has got the answer it would get then. */
  lemma Serialisable(db0: DB, ops: seq<Op>, ss: seq<Sys>, ts: seq<nat>)
    requires IsRun(db0, ops, ss, ts) && AllDone(ss[|ts|])
    ensures var s := ss[|ts|];
      && ListsAll(ops, s.order)
      && s.db == Serial(db0, ops, s.order)
      && forall i :: 0 <= i < |s.order| ==> AnsweredAt(db0, ops, s, i)
  {
    RunInv(db0, ops, ss, ts, |ts|);
  }

  /** The order of effects respects time: a call that is done before another starts comes before
      it in every later order. */
  lemma {:induction false} OrderRespectsTime(db0: DB, ops: seq<Op>, ss: seq<Sys>, ts: seq<nat>,
                                             m: nat, n: nat, t: nat, u: nat)
    requires IsRun(db0, ops, ss, ts) && m <= n <= |ts| && t < |ops| && u < |ops|
    requires |ss[m].pcs| == |ops| && ss[m].pcs[t].Done? && ss[m].pcs[u].Start? && u in ss[n].order
    ensures exists i, j :: 0 <= i < j < |ss[n].order| && ss[n].order[i] == t && ss[n].order[j] == u
  {
    RunInv(db0, ops, ss, ts, m);
    RunInv(db0, ops, ss, ts, n);
    OrderGrows(db0, ops, ss, ts, m, n);
    assert t in ss[m].order && u !in ss[m].order;
    var i :| 0 <= i < |ss[m].order| && ss[m].order[i] == t;
    var j :| 0 <= j < |ss[n].order| && ss[n].order[j] == u;
    assert ss[n].order[i] == t;
  }

  lemma {:induction false} OrderGrows(db0: DB, ops: seq<Op>, ss: seq<Sys>, ts: seq<nat>, m: nat, n: nat)
    requires IsRun(db0, ops, ss, ts) && m <= n <= |ts|
    ensures ss[m].order <= ss[n].order
    decreases n
  {
    if m < n {
      hide Move;
      OrderGrows(db0, ops, ss, ts, m, n - 1);
      MoveOrderGrows(ops, ss[n - 1], ts[n - 1]);
    }
  }

  // ----- progress -----

  /** The owner of a stripe can always go on. */
  lemma OwnerCanStep(ops: seq<Op>, s: Sys, k: nat) returns (t: nat)
    requires Shape(ops, s) && Locks(ops, s) && k in s.stripes
    ensures Enabled(ops, s, t)
  {
    t := s.stripes[k];
  }

  /** As long as someone has the reader lock, someone can go on. */
  lemma ReaderCanStep(ops: seq<Op>, s: Sys) returns (t: nat)
    requires Shape(ops, s) && Locks(ops, s) && s.readers != {}
    ensures Enabled(ops, s, t)
  {
    t :| t in s.readers;
    if s.pcs[t].Shared? && StripeOf(ops[t]) in s.stripes {
      t := OwnerCanStep(ops, s, StripeOf(ops[t]));
    }
  }

  /** Progress: while some call is unfinished, some call can take a step, also when a waiting
      migration keeps new readers out. */
  lemma Progress(ops: seq<Op>, s: Sys) returns (t: nat)
    requires Shape(ops, s) && Locks(ops, s) && !AllDone(s)
    ensures Enabled(ops, s, t)
  {
    t :| t < |ops| && !s.pcs[t].Done?;
    if !Enabled(ops, s, t) {
      if !ops[t].MigrateOp? && StripeOf(ops[t]) in s.stripes {
        t := OwnerCanStep(ops, s, StripeOf(ops[t]));
      } else if s.readers != {} {
        t := ReaderCanStep(ops, s);
      } else {
        t := s.writer.value;
      }
    }
  }

  /** How many steps a thread can still take at most. */
  function StepsLeft(pc: Pc): nat {
    match pc
    case Start => 7
    case Shared => 6
    case Waiting => 6
    case Holding => 5
    case Exclusive => 5
    case Looked(_) => 4
    case SawOld(_) => 4
    case Stored => 3
    case SawNew(_, _) => 3
    case Released => 2
    case Saved => 2
    case Deleted => 1
    case Done => 0
  }

  function TotalLeft(pcs: seq<Pc>): nat {
    if pcs == [] then 0 else TotalLeft(pcs[..|pcs| - 1]) + StepsLeft(pcs[|pcs| - 1])
  }

  lemma {:induction false} TotalUpdated(pcs: seq<Pc>, t: nat, pc: Pc)
    requires t < |pcs|
    ensures TotalLeft(pcs[t := pc]) == TotalLeft(pcs) - StepsLeft(pcs[t]) + StepsLeft(pc)
  {
    var n := |pcs| - 1;
    if t < n {
      TotalUpdated(pcs[..n], t, pc);
      assert pcs[t := pc][..n] == pcs[..n][t := pc];
    } else {
      assert pcs[t := pc][..n] == pcs[..n];
    }
  }

  lemma MoveUsesAStep(ops: seq<Op>, s: Sys, t: nat)
    requires Shape(ops, s) && Enabled(ops, s, t)
    ensures TotalLeft(Move(ops, s, t).pcs) < TotalLeft(s.pcs)
  {
    MoveKeepsOthers(ops, s, t);
    TotalUpdated(s.pcs, t, Move(ops, s, t).pcs[t]);
  }

  lemma {:induction false} TotalAtStart(n: nat)
    ensures TotalLeft(seq(n, _ => Start)) == 7 * n
  {
    if n > 0 {
      TotalAtStart(n - 1);
      assert seq(n, _ => Start)[..n - 1] == seq(n - 1, _ => Start);
    }
  }

  /** No run takes more than seven steps for each call. */
  lemma {:induction false} RunsAreShort(db0: DB, ops: seq<Op>, ss: seq<Sys>, ts: seq<nat>, n: nat)
    requires IsRun(db0, ops, ss, ts) && n <= |ts|
    ensures TotalLeft(ss[n].pcs) + n <= 7 * |ops|
  {
    if n == 0 {
      TotalAtStart(|ops|);
    } else {
      RunsAreShort(db0, ops, ss, ts, n - 1);
      MoveUsesAStep(ops, ss[n - 1], ts[n - 1]);
    }
  }

  lemma RunExtends(db0: DB, ops: seq<Op>, ss: seq<Sys>, ts: seq<nat>, t: nat)
    requires IsRun(db0, ops, ss, ts) && Shape(ops, ss[|ts|]) && Enabled(ops, ss[|ts|], t)
    ensures IsRun(db0, ops, ss + [Move(ops, ss[|ts|], t)], ts + [t])
  {
    var ss', ts' := ss + [Move(ops, ss[|ts|], t)], ts + [t];
    forall i | 0 <= i < |ts'|
      ensures Shape(ops, ss'[i]) && Enabled(ops, ss'[i], ts'[i]) && ss'[i + 1] == Move(ops, ss'[i], ts'[i])
    {
      assert ss'[i] == ss[i];
    }
  }

  /** So every run can be completed: it can be continued until all calls are done. */
  lemma {:induction false} RunsComplete(db0: DB, ops: seq<Op>, ss: seq<Sys>, ts: seq<nat>)
    returns (ss': seq<Sys>, ts': seq<nat>)
    requires IsRun(db0, ops, ss, ts)
    ensures IsRun(db0, ops, ss', ts') && ts <= ts' && ss <= ss' && AllDone(ss'[|ts'|])
    decreases TotalLeft(ss[|ts|].pcs)
  {
    var s := ss[|ts|];
    RunInv(db0, ops, ss, ts, |ts|);
    if AllDone(s) {
      ss', ts' := ss, ts;
    } else {
      var t := Progress(ops, s);
      MoveUsesAStep(ops, s, t);
      RunExtends(db0, ops, ss, ts, t);
      ss', ts' := RunsComplete(db0, ops, ss + [Move(ops, s, t)], ts + [t]);
    }
  }

  // ----- a consequence for the chat table -----

  ghost predicate WellTimed(chats: map<int, Chat>) {
    forall id :: id in chats ==> chats[id].lastUpdate <= chats[id].lastAction
  }

  lemma {:induction false} SerialWellTimed(db: DB, ops: seq<Op>, order: seq<nat>)
    requires Indices(ops, order) && WellTimed(db.chats)
    ensures WellTimed(Serial(db, ops, order).chats)
  {
    if order != [] {
      SerialWellTimed(db, ops, order[..|order| - 1]);
    }
  }

  /** After any concurrent run, migrations included, no chat was updated after its last action. */
  lemma FinalChatsWellTimed(db0: DB, ops: seq<Op>, ss: seq<Sys>, ts: seq<nat>)
    requires IsRun(db0, ops, ss, ts) && AllDone(ss[|ts|]) && WellTimed(db0.chats)
    ensures WellTimed(ss[|ts|].db.chats)
  {
    Serialisable(db0, ops, ss, ts);
    SerialWellTimed(db0, ops, ss[|ts|].order);
  }
}
