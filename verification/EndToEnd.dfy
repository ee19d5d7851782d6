/** Server, lossy and reordering transport, and synchroniser together. */
module EndToEnd {
  import opened ChainSafety
  import opened LogServer
  import opened PeerEntities
  import opened PtsOrder
  import opened StableSorting
  import opened Synchroniser
  import opened Telegram
  import opened Updates
  import opened WriteThrough
  import Sequencer

  // ----- what the handler has got -----

  function CommonIn(us: seq<TgUpdate>): seq<Message> {
    if us == [] then [] else (if us[0].CommonPts? then [us[0].msg] else []) + CommonIn(us[1..])
  }

  function SecretIn(us: seq<TgUpdate>): seq<Message> {
    if us == [] then [] else (if us[0].CommonQts? then [us[0].msg] else []) + SecretIn(us[1..])
  }

  /** The messages of the user log that the handler has seen, in order. */
  function CommonHandled(handled: seq<Bundle>): seq<Message> {
    if handled == [] then []
    else CommonHandled(handled[..|handled| - 1]) + CommonIn(handled[|handled| - 1].updates)
  }

  function SecretHandled(handled: seq<Bundle>): seq<Message> {
    if handled == [] then []
    else SecretHandled(handled[..|handled| - 1]) + SecretIn(handled[|handled| - 1].updates)
  }

  // ----- honesty -----

  ghost predicate AllGenuine(us: seq<TgUpdate>, srv: Logs) {
    forall u :: u in us ==> Genuine(u, srv)
  }

  ghost predicate GenuinePts(ps: seq<Update<TgUpdate>>, srv: Logs) {
    forall p :: p in ps ==>
      p.value.CommonPts? && Genuine(p.value, srv) && p.state == p.value.pts && p.count == 1
  }

  ghost predicate GenuineQts(ps: seq<Update<TgUpdate>>, srv: Logs) {
    forall p :: p in ps ==>
      p.value.CommonQts? && Genuine(p.value, srv) && p.state == p.value.qts && p.count == 1
  }

  ghost predicate GenuineSeq(ps: seq<Update<Combined>>, srv: Logs) {
    forall p :: p in ps ==> AllGenuine(p.value.updates, srv)
  }

  /** The handler has seen exactly the stretch of either log from where it began to the counter
      in memory, and everything still waiting is genuine. */
  ghost predicate Faithful(s: Sync, srv: Logs, p0: nat, q0: nat) {
    && p0 <= s.pts.state <= |srv.common| && q0 <= s.qts.state <= |srv.secret|
    && CommonHandled(s.handled) == srv.common[p0..s.pts.state]
    && SecretHandled(s.handled) == srv.secret[q0..s.qts.state]
    && GenuinePts(s.pts.pending, srv) && GenuineQts(s.qts.pending, srv) && GenuineSeq(s.seqn.pending, srv)
  }

  // ----- one delivered chain is one stretch of the log -----

  lemma {:induction false} ChainIsStretchPts(s: int, batch: seq<Update<TgUpdate>>, t: int, srv: Logs)
    requires GenuinePts(batch, srv) && Chain(s, batch, t) && 0 <= s <= |srv.common|
    ensures s <= t <= |srv.common|
    ensures CommonIn(Values(batch)) == srv.common[s..t] && SecretIn(Values(batch)) == []
    decreases batch
  {
    if batch == [] {
    } else {
      assert batch[0] in batch;
      assert GenuinePts(batch[1..], srv);
      ChainIsStretchPts(s + 1, batch[1..], t, srv);
      assert Values(batch)[1..] == Values(batch[1..]);
      assert srv.common[s..t] == [srv.common[s]] + srv.common[s + 1..t];
    }
  }

  lemma {:induction false} ChainIsStretchQts(s: int, batch: seq<Update<TgUpdate>>, t: int, srv: Logs)
    requires GenuineQts(batch, srv) && Chain(s, batch, t) && 0 <= s <= |srv.secret|
    ensures s <= t <= |srv.secret|
    ensures SecretIn(Values(batch)) == srv.secret[s..t] && CommonIn(Values(batch)) == []
    decreases batch
  {
    if batch == [] {
    } else {
      assert batch[0] in batch;
      assert GenuineQts(batch[1..], srv);
      ChainIsStretchQts(s + 1, batch[1..], t, srv);
      assert Values(batch)[1..] == Values(batch[1..]);
      assert srv.secret[s..t] == [srv.secret[s]] + srv.secret[s + 1..t];
    }
  }

  // ----- every step keeps faith -----

  lemma ReceivePtsGenuine(b: Sequencer.Box<TgUpdate>, u: Update<TgUpdate>, srv: Logs)
    requires GenuinePts(b.pending, srv) && GenuinePts([u], srv)
    ensures GenuinePts(Sequencer.Receive(b, u).box.pending, srv)
    ensures GenuinePts(Sequencer.Delivered(b, u), srv)
    ensures Chain(b.state, Sequencer.Delivered(b, u), Sequencer.Handle(b, u).state)
  {
    assert u in [u];
    HandleMembers(b, u);
    HandleChains(b, u);
  }

  lemma ReceiveQtsGenuine(b: Sequencer.Box<TgUpdate>, u: Update<TgUpdate>, srv: Logs)
    requires GenuineQts(b.pending, srv) && GenuineQts([u], srv)
    ensures GenuineQts(Sequencer.Receive(b, u).box.pending, srv)
    ensures GenuineQts(Sequencer.Delivered(b, u), srv)
    ensures Chain(b.state, Sequencer.Delivered(b, u), Sequencer.Handle(b, u).state)
  {
    assert u in [u];
    HandleMembers(b, u);
    HandleChains(b, u);
  }

  lemma FinishPtsFaithful(s: Sync, todo: Option<Sequencer.Batch<TgUpdate>>, srv: Logs, p0: nat, q0: nat)
    requires Faithful(s, srv, p0, q0)
    requires todo.Some? ==> GenuinePts(todo.value.updates, srv)
    requires todo.Some? ==> Chain(s.pts.state, todo.value.updates, todo.value.state)
    ensures Faithful(FinishPts(s, todo), srv, p0, q0)
  {
    if todo.Some? {
      var t := todo.value.state;
      ChainIsStretchPts(s.pts.state, todo.value.updates, t, srv);
      var s' := FinishPts(s, todo);
      assert s'.handled[..|s'.handled| - 1] == s.handled;
      assert srv.common[p0..t] == srv.common[p0..s.pts.state] + srv.common[s.pts.state..t];
    }
  }

  lemma FinishQtsFaithful(s: Sync, todo: Option<Sequencer.Batch<TgUpdate>>, srv: Logs, p0: nat, q0: nat)
    requires Faithful(s, srv, p0, q0)
    requires todo.Some? ==> GenuineQts(todo.value.updates, srv)
    requires todo.Some? ==> Chain(s.qts.state, todo.value.updates, todo.value.state)
    ensures Faithful(FinishQts(s, todo), srv, p0, q0)
  {
    if todo.Some? {
      var t := todo.value.state;
      ChainIsStretchQts(s.qts.state, todo.value.updates, t, srv);
      var s' := FinishQts(s, todo);
      assert s'.handled[..|s'.handled| - 1] == s.handled;
      assert srv.secret[q0..t] == srv.secret[q0..s.qts.state] + srv.secret[s.qts.state..t];
    }
  }

  lemma HandlePtsFaithful(s: Sync, u: TgUpdate, ents: Entities, srv: Logs, p0: nat, q0: nat)
    requires Faithful(s, srv, p0, q0) && u.CommonPts? && Genuine(u, srv)
    ensures Faithful(HandlePts(s, u.pts, u.ptsCount, u, ents), srv, p0, q0)
  {
    var up := Update(u, u.pts, u.ptsCount, ents);
    ReceivePtsGenuine(s.pts, up, srv);
    ReceiveKeepsState(s.pts, up);
    var r := Sequencer.Receive(s.pts, up);
    FinishPtsFaithful(s.(pts := r.box), r.todo, srv, p0, q0);
  }

  lemma HandleQtsFaithful(s: Sync, u: TgUpdate, ents: Entities, srv: Logs, p0: nat, q0: nat)
    requires Faithful(s, srv, p0, q0) && u.CommonQts? && Genuine(u, srv)
    ensures Faithful(HandleQts(s, u.qts, u, ents), srv, p0, q0)
  {
    var up := Update(u, u.qts, 1, ents);
    ReceiveQtsGenuine(s.qts, up, srv);
    ReceiveKeepsState(s.qts, up);
    var r := Sequencer.Receive(s.qts, up);
    FinishQtsFaithful(s.(qts := r.box), r.todo, srv, p0, q0);
  }

  ghost predicate NoneCounted(us: seq<TgUpdate>) {
    forall u :: u in us ==> !u.CommonPts? && !u.CommonQts?
  }

  lemma {:induction false} NoneCountedNoMessages(us: seq<TgUpdate>)
    requires NoneCounted(us)
    ensures CommonIn(us) == [] && SecretIn(us) == []
  {
    if us != [] {
      assert us[0] in us;
      NoneCountedNoMessages(us[1..]);
    }
  }

  lemma {:induction false} RouteAllFaithful(r: Routing, us: seq<TgUpdate>, ents: Entities, srv: Logs, p0: nat, q0: nat)
    requires Faithful(r.sync, srv, p0, q0) && NoneCounted(r.others) && AllGenuine(us, srv)
    ensures Faithful(RouteAll(r, us, ents).sync, srv, p0, q0) && NoneCounted(RouteAll(r, us, ents).others)
  {
    if us != [] {
      var front, u := us[..|us| - 1], us[|us| - 1];
      assert u in us;
      RouteAllFaithful(r, front, ents, srv, p0, q0);
      var mid := RouteAll(r, front, ents);
      match u {
        case CommonPts(_, _, _) => HandlePtsFaithful(mid.sync, u, ents, srv, p0, q0);
        case CommonQts(_, _) => HandleQtsFaithful(mid.sync, u, ents, srv, p0, q0);
        case _ =>
      }
    }
  }

  lemma HandOnOthers(s: Sync, others: seq<TgUpdate>, ents: Entities, srv: Logs, p0: nat, q0: nat)
    requires Faithful(s, srv, p0, q0) && NoneCounted(others)
    ensures Faithful(s.(handled := s.handled + [Bundle(others, ents)]), srv, p0, q0)
  {
    NoneCountedNoMessages(others);
    assert (s.handled + [Bundle(others, ents)])[..|s.handled|] == s.handled;
  }

  lemma ApplyCombinedFaithful(s: Sync, c: Combined, srv: Logs, p0: nat, q0: nat)
    requires Faithful(s, srv, p0, q0) && AllGenuine(c.updates, srv)
    ensures Faithful(ApplyCombined(s, c).0, srv, p0, q0)
  {
    hide RouteAll, StableSort;
    SortMembers(c.updates, Less);
    var sorted := StableSort(c.updates, Less);
    RouteAllFaithful(Routing(s, [], false), sorted, c.ents, srv, p0, q0);
    var r := RouteAll(Routing(s, [], false), sorted, c.ents);
    HandOnOthers(r.sync, r.others, c.ents, srv, p0, q0);
  }

  lemma {:induction false} ApplyCombinedAllFaithful(s: Sync, batch: seq<Update<Combined>>, srv: Logs, p0: nat, q0: nat)
    requires Faithful(s, srv, p0, q0) && GenuineSeq(batch, srv)
    ensures Faithful(ApplyCombinedAll(s, batch).0, srv, p0, q0)
  {
    if batch != [] {
      var front, last := batch[..|batch| - 1], batch[|batch| - 1];
      assert last in batch;
      ApplyCombinedAllFaithful(s, front, srv, p0, q0);
      ApplyCombinedFaithful(ApplyCombinedAll(s, front).0, last.value, srv, p0, q0);
    }
  }

  lemma ReceiveSeqGenuine(b: Sequencer.Box<Combined>, u: Update<Combined>, srv: Logs)
    requires GenuineSeq(b.pending, srv) && AllGenuine(u.value.updates, srv)
    ensures GenuineSeq(Sequencer.Receive(b, u).box.pending, srv)
    ensures GenuineSeq(Sequencer.Applied(Sequencer.Receive(b, u)), srv)
  {
    HandleMembers(b, u);
  }

  lemma ReceivedSeqFaithful(s: Sync, r: Sequencer.Received<Combined>, srv: Logs, p0: nat, q0: nat)
    requires Faithful(s, srv, p0, q0)
    requires GenuineSeq(r.box.pending, srv) && GenuineSeq(Sequencer.Applied(r), srv)
    ensures Faithful(FinishSeq(s.(seqn := r.box), r.todo), srv, p0, q0)
  {
    FinishSeqFaithful(s.(seqn := r.box), r.todo, srv, p0, q0);
  }

  lemma FinishSeqFaithful(s: Sync, todo: Option<Sequencer.Batch<Combined>>, srv: Logs, p0: nat, q0: nat)
    requires Faithful(s, srv, p0, q0) && (todo.Some? ==> GenuineSeq(todo.value.updates, srv))
    ensures Faithful(FinishSeq(s, todo), srv, p0, q0)
  {
    if todo.Some? {
      ApplyCombinedAllFaithful(s, todo.value.updates, srv, p0, q0);
    }
  }

  lemma HandleSeqFaithful(s: Sync, c: Combined, srv: Logs, p0: nat, q0: nat)
    requires Faithful(s, srv, p0, q0) && AllGenuine(c.updates, srv)
    ensures Faithful(HandleSeq(s, c), srv, p0, q0)
  {
    ApplyCombinedFaithful(s, c, srv, p0, q0);
    HandleNumberedFaithful(s, c, srv, p0, q0);
  }

  lemma QueueSeqGenuine(s: Sync, c: Combined, srv: Logs)
    requires GenuineSeq(s.seqn.pending, srv) && AllGenuine(c.updates, srv)
    ensures GenuineSeq(QueueSeq(s, c).box.pending, srv) && GenuineSeq(Sequencer.Applied(QueueSeq(s, c)), srv)
  {
    hide Sequencer.Receive;
    ReceiveSeqGenuine(s.seqn, Update(c, c.seqNo, c.seqNo - c.seqStart + 1, NO_ENTITIES), srv);
  }

  lemma HandleNumberedFaithful(s: Sync, c: Combined, srv: Logs, p0: nat, q0: nat)
    requires Faithful(s, srv, p0, q0) && AllGenuine(c.updates, srv)
    ensures Faithful(HandleNumbered(s, c), srv, p0, q0)
  {
    QueueSeqGenuine(s, c, srv);
    ReceivedSeqFaithful(s, QueueSeq(s, c), srv, p0, q0);
  }

  lemma HandleUpdatesFaithful(s: Sync, u: UpdatesClass, srv: Logs, p0: nat, q0: nat)
    requires Faithful(s, srv, p0, q0) && AllGenuine(UpdatesIn(u), srv)
    ensures Faithful(HandleUpdates(s, u), srv, p0, q0)
  {
    match u
    case TgUpdates(updates, ents, date, seqNo) =>
      HandleSeqFaithful(s, Combined(updates, ents, date, seqNo, seqNo), srv, p0, q0);
    case TgUpdatesCombined(c) => HandleSeqFaithful(s, c, srv, p0, q0);
    case TgUpdateShort(update, date) => HandleSeqFaithful(s, Combined([update], NO_ENTITIES, date, 0, 0), srv, p0, q0);
    case TgUpdatesTooLong =>
  }

  // ----- resynchronisation -----

  lemma {:induction false} NewerThanNotCounted(id: int, msgs: seq<Message>, date: int)
    ensures NoneCounted(NewerThan(id, msgs, date))
  {
    if msgs != [] {
      NewerThanNotCounted(id, msgs[..|msgs| - 1], date);
    }
  }

  lemma {:induction false} OthersNotCounted(channels: map<int, seq<Message>>, order: seq<int>, date: int)
    requires forall id :: id in order ==> id in channels
    ensures NoneCounted(OtherUpdates(channels, order, date))
  {
    if order != [] {
      var last := |order| - 1;
      OthersNotCounted(channels, order[..last], date);
      NewerThanNotCounted(order[last], channels[order[last]], date);
    }
  }

  lemma {:induction false} RouteNoneCounted(r: Routing, us: seq<TgUpdate>, ents: Entities)
    requires NoneCounted(us)
    ensures RouteAll(r, us, ents).sync.pts == r.sync.pts && RouteAll(r, us, ents).sync.qts == r.sync.qts
  {
    if us != [] {
      assert us[|us| - 1] in us;
      RouteNoneCounted(r, us[..|us| - 1], ents);
    }
  }

  /** A difference's other updates leave the two counters alone. */
  lemma OthersKeepCounters(s: Sync, others: seq<TgUpdate>, ents: Entities, date: int)
    requires NoneCounted(others)
    ensures var s' := HandleUpdates(s, TgUpdatesCombined(Combined(others, ents, date, 0, 0)));
      s'.pts == s.pts && s'.qts == s.qts
  {
    SortMembers(others, Less);
    RouteNoneCounted(Routing(s, [], false), StableSort(others, Less), ents);
  }

  lemma {:induction false} CommonInConcat(a: seq<TgUpdate>, b: seq<TgUpdate>)
    ensures CommonIn(a + b) == CommonIn(a) + CommonIn(b)
  {
    if a == [] {
      assert a + b == b;
    } else {
      assert (a + b)[1..] == a[1..] + b && (a + b)[0] == a[0];
      CommonInConcat(a[1..], b);
    }
  }

  lemma {:induction false} SecretInConcat(a: seq<TgUpdate>, b: seq<TgUpdate>)
    ensures SecretIn(a + b) == SecretIn(a) + SecretIn(b)
  {
    if a == [] {
      assert a + b == b;
    } else {
      assert (a + b)[1..] == a[1..] + b && (a + b)[0] == a[0];
      SecretInConcat(a[1..], b);
    }
  }

  lemma {:induction false} MessagesSurvive(msgs: seq<Message>)
    ensures CommonIn(MessagesToUpdates(msgs)) == msgs && SecretIn(MessagesToUpdates(msgs)) == []
    ensures SecretIn(EncryptedToUpdates(msgs)) == msgs && CommonIn(EncryptedToUpdates(msgs)) == []
  {
    if msgs != [] {
      MessagesSurvive(msgs[1..]);
      assert MessagesToUpdates(msgs)[1..] == MessagesToUpdates(msgs[1..]);
      assert EncryptedToUpdates(msgs)[1..] == EncryptedToUpdates(msgs[1..]);
    }
  }

  /** Handing on the messages of a difference. */
  lemma HandOnMessages(handled: seq<Bundle>, common: seq<Message>, secret: seq<Message>, ents: Entities)
    ensures var after := handled + [Bundle(MessagesToUpdates(common) + EncryptedToUpdates(secret), ents)];
      CommonHandled(after) == CommonHandled(handled) + common && SecretHandled(after) == SecretHandled(handled) + secret
  {
    var b := Bundle(MessagesToUpdates(common) + EncryptedToUpdates(secret), ents);
    assert (handled + [b])[..|handled|] == handled;
    MessagesSurvive(common);
    MessagesSurvive(secret);
    CommonInConcat(MessagesToUpdates(common), EncryptedToUpdates(secret));
    SecretInConcat(MessagesToUpdates(common), EncryptedToUpdates(secret));
  }

  /** A negative counter would make the server index its log out of range. */
  ghost predicate CanAsk(s: Sync, srv: Logs, order: seq<int>) {
    s.pts.state >= 0 && s.qts.state >= 0 && VisitsAll(order, srv.channels)
  }

  function ServerDifference(s: Sync, srv: Logs, order: seq<int>, ents: Entities): Difference
    requires CanAsk(s, srv, order)
  {
    GetDifference(srv, s.pts.state, s.qts.state, s.date, order, ents)
  }

  /** The next n and m messages are handed on, and the counters move by as much. */
  lemma MessagesFaithful(s: Sync, srv: Logs, n: nat, m: nat, ents: Entities, st: State, p0: nat, q0: nat)
    requires Faithful(s, srv, p0, q0)
    requires st.pts == s.pts.state + n <= |srv.common| && st.qts == s.qts.state + m <= |srv.secret|
    ensures var common, secret := srv.common[s.pts.state..st.pts], srv.secret[s.qts.state..st.qts];
      var after := if common == [] && secret == [] then s.handled
                   else s.handled + [Bundle(MessagesToUpdates(common) + EncryptedToUpdates(secret), ents)];
      Faithful(SetState(s.(handled := after), st), srv, p0, q0)
  {
    var common, secret := srv.common[s.pts.state..st.pts], srv.secret[s.qts.state..st.qts];
    HandOnMessages(s.handled, common, secret, ents);
    assert srv.common[p0..st.pts] == srv.common[p0..s.pts.state] + common;
    assert srv.secret[q0..st.qts] == srv.secret[q0..s.qts.state] + secret;
  }

  /** An answer is applied whose other updates move no counter. */
  lemma AnswerFaithful(s: Sync, srv: Logs, n: nat, m: nat, others: seq<TgUpdate>, ents: Entities, date: int,
                       st: State, p0: nat, q0: nat)
    requires Faithful(s, srv, p0, q0) && NoneCounted(others)
    requires st.pts == s.pts.state + n <= |srv.common| && st.qts == s.qts.state + m <= |srv.secret|
    ensures var common, secret := srv.common[s.pts.state..st.pts], srv.secret[s.qts.state..st.qts];
      Faithful(SetState(ApplyDifference(ClearGaps(s), common, secret, others, ents, date), st), srv, p0, q0)
  {
    hide HandleUpdates, CommonHandled, SecretHandled;
    var c := ClearGaps(s);
    assert Faithful(c, srv, p0, q0);
    if others == [] {
      MessagesFaithful(c, srv, n, m, ents, st, p0, q0);
    } else {
      var u := TgUpdatesCombined(Combined(others, ents, date, 0, 0));
      HandleUpdatesFaithful(c, u, srv, p0, q0);
      OthersKeepCounters(c, others, ents, date);
      MessagesFaithful(HandleUpdates(c, u), srv, n, m, ents, st, p0, q0);
    }
  }

  /** Right after a resynchronisation the handler has the whole of both logs. */
  lemma ResyncFaithful(s: Sync, srv: Logs, order: seq<int>, ents: Entities, p0: nat, q0: nat)
    requires Faithful(s, srv, p0, q0) && VisitsAll(order, srv.channels)
    ensures var s' := Resync(s, ServerDifference(s, srv, order, ents));
      && Faithful(s', srv, p0, q0)
      && s'.pts.state == |srv.common| && s'.qts.state == |srv.secret|
  {
    hide ApplyDifference;
    var diff := ServerDifference(s, srv, order, ents);
    if diff.Difference? {
      OthersNotCounted(srv.channels, order, s.date);
      AnswerFaithful(s, srv, |srv.common| - s.pts.state, |srv.secret| - s.qts.state, diff.others, diff.ents, 0,
                     GetState(srv), p0, q0);
      assert srv.common[s.pts.state..|srv.common|] == srv.common[s.pts.state..];
      assert srv.secret[s.qts.state..|srv.secret|] == srv.secret[s.qts.state..];
    } else {
      assert Faithful(ClearGaps(s), srv, p0, q0);
    }
  }

  /** What the server may put into a slice: the next messages, as many as it likes, and other
      updates that move neither counter. */
  ghost predicate CanSlice(s: Sync, srv: Logs, n: nat, m: nat, others: seq<TgUpdate>) {
    && s.pts.state >= 0 && s.qts.state >= 0
    && s.pts.state + n <= |srv.common| && s.qts.state + m <= |srv.secret|
    && NoneCounted(others)
  }

  function ServerSlice(s: Sync, srv: Logs, n: nat, m: nat, others: seq<TgUpdate>, ents: Entities,
                       date: int, seqNo: int): Difference
    requires CanSlice(s, srv, n, m, others)
  {
    GetSlice(srv, s.pts.state, s.qts.state, n, m, others, ents, date, seqNo)
  }

  /** After a slice the handler has both logs up to where the slice leads. */
  lemma SliceFaithful(s: Sync, srv: Logs, n: nat, m: nat, others: seq<TgUpdate>, ents: Entities,
                      date: int, seqNo: int, p0: nat, q0: nat)
    requires Faithful(s, srv, p0, q0) && CanSlice(s, srv, n, m, others)
    ensures var s' := Resync(s, ServerSlice(s, srv, n, m, others, ents, date, seqNo));
      && Faithful(s', srv, p0, q0)
      && s'.pts.state == s.pts.state + n && s'.qts.state == s.qts.state + m
  {
    hide ApplyDifference;
    var diff := ServerSlice(s, srv, n, m, others, ents, date, seqNo);
    AnswerFaithful(s, srv, n, m, others, ents, date, diff.state, p0, q0);
  }

  // ----- runs of the whole system -----

  datatype World = World(sync: Sync, srv: Logs)

  /** The server appends, the transport delivers any container of genuine updates (old or new,
      in any order, any number of times, or never), or the client resynchronises and gets the
      whole difference or a slice of it. */
  datatype Act =
    | NewEvent
    | AppendCommon(text: string)
    | AppendSecret(text: string)
    | AppendChannel(id: int, text: string)
    | Deliver(u: UpdatesClass)
    | Resynchronise(order: seq<int>, ents: Entities)
    | ResyncSlice(n: nat, m: nat, others: seq<TgUpdate>, ents: Entities, date: int, seqNo: int)

  ghost predicate Possible(w: World, a: Act) {
    match a
    case Deliver(u) => AllGenuine(UpdatesIn(u), w.srv)
    case Resynchronise(order, _) => CanAsk(w.sync, w.srv, order)
    case ResyncSlice(n, m, others, _, _, _) => CanSlice(w.sync, w.srv, n, m, others)
    case _ => true
  }

  predicate IsAppend(a: Act) {
    !a.Deliver? && !a.Resynchronise? && !a.ResyncSlice?
  }

  function Append(srv: Logs, a: Act): Logs
    requires IsAppend(a)
  {
    match a
    case NewEvent => NextEvent(srv)
    case AppendCommon(text) => WithCommon(srv, text)
    case AppendSecret(text) => WithSecret(srv, text)
    case AppendChannel(id, text) => WithChannel(srv, id, text)
  }

  ghost function Do(w: World, a: Act): World
    requires Possible(w, a)
  {
    match a
    case Deliver(u) => w.(sync := HandleUpdates(w.sync, u))
    case Resynchronise(order, ents) => w.(sync := Resync(w.sync, ServerDifference(w.sync, w.srv, order, ents)))
    case ResyncSlice(n, m, others, ents, date, seqNo) =>
      w.(sync := Resync(w.sync, ServerSlice(w.sync, w.srv, n, m, others, ents, date, seqNo)))
    case _ => w.(srv := Append(w.srv, a))
  }

  /** A synchroniser created from a user state within the logs begins there, and agrees with the
      storage it was loaded from. */
  lemma StartsFaithful(st: State, channels: set<int>, srv: Logs)
    requires 0 <= st.pts <= |srv.common| && 0 <= st.qts <= |srv.secret|
    ensures Faithful(Create(st, Some(st), channels), srv, st.pts, st.qts)
    ensures Agrees(Create(st, Some(st), channels)) && Safe(Create(st, Some(st), channels))
  {
    assert srv.common[st.pts..st.pts] == [] && srv.secret[st.qts..st.qts] == [];
  }

  /** ws is a run: every act is possible where it happens. */
  ghost predicate IsRun(ws: seq<World>, acts: seq<Act>) {
    && |ws| == |acts| + 1
    && forall i :: 0 <= i < |acts| ==> Possible(ws[i], acts[i]) && ws[i + 1] == Do(ws[i], acts[i])
  }

  /** What was genuine stays genuine, for the logs only grow. */
  lemma AppendFaithful(w: World, a: Act, p0: nat, q0: nat)
    requires Faithful(w.sync, w.srv, p0, q0) && IsAppend(a)
    ensures Faithful(w.sync, Append(w.srv, a), p0, q0)
  {
    var srv, srv' := w.srv, Append(w.srv, a);
    assert forall u :: Genuine(u, srv) ==> Genuine(u, srv');
    forall p | p in w.sync.seqn.pending ensures AllGenuine(p.value.updates, srv') {
      assert AllGenuine(p.value.updates, srv);
    }
    assert srv'.common[p0..w.sync.pts.state] == srv.common[p0..w.sync.pts.state];
    assert srv'.secret[q0..w.sync.qts.state] == srv.secret[q0..w.sync.qts.state];
  }

  /** The handler has the whole of both logs. */
  ghost predicate CaughtUp(w: World, p0: nat, q0: nat)
    requires p0 <= |w.srv.common| && q0 <= |w.srv.secret|
  {
    && CommonHandled(w.sync.handled) == w.srv.common[p0..]
    && SecretHandled(w.sync.handled) == w.srv.secret[q0..]
  }

  lemma DoFaithful(w: World, a: Act, p0: nat, q0: nat)
    requires Faithful(w.sync, w.srv, p0, q0) && Possible(w, a)
    ensures Faithful(Do(w, a).sync, Do(w, a).srv, p0, q0)
    ensures a.Resynchronise? ==> CaughtUp(Do(w, a), p0, q0)
  {
    hide HandleUpdates, Resync, ServerDifference, ServerSlice, CommonHandled, SecretHandled;
    match a
    case Deliver(u) => HandleUpdatesFaithful(w.sync, u, w.srv, p0, q0);
    case Resynchronise(order, ents) =>
      ResyncFaithful(w.sync, w.srv, order, ents, p0, q0);
      assert w.srv.common[p0..|w.srv.common|] == w.srv.common[p0..];
      assert w.srv.secret[q0..|w.srv.secret|] == w.srv.secret[q0..];
    case ResyncSlice(n, m, others, ents, date, seqNo) =>
      SliceFaithful(w.sync, w.srv, n, m, others, ents, date, seqNo, p0, q0);
    case _ => AppendFaithful(w, a, p0, q0);
  }

  /** End to end: in every state of every run the handler has been given exactly the stretch of
      the user log (and of the secret log) between where it began and the counter in memory;
      after a complete resynchronisation that is everything up to the end of the log. */
  lemma {:induction false} RunFaithful(ws: seq<World>, acts: seq<Act>, p0: nat, q0: nat, n: nat)
    requires IsRun(ws, acts) && Faithful(ws[0].sync, ws[0].srv, p0, q0) && n <= |acts|
    ensures Faithful(ws[n].sync, ws[n].srv, p0, q0)
    ensures n > 0 && acts[n - 1].Resynchronise? ==> CaughtUp(ws[n], p0, q0)
  {
    if n > 0 {
      RunFaithful(ws, acts, p0, q0, n - 1);
      var w, a := ws[n - 1], acts[n - 1];
      assert Possible(w, a) && ws[n] == Do(w, a);
      DoFaithful(w, a, p0, q0);
    }
  }
}
