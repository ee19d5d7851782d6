/** When the handler has a whole log: in any run of the server, the transport and the
    synchroniser, resynchronisations included, exactly when each of its messages was announced in
    a batch that was applied or covered by the answer to a resynchronisation, and no slice has
    left the counter stalled.
 */
module Completeness {
  import opened BatchCounters
  import opened ChainSafety
  import opened EndToEnd
  import opened GapBuffers
  import opened HonestLog
  import opened LogServer
  import opened PeerEntities
  import opened PtsOrder
  import opened StableSorting
  import opened Synchroniser
  import opened Telegram
  import opened Updates
  import opened WriteThrough
  import Sequencer

  // ----- the batches that a call applies -----

  function BatchValues(batch: seq<Update<Combined>>): (cs: seq<Combined>)
    ensures |cs| == |batch| && forall i :: 0 <= i < |cs| ==> cs[i] == batch[i].value
  {
    seq(|batch|, i requires 0 <= i < |batch| => batch[i].value)
  }

  /** An unnumbered batch is applied at once; a numbered one when the seq sequencer says so,
      together with what has waited for it. */
  function BatchesOf(s: Sync, c: Combined): seq<Combined> {
    if c.seqNo < 0 || c.seqStart < 0 then []
    else if c.seqNo == 0 then [c]
    else BatchValues(Sequencer.Applied(QueueSeq(s, c)))
  }

  function BatchesIn(s: Sync, u: UpdatesClass): seq<Combined> {
    match u
    case TgUpdates(updates, ents, date, seqNo) => BatchesOf(s, Combined(updates, ents, date, seqNo, seqNo))
    case TgUpdatesCombined(c) => BatchesOf(s, c)
    case TgUpdateShort(update, date) => BatchesOf(s, Combined([update], NO_ENTITIES, date, 0, 0))
    case TgUpdatesTooLong => []
  }

  // ----- what one step keeps -----

  /** A sequencer over a log of n messages for which the invariant holds. */
  ghost predicate Collecting<V(!new)>(b: Sequencer.Box<V>, n: nat) {
    0 <= b.state <= n && InvAt(Places(n), b, b.state)
  }

  lemma LoggedWithinLog<V(!new)>(us: seq<Update<V>>, n: nat, i: nat)
    requires AllLogged(Places(n), us) && i >= n
    ensures !Waits(us, i)
  {
    forall p | p in us ensures p.Start() < n {
      var j: nat :| At(Places(n), p, j);
    }
  }

  /** Nothing beyond the log is kept. */
  lemma KeptWithinLog<V(!new)>(b: Sequencer.Box<V>, n: nat, i: nat)
    requires Collecting(b, n) && i >= n
    ensures !Kept(b, i)
  {
    LoggedWithinLog(b.pending, n, i);
  }

  /** Applying the batches cs takes b to b': what is kept grows by exactly what they announce. */
  ghost predicate Collects(counter: Counter, b: Sequencer.Box<TgUpdate>, cs: seq<Combined>,
                           b': Sequencer.Box<TgUpdate>, n: nat) {
    && Collecting(b', n)
    && (Quiet(b) ==> Quiet(b'))
    && forall i: nat :: Kept(b', i) <==> Kept(b, i) || AnnouncedIn(counter, cs, i)
  }

  lemma RunCollecting<V(!new)>(b: Sequencer.Box<V>, us: seq<Update<V>>, n: nat)
    requires Collecting(b, n) && AllLogged(Places(n), us)
    ensures Collecting(Sequencer.HandleAll(b, us), n)
    ensures Quiet(b) ==> Quiet(Sequencer.HandleAll(b, us))
    ensures forall i: nat :: Kept(Sequencer.HandleAll(b, us), i) <==> Kept(b, i) || Waits(us, i)
  {
    hide Sequencer.HandleAll, Sequencer.DeliveredAll;
    var b' := Sequencer.HandleAll(b, us);
    var k' := RunHonest(Places(n), b, b.state, us);
    forall i: nat ensures Kept(b', i) <==> Kept(b, i) || Waits(us, i) {
      if i < n {
        assert Places(n)[i] == i && i in Places(n);
      } else {
        KeptWithinLog(b, n, i);
        KeptWithinLog(b', n, i);
        LoggedWithinLog(us, n, i);
      }
    }
  }

  lemma CombinedCollects(counter: Counter, s: Sync, c: Combined, srv: Logs)
    requires Collecting(BoxOf(counter, s), |LogOf(counter, srv)|) && AllGenuine(c.updates, srv)
    ensures Collects(counter, BoxOf(counter, s), [c], BoxOf(counter, ApplyCombined(s, c).0), |LogOf(counter, srv)|)
  {
    hide ApplyCombined, Counted, Sequencer.HandleAll;
    var us := Counted(counter, StableSort(c.updates, Less), c.ents);
    CombinedProjects(counter, s, c);
    SortedGenuine(counter, c, srv);
    RunCollecting(BoxOf(counter, s), us, |LogOf(counter, srv)|);
    forall i: nat ensures AnnouncedIn(counter, [c], i) <==> Waits(us, i) {
      assert c in [c];
    }
  }

  lemma CollectsMore(counter: Counter, b: Sequencer.Box<TgUpdate>, cs: seq<Combined>, mid: Sequencer.Box<TgUpdate>,
                     c: Combined, b': Sequencer.Box<TgUpdate>, n: nat)
    requires Collects(counter, b, cs, mid, n) && Collects(counter, mid, [c], b', n)
    ensures Collects(counter, b, cs + [c], b', n)
  {
    assert forall d :: d in cs + [c] <==> d in cs || d in [c];
  }

  lemma {:induction false} BatchCollects(counter: Counter, s: Sync, batch: seq<Update<Combined>>, srv: Logs)
    requires Collecting(BoxOf(counter, s), |LogOf(counter, srv)|) && GenuineSeq(batch, srv)
    ensures Collects(counter, BoxOf(counter, s), BatchValues(batch), BoxOf(counter, ApplyCombinedAll(s, batch).0),
                     |LogOf(counter, srv)|)
  {
    hide ApplyCombined;
    if batch != [] {
      var front, last := batch[..|batch| - 1], batch[|batch| - 1];
      assert last in batch;
      var mid := ApplyCombinedAll(s, front).0;
      BatchCollects(counter, s, front, srv);
      CombinedCollects(counter, mid, last.value, srv);
      assert BatchValues(batch) == BatchValues(front) + [last.value];
      CollectsMore(counter, BoxOf(counter, s), BatchValues(front), BoxOf(counter, mid), last.value,
                   BoxOf(counter, ApplyCombined(mid, last.value).0), |LogOf(counter, srv)|);
    }
  }

  lemma NumberedCollects(counter: Counter, s: Sync, r: Sequencer.Received<Combined>, srv: Logs)
    requires Collecting(BoxOf(counter, s), |LogOf(counter, srv)|) && GenuineSeq(Sequencer.Applied(r), srv)
    ensures Collects(counter, BoxOf(counter, s), BatchValues(Sequencer.Applied(r)),
                     BoxOf(counter, FinishSeq(s.(seqn := r.box), r.todo)), |LogOf(counter, srv)|)
  {
    hide ApplyCombinedAll;
    BatchCollects(counter, s.(seqn := r.box), Sequencer.Applied(r), srv);
  }

  lemma HandleSeqCollects(counter: Counter, s: Sync, c: Combined, srv: Logs)
    requires Collecting(BoxOf(counter, s), |LogOf(counter, srv)|)
    requires GenuineSeq(s.seqn.pending, srv) && AllGenuine(c.updates, srv)
    ensures Collects(counter, BoxOf(counter, s), BatchesOf(s, c), BoxOf(counter, HandleSeq(s, c)),
                     |LogOf(counter, srv)|)
  {
    hide ApplyCombined, QueueSeq, FinishSeq;
    CombinedCollects(counter, s, c, srv);
    QueueSeqGenuine(s, c, srv);
    NumberedCollects(counter, s, QueueSeq(s, c), srv);
  }

  lemma HandleUpdatesCollects(counter: Counter, s: Sync, u: UpdatesClass, srv: Logs)
    requires Collecting(BoxOf(counter, s), |LogOf(counter, srv)|)
    requires GenuineSeq(s.seqn.pending, srv) && AllGenuine(UpdatesIn(u), srv)
    ensures Collects(counter, BoxOf(counter, s), BatchesIn(s, u), BoxOf(counter, HandleUpdates(s, u)),
                     |LogOf(counter, srv)|)
  {
    hide HandleSeq, BatchesOf;
    match u
    case TgUpdates(updates, ents, date, seqNo) =>
      HandleSeqCollects(counter, s, Combined(updates, ents, date, seqNo, seqNo), srv);
    case TgUpdatesCombined(c) => HandleSeqCollects(counter, s, c, srv);
    case TgUpdateShort(update, date) =>
      HandleSeqCollects(counter, s, Combined([update], NO_ENTITIES, date, 0, 0), srv);
    case TgUpdatesTooLong =>
  }

  /** A resynchronisation sets a counter to the end of its log and leaves the pending updates,
      which are all outdated then. */
  lemma ResyncBox(counter: Counter, s: Sync, srv: Logs, order: seq<int>, ents: Entities, p0: nat, q0: nat)
    requires Faithful(s, srv, p0, q0) && VisitsAll(order, srv.channels)
    ensures BoxOf(counter, Resync(s, ServerDifference(s, srv, order, ents)))
         == Sequencer.Box(|LogOf(counter, srv)|, [], BoxOf(counter, s).pending)
  {
    hide HandleUpdates, Faithful;
    FaithfulOf(PtsCounter, s, srv, p0, q0);
    FaithfulOf(QtsCounter, s, srv, p0, q0);
    var diff := ServerDifference(s, srv, order, ents);
    if diff.Difference? {
      OthersNotCounted(srv.channels, order, s.date);
      OthersKeepCounters(ClearGaps(s), diff.others, diff.ents, 0);
    }
  }

  /** A slice moves a counter by the number of its messages, clears its gaps, and leaves the
      pending updates. */
  lemma SliceBox(counter: Counter, s: Sync, srv: Logs, n: nat, m: nat, others: seq<TgUpdate>, ents: Entities,
                 date: int, seqNo: int)
    requires CanSlice(s, srv, n, m, others)
    ensures var b := BoxOf(counter, s);
      BoxOf(counter, Resync(s, ServerSlice(s, srv, n, m, others, ents, date, seqNo)))
      == Sequencer.Box(b.state + if counter.PtsCounter? then n else m, [], b.pending)
  {
    hide HandleUpdates;
    OthersKeepCounters(ClearGaps(s), others, ents, date);
  }

  /** Setting a counter forward with its gaps cleared keeps the invariant; something applicable is
      left waiting exactly when a pending update starts at the new state. */
  lemma ForwardCollects<V(!new)>(b: Sequencer.Box<V>, n: nat, t: nat)
    requires Collecting(b, n) && b.state <= t <= n
    ensures var b' := Sequencer.Box(t, [], b.pending);
      && Collecting(b', n)
      && (Quiet(b') <==> !Waits(b.pending, t))
      && (t == n ==> Quiet(b'))
  {
    LoggedWithinLog(b.pending, n, n);
  }

  /** When the log grows, what was logged stays logged. */
  lemma LongerLogCollects<V(!new)>(b: Sequencer.Box<V>, n: nat, n': nat)
    requires Collecting(b, n) && n <= n'
    ensures Collecting(b, n')
  {
    forall p | p in b.pending ensures Logged(Places(n'), p) {
      var j :| At(Places(n), p, j);
      assert At(Places(n'), p, j);
    }
    if b.gaps != [] {
      var m :| Missing(Places(n), b, b.state, m);
      forall x | x in Places(n) ensures x in Places(n') {
        assert Places(n')[x] == x;
      }
      assert Missing(Places(n'), b, b.state, m);
    }
  }

  // ----- runs -----

  /** The act makes message i known: it is announced in a batch that is applied, or the answer to a
      resynchronisation leads beyond it. */
  ghost predicate Told(counter: Counter, w: World, a: Act, i: int) {
    match a
    case Deliver(u) => AnnouncedIn(counter, BatchesIn(w.sync, u), i)
    case Resynchronise(_, _) => i < |LogOf(counter, w.srv)|
    case ResyncSlice(n, m, _, _, _, _) =>
      i < BoxOf(counter, w.sync).state + if counter.PtsCounter? then n else m
    case _ => false
  }

  ghost predicate ToldDuring(counter: Counter, ws: seq<World>, acts: seq<Act>, a: nat, n: nat, i: int)
    requires n <= |acts| <= |ws|
  {
    exists j :: a <= j < n && Told(counter, ws[j], acts[j], i)
  }

  ghost predicate Sound(counter: Counter, w: World, p0: nat, q0: nat) {
    Faithful(w.sync, w.srv, p0, q0) && Collecting(BoxOf(counter, w.sync), |LogOf(counter, w.srv)|)
  }

  ghost predicate KeptIn(counter: Counter, w: World, i: int) {
    Kept(BoxOf(counter, w.sync), i)
  }

  /** Nothing applicable waits. */
  ghost predicate QuietIn(counter: Counter, w: World) {
    Quiet(BoxOf(counter, w.sync))
  }

  /** What the counter keeps after the act is what it kept before and what it was told. */
  ghost predicate GrowsBy(counter: Counter, w: World, a: Act, w': World) {
    forall i: nat :: KeptIn(counter, w', i) <==> KeptIn(counter, w, i) || Told(counter, w, a, i)
  }

  lemma DoCollects(counter: Counter, w: World, a: Act, p0: nat, q0: nat)
    requires Sound(counter, w, p0, q0) && Possible(w, a)
    ensures Sound(counter, Do(w, a), p0, q0)
    ensures GrowsBy(counter, w, a, Do(w, a))
    ensures a.Resynchronise? || (!a.ResyncSlice? && QuietIn(counter, w)) ==> QuietIn(counter, Do(w, a))
  {
    hide HandleUpdates, Resync, ServerDifference, ServerSlice, BatchesIn, Collecting, CommonHandled, SecretHandled;
    DoFaithful(w, a, p0, q0);
    var b, n := BoxOf(counter, w.sync), |LogOf(counter, w.srv)|;
    match a
    case Deliver(u) => HandleUpdatesCollects(counter, w.sync, u, w.srv);
    case Resynchronise(order, ents) =>
      ResyncBox(counter, w.sync, w.srv, order, ents, p0, q0);
      FaithfulOf(counter, w.sync, w.srv, p0, q0);
      ForwardCollects(b, n, n);
      forall i: nat | i >= n ensures !KeptIn(counter, w, i) && !KeptIn(counter, Do(w, a), i) {
        KeptWithinLog(b, n, i);
        KeptWithinLog(Sequencer.Box(n, [], b.pending), n, i);
      }
    case ResyncSlice(n1, m, others, ents, date, seqNo) =>
      SliceBox(counter, w.sync, w.srv, n1, m, others, ents, date, seqNo);
      FaithfulOf(counter, w.sync, w.srv, p0, q0);
      ForwardCollects(b, n, b.state + if counter.PtsCounter? then n1 else m);
    case _ => LongerLogCollects(b, n, |LogOf(counter, Do(w, a).srv)|);
  }

  /** What the counter keeps in state n is what it kept in state a and what it was told since. */
  ghost predicate Grows(counter: Counter, ws: seq<World>, acts: seq<Act>, a: nat, n: nat)
    requires a < |ws| && n <= |acts| < |ws|
  {
    forall i: nat :: KeptIn(counter, ws[n], i) <==> KeptIn(counter, ws[a], i) || ToldDuring(counter, ws, acts, a, n, i)
  }

  lemma ToldMore(counter: Counter, ws: seq<World>, acts: seq<Act>, a: nat, n: nat, i: int)
    requires a <= n < |acts| < |ws|
    ensures ToldDuring(counter, ws, acts, a, n + 1, i)
       <==> ToldDuring(counter, ws, acts, a, n, i) || Told(counter, ws[n], acts[n], i)
  {
    hide Told;
    if ToldDuring(counter, ws, acts, a, n + 1, i) {
      var j :| a <= j < n + 1 && Told(counter, ws[j], acts[j], i);
    }
  }

  lemma GrowsMore(counter: Counter, ws: seq<World>, acts: seq<Act>, a: nat, n: nat)
    requires a <= n < |acts| < |ws| && Grows(counter, ws, acts, a, n)
    requires GrowsBy(counter, ws[n], acts[n], ws[n + 1])
    ensures Grows(counter, ws, acts, a, n + 1)
  {
    hide Told, KeptIn, ToldDuring;
    forall i: nat ensures KeptIn(counter, ws[n + 1], i)
      <==> KeptIn(counter, ws[a], i) || ToldDuring(counter, ws, acts, a, n + 1, i)
    {
      ToldMore(counter, ws, acts, a, n, i);
    }
  }

  lemma {:induction false} RunCollects(counter: Counter, ws: seq<World>, acts: seq<Act>, p0: nat, q0: nat,
                                       a: nat, n: nat)
    requires IsRun(ws, acts) && a <= n <= |acts| && Sound(counter, ws[a], p0, q0)
    ensures Sound(counter, ws[n], p0, q0) && Grows(counter, ws, acts, a, n)
  {
    hide Sound, Do, Told, KeptIn, GrowsBy;
    if a < n {
      var m := n - 1;
      RunCollects(counter, ws, acts, p0, q0, a, m);
      assert Possible(ws[m], acts[m]) && ws[m + 1] == Do(ws[m], acts[m]);
      DoCollects(counter, ws[m], acts[m], p0, q0);
      GrowsMore(counter, ws, acts, a, m);
    }
  }

  /** The handler has its log to the end. */
  ghost predicate Complete(counter: Counter, w: World, start: nat)
    requires start <= |LogOf(counter, w.srv)|
  {
    HandledOf(counter, w.sync) == LogOf(counter, w.srv)[start..]
  }

  lemma CompleteWhenAllKept(counter: Counter, w: World, p0: nat, q0: nat)
    requires Sound(counter, w, p0, q0)
    ensures var n := |LogOf(counter, w.srv)|;
      && (Complete(counter, w, if counter.PtsCounter? then p0 else q0)
          <==> QuietIn(counter, w) && forall i: nat :: i < n ==> KeptIn(counter, w, i))
      && (Complete(counter, w, if counter.PtsCounter? then p0 else q0)
          ==> BoxOf(counter, w.sync).state == n && BoxOf(counter, w.sync).gaps == [])
  {
    var n, b, log := |LogOf(counter, w.srv)|, BoxOf(counter, w.sync), LogOf(counter, w.srv);
    var start := if counter.PtsCounter? then p0 else q0;
    FaithfulOf(counter, w.sync, w.srv, p0, q0);
    assert log[start..n] == log[start..];
    assert |log[start..b.state]| == b.state - start;
    LoggedWithinLog(b.pending, n, n);
    if QuietIn(counter, w) && forall i: nat :: i < n ==> KeptIn(counter, w, i) {
      forall i | b.state <= i < |Places(n)| - 1 ensures Kept(b, Places(n)[i]) {
        assert KeptIn(counter, w, i);
      }
      AllKeptAtEnd(Places(n), b, b.state);
    }
  }

  /** Completeness: at any moment of any run the handler has the whole of a log exactly when each
      message of it was already kept at an earlier moment a, or the synchroniser has been told of
      it since, and nothing applicable is left waiting.  The moment a may be any, also one with
      gaps open and updates queued. */
  lemma CompleteExactlyWhen(counter: Counter, ws: seq<World>, acts: seq<Act>, p0: nat, q0: nat, a: nat, n: nat)
    requires IsRun(ws, acts) && a <= n <= |acts| && Sound(counter, ws[0], p0, q0)
    ensures Sound(counter, ws[n], p0, q0)
    ensures Complete(counter, ws[n], if counter.PtsCounter? then p0 else q0)
      <==> QuietIn(counter, ws[n]) && forall i: nat :: i < |LogOf(counter, ws[n].srv)| ==>
             KeptIn(counter, ws[a], i) || ToldDuring(counter, ws, acts, a, n, i)
  {
    RunCollects(counter, ws, acts, p0, q0, 0, a);
    RunCollects(counter, ws, acts, p0, q0, a, n);
    CompleteWhenAllKept(counter, ws[n], p0, q0);
  }

  /** The acts from a to n contain no slice. */
  ghost predicate NoSlice(acts: seq<Act>, a: nat, n: nat)
    requires n <= |acts|
  {
    forall j :: a <= j < n ==> !acts[j].ResyncSlice?
  }

  /** Only a slice can leave something applicable waiting: with none since a, nothing does, if
      nothing did then. */
  lemma {:induction false} RunQuiet(counter: Counter, ws: seq<World>, acts: seq<Act>, p0: nat, q0: nat, a: nat, n: nat)
    requires IsRun(ws, acts) && a <= n <= |acts| && Sound(counter, ws[a], p0, q0)
    requires QuietIn(counter, ws[a]) && NoSlice(acts, a, n)
    ensures QuietIn(counter, ws[n])
  {
    hide Sound, Do, GrowsBy, QuietIn;
    if a < n {
      var m := n - 1;
      RunQuiet(counter, ws, acts, p0, q0, a, m);
      RunCollects(counter, ws, acts, p0, q0, a, m);
      assert Possible(ws[m], acts[m]) && ws[m + 1] == Do(ws[m], acts[m]);
      DoCollects(counter, ws[m], acts[m], p0, q0);
    }
  }

  /** From a saved state within the logs on, without slices, the handler has everything after it
      exactly when the synchroniser has been told of everything after it. */
  lemma FreshCompleteExactlyWhen(counter: Counter, ws: seq<World>, acts: seq<Act>, st: State,
                                 channels: set<int>, n: nat)
    requires IsRun(ws, acts) && n <= |acts| && ws[0].sync == Create(st, Some(st), channels)
    requires 0 <= st.pts <= |ws[0].srv.common| && 0 <= st.qts <= |ws[0].srv.secret|
    requires NoSlice(acts, 0, n)
    ensures var start := if counter.PtsCounter? then st.pts else st.qts;
      && start <= |LogOf(counter, ws[n].srv)|
      && (Complete(counter, ws[n], start)
          <==> forall i :: start <= i < |LogOf(counter, ws[n].srv)| ==> ToldDuring(counter, ws, acts, 0, n, i))
  {
    StartsFaithful(st, channels, ws[0].srv);
    RunQuiet(counter, ws, acts, st.pts, st.qts, 0, n);
    CompleteExactlyWhen(counter, ws, acts, st.pts, st.qts, 0, n);
    FaithfulOf(counter, ws[n].sync, ws[n].srv, st.pts, st.qts);
    var start := if counter.PtsCounter? then st.pts else st.qts;
    assert forall i: nat :: KeptIn(counter, ws[0], i) <==> i < start;
  }

  /** A slice stalls a counter exactly when it leads to where a pending update starts: that update
      then waits, with no gap open, for another arrival or resynchronisation. */
  lemma SliceStallsExactlyWhen(counter: Counter, w: World, a: Act, p0: nat, q0: nat)
    requires Sound(counter, w, p0, q0) && a.ResyncSlice? && Possible(w, a)
    ensures var b, b' := BoxOf(counter, w.sync), BoxOf(counter, Do(w, a).sync);
      && b'.gaps == [] && b'.pending == b.pending
      && (!QuietIn(counter, Do(w, a)) <==> Waits(b.pending, b'.state))
  {
    SliceBox(counter, w.sync, w.srv, a.n, a.m, a.others, a.ents, a.date, a.seqNo);
    FaithfulOf(counter, w.sync, w.srv, p0, q0);
    ForwardCollects(BoxOf(counter, w.sync), |LogOf(counter, w.srv)|,
                    BoxOf(counter, w.sync).state + if counter.PtsCounter? then a.n else a.m);
  }

  // ----- an example of a stall -----

  lemma BeyondWaits(u: Update<TgUpdate>)
    requires u.state == 2 && u.count == 1
    ensures Sequencer.Receive(Sequencer.Box(0, [], []), u)
         == Sequencer.Received(Sequencer.Box(0, [Gap(0, 1)], [u]), None)
  {
    assert [u][..0] == [];
    assert ConsumedAll([Gap(0, 1)], [u]) == Consumed([Gap(0, 1)], u);
  }

  lemma BeyondHandsOnNothing(s: Sync, u: TgUpdate)
    requires s.pts == Sequencer.Box(0, [], []) && s.handled == [] && u.CommonPts? && u.pts == 2 && u.ptsCount == 1
    ensures var s' := HandleUpdates(s, TgUpdateShort(u, 0));
      s'.handled == [] && s'.pts == Sequencer.Box(0, [Gap(0, 1)], [Update(u, 2, 1, NO_ENTITIES)])
  {
    hide Sequencer.Receive;
    BeyondWaits(Update(u, 2, 1, NO_ENTITIES));
    var start := Routing(s, [], false);
    assert [u][..0] == [];
    assert StableSort([u], Less) == [u];
    assert RouteAll(start, [u], NO_ENTITIES) == Route(RouteAll(start, [], NO_ENTITIES), u, NO_ENTITIES);
  }

  /** For example: message 2 of a log arrives alone and opens a gap, and a slice then brings message
      1.  Message 2 stays pending although it is due, and the handler has message 1 alone. */
  lemma SliceCanStall(x: Message, y: Message)
    ensures var srv, st := Logs(0, [x, y], [], map[]), State(0, 0, 0, 0);
      var s := HandleUpdates(Create(st, Some(st), {}), TgUpdateShort(CommonPts(2, 1, y), 0));
      var s' := Resync(s, GetSlice(srv, 0, 0, 1, 0, [], NO_ENTITIES, 0, 0));
      && s'.pts == Sequencer.Box(1, [], [Update(CommonPts(2, 1, y), 2, 1, NO_ENTITIES)])
      && CommonHandled(s'.handled) == [x]
  {
    hide HandleUpdates, CommonHandled, SecretHandled;
    var srv, st := Logs(0, [x, y], [], map[]), State(0, 0, 0, 0);
    BeyondHandsOnNothing(Create(st, Some(st), {}), CommonPts(2, 1, y));
    HandOnMessages([], [x], [], NO_ENTITIES);
    assert srv.common[0..1] == [x] && srv.secret[0..0] == [];
    NoneHandled();
  }

  lemma NoneHandled()
    ensures CommonHandled([]) == []
  {
  }
}
