/** The saved user state always equals the one in memory between two calls. */
module WriteThrough {
  import opened ChainSafety
  import opened PeerEntities
  import opened PtsOrder
  import opened StableSorting
  import opened Synchroniser
  import opened Telegram
  import opened Updates
  import Sequencer

  ghost predicate Agrees(s: Sync) {
    s.saved == Some(State(s.pts.state, s.qts.state, s.date, s.seqn.state))
  }

  /** The one kind of update that breaks agreement is a qts update with qts 0. */
  ghost predicate NoZeroQts(us: seq<TgUpdate>) {
    forall u :: u in us && u.CommonQts? ==> u.qts != 0
  }

  ghost predicate SafeBatches(ps: seq<Update<Combined>>) {
    forall p :: p in ps ==> NoZeroQts(p.value.updates)
  }

  /** Nor is one waiting inside a numbered batch. */
  ghost predicate Safe(s: Sync) {
    SafeBatches(s.seqn.pending)
  }

  lemma {:induction false} ScanStateZero<V(!new)>(state: int, ps: seq<Update<V>>)
    ensures Sequencer.Scan(state, ps).state == 0 ==> state == 0
    decreases ps
  {
    if ps != [] {
      ScanStateZero(if ps[0].state != 0 then ps[0].state else state, ps[1..]);
      ScanStateZero(state, ps[1..]);
    }
  }

  lemma HandlePtsAgrees(s: Sync, pts: int, ptsCount: int, u: TgUpdate, ents: Entities)
    requires Agrees(s)
    ensures Agrees(HandlePts(s, pts, ptsCount, u, ents))
  {
  }

  /** A qts update breaks the agreement in exactly one case: it has qts 0 and meets an idle
      sequencer whose state is not 0, for then the state is set to 0 in memory only. */
  lemma HandleQtsAgreesExactlyWhen(s: Sync, qts: int, u: TgUpdate, ents: Entities)
    requires Agrees(s)
    ensures Agrees(HandleQts(s, qts, u, ents))
       <==> !(qts == 0 && s.qts.gaps == [] && s.qts.pending == [] && s.qts.state != 0)
  {
    var b := s.qts;
    var queue := b.pending + [Update(u, qts, 1, ents)];
    ScanStateZero(b.state, StableSort(queue, StartsBefore));
  }

  /** For example: a qts update with qts 0, met by a fresh synchroniser at qts 7, leaves qts 0 in
      memory and 7 in the storage. */
  lemma QtsCanDisagree(st: State, channels: set<int>, u: TgUpdate, ents: Entities)
    requires st.qts == 7
    ensures Agrees(Create(st, Some(st), channels))
    ensures var s := HandleQts(Create(st, Some(st), channels), 0, u, ents);
      !Agrees(s) && s.qts.state == 0 && s.saved.value.qts == 7
  {
  }

  /** Only the seq counter's state is touched by what happens inside a batch. */
  ghost predicate SeqKept(s: Sync, s': Sync) {
    s'.seqn.pending == s.seqn.pending && s'.seqn.gaps == s.seqn.gaps
  }

  lemma {:induction false} RouteAllAgrees(r: Routing, us: seq<TgUpdate>, ents: Entities)
    requires Agrees(r.sync) && NoZeroQts(us)
    ensures Agrees(RouteAll(r, us, ents).sync) && RouteAll(r, us, ents).sync.seqn == r.sync.seqn
  {
    if us != [] {
      var front, u := us[..|us| - 1], us[|us| - 1];
      RouteAllAgrees(r, front, ents);
      var mid := RouteAll(r, front, ents);
      match u {
        case CommonPts(pts, ptsCount, _) => HandlePtsAgrees(mid.sync, pts, ptsCount, u, ents);
        case CommonQts(qts, _) => HandleQtsAgreesExactlyWhen(mid.sync, qts, u, ents);
        case _ =>
      }
    }
  }

  lemma ApplyCombinedAgrees(s: Sync, c: Combined)
    requires Agrees(s) && NoZeroQts(c.updates)
    ensures Agrees(ApplyCombined(s, c).0) && SeqKept(s, ApplyCombined(s, c).0)
  {
    SortMembers(c.updates, Less);
    RouteAllAgrees(Routing(s, [], false), StableSort(c.updates, Less), c.ents);
  }

  lemma {:induction false} ApplyCombinedAllAgrees(s: Sync, batch: seq<Update<Combined>>)
    requires Agrees(s) && SafeBatches(batch)
    ensures Agrees(ApplyCombinedAll(s, batch).0) && SeqKept(s, ApplyCombinedAll(s, batch).0)
  {
    if batch != [] {
      var front, last := batch[..|batch| - 1], batch[|batch| - 1];
      ApplyCombinedAllAgrees(s, front);
      ApplyCombinedAgrees(ApplyCombinedAll(s, front).0, last.value);
    }
  }

  /** What the seq counter keeps or hands out is safe if what it had and is given is. */
  lemma ReceiveSafe(b: Sequencer.Box<Combined>, u: Update<Combined>)
    requires NoZeroQts(u.value.updates) && SafeBatches(b.pending)
    ensures SafeBatches(Sequencer.Receive(b, u).box.pending)
    ensures SafeBatches(Sequencer.Applied(Sequencer.Receive(b, u)))
  {
    HandleMembers(b, u);
  }

  lemma QueueSeqSafe(s: Sync, c: Combined)
    requires Safe(s) && NoZeroQts(c.updates)
    ensures SafeBatches(QueueSeq(s, c).box.pending) && SafeBatches(Sequencer.Applied(QueueSeq(s, c)))
  {
    hide Sequencer.Receive;
    ReceiveSafe(s.seqn, Update(c, c.seqNo, c.seqNo - c.seqStart + 1, NO_ENTITIES));
  }

  lemma QueueSeqKeepsState(s: Sync, c: Combined)
    ensures QueueSeq(s, c).box.state == s.seqn.state
  {
  }

  lemma HandleNumberedAgrees(s: Sync, c: Combined)
    requires Agrees(s) && Safe(s) && NoZeroQts(c.updates)
    ensures Agrees(HandleNumbered(s, c)) && Safe(HandleNumbered(s, c))
  {
    QueueSeqSafe(s, c);
    QueueSeqKeepsState(s, c);
    ReceivedSeqAgrees(s, QueueSeq(s, c));
  }

  lemma ReceivedSeqAgrees(s: Sync, r: Sequencer.Received<Combined>)
    requires Agrees(s) && r.box.state == s.seqn.state
    requires SafeBatches(r.box.pending) && SafeBatches(Sequencer.Applied(r))
    ensures Agrees(FinishSeq(s.(seqn := r.box), r.todo)) && Safe(FinishSeq(s.(seqn := r.box), r.todo))
  {
    FinishSeqAgrees(s.(seqn := r.box), r.todo);
  }

  lemma HandleSeqAgrees(s: Sync, c: Combined)
    requires Agrees(s) && Safe(s) && NoZeroQts(c.updates)
    ensures Agrees(HandleSeq(s, c)) && Safe(HandleSeq(s, c))
  {
    ApplyCombinedAgrees(s, c);
    HandleNumberedAgrees(s, c);
  }

  lemma FinishSeqAgrees(s: Sync, todo: Option<Sequencer.Batch<Combined>>)
    requires Agrees(s) && Safe(s)
    requires todo.Some? ==> SafeBatches(todo.value.updates)
    ensures Agrees(FinishSeq(s, todo)) && Safe(FinishSeq(s, todo))
  {
    if todo.Some? {
      ApplyCombinedAllAgrees(s, todo.value.updates);
    }
  }

  function UpdatesIn(u: UpdatesClass): seq<TgUpdate> {
    match u
    case TgUpdates(updates, _, _, _) => updates
    case TgUpdatesCombined(c) => c.updates
    case TgUpdateShort(update, _) => [update]
    case TgUpdatesTooLong => []
  }

  lemma HandleUpdatesAgrees(s: Sync, u: UpdatesClass)
    requires Agrees(s) && Safe(s) && NoZeroQts(UpdatesIn(u))
    ensures Agrees(HandleUpdates(s, u)) && Safe(HandleUpdates(s, u))
  {
    match u
    case TgUpdates(updates, ents, date, seqNo) => HandleSeqAgrees(s, Combined(updates, ents, date, seqNo, seqNo));
    case TgUpdatesCombined(c) => HandleSeqAgrees(s, c);
    case TgUpdateShort(update, date) => HandleSeqAgrees(s, Combined([update], NO_ENTITIES, date, 0, 0));
    case TgUpdatesTooLong =>
  }

  function OthersIn(diff: Difference): seq<TgUpdate> {
    if diff.Difference? || diff.DifferenceSlice? then diff.others else []
  }

  lemma ResyncAgrees(s: Sync, diff: Difference)
    requires Agrees(s) && Safe(s) && NoZeroQts(OthersIn(diff))
    ensures Agrees(Resync(s, diff)) && Safe(Resync(s, diff))
  {
    var c := ClearGaps(s);
    if diff.Difference? {
      HandleUpdatesAgrees(c, TgUpdatesCombined(Combined(diff.others, diff.ents, 0, 0, 0)));
    } else if diff.DifferenceSlice? {
      HandleUpdatesAgrees(c, TgUpdatesCombined(Combined(diff.others, diff.ents, diff.state.date, 0, 0)));
    }
  }

  // ----- whole runs -----

  datatype Input = Push(u: UpdatesClass) | Answer(diff: Difference)

  function Take(s: Sync, input: Input): Sync {
    match input
    case Push(u) => HandleUpdates(s, u)
    case Answer(diff) => Resync(s, diff)
  }

  function TakeAll(s: Sync, inputs: seq<Input>): Sync {
    if inputs == [] then s else Take(TakeAll(s, inputs[..|inputs| - 1]), inputs[|inputs| - 1])
  }

  ghost predicate Harmless(input: Input) {
    NoZeroQts(match input case Push(u) => UpdatesIn(u) case Answer(diff) => OthersIn(diff))
  }

  /** Over every run of update containers and resynchronisations without a qts of 0, what is
      saved is what is in memory. */
  lemma {:induction false} RunAgrees(s: Sync, inputs: seq<Input>)
    requires Agrees(s) && Safe(s)
    requires forall i :: 0 <= i < |inputs| ==> Harmless(inputs[i])
    ensures Agrees(TakeAll(s, inputs)) && Safe(TakeAll(s, inputs))
  {
    if inputs != [] {
      var last := inputs[|inputs| - 1];
      RunAgrees(s, inputs[..|inputs| - 1]);
      var mid := TakeAll(s, inputs[..|inputs| - 1]);
      assert Harmless(last);
      match last
      case Push(u) => HandleUpdatesAgrees(mid, u);
      case Answer(diff) => ResyncAgrees(mid, diff);
    }
  }
}
