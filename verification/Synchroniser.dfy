/** The synchroniser on values: three sequencers, the date, what is saved, and what has been
    handed on.  `InternalStates.InternalState` is the object that is updated in place; each of
    its methods is proved to compute the function of the same name here.
 */
module Synchroniser {
  import opened PeerEntities
  import opened PtsOrder
  import opened StableSorting
  import opened Storage
  import opened Telegram
  import opened Updates
  import Sequencer

  /** One call of the update handler. */
  datatype Bundle = Bundle(updates: seq<TgUpdate>, ents: Entities)

  /** An update passed on to a channel's own state. */
  datatype Routed = Routed(channelID: int, update: TgUpdate, ents: Entities)

  datatype Sync = Sync(
    pts: Sequencer.Box<TgUpdate>,
    qts: Sequencer.Box<TgUpdate>,
    seqn: Sequencer.Box<Combined>,
    date: int,
    saved: Option<State>,
    handled: seq<Bundle>,
    channels: set<int>,
    routed: seq<Routed>,
    resyncs: nat)  // resynchronisations asked for

  /** A new synchroniser starts from a loaded user state. */
  function Create(st: State, saved: Option<State>, channels: set<int>): Sync {
    Sync(Sequencer.Box(st.pts, [], []), Sequencer.Box(st.qts, [], []), Sequencer.Box(st.seqNo, [], []),
         st.date, saved, [], channels, [], 0)
  }

  function RequestResync(s: Sync): Sync {
    s.(resyncs := s.resyncs + 1)
  }

  // ----- the two counters of single updates -----

  function Values(batch: seq<Update<TgUpdate>>): (us: seq<TgUpdate>)
    ensures |us| == |batch| && forall i :: 0 <= i < |us| ==> us[i] == batch[i].value
  {
    seq(|batch|, i requires 0 <= i < |batch| => batch[i].value)
  }

  function EntitiesOf(batch: seq<Update<TgUpdate>>): (es: seq<Entities>)
    ensures |es| == |batch| && forall i :: 0 <= i < |es| ==> es[i] == batch[i].ents
  {
    seq(|batch|, i requires 0 <= i < |batch| => batch[i].ents)
  }

  function BundleOf(batch: seq<Update<TgUpdate>>): Bundle {
    Bundle(Values(batch), MergedAll(NO_ENTITIES, EntitiesOf(batch)))
  }

  function ApplyPts(s: Sync, state: int, batch: seq<Update<TgUpdate>>): Sync {
    s.(handled := s.handled + [BundleOf(batch)], saved := SavePts(s.saved, state))
  }

  /** A qts of 0 is not saved. */
  function ApplyQts(s: Sync, state: int, batch: seq<Update<TgUpdate>>): Sync {
    var s1 := s.(handled := s.handled + [BundleOf(batch)]);
    if state == 0 then s1 else s1.(saved := SaveQts(s1.saved, state))
  }

  function HandlePts(s: Sync, pts: int, ptsCount: int, u: TgUpdate, ents: Entities): Sync {
    if pts < 0 || ptsCount < 0 then s
    else
      var r := Sequencer.Receive(s.pts, Update(u, pts, ptsCount, ents));
      FinishPts(s.(pts := r.box), r.todo)
  }

  /** What follows when the sequencer has decided. */
  function FinishPts(s: Sync, todo: Option<Sequencer.Batch<TgUpdate>>): Sync {
    match todo
    case None => s
    case Some(batch) => ApplyPts(s, batch.state, batch.updates).(pts := s.pts.(state := batch.state))
  }

  function HandleQts(s: Sync, qts: int, u: TgUpdate, ents: Entities): Sync {
    if qts < 0 then s
    else
      var r := Sequencer.Receive(s.qts, Update(u, qts, 1, ents));
      FinishQts(s.(qts := r.box), r.todo)
  }

  function FinishQts(s: Sync, todo: Option<Sequencer.Batch<TgUpdate>>): Sync {
    match todo
    case None => s
    case Some(batch) => ApplyQts(s, batch.state, batch.updates).(qts := s.qts.(state := batch.state))
  }

  // ----- a batch -----

  /** The locals of the loop over a batch: updates for nobody in particular, and whether a
      recovery was asked for. */
  datatype Routing = Routing(sync: Sync, others: seq<TgUpdate>, ptsChanged: bool)

  function Route(r: Routing, u: TgUpdate, ents: Entities): Routing {
    match u
    case PtsChanged => r.(ptsChanged := true)
    case ChannelTooLong(id) =>
      if id in r.sync.channels then r.(sync := r.sync.(routed := r.sync.routed + [Routed(id, u, ents)])) else r
    case CommonPts(pts, ptsCount, _) => r.(sync := HandlePts(r.sync, pts, ptsCount, u, ents))
    case ChannelPts(id, pts, ptsCount, _, malformed) =>
      if malformed || pts < 0 || ptsCount < 0 then r
      else r.(sync := r.sync.(channels := r.sync.channels + {id}, routed := r.sync.routed + [Routed(id, u, ents)]))
    case CommonQts(qts, _) => r.(sync := HandleQts(r.sync, qts, u, ents))
    case Plain(_) => r.(others := r.others + [u])
  }

  function RouteAll(r: Routing, us: seq<TgUpdate>, ents: Entities): Routing {
    if us == [] then r else Route(RouteAll(r, us[..|us| - 1], ents), us[|us| - 1], ents)
  }

  /** The date only moves forward; the seq counter is set whenever the batch carries one. */
  function Advance(s: Sync, date: int, seqNo: int): Sync {
    if date > s.date && seqNo > 0 then
      s.(saved := SaveDateSeq(s.saved, date, seqNo), date := date, seqn := s.seqn.(state := seqNo))
    else if date > s.date then
      s.(saved := SaveDate(s.saved, date), date := date)
    else if seqNo > 0 then
      s.(saved := SaveSeq(s.saved, seqNo), seqn := s.seqn.(state := seqNo))
    else s
  }

  function ApplyCombined(s: Sync, c: Combined): (Sync, bool) {
    var r := RouteAll(Routing(s, [], false), StableSort(c.updates, Less), c.ents);
    var s1 := if r.others == [] then r.sync
              else r.sync.(handled := r.sync.handled + [Bundle(r.others, c.ents)]);
    (Advance(s1, c.date, c.seqNo), r.ptsChanged)
  }

  function ApplyCombinedAll(s: Sync, batch: seq<Update<Combined>>): (Sync, bool) {
    if batch == [] then (s, false)
    else
      var before := ApplyCombinedAll(s, batch[..|batch| - 1]);
      var after := ApplyCombined(before.0, batch[|batch| - 1].value);
      (after.0, before.1 || after.1)
  }

  function ApplySeq(s: Sync, state: int, batch: seq<Update<Combined>>): Sync {
    var r := ApplyCombinedAll(s, batch);
    var s1 := r.0.(saved := SaveSeq(r.0.saved, state));
    if r.1 then RequestResync(s1) else s1
  }

  function HandleUnnumbered(s: Sync, c: Combined): Sync {
    var r := ApplyCombined(s, c);
    if r.1 then RequestResync(r.0) else r.0
  }

  function HandleNumbered(s: Sync, c: Combined): Sync {
    var r := QueueSeq(s, c);
    FinishSeq(s.(seqn := r.box), r.todo)
  }

  function QueueSeq(s: Sync, c: Combined): Sequencer.Received<Combined> {
    Sequencer.Receive(s.seqn, Update(c, c.seqNo, c.seqNo - c.seqStart + 1, NO_ENTITIES))
  }

  function FinishSeq(s: Sync, todo: Option<Sequencer.Batch<Combined>>): Sync {
    match todo
    case None => s
    case Some(batch) =>
      var s1 := ApplySeq(s, batch.state, batch.updates);
      s1.(seqn := s1.seqn.(state := batch.state))
  }

  function HandleSeq(s: Sync, c: Combined): Sync {
    if c.seqNo < 0 || c.seqStart < 0 then s
    else if c.seqNo == 0 then HandleUnnumbered(s, c)
    else HandleNumbered(s, c)
  }

  function HandleUpdates(s: Sync, u: UpdatesClass): Sync {
    match u
    case TgUpdates(updates, ents, date, seqNo) => HandleSeq(s, Combined(updates, ents, date, seqNo, seqNo))
    case TgUpdatesCombined(c) => HandleSeq(s, c)
    case TgUpdateShort(update, date) => HandleSeq(s, Combined([update], NO_ENTITIES, date, 0, 0))
    case TgUpdatesTooLong => RequestResync(s)
  }

  // ----- resynchronisation -----

  function MessagesToUpdates(msgs: seq<Message>): (us: seq<TgUpdate>)
    ensures |us| == |msgs| && forall i :: 0 <= i < |us| ==> us[i] == CommonPts(-1, -1, msgs[i])
  {
    seq(|msgs|, i requires 0 <= i < |msgs| => CommonPts(-1, -1, msgs[i]))
  }

  function EncryptedToUpdates(msgs: seq<Message>): (us: seq<TgUpdate>)
    ensures |us| == |msgs| && forall i :: 0 <= i < |us| ==> us[i] == CommonQts(-1, msgs[i])
  {
    seq(|msgs|, i requires 0 <= i < |msgs| => CommonQts(-1, msgs[i]))
  }

  function ClearGaps(s: Sync): Sync {
    s.(pts := s.pts.(gaps := []), qts := s.qts.(gaps := []), seqn := s.seqn.(gaps := []))
  }

  function SetState(s: Sync, st: State): Sync {
    s.(saved := Some(st), pts := s.pts.(state := st.pts), qts := s.qts.(state := st.qts),
       seqn := s.seqn.(state := st.seqNo), date := st.date)
  }

  /** The other updates of a difference go through `HandleUpdates` first, then its messages go
      straight to the handler. */
  function ApplyDifference(s: Sync, common: seq<Message>, secret: seq<Message>, others: seq<TgUpdate>,
                           ents: Entities, date: int): Sync {
    var s1 := if others == [] then s else HandleUpdates(s, TgUpdatesCombined(Combined(others, ents, date, 0, 0)));
    if common == [] && secret == [] then s1
    else s1.(handled := s1.handled + [Bundle(MessagesToUpdates(common) + EncryptedToUpdates(secret), ents)])
  }

  /** `getDifferenceSync` with the server's answer given; taken as one step. */
  function Resync(s: Sync, diff: Difference): Sync {
    var c := ClearGaps(s);
    match diff
    case Difference(common, secret, others, ents, st) =>
      SetState(ApplyDifference(c, common, secret, others, ents, 0), st)
    case DifferenceEmpty(date, seqNo) =>
      c.(saved := SaveDateSeq(c.saved, date, seqNo), date := date, seqn := c.seqn.(state := seqNo))
    case DifferenceSlice(common, secret, others, ents, st) =>
      RequestResync(SetState(ApplyDifference(c, common, secret, others, ents, st.date), st))
    case DifferenceTooLong(pts) =>
      RequestResync(c.(saved := SavePts(c.saved, pts), pts := c.pts.(state := pts)))
    case NoDifference => c
  }
}
