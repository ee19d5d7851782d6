/** The synchroniser as the object the Go code updates in place.

    `Value` reads off all its fields and those of its three sequencers and its storage, and
    every method is proved to change that value as the function of the same name in
    `Synchroniser` says.
 */
module InternalStates {
  import opened PeerEntities
  import opened PtsOrder
  import opened SequenceBoxes
  import opened StableSorting
  import opened Storage
  import opened Telegram
  import opened Updates
  import S = Synchroniser

  class InternalState {
    const pts: SequenceBox<TgUpdate>
    const qts: SequenceBox<TgUpdate>
    const seqn: SequenceBox<Combined>
    const storage: MemStorage
    const selfID: int
    var date: int
    var handled: seq<S.Bundle>
    var channels: set<int>
    var routed: seq<S.Routed>
    var resyncs: nat

    ghost function Footprint(): set<object> {
      {this, pts, pts.gaps, qts, qts.gaps, seqn, seqn.gaps, storage}
    }

    /** The sequencers share nothing. */
    ghost predicate Valid() {
      && pts != qts && pts as object != seqn && qts as object != seqn
      && pts.gaps != qts.gaps && pts.gaps != seqn.gaps && qts.gaps != seqn.gaps
    }

    ghost function Value(): S.Sync
      reads Footprint()
    {
      S.Sync(pts.Value(), qts.Value(), seqn.Value(), date, storage.Saved(selfID), handled, channels, routed, resyncs)
    }

    constructor (selfID: int, state: State, channels: set<int>, storage: MemStorage)
      ensures Valid() && this.storage == storage && this.selfID == selfID
      ensures fresh(Footprint() - {storage})
      ensures Value() == S.Create(state, storage.Saved(selfID), channels)
    {
      this.selfID, this.storage, this.channels := selfID, storage, channels;
      date := state.date;
      pts := new SequenceBox(state.pts);
      qts := new SequenceBox(state.qts);
      seqn := new SequenceBox(state.seqNo);
      handled, routed, resyncs := [], [], 0;
    }

    method GetDifference()
      modifies this
      ensures Value() == S.RequestResync(old(Value()))
    {
      resyncs := resyncs + 1;
    }

    method ApplyPts(state: int, batch: seq<Update<TgUpdate>>)
      requires Valid()
      modifies this, storage
      ensures Value() == S.ApplyPts(old(Value()), state, batch)
    {
      var bundle := MakeBundle(batch);
      handled := handled + [bundle];
      var _ := storage.SetPts(selfID, state);
    }

    method ApplyQts(state: int, batch: seq<Update<TgUpdate>>)
      requires Valid()
      modifies this, storage
      ensures Value() == S.ApplyQts(old(Value()), state, batch)
    {
      var bundle := MakeBundle(batch);
      handled := handled + [bundle];
      if state == 0 {
        return;
      }
      var _ := storage.SetQts(selfID, state);
    }

    /** The loop at the head of `ApplyPts` and `ApplyQts`. */
    static method MakeBundle(batch: seq<Update<TgUpdate>>) returns (bundle: S.Bundle)
      ensures bundle == S.BundleOf(batch)
    {
      var converted: seq<TgUpdate> := [];
      var ents := new EntityBuffer();
      ghost var all := S.EntitiesOf(batch);
      for i := 0 to |batch|
        invariant converted == S.Values(batch)[..i]
        invariant MergedAll(NO_ENTITIES, all) == MergedAll(ents.Value(), all[i..])
      {
        converted := converted + [batch[i].value];
        assert all[i..][0] == batch[i].ents && all[i..][1..] == all[i + 1..];
        ents.Merge(batch[i].ents);
      }
      return S.Bundle(converted, ents.Value());
    }

    method HandlePts(pts: int, ptsCount: int, u: TgUpdate, ents: Entities)
      requires Valid()
      modifies Footprint()
      ensures Value() == S.HandlePts(old(Value()), pts, ptsCount, u, ents)
    {
      if pts < 0 || ptsCount < 0 {
        return;
      }
      var todo := this.pts.Receive(Update(u, pts, ptsCount, ents));
      FinishPts(todo);
    }

    /** Calls back when there is a batch to apply, then sets the state. */
    method FinishPts(todo: Option<Batch<TgUpdate>>)
      requires Valid()
      modifies this, pts, storage
      ensures Value() == S.FinishPts(old(Value()), todo)
    {
      match todo
      case None =>
      case Some(batch) =>
        ApplyPts(batch.state, batch.updates);
        pts.SetState(batch.state);
    }

    method HandleQts(qts: int, u: TgUpdate, ents: Entities)
      requires Valid()
      modifies Footprint()
      ensures Value() == S.HandleQts(old(Value()), qts, u, ents)
    {
      if qts < 0 {
        return;
      }
      var todo := this.qts.Receive(Update(u, qts, 1, ents));
      FinishQts(todo);
    }

    method FinishQts(todo: Option<Batch<TgUpdate>>)
      requires Valid()
      modifies this, qts, storage
      ensures Value() == S.FinishQts(old(Value()), todo)
    {
      match todo
      case None =>
      case Some(batch) =>
        ApplyQts(batch.state, batch.updates);
        qts.SetState(batch.state);
    }

    method HandleChannel(u: TgUpdate, ents: Entities)
      requires Valid() && u.ChannelPts? && !u.malformed
      modifies this
      ensures Value() == S.Route(S.Routing(old(Value()), [], false), u, ents).sync
    {
      if u.pts < 0 || u.ptsCount < 0 {
        return;
      }
      channels := channels + {u.channelID};
      routed := routed + [S.Routed(u.channelID, u, ents)];
    }

    /** The body of the loop of `ApplyCombined`. */
    method Route(u: TgUpdate, ents: Entities, others: seq<TgUpdate>, ptsChanged: bool)
      returns (others': seq<TgUpdate>, ptsChanged': bool)
      requires Valid()
      modifies Footprint()
      ensures S.Routing(Value(), others', ptsChanged')
           == S.Route(S.Routing(old(Value()), others, ptsChanged), u, ents)
    {
      others', ptsChanged' := others, ptsChanged;
      match u
      case PtsChanged =>
        ptsChanged' := true;
      case ChannelTooLong(id) =>
        if id in channels {
          routed := routed + [S.Routed(id, u, ents)];
        }
      case CommonPts(pts, ptsCount, _) =>
        HandlePts(pts, ptsCount, u, ents);
      case ChannelPts(_, _, _, _, malformed) =>
        if !malformed {
          HandleChannel(u, ents);
        }
      case CommonQts(qts, _) =>
        HandleQts(qts, u, ents);
      case Plain(_) =>
        others' := others' + [u];
    }

    /** The loop of `ApplyCombined`. */
    method RouteAll(updates: array<TgUpdate>, ents: Entities) returns (others: seq<TgUpdate>, ptsChanged: bool)
      requires Valid() && updates !in Footprint()
      modifies Footprint()
      ensures S.Routing(Value(), others, ptsChanged)
           == S.RouteAll(S.Routing(old(Value()), [], false), updates[..], ents)
    {
      ghost var start := S.Routing(Value(), [], false);
      others, ptsChanged := [], false;
      for i := 0 to updates.Length
        invariant updates[..] == old(updates[..])
        invariant S.Routing(Value(), others, ptsChanged) == S.RouteAll(start, updates[..i], ents)
      {
        assert updates[..i + 1][..i] == updates[..i];
        others, ptsChanged := Route(updates[i], ents, others, ptsChanged);
      }
      assert updates[..updates.Length] == updates[..];
    }

    static method SortedUpdates(c: Combined) returns (updates: array<TgUpdate>)
      ensures fresh(updates) && updates[..] == StableSort(c.updates, Less)
    {
      updates := new TgUpdate[|c.updates|](i requires 0 <= i < |c.updates| => c.updates[i]);
      assert updates[..] == c.updates;
      SortUpdatesByPts(updates);
    }

    method ApplyCombined(c: Combined) returns (ptsChanged: bool)
      requires Valid()
      modifies Footprint()
      ensures (Value(), ptsChanged) == S.ApplyCombined(old(Value()), c)
    {
      var updates := SortedUpdates(c);
      var others: seq<TgUpdate>;
      others, ptsChanged := RouteAll(updates, c.ents);
      if |others| > 0 {
        handled := handled + [S.Bundle(others, c.ents)];
      }
      SetDateSeq(c.date, c.seqNo);
    }

    method SetDateSeq(newDate: int, newSeq: int)
      requires Valid()
      modifies this, seqn, storage
      ensures Value() == S.Advance(old(Value()), newDate, newSeq)
    {
      var setDate, setSeq := newDate > date, newSeq > 0;
      if setDate && setSeq {
        var _ := storage.SetDateSeq(selfID, newDate, newSeq);
        date := newDate;
        seqn.SetState(newSeq);
      } else if setDate {
        var _ := storage.SetDate(selfID, newDate);
        date := newDate;
      } else if setSeq {
        var _ := storage.SetSeq(selfID, newSeq);
        seqn.SetState(newSeq);
      }
    }

    method ApplySeq(state: int, batch: seq<Update<Combined>>)
      requires Valid()
      modifies Footprint()
      ensures Value() == S.ApplySeq(old(Value()), state, batch)
    {
      var recoverState := false;
      assert batch[..|batch|] == batch;
      for i := 0 to |batch|
        invariant (Value(), recoverState) == S.ApplyCombinedAll(old(Value()), batch[..i])
      {
        assert batch[..i + 1][..i] == batch[..i];
        var ptsChanged := ApplyCombined(batch[i].value);
        if ptsChanged {
          recoverState := true;
        }
      }
      var _ := storage.SetSeq(selfID, state);
      if recoverState {
        GetDifference();
      }
    }

    method HandleUnnumbered(c: Combined)
      requires Valid()
      modifies Footprint()
      ensures Value() == S.HandleUnnumbered(old(Value()), c)
    {
      var ptsChanged := ApplyCombined(c);
      if ptsChanged {
        GetDifference();
      }
    }

    method HandleNumbered(c: Combined)
      requires Valid()
      modifies Footprint()
      ensures Value() == S.HandleNumbered(old(Value()), c)
    {
      var todo := QueueSeq(c);
      FinishSeq(todo);
    }

    method QueueSeq(c: Combined) returns (todo: Option<Batch<Combined>>)
      requires Valid()
      modifies seqn, seqn.gaps
      ensures var r := S.QueueSeq(old(Value()), c);
        Value() == old(Value()).(seqn := r.box) && todo == r.todo
    {
      todo := seqn.Receive(Update(c, c.seqNo, c.seqNo - c.seqStart + 1, NO_ENTITIES));
    }

    method FinishSeq(todo: Option<Batch<Combined>>)
      requires Valid()
      modifies Footprint()
      ensures Value() == S.FinishSeq(old(Value()), todo)
    {
      match todo
      case None =>
      case Some(batch) =>
        ApplySeq(batch.state, batch.updates);
        seqn.SetState(batch.state);
    }

    method HandleSeq(c: Combined)
      requires Valid()
      modifies Footprint()
      ensures Value() == S.HandleSeq(old(Value()), c)
    {
      if c.seqNo < 0 || c.seqStart < 0 {
        return;
      }
      if c.seqNo == 0 {
        HandleUnnumbered(c);
      } else {
        HandleNumbered(c);
      }
    }

    method HandleUpdates(u: UpdatesClass)
      requires Valid()
      modifies Footprint()
      ensures Value() == S.HandleUpdates(old(Value()), u)
    {
      match u
      case TgUpdates(updates, ents, date, seqNo) =>
        HandleSeq(Combined(updates, ents, date, seqNo, seqNo));
      case TgUpdatesCombined(c) =>
        HandleSeq(c);
      case TgUpdateShort(update, date) =>
        HandleSeq(Combined([update], NO_ENTITIES, date, 0, 0));
      case TgUpdatesTooLong =>
        GetDifference();
    }

    method SetState(st: State)
      requires Valid()
      modifies Footprint()
      ensures Value() == S.SetState(old(Value()), st)
    {
      storage.SetState(selfID, st);
      pts.SetState(st.pts);
      qts.SetState(st.qts);
      seqn.SetState(st.seqNo);
      date := st.date;
    }

    method ApplyDifference(common: seq<Message>, secret: seq<Message>, others: seq<TgUpdate>, ents: Entities, date: int)
      requires Valid()
      modifies Footprint()
      ensures Value() == S.ApplyDifference(old(Value()), common, secret, others, ents, date)
    {
      if |others| > 0 {
        HandleUpdates(TgUpdatesCombined(Combined(others, ents, date, 0, 0)));
      }
      if |common| > 0 || |secret| > 0 {
        handled := handled + [S.Bundle(S.MessagesToUpdates(common) + S.EncryptedToUpdates(secret), ents)];
      }
    }

    method ClearGaps()
      requires Valid()
      modifies pts.gaps, qts.gaps, seqn.gaps
      ensures Value() == S.ClearGaps(old(Value()))
    {
      pts.gaps.Clear();
      qts.gaps.Clear();
      seqn.gaps.Clear();
    }

    /** The server's answer to (pts, qts, date) is a parameter. */
    method GetDifferenceSync(diff: Difference)
      requires Valid()
      modifies Footprint()
      ensures Value() == S.Resync(old(Value()), diff)
    {
      ClearGaps();
      match diff
      case Difference(common, secret, others, ents, st) =>
        ApplyDifference(common, secret, others, ents, 0);
        SetState(st);
      case DifferenceEmpty(date, seqNo) =>
        var _ := storage.SetDateSeq(selfID, date, seqNo);
        this.date := date;
        seqn.SetState(seqNo);
      case DifferenceSlice(common, secret, others, ents, st) =>
        ApplyDifference(common, secret, others, ents, st.date);
        SetState(st);
        GetDifference();
      case DifferenceTooLong(newPts) =>
        var _ := storage.SetPts(selfID, newPts);
        pts.SetState(newPts);
        GetDifference();
      case NoDifference =>
    }
  }
}
