/** Containers that carry a seq number.  A container numbered seqStart to seqNo is due when the seq
    counter stands at seqStart - 1.
 */
module NumberedContainers {
  import opened BatchCounters
  import opened ChainSafety
  import opened GapBuffers
  import opened HonestLog
  import opened PeerEntities
  import opened PtsOrder
  import opened StableSorting
  import opened Storage
  import opened Synchroniser
  import opened Telegram
  import opened Updates
  import Sequencer

  // ----- one container -----

  /** With nothing waiting: the container that is due is applied at once and the counter stands at
      its number, in memory and in the storage, whatever it stood at during the application; one
      that begins below is dropped without a trace; one that begins beyond is kept, nothing is
      handed on, and the numbers before it are the gap. */
  lemma NumberedOutcome(s: Sync, c: Combined)
    requires Idle(s.seqn) && c.seqNo > 0 && c.seqStart >= 0
    ensures var s', now := HandleSeq(s, c), s.seqn.state;
      if c.seqStart == now + 1 then
        var r := ApplyCombined(s, c);
        s' == r.0.(seqn := Sequencer.Box(c.seqNo, [], []), saved := SaveSeq(r.0.saved, c.seqNo),
                   resyncs := r.0.resyncs + if r.1 then 1 else 0)
      else if c.seqStart <= now then s' == s
      else
        && s' == s.(seqn := s'.seqn) && s'.seqn.state == now
        && |s'.seqn.pending| == 1 && s'.seqn.pending[0].value == c
        && s'.seqn.gaps != []
        && (c.seqStart <= c.seqNo + 1 ==> s'.seqn.gaps == [Gap(now, c.seqStart - 1)])
  {
    hide ApplyCombined;
    var u := Update(c, c.seqNo, c.seqNo - c.seqStart + 1, NO_ENTITIES);
    if c.seqStart == s.seqn.state + 1 {
      ApplyOne(s, u);
      ApplyCombinedKeepsSeq(s, c);
    } else if c.seqStart > s.seqn.state + 1 {
      OneBeyond(s.seqn, u);
    }
  }

  /** The seq number with which a batch is applied is all it changes in the seq sequencer. */
  lemma {:induction false} RouteKeepsSeq(r: Routing, us: seq<TgUpdate>, ents: Entities)
    ensures RouteAll(r, us, ents).sync.seqn == r.sync.seqn
  {
    if us != [] {
      RouteKeepsSeq(r, us[..|us| - 1], ents);
    }
  }

  lemma ApplyCombinedKeepsSeq(s: Sync, c: Combined)
    ensures var s' := ApplyCombined(s, c).0;
      s'.seqn == s.seqn.(state := if c.seqNo > 0 then c.seqNo else s.seqn.state)
  {
    RouteKeepsSeq(Routing(s, [], false), StableSort(c.updates, Less), c.ents);
  }

  lemma ApplyOne(s: Sync, u: Update<Combined>)
    ensures ApplyCombinedAll(s, [u]) == ApplyCombined(s, u.value)
  {
    assert [u][..0] == [];
  }

  lemma OneBeyond<V(!new)>(b: Sequencer.Box<V>, u: Update<V>)
    requires Idle(b) && u.state > 0 && u.Start() > b.state
    ensures var r := Sequencer.Receive(b, u);
      && r.todo.None? && r.box.state == b.state && r.box.pending == [u] && r.box.gaps != []
      && (u.count >= 0 ==> r.box.gaps == [Gap(b.state, u.Start())])
  {
    var gap := Gap(b.state, u.Start());
    assert [u][..0] == [];
    assert ConsumedAll([gap], [u]) == Consumed([gap], u);
    assert [gap][..0] + [gap][1..] + Split(gap, u) == Split(gap, u);
  }

  // ----- content: all but the numbering -----

  /** What the synchroniser has and knows, apart from the seq counter itself, what is saved, and
      how many resynchronisations it has asked for. */
  function Content(s: Sync): Sync {
    s.(seqn := Sequencer.Box(0, [], []), saved := None, resyncs := 0)
  }

  lemma RouteOneContent(r: Routing, u: TgUpdate, ents: Entities)
    ensures var plain := Route(r, u, ents);
      Route(r.(sync := Content(r.sync)), u, ents) == plain.(sync := Content(plain.sync))
  {
    hide Sequencer.Receive, BundleOf;
  }

  lemma {:induction false} RouteContent(r: Routing, us: seq<TgUpdate>, ents: Entities)
    ensures var plain := RouteAll(r, us, ents);
      RouteAll(r.(sync := Content(r.sync)), us, ents) == plain.(sync := Content(plain.sync))
  {
    hide Content, Route;
    if us != [] {
      RouteContent(r, us[..|us| - 1], ents);
      RouteOneContent(RouteAll(r, us[..|us| - 1], ents), us[|us| - 1], ents);
    }
  }

  lemma ApplyCombinedContent(s: Sync, c: Combined)
    ensures Content(ApplyCombined(Content(s), c).0) == Content(ApplyCombined(s, c).0)
  {
    hide RouteAll;
    RouteContent(Routing(s, [], false), StableSort(c.updates, Less), c.ents);
  }

  /** The containers are applied one after the other, without looking at their numbers. */
  function ApplyInOrder(s: Sync, cs: seq<Combined>): Sync {
    if cs == [] then s else ApplyCombined(ApplyInOrder(s, cs[..|cs| - 1]), cs[|cs| - 1]).0
  }

  lemma {:induction false} ApplyInOrderContent(s: Sync, t: Sync, cs: seq<Combined>)
    requires Content(s) == Content(t)
    ensures Content(ApplyInOrder(s, cs)) == Content(ApplyInOrder(t, cs))
  {
    hide ApplyCombined;
    if cs != [] {
      var front, c := cs[..|cs| - 1], cs[|cs| - 1];
      ApplyInOrderContent(s, t, front);
      ApplyCombinedContent(ApplyInOrder(s, front), c);
      ApplyCombinedContent(ApplyInOrder(t, front), c);
    }
  }

  lemma {:induction false} ApplyInOrderConcat(s: Sync, cs: seq<Combined>, ds: seq<Combined>)
    ensures ApplyInOrder(s, cs + ds) == ApplyInOrder(ApplyInOrder(s, cs), ds)
  {
    hide ApplyCombined;
    if ds == [] {
      assert cs + ds == cs;
    } else {
      ApplyInOrderConcat(s, cs, ds[..|ds| - 1]);
      assert (cs + ds)[..|cs + ds| - 1] == cs + ds[..|ds| - 1];
    }
  }

  function Containers(us: seq<Update<Combined>>): (cs: seq<Combined>)
    ensures |cs| == |us| && forall i :: 0 <= i < |cs| ==> cs[i] == us[i].value
  {
    seq(|us|, i requires 0 <= i < |us| => us[i].value)
  }

  lemma {:induction false} ApplyAllIsInOrder(s: Sync, batch: seq<Update<Combined>>)
    ensures ApplyCombinedAll(s, batch).0 == ApplyInOrder(s, Containers(batch))
    ensures var s' := ApplyCombinedAll(s, batch).0;
      s'.seqn.gaps == s.seqn.gaps && s'.seqn.pending == s.seqn.pending
  {
    hide ApplyCombined;
    if batch != [] {
      var front, last := batch[..|batch| - 1], batch[|batch| - 1];
      ApplyAllIsInOrder(s, front);
      assert Containers(batch)[..|batch| - 1] == Containers(front);
      ApplyCombinedKeepsSeq(ApplyCombinedAll(s, front).0, last.value);
    }
  }

  // ----- any number of them -----

  /** The range of the seq counter that a container occupies. */
  function Ranged(c: Combined): (u: Update<Combined>)
    ensures u.value == c && u.Start() == c.seqStart - 1 && u.End() == c.seqNo
  {
    Update(c, c.seqNo, c.seqNo - c.seqStart + 1, NO_ENTITIES)
  }

  function AllRanged(cs: seq<Combined>): (us: seq<Update<Combined>>)
    ensures |us| == |cs| && forall i :: 0 <= i < |us| ==> us[i] == Ranged(cs[i])
  {
    seq(|cs|, i requires 0 <= i < |cs| => Ranged(cs[i]))
  }

  ghost predicate AllNumbered(cs: seq<Combined>) {
    forall c :: c in cs ==> c.seqNo > 0 && c.seqStart >= 0
  }

  lemma FinishedSeq(s: Sync, r: Sequencer.Received<Combined>)
    ensures var s' := FinishSeq(s.(seqn := r.box), r.todo);
      s'.seqn == Sequencer.Commit(r) && Content(s') == Content(ApplyInOrder(s, Containers(Sequencer.Applied(r))))
  {
    hide ApplyCombinedAll, ApplyInOrder;
    var t, batch := s.(seqn := r.box), Sequencer.Applied(r);
    ApplyAllIsInOrder(t, batch);
    ApplyInOrderContent(s, t, Containers(batch));
    if r.todo.None? {
      assert Containers(batch) == [];
      assert ApplyInOrder(t, []) == t by {
        NothingInOrder(t);
      }
    }
  }

  lemma NothingInOrder(s: Sync)
    ensures ApplyInOrder(s, []) == s
  {
  }

  /** A numbered container moves the seq counter as its range does, and what it hands out is
      applied in order. */
  lemma NumberedProjects(s: Sync, c: Combined)
    requires c.seqNo > 0 && c.seqStart >= 0
    ensures HandleSeq(s, c).seqn == Sequencer.Handle(s.seqn, Ranged(c))
    ensures Content(HandleSeq(s, c))
         == Content(ApplyInOrder(s, Containers(Sequencer.Delivered(s.seqn, Ranged(c)))))
  {
    hide FinishSeq, Content, Sequencer.Receive, Containers, ApplyInOrder;
    FinishedSeq(s, Sequencer.Receive(s.seqn, Ranged(c)));
  }

  lemma ContainersConcat(us: seq<Update<Combined>>, vs: seq<Update<Combined>>)
    ensures Containers(us + vs) == Containers(us) + Containers(vs)
  {
  }

  lemma {:induction false} RunProjects(s: Sync, cs: seq<Combined>)
    requires AllNumbered(cs)
    ensures PushAll(s, cs).seqn == Sequencer.HandleAll(s.seqn, AllRanged(cs))
    ensures Content(PushAll(s, cs))
         == Content(ApplyInOrder(s, Containers(Sequencer.DeliveredAll(s.seqn, AllRanged(cs)))))
  {
    hide Content, HandleSeq, Sequencer.Delivered, Sequencer.Handle;
    if cs == [] {
      assert Containers([]) == [];
    } else {
      hide ApplyInOrder;
      var front, c := cs[..|cs| - 1], cs[|cs| - 1];
      assert c in cs;
      RunProjects(s, front);
      var mid := PushAll(s, front);
      var given := Sequencer.DeliveredAll(s.seqn, AllRanged(front));
      var more := Sequencer.Delivered(mid.seqn, Ranged(c));
      NumberedProjects(mid, c);
      assert AllRanged(cs)[..|cs| - 1] == AllRanged(front);
      ContainersConcat(given, more);
      ApplyInOrderConcat(s, Containers(given), Containers(more));
      ApplyInOrderContent(mid, ApplyInOrder(s, Containers(given)), Containers(more));
    }
  }

  /** Container i of the list occupies the i-th range. */
  ghost predicate InSequence(cuts: seq<int>, list: seq<Combined>) {
    && IsLog(cuts) && |cuts| == |list| + 1
    && forall i :: 0 <= i < |list| ==> list[i].seqStart == cuts[i] + 1 && list[i].seqNo == cuts[i + 1]
  }

  /** Everything pending is a container of the list. */
  ghost predicate AllFromList(list: seq<Combined>, us: seq<Update<Combined>>) {
    forall u :: u in us ==> u.value in list && u == Ranged(u.value)
  }

  lemma ListPlace(cuts: seq<int>, list: seq<Combined>, c: Combined) returns (i: nat)
    requires InSequence(cuts, list) && c in list
    ensures i < |list| && list[i] == c && At(cuts, Ranged(c), i)
  {
    i :| 0 <= i < |list| && list[i] == c;
  }

  /** A stretch of the log made of listed containers is that stretch of the list. */
  lemma StretchIsList(cuts: seq<int>, list: seq<Combined>, us: seq<Update<Combined>>, k: nat)
    requires InSequence(cuts, list) && k <= |list| && Stretch(cuts, us, k, |list|)
    requires AllFromList(list, us)
    ensures Containers(us) == list[k..]
  {
    forall i | 0 <= i < |us| ensures us[i].value == list[k + i] {
      assert us[i] in us;
      var j := ListPlace(cuts, list, us[i].value);
      assert At(cuts, us[i], k + i);
    }
  }

  /** What may arrive: a container of the list, or one that was outdated from the beginning. */
  ghost predicate Arrives(cuts: seq<int>, list: seq<Combined>, c: Combined)
    requires cuts != []
  {
    c in list || (c.seqNo > 0 && 0 <= c.seqStart <= cuts[0])
  }

  lemma ArrivalsSendable(cuts: seq<int>, list: seq<Combined>, cs: seq<Combined>)
    requires InSequence(cuts, list) && forall c :: c in cs ==> Arrives(cuts, list, c)
    ensures AllNumbered(cs) && AllSendable(cuts, AllRanged(cs))
  {
    forall c | c in cs ensures c.seqNo > 0 && c.seqStart >= 0 && Sendable(cuts, Ranged(c)) {
      assert Arrives(cuts, list, c);
      if c in list {
        var i := ListPlace(cuts, list, c);
      }
    }
  }

  lemma ListArrives(cuts: seq<int>, list: seq<Combined>, cs: seq<Combined>, k: nat)
    requires InSequence(cuts, list) && k <= |list| && forall i :: k <= i < |list| ==> list[i] in cs
    ensures AllArrive(cuts, k, AllRanged(cs))
  {
    forall i | k <= i < |list| ensures Waits(AllRanged(cs), cuts[i]) {
      var j :| 0 <= j < |cs| && cs[j] == list[i];
      assert AllRanged(cs)[j] in AllRanged(cs);
    }
  }

  lemma DeliveredFromList(cuts: seq<int>, list: seq<Combined>, b: Sequencer.Box<Combined>, cs: seq<Combined>, k: nat)
    requires InSequence(cuts, list) && AllFromList(list, b.pending) && k <= |list|
    requires forall c :: c in cs ==> Arrives(cuts, list, c)
    requires Stretch(cuts, Sequencer.DeliveredAll(b, AllRanged(cs)), k, |list|)
    ensures Containers(Sequencer.DeliveredAll(b, AllRanged(cs))) == list[k..]
  {
    var us := Sequencer.DeliveredAll(b, AllRanged(cs));
    RunMembers(b, AllRanged(cs));
    forall u | u in us ensures u.value in list && u == Ranged(u.value) {
      var i :| 0 <= i < |us| && us[i] == u;
      assert At(cuts, us[i], k + i);
      if u !in b.pending {
        assert u in AllRanged(cs);
        assert Arrives(cuts, list, u.value);
      }
    }
    StretchIsList(cuts, list, us, k);
  }

  /** Containers numbered one after the other, arriving in any order, with repetitions and outdated
      ones in between, from any state of such a run: once all from the counter on have arrived,
      all has happened that applying them one by one in the order of their numbers makes happen,
      and the counter stands at the last number with nothing open. */
  lemma NumberedConverge(s: Sync, cs: seq<Combined>, cuts: seq<int>, list: seq<Combined>, k: nat)
    requires InSequence(cuts, list) && InvAt(cuts, s.seqn, k) && AllFromList(list, s.seqn.pending)
    requires forall c :: c in cs ==> Arrives(cuts, list, c)
    requires forall i :: k <= i < |list| ==> list[i] in cs
    ensures Content(PushAll(s, cs)) == Content(ApplyInOrder(s, list[k..]))
    ensures AtEnd(cuts, PushAll(s, cs).seqn)
    ensures Settled(s.seqn) ==> PushAll(s, cs).seqn == Sequencer.Box(cuts[|list|], [], [])
  {
    hide Content, ApplyInOrder, PushAll, Sequencer.HandleAll, Sequencer.DeliveredAll;
    ArrivalsSendable(cuts, list, cs);
    ListArrives(cuts, list, cs, k);
    RunProjects(s, cs);
    Convergence(cuts, s.seqn, k, AllRanged(cs));
    DeliveredFromList(cuts, list, s.seqn, cs, k);
  }
}
