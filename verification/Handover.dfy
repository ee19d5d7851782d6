/** What is handed on: uncounted updates to the handler, channel updates to their channels, with the
    users and chats they came with; and what a resynchronisation hands on.
 */
module Handover {
  import opened ChainSafety
  import opened Completeness
  import opened EndToEnd
  import opened GapBuffers
  import opened LogServer
  import opened NumberedContainers
  import opened PeerEntities
  import opened PtsOrder
  import opened StableSorting
  import opened Synchroniser
  import opened Telegram
  import opened Updates
  import opened WriteThrough
  import Sequencer

  // ----- selecting from a batch -----

  function Select(us: seq<TgUpdate>, keep: TgUpdate -> bool): seq<TgUpdate> {
    if us == [] then [] else Select(us[..|us| - 1], keep) + Selected(us[|us| - 1], keep)
  }

  function Selected(u: TgUpdate, keep: TgUpdate -> bool): seq<TgUpdate> {
    if keep(u) then [u] else []
  }

  predicate IsPlain(u: TgUpdate) {
    u.Plain?
  }

  predicate IsValidChannel(u: TgUpdate) {
    u.ChannelPts? && !u.malformed && u.pts >= 0 && u.ptsCount >= 0
  }

  function IsTooLong(known: set<int>): TgUpdate -> bool {
    (u: TgUpdate) => u.ChannelTooLong? && u.channelID in known
  }

  lemma SelectSnoc(us: seq<TgUpdate>, u: TgUpdate, keep: TgUpdate -> bool)
    ensures Select(us + [u], keep) == Select(us, keep) + Selected(u, keep)
  {
    assert (us + [u])[..|us|] == us;
  }

  lemma {:induction false} SelectMembers(us: seq<TgUpdate>, keep: TgUpdate -> bool)
    ensures forall u :: u in Select(us, keep) <==> u in us && keep(u)
  {
    if us != [] {
      SelectMembers(us[..|us| - 1], keep);
      assert forall u :: u in us <==> u in us[..|us| - 1] || u == us[|us| - 1];
    }
  }

  lemma {:induction false} SelectNone(us: seq<TgUpdate>, keep: TgUpdate -> bool)
    requires forall u :: u in us ==> !keep(u)
    ensures Select(us, keep) == []
  {
    if us != [] {
      SelectNone(us[..|us| - 1], keep);
      assert us[|us| - 1] in us;
    }
  }

  lemma {:induction false} SelectOfInsert(us: seq<TgUpdate>, u: TgUpdate, keep: TgUpdate -> bool)
    ensures multiset(Select(Insert(us, u, Less), keep)) == multiset(Select(us, keep)) + multiset(Selected(u, keep))
  {
    if us != [] && Less(u, us[|us| - 1]) {
      var front, last := us[..|us| - 1], us[|us| - 1];
      SelectOfInsert(front, u, keep);
      SelectSnoc(Insert(front, u, Less), last, keep);
    } else {
      SelectSnoc(us, u, keep);
    }
  }

  /** What is selected is of one rank. */
  ghost predicate OneRank(keep: TgUpdate -> bool, rank: Rank) {
    forall u :: keep(u) ==> RankOf(u) == rank
  }

  /** Inserting moves an update only past others of another rank. */
  lemma {:induction false} SelectOfInsertInOrder(us: seq<TgUpdate>, u: TgUpdate, keep: TgUpdate -> bool, rank: Rank)
    requires OneRank(keep, rank)
    ensures Select(Insert(us, u, Less), keep) == Select(us, keep) + Selected(u, keep)
  {
    hide Select, Less, RankOf;
    if us != [] && Less(u, us[|us| - 1]) {
      var front, last := us[..|us| - 1], us[|us| - 1];
      SelectOfInsertInOrder(front, u, keep, rank);
      SelectSnoc(Insert(front, u, Less), last, keep);
      SelectSnoc(front, last, keep);
      assert us == front + [last];
      LessIsRankLess(u, last);
      assert Selected(u, keep) == [] || Selected(last, keep) == [];
    } else {
      SelectSnoc(us, u, keep);
    }
  }

  lemma {:induction false} SelectOfSorted(us: seq<TgUpdate>, keep: TgUpdate -> bool)
    ensures multiset(Select(StableSort(us, Less), keep)) == multiset(Select(us, keep))
  {
    if us != [] {
      SelectOfSorted(us[..|us| - 1], keep);
      SelectOfInsert(StableSort(us[..|us| - 1], Less), us[|us| - 1], keep);
    }
  }

  /** Sorting leaves the updates of one rank in arrival order. */
  lemma {:induction false} SelectOfSortedInOrder(us: seq<TgUpdate>, keep: TgUpdate -> bool, rank: Rank)
    requires OneRank(keep, rank)
    ensures Select(StableSort(us, Less), keep) == Select(us, keep)
  {
    if us != [] {
      SelectOfSortedInOrder(us[..|us| - 1], keep, rank);
      SelectOfInsertInOrder(StableSort(us[..|us| - 1], Less), us[|us| - 1], keep, rank);
    }
  }

  // ----- bundles of counted updates -----

  ghost predicate OnlyCounted(us: seq<TgUpdate>) {
    forall u :: u in us ==> u.CommonPts? || u.CommonQts?
  }

  ghost predicate AllCounted(bs: seq<Bundle>) {
    forall b :: b in bs ==> OnlyCounted(b.updates)
  }

  /** The plain updates the handler has seen, in order. */
  function PlainHandled(handled: seq<Bundle>): seq<TgUpdate> {
    if handled == [] then []
    else PlainHandled(handled[..|handled| - 1]) + Select(handled[|handled| - 1].updates, IsPlain)
  }

  lemma PlainHandledSnoc(h: seq<Bundle>, b: Bundle)
    ensures PlainHandled(h + [b]) == PlainHandled(h) + Select(b.updates, IsPlain)
  {
    assert (h + [b])[..|h|] == h;
  }

  lemma NothingHandled()
    ensures PlainHandled([]) == []
  {
  }

  lemma {:induction false} PlainHandledConcat(a: seq<Bundle>, b: seq<Bundle>)
    ensures PlainHandled(a + b) == PlainHandled(a) + PlainHandled(b)
  {
    hide PlainHandled, Select;
    if b == [] {
      assert a + b == a;
      NothingHandled();
    } else {
      var front, last := b[..|b| - 1], b[|b| - 1];
      PlainHandledConcat(a, front);
      PlainHandledSnoc(a + front, last);
      PlainHandledSnoc(front, last);
      assert b == front + [last] && a + b == (a + front) + [last];
    }
  }

  lemma {:induction false} CountedHoldNoPlain(bs: seq<Bundle>)
    requires AllCounted(bs)
    ensures PlainHandled(bs) == []
  {
    if bs != [] {
      var last := bs[|bs| - 1];
      assert last in bs;
      CountedHoldNoPlain(bs[..|bs| - 1]);
      SelectNone(last.updates, IsPlain);
    }
  }

  lemma OneBundle(b: Bundle)
    ensures PlainHandled([b]) == Select(b.updates, IsPlain)
  {
    assert [b][..0] == [];
  }

  /** What waits in the pts sequencer are pts updates, in the qts sequencer qts updates. */
  ghost predicate Typed(s: Sync) {
    && (forall p :: p in s.pts.pending ==> p.value.CommonPts?)
    && (forall p :: p in s.qts.pending ==> p.value.CommonQts?)
  }

  /** A batch from a sequencer is one bundle: the values in order, with every user id and every
      chat id that came with any of them once, in the form in which it came first. */
  ghost predicate BundleFor(b: Bundle, ds: seq<Update<TgUpdate>>) {
    && |b.updates| == |ds| && (forall i :: 0 <= i < |ds| ==> b.updates[i] == ds[i].value)
    && b.ents == Entities(Firsts(AllUsers(EntitiesOf(ds))), Firsts(AllChats(EntitiesOf(ds))))
  }

  /** A pts update is handed on exactly with what the sequencer delivers with it, as one bundle. */
  lemma PtsHandsOn(s: Sync, pts: int, ptsCount: int, u: TgUpdate, ents: Entities)
    requires pts >= 0 && ptsCount >= 0
    ensures var ds, h := Sequencer.Delivered(s.pts, Update(u, pts, ptsCount, ents)),
                         HandlePts(s, pts, ptsCount, u, ents).handled;
      if Sequencer.Receive(s.pts, Update(u, pts, ptsCount, ents)).todo.None? then h == s.handled
      else |h| == |s.handled| + 1 && h[..|s.handled|] == s.handled && BundleFor(h[|s.handled|], ds)
  {
    hide Sequencer.Receive;
    MergeKeepsFirstOccurrences(EntitiesOf(Sequencer.Delivered(s.pts, Update(u, pts, ptsCount, ents))));
  }

  lemma QtsHandsOn(s: Sync, qts: int, u: TgUpdate, ents: Entities)
    requires qts >= 0
    ensures var ds, h := Sequencer.Delivered(s.qts, Update(u, qts, 1, ents)), HandleQts(s, qts, u, ents).handled;
      if Sequencer.Receive(s.qts, Update(u, qts, 1, ents)).todo.None? then h == s.handled
      else |h| == |s.handled| + 1 && h[..|s.handled|] == s.handled && BundleFor(h[|s.handled|], ds)
  {
    hide Sequencer.Receive;
    MergeKeepsFirstOccurrences(EntitiesOf(Sequencer.Delivered(s.qts, Update(u, qts, 1, ents))));
  }

  /** Every user id that came with a delivered update is in its bundle. */
  lemma {:induction false} UsersComeAlong(batches: seq<Entities>, i: nat, id: int)
    requires i < |batches|
    ensures HasID(batches[i].users, id) ==> HasID(Firsts(AllUsers(batches)), id)
    ensures HasID(batches[i].chats, id) ==> HasID(Firsts(AllChats(batches)), id)
  {
    FirstsIDs(AllUsers(batches), id);
    FirstsIDs(AllChats(batches), id);
    HasIDConcat(batches[0].users, AllUsers(batches[1..]), id);
    HasIDConcat(batches[0].chats, AllChats(batches[1..]), id);
    if i > 0 {
      UsersComeAlong(batches[1..], i - 1, id);
      FirstsIDs(AllUsers(batches[1..]), id);
      FirstsIDs(AllChats(batches[1..]), id);
    }
  }

  // ----- one turn of the loop over a batch -----

  /** From s to s' only bundles of counted updates are handed on. */
  ghost predicate HandsOnCounted(s: Sync, s': Sync) {
    && Typed(s') && s'.date == s.date && s'.resyncs == s.resyncs
    && |s'.handled| >= |s.handled| && s'.handled[..|s.handled|] == s.handled
    && AllCounted(s'.handled[|s.handled|..])
  }

  lemma HandsOnTransitive(s: Sync, mid: Sync, s': Sync)
    requires HandsOnCounted(s, mid) && HandsOnCounted(mid, s')
    ensures HandsOnCounted(s, s')
  {
    var n, m := |s.handled|, |mid.handled|;
    assert s'.handled[..n] == s'.handled[..m][..n];
    assert s'.handled[n..] == mid.handled[n..] + s'.handled[m..] by {
      assert s'.handled[..m][n..] == mid.handled[n..];
    }
  }

  lemma ReceiveTyped(s: Sync, u: TgUpdate, ents: Entities)
    requires Typed(s)
    ensures u.CommonPts? ==> HandsOnCounted(s, HandlePts(s, u.pts, u.ptsCount, u, ents))
    ensures u.CommonQts? ==> HandsOnCounted(s, HandleQts(s, u.qts, u, ents))
  {
    hide Sequencer.Receive;
    if u.CommonPts? {
      HandleMembers(s.pts, Update(u, u.pts, u.ptsCount, ents));
    } else if u.CommonQts? {
      HandleMembers(s.qts, Update(u, u.qts, 1, ents));
    }
  }

  lemma RouteHandsOn(r: Routing, u: TgUpdate, ents: Entities)
    requires Typed(r.sync)
    ensures var r' := Route(r, u, ents);
      && HandsOnCounted(r.sync, r'.sync)
      && r'.others == r.others + Selected(u, IsPlain)
      && (r'.ptsChanged <==> r.ptsChanged || u.PtsChanged?)
  {
    hide HandlePts, HandleQts;
    ReceiveTyped(r.sync, u, ents);
  }

  lemma {:induction false} RouteAllHandsOn(r: Routing, us: seq<TgUpdate>, ents: Entities)
    requires Typed(r.sync)
    ensures var r' := RouteAll(r, us, ents);
      && HandsOnCounted(r.sync, r'.sync)
      && r'.others == r.others + Select(us, IsPlain)
      && (r'.ptsChanged <==> r.ptsChanged || PtsChanged in us)
  {
    hide Route, HandsOnCounted;
    if us == [] {
      assert HandsOnCounted(r.sync, r.sync) by {
        NothingHandedOn(r.sync);
      }
    } else {
      var front, u := us[..|us| - 1], us[|us| - 1];
      RouteAllHandsOn(r, front, ents);
      var mid := RouteAll(r, front, ents);
      assert Typed(mid.sync) by {
        HandedOnTyped(r.sync, mid.sync);
      }
      RouteHandsOn(mid, u, ents);
      HandsOnTransitive(r.sync, mid.sync, Route(mid, u, ents).sync);
      assert PtsChanged in us <==> PtsChanged in front || u.PtsChanged?;
    }
  }

  lemma NothingHandedOn(s: Sync)
    requires Typed(s)
    ensures HandsOnCounted(s, s)
  {
  }

  lemma HandedOnTyped(s: Sync, s': Sync)
    requires HandsOnCounted(s, s')
    ensures Typed(s')
  {
  }

  // ----- one batch -----

  /** Applying a batch hands on bundles of counted updates, and after them, if the batch has plain
      updates, those in arrival order as one bundle with the users and chats of the batch.  The
      date becomes the later one.  A recovery is asked for exactly if the batch says so. */
  lemma ApplyCombinedHandsOn(s: Sync, c: Combined) returns (counted: seq<Bundle>)
    requires Typed(s)
    ensures var (s', recover) := ApplyCombined(s, c);
      && Typed(s') && AllCounted(counted) && s'.resyncs == s.resyncs
      && (recover <==> PtsChanged in c.updates)
      && s'.date == (if c.date > s.date then c.date else s.date)
      && var plain := Select(c.updates, IsPlain);
         s'.handled == s.handled + counted + if plain == [] then [] else [Bundle(plain, c.ents)]
  {
    hide RouteAll, StableSort, Select;
    var sorted := StableSort(c.updates, Less);
    SortMembers(c.updates, Less);
    SelectOfSortedInOrder(c.updates, IsPlain, Rank(0, 0, 0));
    RouteAllHandsOn(Routing(s, [], false), sorted, c.ents);
    var h := RouteAll(Routing(s, [], false), sorted, c.ents).sync.handled;
    counted := h[|s.handled|..];
    assert h == s.handled + counted;
    assert RouteAll(Routing(s, [], false), sorted, c.ents).others == Select(sorted, IsPlain);
  }

  /** The plain updates of the batches, one batch after the other. */
  function PlainOf(cs: seq<Combined>): seq<TgUpdate> {
    if cs == [] then [] else PlainOf(cs[..|cs| - 1]) + Select(cs[|cs| - 1].updates, IsPlain)
  }

  lemma PlainOfSnoc(cs: seq<Combined>, c: Combined)
    ensures PlainOf(cs + [c]) == PlainOf(cs) + Select(c.updates, IsPlain)
  {
    assert (cs + [c])[..|cs|] == cs;
  }

  /** d' is the latest of d and the dates of the batches. */
  ghost predicate LatestDate(d: int, cs: seq<Combined>, d': int) {
    && d' >= d && (forall c :: c in cs ==> d' >= c.date)
    && (d' == d || exists c :: c in cs && c.date == d')
  }

  /** Applying the batches cs takes s to s': the plain updates of cs are what the handler gets in
      addition to counted ones. */
  ghost predicate HandsOn(s: Sync, cs: seq<Combined>, s': Sync) {
    && Typed(s')
    && PlainHandled(s'.handled) == PlainHandled(s.handled) + PlainOf(cs)
    && LatestDate(s.date, cs, s'.date)
  }

  lemma ApplyCombinedPlain(s: Sync, c: Combined)
    requires Typed(s)
    ensures HandsOn(s, [c], ApplyCombined(s, c).0)
  {
    hide ApplyCombined, PlainHandled, Select;
    var counted := ApplyCombinedHandsOn(s, c);
    var plain := Select(c.updates, IsPlain);
    var last := if plain == [] then [] else [Bundle(plain, c.ents)];
    CountedHoldNoPlain(counted);
    PlainHandledConcat(s.handled, counted);
    PlainHandledConcat(s.handled + counted, last);
    PlainBundle(c);
    PlainOfSnoc([], c);
    assert c in [c] && [] + [c] == [c];
  }

  lemma PlainBundle(c: Combined)
    ensures var plain := Select(c.updates, IsPlain);
      PlainHandled(if plain == [] then [] else [Bundle(plain, c.ents)]) == plain
  {
    OneBundle(Bundle(Select(c.updates, IsPlain), c.ents));
    SelectTwice(c.updates);
  }

  lemma {:induction false} SelectTwice(us: seq<TgUpdate>)
    ensures Select(Select(us, IsPlain), IsPlain) == Select(us, IsPlain)
  {
    if us != [] {
      var front, u := us[..|us| - 1], us[|us| - 1];
      SelectTwice(front);
      SelectSnoc(Select(front, IsPlain), u, IsPlain);
      assert Select(us, IsPlain) == if u.Plain? then Select(front, IsPlain) + [u] else Select(front, IsPlain);
    }
  }

  lemma LatestDateMore(d: int, cs: seq<Combined>, m: int, c: Combined, d': int)
    requires LatestDate(d, cs, m) && LatestDate(m, [c], d')
    ensures LatestDate(d, cs + [c], d')
  {
    assert c in [c] && c in cs + [c] && forall x :: x in cs + [c] <==> x in cs || x in [c];
  }

  lemma HandsOnMore(s: Sync, cs: seq<Combined>, mid: Sync, c: Combined, s': Sync)
    requires HandsOn(s, cs, mid) && HandsOn(mid, [c], s')
    ensures HandsOn(s, cs + [c], s')
  {
    hide PlainHandled, Typed, LatestDate, Select;
    PlainOfSnoc(cs, c);
    PlainOfSnoc([], c);
    assert [] + [c] == [c];
    LatestDateMore(s.date, cs, mid.date, c, s'.date);
  }

  ghost predicate AskToRecover(cs: seq<Combined>) {
    exists c :: c in cs && PtsChanged in c.updates
  }

  lemma {:induction false} ApplyAllHandsOn(s: Sync, batch: seq<Update<Combined>>)
    requires Typed(s)
    ensures HandsOn(s, BatchValues(batch), ApplyCombinedAll(s, batch).0)
    ensures ApplyCombinedAll(s, batch).1 <==> AskToRecover(BatchValues(batch))
    ensures ApplyCombinedAll(s, batch).0.resyncs == s.resyncs
  {
    hide ApplyCombined, HandsOn;
    if batch == [] {
      NothingHandsOn(s);
    } else {
      var front, c := batch[..|batch| - 1], batch[|batch| - 1].value;
      ApplyAllHandsOn(s, front);
      var mid := ApplyCombinedAll(s, front).0;
      assert Typed(mid) by {
        HandsOnTyped(s, BatchValues(front), mid);
      }
      assert BatchValues(batch) == BatchValues(front) + [c];
      assert forall d :: d in BatchValues(batch) <==> d in BatchValues(front) || d == c;
      var _ := ApplyCombinedHandsOn(mid, c);
      ApplyCombinedPlain(mid, c);
      HandsOnMore(s, BatchValues(front), mid, c, ApplyCombined(mid, c).0);
    }
  }

  lemma NothingHandsOn(s: Sync)
    requires Typed(s)
    ensures HandsOn(s, [], s)
  {
  }

  lemma HandsOnTyped(s: Sync, cs: seq<Combined>, s': Sync)
    requires HandsOn(s, cs, s')
    ensures Typed(s')
  {
  }

  lemma FinishSeqHandsOn(s: Sync, r: Sequencer.Received<Combined>)
    requires Typed(s)
    ensures var s', cs := FinishSeq(s.(seqn := r.box), r.todo), BatchValues(Sequencer.Applied(r));
      HandsOn(s, cs, s') && s'.resyncs == s.resyncs + if AskToRecover(cs) then 1 else 0
  {
    hide ApplyCombinedAll;
    ApplyAllHandsOn(s.(seqn := r.box), Sequencer.Applied(r));
  }

  /** A container hands the plain updates of the batches it makes applied to the handler, and asks
      for a resynchronisation once if one of them says so. */
  lemma HandleSeqHandsOn(s: Sync, c: Combined)
    requires Typed(s)
    ensures HandsOn(s, BatchesOf(s, c), HandleSeq(s, c))
    ensures HandleSeq(s, c).resyncs == s.resyncs + if AskToRecover(BatchesOf(s, c)) then 1 else 0
  {
    hide ApplyCombined, FinishSeq, QueueSeq;
    NothingHandsOn(s);
    ApplyCombinedPlain(s, c);
    var _ := ApplyCombinedHandsOn(s, c);
    FinishSeqHandsOn(s, QueueSeq(s, c));
    assert c in [c];
  }

  /** Likewise for every kind of container; the one that says that there are too many updates asks
      for a resynchronisation and does nothing else. */
  lemma HandleUpdatesHandsOn(s: Sync, u: UpdatesClass)
    requires Typed(s)
    ensures HandsOn(s, BatchesIn(s, u), HandleUpdates(s, u))
    ensures HandleUpdates(s, u).resyncs
         == s.resyncs + if u.TgUpdatesTooLong? || AskToRecover(BatchesIn(s, u)) then 1 else 0
  {
    hide HandleSeq, BatchesOf;
    NothingHandsOn(s);
    match u
    case TgUpdates(updates, ents, date, seqNo) =>
      HandleSeqHandsOn(s, Combined(updates, ents, date, seqNo, seqNo));
    case TgUpdatesCombined(c) => HandleSeqHandsOn(s, c);
    case TgUpdateShort(update, date) => HandleSeqHandsOn(s, Combined([update], NO_ENTITIES, date, 0, 0));
    case TgUpdatesTooLong =>
  }

  // ----- containers of plain updates, read off completely -----

  ghost predicate AllPlain(us: seq<TgUpdate>) {
    forall u :: u in us ==> u.Plain?
  }

  lemma RouteOnePlain(r: Routing, u: TgUpdate, ents: Entities)
    requires u.Plain?
    ensures Route(r, u, ents) == r.(others := r.others + [u])
  {
  }

  lemma {:induction false} RoutePlain(s: Sync, us: seq<TgUpdate>, ents: Entities)
    requires AllPlain(us)
    ensures RouteAll(Routing(s, [], false), us, ents) == Routing(s, us, false)
  {
    if us != [] {
      hide Route;
      var front, u := us[..|us| - 1], us[|us| - 1];
      assert u in us && us == front + [u];
      RoutePlain(s, front, ents);
      RouteOnePlain(Routing(s, front, false), u, ents);
    }
  }

  lemma SortPlain(us: seq<TgUpdate>)
    requires AllPlain(us)
    ensures StableSort(us, Less) == us
  {
    SortMembers(us, Less);
    SelectAll(us, IsPlain);
    SelectAll(StableSort(us, Less), IsPlain);
    SelectOfSortedInOrder(us, IsPlain, Rank(0, 0, 0));
  }

  /** The batch us is given to the handler as it is, and otherwise only the date may change. */
  ghost predicate GivenAsIs(s: Sync, us: seq<TgUpdate>, ents: Entities, date: int, s': Sync) {
    && s'.handled == s.handled + [Bundle(us, ents)]
    && s'.date == (if date > s.date then date else s.date)
    && s'.pts == s.pts && s'.qts == s.qts && s'.routed == s.routed && s'.resyncs == s.resyncs
  }

  lemma ApplyPlain(s: Sync, c: Combined)
    requires AllPlain(c.updates) && c.updates != []
    ensures var (s', recover) := ApplyCombined(s, c);
      !recover && GivenAsIs(s, c.updates, c.ents, c.date, s') && (c.seqNo <= 0 ==> s'.seqn == s.seqn)
  {
    SortPlain(c.updates);
    RoutePlain(s, c.updates, c.ents);
  }

  /** A container of plain updates with number n, while nothing waits: it is given to the handler if
      it has no number or the next one, dropped if it is old, and kept behind a gap if it is early. */
  lemma PlainContainer(s: Sync, us: seq<TgUpdate>, ents: Entities, date: int, n: int)
    requires AllPlain(us) && us != [] && Idle(s.seqn)
    ensures var s', now := HandleUpdates(s, TgUpdates(us, ents, date, n)), s.seqn.state;
      if n == 0 then GivenAsIs(s, us, ents, date, s') && s'.seqn == s.seqn
      else if n == now + 1 && n > 0 then GivenAsIs(s, us, ents, date, s') && s'.seqn == Sequencer.Box(n, [], [])
      else if n <= now || n < 0 then s' == s
      else s'.handled == s.handled && s'.date == s.date && s'.seqn.state == now && s'.seqn.gaps == [Gap(now, n - 1)]
  {
    hide ApplyCombined;
    var c := Combined(us, ents, date, n, n);
    ApplyPlain(s, c);
    if n > 0 {
      NumberedOutcome(s, c);
    }
  }

  /** A short update is a batch by itself, without users and chats. */
  lemma PlainShort(s: Sync, u: TgUpdate, date: int)
    requires u.Plain?
    ensures var s' := HandleUpdates(s, TgUpdateShort(u, date));
      GivenAsIs(s, [u], NO_ENTITIES, date, s') && s'.seqn == s.seqn
  {
    hide ApplyCombined;
    ApplyPlain(s, Combined([u], NO_ENTITIES, date, 0, 0));
  }

  // ----- resynchronisation -----

  ghost predicate HasOthers(diff: Difference) {
    (diff.Difference? || diff.DifferenceSlice?) && diff.others != []
  }

  /** The batch in which the other updates of an answer are handled: a slice carries the date of
      its state. */
  function OthersBatch(diff: Difference): Combined
    requires diff.Difference? || diff.DifferenceSlice?
  {
    Combined(diff.others, diff.ents, if diff.DifferenceSlice? then diff.state.date else 0, 0, 0)
  }

  /** The synchroniser between the two halves of an answer: gaps cleared, other updates handled. */
  function AfterOthers(s: Sync, diff: Difference): Sync {
    if (diff.Difference? || diff.DifferenceSlice?) && diff.others != []
    then HandleUpdates(ClearGaps(s), TgUpdatesCombined(OthersBatch(diff)))
    else ClearGaps(s)
  }

  /** Whole difference or slice: the handler gains, after what the other updates make it get,
      exactly the messages of the answer, with the users and chats of the answer; and then the
      counters, in memory and in the storage, are those of the answer. */
  lemma ResyncHandsOn(s: Sync, diff: Difference)
    requires diff.Difference? || diff.DifferenceSlice?
    ensures var mid, s' := AfterOthers(s, diff), Resync(s, diff);
      && CommonHandled(s'.handled) == CommonHandled(mid.handled) + diff.common
      && SecretHandled(s'.handled) == SecretHandled(mid.handled) + diff.secret
      && PlainHandled(s'.handled) == PlainHandled(mid.handled)
      && (s'.handled == mid.handled
          || (|s'.handled| == |mid.handled| + 1 && s'.handled[..|mid.handled|] == mid.handled
              && s'.handled[|mid.handled|].ents == diff.ents))
      && State(s'.pts.state, s'.qts.state, s'.date, s'.seqn.state) == diff.state && s'.saved == Some(diff.state)
      && s'.pts == mid.pts.(state := diff.state.pts) && s'.qts == mid.qts.(state := diff.state.qts)
      && s'.seqn == mid.seqn.(state := diff.state.seqNo)
      && s'.routed == mid.routed && s'.channels == mid.channels
  {
    hide HandleUpdates, CommonHandled, SecretHandled, PlainHandled;
    var mid := AfterOthers(s, diff);
    HandOnMessages(mid.handled, diff.common, diff.secret, diff.ents);
    var b := Bundle(MessagesToUpdates(diff.common) + EncryptedToUpdates(diff.secret), diff.ents);
    assert OnlyCounted(b.updates);
    CountedHoldNoPlain([b]);
    PlainHandledConcat(mid.handled, [b]);
  }

  /** An answer asks for a further resynchronisation exactly if it is a slice or says that the
      difference is too long, besides what its other updates ask for. */
  lemma ResyncAsksAgain(s: Sync, diff: Difference)
    requires Typed(s)
    ensures Resync(s, diff).resyncs
         == s.resyncs + (if diff.DifferenceSlice? || diff.DifferenceTooLong? then 1 else 0)
                      + (if HasOthers(diff) && PtsChanged in diff.others then 1 else 0)
  {
    hide HandleUpdates;
    if HasOthers(diff) {
      var batch := OthersBatch(diff);
      HandleUpdatesHandsOn(ClearGaps(s), TgUpdatesCombined(batch));
      assert batch in [batch] && (AskToRecover([batch]) <==> PtsChanged in batch.updates);
    }
  }

  /** The answers without content: nothing is handed on, and only what they name is set. */
  lemma ShortAnswers(s: Sync, diff: Difference)
    requires !diff.Difference? && !diff.DifferenceSlice?
    ensures var s' := Resync(s, diff);
      && s'.handled == s.handled && s'.routed == s.routed
      && s'.pts == Sequencer.Box(if diff.DifferenceTooLong? then diff.pts else s.pts.state, [], s.pts.pending)
      && s'.qts == Sequencer.Box(s.qts.state, [], s.qts.pending)
      && s'.seqn == Sequencer.Box(if diff.DifferenceEmpty? then diff.seqNo else s.seqn.state, [], s.seqn.pending)
      && s'.date == (if diff.DifferenceEmpty? then diff.date else s.date)
  {
  }

  lemma AfterOthersPlain(s: Sync, diff: Difference)
    requires Typed(s) && (diff.Difference? || diff.DifferenceSlice?)
    ensures Typed(AfterOthers(s, diff))
    ensures PlainHandled(AfterOthers(s, diff).handled) == PlainHandled(s.handled) + Select(diff.others, IsPlain)
  {
    hide HandleUpdates, PlainHandled, Select, PlainOf;
    var batch, c := OthersBatch(diff), ClearGaps(s);
    if diff.others == [] {
      NoneSelected();
    } else {
      HandleUpdatesHandsOn(c, TgUpdatesCombined(batch));
      PlainOfSnoc([], batch);
      NoPlainOf();
      assert [] + [batch] == [batch];
    }
  }

  lemma NoPlainOf()
    ensures PlainOf([]) == []
  {
  }

  /** A resynchronisation hands on the plain updates of its answer. */
  lemma ResyncPlain(s: Sync, diff: Difference)
    requires Typed(s)
    ensures Typed(Resync(s, diff))
    ensures PlainHandled(Resync(s, diff).handled) == PlainHandled(s.handled) + Select(OthersIn(diff), IsPlain)
  {
    hide AfterOthers, PlainHandled, Resync, Select, CommonHandled, SecretHandled;
    if diff.Difference? || diff.DifferenceSlice? {
      ResyncHandsOn(s, diff);
      AfterOthersPlain(s, diff);
    } else {
      ShortAnswers(s, diff);
      NoneSelected();
    }
  }

  lemma NoneSelected()
    ensures Select([], IsPlain) == []
  {
  }

  // ----- whole runs -----

  /** The plain updates that an act brings. */
  ghost function PlainBrought(w: World, a: Act): seq<TgUpdate> {
    match a
    case Deliver(u) => PlainOf(BatchesIn(w.sync, u))
    case ResyncSlice(_, _, others, _, _, _) => Select(others, IsPlain)
    case _ => []
  }

  ghost function PlainDuring(ws: seq<World>, acts: seq<Act>, n: nat): seq<TgUpdate>
    requires n <= |acts| <= |ws|
  {
    if n == 0 then [] else PlainDuring(ws, acts, n - 1) + PlainBrought(ws[n - 1], acts[n - 1])
  }

  lemma {:induction false} OthersNotPlain(channels: map<int, seq<Message>>, order: seq<int>, date: int)
    requires forall id :: id in order ==> id in channels
    ensures forall u :: u in OtherUpdates(channels, order, date) ==> u.ChannelPts?
  {
    if order != [] {
      var last := |order| - 1;
      OthersNotPlain(channels, order[..last], date);
      NewerThanExact(order[last], channels[order[last]], date);
    }
  }

  lemma DoHandsOnPlain(w: World, a: Act)
    requires Typed(w.sync) && Possible(w, a)
    ensures Typed(Do(w, a).sync)
    ensures PlainHandled(Do(w, a).sync.handled) == PlainHandled(w.sync.handled) + PlainBrought(w, a)
  {
    hide HandleUpdates, Resync, PlainHandled, BatchesIn;
    match a
    case Deliver(u) => HandleUpdatesHandsOn(w.sync, u);
    case Resynchronise(order, ents) =>
      var diff := ServerDifference(w.sync, w.srv, order, ents);
      ResyncPlain(w.sync, diff);
      OthersNotPlain(w.srv.channels, order, w.sync.date);
      SelectNone(OthersIn(diff), IsPlain);
    case ResyncSlice(n, m, others, ents, date, seqNo) =>
      ResyncPlain(w.sync, ServerSlice(w.sync, w.srv, n, m, others, ents, date, seqNo));
    case _ =>
  }

  /** In every run the plain updates that the handler gets are exactly those of the batches that
      are applied, each as often as it is in them, in that order. */
  lemma {:induction false} RunHandsOnPlain(ws: seq<World>, acts: seq<Act>, n: nat)
    requires IsRun(ws, acts) && n <= |acts| && Typed(ws[0].sync)
    ensures Typed(ws[n].sync)
    ensures PlainHandled(ws[n].sync.handled) == PlainHandled(ws[0].sync.handled) + PlainDuring(ws, acts, n)
  {
    hide Do, PlainHandled, PlainBrought, Typed;
    if n > 0 {
      RunHandsOnPlain(ws, acts, n - 1);
      assert Possible(ws[n - 1], acts[n - 1]) && ws[n] == Do(ws[n - 1], acts[n - 1]);
      DoHandsOnPlain(ws[n - 1], acts[n - 1]);
    }
  }

  // ----- channels -----

  /** us is what a channel's log has that is newer than date, in order, each with its place. */
  ghost predicate AreNewer(us: seq<TgUpdate>, id: int, msgs: seq<Message>, date: int) {
    && (forall u :: u in us <==> exists i :: 0 <= i < |msgs| && msgs[i].date > date
                                             && u == ChannelPts(id, i + 1, 1, msgs[i], false))
    && (forall j, k :: 0 <= j < k < |us| ==> us[j].ChannelPts? && us[k].ChannelPts? && us[j].pts < us[k].pts)
  }

  lemma {:induction false} NewerThanExact(id: int, msgs: seq<Message>, date: int)
    ensures AreNewer(NewerThan(id, msgs, date), id, msgs, date)
    ensures forall u :: u in NewerThan(id, msgs, date) ==> u.ChannelPts?
  {
    if msgs != [] {
      var last := |msgs| - 1;
      NewerThanExact(id, msgs[..last], date);
      assert forall i :: 0 <= i < last ==> msgs[..last][i] == msgs[i];
      var us, front := NewerThan(id, msgs, date), NewerThan(id, msgs[..last], date);
      forall j | 0 <= j < |front| ensures front[j].ChannelPts? && front[j].pts <= last {
        assert front[j] in front;
      }
      var x := ChannelPts(id, last + 1, 1, msgs[last], false);
      assert forall u :: u in us <==> u in front || (msgs[last].date > date && u == x);
    }
  }

  /** The other updates of a difference are exactly the newer messages of the visited channels. */
  lemma {:induction false} OtherUpdatesExact(channels: map<int, seq<Message>>, order: seq<int>, date: int)
    requires forall id :: id in order ==> id in channels
    ensures forall u :: u in OtherUpdates(channels, order, date) <==>
      exists id, i :: id in order && 0 <= i < |channels[id]| && channels[id][i].date > date
                      && u == ChannelPts(id, i + 1, 1, channels[id][i], false)
  {
    if order != [] {
      var last := |order| - 1;
      var front, id := order[..last], order[last];
      OtherUpdatesExact(channels, front, date);
      NewerThanExact(id, channels[id], date);
      assert forall x :: x in order <==> x in front || x == id;
    }
  }

  function ChannelOf(u: TgUpdate): int {
    match u
    case ChannelPts(id, _, _, _, _) => id
    case ChannelTooLong(id) => id
    case _ => 0
  }

  /** Each update sent to its own channel, with the users and chats of its batch. */
  function RoutedTo(us: seq<TgUpdate>, ents: Entities): (rs: seq<Routed>)
    ensures |rs| == |us| && forall i :: 0 <= i < |rs| ==> rs[i] == Routed(ChannelOf(us[i]), us[i], ents)
  {
    seq(|us|, i requires 0 <= i < |us| => Routed(ChannelOf(us[i]), us[i], ents))
  }

  function ChannelsOf(us: seq<TgUpdate>): set<int> {
    set u | u in us :: ChannelOf(u)
  }

  lemma SentSnoc(us: seq<TgUpdate>, u: TgUpdate, ents: Entities)
    ensures RoutedTo(us + [u], ents) == RoutedTo(us, ents) + [Routed(ChannelOf(u), u, ents)]
    ensures ChannelsOf(us + [u]) == ChannelsOf(us) + {ChannelOf(u)}
  {
    assert forall v :: v in us + [u] <==> v in us || v == u;
  }

  /** From s to s' the notices and then the updates are sent on. */
  ghost predicate Routes(s: Sync, notices: seq<TgUpdate>, updates: seq<TgUpdate>, ents: Entities, s': Sync) {
    && s'.routed == s.routed + RoutedTo(notices, ents) + RoutedTo(updates, ents)
    && s'.channels == s.channels + ChannelsOf(updates)
  }

  lemma RouteOneRoutes(r: Routing, u: TgUpdate, ents: Entities)
    ensures var (s, s') := (r.sync, Route(r, u, ents).sync);
      if IsValidChannel(u) || IsTooLong(s.channels)(u) then
        && s'.routed == s.routed + [Routed(ChannelOf(u), u, ents)]
        && s'.channels == if IsValidChannel(u) then s.channels + {ChannelOf(u)} else s.channels
      else s'.routed == s.routed && s'.channels == s.channels
  {
    hide Sequencer.Receive, BundleOf;
  }

  lemma RoutesMore(s: Sync, notices: seq<TgUpdate>, updates: seq<TgUpdate>, ents: Entities, r: Routing, u: TgUpdate)
    requires Routes(s, notices, updates, ents, r.sync)
    requires u.ChannelTooLong? ==> updates == []
    ensures Routes(s, notices + Selected(u, IsTooLong(s.channels)), updates + Selected(u, IsValidChannel), ents,
                   Route(r, u, ents).sync)
  {
    hide Route, RoutedTo, ChannelsOf;
    RouteOneRoutes(r, u, ents);
    NothingSent(ents);
    if IsValidChannel(u) {
      SentSnoc(updates, u, ents);
      assert notices + [] == notices;
    } else if IsTooLong(s.channels)(u) {
      SentSnoc(notices, u, ents);
      assert updates + [] == [];
    } else {
      assert notices + [] == notices && updates + [] == updates;
    }
  }

  lemma NothingSent(ents: Entities)
    ensures RoutedTo([], ents) == [] && ChannelsOf([]) == {}
  {
  }

  /** The loop over a sorted batch comes to the channel updates last, so a channel that it makes
      known is too late for the notices that came before. */
  lemma {:induction false} RouteAllRoutes(r: Routing, us: seq<TgUpdate>, ents: Entities)
    requires AscendsByRank(us)
    ensures Routes(r.sync, Select(us, IsTooLong(r.sync.channels)), Select(us, IsValidChannel), ents,
                   RouteAll(r, us, ents).sync)
  {
    hide Route;
    if us == [] {
      NothingSent(ents);
    } else {
      hide Routes, RoutedTo, ChannelsOf, Select, AscendsByRank, IsValidChannel;
      var front, u := us[..|us| - 1], us[|us| - 1];
      var known := IsTooLong(r.sync.channels);
      AscendsFront(us);
      RouteAllRoutes(r, front, ents);
      assert us == front + [u];
      SelectSnoc(front, u, known);
      SelectSnoc(front, u, IsValidChannel);
      if u.ChannelTooLong? {
        NoticesFirst(us);
      }
      RoutesMore(r.sync, Select(front, known), Select(front, IsValidChannel), ents, RouteAll(r, front, ents), u);
    }
  }

  lemma AscendsFront(us: seq<TgUpdate>)
    requires us != [] && AscendsByRank(us)
    ensures AscendsByRank(us[..|us| - 1])
  {
  }

  lemma NoticesFirst(us: seq<TgUpdate>)
    requires us != [] && AscendsByRank(us) && us[|us| - 1].ChannelTooLong?
    ensures Select(us[..|us| - 1], IsValidChannel) == []
  {
    var front := us[..|us| - 1];
    forall v | v in front ensures !IsValidChannel(v) {
      var i :| 0 <= i < |front| && front[i] == v;
      assert !RankLess(RankOf(us[|us| - 1]), RankOf(us[i]));
    }
    SelectNone(front, IsValidChannel);
  }

  lemma {:induction false} SelectAscends(us: seq<TgUpdate>, keep: TgUpdate -> bool)
    requires AscendsByRank(us)
    ensures AscendsByRank(Select(us, keep))
  {
    if us != [] {
      var front, u := us[..|us| - 1], us[|us| - 1];
      SelectAscends(front, keep);
      SelectMembers(front, keep);
      var part := Select(front, keep);
      forall i | 0 <= i < |part| ensures !RankLess(RankOf(u), RankOf(part[i])) {
        assert part[i] in front;
        var k :| 0 <= k < |front| && front[k] == part[i];
        assert !RankLess(RankOf(us[|us| - 1]), RankOf(us[k]));
      }
    }
  }

  /** A batch sends on the notices for channels known before, in arrival order, and then every
      valid channel update once, those of a channel ascending; each to its own channel with the
      users and chats of the batch.  The channels of the updates are known from then on. */
  lemma BatchRoutes(s: Sync, c: Combined) returns (ordered: seq<TgUpdate>)
    ensures Routes(s, Select(c.updates, IsTooLong(s.channels)), ordered, c.ents, ApplyCombined(s, c).0)
    ensures multiset(ordered) == multiset(Select(c.updates, IsValidChannel)) && AscendsByRank(ordered)
  {
    hide RouteAll, StableSort, Select, AscendsByRank, RoutedTo, ChannelsOf, KeepsRanks;
    var sorted := StableSort(c.updates, Less);
    ordered := Select(sorted, IsValidChannel);
    SortIsTheStableArrangement(c.updates, sorted);
    SelectOfSorted(c.updates, IsValidChannel);
    OrderedTooLong(s.channels);
    SelectOfSortedInOrder(c.updates, IsTooLong(s.channels), Rank(0, 0, 0));
    SelectAscends(sorted, IsValidChannel);
    RouteAllRoutes(Routing(s, [], false), sorted, c.ents);
  }

  lemma OrderedTooLong(known: set<int>)
    ensures OneRank(IsTooLong(known), Rank(0, 0, 0))
  {
  }

  lemma {:induction false} SelectAll(us: seq<TgUpdate>, keep: TgUpdate -> bool)
    requires forall u :: u in us ==> keep(u)
    ensures Select(us, keep) == us
  {
    if us != [] {
      SelectAll(us[..|us| - 1], keep);
      assert us[|us| - 1] in us;
    }
  }

  /** As far as channels are concerned, a difference is the batch of its other updates. */
  lemma ResyncIsBatch(s: Sync, diff: Difference)
    requires diff.Difference?
    ensures var s' := Resync(s, diff);
      s'.routed == if diff.others == [] then s.routed
                   else ApplyCombined(ClearGaps(s), Combined(diff.others, diff.ents, 0, 0, 0)).0.routed
  {
    hide ApplyCombined;
  }

  /** A resynchronisation sends every channel the messages of its log that are newer than the date,
      each once, in order, with its place. */
  lemma ResyncRoutes(s: Sync, srv: Logs, order: seq<int>, ents: Entities) returns (ordered: seq<TgUpdate>)
    requires CanAsk(s, srv, order)
    ensures Resync(s, ServerDifference(s, srv, order, ents)).routed == s.routed + RoutedTo(ordered, ents)
    ensures multiset(ordered) == multiset(OtherUpdates(srv.channels, order, s.date)) && AscendsByRank(ordered)
  {
    hide ApplyCombined, Resync, Select, OtherUpdates;
    var diff := ServerDifference(s, srv, order, ents);
    ordered := [];
    if diff.Difference? && diff.others != [] {
      OtherUpdatesExact(srv.channels, order, s.date);
      SelectAll(diff.others, IsValidChannel);
      SelectNone(diff.others, IsTooLong(s.channels));
      ordered := BatchRoutes(ClearGaps(s), Combined(diff.others, ents, 0, 0, 0));
    }
    if diff.Difference? {
      ResyncIsBatch(s, diff);
    } else {
      ShortAnswers(s, diff);
    }
  }
}
