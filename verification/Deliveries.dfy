/** What becomes of every single update, whatever the sender does: counts of 0 are included, and
    apart from state 0 nothing is excluded.
 */
module Deliveries {
  import opened ChainSafety
  import opened GapBuffers
  import opened Sequencer
  import opened StableSorting
  import opened Updates

  // ----- an update that stands exactly at the state -----

  /** An idle sequencer applies what starts at its state, also if its count is 0. */
  lemma IdleApplies<V(!new)>(b: Box<V>, u: Update<V>)
    requires Idle(b) && u.Start() == b.state
    ensures Delivered(b, u) == [u] && Handle(b, u) == Box(u.End(), [], [])
  {
  }

  /** Valid counters: no state is 0 and no count is negative. */
  ghost predicate Valid<V(!new)>(ps: seq<Update<V>>) {
    NonZero(ps) && NonNegative(ps)
  }

  lemma ValidTail<V(!new)>(ps: seq<Update<V>>)
    requires ps != [] && Valid(ps) && Ordered(ps, StartsBefore)
    ensures ps[0].state != 0 && ps[0].count >= 0 && Valid(ps[1..]) && Ordered(ps[1..], StartsBefore)
    ensures forall p :: p in ps ==> p.Start() >= ps[0].Start()
  {
    assert ps[0] in ps;
    forall p | p in ps ensures p.Start() >= ps[0].Start() {
      var i :| 0 <= i < |ps| && ps[i] == p;
      assert i > 0 ==> !StartsBefore(ps[i], ps[0]);
    }
  }

  lemma {:induction false} InsertFront<V(!new)>(ps: seq<Update<V>>, u: Update<V>)
    requires ps != [] && Ordered(ps, StartsBefore)
    ensures Insert(ps, u, StartsBefore)
         == if ps[0].Start() > u.Start() then [u] + ps else [ps[0]] + Insert(ps[1..], u, StartsBefore)
  {
    var last := |ps| - 1;
    if last > 0 {
      InsertFront(ps[..last], u);
      assert ps[1..][..last - 1] == ps[..last][1..] && ps[1..][last - 1] == ps[last];
      assert !StartsBefore(ps[last], ps[0]);
      assert ps == [ps[0]] + ps[1..] && ps == ps[..last] + [ps[last]];
    }
  }

  lemma {:induction false} ScanPastInserted<V(!new)>(state: int, ps: seq<Update<V>>, u: Update<V>)
    requires Valid(ps) && Ordered(ps, StartsBefore) && u.state != 0 && u.Start() < state
    ensures Scan(state, Insert(ps, u, StartsBefore)) == Scan(state, ps)
    decreases ps
  {
    if ps == [] {
    } else {
      ValidTail(ps);
      InsertFront(ps, u);
      var all := Insert(ps, u, StartsBefore);
      if ps[0].Start() > u.Start() {
        assert all[1..] == ps;
      } else {
        assert all[1..] == Insert(ps[1..], u, StartsBefore);
        ScanPastInserted(state, ps[1..], u);
      }
    }
  }

  /** Something pending starts at the state and is not empty. */
  ghost predicate Blocks<V(!new)>(ps: seq<Update<V>>, state: int) {
    exists p :: p in ps && p.Start() == state && p.count > 0
  }

  lemma BlocksCons<V(!new)>(ps: seq<Update<V>>, state: int)
    requires ps != []
    ensures Blocks(ps, state) <==> (ps[0].Start() == state && ps[0].count > 0) || Blocks(ps[1..], state)
    ensures Waits(ps, state) <==> ps[0].Start() == state || Waits(ps[1..], state)
  {
    assert forall p :: p in ps <==> p == ps[0] || p in ps[1..];
  }

  lemma {:induction false} ScanBlocked<V(!new)>(state: int, ps: seq<Update<V>>, u: Update<V>)
    requires Valid(ps) && Ordered(ps, StartsBefore) && u.state != 0 && u.Start() == state
    requires Blocks(ps, state)
    ensures Scan(state, Insert(ps, u, StartsBefore)) == Scan(state, ps)
    decreases ps
  {
    hide Insert;
    ValidTail(ps);
    InsertFront(ps, u);
    BlocksCons(ps, state);
    var all := Insert(ps, u, StartsBefore);
    assert all[0] == ps[0] && all[1..] == Insert(ps[1..], u, StartsBefore);
    if ps[0].Start() == state && ps[0].count > 0 {
      ScanPastInserted(ps[0].End(), ps[1..], u);
    } else {
      ScanBlocked(state, ps[1..], u);
    }
  }

  lemma ScanGoesOn<V(!new)>(state: int, ps: seq<Update<V>>, u: Update<V>)
    requires ps != [] && ps[0].state != 0 && ps[0].Start() <= state
    requires if ps[0].Start() < state then u in Scan(state, ps[1..]).accepted
             else u == ps[0] || u in Scan(ps[0].End(), ps[1..]).accepted
    ensures u in Scan(state, ps).accepted
  {
  }

  lemma {:induction false} ScanUnblocked<V(!new)>(state: int, ps: seq<Update<V>>, u: Update<V>)
    requires Valid(ps) && Ordered(ps, StartsBefore) && u.state != 0 && u.Start() == state
    requires !Blocks(ps, state)
    ensures u in Scan(state, Insert(ps, u, StartsBefore)).accepted
    decreases ps
  {
    hide Scan;
    if ps == [] {
      assert Insert(ps, u, StartsBefore) == [u];
      ScanGoesOn(state, [u], u);
    } else {
      hide Insert, Blocks;
      var all := Insert(ps, u, StartsBefore);
      ValidTail(ps);
      InsertFront(ps, u);
      BlocksCons(ps, state);
      if ps[0].Start() <= state {
        assert all[0] == ps[0] && all[1..] == Insert(ps[1..], u, StartsBefore);
        ScanUnblocked(state, ps[1..], u);
      }
      ScanGoesOn(state, all, u);
    }
  }

  lemma {:induction false} ScanQuiet<V(!new)>(state: int, ps: seq<Update<V>>, u: Update<V>)
    requires Valid(ps) && Ordered(ps, StartsBefore) && u.state != 0 && u.count >= 0 && u.Start() == state
    requires !Waits(ps, state)
    ensures var after := Scan(u.End(), ps);
      Scan(state, Insert(ps, u, StartsBefore)) == Scanned(after.state, [u] + after.accepted, after.rest)
    decreases ps
  {
    if ps == [] {
      assert [u][1..] == [];
    } else {
      hide Insert;
      ValidTail(ps);
      InsertFront(ps, u);
      BlocksCons(ps, state);
      if ps[0].Start() > state {
        assert ([u] + ps)[1..] == ps;
      } else {
        assert Insert(ps, u, StartsBefore)[1..] == Insert(ps[1..], u, StartsBefore);
        ScanQuiet(state, ps[1..], u);
      }
    }
  }

  lemma SortExtended<V(!new)>(ps: seq<Update<V>>, u: Update<V>)
    ensures StableSort(ps + [u], StartsBefore) == Insert(StableSort(ps, StartsBefore), u, StartsBefore)
  {
    assert (ps + [u])[..|ps|] == ps;
  }

  lemma SortedPending<V(!new)>(ps: seq<Update<V>>)
    requires Valid(ps)
    ensures var sorted := StableSort(ps, StartsBefore);
      && Valid(sorted) && Ordered(sorted, StartsBefore)
      && forall p :: p in sorted <==> p in ps
  {
    StartsBeforeIsWeakOrder<V>();
    SortsStably(ps, StartsBefore);
    SortMembers(ps, StartsBefore);
  }

  /** A flush commits what the scan of the sorted queue leaves. */
  lemma TakeIsScan<V(!new)>(b: Box<V>, r: Scanned<V>)
    requires Valid(b.pending) && r == Scan(b.state, StableSort(b.pending, StartsBefore))
    ensures Applied(TakePending(b)) == r.accepted
    ensures Commit(TakePending(b)) == b.(state := r.state, pending := r.rest)
  {
    SortedPending(b.pending);
    ScanStands(b.state, StableSort(b.pending, StartsBefore));
  }

  lemma {:induction false} ScanStands<V(!new)>(state: int, ps: seq<Update<V>>)
    requires Valid(ps)
    ensures Scan(state, ps).accepted == [] ==> Scan(state, ps).state == state
    decreases ps
  {
    if ps != [] {
      ScanStands(state, ps[1..]);
    }
  }

  /** With no gap open and u at the state, but updates pending: u is applied first and the rest is
      flushed from where u ends. */
  lemma QuietApplies<V(!new)>(b: Box<V>, u: Update<V>)
    requires b.gaps == [] && Valid(b.pending) && u.state != 0 && u.count >= 0 && u.Start() == b.state
    requires !Waits(b.pending, b.state)
    ensures var after := TakePending(b.(state := u.End()));
      Delivered(b, u) == [u] + Applied(after) && Handle(b, u) == Commit(after)
  {
    SortedPending(b.pending);
    TakeIsScan(b.(state := u.End()), Scan(u.End(), StableSort(b.pending, StartsBefore)));
    if b.pending != [] {
      FlushesWith(b, u);
      ScanQuiet(b.state, StableSort(b.pending, StartsBefore), u);
    }
  }

  /** Handling u means scanning the queue with u inserted. */
  lemma FlushesWith<V(!new)>(b: Box<V>, u: Update<V>)
    requires b.gaps == [] && Valid(b.pending) && u.state != 0 && u.count >= 0 && u.Start() == b.state
    requires b.pending != []
    ensures var r := Scan(b.state, Insert(StableSort(b.pending, StartsBefore), u, StartsBefore));
      Delivered(b, u) == r.accepted && Handle(b, u) == b.(state := r.state, pending := r.rest)
  {
    SortExtended(b.pending, u);
    TakeIsScan(b.(pending := b.pending + [u]), Scan(b.state, StableSort(b.pending + [u], StartsBefore)));
  }

  /** If a pending update with a positive count starts at the state, which only a
      resynchronisation can bring about, it comes first, and u is outdated. */
  lemma BlockedIgnores<V(!new)>(b: Box<V>, u: Update<V>)
    requires b.gaps == [] && Valid(b.pending) && u.state != 0 && u.count >= 0 && u.Start() == b.state
    requires Blocks(b.pending, b.state)
    ensures Delivered(b, u) == Applied(TakePending(b)) && Handle(b, u) == Commit(TakePending(b))
  {
    hide Scan, Insert, StableSort, Delivered, Handle, TakePending;
    SortedPending(b.pending);
    FlushesWith(b, u);
    ScanBlocked(b.state, StableSort(b.pending, StartsBefore), u);
    TakeIsScan(b, Scan(b.state, StableSort(b.pending, StartsBefore)));
  }

  /** An update at the state is delivered exactly unless a pending one blocks it; blocked, it can
      only have an equal that the flush delivers. */
  lemma AppliesAtStateExactlyWhen<V(!new)>(b: Box<V>, u: Update<V>)
    requires b.gaps == [] && Valid(b.pending) && u.state != 0 && u.count >= 0 && u.Start() == b.state
    ensures u in Delivered(b, u) <==> !Blocks(b.pending, b.state) || u in Applied(TakePending(b))
  {
    hide Scan, Insert, StableSort, Delivered, Handle, TakePending;
    SortedPending(b.pending);
    if Blocks(b.pending, b.state) {
      BlockedIgnores(b, u);
    } else if b.pending == [] {
      IdleApplies(b, u);
    } else {
      FlushesWith(b, u);
      ScanUnblocked(b.state, StableSort(b.pending, StartsBefore), u);
    }
  }

  /** Every arrival of an update of count 0 at an idle sequencer in its state is delivered. */
  lemma {:induction false} RepeatsAreDelivered<V(!new)>(b: Box<V>, u: Update<V>, n: nat)
    requires Idle(b) && u.count == 0 && u.state == b.state
    ensures DeliveredAll(b, seq(n, _ => u)) == seq(n, _ => u) && HandleAll(b, seq(n, _ => u)) == b
  {
    if n > 0 {
      RepeatsAreDelivered(b, u, n - 1);
      assert seq(n, _ => u)[..n - 1] == seq(n - 1, _ => u);
      IdleApplies(b, u);
    }
  }

  lemma {:induction false} TraceSplits<V(!new)>(b: Box<V>, es: seq<Event<V>>, i: nat)
    requires i < |es|
    ensures var before := Steps(b, es[..i]);
      Trace(b, es) == Trace(b, es[..i]) + Marks(before, es[i]) + Trace(Step(before, es[i]), es[i + 1..])
    decreases i
  {
    hide Step, Marks;
    if i == 0 {
      assert es[..0] == [];
    } else {
      var b1, rest := Step(b, es[0]), es[1..];
      TraceSplits(b1, rest, i - 1);
      assert rest[..i - 1] == es[..i][1..] && rest[i..] == es[i + 1..];
      assert Steps(b, es[..i]) == Steps(b1, rest[..i - 1]);
      assert Trace(b, es[..i]) == Marks(b, es[0]) + Trace(b1, rest[..i - 1]);
      assert Trace(b, es) == Marks(b, es[0]) + Trace(b1, rest);
    }
  }

  /** In every run, failing callbacks and resynchronisations included, whatever arrives at the
      state of an idle sequencer is delivered at that point, if the callback succeeds. */
  lemma RunAppliesAtState<V(!new)>(b: Box<V>, es: seq<Event<V>>, i: nat)
    requires i < |es| && es[i].Arrive? && es[i].ok
    requires var before := Steps(b, es[..i]); Idle(before) && es[i].u.Start() == before.state
    ensures var after := Box(es[i].u.End(), [], []);
      Trace(b, es) == Trace(b, es[..i]) + [Given(es[i].u)] + Trace(after, es[i + 1..])
  {
    TraceSplits(b, es, i);
    IdleApplies(Steps(b, es[..i]), es[i].u);
    assert Givens([es[i].u]) == [Given(es[i].u)] by {
      assert [es[i].u][1..] == [];
    }
  }

  // ----- conservation: nothing is dropped but what is outdated -----

  /** Everything in ps starts below the state. */
  ghost predicate Outdated<V(!new)>(ps: seq<Update<V>>, state: int) {
    forall p :: p in ps ==> p.Start() < state
  }

  /** The elements of ps, counted with repetitions, are those of the other three together, and
      all that was dropped starts below the state. */
  ghost predicate Splits<V(!new)>(ps: seq<Update<V>>, delivered: seq<Update<V>>, rest: seq<Update<V>>,
                                  dropped: seq<Update<V>>, state: int) {
    multiset(ps) == multiset(delivered) + multiset(rest) + multiset(dropped) && Outdated(dropped, state)
  }

  lemma SplitsCons<V(!new)>(ps: seq<Update<V>>, delivered: seq<Update<V>>, rest: seq<Update<V>>,
                            dropped: seq<Update<V>>, state: int)
    requires ps != [] && Splits(ps[1..], delivered, rest, dropped, state)
    ensures Splits(ps, [ps[0]] + delivered, rest, dropped, state)
    ensures ps[0].Start() < state ==> Splits(ps, delivered, rest, [ps[0]] + dropped, state)
  {
    assert ps == [ps[0]] + ps[1..];
  }

  lemma {:induction false} ScanConserves<V(!new)>(state: int, ps: seq<Update<V>>) returns (dropped: seq<Update<V>>)
    requires Valid(ps)
    ensures var r := Scan(state, ps);
      Splits(ps, r.accepted, r.rest, dropped, r.state) && r.state >= state
    decreases ps
  {
    if ps == [] {
      dropped := [];
    } else {
      assert ps[0] in ps && Valid(ps[1..]);
      match CheckGap(state, ps[0].state, ps[0].count)
      case GapApply =>
        dropped := ScanConserves(ps[0].state, ps[1..]);
        var r := Scan(ps[0].state, ps[1..]);
        SplitsCons(ps, r.accepted, r.rest, dropped, r.state);
      case GapIgnore =>
        var others := ScanConserves(state, ps[1..]);
        var r := Scan(state, ps[1..]);
        SplitsCons(ps, r.accepted, r.rest, others, r.state);
        dropped := [ps[0]] + others;
      case GapRefetch =>
        dropped := [];
    }
  }

  lemma TakeConserves<V(!new)>(b: Box<V>) returns (dropped: seq<Update<V>>)
    requires Valid(b.pending)
    ensures var r := TakePending(b);
      Splits(b.pending, Applied(r), Commit(r).pending, dropped, Commit(r).state) && Commit(r).state >= b.state
  {
    hide TakePending;
    SortedPending(b.pending);
    SortMembers(b.pending, StartsBefore);
    dropped := ScanConserves(b.state, StableSort(b.pending, StartsBefore));
    TakeIsScan(b, Scan(b.state, StableSort(b.pending, StartsBefore)));
  }

  /** A call that flushes does so with u queued and no gap left. */
  lemma FlushTakes<V(!new)>(b: Box<V>, u: Update<V>)
    requires Flushes(b, u)
    ensures Receive(b, u) == TakePending(Box(b.state, [], b.pending + [u]))
  {
    hide TakePending;
  }

  /** Any other call ignores u, applies it alone, or queues it. */
  lemma WithoutFlush<V(!new)>(b: Box<V>, u: Update<V>)
    requires !Flushes(b, u)
    ensures var r := Receive(b, u);
      if CheckGap(b.state, u.state, u.count) == GapIgnore then r == Received(b, None)
      else if Idle(b) && CheckGap(b.state, u.state, u.count) == GapApply then
        r == Received(b, Some(Batch(u.state, [u])))
      else r.todo.None? && r.box.state == b.state && r.box.pending == b.pending + [u] && r.box.gaps != []
  {
    hide TakePending, ConsumedAll;
  }

  /** The outcomes without a flush. */
  lemma SimpleSplits<V(!new)>(ps: seq<Update<V>>, u: Update<V>, state: int)
    ensures Splits(ps + [u], [], ps + [u], [], state)
    ensures ps == [] ==> Splits(ps + [u], [u], [], [], u.state)
    ensures u.Start() < state ==> Splits(ps + [u], [], ps, [u], state)
  {
  }

  /** One call drops nothing but what is outdated. */
  lemma HandleConserves<V(!new)>(b: Box<V>, u: Update<V>) returns (dropped: seq<Update<V>>)
    requires Valid(b.pending) && u.state != 0 && u.count >= 0
    ensures Splits(b.pending + [u], Delivered(b, u), Handle(b, u).pending, dropped, Handle(b, u).state)
    ensures Handle(b, u).state >= b.state && Valid(Handle(b, u).pending)
  {
    hide Receive, TakePending, Flushes, Splits;
    HandleMembers(b, u);
    SimpleSplits(b.pending, u, b.state);
    dropped := [];
    if Flushes(b, u) {
      FlushTakes(b, u);
      dropped := TakeConserves(Box(b.state, [], b.pending + [u]));
    } else {
      WithoutFlush(b, u);
      if CheckGap(b.state, u.state, u.count) == GapIgnore {
        dropped := [u];
      }
    }
  }

  lemma AddUp<T(!new)>(all: multiset<T>, ds: multiset<T>, mid: multiset<T>, dropped: multiset<T>,
                       extra: multiset<T>, d: multiset<T>, rest: multiset<T>, more: multiset<T>)
    requires all == ds + mid + dropped && mid + extra == d + rest + more
    ensures all + extra == (ds + d) + rest + (dropped + more)
  {
    forall x ensures (all + extra)[x] == ((ds + d) + rest + (dropped + more))[x] {
      assert (mid + extra)[x] == (d + rest + more)[x];
    }
  }

  lemma SplitsMore<V(!new)>(ps: seq<Update<V>>, us: seq<Update<V>>, u: Update<V>, ds: seq<Update<V>>, mid: Box<V>,
                            dropped: seq<Update<V>>, d: seq<Update<V>>, rest: seq<Update<V>>,
                            more: seq<Update<V>>, state: int)
    requires Splits(ps + us, ds, mid.pending, dropped, mid.state) && mid.state <= state
    requires Splits(mid.pending + [u], d, rest, more, state)
    ensures Splits(ps + (us + [u]), ds + d, rest, dropped + more, state)
  {
    assert ps + (us + [u]) == (ps + us) + [u];
    assert multiset(mid.pending + [u]) == multiset(mid.pending) + multiset([u]);
    assert multiset((ps + us) + [u]) == multiset(ps + us) + multiset([u]);
    assert multiset(ds + d) == multiset(ds) + multiset(d);
    assert multiset(dropped + more) == multiset(dropped) + multiset(more);
    AddUp(multiset(ps + us), multiset(ds), multiset(mid.pending), multiset(dropped), multiset([u]),
          multiset(d), multiset(rest), multiset(more));
    forall p | p in dropped + more ensures p.Start() < state {
      assert p in dropped || p in more;
    }
  }

  lemma NothingSplits<V(!new)>(ps: seq<Update<V>>, state: int)
    ensures Splits(ps, [], ps, [], state)
  {
  }

  /** Conservation: whatever was pending or has arrived in a run, counted with repetitions, has
      been delivered, is pending, or was dropped because it starts below the state. */
  lemma {:induction false} RunConserves<V(!new)>(b: Box<V>, us: seq<Update<V>>) returns (dropped: seq<Update<V>>)
    requires Valid(b.pending) && Valid(us)
    ensures Splits(b.pending + us, DeliveredAll(b, us), HandleAll(b, us).pending, dropped, HandleAll(b, us).state)
    ensures HandleAll(b, us).state >= b.state && Valid(HandleAll(b, us).pending)
  {
    hide Delivered, Handle, Splits;
    if us == [] {
      assert b.pending + us == b.pending;
      dropped := [];
      NothingSplits(b.pending + us, b.state);
    } else {
      var front, last := us[..|us| - 1], us[|us| - 1];
      assert last in us && us == front + [last];
      var before := RunConserves(b, front);
      var mid := HandleAll(b, front);
      var more := HandleConserves(mid, last);
      SplitsMore(b.pending, front, last, DeliveredAll(b, front), mid, before,
                 Delivered(mid, last), Handle(mid, last).pending, more, Handle(mid, last).state);
      dropped := before + more;
    }
  }

  // ----- what is left waiting -----

  lemma {:induction false} ScanLeavesBeyond<V(!new)>(state: int, ps: seq<Update<V>>)
    requires Valid(ps) && Ordered(ps, StartsBefore)
    ensures forall p :: p in Scan(state, ps).rest ==> p.Start() > Scan(state, ps).state
    decreases ps
  {
    if ps != [] {
      ValidTail(ps);
      match CheckGap(state, ps[0].state, ps[0].count)
      case GapApply => ScanLeavesBeyond(ps[0].state, ps[1..]);
      case GapIgnore => ScanLeavesBeyond(state, ps[1..]);
      case GapRefetch =>
    }
  }

  lemma TakeSettles<V(!new)>(b: Box<V>)
    requires Valid(b.pending)
    ensures Settled(Commit(TakePending(b)))
  {
    SortedPending(b.pending);
    ScanLeavesBeyond(b.state, StableSort(b.pending, StartsBefore));
    TakeIsScan(b, Scan(b.state, StableSort(b.pending, StartsBefore)));
  }

  /** After every call a gap is open or all that is pending lies beyond the state; so with
      `HandleConserves`, what has arrived at the state has been delivered. */
  lemma HandleSettles<V(!new)>(b: Box<V>, u: Update<V>)
    requires Valid(b.pending) && u.state != 0 && u.count >= 0
    requires Settled(b) || u.Start() >= b.state
    ensures Settled(Handle(b, u))
  {
    hide Receive, TakePending, Flushes;
    if Flushes(b, u) {
      FlushTakes(b, u);
      TakeSettles(Box(b.state, [], b.pending + [u]));
    } else {
      WithoutFlush(b, u);
    }
  }
}
