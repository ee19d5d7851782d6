/** What a batch does to the pts counter and to the qts counter: exactly what its counted updates
    do, taken one by one in sorted order.  So the theorems about one sequencer hold inside the
    synchroniser.
 */
module BatchCounters {
  import opened ChainSafety
  import opened EndToEnd
  import opened HonestLog
  import opened LogServer
  import opened PeerEntities
  import opened PtsOrder
  import opened StableSorting
  import opened Synchroniser
  import opened Telegram
  import opened Updates
  import Sequencer

  /** The two counters that single updates move, each with its own sequencer and log. */
  datatype Counter = PtsCounter | QtsCounter

  function BoxOf(counter: Counter, s: Sync): Sequencer.Box<TgUpdate> {
    if counter.PtsCounter? then s.pts else s.qts
  }

  function LogOf(counter: Counter, srv: Logs): seq<Message> {
    if counter.PtsCounter? then srv.common else srv.secret
  }

  function HandledOf(counter: Counter, s: Sync): seq<Message> {
    if counter.PtsCounter? then CommonHandled(s.handled) else SecretHandled(s.handled)
  }

  /** The valid updates of us that move the counter, as its sequencer gets them. */
  function Counted(counter: Counter, us: seq<TgUpdate>, ents: Entities): seq<Update<TgUpdate>> {
    if us == [] then []
    else Counted(counter, us[..|us| - 1], ents) + CountedPart(counter, us[|us| - 1], ents)
  }

  function CountedPart(counter: Counter, u: TgUpdate, ents: Entities): seq<Update<TgUpdate>> {
    if counter.PtsCounter? then
      if u.CommonPts? && u.pts >= 0 && u.ptsCount >= 0 then [Update(u, u.pts, u.ptsCount, ents)] else []
    else
      if u.CommonQts? && u.qts >= 0 then [Update(u, u.qts, 1, ents)] else []
  }

  lemma {:induction false} HandleAllConcat<V(!new)>(b: Sequencer.Box<V>, us: seq<Update<V>>, vs: seq<Update<V>>)
    ensures Sequencer.HandleAll(b, us + vs) == Sequencer.HandleAll(Sequencer.HandleAll(b, us), vs)
  {
    if vs == [] {
      assert us + vs == us;
    } else {
      HandleAllConcat(b, us, vs[..|vs| - 1]);
      assert (us + vs)[..|us + vs| - 1] == us + vs[..|vs| - 1];
    }
  }

  lemma HandleAllOne<V(!new)>(b: Sequencer.Box<V>, u: Update<V>)
    ensures Sequencer.HandleAll(b, [u]) == Sequencer.Handle(b, u)
  {
    assert [u][..0] == [];
  }

  lemma RouteOne(counter: Counter, r: Routing, u: TgUpdate, ents: Entities)
    ensures BoxOf(counter, Route(r, u, ents).sync)
         == Sequencer.HandleAll(BoxOf(counter, r.sync), CountedPart(counter, u, ents))
  {
    if u.CommonPts? {
      HandleAllOne(r.sync.pts, Update(u, u.pts, u.ptsCount, ents));
    } else if u.CommonQts? {
      HandleAllOne(r.sync.qts, Update(u, u.qts, 1, ents));
    }
  }

  lemma {:induction false} RouteProjects(counter: Counter, r: Routing, us: seq<TgUpdate>, ents: Entities)
    ensures BoxOf(counter, RouteAll(r, us, ents).sync)
         == Sequencer.HandleAll(BoxOf(counter, r.sync), Counted(counter, us, ents))
  {
    if us != [] {
      var front, u := us[..|us| - 1], us[|us| - 1];
      RouteProjects(counter, r, front, ents);
      RouteOne(counter, RouteAll(r, front, ents), u, ents);
      HandleAllConcat(BoxOf(counter, r.sync), Counted(counter, front, ents), CountedPart(counter, u, ents));
    }
  }

  /** A container, numbered or not, moves a counter as its sorted counted updates do. */
  lemma CombinedProjects(counter: Counter, s: Sync, c: Combined)
    ensures BoxOf(counter, ApplyCombined(s, c).0)
         == Sequencer.HandleAll(BoxOf(counter, s), Counted(counter, StableSort(c.updates, Less), c.ents))
  {
    RouteProjects(counter, Routing(s, [], false), StableSort(c.updates, Less), c.ents);
  }

  // ----- the order inside a batch does not matter -----

  /** us tiles [s, t) in ascending order, with positive counts. */
  ghost predicate Tiles<V(!new)>(s: int, us: seq<Update<V>>, t: int) {
    Chain(s, us, t) && forall u :: u in us ==> u.count > 0 && u.state > 0
  }

  lemma {:induction false} ChainPrefix<V(!new)>(s: int, us: seq<Update<V>>, t: int)
    requires Chain(s, us, t) && us != []
    ensures Chain(s, us[..|us| - 1], us[|us| - 1].Start()) && us[|us| - 1].End() == t
    decreases us
  {
    if |us| > 1 {
      ChainPrefix(us[0].End(), us[1..], t);
      assert us[..|us| - 1][1..] == us[1..][..|us| - 2];
    }
  }

  /** An idle sequencer applies a tiling directly: no gap opens and nothing is queued, at any
      point of it. */
  lemma {:induction false} TilesDirectly<V(!new)>(s: int, us: seq<Update<V>>, t: int)
    requires Tiles(s, us, t)
    ensures Sequencer.HandleAll(Sequencer.Box(s, [], []), us) == Sequencer.Box(t, [], [])
    ensures Sequencer.DeliveredAll(Sequencer.Box(s, [], []), us) == us
  {
    if us != [] {
      var front, last := us[..|us| - 1], us[|us| - 1];
      ChainPrefix(s, us, t);
      TilesDirectly(s, front, last.Start());
      assert last in us && us == front + [last];
    }
  }

  lemma {:induction false} TilesPrefix<V(!new)>(s: int, us: seq<Update<V>>, t: int, n: nat)
    requires Tiles(s, us, t) && n <= |us|
    ensures exists m :: Tiles(s, us[..n], m)
  {
    if n < |us| {
      ChainPrefix(s, us, t);
      TilesPrefix(s, us[..|us| - 1], us[|us| - 1].Start(), n);
      assert us[..|us| - 1][..n] == us[..n];
    } else {
      assert us[..n] == us;
    }
  }

  /** No update of us meets an open gap or a pending one, and each is applied as it comes. */
  ghost predicate AppliedDirectly<V(!new)>(b: Sequencer.Box<V>, us: seq<Update<V>>) {
    && (forall n: nat :: n <= |us| ==> Idle(Sequencer.HandleAll(b, us[..n])))
    && (forall n: nat :: n < |us| ==> Sequencer.Delivered(Sequencer.HandleAll(b, us[..n]), us[n]) == [us[n]])
  }

  lemma TilesApplyDirectly<V(!new)>(s: int, us: seq<Update<V>>, t: int)
    requires Tiles(s, us, t)
    ensures AppliedDirectly(Sequencer.Box(s, [], []), us)
  {
    var b := Sequencer.Box(s, [], []);
    forall n: nat | n <= |us| ensures Idle(Sequencer.HandleAll(b, us[..n])) {
      TilesPrefix(s, us, t, n);
      var m :| Tiles(s, us[..n], m);
      TilesDirectly(s, us[..n], m);
    }
    forall n: nat | n < |us| ensures Sequencer.Delivered(Sequencer.HandleAll(b, us[..n]), us[n]) == [us[n]] {
      TilesPrefix(s, us, t, n + 1);
      var m :| Tiles(s, us[..n + 1], m);
      ChainPrefix(s, us[..n + 1], m);
      assert us[..n + 1][..n] == us[..n] && us[..n + 1][n] == us[n];
      assert us[n] in us;
      TilesDirectly(s, us[..n], us[n].Start());
    }
  }

  lemma {:induction false} TilesAscend<V(!new)>(s: int, us: seq<Update<V>>, t: int)
    requires Tiles(s, us, t)
    ensures s <= t
    ensures forall u :: u in us ==> s <= u.Start() < t
    ensures StrictlyAscends(us)
  {
    if us != [] {
      var front, last := us[..|us| - 1], us[|us| - 1];
      ChainPrefix(s, us, t);
      TilesAscend(s, front, last.Start());
      assert last in us && us == front + [last];
    }
  }

  ghost predicate Ascends<V(!new)>(us: seq<Update<V>>) {
    forall i, j :: 0 <= i < j < |us| ==> us[i].Start() <= us[j].Start()
  }

  ghost predicate StrictlyAscends<V(!new)>(us: seq<Update<V>>) {
    forall i, j :: 0 <= i < j < |us| ==> us[i].Start() < us[j].Start()
  }

  lemma SameLast<V(!new)>(r: seq<Update<V>>, t: seq<Update<V>>)
    requires multiset(r) == multiset(t) && r != [] && t != [] && Ascends(r) && StrictlyAscends(t)
    ensures r[|r| - 1] == t[|t| - 1]
  {
    var x, y := r[|r| - 1], t[|t| - 1];
    assert x in multiset(t) && y in multiset(r);
    var i :| 0 <= i < |t| && t[i] == x;
    var j :| 0 <= j < |r| && r[j] == y;
  }

  lemma SameSize<T>(r: seq<T>, t: seq<T>)
    requires multiset(r) == multiset(t)
    ensures |r| == |t|
  {
    assert |multiset(r)| == |r| && |multiset(t)| == |t|;
  }

  lemma WithoutLast<T>(s: seq<T>)
    requires s != []
    ensures multiset(s[..|s| - 1]) == multiset(s) - multiset{s[|s| - 1]}
  {
    assert s == s[..|s| - 1] + [s[|s| - 1]];
  }

  /** Two ascending arrangements of the same updates, with different starts, are equal. */
  lemma {:induction false} ArrangementUnique<V(!new)>(r: seq<Update<V>>, t: seq<Update<V>>)
    requires multiset(r) == multiset(t) && Ascends(r) && StrictlyAscends(t)
    ensures r == t
  {
    SameSize(r, t);
    if r != [] {
      SameLast(r, t);
      WithoutLast(r);
      WithoutLast(t);
      var r', t' := r[..|r| - 1], t[..|t| - 1];
      assert Ascends(r') && StrictlyAscends(t');
      ArrangementUnique(r', t');
      assert r == r' + [r[|r| - 1]] && t == t' + [t[|t| - 1]];
    }
  }

  lemma {:induction false} CountedOfInsert(counter: Counter, us: seq<TgUpdate>, u: TgUpdate, ents: Entities)
    ensures multiset(Counted(counter, Insert(us, u, Less), ents))
         == multiset(Counted(counter, us, ents)) + multiset(CountedPart(counter, u, ents))
  {
    if us != [] && Less(u, us[|us| - 1]) {
      CountedOfInsert(counter, us[..|us| - 1], u, ents);
      var inner, last := Insert(us[..|us| - 1], u, Less), us[|us| - 1];
      assert (inner + [last])[..|inner|] == inner;
    } else {
      assert (us + [u])[..|us|] == us;
    }
  }

  lemma {:induction false} CountedOfSorted(counter: Counter, us: seq<TgUpdate>, ents: Entities)
    ensures multiset(Counted(counter, StableSort(us, Less), ents)) == multiset(Counted(counter, us, ents))
  {
    if us != [] {
      CountedOfSorted(counter, us[..|us| - 1], ents);
      CountedOfInsert(counter, StableSort(us[..|us| - 1], Less), us[|us| - 1], ents);
    }
  }

  /** Updates of one counter have one group, and their ranks are ordered as their starts are. */
  ghost predicate RankedByStart(counter: Counter, p: Update<TgUpdate>) {
    RankOf(p.value) == if counter.PtsCounter? then Rank(1, 0, p.Start()) else Rank(2, 0, p.End())
  }

  /** The counted updates of a batch that ascends by rank ascend by start. */
  lemma {:induction false} CountedAscends(counter: Counter, us: seq<TgUpdate>, ents: Entities)
    requires AscendsByRank(us)
    ensures var ps := Counted(counter, us, ents);
      && (forall p :: p in ps ==> p.value in us && RankedByStart(counter, p) && (counter.QtsCounter? ==> p.count == 1))
      && Ascends(ps)
  {
    if us != [] {
      var n := |us| - 1;
      CountedAscends(counter, us[..n], ents);
      var ps, part := Counted(counter, us[..n], ents), CountedPart(counter, us[n], ents);
      if part != [] {
        assert RankedByStart(counter, part[0]);
        forall i | 0 <= i < |ps| ensures ps[i].Start() <= part[0].Start() {
          assert ps[i] in ps;
          var k :| 0 <= k < n && us[k] == ps[i].value;
          assert !RankLess(RankOf(us[n]), RankOf(us[k]));
        }
      }
    }
  }

  lemma {:induction false} CountedPrefix(counter: Counter, us: seq<TgUpdate>, ents: Entities, n: nat) returns (k: nat)
    requires n <= |us|
    ensures k <= |Counted(counter, us, ents)|
    ensures Counted(counter, us[..n], ents) == Counted(counter, us, ents)[..k]
  {
    if n < |us| {
      k := CountedPrefix(counter, us[..|us| - 1], ents, n);
      assert us[..|us| - 1][..n] == us[..n];
    } else {
      k := |Counted(counter, us, ents)|;
      assert us[..n] == us;
    }
  }

  /** The counter is idle before, between and after the turns of the loop over the batch us. */
  ghost predicate IdleThroughout(counter: Counter, s: Sync, us: seq<TgUpdate>, ents: Entities) {
    forall n: nat :: n <= |us| ==> Idle(BoxOf(counter, RouteAll(Routing(s, [], false), us[..n], ents).sync))
  }

  lemma LoopStaysIdle(counter: Counter, s: Sync, us: seq<TgUpdate>, ents: Entities)
    requires AppliedDirectly(BoxOf(counter, s), Counted(counter, us, ents))
    ensures IdleThroughout(counter, s, us, ents)
  {
    forall n: nat | n <= |us| ensures Idle(BoxOf(counter, RouteAll(Routing(s, [], false), us[..n], ents).sync)) {
      RouteProjects(counter, Routing(s, [], false), us[..n], ents);
      var k := CountedPrefix(counter, us, ents, n);
    }
  }

  /** However the counted updates of a batch are shuffled, and whatever else is in it, numbered or
      not: if together they tile the counter from its state up to P, the sorted batch applies
      all of them directly, in order, no gap is open and nothing is pending after any turn of
      the loop, and the counter ends at P. */
  lemma BatchOrderIsIrrelevant(counter: Counter, s: Sync, c: Combined, tile: seq<Update<TgUpdate>>, P: int)
    requires Idle(BoxOf(counter, s)) && Tiles(BoxOf(counter, s).state, tile, P)
    requires multiset(Counted(counter, c.updates, c.ents)) == multiset(tile)
    ensures Counted(counter, StableSort(c.updates, Less), c.ents) == tile
    ensures BoxOf(counter, ApplyCombined(s, c).0) == Sequencer.Box(P, [], [])
    ensures Sequencer.DeliveredAll(BoxOf(counter, s), tile) == tile
    ensures AppliedDirectly(BoxOf(counter, s), tile)
    ensures IdleThroughout(counter, s, StableSort(c.updates, Less), c.ents)
  {
    var sorted, state := StableSort(c.updates, Less), BoxOf(counter, s).state;
    SortIsTheStableArrangement(c.updates, sorted);
    CountedOfSorted(counter, c.updates, c.ents);
    CountedAscends(counter, sorted, c.ents);
    TilesAscend(state, tile, P);
    ArrangementUnique(Counted(counter, sorted, c.ents), tile);
    CombinedProjects(counter, s, c);
    TilesDirectly(state, tile, P);
    TilesApplyDirectly(state, tile, P);
    LoopStaysIdle(counter, s, sorted, c.ents);
  }

  // ----- genuine batches -----

  /** The first n messages of a log as a partition: message i occupies [i, i + 1). */
  function Places(n: nat): (cuts: seq<int>)
    ensures |cuts| == n + 1 && forall i :: 0 <= i < |cuts| ==> cuts[i] == i
  {
    seq(n + 1, i => i)
  }

  /** Where the message that u announces stands in the log of the counter. */
  function PlaceOf(counter: Counter, u: TgUpdate): Option<int> {
    match u
    case CommonPts(pts, _, _) => if counter.PtsCounter? then Some(pts - 1) else None
    case CommonQts(qts, _) => if counter.QtsCounter? then Some(qts - 1) else None
    case _ => None
  }

  ghost predicate Announces(counter: Counter, us: seq<TgUpdate>, i: int) {
    exists u :: u in us && PlaceOf(counter, u) == Some(i)
  }

  lemma {:induction false} CountedGenuine(counter: Counter, us: seq<TgUpdate>, ents: Entities, srv: Logs)
    requires AllGenuine(us, srv)
    ensures AllLogged(Places(|LogOf(counter, srv)|), Counted(counter, us, ents))
    ensures forall i :: Waits(Counted(counter, us, ents), i) <==> Announces(counter, us, i)
  {
    if us != [] {
      var front, u := us[..|us| - 1], us[|us| - 1];
      assert u in us && forall v :: v in us <==> v in front || v == u;
      CountedGenuine(counter, front, ents, srv);
      var part := CountedPart(counter, u, ents);
      var older, all := Counted(counter, front, ents), Counted(counter, us, ents);
      assert forall p :: p in all <==> p in older || p in part;
      if part != [] {
        assert At(Places(|LogOf(counter, srv)|), part[0], part[0].Start());
      }
      forall i ensures Waits(all, i) <==> Announces(counter, us, i) {
        assert Waits(part, i) <==> PlaceOf(counter, u) == Some(i);
        assert Waits(all, i) <==> Waits(older, i) || Waits(part, i);
      }
    }
  }

  lemma SortedGenuine(counter: Counter, c: Combined, srv: Logs)
    requires AllGenuine(c.updates, srv)
    ensures AllLogged(Places(|LogOf(counter, srv)|), Counted(counter, StableSort(c.updates, Less), c.ents))
    ensures forall i :: Waits(Counted(counter, StableSort(c.updates, Less), c.ents), i)
                   <==> Announces(counter, c.updates, i)
  {
    SortMembers(c.updates, Less);
    CountedGenuine(counter, StableSort(c.updates, Less), c.ents, srv);
    assert forall i :: Announces(counter, StableSort(c.updates, Less), i) <==> Announces(counter, c.updates, i);
  }

  // ----- convergence on pushes alone -----

  /** The containers are handled in turn. */
  function PushAll(s: Sync, cs: seq<Combined>): Sync {
    if cs == [] then s else HandleSeq(PushAll(s, cs[..|cs| - 1]), cs[|cs| - 1])
  }

  function CountedInAll(counter: Counter, cs: seq<Combined>): seq<Update<TgUpdate>> {
    if cs == [] then []
    else
      var c := cs[|cs| - 1];
      CountedInAll(counter, cs[..|cs| - 1]) + Counted(counter, StableSort(c.updates, Less), c.ents)
  }

  ghost predicate AllUnnumbered(cs: seq<Combined>) {
    forall c :: c in cs ==> c.seqNo == 0 && c.seqStart >= 0
  }

  ghost predicate AllContainersGenuine(cs: seq<Combined>, srv: Logs) {
    forall c :: c in cs ==> AllGenuine(c.updates, srv)
  }

  lemma {:induction false} PushProjects(counter: Counter, s: Sync, cs: seq<Combined>)
    requires AllUnnumbered(cs)
    ensures BoxOf(counter, PushAll(s, cs)) == Sequencer.HandleAll(BoxOf(counter, s), CountedInAll(counter, cs))
  {
    if cs != [] {
      var front, c := cs[..|cs| - 1], cs[|cs| - 1];
      assert c in cs;
      PushProjects(counter, s, front);
      CombinedProjects(counter, PushAll(s, front), c);
      HandleAllConcat(BoxOf(counter, s), CountedInAll(counter, front),
                      Counted(counter, StableSort(c.updates, Less), c.ents));
    }
  }

  lemma {:induction false} PushFaithful(s: Sync, cs: seq<Combined>, srv: Logs, p0: nat, q0: nat)
    requires Faithful(s, srv, p0, q0) && AllContainersGenuine(cs, srv)
    ensures Faithful(PushAll(s, cs), srv, p0, q0)
  {
    if cs != [] {
      assert cs[|cs| - 1] in cs;
      PushFaithful(s, cs[..|cs| - 1], srv, p0, q0);
      HandleSeqFaithful(PushAll(s, cs[..|cs| - 1]), cs[|cs| - 1], srv, p0, q0);
    }
  }

  /** Message i of the log is announced in one of the containers. */
  ghost predicate AnnouncedIn(counter: Counter, cs: seq<Combined>, i: int) {
    exists c :: c in cs && Announces(counter, c.updates, i)
  }

  lemma {:induction false} AllCountedGenuine(counter: Counter, cs: seq<Combined>, srv: Logs)
    requires AllContainersGenuine(cs, srv)
    ensures AllLogged(Places(|LogOf(counter, srv)|), CountedInAll(counter, cs))
    ensures forall i :: AnnouncedIn(counter, cs, i) ==> Waits(CountedInAll(counter, cs), i)
  {
    if cs != [] {
      var front, c := cs[..|cs| - 1], cs[|cs| - 1];
      assert c in cs && forall d :: d in cs <==> d in front || d == c;
      AllCountedGenuine(counter, front, srv);
      SortedGenuine(counter, c, srv);
      var older, newer := CountedInAll(counter, front), Counted(counter, StableSort(c.updates, Less), c.ents);
      assert forall p :: p in CountedInAll(counter, cs) <==> p in older || p in newer;
      forall i | AnnouncedIn(counter, cs, i) ensures Waits(CountedInAll(counter, cs), i) {
        assert Waits(older, i) || Waits(newer, i);
      }
    }
  }

  /** Where the handled messages of a log start and end. */
  lemma FaithfulOf(counter: Counter, s: Sync, srv: Logs, p0: nat, q0: nat)
    requires Faithful(s, srv, p0, q0)
    ensures var start := if counter.PtsCounter? then p0 else q0;
      && start <= BoxOf(counter, s).state <= |LogOf(counter, srv)|
      && HandledOf(counter, s) == LogOf(counter, srv)[start..BoxOf(counter, s).state]
  {
  }

  /** One sequencer alone. */
  lemma CounterConverges(b: Sequencer.Box<TgUpdate>, us: seq<Update<TgUpdate>>, n: nat)
    requires 0 <= b.state <= n && InvAt(Places(n), b, b.state)
    requires AllLogged(Places(n), us)
    requires forall i :: b.state <= i < n ==> Waits(us, i)
    ensures AtEnd(Places(n), Sequencer.HandleAll(b, us))
    ensures Settled(b) ==> Sequencer.HandleAll(b, us).pending == []
  {
    hide Sequencer.HandleAll, Sequencer.DeliveredAll;
    var cuts := Places(n);
    forall i | b.state <= i < |cuts| - 1 ensures Waits(us, cuts[i]) {
      assert cuts[i] == i;
    }
    Convergence(cuts, b, b.state, us);
  }

  /** Without any resynchronisation, from any state of an honest run, with open gaps and stale
      pending updates or without: once every message of a log from the counter on has been
      announced in some unnumbered container (in any order, with any repetitions, each container
      shuffled as it may be), the handler has the whole log and the counter is idle at its end. */
  lemma PushesConverge(counter: Counter, s: Sync, cs: seq<Combined>, srv: Logs, p0: nat, q0: nat)
    requires Faithful(s, srv, p0, q0)
    requires InvAt(Places(|LogOf(counter, srv)|), BoxOf(counter, s), BoxOf(counter, s).state)
    requires AllUnnumbered(cs) && AllContainersGenuine(cs, srv)
    requires forall i :: BoxOf(counter, s).state <= i < |LogOf(counter, srv)| ==> AnnouncedIn(counter, cs, i)
    ensures HandledOf(counter, PushAll(s, cs)) == LogOf(counter, srv)[if counter.PtsCounter? then p0 else q0..]
    ensures AtEnd(Places(|LogOf(counter, srv)|), BoxOf(counter, PushAll(s, cs)))
    ensures Settled(BoxOf(counter, s)) ==> BoxOf(counter, PushAll(s, cs)).pending == []
  {
    hide Sequencer.HandleAll, CountedInAll, PushAll, CommonHandled, SecretHandled;
    PushProjects(counter, s, cs);
    AllCountedGenuine(counter, cs, srv);
    CounterConverges(BoxOf(counter, s), CountedInAll(counter, cs), |LogOf(counter, srv)|);
    PushFaithful(s, cs, srv, p0, q0);
    FaithfulOf(counter, PushAll(s, cs), srv, p0, q0);
    var log, start := LogOf(counter, srv), if counter.PtsCounter? then p0 else q0;
    assert log[start..|log|] == log[start..];
  }
}
