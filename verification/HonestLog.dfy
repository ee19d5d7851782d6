/** What the sequencer guarantees about an honest sender: the ranges of all it sends belong to
    one partition of the counter, but it may send them in any order, any number of times, and
    mixed with outdated updates.  Nothing is assumed about the payloads: two updates of the same
    range may differ in them.

    The proof rests on one invariant, `InvAt`: the state is a cut of the log, and while a gap is
    open the gap list covers exactly the points between the state and the start of some pending
    update that no pending update covers.
 */
module HonestLog {
  import opened ChainSafety
  import opened GapBuffers
  import opened Sequencer
  import opened StableSorting
  import opened Updates

  /** A partition of [cuts[0], cuts[n]) into n ranges of positive length. */
  ghost predicate IsLog(cuts: seq<int>) {
    |cuts| > 0 && cuts[0] >= 0 && forall i, j :: 0 <= i < j < |cuts| ==> cuts[i] < cuts[j]
  }

  /** u has the i-th range of the log. */
  predicate At<V>(cuts: seq<int>, u: Update<V>, i: nat) {
    i + 1 < |cuts| && u.Start() == cuts[i] && u.End() == cuts[i + 1]
  }

  ghost predicate Logged<V(!new)>(cuts: seq<int>, u: Update<V>) {
    exists i: nat :: At(cuts, u, i)
  }

  ghost predicate AllLogged<V(!new)>(cuts: seq<int>, us: seq<Update<V>>) {
    forall u :: u in us ==> Logged(cuts, u)
  }

  /** us is the stretch of the log from cut k to cut k', each range once and in order. */
  ghost predicate Stretch<V(!new)>(cuts: seq<int>, us: seq<Update<V>>, k: nat, k': nat) {
    k <= k' < |cuts| && |us| == k' - k && forall i :: 0 <= i < |us| ==> At(cuts, us[i], k + i)
  }

  /** What may be sent: an update of the log, or one that was outdated from the beginning. */
  ghost predicate Sendable<V(!new)>(cuts: seq<int>, u: Update<V>) {
    IsLog(cuts) && (Logged(cuts, u) || (u.state != 0 && u.Start() < cuts[0]))
  }

  ghost predicate AllSendable<V(!new)>(cuts: seq<int>, us: seq<Update<V>>) {
    forall u :: u in us ==> Sendable(cuts, u)
  }

  /** Comparing the ends of a logged update with a cut is comparing positions. */
  lemma Position<V(!new)>(cuts: seq<int>, u: Update<V>, k: nat) returns (j: nat)
    requires IsLog(cuts) && Logged(cuts, u) && k < |cuts|
    ensures At(cuts, u, j) && u.state > 0 && u.count > 0
    ensures u.Start() == cuts[k] <==> j == k
    ensures u.Start() < cuts[k] <==> j < k
    ensures u.End() <= cuts[k] <==> j < k
  {
    j :| At(cuts, u, j);
  }

  // ----- flushing -----

  /** What the scan is to leave of ps when it stops at s. */
  ghost predicate Leaves<V(!new)>(ps: seq<Update<V>>, rest: seq<Update<V>>, s: int) {
    && (forall u :: u in rest <==> u in ps && u.Start() > s)
    && (forall u :: u in ps ==> u.Start() != s)
  }

  lemma LeavesCons<V(!new)>(ps: seq<Update<V>>, rest: seq<Update<V>>, s: int)
    requires ps != [] && Leaves(ps[1..], rest, s) && ps[0].Start() < s
    ensures Leaves(ps, rest, s)
  {
    assert forall u :: u in ps <==> u == ps[0] || u in ps[1..];
  }

  lemma LeavesAll<V(!new)>(ps: seq<Update<V>>, s: int)
    requires ps != [] && Ordered(ps, StartsBefore) && ps[0].Start() > s
    ensures Leaves(ps, ps, s)
  {
    forall u | u in ps ensures u.Start() > s {
      var i :| 0 <= i < |ps| && ps[i] == u;
      assert i == 0 || !StartsBefore(ps[i], ps[0]);
    }
  }

  /** r is the outcome of scanning ps from cut k: it stops at cut k'. */
  ghost predicate StopsAt<V(!new)>(cuts: seq<int>, k: nat, ps: seq<Update<V>>, r: Scanned<V>, k': nat) {
    Stretch(cuts, r.accepted, k, k') && r.state == cuts[k'] && Leaves(ps, r.rest, r.state)
  }

  lemma StopsAtCons<V(!new)>(cuts: seq<int>, k: nat, ps: seq<Update<V>>, r: Scanned<V>, k': nat)
    requires IsLog(cuts) && ps != [] && At(cuts, ps[0], k) && StopsAt(cuts, k + 1, ps[1..], r, k')
    ensures StopsAt(cuts, k, ps, Scanned(r.state, [ps[0]] + r.accepted, r.rest), k')
  {
    LeavesCons(ps, r.rest, r.state);
  }

  lemma ScanIgnores<V(!new)>(state: int, ps: seq<Update<V>>)
    requires ps != [] && ps[0].state != 0 && ps[0].Start() < state
    ensures Scan(state, ps) == Scan(state, ps[1..])
  {
  }

  lemma ScanApplies<V(!new)>(state: int, ps: seq<Update<V>>)
    requires ps != [] && ps[0].state != 0 && ps[0].Start() == state
    ensures var r := Scan(ps[0].state, ps[1..]);
      Scan(state, ps) == Scanned(r.state, [ps[0]] + r.accepted, r.rest)
  {
  }

  /** From cut k the scan delivers the log up to the first range that is not pending, and keeps
      exactly what lies beyond. */
  lemma {:induction false} ScanHonest<V(!new)>(cuts: seq<int>, k: nat, ps: seq<Update<V>>) returns (k': nat)
    requires IsLog(cuts) && k < |cuts| && AllLogged(cuts, ps) && Ordered(ps, StartsBefore)
    ensures StopsAt(cuts, k, ps, Scan(cuts[k], ps), k')
    decreases ps
  {
    if ps == [] {
      k' := k;
    } else {
      assert ps[0] in ps;
      var j := Position(cuts, ps[0], k);
      assert Ordered(ps[1..], StartsBefore) && AllLogged(cuts, ps[1..]);
      if j > k {
        LeavesAll(ps, cuts[k]);
        k' := k;
      } else if j == k {
        k' := ScanHonest(cuts, k + 1, ps[1..]);
        ScanApplies(cuts[k], ps);
        StopsAtCons(cuts, k, ps, Scan(cuts[k + 1], ps[1..]), k');
      } else {
        k' := ScanHonest(cuts, k, ps[1..]);
        ScanIgnores(cuts[k], ps);
        LeavesCons(ps, Scan(cuts[k], ps[1..]).rest, cuts[k']);
      }
    }
  }

  /** r, the outcome of a flush of the queue, takes cut k to cut k'. */
  ghost predicate FlushesTo<V(!new)>(cuts: seq<int>, queue: seq<Update<V>>, k: nat, r: Received<V>, k': nat) {
    && Stretch(cuts, Applied(r), k, k')
    && (forall u :: u in Applied(r) ==> u in queue)
    && Commit(r).state == cuts[k']
    && Leaves(queue, Commit(r).pending, cuts[k'])
  }

  lemma TakeHonest<V(!new)>(cuts: seq<int>, k: nat, b: Box<V>) returns (k': nat)
    requires IsLog(cuts) && k < |cuts| && b.state == cuts[k] && AllLogged(cuts, b.pending)
    ensures FlushesTo(cuts, b.pending, k, TakePending(b), k') && Commit(TakePending(b)).gaps == b.gaps
  {
    StartsBeforeIsWeakOrder<V>();
    SortsStably(b.pending, StartsBefore);
    SortMembers(b.pending, StartsBefore);
    TakeMembers(b);
    k' := ScanHonest(cuts, k, StableSort(b.pending, StartsBefore));
  }

  // ----- coverage -----

  /** Some update of ps covers the point x. */
  ghost predicate Pended<V(!new)>(ps: seq<Update<V>>, x: int) {
    exists p :: p in ps && Inside(p, x)
  }

  /** The gaps are non-empty, disjoint, and cut the log only at its cuts. */
  ghost predicate Aligned(cuts: seq<int>, gaps: seq<Gap>) {
    && Separate(gaps)
    && forall g :: g in gaps ==> g.from in cuts && g.to in cuts
  }

  /** A gap that is cut at cuts contains a logged update as soon as it touches it. */
  lemma TouchMeansFit<V(!new)>(cuts: seq<int>, g: Gap, u: Update<V>, x: int)
    requires IsLog(cuts) && Logged(cuts, u) && g.from in cuts && g.to in cuts
    requires g.from <= x < g.to && Inside(u, x)
    ensures g.Fits(u)
  {
    var a :| 0 <= a < |cuts| && cuts[a] == g.from;
    var c :| 0 <= c < |cuts| && cuts[c] == g.to;
    var _ := Position(cuts, u, a);
    var _ := Position(cuts, u, c);
  }

  lemma ConsumeAligned<V(!new)>(cuts: seq<int>, gaps: seq<Gap>, u: Update<V>)
    requires IsLog(cuts) && Aligned(cuts, gaps) && Logged(cuts, u)
    ensures Aligned(cuts, Consumed(gaps, u))
  {
    var _ := Position(cuts, u, 0);
    ConsumeSeparate(gaps, u);
    if Accepts(gaps, u) {
      ConsumedMembers(gaps, u);
    }
  }

  /** Offering a logged update to aligned gaps uncovers exactly its points, accepted or not. */
  lemma ConsumeHonest<V(!new)>(cuts: seq<int>, gaps: seq<Gap>, u: Update<V>, x: int)
    requires IsLog(cuts) && Aligned(cuts, gaps) && Logged(cuts, u)
    ensures Covered(Consumed(gaps, u), x) <==> Covered(gaps, x) && !Inside(u, x)
  {
    var _ := Position(cuts, u, 0);
    if Accepts(gaps, u) {
      ConsumeUncovers(gaps, u, x);
    } else if Covered(gaps, x) && Inside(u, x) {
      var i :| 0 <= i < |gaps| && gaps[i].from <= x < gaps[i].to;
      TouchMeansFit(cuts, gaps[i], u, x);
    }
  }

  lemma {:induction false} ConsumeAllHonest<V(!new)>(cuts: seq<int>, gaps: seq<Gap>, us: seq<Update<V>>)
    requires IsLog(cuts) && Aligned(cuts, gaps) && AllLogged(cuts, us)
    ensures Aligned(cuts, ConsumedAll(gaps, us))
    ensures forall x :: Covered(ConsumedAll(gaps, us), x) <==> Covered(gaps, x) && !Pended(us, x)
  {
    if us == [] {
    } else {
      var front, last := us[..|us| - 1], us[|us| - 1];
      assert last in us && forall p :: p in us <==> p in front || p == last;
      ConsumeAllHonest(cuts, gaps, front);
      ConsumeAligned(cuts, ConsumedAll(gaps, front), last);
      forall x ensures Covered(ConsumedAll(gaps, us), x) <==> Covered(gaps, x) && !Pended(us, x) {
        ConsumeHonest(cuts, ConsumedAll(gaps, front), last, x);
        assert Pended(us, x) <==> Pended(front, x) || Inside(last, x);
      }
    }
  }

  // ----- the invariant -----

  /** The gap list covers exactly what is missing between cuts k and m, and an update that
      starts at cut m, which opened the gap, is pending. */
  ghost predicate Missing<V(!new)>(cuts: seq<int>, b: Box<V>, k: nat, m: nat) {
    && k < m < |cuts|
    && Waits(b.pending, cuts[m])
    && Aligned(cuts, b.gaps)
    && forall x :: Covered(b.gaps, x) <==> cuts[k] <= x < cuts[m] && !Pended(b.pending, x)
  }

  ghost predicate InvAt<V(!new)>(cuts: seq<int>, b: Box<V>, k: nat) {
    && k < |cuts|
    && b.state == cuts[k]
    && AllLogged(cuts, b.pending)
    && (b.gaps != [] ==> exists m :: Missing(cuts, b, k, m))
  }

  /** Nothing that could be applied is waiting, but updates that are outdated may be left. */
  ghost predicate Quiet<V(!new)>(b: Box<V>) {
    b.gaps != [] || !Waits(b.pending, b.state)
  }

  /** Nothing outdated is waiting. */
  ghost predicate Ahead<V(!new)>(b: Box<V>) {
    forall p :: p in b.pending ==> p.Start() >= b.state
  }

  /** The range that starts at x has been delivered or skipped over, or is still pending. */
  ghost predicate Kept<V(!new)>(b: Box<V>, x: int) {
    x < b.state || Waits(b.pending, x)
  }

  lemma PendedMeansWaits<V(!new)>(cuts: seq<int>, ps: seq<Update<V>>, i: nat)
    requires IsLog(cuts) && AllLogged(cuts, ps) && i < |cuts|
    ensures Pended(ps, cuts[i]) <==> Waits(ps, cuts[i])
  {
    if p :| p in ps && Inside(p, cuts[i]) {
      var _ := Position(cuts, p, i);
    }
    if p :| p in ps && p.Start() == cuts[i] {
      var _ := Position(cuts, p, i);
    }
  }

  /** An open gap means that some range before the update that opened it has not arrived. */
  lemma OpenGapMisses<V(!new)>(cuts: seq<int>, b: Box<V>, k: nat, m: nat) returns (i: nat)
    requires IsLog(cuts) && InvAt(cuts, b, k) && Missing(cuts, b, k, m) && b.gaps != []
    ensures k <= i < m && !Kept(b, cuts[i]) && Covered(b.gaps, cuts[i])
  {
    var g := b.gaps[0];
    assert g in b.gaps && Covered(b.gaps, g.from);
    i :| 0 <= i < |cuts| && cuts[i] == g.from;
    PendedMeansWaits(cuts, b.pending, i);
  }

  lemma NothingMissing<V(!new)>(cuts: seq<int>, b: Box<V>, k: nat, m: nat)
    requires IsLog(cuts) && AllLogged(cuts, b.pending) && b.gaps == [] && Missing(cuts, b, k, m)
    ensures forall i :: k <= i <= m ==> Waits(b.pending, cuts[i])
  {
    forall i | k <= i < m ensures Waits(b.pending, cuts[i]) {
      assert !Covered(b.gaps, cuts[i]);
      PendedMeansWaits(cuts, b.pending, i);
    }
  }

  /** With no gap left, a flush runs past the update that opened the gap. */
  lemma FlushPasses<V(!new)>(cuts: seq<int>, b: Box<V>, k: nat, m: nat) returns (k': nat)
    requires IsLog(cuts) && k < |cuts| && b.state == cuts[k] && AllLogged(cuts, b.pending)
    requires b.gaps == [] && Missing(cuts, b, k, m)
    ensures m < k' && FlushesTo(cuts, b.pending, k, TakePending(b), k') && Commit(TakePending(b)).gaps == []
  {
    NothingMissing(cuts, b, k, m);
    k' := TakeHonest(cuts, k, b);
  }

  // ----- one call -----

  /** r, the outcome of handling u in state b, takes cut k to cut k'. */
  ghost predicate StepsTo<V(!new)>(cuts: seq<int>, b: Box<V>, k: nat, u: Update<V>, r: Received<V>, k': nat) {
    && InvAt(cuts, Commit(r), k')
    && Stretch(cuts, Applied(r), k, k')
    && (forall x :: x in cuts ==> (Kept(Commit(r), x) <==> Kept(b, x) || x == u.Start()))
    && (Settled(b) || u.Start() >= b.state ==> Settled(Commit(r)))
    && (Quiet(b) ==> Quiet(Commit(r)))
    && (Ahead(b) ==> Ahead(Commit(r)))
  }

  lemma FlushKeeps<V(!new)>(cuts: seq<int>, b: Box<V>, k: nat, u: Update<V>, r: Received<V>, k': nat, x: int)
    requires IsLog(cuts) && InvAt(cuts, b, k) && x in cuts
    requires FlushesTo(cuts, b.pending + [u], k, r, k')
    ensures Kept(Commit(r), x) <==> Kept(b, x) || x == u.Start()
  {
    var queue := b.pending + [u];
    assert u in queue && forall e :: e in queue <==> e in b.pending || e == u;
    if p :| p in queue && p.Start() == x {
      assert p.Start() > cuts[k'] ==> p in Commit(r).pending;
    }
    var i :| 0 <= i < |cuts| && cuts[i] == x;
    if k <= i < k' {
      assert At(cuts, Applied(r)[i - k], k + (i - k));
    }
  }

  /** u is queued and the queue is flushed. */
  lemma FlushSteps<V(!new)>(cuts: seq<int>, b: Box<V>, k: nat, u: Update<V>, r: Received<V>, k': nat)
    requires IsLog(cuts) && InvAt(cuts, b, k) && Logged(cuts, u)
    requires FlushesTo(cuts, b.pending + [u], k, r, k') && Commit(r).gaps == []
    ensures StepsTo(cuts, b, k, u, r, k')
  {
    var queue := b.pending + [u];
    assert u in queue && forall e :: e in queue <==> e in b.pending || e == u;
    forall x | x in cuts ensures Kept(Commit(r), x) <==> Kept(b, x) || x == u.Start() {
      FlushKeeps(cuts, b, k, u, r, k', x);
    }
  }

  /** u is queued and a gap stays open. */
  lemma PostponeSteps<V(!new)>(cuts: seq<int>, b: Box<V>, k: nat, m: nat, u: Update<V>, r: Received<V>)
    requires IsLog(cuts) && InvAt(cuts, b, k) && Logged(cuts, u) && u.Start() >= b.state
    requires r.todo.None? && r.box.state == b.state && r.box.pending == b.pending + [u] && r.box.gaps != []
    requires Missing(cuts, r.box, k, m)
    ensures StepsTo(cuts, b, k, u, r, k)
  {
    assert u in r.box.pending && forall e :: e in r.box.pending <==> e in b.pending || e == u;
  }

  /** Queueing an update and offering it to the gaps keeps the gap list exact. */
  lemma MissingKept<V(!new)>(cuts: seq<int>, b: Box<V>, k: nat, m: nat, u: Update<V>, q: Box<V>)
    requires IsLog(cuts) && Missing(cuts, b, k, m) && Logged(cuts, u)
    requires q.pending == b.pending + [u] && q.gaps == Consumed(b.gaps, u)
    ensures Missing(cuts, q, k, m)
  {
    ConsumeAligned(cuts, b.gaps, u);
    assert forall p :: p in q.pending <==> p in b.pending || p == u;
    forall x ensures Covered(q.gaps, x) <==> cuts[k] <= x < cuts[m] && !Pended(q.pending, x) {
      ConsumeHonest(cuts, b.gaps, u, x);
      assert Pended(q.pending, x) <==> Pended(b.pending, x) || Inside(u, x);
    }
  }

  /** Opening a gap and offering it the whole queue makes the gap list exact. */
  lemma MissingMade<V(!new)>(cuts: seq<int>, k: nat, m: nat, u: Update<V>, q: Box<V>)
    requires IsLog(cuts) && k < m && At(cuts, u, m) && u in q.pending && AllLogged(cuts, q.pending)
    requires q.gaps == ConsumedAll([Gap(cuts[k], cuts[m])], q.pending)
    ensures Missing(cuts, q, k, m)
  {
    var gap := Gap(cuts[k], cuts[m]);
    assert Aligned(cuts, [gap]);
    ConsumeAllHonest(cuts, [gap], q.pending);
    assert gap in [gap];
  }

  /** The state is still at cut k, behind a gap that the update at cut m opened; or it is at cut
      k', past m. */
  ghost predicate Follows<V(!new)>(cuts: seq<int>, b: Box<V>, k: nat, m: nat, k': nat) {
    if k' == k then b.gaps != [] && Missing(cuts, b, k, m) else m < k'
  }

  lemma ReceiveWhileOpen<V>(b: Box<V>, u: Update<V>, q: Box<V>)
    requires b.gaps != [] && CheckGap(b.state, u.state, u.count) != GapIgnore
    requires q == b.(pending := b.pending + [u], gaps := Consumed(b.gaps, u))
    ensures Receive(b, u) == if q.gaps == [] then TakePending(q) else Received(q, None)
  {
  }

  lemma ReceiveBeyond<V>(b: Box<V>, u: Update<V>, q: Box<V>)
    requires b.gaps == [] && CheckGap(b.state, u.state, u.count) == GapRefetch
    requires q == b.(pending := b.pending + [u], gaps := ConsumedAll([Gap(b.state, u.Start())], b.pending + [u]))
    ensures Receive(b, u) == if q.gaps == [] then TakePending(q) else Received(q, None)
  {
  }

  /** A call while a gap is open that the update at cut m opened.  Either a gap stays open, and
      it is still m that it waits for; or the last gap closes and the state is carried past cut
      m, so to the end of the update that opened it at least. */
  lemma StepGapOpen<V(!new)>(cuts: seq<int>, b: Box<V>, k: nat, m: nat, u: Update<V>) returns (k': nat)
    requires IsLog(cuts) && InvAt(cuts, b, k) && Missing(cuts, b, k, m) && b.gaps != []
    requires Logged(cuts, u) && u.Start() >= b.state
    ensures StepsTo(cuts, b, k, u, Receive(b, u), k')
    ensures Follows(cuts, Commit(Receive(b, u)), k, m, k')
  {
    hide Receive, TakePending, Consumed;
    var _ := Position(cuts, u, k);
    var q := b.(pending := b.pending + [u], gaps := Consumed(b.gaps, u));
    ReceiveWhileOpen(b, u, q);
    MissingKept(cuts, b, k, m, u, q);
    if q.gaps == [] {
      k' := FlushPasses(cuts, q, k, m);
      FlushSteps(cuts, b, k, u, TakePending(q), k');
    } else {
      k' := k;
      PostponeSteps(cuts, b, k, m, u, Received(q, None));
    }
  }

  lemma StepDirect<V(!new)>(cuts: seq<int>, b: Box<V>, k: nat, u: Update<V>) returns (k': nat)
    requires IsLog(cuts) && InvAt(cuts, b, k) && b.gaps == []
    requires Logged(cuts, u) && u.Start() == b.state
    ensures StepsTo(cuts, b, k, u, Receive(b, u), k')
  {
    var _ := Position(cuts, u, k);
    if b.pending == [] {
      k' := k + 1;
      assert forall x :: x in cuts && Kept(b, x) ==> x < b.state;
    } else {
      var q := b.(pending := b.pending + [u]);
      k' := TakeHonest(cuts, k, q);
      FlushSteps(cuts, b, k, u, TakePending(q), k');
    }
  }

  /** The update at cut m leaves a hole before it: either that opens a gap, which waits for m, or
      the pending updates fill the hole and the state is carried past cut m. */
  lemma StepGapDetected<V(!new)>(cuts: seq<int>, b: Box<V>, k: nat, u: Update<V>, m: nat) returns (k': nat)
    requires IsLog(cuts) && InvAt(cuts, b, k) && b.gaps == []
    requires At(cuts, u, m) && k < m
    ensures StepsTo(cuts, b, k, u, Receive(b, u), k')
    ensures Follows(cuts, Commit(Receive(b, u)), k, m, k')
  {
    hide Receive, TakePending, ConsumedAll;
    assert Logged(cuts, u);
    var q := b.(pending := b.pending + [u], gaps := ConsumedAll([Gap(b.state, u.Start())], b.pending + [u]));
    ReceiveBeyond(b, u, q);
    MissingMade(cuts, k, m, u, q);
    if q.gaps == [] {
      k' := FlushPasses(cuts, q, k, m);
      FlushSteps(cuts, b, k, u, TakePending(q), k');
    } else {
      k' := k;
      PostponeSteps(cuts, b, k, m, u, Received(q, None));
    }
  }

  lemma OutdatedIsIgnored<V>(b: Box<V>, u: Update<V>)
    requires u.state != 0 && u.Start() < b.state
    ensures Receive(b, u) == Received(b, None)
  {
  }

  /** One call keeps the invariant, delivers the next stretch of the log, loses nothing it has
      been given, and leaves nothing waiting that could be applied. */
  lemma StepHonest<V(!new)>(cuts: seq<int>, b: Box<V>, k: nat, u: Update<V>) returns (k': nat)
    requires IsLog(cuts) && InvAt(cuts, b, k) && Sendable(cuts, u)
    ensures StepsTo(cuts, b, k, u, Receive(b, u), k')
  {
    hide Receive;
    var n := k;
    if Logged(cuts, u) {
      n := Position(cuts, u, k);
    }
    if u.Start() < b.state {
      OutdatedIsIgnored(b, u);
      k' := k;
    } else if b.gaps != [] {
      var m :| Missing(cuts, b, k, m);
      k' := StepGapOpen(cuts, b, k, m, u);
    } else if u.Start() == b.state {
      k' := StepDirect(cuts, b, k, u);
    } else {
      k' := StepGapDetected(cuts, b, k, u, n);
    }
  }

  // ----- if the callback fails -----

  /** The calls in which `apply` is called: the queue is flushed, or u alone is applied. */
  predicate CallsBack<V>(b: Box<V>, u: Update<V>) {
    Flushes(b, u) || (b.gaps == [] && b.pending == [] && CheckGap(b.state, u.state, u.count) == GapApply)
  }

  /** In an honest run the queue is never flushed in vain. */
  lemma CallsBackExactlyWhen<V(!new)>(cuts: seq<int>, b: Box<V>, k: nat, u: Update<V>)
    requires IsLog(cuts) && InvAt(cuts, b, k) && Sendable(cuts, u)
    ensures Receive(b, u).todo.Some? <==> CallsBack(b, u)
  {
    if Flushes(b, u) {
      if Logged(cuts, u) {
        var _ := Position(cuts, u, k);
      }
      if b.gaps != [] {
        var m :| Missing(cuts, b, k, m);
        InvAnchors(cuts, b, k, m);
      }
      FlushNeverEmpty(b, u);
    }
  }

  lemma InvAnchors<V(!new)>(cuts: seq<int>, b: Box<V>, k: nat, m: nat)
    requires IsLog(cuts) && InvAt(cuts, b, k) && Missing(cuts, b, k, m) && b.gaps != []
    ensures Anchored(b)
  {
    if Covered(b.gaps, cuts[k]) {
      var i :| 0 <= i < |b.gaps| && b.gaps[i].from <= cuts[k] < b.gaps[i].to;
      assert b.gaps[i] in b.gaps && Covered(b.gaps, b.gaps[i].from);
    } else {
      PendedMeansWaits(cuts, b.pending, k);
    }
  }

  lemma FlushedNotEmpty<V>(b: Box<V>, u: Update<V>)
    ensures Receive(b, u).todo.Some? ==> Delivered(b, u) != []
  {
  }

  /** If `apply` reports failure the call is left with the box of `Receive`.  Something received
      is then neither delivered nor pending any more exactly when the call reaches `apply`, which
      can be told beforehand from the box and the update: at least the range at the state. */
  lemma FailedApplyLosesExactlyWhen<V(!new)>(cuts: seq<int>, b: Box<V>, k: nat, u: Update<V>)
    requires IsLog(cuts) && InvAt(cuts, b, k) && Sendable(cuts, u)
    ensures var r := Receive(b, u);
      CallsBack(b, u) <==> exists x :: x in cuts && (Kept(b, x) || x == u.Start()) && !Kept(r.box, x)
  {
    var r := Receive(b, u);
    var k' := StepHonest(cuts, b, k, u);
    ReceiveKeepsState(b, u);
    FlushedNotEmpty(b, u);
    CallsBackExactlyWhen(cuts, b, k, u);
    if r.todo.Some? {
      HandleMembers(b, u);
      LostAtState(cuts, b, k, u, r, k');
    }
  }

  lemma LostAtState<V(!new)>(cuts: seq<int>, b: Box<V>, k: nat, u: Update<V>, r: Received<V>, k': nat)
    requires IsLog(cuts) && InvAt(cuts, b, k) && StepsTo(cuts, b, k, u, r, k')
    requires r.todo.Some? && r.todo.value.updates != [] && r.box.state == b.state
    requires r.todo.value.updates[0] in b.pending || r.todo.value.updates[0] == u
    requires Commit(r).gaps == [] && (Settled(b) || u.Start() >= b.state)
    ensures cuts[k] in cuts && (Kept(b, cuts[k]) || cuts[k] == u.Start()) && !Kept(r.box, cuts[k])
  {
    assert At(cuts, Applied(r)[0], k + 0);
  }

  /** What a failing callback leaves still satisfies the invariant at the same cut, so by
      `Convergence` all is delivered in the end if the ranges from there on are sent again. */
  lemma FailedApplyKeepsInvariant<V(!new)>(cuts: seq<int>, b: Box<V>, k: nat, u: Update<V>)
    requires IsLog(cuts) && InvAt(cuts, b, k) && Sendable(cuts, u)
    ensures InvAt(cuts, Receive(b, u).box, k)
  {
    var r := Receive(b, u);
    var k' := StepHonest(cuts, b, k, u);
    ReceiveKeepsState(b, u);
    HandleMembers(b, u);
  }

  // ----- whole runs -----

  /** The run us from b, which delivers ds and ends in b', takes cut k to cut k'. */
  ghost predicate RunsTo<V(!new)>(cuts: seq<int>, b: Box<V>, k: nat, us: seq<Update<V>>,
                                  ds: seq<Update<V>>, b': Box<V>, k': nat) {
    && InvAt(cuts, b', k')
    && Stretch(cuts, ds, k, k')
    && KeepsAll(cuts, b, us, b')
    && (Quiet(b) ==> Quiet(b'))
    && (Settled(b) || (exists u :: u in us && u.Start() >= b'.state) ==> Settled(b'))
    && (Ahead(b) ==> Ahead(b'))
  }

  /** Exactly what b has kept or us contains is kept in b'. */
  ghost predicate KeepsAll<V(!new)>(cuts: seq<int>, b: Box<V>, us: seq<Update<V>>, b': Box<V>) {
    forall x :: x in cuts ==> (Kept(b', x) <==> Kept(b, x) || Waits(us, x))
  }

  lemma KeepsMore<V(!new)>(cuts: seq<int>, b: Box<V>, us: seq<Update<V>>, u: Update<V>, mid: Box<V>, b': Box<V>)
    requires KeepsAll(cuts, b, us, mid)
    requires forall x :: x in cuts ==> (Kept(b', x) <==> Kept(mid, x) || x == u.Start())
    ensures KeepsAll(cuts, b, us + [u], b')
  {
    forall x | x in cuts ensures Waits(us + [u], x) <==> Waits(us, x) || u.Start() == x {
      assert u in us + [u] && forall p :: p in us + [u] <==> p in us || p == u;
    }
  }

  lemma RunExtends<V(!new)>(cuts: seq<int>, b: Box<V>, k: nat, us: seq<Update<V>>, u: Update<V>,
                            ds: seq<Update<V>>, mid: Box<V>, j: nat, r: Received<V>, k': nat)
    requires IsLog(cuts) && RunsTo(cuts, b, k, us, ds, mid, j) && StepsTo(cuts, mid, j, u, r, k')
    ensures RunsTo(cuts, b, k, us + [u], ds + Applied(r), Commit(r), k')
  {
    KeepsMore(cuts, b, us, u, mid, Commit(r));
    assert forall p :: p in us + [u] <==> p in us || p == u;
  }

  lemma RunStep<V(!new)>(cuts: seq<int>, b: Box<V>, k: nat, us: seq<Update<V>>, u: Update<V>,
                         ds: seq<Update<V>>, mid: Box<V>, j: nat) returns (k': nat)
    requires IsLog(cuts) && RunsTo(cuts, b, k, us, ds, mid, j) && Sendable(cuts, u)
    ensures RunsTo(cuts, b, k, us + [u], ds + Delivered(mid, u), Handle(mid, u), k')
  {
    k' := StepHonest(cuts, mid, j, u);
    RunExtends(cuts, b, k, us, u, ds, mid, j, Receive(mid, u), k');
  }

  lemma {:induction false} RunHonest<V(!new)>(cuts: seq<int>, b: Box<V>, k: nat, us: seq<Update<V>>)
    returns (k': nat)
    requires IsLog(cuts) && InvAt(cuts, b, k)
    requires AllSendable(cuts, us)
    ensures RunsTo(cuts, b, k, us, DeliveredAll(b, us), HandleAll(b, us), k')
  {
    if us == [] {
      k' := k;
    } else {
      var front, last := us[..|us| - 1], us[|us| - 1];
      assert us == front + [last] && Sendable(cuts, us[|us| - 1]) && AllSendable(cuts, front);
      var j := RunHonest(cuts, b, k, front);
      k' := RunStep(cuts, b, k, front, last, DeliveredAll(b, front), HandleAll(b, front), j);
    }
  }

  /** With no gap open, what comes next in the log has not arrived. */
  lemma NextNotKept<V(!new)>(cuts: seq<int>, b: Box<V>, k: nat)
    requires IsLog(cuts) && InvAt(cuts, b, k) && b.gaps == [] && Quiet(b)
    ensures !Kept(b, cuts[k])
  {
  }

  /** Once everything from cut k on has been kept, and nothing that could be applied is waiting,
      the end of the log has been reached. */
  lemma AllKeptAtEnd<V(!new)>(cuts: seq<int>, b: Box<V>, k: nat)
    requires IsLog(cuts) && InvAt(cuts, b, k)
    requires forall i :: k <= i < |cuts| - 1 ==> Kept(b, cuts[i])
    requires k < |cuts| - 1 ==> Quiet(b)
    ensures b.gaps == [] && k == |cuts| - 1
    ensures forall p :: p in b.pending ==> p.End() <= b.state
    ensures Settled(b) ==> b.pending == []
  {
    if b.gaps != [] {
      var m :| Missing(cuts, b, k, m);
      var _ := OpenGapMisses(cuts, b, k, m);
    }
    if k < |cuts| - 1 {
      NextNotKept(cuts, b, k);
    }
    forall p | p in b.pending ensures p.End() <= b.state && p.Start() < b.state {
      var _ := Position(cuts, p, |cuts| - 1);
    }
    if b.pending != [] {
      assert b.pending[0] in b.pending;
    }
  }

  /** From the moment a gap is open that the update at cut m opened, to the end of any run. */
  lemma {:induction false} GapFollowed<V(!new)>(cuts: seq<int>, b: Box<V>, k: nat, m: nat, us: seq<Update<V>>)
    returns (k': nat)
    requires IsLog(cuts) && InvAt(cuts, b, k) && Missing(cuts, b, k, m) && b.gaps != []
    requires AllSendable(cuts, us)
    ensures InvAt(cuts, HandleAll(b, us), k') && Follows(cuts, HandleAll(b, us), k, m, k')
  {
    if us == [] {
      k' := k;
    } else {
      var front, u := us[..|us| - 1], us[|us| - 1];
      assert Sendable(cuts, us[|us| - 1]) && AllSendable(cuts, front);
      var j := GapFollowed(cuts, b, k, m, front);
      k' := FollowStep(cuts, HandleAll(b, front), k, m, j, u);
    }
  }

  lemma FollowStep<V(!new)>(cuts: seq<int>, b: Box<V>, k: nat, m: nat, j: nat, u: Update<V>) returns (k': nat)
    requires IsLog(cuts) && k < m && InvAt(cuts, b, j) && Follows(cuts, b, k, m, j) && Sendable(cuts, u)
    ensures InvAt(cuts, Handle(b, u), k') && Follows(cuts, Handle(b, u), k, m, k')
  {
    hide Receive;
    if j != k {
      k' := StepHonest(cuts, b, j, u);
    } else if u.Start() < b.state {
      if Logged(cuts, u) {
        var _ := Position(cuts, u, k);
      }
      OutdatedIsIgnored(b, u);
      k' := k;
    } else {
      k' := StepGapOpen(cuts, b, k, m, u);
    }
  }

  /** All ranges of the log from cut k to cut m are among us. */
  ghost predicate AllWait<V(!new)>(cuts: seq<int>, k: nat, m: nat, us: seq<Update<V>>)
    requires m <= |cuts|
  {
    forall i :: k <= i < m ==> Waits(us, cuts[i])
  }

  /** The life of a gap: after the update u at cut m has left a hole behind the state, the state
      stays where it is, behind gaps that cover exactly what is missing before u, until the last
      missing range has arrived; and from then on it is past u. */
  lemma GapClosesExactlyWhen<V(!new)>(cuts: seq<int>, b: Box<V>, k: nat, u: Update<V>, m: nat, us: seq<Update<V>>)
    requires IsLog(cuts) && InvAt(cuts, b, k) && b.gaps == []
    requires At(cuts, u, m) && k < m && AllSendable(cuts, us)
    ensures var b' := HandleAll(Handle(b, u), us);
      if AllWait(cuts, k, m, b.pending + us) then b'.state > cuts[m]
      else b'.state == cuts[k] && b'.gaps != [] && Missing(cuts, b', k, m)
  {
    hide HandleAll, Receive;
    var j := StepGapDetected(cuts, b, k, u, m);
    var mid := Handle(b, u);
    var k' := RunHonest(cuts, mid, j, us);
    if j == k {
      k' := GapFollowed(cuts, mid, k, m, us);
    }
    GapStands(cuts, b, k, u, m, mid, us, HandleAll(mid, us), k');
  }

  lemma GapStands<V(!new)>(cuts: seq<int>, b: Box<V>, k: nat, u: Update<V>, m: nat, mid: Box<V>,
                           us: seq<Update<V>>, b': Box<V>, k': nat)
    requires IsLog(cuts) && InvAt(cuts, b, k) && At(cuts, u, m) && k < m
    requires forall x :: x in cuts ==> (Kept(mid, x) <==> Kept(b, x) || x == u.Start())
    requires KeepsAll(cuts, mid, us, b') && InvAt(cuts, b', k') && Follows(cuts, b', k, m, k')
    ensures AllWait(cuts, k, m, b.pending + us) <==> k' != k
  {
    forall i | k <= i < m ensures Kept(b', cuts[i]) <==> Waits(b.pending + us, cuts[i]) {
      assert forall p :: p in b.pending + us <==> p in b.pending || p in us;
    }
    if k' == k {
      var i := OpenGapMisses(cuts, b', k, m);
      assert !Waits(b.pending + us, cuts[i]);
    } else {
      forall i | k <= i < m ensures Waits(b.pending + us, cuts[i]) {
        assert Kept(b', cuts[i]);
      }
    }
  }

  /** Every range of the log from position k on is among us. */
  ghost predicate AllArrive<V(!new)>(cuts: seq<int>, k: nat, us: seq<Update<V>>) {
    forall i :: k <= i < |cuts| - 1 ==> Waits(us, cuts[i])
  }

  /** The sequencer is idle at the end of the log, with nothing left to apply. */
  ghost predicate AtEnd<V(!new)>(cuts: seq<int>, b: Box<V>)
    requires cuts != []
  {
    && b.state == cuts[|cuts| - 1]
    && b.gaps == []
    && forall p :: p in b.pending ==> p.End() <= b.state
  }

  /** Convergence: from any state of an honest run, once every range of the log from the state on
      has been handled at least once (in any order, with repetitions and outdated updates in
      between), what has been delivered is exactly the rest of the log, each range once and in
      order, and the sequencer has reached the end with no gap open and nothing left to apply. */
  lemma Convergence<V(!new)>(cuts: seq<int>, b: Box<V>, k: nat, us: seq<Update<V>>)
    requires IsLog(cuts) && InvAt(cuts, b, k)
    requires AllSendable(cuts, us)
    requires AllArrive(cuts, k, us)
    ensures AtEnd(cuts, HandleAll(b, us))
    ensures Stretch(cuts, DeliveredAll(b, us), k, |cuts| - 1)
    ensures Settled(b) ==> HandleAll(b, us).pending == []
  {
    hide HandleAll, DeliveredAll, AllSendable, AllArrive;
    var k' := RunHonest(cuts, b, k, us);
    RunToEnd(cuts, b, k, us, DeliveredAll(b, us), HandleAll(b, us), k');
  }

  lemma RunToEnd<V(!new)>(cuts: seq<int>, b: Box<V>, k: nat, us: seq<Update<V>>,
                          ds: seq<Update<V>>, b': Box<V>, k': nat)
    requires IsLog(cuts) && RunsTo(cuts, b, k, us, ds, b', k')
    requires AllArrive(cuts, k, us)
    ensures b'.gaps == [] && k' == |cuts| - 1
    ensures forall p :: p in b'.pending ==> p.End() <= b'.state
    ensures Settled(b) ==> b'.pending == []
  {
    forall i | k' <= i < |cuts| - 1 ensures Kept(b', cuts[i]) {
      assert Waits(us, cuts[i]);
    }
    if k' < |cuts| - 1 {
      assert Waits(us, cuts[k']);
    }
    AllKeptAtEnd(cuts, b', k');
  }

  // ----- the sequencer refines "the longest prefix received" -----

  /** The first range of the log, from the i-th on, that is not among us. */
  ghost function Reach<V(!new)>(cuts: seq<int>, us: seq<Update<V>>, i: nat): (n: nat)
    requires i < |cuts|
    ensures i <= n < |cuts|
    ensures forall j :: i <= j < n ==> Waits(us, cuts[j])
    ensures n < |cuts| - 1 ==> !Waits(us, cuts[n])
    decreases |cuts| - i
  {
    if i < |cuts| - 1 && Waits(us, cuts[i]) then Reach(cuts, us, i + 1) else i
  }

  /** Everything delivered or pending was received. */
  lemma {:induction false} RunMembers<V(!new)>(b: Box<V>, us: seq<Update<V>>)
    ensures forall p :: p in DeliveredAll(b, us) ==> p in b.pending || p in us
    ensures forall p :: p in HandleAll(b, us).pending ==> p in b.pending || p in us
  {
    if us == [] {
    } else {
      var front, last := us[..|us| - 1], us[|us| - 1];
      assert last in us && forall u :: u in us <==> u in front || u == last;
      RunMembers(b, front);
      HandleMembers(HandleAll(b, front), last);
    }
  }

  /** Some received update of the log covers the point x. */
  ghost predicate Arrived<V(!new)>(cuts: seq<int>, us: seq<Update<V>>, x: int) {
    exists u :: u in us && Logged(cuts, u) && Inside(u, x)
  }

  /** The gaps of b are what of the log has not arrived in [b.state, t), and that is something. */
  ghost predicate GapsAreMissing<V(!new)>(cuts: seq<int>, us: seq<Update<V>>, b: Box<V>, t: int) {
    && (forall x :: Covered(b.gaps, x) <==> b.state <= x < t && !Arrived(cuts, us, x))
    && (exists x :: x in cuts && b.state <= x < t && !Waits(us, x))
  }

  /** At every moment of a run from an idle start: with no gap open the state is the end of the
      longest prefix of the log that has been received, and no range that starts at the state has
      been; with a gap open, the gap list is exactly what has not been received before some
      received update, and something has not.  In both cases the pending list holds exactly the
      received ranges from the state on. */
  lemma RefinesLongestPrefix<V(!new)>(cuts: seq<int>, us: seq<Update<V>>)
    requires IsLog(cuts) && AllSendable(cuts, us)
    ensures var b := HandleAll(Box(cuts[0], [], []), us);
      && (b.gaps == [] ==> b.state == cuts[Reach(cuts, us, 0)])
      && (b.gaps != [] ==> exists t :: Waits(us, t) && GapsAreMissing(cuts, us, b, t))
      && (forall p :: p in b.pending ==> p in us && p.Start() >= b.state)
      && (forall x :: x in cuts && x >= b.state && Waits(us, x) ==> Waits(b.pending, x))
  {
    var idle: Box<V> := Box(cuts[0], [], []);
    var b := HandleAll(idle, us);
    var k := RunHonest(cuts, idle, 0, us);
    hide HandleAll, DeliveredAll;
    RunMembers(idle, us);
    if b.gaps == [] {
      PrefixReached(cuts, us, DeliveredAll(idle, us), b, k);
    } else {
      var m :| Missing(cuts, b, k, m);
      GapsRefine(cuts, us, b, k, m);
    }
  }

  /** Everything from us that starts at a cut has been kept. */
  ghost predicate KeepsReceived<V(!new)>(cuts: seq<int>, us: seq<Update<V>>, b: Box<V>) {
    forall x :: x in cuts && Waits(us, x) ==> Kept(b, x)
  }

  lemma PrefixReached<V(!new)>(cuts: seq<int>, us: seq<Update<V>>, ds: seq<Update<V>>, b: Box<V>, k: nat)
    requires IsLog(cuts) && InvAt(cuts, b, k) && b.gaps == [] && Settled(b)
    requires Stretch(cuts, ds, 0, k) && forall p :: p in ds ==> p in us
    requires KeepsReceived(cuts, us, b)
    ensures Reach(cuts, us, 0) == k
  {
    forall i | 0 <= i < k ensures Waits(us, cuts[i]) {
      assert At(cuts, ds[i], 0 + i);
    }
    NextNotKept(cuts, b, k);
  }

  lemma GapsRefine<V(!new)>(cuts: seq<int>, us: seq<Update<V>>, b: Box<V>, k: nat, m: nat)
    requires IsLog(cuts) && InvAt(cuts, b, k) && b.gaps != [] && Missing(cuts, b, k, m)
    requires forall p :: p in b.pending ==> p in us
    requires KeepsReceived(cuts, us, b)
    ensures Waits(us, cuts[m]) && GapsAreMissing(cuts, us, b, cuts[m])
  {
    var i := OpenGapMisses(cuts, b, k, m);
    assert cuts[i] in cuts;
    forall x ensures Covered(b.gaps, x) <==> b.state <= x < cuts[m] && !Arrived(cuts, us, x) {
      if b.state <= x < cuts[m] {
        ArrivedIsPended(cuts, us, b, k, x);
      }
    }
  }

  lemma ArrivedIsPended<V(!new)>(cuts: seq<int>, us: seq<Update<V>>, b: Box<V>, k: nat, x: int)
    requires IsLog(cuts) && InvAt(cuts, b, k) && b.state <= x
    requires forall p :: p in b.pending ==> p in us
    requires KeepsReceived(cuts, us, b)
    ensures Pended(b.pending, x) <==> Arrived(cuts, us, x)
  {
    if u :| u in us && Logged(cuts, u) && Inside(u, x) {
      var j := Position(cuts, u, k);
      assert cuts[j] in cuts && Waits(us, cuts[j]);
      var p :| p in b.pending && p.Start() == cuts[j];
      var _ := Position(cuts, p, j);
    }
    if p :| p in b.pending && Inside(p, x) {
      assert Logged(cuts, p);
    }
  }
}
