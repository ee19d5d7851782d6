/** What the sequencer guarantees whatever it is sent: no honesty of the sender is assumed.

    The one thing assumed where it is needed is that no update carries state 0, which `CheckGap`
    applies unconditionally; `StateRegressesExactlyWhen` says what happens otherwise.
 */
module ChainSafety {
  import opened GapBuffers
  import opened Sequencer
  import opened StableSorting
  import opened Updates

  /** Each update starts where the one before it ended, from s to t. */
  predicate Chain<V>(s: int, us: seq<Update<V>>, t: int)
    decreases us
  {
    if us == [] then s == t else us[0].Start() == s && Chain(us[0].End(), us[1..], t)
  }

  ghost predicate NonZero<V(!new)>(us: seq<Update<V>>) {
    forall u :: u in us ==> u.state != 0
  }

  /** Nothing is open and nothing waits. */
  ghost predicate Idle<V(!new)>(b: Box<V>) {
    b.gaps == [] && b.pending == []
  }

  /** Something of ps starts at x. */
  ghost predicate Waits<V(!new)>(ps: seq<Update<V>>, x: int) {
    exists p :: p in ps && p.Start() == x
  }

  /** All that waits lies beyond the state, unless a gap is open. */
  ghost predicate Settled<V(!new)>(b: Box<V>) {
    b.gaps != [] || forall p :: p in b.pending ==> p.Start() > b.state
  }

  /** The calls that reach `applyPending`. */
  predicate Flushes<V>(b: Box<V>, u: Update<V>) {
    CheckGap(b.state, u.state, u.count) != GapIgnore
    && if b.gaps != [] then Accepts(b.gaps, u) && Consumed(b.gaps, u) == []
       else if CheckGap(b.state, u.state, u.count) == GapApply then b.pending != []
       else ConsumedAll([Gap(b.state, u.Start())], b.pending + [u]) == []
  }

  lemma {:induction false} ScanChains<V(!new)>(state: int, ps: seq<Update<V>>)
    requires NonZero(ps)
    ensures Chain(state, Scan(state, ps).accepted, Scan(state, ps).state)
    decreases ps
  {
    if ps == [] {
    } else if CheckGap(state, ps[0].state, ps[0].count) == GapApply {
      ScanChains(ps[0].state, ps[1..]);
      var r := Scan(ps[0].state, ps[1..]);
      assert ([ps[0]] + r.accepted)[1..] == r.accepted;
    } else {
      ScanChains(state, ps[1..]);
    }
  }

  /** A scan hands out and keeps only what it was given. */
  lemma {:induction false} ScanMembers<V(!new)>(state: int, ps: seq<Update<V>>)
    ensures forall u :: u in Scan(state, ps).accepted ==> u in ps
    ensures forall u :: u in Scan(state, ps).rest ==> u in ps
    decreases ps
  {
    if ps != [] {
      ScanMembers(if ps[0].state != 0 then ps[0].state else state, ps[1..]);
      ScanMembers(state, ps[1..]);
    }
  }

  /** The state moves only once the callback has succeeded. */
  lemma ReceiveKeepsState<V>(b: Box<V>, u: Update<V>)
    ensures Receive(b, u).box.state == b.state
  {
  }

  lemma TakeMembers<V(!new)>(b: Box<V>)
    ensures forall u :: u in Applied(TakePending(b)) ==> u in b.pending
    ensures forall u :: u in TakePending(b).box.pending ==> u in b.pending
  {
    var sorted := StableSort(b.pending, StartsBefore);
    SortMembers(b.pending, StartsBefore);
    ScanMembers(b.state, sorted);
  }

  /** Nothing is made up: what is delivered or kept was pending or has just arrived. */
  lemma HandleMembers<V(!new)>(b: Box<V>, u: Update<V>)
    ensures forall p :: p in Delivered(b, u) ==> p in b.pending || p == u
    ensures forall p :: p in Receive(b, u).box.pending ==> p in b.pending || p == u
  {
    var queued := b.(pending := b.pending + [u]);
    TakeMembers(queued);
    TakeMembers(queued.(gaps := Consumed(b.gaps, u)));
    TakeMembers(queued.(gaps := ConsumedAll([Gap(b.state, u.Start())], queued.pending)));
  }

  lemma TakeChains<V(!new)>(b: Box<V>)
    requires NonZero(b.pending)
    ensures Chain(b.state, Applied(TakePending(b)), Commit(TakePending(b)).state)
  {
    SortMembers(b.pending, StartsBefore);
    ScanChains(b.state, StableSort(b.pending, StartsBefore));
  }

  lemma HandleChains<V(!new)>(b: Box<V>, u: Update<V>)
    requires NonZero(b.pending) && u.state != 0
    ensures Chain(b.state, Delivered(b, u), Handle(b, u).state)
    ensures NonZero(Receive(b, u).box.pending)
  {
    HandleMembers(b, u);
    var queued := b.(pending := b.pending + [u]);
    if Flushes(b, u) {
      if b.gaps != [] {
        TakeChains(queued.(gaps := []));
      } else if CheckGap(b.state, u.state, u.count) == GapApply {
        TakeChains(queued);
      } else {
        TakeChains(queued.(gaps := []));
      }
    } else {
      assert Chain(u.Start(), [u], u.End());
    }
  }

  // ----- whole runs, with failing callbacks and resynchronisations -----

  /** An arriving update, with the verdict of `apply` on it; or a resynchronisation, which
      clears the gaps and sets the state but leaves the pending list alone. */
  datatype Event<+V> = Arrive(u: Update<V>, ok: bool) | Restart(state: int)

  datatype Mark<+V> = Given(u: Update<V>) | Jump(state: int)

  function Step<V>(b: Box<V>, e: Event<V>): Box<V> {
    match e
    case Arrive(u, ok) => if ok then Handle(b, u) else Receive(b, u).box
    case Restart(state) => b.(gaps := [], state := state)
  }

  function Givens<V>(us: seq<Update<V>>): seq<Mark<V>> {
    if us == [] then [] else [Given(us[0])] + Givens(us[1..])
  }

  /** What a step successfully delivers, or the jump it makes. */
  function Marks<V>(b: Box<V>, e: Event<V>): seq<Mark<V>> {
    match e
    case Arrive(u, ok) => if ok then Givens(Delivered(b, u)) else []
    case Restart(state) => [Jump(state)]
  }

  function Steps<V>(b: Box<V>, es: seq<Event<V>>): Box<V>
    decreases es
  {
    if es == [] then b else Steps(Step(b, es[0]), es[1..])
  }

  function Trace<V>(b: Box<V>, es: seq<Event<V>>): seq<Mark<V>>
    decreases es
  {
    if es == [] then [] else Marks(b, es[0]) + Trace(Step(b, es[0]), es[1..])
  }

  /** A chain that may be broken only by jumps. */
  predicate Linked<V>(s: int, marks: seq<Mark<V>>, t: int)
    decreases marks
  {
    if marks == [] then s == t
    else
      match marks[0]
      case Given(u) => u.Start() == s && Linked(u.End(), marks[1..], t)
      case Jump(v) => Linked(v, marks[1..], t)
  }

  lemma LinkedCons<V(!new)>(u: Update<V>, marks: seq<Mark<V>>, t: int)
    requires Linked(u.End(), marks, t)
    ensures Linked(u.Start(), [Given(u)] + marks, t)
  {
    assert ([Given(u)] + marks)[1..] == marks;
  }

  lemma {:induction false} LinkedConcat<V(!new)>(s: int, us: seq<Update<V>>, m: int, marks: seq<Mark<V>>, t: int)
    requires Chain(s, us, m) && Linked(m, marks, t)
    ensures Linked(s, Givens(us) + marks, t)
    decreases us
  {
    hide Linked;
    if us == [] {
      assert Givens(us) + marks == marks;
    } else {
      LinkedConcat(us[0].End(), us[1..], m, marks, t);
      LinkedCons(us[0], Givens(us[1..]) + marks, t);
      assert Givens(us) + marks == [Given(us[0])] + (Givens(us[1..]) + marks);
    }
  }

  ghost predicate NonZeroEvents<V(!new)>(es: seq<Event<V>>) {
    forall i :: 0 <= i < |es| && es[i].Arrive? ==> es[i].u.state != 0
  }

  /** Chain safety: over every run, everything delivered is one chain of ranges, broken only
      where a resynchronisation sets the state, from the first state to the last. */
  lemma {:induction false} RunLinked<V(!new)>(b: Box<V>, es: seq<Event<V>>)
    requires NonZero(b.pending) && NonZeroEvents(es)
    ensures Linked(b.state, Trace(b, es), Steps(b, es).state)
    decreases es
  {
    if es == [] {
    } else {
      var b' := Step(b, es[0]);
      match es[0] {
        case Arrive(u, ok) => HandleChains(b, u);
        case Restart(_) =>
      }
      RunLinked(b', es[1..]);
      match es[0] {
        case Arrive(u, ok) =>
          if ok {
            LinkedConcat(b.state, Delivered(b, u), b'.state, Trace(b', es[1..]), Steps(b, es).state);
          } else {
            assert Marks(b, es[0]) + Trace(b', es[1..]) == Trace(b', es[1..]);
          }
        case Restart(_) =>
          assert Trace(b, es)[1..] == Trace(b', es[1..]);
      }
    }
  }

  ghost predicate AllGiven<V(!new)>(marks: seq<Mark<V>>) {
    forall k :: 0 <= k < |marks| ==> marks[k].Given? && marks[k].u.count >= 0
  }

  /** Between two resynchronisations no position is delivered twice: of two deliveries the
      earlier ends before the later starts. */
  lemma {:induction false} NoReplay<V(!new)>(s: int, marks: seq<Mark<V>>, t: int, i: nat, j: nat)
    requires Linked(s, marks, t) && i < j < |marks| && AllGiven(marks[i..j + 1])
    ensures marks[i].Given? && marks[j].Given? && marks[i].u.End() <= marks[j].u.Start()
    decreases j
  {
    assert marks[i] == marks[i..j + 1][0];
    if i > 0 {
      assert marks[1..][i - 1..j] == marks[i..j + 1];
      NoReplay(if marks[0].Given? then marks[0].u.End() else marks[0].state, marks[1..], t, i - 1, j - 1);
    } else {
      assert marks[j] == marks[i..j + 1][j] && marks[1] == marks[i..j + 1][1];
      if j > 1 {
        assert forall k :: 0 <= k < j ==> marks[1..][0..j][k] == marks[i..j + 1][k + 1];
        NoReplay(marks[0].u.End(), marks[1..], t, 0, j - 1);
      }
    }
  }

  // ----- the state can only go back on a state-0 update -----

  ghost predicate NonNegative<V(!new)>(us: seq<Update<V>>) {
    forall u :: u in us ==> u.count >= 0
  }

  lemma {:induction false} ScanAdvances<V(!new)>(state: int, ps: seq<Update<V>>)
    requires NonNegative(ps)
    ensures Scan(state, ps).state >= state
    decreases ps
  {
    if ps == [] {
    } else if CheckGap(state, ps[0].state, ps[0].count) == GapApply {
      assert ps[0] in ps;
      ScanAdvances(if ps[0].state != 0 then ps[0].state else state, ps[1..]);
    } else {
      ScanAdvances(state, ps[1..]);
    }
  }

  lemma TakeAdvances<V(!new)>(b: Box<V>)
    requires NonNegative(b.pending)
    ensures Commit(TakePending(b)).state >= b.state
  {
    SortMembers(b.pending, StartsBefore);
    ScanAdvances(b.state, StableSort(b.pending, StartsBefore));
  }

  /** With non-negative counts a call lowers the state in exactly one case: a state-0 update
      meets an idle sequencer whose state is positive. */
  lemma StateRegressesExactlyWhen<V(!new)>(b: Box<V>, u: Update<V>)
    requires NonNegative(b.pending) && u.count >= 0
    ensures Handle(b, u).state < b.state
       <==> u.state == 0 && b.gaps == [] && b.pending == [] && b.state > 0
  {
    var queued := b.(pending := b.pending + [u]);
    TakeAdvances(queued);
    TakeAdvances(queued.(gaps := Consumed(b.gaps, u)));
    TakeAdvances(queued.(gaps := ConsumedAll([Gap(b.state, u.Start())], queued.pending)));
  }

  /** For example: an update with state 0 takes an idle sequencer from 5 back to 0. */
  lemma StateCanRegress<V>(u: Update<V>)
    requires u.state == 0 && u.count == 1
    ensures Handle(Box(5, [], []), u).state == 0
  {
  }

  // ----- closing a gap always applies something -----

  /** While a gap is open, the state is the left end of a gap or the start of a pending update. */
  ghost predicate Anchored<V(!new)>(b: Box<V>) {
    b.gaps != [] ==> Held(b.gaps, b.pending, b.state)
  }

  ghost predicate Held<V(!new)>(gaps: seq<Gap>, ps: seq<Update<V>>, x: int) {
    (exists g :: g in gaps && g.from == x) || (exists p :: p in ps && p.Start() == x)
  }

  lemma ConsumeHolds<V(!new)>(gaps: seq<Gap>, ps: seq<Update<V>>, u: Update<V>, x: int)
    requires Held(gaps, ps, x)
    ensures Held(Consumed(gaps, u), ps + [u], x)
  {
    var i := FirstFit(gaps, u);
    var after := Consumed(gaps, u);
    if p :| p in ps && p.Start() == x {
      assert p in ps + [u];
    } else {
      var k :| 0 <= k < |gaps| && gaps[k].from == x;
      if i == |gaps| {
        assert gaps[k] in after;
      } else if k != i {
        assert after[if k < i then k else k - 1] == gaps[k];
      } else if x < u.Start() {
        assert after[|gaps| - 1] == Gap(x, u.Start());
      } else {
        assert u in ps + [u];
      }
    }
  }

  lemma {:induction false} ConsumeAllHolds<V(!new)>(gaps: seq<Gap>, us: seq<Update<V>>, x: int)
    requires exists g :: g in gaps && g.from == x
    ensures Held(ConsumedAll(gaps, us), us, x)
  {
    if us == [] {
    } else {
      ConsumeAllHolds(gaps, us[..|us| - 1], x);
      ConsumeHolds(ConsumedAll(gaps, us[..|us| - 1]), us[..|us| - 1], us[|us| - 1], x);
      assert us == us[..|us| - 1] + [us[|us| - 1]];
    }
  }

  lemma StartsBeforeIsWeakOrder<V(!new)>()
    ensures StrictWeakOrder<Update<V>>(StartsBefore)
  {
  }

  lemma {:induction false} ScanFindsStart<V(!new)>(state: int, ps: seq<Update<V>>)
    requires Ordered(ps, StartsBefore)
    requires exists p :: p in ps && p.Start() == state
    ensures Scan(state, ps).accepted != []
    decreases ps
  {
    var p :| p in ps && p.Start() == state;
    var k :| 0 <= k < |ps| && ps[k] == p;
    if CheckGap(state, ps[0].state, ps[0].count) != GapApply {
      assert k > 0;
      assert !StartsBefore(ps[k], ps[0]);
      assert ps[1..][k - 1] == p;
      ScanFindsStart(state, ps[1..]);
    }
  }

  lemma TakeFindsStart<V(!new)>(b: Box<V>)
    requires exists p :: p in b.pending && p.Start() == b.state
    ensures TakePending(b).todo.Some?
  {
    StartsBeforeIsWeakOrder<V>();
    SortsStably(b.pending, StartsBefore);
    SortMembers(b.pending, StartsBefore);
    ScanFindsStart(b.state, StableSort(b.pending, StartsBefore));
  }

  /** When the last gap closes, some pending update starts exactly at the state. */
  lemma ClosingFindsStart<V(!new)>(b: Box<V>, u: Update<V>)
    requires Anchored(b) && Flushes(b, u)
    requires b.gaps != [] || u.state != 0
    ensures exists p :: p in b.pending + [u] && p.Start() == b.state
  {
    if b.gaps != [] {
      ConsumeHolds(b.gaps, b.pending, u, b.state);
    } else if CheckGap(b.state, u.state, u.count) == GapApply {
      assert u in b.pending + [u];
    } else {
      assert Gap(b.state, u.Start()) in [Gap(b.state, u.Start())];
      ConsumeAllHolds([Gap(b.state, u.Start())], b.pending + [u], b.state);
    }
  }

  /** So whenever `applyPending` is reached, other than by a state-0 update, a batch is handed
      out and its "empty buffer" branch is not taken. */
  lemma FlushNeverEmpty<V(!new)>(b: Box<V>, u: Update<V>)
    requires Anchored(b) && Flushes(b, u)
    requires b.gaps != [] || u.state != 0
    ensures Receive(b, u).todo.Some?
  {
    ClosingFindsStart(b, u);
    var queued := b.(pending := b.pending + [u]);
    TakeFindsStart(queued);
    TakeFindsStart(queued.(gaps := Consumed(b.gaps, u)));
    TakeFindsStart(queued.(gaps := ConsumedAll([Gap(b.state, u.Start())], queued.pending)));
  }

  /** The anchor survives every event of a run. */
  lemma StepAnchored<V(!new)>(b: Box<V>, e: Event<V>)
    requires Anchored(b)
    ensures Anchored(Step(b, e))
  {
    match e
    case Restart(_) =>
    case Arrive(u, _) =>
      if b.gaps != [] {
        ConsumeHolds(b.gaps, b.pending, u, b.state);
      } else {
        assert Gap(b.state, u.Start()) in [Gap(b.state, u.Start())];
        ConsumeAllHolds([Gap(b.state, u.Start())], b.pending + [u], b.state);
      }
  }
}
