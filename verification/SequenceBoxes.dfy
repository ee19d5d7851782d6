/** The sequencer as the object the Go code updates in place. */
module SequenceBoxes {
  import opened GapBuffers
  import opened StableSorting
  import opened Updates
  import Sequencer

  type Box<+V> = Sequencer.Box<V>
  type Batch<+V> = Sequencer.Batch<V>

  class SequenceBox<V(!new)> {
    var state: int
    var pending: seq<Update<V>>
    const gaps: GapBuffer

    function Value(): Box<V>
      reads this, gaps
    {
      Sequencer.Box(state, gaps.gaps, pending)
    }

    constructor (initialState: int)
      ensures Value() == Sequencer.Box(initialState, [], [])
      ensures fresh(gaps)
    {
      state, pending := initialState, [];
      gaps := new GapBuffer();
    }

    method SetState(newState: int)
      modifies this
      ensures Value() == old(Value()).(state := newState)
    {
      state := newState;
    }

    /** `Handle` up to the call of `apply`. */
    method Receive(u: Update<V>) returns (todo: Option<Batch<V>>)
      modifies this, gaps
      ensures Sequencer.Received(Value(), todo) == Sequencer.Receive(old(Value()), u)
    {
      if CheckGap(state, u.state, u.count) == GapIgnore {
        return None;
      }
      if gaps.Has() {
        pending := pending + [u];
        var accepted := gaps.Consume(u);
        if !accepted {
          return None;
        }
        if !gaps.Has() {
          todo := TakePending();
          return;
        }
        return None;
      }
      match CheckGap(state, u.state, u.count)
      case GapApply =>
        if |pending| > 0 {
          pending := pending + [u];
          todo := TakePending();
          return;
        }
        return Some(Sequencer.Batch(u.state, [u]));
      case GapRefetch =>
        pending := pending + [u];
        gaps.Enable(state, u.Start());
        assert pending[..|pending|] == pending;
        for i := 0 to |pending|
          invariant state == old(state) && pending == old(pending) + [u]
          invariant gaps.gaps == ConsumedAll([Gap(state, u.Start())], pending[..i])
        {
          assert pending[..i + 1][..i] == pending[..i];
          var _ := gaps.Consume(pending[i]);
        }
        if !gaps.Has() {
          todo := TakePending();
          return;
        }
        return None;
    }

    /** `applyPending` up to the call of `apply`. */
    method TakePending() returns (todo: Option<Batch<V>>)
      modifies this
      ensures Sequencer.Received(Value(), todo) == Sequencer.TakePending(old(Value()))
    {
      pending := StableSort(pending, StartsBefore);
      ghost var sorted := pending;
      var cursor, reached, accepted := 0, state, [];
      for i := 0 to |pending|
        invariant pending == sorted && state == old(state)
        invariant cursor == i
        invariant var r := Sequencer.Scan(reached, sorted[i..]);
          Sequencer.Scan(state, sorted) == r.(accepted := accepted + r.accepted)
      {
        var u := pending[i];
        assert sorted[i..][0] == u && sorted[i..][1..] == sorted[i + 1..];
        match CheckGap(reached, u.state, u.count)
        case GapApply =>
          accepted := accepted + [u];
          if u.state != 0 {
            reached := u.state;
          }
          cursor := i + 1;
        case GapIgnore =>
          cursor := i + 1;
        case GapRefetch =>
          break;
      }
      assert Sequencer.Scan(reached, sorted[cursor..]) == Sequencer.Scanned(reached, [], sorted[cursor..]);
      assert accepted + [] == accepted;
      pending := pending[cursor..];
      if |accepted| == 0 {
        return None;
      }
      return Some(Sequencer.Batch(reached, accepted));
    }

    /** A whole call; `ok` is what `apply` reports if it is called.  When it fails, the trimmed
        updates are gone from the pending list although the state has not moved. */
    method Handle(u: Update<V>, ok: bool) returns (applied: seq<Update<V>>, failed: bool)
      modifies this, gaps
      ensures var r := Sequencer.Receive(old(Value()), u);
        && applied == Sequencer.Applied(r)
        && failed == (r.todo.Some? && !ok)
        && Value() == if failed then r.box else Sequencer.Commit(r)
    {
      var todo := Receive(u);
      match todo
      case None =>
        return [], false;
      case Some(batch) =>
        if !ok {
          return batch.updates, true;
        }
        SetState(batch.state);
        return batch.updates, false;
    }
  }
}
