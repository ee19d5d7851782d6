/** The in-memory store of user states. */
module Storage {
  import opened Telegram
  import opened Updates

  /** The setters of single fields fail for a user that has no state yet. */
  function SavePts(saved: Option<State>, pts: int): Option<State> {
    match saved case None => None case Some(st) => Some(st.(pts := pts))
  }

  function SaveQts(saved: Option<State>, qts: int): Option<State> {
    match saved case None => None case Some(st) => Some(st.(qts := qts))
  }

  function SaveDate(saved: Option<State>, date: int): Option<State> {
    match saved case None => None case Some(st) => Some(st.(date := date))
  }

  function SaveSeq(saved: Option<State>, seqNo: int): Option<State> {
    match saved case None => None case Some(st) => Some(st.(seqNo := seqNo))
  }

  function SaveDateSeq(saved: Option<State>, date: int, seqNo: int): Option<State> {
    match saved case None => None case Some(st) => Some(st.(date := date, seqNo := seqNo))
  }

  class MemStorage {
    var states: map<int, State>
    var channels: map<int, map<int, int>>

    constructor ()
      ensures states == map[] && channels == map[]
    {
      states, channels := map[], map[];
    }

    function Saved(userID: int): Option<State>
      reads this
    {
      if userID in states then Some(states[userID]) else None
    }

    /** A whole new state also forgets the counters of the user's channels. */
    method SetState(userID: int, state: State)
      modifies this
      ensures Saved(userID) == Some(state) && channels == old(channels)[userID := map[]]
      ensures forall id :: id != userID ==> Saved(id) == old(Saved(id))
    {
      states := states[userID := state];
      channels := channels[userID := map[]];
    }

    method SetPts(userID: int, pts: int) returns (ok: bool)
      modifies this`states
      ensures ok <==> old(Saved(userID)).Some?
      ensures Saved(userID) == SavePts(old(Saved(userID)), pts)
      ensures forall id :: id != userID ==> Saved(id) == old(Saved(id))
    {
      if userID !in states {
        return false;
      }
      states := states[userID := states[userID].(pts := pts)];
      return true;
    }

    method SetQts(userID: int, qts: int) returns (ok: bool)
      modifies this`states
      ensures ok <==> old(Saved(userID)).Some?
      ensures Saved(userID) == SaveQts(old(Saved(userID)), qts)
      ensures forall id :: id != userID ==> Saved(id) == old(Saved(id))
    {
      if userID !in states {
        return false;
      }
      states := states[userID := states[userID].(qts := qts)];
      return true;
    }

    method SetDate(userID: int, date: int) returns (ok: bool)
      modifies this`states
      ensures ok <==> old(Saved(userID)).Some?
      ensures Saved(userID) == SaveDate(old(Saved(userID)), date)
      ensures forall id :: id != userID ==> Saved(id) == old(Saved(id))
    {
      if userID !in states {
        return false;
      }
      states := states[userID := states[userID].(date := date)];
      return true;
    }

    method SetSeq(userID: int, seqNo: int) returns (ok: bool)
      modifies this`states
      ensures ok <==> old(Saved(userID)).Some?
      ensures Saved(userID) == SaveSeq(old(Saved(userID)), seqNo)
      ensures forall id :: id != userID ==> Saved(id) == old(Saved(id))
    {
      if userID !in states {
        return false;
      }
      states := states[userID := states[userID].(seqNo := seqNo)];
      return true;
    }

    method SetDateSeq(userID: int, date: int, seqNo: int) returns (ok: bool)
      modifies this`states
      ensures ok <==> old(Saved(userID)).Some?
      ensures Saved(userID) == SaveDateSeq(old(Saved(userID)), date, seqNo)
      ensures forall id :: id != userID ==> Saved(id) == old(Saved(id))
    {
      if userID !in states {
        return false;
      }
      states := states[userID := states[userID].(date := date, seqNo := seqNo)];
      return true;
    }
  }
}
