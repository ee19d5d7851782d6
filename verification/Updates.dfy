/** Numbered updates and the three-way decision taken on each of them. */
module Updates {
  import opened PeerEntities

  datatype Option<+T> = None | Some(value: T)

  /** An update occupies the half-open range [Start(), End()) of its counter. */
  datatype Update<+V> = Update(value: V, state: int, count: int, ents: Entities) {
    function Start(): int { state - count }
    function End(): int { state }
  }

  datatype GapCheck = GapApply | GapIgnore | GapRefetch

  function CheckGap(localState: int, remoteState: int, count: int): GapCheck {
    if remoteState == 0 then GapApply
    else if localState + count == remoteState then GapApply
    else if localState + count > remoteState then GapIgnore
    else GapRefetch
  }

  /** The strict order of the pending list. */
  predicate StartsBefore<V>(a: Update<V>, b: Update<V>) {
    a.Start() < b.Start()
  }
}
