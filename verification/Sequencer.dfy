/** The sequencer on values: accepts numbered updates in any order and hands them on in order.

    The Go code calls a function `apply` in the middle of `Handle`.  Here a call is cut at that
    point: `Receive` does everything up to it and returns the batch that would be passed to
    `apply`, and `Commit` does what follows when `apply` reports success.
 */
module Sequencer {
  import opened GapBuffers
  import opened StableSorting
  import opened Updates

  /** The value of a sequencer. */
  datatype Box<+V> = Box(state: int, gaps: seq<Gap>, pending: seq<Update<V>>)

  /** The arguments of one call of `apply`. */
  datatype Batch<+V> = Batch(state: int, updates: seq<Update<V>>)

  datatype Received<+V> = Received(box: Box<V>, todo: Option<Batch<V>>)

  datatype Scanned<+V> = Scanned(state: int, accepted: seq<Update<V>>, rest: seq<Update<V>>)

  /** Walks a sorted pending list from `state` up to the first update that leaves a hole. */
  function Scan<V>(state: int, ps: seq<Update<V>>): Scanned<V>
    decreases ps
  {
    if ps == [] then Scanned(state, [], [])
    else
      match CheckGap(state, ps[0].state, ps[0].count)
      case GapApply =>
        var r := Scan(if ps[0].state != 0 then ps[0].state else state, ps[1..]);
        r.(accepted := [ps[0]] + r.accepted)
      case GapIgnore => Scan(state, ps[1..])
      case GapRefetch => Scanned(state, [], ps)
  }

  /** The pending list is sorted, scanned and trimmed. */
  function TakePending<V>(b: Box<V>): Received<V> {
    var r := Scan(b.state, StableSort(b.pending, StartsBefore));
    Received(b.(pending := r.rest), if r.accepted == [] then None else Some(Batch(r.state, r.accepted)))
  }

  function Receive<V>(b: Box<V>, u: Update<V>): Received<V> {
    var verdict := CheckGap(b.state, u.state, u.count);
    var queued := b.(pending := b.pending + [u]);
    if verdict == GapIgnore then Received(b, None)
    else if b.gaps != [] then
      var filled := queued.(gaps := Consumed(b.gaps, u));
      if Accepts(b.gaps, u) && filled.gaps == [] then TakePending(filled) else Received(filled, None)
    else if verdict == GapApply then
      if b.pending != [] then TakePending(queued) else Received(b, Some(Batch(u.state, [u])))
    else
      var widened := queued.(gaps := ConsumedAll([Gap(b.state, u.Start())], queued.pending));
      if widened.gaps == [] then TakePending(widened) else Received(widened, None)
  }

  /** What `apply` is given, if it is called at all. */
  function Applied<V>(r: Received<V>): seq<Update<V>> {
    match r.todo
    case None => []
    case Some(batch) => batch.updates
  }

  /** The value after a call in which `apply` succeeded. */
  function Commit<V>(r: Received<V>): Box<V> {
    match r.todo
    case None => r.box
    case Some(batch) => r.box.(state := batch.state)
  }

  function Handle<V>(b: Box<V>, u: Update<V>): Box<V> {
    Commit(Receive(b, u))
  }

  function Delivered<V>(b: Box<V>, u: Update<V>): seq<Update<V>> {
    Applied(Receive(b, u))
  }

  function HandleAll<V>(b: Box<V>, us: seq<Update<V>>): Box<V> {
    if us == [] then b else Handle(HandleAll(b, us[..|us| - 1]), us[|us| - 1])
  }

  function DeliveredAll<V>(b: Box<V>, us: seq<Update<V>>): seq<Update<V>> {
    if us == [] then []
    else
      var front := us[..|us| - 1];
      DeliveredAll(b, front) + Delivered(HandleAll(b, front), us[|us| - 1])
  }
}
