/** The users and chats that travel with an update, and their deduplicating merge. */
module PeerEntities {

  datatype Peer = Peer(id: int, data: string)

  datatype Entities = Entities(users: seq<Peer>, chats: seq<Peer>)

  const NO_ENTITIES := Entities([], [])

  predicate HasID(peers: seq<Peer>, id: int) {
    exists i :: 0 <= i < |peers| && peers[i].id == id
  }

  /** Appends the candidates whose id is not there yet, one after the other. */
  function Merged(into: seq<Peer>, from: seq<Peer>): seq<Peer>
    decreases from
  {
    if from == [] then into
    else Merged(if HasID(into, from[0].id) then into else into + [from[0]], from[1..])
  }

  function MergedEntities(into: Entities, from: Entities): Entities {
    Entities(Merged(into.users, from.users), Merged(into.chats, from.chats))
  }

  /** What merging a list of entities into an empty set leaves. */
  function MergedAll(into: Entities, batches: seq<Entities>): Entities
    decreases batches
  {
    if batches == [] then into else MergedAll(MergedEntities(into, batches[0]), batches[1..])
  }

  // ----- an independent reading of the result -----

  function AllUsers(batches: seq<Entities>): seq<Peer> {
    if batches == [] then [] else batches[0].users + AllUsers(batches[1..])
  }

  function AllChats(batches: seq<Entities>): seq<Peer> {
    if batches == [] then [] else batches[0].chats + AllChats(batches[1..])
  }

  /** The occurrences that are the first of their id. */
  function Firsts(peers: seq<Peer>): seq<Peer> {
    if peers == [] then []
    else
      var last := |peers| - 1;
      Firsts(peers[..last]) + if HasID(peers[..last], peers[last].id) then [] else [peers[last]]
  }

  lemma {:induction false} MergedConcat(into: seq<Peer>, a: seq<Peer>, b: seq<Peer>)
    ensures Merged(into, a + b) == Merged(Merged(into, a), b)
    decreases a
  {
    if a == [] {
      assert a + b == b;
    } else {
      var next := if HasID(into, a[0].id) then into else into + [a[0]];
      assert (a + b)[1..] == a[1..] + b;
      MergedConcat(next, a[1..], b);
    }
  }

  lemma HasIDConcat(a: seq<Peer>, b: seq<Peer>, id: int)
    ensures HasID(a + b, id) <==> HasID(a, id) || HasID(b, id)
  {
    if i :| 0 <= i < |a| && a[i].id == id {
      assert (a + b)[i].id == id;
    }
    if i :| 0 <= i < |b| && b[i].id == id {
      assert (a + b)[|a| + i].id == id;
    }
  }

  lemma {:induction false} FirstsIDs(peers: seq<Peer>, id: int)
    ensures HasID(Firsts(peers), id) <==> HasID(peers, id)
  {
    if peers == [] {
    } else {
      var front, last := peers[..|peers| - 1], peers[|peers| - 1];
      FirstsIDs(front, id);
      HasIDConcat(front, [last], id);
      assert peers == front + [last];
      var added := if HasID(front, last.id) then [] else [last];
      HasIDConcat(Firsts(front), added, id);
    }
  }

  lemma {:induction false} MergeIsFirsts(peers: seq<Peer>)
    ensures Merged([], peers) == Firsts(peers)
  {
    if peers == [] {
    } else {
      var last := |peers| - 1;
      assert peers == peers[..last] + [peers[last]];
      MergedConcat([], peers[..last], [peers[last]]);
      MergeIsFirsts(peers[..last]);
      FirstsIDs(peers[..last], peers[last].id);
    }
  }

  lemma {:induction false} MergedAllConcat(into: Entities, batches: seq<Entities>)
    ensures MergedAll(into, batches)
         == Entities(Merged(into.users, AllUsers(batches)), Merged(into.chats, AllChats(batches)))
    decreases batches
  {
    if batches == [] {
    } else {
      MergedAllConcat(MergedEntities(into, batches[0]), batches[1..]);
      MergedConcat(into.users, batches[0].users, AllUsers(batches[1..]));
      MergedConcat(into.chats, batches[0].chats, AllChats(batches[1..]));
    }
  }

  /** Merging batch after batch keeps, of the concatenation of all their lists, exactly the
      first occurrence of every user id and of every chat id. */
  lemma MergeKeepsFirstOccurrences(batches: seq<Entities>)
    ensures MergedAll(NO_ENTITIES, batches) == Entities(Firsts(AllUsers(batches)), Firsts(AllChats(batches)))
  {
    MergedAllConcat(NO_ENTITIES, batches);
    MergeIsFirsts(AllUsers(batches));
    MergeIsFirsts(AllChats(batches));
  }

  /** What `Firsts` means: a strictly increasing list of positions, holding exactly the
      positions whose id occurs nowhere before. */
  ghost predicate ArePositions(peers: seq<Peer>, firsts: seq<Peer>, at: seq<nat>) {
    && |at| == |firsts|
    && (forall j :: 0 <= j < |at| ==> at[j] < |peers| && firsts[j] == peers[at[j]])
    && (forall i, j :: 0 <= i < j < |at| ==> at[i] < at[j])
    && HoldsFirsts(peers, at)
  }

  lemma {:induction false} FirstsPositions(peers: seq<Peer>) returns (at: seq<nat>)
    ensures ArePositions(peers, Firsts(peers), at)
  {
    if peers == [] {
      at := [];
    } else {
      var last := |peers| - 1;
      var before := FirstsPositions(peers[..last]);
      at := before + if HasID(peers[..last], peers[last].id) then [] else [last];
      PositionsExtend(peers, Firsts(peers[..last]), before);
    }
  }

  /** at holds exactly the positions whose id occurs nowhere before. */
  ghost predicate HoldsFirsts(peers: seq<Peer>, at: seq<nat>) {
    forall k: nat :: k < |peers| ==> (k in at <==> !HasID(peers[..k], peers[k].id))
  }

  lemma HoldsFirstsExtend(peers: seq<Peer>, before: seq<nat>, at: seq<nat>)
    requires peers != [] && HoldsFirsts(peers[..|peers| - 1], before)
    requires forall j :: 0 <= j < |before| ==> before[j] < |peers| - 1
    requires at == if HasID(peers[..|peers| - 1], peers[|peers| - 1].id) then before else before + [|peers| - 1]
    ensures HoldsFirsts(peers, at)
  {
    var last: nat := |peers| - 1;
    var front := peers[..last];
    assert last !in before;
    forall k: nat | k < |peers| ensures k in at <==> !HasID(peers[..k], peers[k].id) {
      if k < last {
        assert front[..k] == peers[..k] && front[k] == peers[k];
        assert k in at <==> k in before;
      }
    }
  }

  lemma PositionsExtend(peers: seq<Peer>, firsts: seq<Peer>, before: seq<nat>)
    requires peers != [] && ArePositions(peers[..|peers| - 1], firsts, before)
    ensures var last := |peers| - 1;
      if HasID(peers[..last], peers[last].id) then ArePositions(peers, firsts, before)
      else ArePositions(peers, firsts + [peers[last]], before + [last])
  {
    var last: nat := |peers| - 1;
    HoldsFirstsExtend(peers, before, if HasID(peers[..last], peers[last].id) then before else before + [last]);
  }

  /** The receiver of a merge. */
  class EntityBuffer {
    var users: seq<Peer>
    var chats: seq<Peer>

    function Value(): Entities
      reads this
    {
      Entities(users, chats)
    }

    constructor ()
      ensures Value() == NO_ENTITIES
    {
      users, chats := [], [];
    }

    method Merge(from: Entities)
      modifies this
      ensures Value() == MergedEntities(old(Value()), from)
    {
      for i := 0 to |from.users|
        invariant chats == old(chats)
        invariant Merged(old(users), from.users) == Merged(users, from.users[i..])
      {
        var candidate := from.users[i];
        var merge := Absent(users, candidate.id);
        assert from.users[i..][1..] == from.users[i + 1..];
        if merge {
          users := users + [candidate];
        }
      }
      for i := 0 to |from.chats|
        invariant users == Merged(old(users), from.users)
        invariant Merged(old(chats), from.chats) == Merged(chats, from.chats[i..])
      {
        var candidate := from.chats[i];
        var merge := Absent(chats, candidate.id);
        assert from.chats[i..][1..] == from.chats[i + 1..];
        if merge {
          chats := chats + [candidate];
        }
      }
    }

    /** The inner loop of both halves of `Merge`. */
    static method Absent(exist: seq<Peer>, id: int) returns (merge: bool)
      ensures merge <==> !HasID(exist, id)
    {
      merge := true;
      for j := 0 to |exist|
        invariant merge
        invariant forall k :: 0 <= k < j ==> exist[k].id != id
      {
        if exist[j].id == id {
          merge := false;
          break;
        }
      }
    }
  }
}
