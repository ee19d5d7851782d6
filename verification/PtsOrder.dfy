/** The order in which a batch of updates is processed. */
module PtsOrder {
  import opened StableSorting
  import opened Telegram

  /** The sort key of an update: its group, its channel, and where its range starts. */
  datatype Rank = Rank(group: nat, channelID: int, position: int)

  function RankOf(u: TgUpdate): Rank {
    match u
    case CommonPts(pts, ptsCount, _) => Rank(1, 0, pts - ptsCount)
    case ChannelPts(id, pts, ptsCount, _, _) => Rank(3, id, pts - ptsCount)
    case CommonQts(qts, _) => Rank(2, 0, qts)
    case _ => Rank(0, 0, 0)
  }

  predicate Less(a: TgUpdate, b: TgUpdate) {
    var x, y := RankOf(a), RankOf(b);
    if x.group < y.group then true
    else if x.group > y.group then false
    else
      match x.group
      case 1 => x.position < y.position
      case 2 => x.position < y.position
      case 3 =>
        if x.channelID < y.channelID then true
        else if x.channelID > y.channelID then false
        else x.position < y.position
      case _ => false
  }

  /** Lexicographic order of ranks. */
  predicate RankLess(x: Rank, y: Rank) {
    x.group < y.group
    || (x.group == y.group && (x.channelID < y.channelID
        || (x.channelID == y.channelID && x.position < y.position)))
  }

  lemma LessIsRankLess(a: TgUpdate, b: TgUpdate)
    ensures Less(a, b) <==> RankLess(RankOf(a), RankOf(b))
  {
  }

  lemma LessIsStrictWeakOrder()
    ensures StrictWeakOrder(Less)
  {
    forall a, b ensures Less(a, b) <==> RankLess(RankOf(a), RankOf(b)) {
      LessIsRankLess(a, b);
    }
  }

  lemma TiedIsSameRank(a: TgUpdate, b: TgUpdate)
    ensures Tied(a, b, Less) <==> RankOf(a) == RankOf(b)
  {
    LessIsRankLess(a, b);
    LessIsRankLess(b, a);
  }

  ghost predicate AscendsByRank(r: seq<TgUpdate>) {
    forall i, j :: 0 <= i < j < |r| ==> !RankLess(RankOf(r[j]), RankOf(r[i]))
  }

  lemma OrderedIsAscending(r: seq<TgUpdate>)
    ensures Ordered(r, Less) <==> AscendsByRank(r)
  {
    forall i, j | 0 <= i < j < |r| ensures Less(r[j], r[i]) <==> RankLess(RankOf(r[j]), RankOf(r[i])) {
      LessIsRankLess(r[j], r[i]);
    }
  }

  /** The updates of one rank, in the order in which us has them. */
  function OfRank(us: seq<TgUpdate>, rank: Rank): seq<TgUpdate> {
    if us == [] then []
    else OfRank(us[..|us| - 1], rank) + if RankOf(us[|us| - 1]) == rank then [us[|us| - 1]] else []
  }

  ghost predicate KeepsRanks(r: seq<TgUpdate>, us: seq<TgUpdate>) {
    forall u :: OfRank(r, RankOf(u)) == OfRank(us, RankOf(u))
  }

  lemma {:induction false} TiesAreOfRank(us: seq<TgUpdate>, u: TgUpdate)
    ensures Ties(us, u, Less) == OfRank(us, RankOf(u))
  {
    if us != [] {
      TiesAreOfRank(us[..|us| - 1], u);
      TiedIsSameRank(us[|us| - 1], u);
    }
  }

  /** What the sort returns is the one arrangement of us that ascends by rank and keeps, among
      updates of equal rank (in particular among all those without a counter), the arrival
      order. */
  lemma SortIsTheStableArrangement(us: seq<TgUpdate>, r: seq<TgUpdate>)
    ensures r == StableSort(us, Less) <==> AscendsByRank(r) && KeepsRanks(r, us)
  {
    LessIsStrictWeakOrder();
    StableSortUnique(r, us, Less);
    OrderedIsAscending(r);
    forall u ensures Ties(r, u, Less) == OfRank(r, RankOf(u)) && Ties(us, u, Less) == OfRank(us, RankOf(u)) {
      TiesAreOfRank(r, u);
      TiesAreOfRank(us, u);
    }
  }

  /** The batch is sorted in place, by swaps of neighbours. */
  method SortUpdatesByPts(a: array<TgUpdate>)
    modifies a
    ensures a[..] == StableSort(old(a[..]), Less)
  {
    ghost var was := a[..];
    for i := 0 to a.Length
      invariant a[..i] == StableSort(was[..i], Less)
      invariant a[i..] == was[i..]
    {
      assert was[..i + 1][..i] == was[..i] && a[i] == a[i..][0] == was[i];
      assert a[i + 1..] == a[i..][1..] == was[i + 1..];
      SinkLast(a, i);
    }
    assert a[..a.Length] == a[..] && was[..a.Length] == was;
  }

  /** Moves element i left to its place among the sorted elements before it. */
  method SinkLast(a: array<TgUpdate>, i: nat)
    requires i < a.Length
    modifies a
    ensures a[..i + 1] == Insert(old(a[..i]), old(a[i]), Less)
    ensures a[i + 1..] == old(a[i + 1..])
  {
    ghost var sorted, x := a[..i], a[i];
    var j := i;
    assert sorted[..i] == sorted;
    while j > 0 && Less(a[j], a[j - 1])
      invariant 0 <= j <= i && a[j] == x
      invariant forall m :: 0 <= m < j ==> a[m] == sorted[m]
      invariant forall m :: j < m <= i ==> a[m] == sorted[m - 1]
      invariant a[i + 1..] == old(a[i + 1..])
      invariant Insert(sorted, x, Less) == Insert(sorted[..j], x, Less) + sorted[j..]
    {
      InsertPast(sorted, x, j);
      Swap(a, j - 1, j);
      j := j - 1;
    }
    InsertHere(sorted, x, j);
    assert a[..i + 1] == sorted[..j] + [x] + sorted[j..];
  }

  method Swap(a: array<TgUpdate>, i: nat, j: nat)
    requires i < a.Length && j < a.Length
    modifies a
    ensures a[i] == old(a[j]) && a[j] == old(a[i])
    ensures forall m :: 0 <= m < a.Length && m != i && m != j ==> a[m] == old(a[m])
  {
    a[i], a[j] := a[j], a[i];
  }

  lemma InsertHere(sorted: seq<TgUpdate>, x: TgUpdate, j: nat)
    requires j <= |sorted| && (j > 0 ==> !Less(x, sorted[j - 1]))
    ensures Insert(sorted[..j], x, Less) == sorted[..j] + [x]
  {
  }

  lemma InsertPast(sorted: seq<TgUpdate>, x: TgUpdate, j: nat)
    requires 0 < j <= |sorted| && Less(x, sorted[j - 1])
    ensures Insert(sorted[..j], x, Less) + sorted[j..] == Insert(sorted[..j - 1], x, Less) + sorted[j - 1..]
  {
    assert sorted[..j][..j - 1] == sorted[..j - 1];
    assert sorted[j - 1..] == [sorted[j - 1]] + sorted[j..];
  }
}
