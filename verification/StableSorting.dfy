/** Stable sorting by a strict weak order: the promise of sort.SliceStable and sort.Stable,
    which the sequencer uses on its pending list and the batch code on a batch of updates.

    `StableSort` is the reference function.  `SortsStably` and `StableSortUnique` show that the
    promise leaves no choice: any sequence that is ordered and keeps every class of ties in
    arrival order is this one, so the algorithm inside the Go library does not matter.
 */
module StableSorting {

  /** Irreflexive, transitive, and with a transitive incomparability relation. */
  ghost predicate StrictWeakOrder<T(!new)>(less: (T, T) -> bool) {
    && (forall x :: !less(x, x))
    && (forall x, y, z :: less(x, y) && less(y, z) ==> less(x, z))
    && (forall x, y, z :: !less(x, y) && !less(y, z) ==> !less(x, z))
  }

  /** Moves x left past every element it is strictly below, and no further. */
  function Insert<T>(s: seq<T>, x: T, less: (T, T) -> bool): seq<T> {
    if s == [] || !less(x, s[|s| - 1]) then s + [x]
    else Insert(s[..|s| - 1], x, less) + [s[|s| - 1]]
  }

  function StableSort<T>(s: seq<T>, less: (T, T) -> bool): seq<T> {
    if s == [] then [] else Insert(StableSort(s[..|s| - 1], less), s[|s| - 1], less)
  }

  ghost predicate Ordered<T>(s: seq<T>, less: (T, T) -> bool) {
    forall i, j :: 0 <= i < j < |s| ==> !less(s[j], s[i])
  }

  predicate Tied<T>(x: T, y: T, less: (T, T) -> bool) {
    !less(x, y) && !less(y, x)
  }

  /** The elements of s tied with x, in the order in which s has them. */
  function Ties<T>(s: seq<T>, x: T, less: (T, T) -> bool): seq<T> {
    if s == [] then []
    else Ties(s[..|s| - 1], x, less) + if Tied(s[|s| - 1], x, less) then [s[|s| - 1]] else []
  }

  /** Every class of ties appears in r exactly as in s. */
  ghost predicate KeepsTies<T(!new)>(r: seq<T>, s: seq<T>, less: (T, T) -> bool) {
    forall x :: Ties(r, x, less) == Ties(s, x, less)
  }

  ghost predicate IsStableSortOf<T(!new)>(r: seq<T>, s: seq<T>, less: (T, T) -> bool) {
    Ordered(r, less) && KeepsTies(r, s, less)
  }

  lemma {:induction false} InsertMembers<T>(s: seq<T>, x: T, less: (T, T) -> bool)
    ensures multiset(Insert(s, x, less)) == multiset(s) + multiset{x}
  {
    if s == [] || !less(x, s[|s| - 1]) {
    } else {
      InsertMembers(s[..|s| - 1], x, less);
      assert s == s[..|s| - 1] + [s[|s| - 1]];
    }
  }

  lemma {:induction false} SortPermutes<T>(s: seq<T>, less: (T, T) -> bool)
    ensures multiset(StableSort(s, less)) == multiset(s)
  {
    if s == [] {
    } else {
      var front := s[..|s| - 1];
      SortPermutes(front, less);
      InsertMembers(StableSort(front, less), s[|s| - 1], less);
      assert s == front + [s[|s| - 1]];
    }
  }

  lemma SortMembers<T(!new)>(s: seq<T>, less: (T, T) -> bool)
    ensures multiset(StableSort(s, less)) == multiset(s)
    ensures forall x :: x in StableSort(s, less) <==> x in s
  {
    SortPermutes(s, less);
    forall x ensures x in StableSort(s, less) <==> x in s {
      assert x in multiset(StableSort(s, less)) <==> x in multiset(s);
    }
  }

  lemma {:induction false} InsertOrdered<T(!new)>(s: seq<T>, x: T, less: (T, T) -> bool)
    requires StrictWeakOrder(less) && Ordered(s, less)
    ensures Ordered(Insert(s, x, less), less)
  {
    if s == [] {
    } else if !less(x, s[|s| - 1]) {
      var last := s[|s| - 1];
      forall i | 0 <= i < |s| ensures !less(x, s[i]) {
        assert !less(last, s[i]);
      }
    } else {
      var front, last := s[..|s| - 1], s[|s| - 1];
      InsertOrdered(front, x, less);
      InsertMembers(front, x, less);
      var r := Insert(front, x, less);
      forall i | 0 <= i < |r| ensures !less(last, r[i]) {
        assert r[i] in multiset(r);
        assert r[i] == x || r[i] in front;
      }
    }
  }

  lemma {:induction false} TiesOfConcat<T>(a: seq<T>, b: seq<T>, x: T, less: (T, T) -> bool)
    ensures Ties(a + b, x, less) == Ties(a, x, less) + Ties(b, x, less)
  {
    if b == [] {
      assert a + b == a;
    } else {
      assert (a + b)[..|a + b| - 1] == a + b[..|b| - 1];
      TiesOfConcat(a, b[..|b| - 1], x, less);
    }
  }

  /** An inserted element ends up behind every element it is tied with. */
  lemma {:induction false} InsertTies<T(!new)>(s: seq<T>, x: T, y: T, less: (T, T) -> bool)
    requires StrictWeakOrder(less)
    ensures Ties(Insert(s, x, less), y, less) == Ties(s + [x], y, less)
  {
    if s == [] || !less(x, s[|s| - 1]) {
    } else {
      var front, last := s[..|s| - 1], s[|s| - 1];
      assert s == front + [last];
      calc {
        Ties(Insert(s, x, less), y, less);
        Ties(Insert(front, x, less) + [last], y, less);
        { TiesOfConcat(Insert(front, x, less), [last], y, less); }
        Ties(Insert(front, x, less), y, less) + Ties([last], y, less);
        { InsertTies(front, x, y, less); }
        Ties(front + [x], y, less) + Ties([last], y, less);
        { TiesOfConcat(front, [x], y, less); }
        Ties(front, y, less) + Ties([x], y, less) + Ties([last], y, less);
        { TiesOfPair(x, last, y, less); }
        Ties(front, y, less) + Ties([last], y, less) + Ties([x], y, less);
        { TiesOfConcat(front, [last], y, less); }
        Ties(s, y, less) + Ties([x], y, less);
        { TiesOfConcat(s, [x], y, less); }
        Ties(s + [x], y, less);
      }
    }
  }

  lemma TiesOfPair<T(!new)>(x: T, z: T, y: T, less: (T, T) -> bool)
    requires StrictWeakOrder(less)
    ensures less(x, z) ==> Ties([x], y, less) == [] || Ties([z], y, less) == []
  {
    if Tied(x, y, less) && Tied(z, y, less) {
      assert !less(x, y) && !less(y, z);
    }
  }

  lemma {:induction false} SortsStably<T(!new)>(s: seq<T>, less: (T, T) -> bool)
    requires StrictWeakOrder(less)
    ensures IsStableSortOf(StableSort(s, less), s, less)
  {
    if s == [] {
    } else {
      var front, last := s[..|s| - 1], s[|s| - 1];
      SortsStably(front, less);
      InsertOrdered(StableSort(front, less), last, less);
      assert s == front + [last];
      forall x ensures Ties(StableSort(s, less), x, less) == Ties(s, x, less) {
        InsertTies(StableSort(front, less), last, x, less);
        TiesOfConcat(StableSort(front, less), [last], x, less);
        TiesOfConcat(front, [last], x, less);
      }
    }
  }

  lemma {:induction false} TiesMember<T>(s: seq<T>, x: T, less: (T, T) -> bool, i: nat)
    requires i < |Ties(s, x, less)|
    ensures Ties(s, x, less)[i] in s && Tied(Ties(s, x, less)[i], x, less)
  {
    if s == [] {
    } else if i < |Ties(s[..|s| - 1], x, less)| {
      TiesMember(s[..|s| - 1], x, less, i);
    }
  }

  lemma LastIsTied<T(!new)>(s: seq<T>, less: (T, T) -> bool)
    requires StrictWeakOrder(less) && s != []
    ensures var last := s[|s| - 1];
      var ties := Ties(s, last, less);
      ties != [] && ties[|ties| - 1] == last
  {
    assert Tied(s[|s| - 1], s[|s| - 1], less);
  }

  lemma SameFront<T>(a: seq<T>, b: seq<T>, end: seq<T>)
    requires a + end == b + end
    ensures a == b
  {
    assert a == (a + end)[..|a|] && b == (b + end)[..|b|];
  }

  lemma SameLast<T(!new)>(r: seq<T>, t: seq<T>, less: (T, T) -> bool)
    requires StrictWeakOrder(less) && Ordered(r, less) && Ordered(t, less) && KeepsTies(r, t, less) && r != []
    ensures t != [] && r[|r| - 1] == t[|t| - 1]
  {
    var last := r[|r| - 1];
    LastIsTied(r, less);
    TiesMember(t, last, less, |Ties(t, last, less)| - 1);
    assert last in t;
    var tail := t[|t| - 1];
    LastIsTied(t, less);
    TiesMember(r, tail, less, |Ties(r, tail, less)| - 1);
    assert tail in r;
    assert !less(tail, last) by {
      var k :| 0 <= k < |t| && t[k] == last;
    }
    assert !less(last, tail) by {
      var k :| 0 <= k < |r| && r[k] == tail;
    }
    assert Ties(t, last, less)[|Ties(t, last, less)| - 1] == tail;
  }

  lemma FrontsKeepTies<T(!new)>(r: seq<T>, t: seq<T>, less: (T, T) -> bool)
    requires KeepsTies(r, t, less) && r != [] && t != [] && r[|r| - 1] == t[|t| - 1]
    ensures KeepsTies(r[..|r| - 1], t[..|t| - 1], less)
  {
    var last, r', t' := r[|r| - 1], r[..|r| - 1], t[..|t| - 1];
    forall x ensures Ties(r', x, less) == Ties(t', x, less) {
      var end := if Tied(last, x, less) then [last] else [];
      assert Ties(r, x, less) == Ties(r', x, less) + end;
      assert Ties(t, x, less) == Ties(t', x, less) + end;
      SameFront(Ties(r', x, less), Ties(t', x, less), end);
    }
  }

  /** Two ordered sequences with the same ties are the same sequence. */
  lemma {:induction false} OrderedTiesUnique<T(!new)>(r: seq<T>, t: seq<T>, less: (T, T) -> bool)
    requires StrictWeakOrder(less)
    requires Ordered(r, less) && Ordered(t, less)
    requires KeepsTies(r, t, less)
    ensures r == t
  {
    if r == [] {
      if t != [] {
        LastIsTied(t, less);
      }
    } else {
      SameLast(r, t, less);
      var r', t' := r[..|r| - 1], t[..|t| - 1];
      FrontsKeepTies(r, t, less);
      OrderedTiesUnique(r', t', less);
      assert r == r' + [r[|r| - 1]] && t == t' + [t[|t| - 1]];
    }
  }

  lemma StableSortUnique<T(!new)>(r: seq<T>, s: seq<T>, less: (T, T) -> bool)
    requires StrictWeakOrder(less)
    ensures IsStableSortOf(r, s, less) <==> r == StableSort(s, less)
  {
    SortsStably(s, less);
    if IsStableSortOf(r, s, less) {
      var t := StableSort(s, less);
      forall x ensures Ties(r, x, less) == Ties(t, x, less) {
        assert Ties(r, x, less) == Ties(s, x, less);
      }
      OrderedTiesUnique(r, t, less);
    }
  }
}
