/** The list of open gaps: ranges of a counter whose updates have not arrived yet. */
module GapBuffers {
  import opened Updates

  /** The half-open range [from, to). */
  datatype Gap = Gap(from: int, to: int) {
    predicate Fits<V>(u: Update<V>) { from <= u.Start() && to >= u.End() }
    function Size(): int { to - from }
  }

  /** The index of the first gap that u fits into, or |gaps|. */
  function FirstFit<V>(gaps: seq<Gap>, u: Update<V>): (i: nat)
    ensures i <= |gaps|
    ensures i < |gaps| ==> gaps[i].Fits(u)
    ensures forall j :: 0 <= j < i ==> !gaps[j].Fits(u)
  {
    if gaps == [] || gaps[0].Fits(u) then 0 else 1 + FirstFit(gaps[1..], u)
  }

  predicate Accepts<V>(gaps: seq<Gap>, u: Update<V>) {
    FirstFit(gaps, u) < |gaps|
  }

  /** What is left of gap g on both sides of u. */
  function Split<V>(g: Gap, u: Update<V>): seq<Gap> {
    (if g.from < u.Start() then [Gap(g.from, u.Start())] else [])
    + (if g.to > u.End() then [Gap(u.End(), g.to)] else [])
  }

  /** The gaps after u has been offered to them. */
  function Consumed<V>(gaps: seq<Gap>, u: Update<V>): seq<Gap> {
    var i := FirstFit(gaps, u);
    if i == |gaps| then gaps else gaps[..i] + gaps[i + 1..] + Split(gaps[i], u)
  }

  function ConsumedAll<V>(gaps: seq<Gap>, us: seq<Update<V>>): seq<Gap> {
    if us == [] then gaps else Consumed(ConsumedAll(gaps, us[..|us| - 1]), us[|us| - 1])
  }

  /** Appending the pieces first and then dropping the gap comes to the same. */
  lemma ConsumedInPlace<V>(gaps: seq<Gap>, u: Update<V>, i: nat, all: seq<Gap>)
    requires i < |gaps| && gaps[i].Fits(u) && forall j :: 0 <= j < i ==> !gaps[j].Fits(u)
    requires all == gaps + Split(gaps[i], u)
    ensures all[..i] + all[i + 1..] == Consumed(gaps, u)
  {
    assert FirstFit(gaps, u) == i;
    assert all[..i] == gaps[..i] && all[i + 1..] == gaps[i + 1..] + Split(gaps[i], u);
  }

  class GapBuffer {
    var gaps: seq<Gap>

    constructor ()
      ensures gaps == []
    {
      gaps := [];
    }

    predicate Has()
      reads this
    {
      |gaps| > 0
    }

    method Clear()
      modifies this
      ensures gaps == []
    {
      gaps := [];
    }

    /** Enabling a second gap panics, so callers must not. */
    method Enable(from: int, to: int)
      requires !Has()
      modifies this
      ensures gaps == [Gap(from, to)]
    {
      gaps := gaps + [Gap(from, to)];
    }

    method Consume<V>(u: Update<V>) returns (accepted: bool)
      modifies this
      ensures gaps == Consumed(old(gaps), u)
      ensures accepted <==> exists i :: 0 <= i < |old(gaps)| && old(gaps)[i].Fits(u)
    {
      for i := 0 to |gaps|
        invariant gaps == old(gaps)
        invariant forall j :: 0 <= j < i ==> !gaps[j].Fits(u)
      {
        var g := gaps[i];
        if g.from <= u.Start() && g.to >= u.End() {
          if g.from < u.Start() {
            gaps := gaps + [Gap(g.from, u.Start())];
          }
          if g.to > u.End() {
            gaps := gaps + [Gap(u.End(), g.to)];
          }
          ConsumedInPlace(old(gaps), u, i, gaps);
          gaps := gaps[..i] + gaps[i + 1..];
          return true;
        }
      }
      return false;
    }
  }

  // ----- conservation -----

  function TotalSize(gaps: seq<Gap>): int {
    if gaps == [] then 0 else gaps[0].Size() + TotalSize(gaps[1..])
  }

  /** The updates of us that are accepted when they are offered to the gaps in turn. */
  function Accepted<V>(gaps: seq<Gap>, us: seq<Update<V>>): seq<Update<V>> {
    if us == [] then []
    else
      var last := |us| - 1;
      Accepted(gaps, us[..last])
      + if Accepts(ConsumedAll(gaps, us[..last]), us[last]) then [us[last]] else []
  }

  function TotalCount<V>(us: seq<Update<V>>): int {
    if us == [] then 0 else TotalCount(us[..|us| - 1]) + us[|us| - 1].count
  }

  lemma {:induction false} TotalSizeConcat(a: seq<Gap>, b: seq<Gap>)
    ensures TotalSize(a + b) == TotalSize(a) + TotalSize(b)
  {
    if a == [] {
      assert a + b == b;
    } else {
      assert (a + b)[1..] == a[1..] + b;
      TotalSizeConcat(a[1..], b);
    }
  }

  lemma SplitSize<V>(g: Gap, u: Update<V>)
    requires g.Fits(u)
    ensures TotalSize(Split(g, u)) == g.Size() - u.count
  {
    var left := if g.from < u.Start() then [Gap(g.from, u.Start())] else [];
    var right := if g.to > u.End() then [Gap(u.End(), g.to)] else [];
    TotalSizeConcat(left, right);
    assert Split(g, u) == left + right;
  }

  lemma RemoveSize(gaps: seq<Gap>, i: nat)
    requires i < |gaps|
    ensures TotalSize(gaps[..i] + gaps[i + 1..]) == TotalSize(gaps) - gaps[i].Size()
  {
    TotalSizeConcat(gaps[..i], gaps[i + 1..]);
    TotalSizeConcat(gaps[..i], gaps[i..]);
    assert gaps == gaps[..i] + gaps[i..];
    assert gaps[i..][1..] == gaps[i + 1..];
  }

  lemma ConsumeConserves<V>(gaps: seq<Gap>, u: Update<V>)
    ensures TotalSize(Consumed(gaps, u)) + (if Accepts(gaps, u) then u.count else 0) == TotalSize(gaps)
    ensures |Consumed(gaps, u)| <= |gaps| + if Accepts(gaps, u) then 1 else 0
  {
    var i := FirstFit(gaps, u);
    if i < |gaps| {
      TotalSizeConcat(gaps[..i] + gaps[i + 1..], Split(gaps[i], u));
      RemoveSize(gaps, i);
      SplitSize(gaps[i], u);
    }
  }

  /** However the updates fall, gap length is only ever traded for accepted counts, and every
      accepted update adds at most one gap. */
  lemma {:induction false} GapConservation<V>(from: int, to: int, us: seq<Update<V>>)
    ensures TotalSize(ConsumedAll([Gap(from, to)], us)) + TotalCount(Accepted([Gap(from, to)], us)) == to - from
    ensures |ConsumedAll([Gap(from, to)], us)| <= 1 + |Accepted([Gap(from, to)], us)|
  {
    var gaps := [Gap(from, to)];
    if us == [] {
      assert TotalSize(gaps) == to - from;
    } else {
      var front, last := us[..|us| - 1], us[|us| - 1];
      GapConservation(from, to, front);
      ConsumeConserves(ConsumedAll(gaps, front), last);
      if Accepts(ConsumedAll(gaps, front), last) {
        var acc := Accepted(gaps, us);
        assert acc[..|acc| - 1] == Accepted(gaps, front);
      } else {
        assert Accepted(gaps, us) == Accepted(gaps, front);
      }
    }
  }

  // ----- coverage -----

  /** Some gap contains the point x. */
  ghost predicate Covered(gaps: seq<Gap>, x: int) {
    exists g :: g in gaps && g.from <= x < g.to
  }

  ghost predicate Inside<V>(u: Update<V>, x: int) {
    u.Start() <= x < u.End()
  }

  /** Every gap is non-empty and no two of them overlap. */
  ghost predicate Separate(gaps: seq<Gap>) {
    && (forall i :: 0 <= i < |gaps| ==> gaps[i].from < gaps[i].to)
    && (forall i, j :: 0 <= i < j < |gaps| ==> gaps[i].to <= gaps[j].from || gaps[j].to <= gaps[i].from)
  }

  /** The gaps that an accepted update leaves alone, and the pieces of the one it splits. */
  lemma ConsumedMembers<V>(gaps: seq<Gap>, u: Update<V>)
    requires Separate(gaps) && Accepts(gaps, u)
    ensures var g := gaps[FirstFit(gaps, u)];
      forall h :: h in Consumed(gaps, u) <==> (h in gaps && h != g) || h in Split(g, u)
  {
    var i := FirstFit(gaps, u);
    var g, after := gaps[i], Consumed(gaps, u);
    forall h ensures h in after <==> (h in gaps && h != g) || h in Split(g, u) {
      if h in gaps && h != g {
        var k :| 0 <= k < |gaps| && gaps[k] == h;
        assert after[if k < i then k else k - 1] == h;
      }
      if h in gaps[..i] || h in gaps[i + 1..] {
        var k :| 0 <= k < |gaps| && k != i && gaps[k] == h;
        assert h.from < h.to;
      }
    }
  }

  lemma SplitUncovers<V>(g: Gap, u: Update<V>, x: int)
    requires g.Fits(u) && u.count >= 0
    ensures Covered(Split(g, u), x) <==> g.from <= x < g.to && !Inside(u, x)
  {
    if g.from <= x < u.Start() {
      assert Gap(g.from, u.Start()) in Split(g, u);
    }
    if u.End() <= x < g.to {
      assert Gap(u.End(), g.to) in Split(g, u);
    }
  }

  /** Only gap g can contain a point of g. */
  lemma SeparateCovers(gaps: seq<Gap>, g: Gap, h: Gap, x: int)
    requires Separate(gaps) && g in gaps && h in gaps && g != h
    ensures !(g.from <= x < g.to && h.from <= x < h.to)
  {
    var i :| 0 <= i < |gaps| && gaps[i] == g;
    var j :| 0 <= j < |gaps| && gaps[j] == h;
  }

  /** Accepting an update removes exactly its points. */
  lemma ConsumeUncovers<V>(gaps: seq<Gap>, u: Update<V>, x: int)
    requires Separate(gaps) && Accepts(gaps, u) && u.count >= 0
    ensures Covered(Consumed(gaps, u), x) <==> Covered(gaps, x) && !Inside(u, x)
  {
    ConsumedMembers(gaps, u);
    var g := gaps[FirstFit(gaps, u)];
    SplitUncovers(g, u, x);
    UncoveredBy(gaps, Consumed(gaps, u), Split(g, u), g, u, x);
  }

  lemma UncoveredBy<V>(gaps: seq<Gap>, after: seq<Gap>, split: seq<Gap>, g: Gap, u: Update<V>, x: int)
    requires Separate(gaps) && g in gaps && g.Fits(u)
    requires forall h :: h in after <==> (h in gaps && h != g) || h in split
    requires Covered(split, x) <==> g.from <= x < g.to && !Inside(u, x)
    ensures Covered(after, x) <==> Covered(gaps, x) && !Inside(u, x)
  {
    if Covered(after, x) {
      var h :| h in after && h.from <= x < h.to;
      if h !in split {
        SeparateCovers(gaps, g, h, x);
      }
    }
    if Covered(gaps, x) && !Inside(u, x) {
      var h :| h in gaps && h.from <= x < h.to;
      if h == g {
        var k :| k in split && k.from <= x < k.to;
        assert k in after;
      }
    }
  }

  ghost predicate Apart(g: Gap, h: Gap) {
    g.to <= h.from || h.to <= g.from
  }

  lemma SeparateAppend(gaps: seq<Gap>, i: nat, split: seq<Gap>)
    requires Separate(gaps) && i < |gaps| && Separate(split)
    requires forall h :: h in split ==> gaps[i].from <= h.from && h.to <= gaps[i].to
    ensures Separate(gaps[..i] + gaps[i + 1..] + split)
  {
    var rest := gaps[..i] + gaps[i + 1..];
    var after := rest + split;
    forall j, k | 0 <= j < k < |after| ensures Apart(after[j], after[k]) {
      var from := if j < i then j else j + 1;
      if k < |rest| {
        assert after[j] == gaps[from] && after[k] == gaps[if k < i then k else k + 1];
      } else {
        assert after[k] == split[k - |rest|] && after[k] in split;
        if j < |rest| {
          assert after[j] == gaps[from];
        } else {
          assert after[j] == split[j - |rest|];
        }
      }
    }
  }

  lemma ConsumeSeparate<V>(gaps: seq<Gap>, u: Update<V>)
    requires Separate(gaps) && u.count >= 0
    ensures Separate(Consumed(gaps, u))
  {
    var i := FirstFit(gaps, u);
    if i < |gaps| {
      SeparateAppend(gaps, i, Split(gaps[i], u));
    }
  }
}
