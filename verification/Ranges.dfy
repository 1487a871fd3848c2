/** Sets of addresses kept as a sorted vector of coalesced ranges. */
module Ranges {

  datatype Range = Range(start: nat, size: nat) {
    function End(): nat { start + size }

    predicate Less(other: Range) { start < other.start || (start == other.start && size < other.size) }

    predicate Includes(p: nat): (b: bool)
      ensures b <==> start <= p < start + size
    {
      start <= p && p - start < size
    }

    predicate IncludesRange(other: Range) {
      other.size == 0 || (start <= other.start && other.start - start + other.size <= size)
    }
  }

  /** Some range of `v` includes `p`. */
  predicate Covers(v: seq<Range>, p: nat) { exists i :: 0 <= i < |v| && v[i].Includes(p) }

  /** Sorted, with at least one point between any two ranges. */
  predicate Separated(v: seq<Range>) { forall i, j :: 0 <= i < j < |v| ==> v[i].End() < v[j].start }

  predicate NonEmpty(v: seq<Range>) { forall i :: 0 <= i < |v| ==> v[i].size > 0 }

  predicate Sorted(v: seq<Range>) { forall i, j :: 0 <= i < j < |v| ==> v[i].start <= v[j].start }

  lemma CoversConcat(a: seq<Range>, b: seq<Range>, p: nat)
    ensures Covers(a + b, p) <==> Covers(a, p) || Covers(b, p)
  {
    if Covers(a, p) {
      var i :| 0 <= i < |a| && a[i].Includes(p);
      assert (a + b)[i].Includes(p);
    }
    if Covers(b, p) {
      var i :| 0 <= i < |b| && b[i].Includes(p);
      assert (a + b)[|a| + i].Includes(p);
    }
  }

  lemma CoversOne(r: Range, p: nat)
    ensures Covers([r], p) <==> r.Includes(p)
  {
    assert [r][0] == r;
  }

  lemma CoversAppend(a: seq<Range>, r: Range, p: nat)
    ensures Covers(a + [r], p) <==> Covers(a, p) || r.Includes(p)
  {
    CoversConcat(a, [r], p);
    CoversOne(r, p);
  }

  /** Ranges that are neither sorted apart nor touching merge into one with the same points. */
  function Merge(prev: Range, curr: Range): Range
    requires prev.start <= curr.start
  {
    Range(prev.start, var n := curr.start + curr.size - prev.start; if prev.size < n then n else prev.size)
  }

  lemma MergePoints(prev: Range, curr: Range, p: nat)
    requires prev.start <= curr.start && curr.start - prev.start <= prev.size
    ensures Merge(prev, curr).Includes(p) <==> prev.Includes(p) || curr.Includes(p)
  {
  }

  lemma CoversLast(a: seq<Range>, r: Range, r': Range, p: nat)
    requires a != [] && a[|a| - 1] == r
    ensures Covers(a[|a| - 1 := r'], p) <==> Covers(a[..|a| - 1], p) || r'.Includes(p)
    ensures Covers(a, p) <==> Covers(a[..|a| - 1], p) || r.Includes(p)
  {
    var n := |a| - 1;
    assert a[n := r'] == a[..n] + [r'];
    assert a == a[..n] + [r];
    CoversAppend(a[..n], r', p);
    CoversAppend(a[..n], r, p);
  }

  /** The two cases of a turn of the coalescing loop, as a function of the finished prefix. */
  function Coalesce(done: seq<Range>, curr: Range): seq<Range>
    requires done != [] && done[|done| - 1].start <= curr.start
  {
    var prev := done[|done| - 1];
    if curr.start - prev.start <= prev.size then done[|done| - 1 := Merge(prev, curr)] else done + [curr]
  }

  lemma CoalesceAdds(done: seq<Range>, curr: Range, p: nat)
    requires done != [] && done[|done| - 1].start <= curr.start
    ensures Covers(Coalesce(done, curr), p) <==> Covers(done, p) || curr.Includes(p)
  {
    var prev := done[|done| - 1];
    if curr.start - prev.start <= prev.size {
      MergePoints(prev, curr, p);
      CoversLast(done, prev, Merge(prev, curr), p);
    } else {
      CoversAppend(done, curr, p);
    }
  }

  /** A turn of the coalescing loop keeps the finished prefix separated and adds the points of one range. */
  lemma CoalesceStep(done: seq<Range>, w: seq<Range>, j: nat)
    requires done != [] && Separated(done) && 0 < j < |w| && Sorted(w) && done[|done| - 1].start <= w[j - 1].start
    requires forall p: nat :: Covers(done, p) <==> Covers(w[..j], p)
    ensures done[|done| - 1].start <= w[j].start
    ensures var next := Coalesce(done, w[j]);
      && Separated(next) && next[|next| - 1].start <= w[j].start
      && forall p: nat :: Covers(next, p) <==> Covers(w[..j + 1], p)
  {
    var curr := w[j];
    assert w[j - 1].start <= curr.start;
    assert w[..j + 1] == w[..j] + [curr];
    forall p: nat
      ensures Covers(Coalesce(done, curr), p) <==> Covers(w[..j] + [curr], p)
    {
      CoalesceAdds(done, curr, p);
      CoversAppend(w[..j], curr, p);
    }
  }

  /** There is a gap after every range. */
  lemma EndUncovered(v: seq<Range>, i: nat)
    requires Separated(v) && i < |v|
    ensures !Covers(v, v[i].End())
  {
    forall j | 0 <= j < |v|
      ensures !v[j].Includes(v[i].End())
    {
      assert i < j ==> v[i].End() < v[j].start;
      assert j < i ==> v[j].End() < v[i].start;
    }
  }

  /** Every point of a nonempty query is covered exactly when one range includes the whole query. */
  lemma CoveredByOne(v: seq<Range>, q: Range)
    requires Separated(v) && q.size > 0
    ensures (exists i :: 0 <= i < |v| && v[i].IncludesRange(q)) <==> (forall p :: q.Includes(p) ==> Covers(v, p))
  {
    if exists i :: 0 <= i < |v| && v[i].IncludesRange(q) {
      var i :| 0 <= i < |v| && v[i].IncludesRange(q);
      assert forall p :: q.Includes(p) ==> v[i].Includes(p);
    }
    if forall p :: q.Includes(p) ==> Covers(v, p) {
      assert q.Includes(q.start);
      var i :| 0 <= i < |v| && v[i].Includes(q.start);
      EndUncovered(v, i);
      var end := v[i].End();
      assert !q.Includes(end);
      assert v[i].IncludesRange(q);
    }
  }

  // ---- remove ------------------------------------------------------------------------------------

  /** What remove keeps of one range: what is left of the first removed point and right of the last. */
  function Remainders(r: Range, cut: Range): seq<Range>
    requires cut.size > 0
  {
    (if r.Includes(cut.start) && cut.start > r.start then [Range(r.start, cut.start - r.start)] else []) +
    (if r.Includes(cut.End() - 1) && r.End() > cut.End() then [Range(cut.End(), r.End() - cut.End())] else [])
  }

  /** The range contains the first or the last removed point. */
  predicate Touches(r: Range, cut: Range)
    requires cut.size > 0
  {
    r.start <= cut.start < r.start + r.size || r.start < cut.start + cut.size <= r.start + r.size
  }

  lemma RemaindersPoints(r: Range, cut: Range, p: nat)
    requires cut.size > 0
    ensures Covers(Remainders(r, cut), p) <==> Touches(r, cut) && r.Includes(p) && !cut.Includes(p)
  {
    var a := if r.Includes(cut.start) && cut.start > r.start then [Range(r.start, cut.start - r.start)] else [];
    var b := if r.Includes(cut.End() - 1) && r.End() > cut.End() then [Range(cut.End(), r.End() - cut.End())] else [];
    CoversConcat(a, b, p);
    CoversOne(Range(r.start, if cut.start > r.start then cut.start - r.start else 0), p);
    CoversOne(Range(cut.End(), if r.End() > cut.End() then r.End() - cut.End() else 0), p);
  }

  /** The points that remove keeps: those of the ranges it touches, minus the removed ones. */
  ghost predicate KeptBy(v: seq<Range>, cut: Range, p: nat)
    requires cut.size > 0
  {
    !cut.Includes(p) && exists i :: 0 <= i < |v| && Touches(v[i], cut) && v[i].Includes(p)
  }

  predicate Disjoint(r: Range, cut: Range) { r.End() <= cut.start || cut.End() <= r.start }

  /** remove is set difference if and only if no nonempty range is disjoint from the removed one. */
  lemma RemoveIsDifferenceIff(v: seq<Range>, cut: Range)
    requires cut.size > 0 && Separated(v)
    ensures (forall p: nat :: KeptBy(v, cut, p) <==> Covers(v, p) && !cut.Includes(p))
       <==> (forall i :: 0 <= i < |v| && v[i].size > 0 ==> !Disjoint(v[i], cut))
  {
    if forall i :: 0 <= i < |v| && v[i].size > 0 ==> !Disjoint(v[i], cut) {
      forall p: nat
        ensures KeptBy(v, cut, p) <==> Covers(v, p) && !cut.Includes(p)
      {
        if Covers(v, p) && !cut.Includes(p) {
          var i :| 0 <= i < |v| && v[i].Includes(p);
          assert Touches(v[i], cut);
        }
      }
    } else {
      var i :| 0 <= i < |v| && v[i].size > 0 && Disjoint(v[i], cut);
      OnlyHolder(v, i);
      assert v[i].Includes(v[i].start) && Covers(v, v[i].start);
      assert !KeptBy(v, cut, v[i].start);
    }
  }

  /**
   * The input on which remove is not set difference: removing the second of two ranges loses the
   * first one as well, so that its fresh memory is no longer flushed by the next commit.
   */
  lemma RemoveForgets()
    ensures var v, cut := [Range(0x1000, 0x1000), Range(0x4000, 0x1000)], Range(0x4000, 0x1000);
      Separated(v) && Covers(v, 0x1000) && !cut.Includes(0x1000) && !KeptBy(v, cut, 0x1000)
  {
    var v := [Range(0x1000, 0x1000), Range(0x4000, 0x1000)];
    assert v[0].Includes(0x1000);
  }

  lemma OnlyHolder(v: seq<Range>, i: nat)
    requires Separated(v) && i < |v| && v[i].size > 0
    ensures forall j :: 0 <= j < |v| && v[j].Includes(v[i].start) ==> j == i
  {
  }

  /** The coalescing loop of insert, in place on a copy of the sorted vector. */
  method CoalesceAll(w: seq<Range>) returns (v: seq<Range>)
    requires w != [] && Sorted(w)
    ensures Separated(v) && (NonEmpty(w) ==> NonEmpty(v))
    ensures forall p: nat :: Covers(v, p) <==> Covers(w, p)
  {
    var a := w;
    var l := 0;
    var j := 1;
    while j < |a|
      invariant 0 <= l < j <= |a| == |w|
      invariant a[j..] == w[j..]
      invariant Separated(a[..l + 1]) && (NonEmpty(w) ==> NonEmpty(a[..l + 1]))
      invariant a[l].start <= w[j - 1].start
      invariant forall p: nat :: Covers(a[..l + 1], p) <==> Covers(w[..j], p)
    {
      var prev, curr := a[l], a[j];
      assert curr == w[j];
      ghost var was := a[..l + 1];
      CoalesceStep(was, w, j);
      if curr.start - prev.start <= prev.size {
        a := a[l := Merge(prev, curr)];
      } else {
        l := l + 1;
        a := a[l := curr];
      }
      assert a[..l + 1] == Coalesce(was, curr);
      j := j + 1;
    }
    assert w[..|a|] == w;
    v := a[..l + 1];
  }

  class RangeSet {
    var v: seq<Range>

    ghost predicate Valid()
      reads this
    {
      Separated(v)
    }

    constructor ()
      ensures Valid() && v == []
    {
      v := [];
    }

    method Clear()
      modifies this
      ensures Valid() && v == []
    {
      v := [];
    }

    /** Inserts [start, start + size): the new set is the union, still sorted and coalesced. */
    method Insert(start: nat, size: nat)
      requires Valid()
      modifies this
      ensures Valid()
      ensures forall p: nat :: Covers(v, p) <==> Covers(old(v), p) || start <= p < start + size
      ensures size > 0 && NonEmpty(old(v)) ==> NonEmpty(v)
    {
      var r := Range(start, size);
      var i := 0;
      while i < |v| && !r.Less(v[i])
        invariant 0 <= i <= |v|
        invariant forall k :: 0 <= k < i ==> v[k].start <= start
      {
        i := i + 1;
      }
      InsertedSorted(v, i, r);
      forall p: nat
        ensures Covers(v[..i] + [r] + v[i..], p) <==> Covers(v, p) || r.Includes(p)
      {
        CoversInserted(v, i, r, p);
      }
      v := CoalesceAll(v[..i] + [r] + v[i..]);
    }

    /** find(point) */
    method FindPoint(p: nat) returns (found: bool)
      ensures found <==> Covers(v, p)
    {
      for i := 0 to |v|
        invariant forall k :: 0 <= k < i ==> !v[k].Includes(p)
      {
        if v[i].Includes(p) {
          return true;
        }
      }
      return false;
    }

    /** find(start, size): every point of the query is in the set. */
    method Find(start: nat, size: nat) returns (found: bool)
      requires Valid()
      ensures found <==> forall p: nat :: start <= p < start + size ==> Covers(v, p)
    {
      if size == 0 {
        return true;
      }
      var q := Range(start, size);
      CoveredByOne(v, q);
      for i := 0 to |v|
        invariant forall k :: 0 <= k < i ==> !v[k].IncludesRange(q)
      {
        if v[i].IncludesRange(q) {
          return true;
        }
      }
      return false;
    }

    /** Removes [start, start + size), and with it every range that contains neither end of it. */
    method Remove(start: nat, size: nat)
      requires Valid()
      modifies this
      ensures Valid()
      ensures size == 0 ==> v == old(v)
      ensures size > 0 ==> forall p: nat :: Covers(v, p) <==> KeptBy(old(v), Range(start, size), p)
      ensures size > 0 ==> NonEmpty(v)
    {
      if size == 0 {
        return;
      }
      var cut := Range(start, size);
      var w: seq<Range> := [];
      for i := 0 to |v|
        invariant v == old(v)
        invariant Separated(w) && NonEmpty(w)
        invariant AllBefore(w, v, i)
        invariant forall p: nat :: Covers(w, p) <==> KeptBy(v[..i], cut, p)
      {
        var curr := v[i];
        ghost var was := w;
        if curr.Includes(cut.start) {
          var left := Range(curr.start, cut.start - curr.start);
          if left.size > 0 {
            w := w + [left];
          }
        }
        if curr.Includes(cut.End() - 1) {
          var right := Range(cut.End(), curr.End() - cut.End());
          if right.size > 0 {
            w := w + [right];
          }
        }
        assert w == was + Remainders(curr, cut);
        NextKept(was, v[..i], curr, cut);
        NextSeparated(was, v, i, cut);
        assert v[..i + 1] == v[..i] + [curr];
      }
      assert v[..|v|] == v;
      v := w;
    }
  }

  /** The ranges of `w` end before those of `v` from `i` on start. */
  predicate AllBefore(w: seq<Range>, v: seq<Range>, i: nat) {
    forall k, r :: 0 <= k < |w| && i <= r < |v| ==> w[k].End() < v[r].start
  }

  /** What remains of the next range lies between what remains of the others. */
  lemma NextSeparated(w: seq<Range>, v: seq<Range>, i: nat, cut: Range)
    requires cut.size > 0 && Separated(v) && i < |v| && Separated(w) && NonEmpty(w) && AllBefore(w, v, i)
    ensures var w' := w + Remainders(v[i], cut); Separated(w') && NonEmpty(w') && AllBefore(w', v, i + 1)
  {
    var rest := Remainders(v[i], cut);
    assert forall k :: 0 <= k < |rest| ==> v[i].start <= rest[k].start && rest[k].End() <= v[i].End();
    assert Separated(rest) && NonEmpty(rest);
  }

  /** What remains of the next range is added to what remains of those before it. */
  lemma NextKept(w: seq<Range>, a: seq<Range>, r: Range, cut: Range)
    requires cut.size > 0 && forall p: nat :: Covers(w, p) <==> KeptBy(a, cut, p)
    ensures forall p: nat :: Covers(w + Remainders(r, cut), p) <==> KeptBy(a + [r], cut, p)
  {
    forall p: nat
      ensures Covers(w + Remainders(r, cut), p) <==> KeptBy(a + [r], cut, p)
    {
      CoversConcat(w, Remainders(r, cut), p);
      RemaindersPoints(r, cut, p);
      KeptAppend(a, r, cut, p);
    }
  }

  lemma KeptAppend(a: seq<Range>, r: Range, cut: Range, p: nat)
    requires cut.size > 0
    ensures KeptBy(a + [r], cut, p) <==> KeptBy(a, cut, p) || (!cut.Includes(p) && Touches(r, cut) && r.Includes(p))
  {
    if KeptBy(a, cut, p) {
      var i :| 0 <= i < |a| && Touches(a[i], cut) && a[i].Includes(p);
      assert (a + [r])[i] == a[i];
    }
    assert (a + [r])[|a|] == r;
  }

  lemma InsertedSorted(v: seq<Range>, i: nat, r: Range)
    requires Separated(v) && i <= |v|
    requires forall k :: 0 <= k < i ==> v[k].start <= r.start
    requires i < |v| ==> r.Less(v[i])
    ensures Sorted(v[..i] + [r] + v[i..])
  {
  }

  lemma CoversInserted(v: seq<Range>, i: nat, r: Range, p: nat)
    requires i <= |v|
    ensures Covers(v[..i] + [r] + v[i..], p) <==> Covers(v, p) || r.Includes(p)
  {
    CoversConcat(v[..i] + [r], v[i..], p);
    CoversAppend(v[..i], r, p);
    CoversConcat(v[..i], v[i..], p);
    assert v == v[..i] + v[i..];
  }
}
