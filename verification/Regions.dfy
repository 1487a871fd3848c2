/** The bookkeeping of managed memory regions. */
module Regions {
  import R = Ranges

  datatype Region = Region(base: nat, size: nat, fileId: nat) {
    function End(): nat { base + size }

    predicate IncludesAddr(a: int) { base <= a < End() }

    /** does_include(region): the first and the last byte. */
    predicate Includes(other: Region) { IncludesAddr(other.base) && IncludesAddr(other.End() - 1) }

    predicate Overlaps(other: Region) { IncludesAddr(other.base) || other.IncludesAddr(base) }
  }

  /** The address is one of the region's bytes. */
  predicate Within(r: Region, a: int) { r.base <= a < r.base + r.size }

  /** Some region has the byte at `a`. */
  predicate Covered(rs: seq<Region>, a: nat) { exists i :: 0 <= i < |rs| && Within(rs[i], a) }

  /** [base, base + size) is part of the region. */
  predicate Contains(r: Region, base: nat, size: nat) { r.base <= base && base + size <= r.base + r.size }

  /** does_include(region) of a region that is not empty: all its bytes. */
  lemma IncludesIff(r: Region, other: Region)
    requires other.size > 0
    ensures r.Includes(other) <==> Contains(r, other.base, other.size)
    ensures r.Includes(other) <==> forall a :: Within(other, a) ==> Within(r, a)
  {
    assert Within(other, other.base) && Within(other, other.base + other.size - 1);
  }

  /** does_overlap_with of regions that are not empty: some common byte. */
  lemma OverlapsIff(r: Region, other: Region)
    requires r.size > 0 && other.size > 0
    ensures r.Overlaps(other) <==> exists a :: Within(r, a) && Within(other, a)
  {
    assert Within(r, r.base) && Within(other, other.base);
  }

  predicate Apart(rs: seq<Region>) {
    forall i, j {:trigger rs[i].Overlaps(rs[j])} :: 0 <= i < |rs| && 0 <= j < |rs| && i != j ==> !rs[i].Overlaps(rs[j])
  }

  predicate ApartFrom(rs: seq<Region>, r: Region) { forall i :: 0 <= i < |rs| ==> !rs[i].Overlaps(r) }

  lemma CoveredAppend(rs: seq<Region>, r: Region, a: nat)
    ensures Covered(rs + [r], a) <==> Covered(rs, a) || Within(r, a)
  {
    if Covered(rs, a) {
      var i :| 0 <= i < |rs| && Within(rs[i], a);
      assert Within((rs + [r])[i], a);
    }
    assert (rs + [r])[|rs|] == r;
  }

  lemma ApartAppend(rs: seq<Region>, r: Region)
    requires Apart(rs) && ApartFrom(rs, r)
    ensures Apart(rs + [r])
  {
    var all := rs + [r];
    forall i, j | 0 <= i < |all| && 0 <= j < |all| && i != j
      ensures !all[i].Overlaps(all[j])
    {
      if i < |rs| && j < |rs| {
        assert !rs[i].Overlaps(rs[j]);
      } else if i < |rs| {
        assert !rs[i].Overlaps(r);
      } else {
        assert !rs[j].Overlaps(r);
      }
    }
  }

  /** regions.array[i] = regions.array[--regions.entries] */
  function SwapOut(rs: seq<Region>, i: nat): seq<Region>
    requires i < |rs|
  {
    rs[i := rs[|rs| - 1]][..|rs| - 1]
  }

  /** Taking one region out leaves the rest apart, and covers exactly what it did not. */
  lemma SwapOutRest(rs: seq<Region>, i: nat)
    requires i < |rs| && Apart(rs)
    ensures Apart(SwapOut(rs, i)) && ApartFrom(SwapOut(rs, i), rs[i])
    ensures forall a: nat :: Covered(SwapOut(rs, i), a) <==> Covered(rs, a) && !Within(rs[i], a)
  {
    var n := |rs| - 1;
    var out := SwapOut(rs, i);
    assert forall k :: 0 <= k < n ==> out[k] == rs[if k == i then n else k];
    forall k, l | 0 <= k < n && 0 <= l < n && k != l
      ensures !out[k].Overlaps(out[l])
    {
      assert !rs[if k == i then n else k].Overlaps(rs[if l == i then n else l]);
    }
    forall k | 0 <= k < n
      ensures !out[k].Overlaps(rs[i])
    {
      assert !rs[if k == i then n else k].Overlaps(rs[i]);
    }
    forall a: nat
      ensures Covered(out, a) <==> Covered(rs, a) && !Within(rs[i], a)
    {
      if Covered(out, a) {
        var k :| 0 <= k < n && Within(out[k], a);
        assert Within(rs[if k == i then n else k], a);
        assert !rs[if k == i then n else k].Overlaps(rs[i]);
      }
      if Covered(rs, a) && !Within(rs[i], a) {
        var k :| 0 <= k < |rs| && Within(rs[k], a);
        assert Within(out[if k == n then i else k], a);
      }
    }
  }

  /** A region inside one of the taken-out region's remainders overlaps nothing else. */
  lemma PartApart(rs: seq<Region>, r: Region, part: Region)
    requires ApartFrom(rs, r) && 0 < part.size && r.base <= part.base && part.End() <= r.End()
    ensures ApartFrom(rs, part)
  {
    forall i | 0 <= i < |rs|
      ensures !rs[i].Overlaps(part)
    {
      assert !rs[i].Overlaps(r);
    }
  }

  /** If one region includes the cut, it is the only one that overlaps it. */
  lemma OnlyOverlap(rs: seq<Region>, i: nat, cut: Region)
    requires Apart(rs) && i < |rs| && rs[i].Includes(cut)
    ensures forall k :: 0 <= k < |rs| && rs[k].Overlaps(cut) ==> k == i
  {
    forall k | 0 <= k < |rs| && k != i
      ensures !rs[k].Overlaps(cut)
    {
      assert !rs[k].Overlaps(rs[i]);
    }
  }

  predicate NonEmpty(rs: seq<Region>) { forall i :: 0 <= i < |rs| ==> rs[i].size > 0 }

  /** The address is inside the region, with bytes of it on both sides. */
  predicate Splits(r: Region, a: nat) { r.base < a < r.base + r.size }

  /** What is left of a region: a piece behind the cut, and one before it. */
  function Pieces(r: Region, base: nat, size: nat, rightId: nat, leftId: nat): seq<Region>
    requires Contains(r, base, size)
  {
    (if base + size < r.base + r.size then [Region(base + size, r.base + r.size - (base + size), rightId)] else []) +
    (if r.base < base then [Region(r.base, base - r.base, leftId)] else [])
  }

  lemma PiecesCover(rest: seq<Region>, r: Region, cut: Region, rightId: nat, leftId: nat)
    requires Contains(r, cut.base, cut.size)
    ensures forall a: nat :: Covered(rest + Pieces(r, cut.base, cut.size, rightId, leftId), a) <==>
      Covered(rest, a) || (Within(r, a) && !Within(cut, a))
  {
    var right := Region(cut.base + cut.size, r.base + r.size - (cut.base + cut.size), rightId);
    var left := Region(r.base, cut.base - r.base, leftId);
    var ps := Pieces(r, cut.base, cut.size, rightId, leftId);
    forall a: nat
      ensures Covered(rest + ps, a) <==> Covered(rest, a) || Within(right, a) || Within(left, a)
    {
      var first := if right.size > 0 then rest + [right] else rest;
      CoveredAppend(rest, right, a);
      CoveredAppend(first, left, a);
      assert rest + ps == if left.size > 0 then first + [left] else first;
    }
  }

  /** What the first overlapping region says about all of them. */
  lemma OutcomeIs(rs: seq<Region>, i: int, cut: Region)
    requires Apart(rs) && -1 <= i < |rs| && (i == -1 <==> ApartFrom(rs, cut)) && (i >= 0 ==> rs[i].Overlaps(cut))
    ensures cut.size > 0 ==>
      (i >= 0 && rs[i].Includes(cut) <==> exists k :: 0 <= k < |rs| && Contains(rs[k], cut.base, cut.size))
    ensures cut.size == 0 ==> (i >= 0 && rs[i].Includes(cut) <==> exists k :: 0 <= k < |rs| && Splits(rs[k], cut.base))
    ensures i >= 0 && rs[i].Includes(cut) ==> Contains(rs[i], cut.base, cut.size)
    ensures cut.size > 0 && NonEmpty(rs) ==> (i == -1 <==> forall a: nat :: Within(cut, a) ==> !Covered(rs, a))
  {
    forall k | 0 <= k < |rs|
      ensures rs[k].Includes(cut) ==> rs[k].Overlaps(cut)
      ensures cut.size > 0 ==> (rs[k].Includes(cut) <==> Contains(rs[k], cut.base, cut.size))
      ensures cut.size == 0 ==> (rs[k].Includes(cut) <==> Splits(rs[k], cut.base))
    {
      if cut.size > 0 {
        IncludesIff(rs[k], cut);
      }
    }
    forall k | 0 <= k < |rs| && rs[k].Includes(cut)
      ensures k == i
    {
      OnlyOverlap(rs, k, cut);
    }
    NoCommonByte(rs, cut);
  }

  /** Regions that are not empty are apart from another exactly if they share no byte with it. */
  lemma NoCommonByte(rs: seq<Region>, cut: Region)
    ensures cut.size > 0 && NonEmpty(rs) ==>
      (ApartFrom(rs, cut) <==> forall a: nat :: Within(cut, a) ==> !Covered(rs, a))
  {
    if cut.size > 0 && NonEmpty(rs) {
      forall k | 0 <= k < |rs|
        ensures rs[k].Overlaps(cut) <==> exists a :: Within(rs[k], a) && Within(cut, a)
      {
        OverlapsIff(rs[k], cut);
      }
      if exists k :: 0 <= k < |rs| && rs[k].Overlaps(cut) {
        var k :| 0 <= k < |rs| && rs[k].Overlaps(cut);
        var a :| Within(rs[k], a) && Within(cut, a);
        assert Covered(rs, a);
      }
    }
  }

  datatype Outcome = Success | NotManaged | Aborted

  class Manager {
    var regions: seq<Region>
    const rs: R.RangeSet

    /** Regions are apart, and does_manage knows every covered address. */
    ghost predicate Valid()
      reads this, rs
    {
      rs.Valid() && Apart(regions) && forall a: nat :: Covered(regions, a) ==> R.Covers(rs.v, a)
    }

    constructor ()
      ensures Valid() && regions == [] && fresh(rs)
    {
      rs := new R.RangeSet();
      regions := [];
    }

    method DoesManage(a: nat) returns (managed: bool)
      requires Valid()
      ensures managed <==> R.Covers(rs.v, a)
      ensures Covered(regions, a) ==> managed
    {
      managed := rs.FindPoint(a);
    }

    /** The first region that overlaps `other`, or -1. */
    method FindOverlap(other: Region) returns (i: int)
      ensures -1 <= i < |regions|
      ensures i == -1 <==> ApartFrom(regions, other)
      ensures other.size > 0 && NonEmpty(regions) ==>
        (i == -1 <==> forall a: nat :: Within(other, a) ==> !Covered(regions, a))
      ensures i >= 0 ==> regions[i].Overlaps(other) && forall k :: 0 <= k < i ==> !regions[k].Overlaps(other)
    {
      NoCommonByte(regions, other);
      for k := 0 to |regions|
        invariant forall j :: 0 <= j < k ==> !regions[j].Overlaps(other)
      {
        if regions[k].Overlaps(other) {
          return k;
        }
      }
      return -1;
    }

    /** replace_region, on memory that no region overlaps. */
    method Replace(base: nat, size: nat, fileId: nat)
      requires Valid() && ApartFrom(regions, Region(base, size, fileId))
      modifies this, rs
      ensures Valid() && regions == old(regions) + [Region(base, size, fileId)]
      ensures forall a: nat :: R.Covers(rs.v, a) <==> R.Covers(old(rs.v), a) || base <= a < base + size
    {
      var r := Region(base, size, fileId);
      ApartAppend(regions, r);
      forall a: nat
        ensures Covered(regions + [r], a) <==> Covered(regions, a) || Within(r, a)
      {
        CoveredAppend(regions, r, a);
      }
      regions := regions + [r];
      rs.Insert(base, size);
      assert forall a: nat :: R.Range(base, size).Includes(a) <==> base <= a < base + size;
    }

    /**
     * remove_region. Memory outside every region is not managed; memory inside one region is taken
     * out of it, and up to two new regions cover what remains; anything else is not supported.
     */
    method Remove(base: nat, size: nat, rightId: nat, leftId: nat) returns (outcome: Outcome)
      requires Valid()
      modifies this, rs
      ensures Valid()
      ensures size > 0 ==>
        (outcome == Success <==> exists i :: 0 <= i < |old(regions)| && Contains(old(regions)[i], base, size))
      ensures size > 0 && NonEmpty(old(regions)) ==>
        (outcome == NotManaged <==> forall a: nat :: base <= a < base + size ==> !Covered(old(regions), a))
      ensures size == 0 ==>
        (outcome == Success <==> exists i :: 0 <= i < |old(regions)| && Splits(old(regions)[i], base))
      ensures outcome != Success ==> regions == old(regions)
      ensures outcome == Success ==> exists i ::
        0 <= i < |old(regions)| && Contains(old(regions)[i], base, size) &&
        regions == SwapOut(old(regions), i) + Pieces(old(regions)[i], base, size, rightId, leftId)
      ensures outcome == Success ==> forall a: nat :: Covered(regions, a) <==>
        Covered(old(regions), a) && !(base <= a < base + size)
    {
      var cut := Region(base, size, 0);
      var i := FindOverlap(cut);
      OutcomeIs(regions, i, cut);
      if i == -1 {
        return NotManaged;
      }
      var r := regions[i];
      if !r.Includes(cut) {
        return Aborted;
      }
      SwapOutRest(regions, i);
      regions := SwapOut(regions, i);
      AddRemainders(r, cut, rightId, leftId);
      outcome := Success;
    }

    /** The parts of `r` behind and before the cut get regions of their own. */
    method AddRemainders(r: Region, cut: Region, rightId: nat, leftId: nat)
      requires Valid() && ApartFrom(regions, r) && r.Includes(cut)
      modifies this, rs
      ensures Valid() && regions == old(regions) + Pieces(r, cut.base, cut.size, rightId, leftId)
      ensures forall a: nat :: Covered(regions, a) <==>
        Covered(old(regions), a) || (Within(r, a) && !Within(cut, a))
    {
      ghost var rest := regions;
      var right := Region(cut.End(), r.End() - cut.End(), rightId);
      if r.End() != cut.End() {
        PartApart(regions, r, right);
        Replace(right.base, right.size, rightId);
      }
      var left := Region(r.base, cut.base - r.base, leftId);
      if r.base != cut.base {
        PartApart(rest, r, left);
        assert !right.Overlaps(left);
        Replace(left.base, left.size, leftId);
      }
      PiecesCover(rest, r, cut, rightId, leftId);
    }

    /** recover: the regions of the table file, in order, on a manager that has none. */
    method Recover(table: seq<Region>)
      requires Valid() && regions == [] && Apart(table)
      modifies this, rs
      ensures Valid() && regions == table
    {
      for i := 0 to |table|
        invariant Valid() && regions == table[..i]
      {
        forall k | 0 <= k < i
          ensures !table[..i][k].Overlaps(table[i])
        {
          assert !table[k].Overlaps(table[i]);
        }
        Replace(table[i].base, table[i].size, table[i].fileId);
      }
    }
  }
}
