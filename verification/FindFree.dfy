/**
 Placing a new mapping: a next-fit search of the region list that keeps clear of
 the ground a stack needs to grow.
 */
module FindFree {
  import opened Options
  import opened RegionList
  import opened PageTable
  import opened Space
  import opened AddressSpace
  import opened StackGrowth

  /** The last 256 MB below the end of the address space are not placed in. */
  const CEILING: nat := PAGES - 0x1_0000

  /** as_gap_start */
  function GapStart(r: Region): int {
    if !r.attr.growsdown then r.start else if r.start > GUARD_GAP then r.start - GUARD_GAP else 0
  }

  predicate Conflict(r: Region, base: int, n: nat) { GapStart(r) < base + n && base < r.end }

  /** `n` pages at `base` touch no mapping, and leave a stack its guard gap. */
  predicate FreeAt(rs: seq<Region>, base: int, n: nat) {
    forall i :: 0 <= i < |rs| ==> !Conflict(rs[i], base, n)
  }

  predicate Candidate(rs: seq<Region>, base: int, n: nat) { base + n <= CEILING && FreeAt(rs, base, n) }

  ghost predicate NoneFrom(rs: seq<Region>, lo: int, hi: int, n: nat) {
    forall b :: lo <= b < hi ==> !Candidate(rs, b, n)
  }

  /** The lowest place at or above `from`. */
  ghost predicate LowestFrom(rs: seq<Region>, from: int, base: int, n: nat) {
    from <= base && Candidate(rs, base, n) && NoneFrom(rs, from, base, n)
  }

  ghost predicate StackFree(rs: seq<Region>, lo: int, hi: int) {
    forall q :: lo <= q < hi && At(rs, q).Some? ==> !At(rs, q).value.attr.growsdown
  }

  /** What it means, page by page, that a place is free: nothing is mapped there,
   and no stack lies in the guard gap above it. */
  lemma {:induction false} FreeMeans(rs: seq<Region>, base: int, n: nat)
    requires Sorted(rs) && InBounds(rs) && 0 <= base && 0 < n
    ensures FreeAt(rs, base, n) <==> AllFree(rs, base, base + n) && StackFree(rs, base + n, base + n + GUARD_GAP)
  {
    hide At;
    if FreeAt(rs, base, n) {
      forall p | base <= p < base + n ensures At(rs, p).None? { AtNowhere(rs, p); }
      forall q | base + n <= q < base + n + GUARD_GAP && At(rs, q).Some?
        ensures !At(rs, q).value.attr.growsdown
      {
        var k := AtWhere(rs, q);
      }
    } else {
      var k :| 0 <= k < |rs| && Conflict(rs[k], base, n);
      var r := rs[k];
      var q := if r.start < base then base else r.start;
      AtIndex(rs, k, q);
    }
  }

  /** Skipping to the end of a mapping in the way loses no candidate. */
  lemma {:induction false} SkipLosesNothing(rs: seq<Region>, from: int, base: int, n: nat, i: nat)
    requires NoneFrom(rs, from, base, n) && i < |rs| && Conflict(rs[i], base, n)
    ensures NoneFrom(rs, from, rs[i].end, n)
  {
    forall b | base <= b < rs[i].end ensures !Candidate(rs, b, n) {
      assert Conflict(rs[i], b, n);
    }
  }

  /** One pass from `from` up: the lowest place there is. */
  method Pass(rs: seq<Region>, from: nat, n: nat) returns (base: nat, found: bool)
    requires InBounds(rs)
    ensures found ==> LowestFrom(rs, from, base, n)
    ensures !found ==> NoneFrom(rs, from, CEILING + 1, n)
  {
    base, found := from, false;
    while base + n <= CEILING
      invariant from <= base && NoneFrom(rs, from, base, n)
      decreases CEILING - base
    {
      var i := 0;
      while i < |rs| && !Conflict(rs[i], base, n)
        invariant 0 <= i <= |rs| && forall k :: 0 <= k < i ==> !Conflict(rs[k], base, n)
      {
        i := i + 1;
      }
      if i == |rs| { return base, true; }
      SkipLosesNothing(rs, from, base, n, i);
      base := rs[i].end;
    }
  }

  /** as_find_free: from where the last search ended, and once more from the
   floor. None is the source's 0. */
  method Find(sp: AddrSpace, len: nat) returns (r: Option<nat>)
    requires sp.Valid()
    modifies sp`mmapNext
    ensures var n := (len + PAGE - 1) / PAGE;
            match r
            case Some(base) =>
              && sp.mmapNext == base + n
              && (LowestFrom(sp.regions, old(sp.mmapNext), base, n)
                  || (NoneFrom(sp.regions, old(sp.mmapNext), CEILING + 1, n) && LowestFrom(sp.regions, MMAP_FLOOR, base, n)))
            case None =>
              && sp.mmapNext == old(sp.mmapNext)
              && NoneFrom(sp.regions, MMAP_FLOOR, CEILING + 1, n) && NoneFrom(sp.regions, old(sp.mmapNext), CEILING + 1, n)
  {
    hide At, SpaceInv, Listed, PageTable.Valid, LowestFrom, NoneFrom;
    Shape(sp.regions, sp.bk, sp.pt.view);
    var n := (len + PAGE - 1) / PAGE;
    var base, found := Pass(sp.regions, sp.mmapNext, n);
    if !found {
      base, found := Pass(sp.regions, MMAP_FLOOR, n);
    }
    if found {
      sp.mmapNext := base + n;
      return Some(base);
    }
    r := None;
  }

  /** When there is none, every place from the floor to 256 MB below the end has
   something in it, or a stack within the gap above. */
  lemma {:induction false} NoneMeans(rs: seq<Region>, n: nat, base: int)
    requires Sorted(rs) && InBounds(rs) && 0 < n && NoneFrom(rs, MMAP_FLOOR, CEILING + 1, n)
    requires MMAP_FLOOR <= base && (base + n) * PAGE + 0x1000_0000 <= TASK_SIZE
    ensures !AllFree(rs, base, base + n) || !StackFree(rs, base + n, base + n + GUARD_GAP)
  {
    hide At;
    FreeMeans(rs, base, n);
    assert !Candidate(rs, base, n);
  }

  /** A place found is never the 0 that means there is none, and what is mapped
   there leaves every mapping as it was. */
  lemma {:induction false} FoundIsPlaceable(rs: seq<Region>, from: int, base: int, n: nat)
    requires Sorted(rs) && InBounds(rs) && MMAP_FLOOR <= from && 0 < n && LowestFrom(rs, from, base, n)
    ensures 0 < base && (base + n) * PAGE + 0x1000_0000 <= TASK_SIZE
    ensures AllFree(rs, base, base + n) && StackFree(rs, base + n, base + n + GUARD_GAP)
  {
    FreeMeans(rs, base, n);
  }
}
