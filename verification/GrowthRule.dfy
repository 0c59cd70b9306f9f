/**
 When a stack may grow, said of the pages the guest sees rather than of the list
 of regions: what is mapped above, what lies in the guard gap below, and how many
 pages there then are.
 */
module GrowthRule {
  import opened Options
  import opened RegionList
  import opened Backing
  import opened PageTable
  import opened Space
  import opened AddressSpace
  import opened StackGrowth

  // ------------------------------------------------------------ counting pages

  /** The pages that belong to a mapping. */
  ghost function MappedSet(rs: seq<Region>): set<int> { set p: int | 0 <= p < PAGES && At(rs, p).Some? }

  ghost function PageSet(lo: int, hi: int): (s: set<int>)
    requires lo <= hi
    ensures |s| == hi - lo && forall p :: p in s <==> lo <= p < hi
    decreases hi - lo
  {
    if lo == hi then {} else PageSet(lo, hi - 1) + {hi - 1}
  }

  /** as_mapped_bytes counts the guest's mapped pages, each once. */
  lemma {:induction false} MappedIsCount(rs: seq<Region>)
    requires Sorted(rs) && InBounds(rs)
    ensures MappedPages(rs) == |MappedSet(rs)|
  {
    hide At;
    if rs == [] {
      forall p ensures At(rs, p).None? { AtNowhere(rs, p); }
      assert MappedSet(rs) == {};
    } else {
      var n := |rs| - 1;
      var front, last := rs[..n], rs[n];
      MappedIsCount(front);
      forall p ensures At(rs, p).Some? <==> At(front, p).Some? || Covers(last, p) { LastOne(rs, p); }
      assert MappedSet(rs) == MappedSet(front) + PageSet(last.start, last.end);
      forall p | p in MappedSet(front) ensures p < last.start {
        var k := AtWhere(front, p);
        assert rs[k].end <= last.start;
      }
      assert MappedSet(front) !! PageSet(last.start, last.end);
    }
  }

  lemma {:induction false} LastOne(rs: seq<Region>, p: int)
    requires Sorted(rs) && rs != []
    ensures At(rs, p).Some? <==> At(rs[..|rs| - 1], p).Some? || Covers(rs[|rs| - 1], p)
  {
    hide At;
    var front := rs[..|rs| - 1];
    if At(rs, p).Some? {
      var k := AtWhere(rs, p);
      if k < |rs| - 1 { AtIndex(front, k, p); }
    }
    if At(front, p).Some? {
      var k := AtWhere(front, p);
      AtIndex(rs, k, p);
    }
    if Covers(rs[|rs| - 1], p) { AtIndex(rs, |rs| - 1, p); }
  }

  // ------------------------------------------------------------ the rule

  /** One mapping without a hole from `lo` to `hi`, and no further up. */
  ghost predicate WholeFrom(rs: seq<Region>, lo: int, hi: int) {
    && lo < hi && At(rs, lo).Some?
    && (forall q :: lo <= q < hi ==> At(rs, q).Some? && SameStack(At(rs, q).value, At(rs, lo).value))
    && (At(rs, hi).Some? ==> !SameStack(At(rs, hi).value, At(rs, lo).value))
  }

  /** Memory that can be used, and is no stack, within the guard gap below `p` with
   nothing in between. */
  ghost predicate TooClose(rs: seq<Region>, p: int, q: int) {
    && p - GUARD_GAP <= q < p && At(rs, q).Some? && AllFree(rs, q + 1, p)
    && !At(rs, q).value.attr.growsdown && At(rs, q).value.prot % 8 != 0
  }

  /** The stack above `p`, which begins at `top`, may be made to begin there. */
  ghost predicate MayReach(rs: seq<Region>, p: int, top: int, lim: Limits) {
    && p < top && AllFree(rs, p, top) && InStack(rs, top)
    && lim.minAddr <= p * PAGE && lim.lockOk
    && (forall q :: !TooClose(rs, p, q))
    && (lim.stack.Some? ==> forall end :: WholeFrom(rs, top, end) ==> (end - p) * PAGE <= lim.stack.value)
    && (lim.space.Some? ==> (|MappedSet(rs)| + (top - p)) * PAGE <= lim.space.value)
  }

  ghost predicate Proper(rs: seq<Region>) {
    Sorted(rs) && InBounds(rs) && forall k :: 0 <= k < |rs| ==> AttrOk(rs[k])
  }

  /** The pieces VmaTop joins are the mapping. */
  lemma {:induction false} TopIsWhole(rs: seq<Region>, i: nat)
    requires Proper(rs) && i < |rs| && rs[i].attr.growsdown
    ensures forall end :: WholeFrom(rs, rs[i].start, end) <==> end == VmaTop(rs, i)
  {
    hide At, VmaTop;
    VmaIsOneMapping(rs, i);
    AtIndex(rs, i, rs[i].start);
    var lo, top := rs[i].start, VmaTop(rs, i);
    assert SameStack(At(rs, lo).value, rs[i]);
    forall end | WholeFrom(rs, lo, end) ensures end == top {
      assert end < top ==> SameStack(At(rs, end).value, At(rs, lo).value);
      assert top < end ==> SameStack(At(rs, top).value, At(rs, lo).value);
    }
  }

  /** What is nearest below `p` is in the gap exactly when the region there is. */
  lemma {:induction false} GapIs(rs: seq<Region>, i: nat, p: int)
    requires Sorted(rs) && i < |rs| && p < rs[i].start && forall k :: 0 <= k < i ==> rs[k].end <= p
    ensures GapOk(rs, i, p) <==> forall q :: !TooClose(rs, p, q)
  {
    hide At;
    if i > 0 {
      var prev := rs[i - 1];
      var q := prev.end - 1;
      AtIndex(rs, i - 1, q);
      forall x | q < x < p ensures At(rs, x).None? { AtNowhere(rs, x); }
      if !GapOk(rs, i, p) { assert TooClose(rs, p, q); }
    }
    if x :| TooClose(rs, p, x) {
      var k := AtWhere(rs, x);
      assert i > 0 && x == rs[i - 1].end - 1;
    }
  }

  /** The region the list finds is the stack above the page. */
  lemma {:induction false} AboveIs(rs: seq<Region>, p: int, top: int) returns (i: nat)
    requires Proper(rs) && p < top && AllFree(rs, p, top) && InStack(rs, top)
    ensures i < |rs| && rs[i].start == top && rs[i].attr.growsdown && forall k :: 0 <= k < i ==> rs[k].end <= p
  {
    hide At;
    i := AtWhere(rs, top);
    if rs[i].start < top {
      AtIndex(rs, i, if rs[i].start < p then p else rs[i].start);
    }
    forall k | 0 <= k < i ensures rs[k].end <= p {
      if p < rs[k].end { AtIndex(rs, k, if rs[k].start < p then p else rs[k].start); }
    }
  }

  /** The list says a stack may grow to a page exactly when the pages do. */
  lemma {:induction false} MayGrowMeans(rs: seq<Region>, p: int, lim: Limits)
    requires Proper(rs)
    ensures forall i: nat :: MayGrow(rs, i, p, lim) ==> MayReach(rs, p, rs[i].start, lim)
    ensures (exists i: nat :: MayGrow(rs, i, p, lim)) <==> (exists top :: MayReach(rs, p, top, lim))
  {
    hide At, MayGrow, MayReach;
    forall i: nat | MayGrow(rs, i, p, lim) ensures i < |rs| && MayReach(rs, p, rs[i].start, lim) {
      GrowReaches(rs, i, p, lim);
    }
    if top :| MayReach(rs, p, top, lim) {
      var i := ReachGrows(rs, p, top, lim);
      assert MayGrow(rs, i, p, lim);
    }
  }

  lemma {:induction false} GrowReaches(rs: seq<Region>, i: nat, p: int, lim: Limits)
    requires Proper(rs) && MayGrow(rs, i, p, lim)
    ensures i < |rs| && MayReach(rs, p, rs[i].start, lim)
  {
    hide At, VmaTop, MappedPages, TooClose, WholeFrom;
    FirstAbove(rs, i, p);
    AtIndex(rs, i, rs[i].start);
    GapIs(rs, i, p);
    TopIsWhole(rs, i);
    MappedIsCount(rs);
  }

  lemma {:induction false} ReachGrows(rs: seq<Region>, p: int, top: int, lim: Limits) returns (i: nat)
    requires Proper(rs) && MayReach(rs, p, top, lim)
    ensures MayGrow(rs, i, p, lim)
  {
    hide At, VmaTop, MappedPages, TooClose, WholeFrom;
    i := AboveIs(rs, p, top);
    GapIs(rs, i, p);
    TopIsWhole(rs, i);
    assert WholeFrom(rs, top, VmaTop(rs, i));
    MappedIsCount(rs);
  }

  /** After growth nothing usable is within the guard gap but other stacks. */
  lemma {:induction false} GapIsLeft(sp: AddrSpace, rs0: seq<Region>, bk0: Backing, v0: seq<Pte>, i: nat, p: int, lim: Limits,
                                     mem: Memory, mem': Memory)
    requires SpaceInv(rs0, bk0, v0) && MayGrow(rs0, i, p, lim) && Grew(sp, rs0, v0, i, p, mem, mem')
    ensures InStack(sp.regions, p) && forall q :: !TooClose(sp.regions, p, q)
  {
    hide At, VmaTop, MappedPages, ZeroAt, KeepsContents, Life, HostsApart, Coherent;
    assert forall k :: 0 <= k < |rs0| ==> SliceOk(bk0, rs0[k]);
    assert Proper(rs0);
    GrowReaches(rs0, i, p, lim);
    VmaIsOneMapping(rs0, i);
    assert p < VmaTop(sp.regions, i);
    forall q ensures !TooClose(sp.regions, p, q) {
      assert !TooClose(rs0, p, q);
    }
  }
}
