/**
 A stack that grows down to the address of a fault: when it may, where its new
 backing comes from, and that the new pages read as zero. The contents of a host
 page is a number, 0 for a page of zeroes.
 */
module StackGrowth {
  import opened Options
  import opened RegionList
  import opened Backing
  import opened PageTable
  import opened Space
  import opened AddressSpace
  import opened RemapGrow

  const GUARD_GAP: nat := 256
  const RW_STEP: nat := 16

  type Memory = int -> nat

  /** The part of an allocation no region ever had still holds the zeroes the
   host handed out. */
  ghost predicate ZeroInv(bk: Backing, mem: Memory) {
    forall id, h :: id in bk.maps && bk.maps[id].base <= h < bk.maps[id].freshHi ==> mem(h) == 0
  }

  // ------------------------------------------------------------ one mapping in pieces

  /** as_same_vma */
  predicate SameVma(a: Region, b: Region) {
    && a.attr.stackId != 0 && a.attr.stackId == b.attr.stackId && a.end == b.start
    && a.prot == b.prot && a.attr.wrOk == b.attr.wrOk && a.attr.forkflags == b.attr.forkflags
    && a.attr.growsdown == b.attr.growsdown && a.attr.lock == b.attr.lock
  }

  function VmaTop(rs: seq<Region>, i: nat): int
    requires i < |rs|
    decreases |rs| - i
  {
    if i + 1 < |rs| && SameVma(rs[i], rs[i + 1]) then VmaTop(rs, i + 1) else rs[i].end
  }

  /** as_vma_end */
  method VmaEnd(rs: seq<Region>, i: nat) returns (end: int)
    requires i < |rs|
    ensures end == VmaTop(rs, i)
  {
    var k := i;
    while k + 1 < |rs| && SameVma(rs[k], rs[k + 1])
      invariant i <= k < |rs| && VmaTop(rs, k) == VmaTop(rs, i)
    {
      k := k + 1;
    }
    end := rs[k].end;
  }

  /** Two pages of one mapping, as the guest sees it. */
  predicate SameStack(a: Region, b: Region) {
    && a.attr.stackId == b.attr.stackId && a.prot == b.prot && a.attr.wrOk == b.attr.wrOk
    && a.attr.forkflags == b.attr.forkflags && a.attr.growsdown == b.attr.growsdown && a.attr.lock == b.attr.lock
  }

  /** From the region up to VmaTop there is one mapping without a hole, and it
   goes no further. */
  lemma {:induction false} VmaIsOneMapping(rs: seq<Region>, i: nat)
    requires Sorted(rs) && i < |rs| && rs[i].attr.stackId != 0
    ensures rs[i].start < VmaTop(rs, i)
    ensures forall q :: rs[i].start <= q < VmaTop(rs, i) ==> At(rs, q).Some? && SameStack(At(rs, q).value, rs[i])
    ensures At(rs, VmaTop(rs, i)).Some? ==> !SameStack(At(rs, VmaTop(rs, i)).value, rs[i])
    decreases |rs| - i
  {
    hide At;
    forall q | Covers(rs[i], q) ensures At(rs, q) == Some(Slice(rs[i], q)) { AtIndex(rs, i, q); }
    if i + 1 < |rs| && SameVma(rs[i], rs[i + 1]) {
      VmaIsOneMapping(rs, i + 1);
    } else if At(rs, rs[i].end).Some? {
      var k := AtWhere(rs, rs[i].end);
      assert k == i + 1;
    }
  }

  /** What the kernel would keep as one vma: one protection, one set of advice and
   locks throughout, and at its end nothing that could have been part of it. */
  lemma {:induction false} OneKind(rs: seq<Region>, i: nat, q: int)
    requires Sorted(rs) && i < |rs| && rs[i].attr.stackId != 0 && rs[i].start <= q <= VmaTop(rs, i)
    ensures var s := At(rs, q);
            q < VmaTop(rs, i) <==>
              && s.Some? && s.value.prot == rs[i].prot && s.value.attr.stackId == rs[i].attr.stackId
              && s.value.attr.growsdown == rs[i].attr.growsdown && s.value.attr.wrOk == rs[i].attr.wrOk
              && s.value.attr.forkflags == rs[i].attr.forkflags && s.value.attr.lock == rs[i].attr.lock
  {
    hide At, VmaTop;
    VmaIsOneMapping(rs, i);
  }

  // ------------------------------------------------------------ when a stack may grow

  /** mmap_min_addr, RLIMIT_STACK and RLIMIT_AS in bytes (None: no limit), and
   whether RLIMIT_MEMLOCK lets a locked stack grow. */
  datatype Limits = Limits(minAddr: nat, stack: Option<nat>, space: Option<nat>, lockOk: bool)

  function MappedPages(rs: seq<Region>): int {
    if rs == [] then 0 else MappedPages(rs[..|rs| - 1]) + (rs[|rs| - 1].end - rs[|rs| - 1].start)
  }

  /** as_mapped_bytes, in pages */
  method CountMapped(rs: seq<Region>) returns (n: int)
    ensures n == MappedPages(rs)
  {
    n := 0;
    for i := 0 to |rs|
      invariant n == MappedPages(rs[..i])
    {
      assert rs[..i + 1][..i] == rs[..i];
      n := n + (rs[i].end - rs[i].start);
    }
    assert rs[..|rs|] == rs;
  }

  predicate Accessible(prot: nat) { prot % 8 != 0 }

  /** What lies directly below: another stack, memory nobody can touch, or
   something beyond the guard gap. */
  predicate GapOk(rs: seq<Region>, i: nat, p: int)
    requires i < |rs|
  {
    i > 0 ==> rs[i - 1].attr.growsdown || !Accessible(rs[i - 1].prot) || p - rs[i - 1].end >= GUARD_GAP
  }

  /** Region `i` may grow down to page `p`: it is the mapping above the free
   page, and no limit stands against it. */
  predicate MayGrow(rs: seq<Region>, i: nat, p: int, lim: Limits) {
    && i < |rs| && p < rs[i].start && (forall k :: 0 <= k < i ==> rs[k].end <= p)
    && rs[i].attr.growsdown && lim.minAddr <= p * PAGE && GapOk(rs, i, p)
    && (lim.stack.Some? ==> (VmaTop(rs, i) - p) * PAGE <= lim.stack.value)
    && (lim.space.Some? ==> (MappedPages(rs) + (rs[i].start - p)) * PAGE <= lim.space.value)
    && lim.lockOk
  }

  /** Is the page part of a stack already? */
  ghost predicate InStack(rs: seq<Region>, p: int) { At(rs, p).Some? && At(rs, p).value.attr.growsdown }

  datatype Growth = Refused | Present | Grows(i: nat)

  /** as_stack_grows_to */
  method GrowsTo(rs: seq<Region>, p: nat, lim: Limits) returns (g: Growth)
    requires Sorted(rs)
    ensures g == Growth.Present <==> InStack(rs, p)
    ensures forall i :: g == Grows(i) <==> MayGrow(rs, i, p, lim)
  {
    hide At, MappedPages, VmaTop;
    var i := 0;
    while i < |rs| && rs[i].end <= p
      invariant 0 <= i <= |rs| && forall k :: 0 <= k < i ==> rs[k].end <= p
    {
      i := i + 1;
    }
    FirstAbove(rs, i, p);
    if i == |rs| || !rs[i].attr.growsdown { return Refused; }
    if rs[i].start <= p { return Growth.Present; }
    if p * PAGE < lim.minAddr { return Refused; }
    if i > 0 {
      var prev := rs[i - 1];
      if !prev.attr.growsdown && Accessible(prev.prot) && p - prev.end < GUARD_GAP { return Refused; }
    }
    var grow := rs[i].start - p;
    var top := VmaEnd(rs, i);
    var size := top - p;
    if lim.stack.Some? && size * PAGE > lim.stack.value { return Refused; }
    var mapped := CountMapped(rs);
    if lim.space.Some? && (grow * PAGE > lim.space.value || mapped * PAGE > lim.space.value - grow * PAGE) { return Refused; }
    if !lim.lockOk { return Refused; }
    g := Grows(i);
  }

  /** The first region that ends above a page decides what is there. */
  lemma {:induction false} FirstAbove(rs: seq<Region>, i: nat, p: int)
    requires Sorted(rs) && i <= |rs| && (forall k :: 0 <= k < i ==> rs[k].end <= p) && (i < |rs| ==> p < rs[i].end)
    ensures At(rs, p) == if i < |rs| && rs[i].start <= p then Some(Slice(rs[i], p)) else None
    ensures i < |rs| && p < rs[i].start ==> AllFree(rs, p, rs[i].start)
    ensures MappedPages(rs) >= 0
  {
    if i < |rs| && rs[i].start <= p {
      AtIndex(rs, i, p);
    } else {
      AtNowhere(rs, p);
    }
    if i < |rs| && p < rs[i].start {
      forall q | p <= q < rs[i].start ensures At(rs, q).None? { AtNowhere(rs, q); }
    }
    MappedCount(rs);
  }

  lemma {:induction false} MappedCount(rs: seq<Region>)
    requires Sorted(rs)
    ensures MappedPages(rs) >= 0
  {
    if rs != [] {
      MappedCount(rs[..|rs| - 1]);
    }
  }

  // ------------------------------------------------------------ room below the slice

  /** The host's answers: does it give the addresses below the allocation (twice
   what is needed, or just that), may reserved pages be made accessible, and
   where is a fresh reservation with how much room. `force` is the forced tier. */
  datatype StackHost = StackHost(force: bool, twice: bool, once: bool, open: bool, piece: Option<int>, room: nat)

  /** How far the slice wants to go below its allocation. */
  function Need(bk: Backing, r: Region, grow: nat): int
    requires r.hmap in bk.maps
  {
    bk.maps[r.hmap].base - (r.host - grow)
  }

  /** The allocation as it was, or made deeper by an answer of the host. */
  predicate Deepened(bk: Backing, bk0: Backing, r: Region, grow: nat, h: StackHost)
    requires r.hmap in bk0.maps
  {
    var need := Need(bk0, r, grow);
    || bk == bk0
    || (need > 0 && h.twice && bk == Deeper(bk0, r.hmap, 2 * need))
    || (need > 0 && h.once && bk == Deeper(bk0, r.hmap, need))
  }

  /** The host, asked for twice what is needed and then for just that, gives one
   of them. */
  predicate DeepEnough(bk: Backing, r: Region, grow: nat, h: StackHost)
    requires r.hmap in bk.maps
  {
    var need, base := Need(bk, r, grow), bk.maps[r.hmap].base;
    (h.twice && 2 * need <= base) || (h.once && need <= base)
  }

  /** There is room below the slice, or can be had, and the host opens it. */
  ghost predicate GrowsInPlace(rs: seq<Region>, bk: Backing, i: nat, grow: nat, h: StackHost)
    requires i < |rs| && rs[i].hmap in bk.maps
  {
    var r, hm := rs[i], bk.maps[rs[i].hmap];
    && grow <= r.host && (h.open || hm.rwLo <= r.host - grow)
    && if Need(bk, r, grow) <= 0 then HostsClear(rs, r.host - grow, r.host)
       else HostsClear(rs, hm.base, r.host) && !h.force && DeepEnough(bk, r, grow, h)
  }

  /** The host gives only memory that backs nothing. */
  predicate HostGives(bk: Backing, r: Region, grow: nat, h: StackHost)
    requires r.hmap in bk.maps
  {
    var need := Need(bk, r, grow);
    && (need > 0 && h.twice ==> HostFree(bk, bk.maps[r.hmap].base - 2 * need, 2 * need))
    && (need > 0 && h.once ==> HostFree(bk, bk.maps[r.hmap].base - need, need))
    && (h.piece.Some? ==>
          && HostFree(bk, h.piece.value, h.room + grow)
          && (need > 0 && h.twice ==> HostFree(Deeper(bk, r.hmap, 2 * need), h.piece.value, h.room + grow))
          && (need > 0 && h.once ==> HostFree(Deeper(bk, r.hmap, need), h.piece.value, h.room + grow)))
  }

  /** ...and what it hands out reads as zero. */
  ghost predicate HandsZeroes(bk: Backing, r: Region, grow: nat, h: StackHost, mem: Memory)
    requires r.hmap in bk.maps
  {
    var base := bk.maps[r.hmap].base;
    && (forall x :: r.host - grow <= x < base && (h.twice || h.once) ==> mem(x) == 0)
    && (forall x :: base - 2 * (base - (r.host - grow)) <= x < base && h.twice ==> mem(x) == 0)
    && (h.piece.Some? ==> forall x :: h.piece.value <= x < h.piece.value + h.room + grow ==> mem(x) == 0)
  }

  function Deeper(bk: Backing, id: nat, ext: nat): Backing
    requires id in bk.maps
  {
    bk.(maps := bk.maps[id := bk.maps[id].(base := bk.maps[id].base - ext, len := bk.maps[id].len + ext)])
  }

  function Opened(bk: Backing, id: nat, rwLo: int, freshHi: int): Backing
    requires id in bk.maps
  {
    bk.(maps := bk.maps[id := bk.maps[id].(rwLo := rwLo, freshHi := freshHi)])
  }

  predicate BelowOnly(rs: seq<Region>, i: nat, k: nat, host: int)
    requires i < |rs| && k < |rs|
  {
    k != i && rs[k].hmap == rs[i].hmap && rs[k].host + (rs[k].end - rs[k].start) <= host
  }

  /** Where the room under the slice of region `i` ends. */
  method Floor(rs: seq<Region>, i: nat, base: int) returns (floor: int)
    requires i < |rs|
    ensures base <= floor
    ensures forall k :: 0 <= k < |rs| && BelowOnly(rs, i, k, rs[i].host) ==> rs[k].host + (rs[k].end - rs[k].start) <= floor
    ensures floor != base ==>
              exists k :: 0 <= k < |rs| && BelowOnly(rs, i, k, rs[i].host) && floor == rs[k].host + (rs[k].end - rs[k].start)
  {
    floor := base;
    for k := 0 to |rs|
      invariant base <= floor
      invariant forall j :: 0 <= j < k && BelowOnly(rs, i, j, rs[i].host) ==> rs[j].host + (rs[j].end - rs[j].start) <= floor
      invariant floor != base ==>
                  exists j :: 0 <= j < |rs| && BelowOnly(rs, i, j, rs[i].host) && floor == rs[j].host + (rs[j].end - rs[j].start)
    {
      if k != i && rs[k].hmap == rs[i].hmap {
        var top := rs[k].host + (rs[k].end - rs[k].start);
        if top <= rs[i].host && top > floor {
          floor := top;
          assert BelowOnly(rs, i, k, rs[i].host);
        }
      }
    }
  }

  /** No page is backed by anything between the floor and the slice. */
  lemma {:induction false} FloorClears(rs: seq<Region>, bk: Backing, i: nat, floor: int)
    requires Listed(rs, bk) && HostsApart(rs) && i < |rs|
    requires rs[i].hmap in bk.maps && bk.maps[rs[i].hmap].base <= floor
    requires forall k :: 0 <= k < |rs| && BelowOnly(rs, i, k, rs[i].host) ==> rs[k].host + (rs[k].end - rs[k].start) <= floor
    ensures HostsClear(rs, floor, rs[i].host)
  {
    hide At, RefCount, Life;
    forall p | At(rs, p).Some?
      ensures !(floor <= At(rs, p).value.host < rs[i].host)
    {
      var k := AtWhere(rs, p);
      var q := rs[k];
      assert SliceOk(bk, q) && SliceOk(bk, rs[i]);
      if k != i && q.hmap == rs[i].hmap && q.host < rs[i].host < q.host + (q.end - q.start) {
        SharedPage(rs, i, k);
        assert false;
      }
      if q.hmap != rs[i].hmap {
        assert RoomOk(bk.maps[q.hmap]) && RoomOk(bk.maps[rs[i].hmap]);
        assert Apart(bk.maps[q.hmap], bk.maps[rs[i].hmap]);
      }
    }
  }

  /** ...and the page under a floor above the allocation's start is in use. */
  lemma {:induction false} FloorIsUsed(rs: seq<Region>, bk: Backing, i: nat, floor: int)
    requires Listed(rs, bk) && i < |rs| && rs[i].hmap in bk.maps
    requires floor != bk.maps[rs[i].hmap].base ==>
               exists k :: 0 <= k < |rs| && BelowOnly(rs, i, k, rs[i].host) && floor == rs[k].host + (rs[k].end - rs[k].start)
    ensures floor != bk.maps[rs[i].hmap].base ==> forall lo :: lo < floor ==> !HostsClear(rs, lo, rs[i].host)
  {
    if floor != bk.maps[rs[i].hmap].base {
      var k :| 0 <= k < |rs| && BelowOnly(rs, i, k, rs[i].host) && floor == rs[k].host + (rs[k].end - rs[k].start);
      AtIndex(rs, k, rs[k].end - 1);
      assert At(rs, rs[k].end - 1).value.host == floor - 1;
    }
  }

  /** A slice that reaches over the start of another shares its first page. */
  lemma {:induction false} SharedPage(rs: seq<Region>, i: nat, k: nat)
    requires Sorted(rs) && i < |rs| && k < |rs| && i != k
    requires rs[k].host < rs[i].host < rs[k].host + (rs[k].end - rs[k].start)
    ensures !HostsApart(rs)
  {
    var p := rs[k].start + (rs[i].host - rs[k].host);
    AtIndex(rs, i, rs[i].start);
    AtIndex(rs, k, p);
    assert At(rs, p).value.host == At(rs, rs[i].start).value.host;
    assert p != rs[i].start;
  }

  // ------------------------------------------------------------ what a deeper allocation keeps

  lemma {:induction false} DeeperSpace(rs: seq<Region>, bk: Backing, v: seq<Pte>, id: nat, ext: nat)
    requires SpaceInv(rs, bk, v) && id in bk.maps && HostFree(bk, bk.maps[id].base - ext, ext)
    ensures SpaceInv(rs, Deeper(bk, id, ext), v)
    ensures HostsClear(rs, bk.maps[id].base - ext, bk.maps[id].base)
  {
    hide At, RefCount;
    var bk' := Deeper(bk, id, ext);
    SameMapsQuarantine(bk, bk');
    forall k | 0 <= k < |rs| ensures SliceOk(bk', rs[k]) { assert SliceOk(bk, rs[k]); }
    DeeperAllocs(bk, id, ext);
    forall p | At(rs, p).Some?
      ensures !(bk.maps[id].base - ext <= At(rs, p).value.host < bk.maps[id].base)
    {
      HostInAlloc(rs, bk, p);
      assert RoomOk(bk.maps[At(rs, p).value.hmap]);
    }
  }

  lemma {:induction false} DeeperAllocs(bk: Backing, id: nat, ext: nat)
    requires AllocsOk(bk) && id in bk.maps && HostFree(bk, bk.maps[id].base - ext, ext)
    ensures AllocsOk(Deeper(bk, id, ext))
  {
  }

  lemma {:induction false} OpenedSpace(rs: seq<Region>, bk: Backing, v: seq<Pte>, id: nat, rwLo: int, freshHi: int)
    requires SpaceInv(rs, bk, v) && id in bk.maps
    requires bk.maps[id].base <= rwLo <= freshHi <= bk.maps[id].freshHi
    ensures SpaceInv(rs, Opened(bk, id, rwLo, freshHi), v)
  {
    hide At, RefCount;
    var bk' := Opened(bk, id, rwLo, freshHi);
    SameMapsQuarantine(bk, bk');
    forall k | 0 <= k < |rs| ensures SliceOk(bk', rs[k]) { assert SliceOk(bk, rs[k]); }
    OpenedAllocs(bk, id, rwLo, freshHi);
  }

  lemma {:induction false} OpenedAllocs(bk: Backing, id: nat, rwLo: int, freshHi: int)
    requires AllocsOk(bk) && id in bk.maps && bk.maps[id].base <= rwLo <= freshHi <= bk.maps[id].freshHi
    ensures AllocsOk(Opened(bk, id, rwLo, freshHi))
  {
  }

  // ------------------------------------------------------------ zeroes

  /** The guest can only write pages it has mapped, and none of them is in the
   part still promised to read as zero. */
  lemma {:induction false} StoreKeepsZeroes(rs: seq<Region>, bk: Backing, mem: Memory, p: int, mem': Memory)
    requires Slices(bk, rs) && AllocsOk(bk) && ZeroInv(bk, mem) && At(rs, p).Some?
    requires forall h :: h != At(rs, p).value.host ==> mem'(h) == mem(h)
    ensures ZeroInv(bk, mem')
  {
    HostInAlloc(rs, bk, p);
    hide At;
    var hm := bk.maps[At(rs, p).value.hmap];
    forall id, h | id in bk.maps && bk.maps[id].base <= h < bk.maps[id].freshHi
      ensures mem'(h) == 0
    {
      assert RoomOk(bk.maps[id]) && RoomOk(hm);
      assert id != At(rs, p).value.hmap ==> Apart(bk.maps[id], hm);
    }
  }

  /** Operations that only drop allocations, and new ones whose room the host
   cleared. */
  lemma {:induction false} BackingKeepsZeroes(bk: Backing, bk': Backing, base: int, len: nat, room: nat, mem: Memory)
    requires ZeroInv(bk, mem) && Within(bk', bk) && forall h :: base <= h < base + room ==> mem(h) == 0
    ensures ZeroInv(bk', mem) && ZeroInv(New(bk', base, len, room), mem)
  {
  }

  lemma {:induction false} DeeperZeroes(bk: Backing, id: nat, ext: nat, mem: Memory)
    requires ZeroInv(bk, mem) && id in bk.maps && forall h :: bk.maps[id].base - ext <= h < bk.maps[id].base ==> mem(h) == 0
    ensures ZeroInv(Deeper(bk, id, ext), mem)
  {
  }

  lemma {:induction false} OpenedZeroes(bk: Backing, id: nat, rwLo: int, freshHi: int, mem: Memory, mem': Memory)
    requires ZeroInv(bk, mem) && id in bk.maps && freshHi <= bk.maps[id].freshHi
    requires forall h :: mem'(h) == mem(h) || mem'(h) == 0
    ensures ZeroInv(Opened(bk, id, rwLo, freshHi), mem')
  {
  }

  /** Contents of everything mapped, kept. */
  ghost predicate KeepsContents(rs: seq<Region>, mem: Memory, mem': Memory) {
    forall p :: At(rs, p).Some? ==> mem'(At(rs, p).value.host) == mem(At(rs, p).value.host)
  }

  ghost predicate ZeroAt(mem: Memory, lo: int, hi: int) { forall h :: lo <= h < hi ==> mem(h) == 0 }

  // ------------------------------------------------------------ growing in place

  /** The addresses below the allocation: twice what is needed, or just that. */
  method Deepen(sp: AddrSpace, i: nat, grow: nat, h: StackHost, ghost mem: Memory) returns (floor: int)
    requires sp.Valid() && i < |sp.regions| && sp.regions[i].hmap in sp.bk.maps && ZeroInv(sp.bk, mem)
    requires HostGives(sp.bk, sp.regions[i], grow, h) && HandsZeroes(sp.bk, sp.regions[i], grow, h, mem)
    requires sp.regions[i].host - grow < sp.bk.maps[sp.regions[i].hmap].base
    requires HostsClear(sp.regions, sp.bk.maps[sp.regions[i].hmap].base, sp.regions[i].host)
    modifies sp`bk
    ensures sp.Valid() && ZeroInv(sp.bk, mem)
    ensures sp.regions[i].hmap in sp.bk.maps && floor == sp.bk.maps[sp.regions[i].hmap].base
    ensures Deepened(sp.bk, old(sp.bk), sp.regions[i], grow, h)
    ensures HostsClear(sp.regions, floor, sp.regions[i].host)
    ensures floor <= sp.regions[i].host - grow <==> DeepEnough(old(sp.bk), sp.regions[i], grow, h)
    ensures sp.bk.maps[sp.regions[i].hmap].rwLo == old(sp.bk).maps[sp.regions[i].hmap].rwLo
  {
    hide At, Listed, PageTable.Valid, SpaceInv;
    var id, want := sp.regions[i].hmap, sp.regions[i].host - grow;
    floor := sp.bk.maps[id].base;
    var need := floor - want;
    var t := 0;
    while t < 2 && want < floor
      invariant 0 <= t <= 2 && sp.Valid() && ZeroInv(sp.bk, mem)
      invariant id in sp.bk.maps && floor == sp.bk.maps[id].base
      invariant want < floor ==> sp.bk == old(sp.bk) && floor == old(sp.bk).maps[id].base
      invariant want < floor && t > 0 ==> !(h.twice && 2 * need <= floor)
      invariant want < floor && t > 1 ==> !(h.once && need <= floor)
      invariant want >= floor ==> DeepEnough(old(sp.bk), sp.regions[i], grow, h)
      invariant sp.bk.maps[id].rwLo == old(sp.bk).maps[id].rwLo
      invariant Deepened(sp.bk, old(sp.bk), sp.regions[i], grow, h)
      invariant HostsClear(sp.regions, floor, sp.regions[i].host)
    {
      var ext := if t == 0 then need * 2 else need;
      if ext <= floor && (if t == 0 then h.twice else h.once) {
        DeeperSpace(sp.regions, sp.bk, sp.pt.view, id, ext);
        DeeperZeroes(sp.bk, id, ext, mem);
        sp.bk := Deeper(sp.bk, id, ext);
        floor := floor - ext;
      }
      t := t + 1;
    }
  }

  /** The part of region_grow_down inside the allocation: pages made accessible
   at least 64 KB at a time, and what an earlier slice left there cleared. */
  method OpenDown(sp: AddrSpace, i: nat, grow: nat, h: StackHost, ghost mem: Memory) returns (ok: bool, ghost mem': Memory)
    requires sp.Valid() && i < |sp.regions| && sp.regions[i].hmap in sp.bk.maps && ZeroInv(sp.bk, mem)
    requires sp.bk.maps[sp.regions[i].hmap].base <= sp.regions[i].host - grow
    requires HostsClear(sp.regions, sp.regions[i].host - grow, sp.regions[i].host)
    modifies sp`bk
    ensures sp.Valid() && ZeroInv(sp.bk, mem') && KeepsContents(sp.regions, mem, mem')
    ensures sp.regions[i].hmap in sp.bk.maps
    ensures ok <==> h.open || old(sp.bk).maps[sp.regions[i].hmap].rwLo <= sp.regions[i].host - grow
    ensures !ok ==> sp.bk == old(sp.bk) && mem' == mem
    ensures ok ==>
      && ZeroAt(mem', sp.regions[i].host - grow, sp.regions[i].host)
      && var hm, hm0 := sp.bk.maps[sp.regions[i].hmap], old(sp.bk).maps[sp.regions[i].hmap];
         && hm.rwLo <= sp.regions[i].host - grow && hm.freshHi <= sp.regions[i].host - grow
         && (hm.rwLo < hm0.rwLo ==> hm0.rwLo - hm.rwLo >= RW_STEP || hm.rwLo == hm.base)
         && sp.bk == Opened(old(sp.bk), sp.regions[i].hmap, hm.rwLo, hm.freshHi)
  {
    hide At, Listed, PageTable.Valid;
    RoomIs(sp.regions, sp.bk, i);
    var id, host, want := sp.regions[i].hmap, sp.regions[i].host, sp.regions[i].host - grow;
    var hm := sp.bk.maps[id];
    mem' := mem;
    var lo, rw := want, hm.rwLo;
    if lo < rw {
      var batch := if rw - hm.base > RW_STEP then rw - RW_STEP else hm.base;
      if batch < lo { lo := batch; }
      if !h.open { return false, mem; }
      rw := lo;
    }
    var freshHi := hm.freshHi;
    var stale := if want > freshHi then want else freshHi;
    mem' := x => if stale <= x < host then 0 else mem(x);
    var newHi := if want < freshHi then want else freshHi;
    OpenedSpace(sp.regions, sp.bk, sp.pt.view, id, rw, newHi);
    OpenedZeroes(sp.bk, id, rw, newHi, mem, mem');
    sp.bk := Opened(sp.bk, id, rw, newHi);
    ok := true;
  }

  lemma {:induction false} RoomIs(rs: seq<Region>, bk: Backing, i: nat)
    requires Listed(rs, bk) && i < |rs|
    ensures rs[i].hmap in bk.maps && RoomOk(bk.maps[rs[i].hmap]) && SliceOk(bk, rs[i]) && AttrOk(rs[i])
    ensures rs[i].start < rs[i].end && 0 <= rs[i].start && rs[i].end <= PAGES
  {
  }

  /** region_grow_down. A refusal may leave the allocation longer, with nothing
   in it given to anyone. */
  method GrowDown(sp: AddrSpace, i: nat, grow: nat, h: StackHost, ghost mem: Memory) returns (ok: bool, ghost mem': Memory)
    requires sp.Valid() && i < |sp.regions| && sp.regions[i].hmap in sp.bk.maps && ZeroInv(sp.bk, mem)
    requires HostGives(sp.bk, sp.regions[i], grow, h) && HandsZeroes(sp.bk, sp.regions[i], grow, h, mem)
    modifies sp`bk
    ensures sp.Valid() && ZeroInv(sp.bk, mem') && KeepsContents(sp.regions, mem, mem')
    ensures sp.bk == old(sp.bk).(maps := sp.bk.maps, next := sp.bk.next)
    ensures sp.regions[i].hmap in sp.bk.maps
    ensures !ok ==> mem' == mem && Deepened(sp.bk, old(sp.bk), sp.regions[i], grow, h)
    ensures ok ==>
      && ZeroAt(mem', sp.regions[i].host - grow, sp.regions[i].host)
      && HostsClear(sp.regions, sp.regions[i].host - grow, sp.regions[i].host)
      && sp.bk.maps[sp.regions[i].hmap].rwLo <= sp.regions[i].host - grow
      && sp.bk.maps[sp.regions[i].hmap].freshHi <= sp.regions[i].host - grow
    ensures ok <==> GrowsInPlace(sp.regions, old(sp.bk), i, grow, h)
  {
    hide At, Listed, PageTable.Valid;
    mem' := mem;
    var id := sp.regions[i].hmap;
    if grow > sp.regions[i].host { return false, mem; }
    var want := sp.regions[i].host - grow;
    var floor := Floor(sp.regions, i, sp.bk.maps[id].base);
    FloorClears(sp.regions, sp.bk, i, floor);
    FloorIsUsed(sp.regions, sp.bk, i, floor);
    if want < floor && floor == sp.bk.maps[id].base && !h.force {
      floor := Deepen(sp, i, grow, h, mem);
    }
    ok := false;
    if want >= floor {
      ok, mem' := OpenDown(sp, i, grow, h, mem);
    }
  }

  // ------------------------------------------------------------ the region's start moves

  function Lowered(r: Region, p: int): Region { r.(start := p, host := r.host - (r.start - p)) }

  lemma {:induction false} LoweredView(rs: seq<Region>, i: nat, p: int, q: int)
    requires Sorted(rs) && i < |rs| && p <= rs[i].start && AllFree(rs, p, rs[i].start) && rs[i].file.None?
    ensures At(rs[i := Lowered(rs[i], p)], q) == if p <= q < rs[i].start then Some(Slice(Lowered(rs[i], p), q)) else At(rs, q)
  {
    var r, r' := rs[i], Lowered(rs[i], p);
    assert rs == rs[..i] + [r] + rs[i + 1..];
    assert rs[i := r'] == rs[..i] + [r'] + rs[i + 1..];
    AtReplace(rs[..i], [r], [r'], rs[i + 1..], q);
    AtReplace(rs[..i], [r'], [r], rs[i + 1..], q);
    AtOne(r, q);
    AtOne(r', q);
    if Covers(r', q) && !Covers(r, q) {
      assert At(rs, q).None?;
      AtConcat(rs[..i], [r] + rs[i + 1..], q);
      assert rs == rs[..i] + ([r] + rs[i + 1..]);
    }
  }

  lemma {:induction false} LoweredListed(rs: seq<Region>, bk: Backing, i: nat, p: int)
    requires Listed(rs, bk) && i < |rs| && 0 <= p < rs[i].start && (forall k :: 0 <= k < i ==> rs[k].end <= p)
    requires rs[i].hmap in bk.maps && bk.maps[rs[i].hmap].freshHi <= rs[i].host - (rs[i].start - p)
    ensures Listed(rs[i := Lowered(rs[i], p)], bk)
  {
    var rs' := rs[i := Lowered(rs[i], p)];
    forall id ensures RefCount(rs', id) == RefCount(rs, id) { SameHmaps(rs', rs, id); }
    hide At, RefCount;
    SameCounts(bk, rs, rs');
    forall k | 0 <= k < |rs'| ensures SliceOk(bk, rs'[k]) { assert SliceOk(bk, rs[k]); }
  }

  /** Pages [p, top) came, backed by `lo` on with entries of `prot`; nothing else
   changed. */
  ghost predicate GrownDown(rs: seq<Region>, v: seq<Pte>, rs0: seq<Region>, v0: seq<Pte>, p: int, top: int, r: Region) {
    && |v| == |v0| == PAGES
    && (forall q :: At(rs, q) == if p <= q < top then Some(Slice(r, q)) else At(rs0, q))
    && (forall q :: 0 <= q < PAGES ==> v[q] == if p <= q < top then Pte.Present(Slice(r, q).host, r.prot) else v0[q])
  }

  lemma {:induction false} GrownSpace(rs: seq<Region>, bk: Backing, v: seq<Pte>, rs0: seq<Region>, v0: seq<Pte>, bk0: Backing,
                                      p: int, top: int, r: Region)
    requires SpaceInv(rs0, bk0, v0) && Listed(rs, bk) && GrownDown(rs, v, rs0, v0, p, top, r)
    requires HostsClear(rs0, Slice(r, p).host, Slice(r, top).host)
    ensures SpaceInv(rs, bk, v)
  {
    hide At, Listed;
    forall a, b | At(rs, a).Some? && At(rs, b).Some? && a != b
      ensures At(rs, a).value.host != At(rs, b).value.host
    {
    }
    forall q | 0 <= q < PAGES
      ensures CoherentAt(rs, v, q)
    {
      assert CoherentAt(rs0, v0, q);
    }
  }

  lemma {:induction false} LoweredSpace(rs: seq<Region>, bk: Backing, v: seq<Pte>, i: nat, p: int, v': seq<Pte>)
    requires SpaceInv(rs, bk, v) && i < |rs| && 0 <= p < rs[i].start && (forall k :: 0 <= k < i ==> rs[k].end <= p)
    requires rs[i].attr.growsdown && AllFree(rs, p, rs[i].start) && |v'| == PAGES
    requires forall q :: 0 <= q < PAGES ==>
               v'[q] == if p <= q < rs[i].start then Pte.Present(Slice(Lowered(rs[i], p), q).host, rs[i].prot) else v[q]
    requires rs[i].hmap in bk.maps && bk.maps[rs[i].hmap].freshHi <= rs[i].host - (rs[i].start - p)
    requires HostsClear(rs, rs[i].host - (rs[i].start - p), rs[i].host)
    ensures SpaceInv(rs[i := Lowered(rs[i], p)], bk, v')
    ensures GrownDown(rs[i := Lowered(rs[i], p)], v', rs, v, p, rs[i].start, Lowered(rs[i], p))
  {
    hide At;
    var rs' := rs[i := Lowered(rs[i], p)];
    LoweredListed(rs, bk, i, p);
    RoomIs(rs, bk, i);
    forall q
      ensures At(rs', q) == if p <= q < rs[i].start then Some(Slice(Lowered(rs[i], p), q)) else At(rs, q)
    {
      LoweredView(rs, i, p, q);
    }
    hide Listed;
    GrownSpace(rs', bk, v', rs, v, bk, p, rs[i].start, Lowered(rs[i], p));
  }

  // ------------------------------------------------------------ a piece of its own

  function PieceOf(r: Region, p: int, host: int, id: nat): Region {
    r.(start := p, end := r.start, host := host, hmap := id, fileOff := 0)
  }

  /** Neither way of growing changes where the mapping ends. */
  lemma {:induction false} LoweredTop(rs: seq<Region>, i: nat, p: int)
    requires i < |rs|
    ensures VmaTop(rs[i := Lowered(rs[i], p)], i) == VmaTop(rs, i)
  {
    var rs' := rs[i := Lowered(rs[i], p)];
    if i + 1 < |rs| {
      SameTop(rs', rs, i + 1, i + 1);
    }
  }

  lemma {:induction false} SameTop(a: seq<Region>, b: seq<Region>, i: nat, j: nat)
    requires i < |a| && j < |b| && a[i..] == b[j..]
    ensures VmaTop(a, i) == VmaTop(b, j)
    decreases |a| - i
  {
    assert a[i] == a[i..][0] && b[j] == b[j..][0];
    if i + 1 < |a| {
      assert a[i + 1] == a[i..][1] && b[j + 1] == b[j..][1];
      assert a[i + 1..] == a[i..][1..] && b[j + 1..] == b[j..][1..];
      SameTop(a, b, i + 1, j + 1);
    }
  }

  lemma {:induction false} PieceTop(rs: seq<Region>, i: nat, piece: Region)
    requires i < |rs| && SameVma(piece, rs[i])
    ensures VmaTop(rs[..i] + [piece] + rs[i..], i) == VmaTop(rs, i)
  {
    var rs' := rs[..i] + [piece] + rs[i..];
    assert rs'[i + 1..] == rs[i..];
    SameTop(rs', rs, i + 1, i);
  }

  lemma {:induction false} PiecePlace(rs: seq<Region>, i: nat, piece: Region)
    requires Sorted(rs) && i < |rs| && (forall k :: 0 <= k < i ==> rs[k].end <= piece.start) && piece.start < rs[i].start
    ensures Insert(rs, piece) == rs[..i] + [piece] + rs[i..]
  {
    InsertIsSplice(rs, piece);
    assert Position(rs, piece.start) == i;
  }

  /** Where the new pages of the stack are, however they were had: the mapping
   that ends where it did now starts at `p`, in one run of pages. */
  ghost predicate OneStack(rs: seq<Region>, rs0: seq<Region>, i: nat, p: int) {
    && i < |rs0| && i < |rs| && rs[i].start == p
    && VmaTop(rs, i) == VmaTop(rs0, i)
    && (forall q :: p <= q < VmaTop(rs, i) ==> At(rs, q).Some? && SameStack(At(rs, q).value, rs0[i]))
  }

  /** What growth down to `p` does to the space and to memory. */
  ghost predicate Grew(sp: AddrSpace, rs0: seq<Region>, v0: seq<Pte>, i: nat, p: int, mem: Memory, mem': Memory)
    reads sp, sp.pt
  {
    && i < |rs0| && i < |sp.regions|
    && GrownDown(sp.regions, sp.pt.view, rs0, v0, p, rs0[i].start, sp.regions[i])
    && OneStack(sp.regions, rs0, i, p)
    && ZeroAt(mem', Slice(sp.regions[i], p).host, Slice(sp.regions[i], rs0[i].start).host)
    && KeepsContents(rs0, mem, mem')
  }

  lemma {:induction false} OneStackIs(rs: seq<Region>, rs0: seq<Region>, i: nat, p: int)
    requires Sorted(rs) && i < |rs0| && i < |rs| && rs[i].start == p && VmaTop(rs, i) == VmaTop(rs0, i)
    requires SameStack(rs[i], rs0[i]) && rs[i].attr.stackId != 0
    ensures OneStack(rs, rs0, i, p)
  {
    VmaIsOneMapping(rs, i);
  }

  /** region_grow_piece */
  method GrowPiece(sp: AddrSpace, i: nat, p: nat, h: StackHost, ghost mem: Memory, ghost lim: Limits) returns (ok: bool)
    requires sp.Valid() && MayGrow(sp.regions, i, p, lim) && ZeroInv(sp.bk, mem)
    requires h.piece.Some? ==> HostFree(sp.bk, h.piece.value, h.room + (sp.regions[i].start - p))
    requires h.piece.Some? ==> ZeroAt(mem, h.piece.value, h.piece.value + h.room + (sp.regions[i].start - p))
    modifies sp, sp.pt.Repr
    ensures sp.Valid() && fresh(sp.pt.Repr - old(sp.pt.Repr)) && ZeroInv(sp.bk, mem)
    ensures sp.bk == old(sp.bk).(maps := sp.bk.maps, next := sp.bk.next)
    ensures ok <==> h.piece.Some?
    ensures !ok ==> sp.regions == old(sp.regions) && sp.bk == old(sp.bk) && sp.pt.view == old(sp.pt.view)
    ensures ok ==> Grew(sp, old(sp.regions), old(sp.pt.view), i, p, mem, mem)
  {
    hide At, Listed, SpaceInv, PageTable.Valid, VmaTop, MappedPages, ZeroInv, GapOk;
    if h.piece.None? { return false; }
    var r, grow, base := sp.regions[i], sp.regions[i].start - p, h.piece.value;
    Shape(sp.regions, sp.bk, sp.pt.view);
    RoomIs(sp.regions, sp.bk, i);
    FirstAbove(sp.regions, i, p);
    var piece := PieceOf(r, p, base + h.room, sp.bk.next);
    ghost var rs0, bk0, v0 := sp.regions, sp.bk, sp.pt.view;
    sp.bk := New(sp.bk, base, h.room + grow, h.room);
    sp.InsertRegion(piece);
    sp.pt.SetRange(p, grow, base + h.room, r.prot, true);
    MapSpace(rs0, bk0, v0, rs0, bk0, piece, base, h.room + grow, h.room, sp.pt.view);
    PieceGrew(rs0, sp.regions, sp.bk, sp.pt.view, i, p, piece);
    BackingKeepsZeroes(bk0, bk0, base, h.room + grow, h.room, mem);
    ok := true;
  }

  lemma {:induction false} PieceGrew(rs0: seq<Region>, rs: seq<Region>, bk: Backing, v: seq<Pte>, i: nat, p: int, piece: Region)
    requires Sorted(rs0) && i < |rs0| && (forall k :: 0 <= k < i ==> rs0[k].end <= p) && p < rs0[i].start
    requires rs0[i].attr.growsdown && AttrOk(rs0[i]) && piece == PieceOf(rs0[i], p, piece.host, piece.hmap)
    requires rs == Insert(rs0, piece) && SpaceInv(rs, bk, v)
    ensures i < |rs| && rs[i] == piece && OneStack(rs, rs0, i, p)
  {
    hide At, Insert;
    Shape(rs, bk, v);
    PiecePlace(rs0, i, piece);
    PieceTop(rs0, i, piece);
    OneStackIs(rs, rs0, i, p);
  }

  // ------------------------------------------------------------ growth

  lemma {:induction false} PieceFree(bk: Backing, bk0: Backing, r: Region, grow: nat, h: StackHost, mem: Memory)
    requires r.hmap in bk0.maps && HostGives(bk0, r, grow, h) && HandsZeroes(bk0, r, grow, h, mem)
    requires Deepened(bk, bk0, r, grow, h) && h.piece.Some?
    ensures HostFree(bk, h.piece.value, h.room + grow) && ZeroAt(mem, h.piece.value, h.piece.value + h.room + grow)
  {
  }

  /** as_stack_extend: in the room under the backing, or in a piece. */
  method Extend(sp: AddrSpace, i: nat, p: nat, h: StackHost, ghost mem: Memory, ghost lim: Limits)
    returns (ok: bool, ghost mem': Memory)
    requires sp.Valid() && MayGrow(sp.regions, i, p, lim) && ZeroInv(sp.bk, mem) && sp.regions[i].hmap in sp.bk.maps
    requires HostGives(sp.bk, sp.regions[i], sp.regions[i].start - p, h)
    requires HandsZeroes(sp.bk, sp.regions[i], sp.regions[i].start - p, h, mem)
    modifies sp, sp.pt.Repr
    ensures sp.Valid() && fresh(sp.pt.Repr - old(sp.pt.Repr)) && ZeroInv(sp.bk, mem')
    ensures sp.bk == old(sp.bk).(maps := sp.bk.maps, next := sp.bk.next)
    ensures ok <==> GrowsInPlace(old(sp.regions), old(sp.bk), i, old(sp.regions)[i].start - p, h) || h.piece.Some?
    ensures !ok ==> sp.regions == old(sp.regions) && sp.pt.view == old(sp.pt.view) && mem' == mem
    ensures ok ==> Grew(sp, old(sp.regions), old(sp.pt.view), i, p, mem, mem')
  {
    hide At, Listed, SpaceInv, PageTable.Valid, VmaTop, MappedPages, ZeroInv, GapOk, HostGives, Deepened, Deeper, HandsZeroes;
    var r, grow := sp.regions[i], sp.regions[i].start - p;
    Shape(sp.regions, sp.bk, sp.pt.view);
    RoomIs(sp.regions, sp.bk, i);
    FirstAbove(sp.regions, i, p);
    ghost var rs0, v0 := sp.regions, sp.pt.view;
    ok, mem' := GrowDown(sp, i, grow, h, mem);
    if ok {
      sp.regions := sp.regions[i := Lowered(r, p)];
      sp.pt.SetRange(p, grow, r.host - grow, r.prot, true);
      LoweredSpace(rs0, sp.bk, v0, i, p, sp.pt.view);
      LoweredTop(rs0, i, p);
      Shape(sp.regions, sp.bk, sp.pt.view);
      OneStackIs(sp.regions, rs0, i, p);
    } else {
      if h.piece.Some? { PieceFree(sp.bk, old(sp.bk), r, grow, h, mem); }
      ok := GrowPiece(sp, i, p, h, mem, lim);
    }
  }

  /** as_stack_grow: the entry of page `p` afterwards, Absent where the guest
   faults. `nogrow` is set where a fault must not change the space. */
  method Fault(sp: AddrSpace, p: nat, lim: Limits, nogrow: bool, h: StackHost, ghost mem: Memory)
    returns (pte: Pte, ghost mem': Memory)
    requires sp.Valid() && p < PAGES && ZeroInv(sp.bk, mem)
    requires forall i: nat :: MayGrow(sp.regions, i, p, lim) && sp.regions[i].hmap in sp.bk.maps ==>
               && HostGives(sp.bk, sp.regions[i], sp.regions[i].start - p, h)
               && HandsZeroes(sp.bk, sp.regions[i], sp.regions[i].start - p, h, mem)
    modifies sp, sp.pt.Repr
    ensures sp.Valid() && fresh(sp.pt.Repr - old(sp.pt.Repr)) && ZeroInv(sp.bk, mem')
    ensures sp.bk == old(sp.bk).(maps := sp.bk.maps, next := sp.bk.next)
    ensures Announced(sp.pt.view, sp.bk, old(sp.pt.view), old(sp.bk))
    ensures nogrow ==> pte.Absent? && sp.regions == old(sp.regions) && sp.pt.view == old(sp.pt.view) && mem' == mem
    ensures !nogrow && InStack(old(sp.regions), p) ==>
              pte == old(sp.pt.view)[p] && sp.regions == old(sp.regions) && sp.pt.view == old(sp.pt.view) && mem' == mem
    ensures !nogrow && !InStack(old(sp.regions), p) ==>
              if pte.Absent? then
                && sp.regions == old(sp.regions) && sp.pt.view == old(sp.pt.view) && mem' == mem
                && (forall i: nat :: MayGrow(old(sp.regions), i, p, lim) && old(sp.regions)[i].hmap in old(sp.bk).maps ==>
                      h.piece.None? && !GrowsInPlace(old(sp.regions), old(sp.bk), i, old(sp.regions)[i].start - p, h))
              else exists i :: MayGrow(old(sp.regions), i, p, lim) && pte == sp.pt.view[p]
                               && Grew(sp, old(sp.regions), old(sp.pt.view), i, p, mem, mem')
  {
    hide At, Listed, SpaceInv, PageTable.Valid, MayGrow, Grew, HostGives, HandsZeroes, ZeroInv;
    mem' := mem;
    pte := Absent;
    if nogrow { return; }
    Shape(sp.regions, sp.bk, sp.pt.view);
    var g := GrowsTo(sp.regions, p, lim);
    if g == Growth.Present {
      pte := sp.pt.Get(p);
    } else if g.Grows? {
      assert MayGrow(sp.regions, g.i, p, lim);
      GrowBounds(sp.regions, sp.bk, g.i, p, lim);
      var ok;
      ok, mem' := Extend(sp, g.i, p, h, mem, lim);
      if ok {
        GrewPage(sp, old(sp.regions), old(sp.pt.view), g.i, p, mem, mem', old(sp.regions)[g.i].start);
        GrowthIsNew(sp, old(sp.regions), old(sp.bk), old(sp.pt.view), g.i, p, mem, mem', lim);
        pte := sp.pt.Get(p);
      }
    }
  }

  lemma {:induction false} GrowBounds(rs: seq<Region>, bk: Backing, i: nat, p: int, lim: Limits)
    requires Listed(rs, bk) && MayGrow(rs, i, p, lim)
    ensures i < |rs| && p < rs[i].start && rs[i].hmap in bk.maps
  {
    RoomIs(rs, bk, i);
  }

  /** Growth touches no entry that was live, so no cached translation is wrong. */
  lemma {:induction false} GrowthIsNew(sp: AddrSpace, rs0: seq<Region>, bk0: Backing, v0: seq<Pte>, i: nat, p: nat,
                                       mem: Memory, mem': Memory, lim: Limits)
    requires SpaceInv(rs0, bk0, v0) && MayGrow(rs0, i, p, lim) && Grew(sp, rs0, v0, i, p, mem, mem')
    ensures Announced(sp.pt.view, sp.bk, v0, bk0)
  {
    hide At, Listed, VmaTop, MappedPages, GapOk, OneStack, ZeroAt, KeepsContents;
    Shape(rs0, bk0, v0);
    FirstAbove(rs0, i, p);
    FreeAbsent(rs0, bk0, v0, p, rs0[i].start);
  }

  lemma {:induction false} GrewPage(sp: AddrSpace, rs0: seq<Region>, v0: seq<Pte>, i: nat, p: nat, mem: Memory, mem': Memory, top: int)
    requires Grew(sp, rs0, v0, i, p, mem, mem') && p < PAGES && p < top && rs0[i].start == top
    ensures |sp.pt.view| == PAGES && sp.pt.view[p].Present?
  {
  }

  /** After growth the whole mapping, every piece of it, is within RLIMIT_STACK. */
  lemma {:induction false} WithinStackLimit(rs: seq<Region>, rs0: seq<Region>, i: nat, p: int, lim: Limits)
    requires MayGrow(rs0, i, p, lim) && OneStack(rs, rs0, i, p) && lim.stack.Some?
    ensures (VmaTop(rs, i) - rs[i].start) * PAGE <= lim.stack.value
  {
  }
}
