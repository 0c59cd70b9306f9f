/**
 mremap: moving a mapping to another guest address, duplicating a shared one,
 and growing one where it stands.
 */
module Remap {
  import opened Options
  import opened RegionList
  import opened Backing
  import opened PageTable
  import opened Space
  import opened AddressSpace

  // ------------------------------------------------------------ moving

  function Shifted(s: Option<Region>, delta: int): Option<Region> {
    if s.Some? then Some(s.value.(start := s.value.start + delta, end := s.value.end + delta)) else None
  }

  /** The mapping at `p` once the first `k` pages from `lo` appear at `dst`. */
  function CopiedAt(rs: seq<Region>, lo: nat, dst: int, k: nat, p: int): Option<Region> {
    if dst <= p < dst + k then Shifted(At(rs, p - dst + lo), dst - lo) else At(rs, p)
  }

  function CopiedPte(v: seq<Pte>, lo: nat, dst: int, k: nat, p: nat): Pte
    requires lo + k <= |v| && p < |v|
  {
    if dst <= p < dst + k then v[p - dst + lo] else v[p]
  }

  /** What was at [lo, lo + n), holes and all, is at [dst, dst + n); the old range
   is empty; nothing else changed. */
  ghost predicate MovedOver(rs: seq<Region>, v: seq<Pte>, rs0: seq<Region>, v0: seq<Pte>, lo: nat, dst: int, n: nat) {
    && |v| == |v0| == PAGES && lo + n <= PAGES
    && (forall p :: At(rs, p) == if lo <= p < lo + n then None else CopiedAt(rs0, lo, dst, n, p))
    && (forall p :: 0 <= p < PAGES ==> v[p] == if lo <= p < lo + n then Absent else CopiedPte(v0, lo, dst, n, p))
  }

  /** Half way: the first `k` pages have been copied, none released. */
  ghost predicate Copied(rs: seq<Region>, v: seq<Pte>, rs1: seq<Region>, v1: seq<Pte>, lo: nat, dst: int, k: nat) {
    && |v| == |v1| == PAGES && lo + k <= PAGES
    && (forall p :: At(rs, p) == CopiedAt(rs1, lo, dst, k, p))
    && (forall p :: 0 <= p < PAGES ==> v[p] == CopiedPte(v1, lo, dst, k, p))
  }

  predicate Disjoint(a: int, b: int, n: nat) { a + n <= b || b + n <= a }

  /** A second region over part of another's backing. */
  function CopyOf(r: Region, pos: int, start: int, n: nat): Region {
    r.(start := start, end := start + n, host := r.host + (pos - r.start), fileOff := r.fileOff + (pos - r.start))
  }

  lemma {:induction false} CopyListed(rs: seq<Region>, bk: Backing, i: nat, pos: int, start: int, n: nat)
    requires Listed(rs, bk) && i < |rs| && rs[i].start <= pos && n > 0 && pos + n <= rs[i].end
    requires 0 <= start && start + n <= PAGES
    requires forall p :: start <= p < start + n ==> At(rs, p).None?
    ensures rs[i].hmap in bk.maps
    ensures Listed(Insert(rs, CopyOf(rs[i], pos, start, n)), Ref(bk, rs[i].hmap))
    ensures var nr := CopyOf(rs[i], pos, start, n);
            forall p :: At(Insert(rs, nr), p) == if Covers(nr, p) then Some(Slice(nr, p)) else At(rs, p)
  {
    var nr := CopyOf(rs[i], pos, start, n);
    var rs' := Insert(rs, nr);
    RefPositive(rs, i);
    hide At, Insert, RefCount;
    FreeGround(rs, start, start + n);
    InsertFree(rs, nr);
    RefLife(bk, rs, rs', rs[i].hmap);
    UnrefWithin(bk, rs[i].hmap);
    forall k | 0 <= k < |rs'|
      ensures SliceOk(bk, rs'[k]) && 0 <= rs'[k].start && rs'[k].end <= PAGES
    {
      assert rs'[k] in rs' && SliceOk(bk, rs[i]);
      if rs'[k] != nr {
        var j :| 0 <= j < |rs| && rs[j] == rs'[k];
        assert SliceOk(bk, rs[j]);
      }
    }
    hide Life, Within;
    ListedKept(rs, bk, rs', Ref(bk, rs[i].hmap));
  }

  lemma {:induction false} StillFree(rs: seq<Region>, v: seq<Pte>, rs1: seq<Region>, v1: seq<Pte>, lo: nat, dst: int, k: nat, n: nat)
    requires Copied(rs, v, rs1, v1, lo, dst, k) && k <= n
    requires forall p :: dst <= p < dst + n ==> At(rs1, p).None?
    ensures forall p :: dst + k <= p < dst + n ==> At(rs, p).None?
  {
    hide At;
    assert forall p :: dst + k <= p < dst + n ==> CopiedAt(rs1, lo, dst, k, p) == At(rs1, p);
  }

  lemma {:induction false} CopyStep(rs: seq<Region>, bk: Backing, v: seq<Pte>, v': seq<Pte>, rs1: seq<Region>, v1: seq<Pte>,
                 lo: nat, dst: int, k: nat, n: nat, i: nat, m: nat)
    requires Listed(rs, bk) && Copied(rs, v, rs1, v1, lo, dst, k) && Disjoint(lo, dst, n) && k + m <= n
    requires lo + n <= PAGES && 0 <= dst && dst + n <= PAGES && m > 0
    requires forall p :: dst <= p < dst + n ==> At(rs1, p).None? && v1[p].Absent?
    requires i < |rs| && rs[i].start <= lo + k && lo + k + m <= rs[i].end
    requires |v'| == PAGES
    requires forall p :: 0 <= p < PAGES ==> v'[p] == CopyAt(v, lo + k, dst + k, m, p)
    ensures rs[i].hmap in bk.maps
    ensures var nr := CopyOf(rs[i], lo + k, dst + k, m);
            && Listed(Insert(rs, nr), Ref(bk, rs[i].hmap))
            && Copied(Insert(rs, nr), v', rs1, v1, lo, dst, k + m)
  {
    var nr := CopyOf(rs[i], lo + k, dst + k, m);
    hide At, Insert, RefCount, Listed;
    StillFree(rs, v, rs1, v1, lo, dst, k, n);
    ListIsSorted(rs, bk);
    CopyListed(rs, bk, i, lo + k, dst + k, m);
    forall p ensures At(Insert(rs, nr), p) == CopiedAt(rs1, lo, dst, k + m, p)
    {
      CopyStepAt(rs, rs1, Insert(rs, nr), lo, dst, k, n, i, m, p);
    }
    CopyStepPte(v, v', v1, lo, dst, k, n, m);
  }

  lemma {:induction false} CopyStepPte(v: seq<Pte>, v': seq<Pte>, v1: seq<Pte>, lo: nat, dst: int, k: nat, n: nat, m: nat)
    requires |v| == |v'| == |v1| == PAGES && Disjoint(lo, dst, n) && k + m <= n && lo + n <= PAGES
    requires 0 <= dst && dst + n <= PAGES
    requires forall p :: dst <= p < dst + n ==> v1[p].Absent?
    requires forall p :: 0 <= p < PAGES ==> v[p] == CopiedPte(v1, lo, dst, k, p)
    requires forall p :: 0 <= p < PAGES ==> v'[p] == CopyAt(v, lo + k, dst + k, m, p)
    ensures forall p :: 0 <= p < PAGES ==> v'[p] == CopiedPte(v1, lo, dst, k + m, p)
  {
    forall p | 0 <= p < PAGES ensures v'[p] == CopiedPte(v1, lo, dst, k + m, p)
    {
      assert dst + k <= p < dst + k + m ==> v[p - dst + lo] == CopiedPte(v1, lo, dst, k, p - dst + lo);
    }
  }

  lemma {:induction false} CopyStepAt(rs: seq<Region>, rs1: seq<Region>, rs': seq<Region>, lo: nat, dst: int, k: nat, n: nat,
                   i: nat, m: nat, p: int)
    requires Sorted(rs) && Disjoint(lo, dst, n) && k + m <= n
    requires forall q :: At(rs, q) == CopiedAt(rs1, lo, dst, k, q)
    requires i < |rs| && rs[i].start <= lo + k && lo + k + m <= rs[i].end
    requires var nr := CopyOf(rs[i], lo + k, dst + k, m);
             forall q :: At(rs', q) == if Covers(nr, q) then Some(Slice(nr, q)) else At(rs, q)
    ensures At(rs', p) == CopiedAt(rs1, lo, dst, k + m, p)
  {
    hide At;
    if dst + k <= p < dst + k + m {
      AtIndex(rs, i, p - dst + lo);
      assert At(rs, p - dst + lo) == CopiedAt(rs1, lo, dst, k, p - dst + lo) == At(rs1, p - dst + lo);
    } else {
      assert At(rs, p) == CopiedAt(rs1, lo, dst, k, p);
    }
  }

  lemma {:induction false} SkipHole(rs: seq<Region>, bk: Backing, v: seq<Pte>, rs1: seq<Region>, bk1: Backing, v1: seq<Pte>,
                 lo: nat, dst: int, k: nat, n: nat)
    requires Copied(rs, v, rs1, v1, lo, dst, k) && Disjoint(lo, dst, n) && k < n && lo + n <= PAGES && 0 <= dst
    requires SpaceInv(rs1, bk1, v1) && At(rs, lo + k).None?
    requires forall p :: dst <= p < dst + n ==> At(rs1, p).None? && (p < PAGES ==> v1[p].Absent?)
    ensures Copied(rs, v, rs1, v1, lo, dst, k + 1)
  {
    hide At, Listed;
    assert CopiedAt(rs1, lo, dst, k, lo + k) == At(rs1, lo + k);
    assert CoherentAt(rs1, v1, lo + k);
    forall p
      ensures At(rs, p) == CopiedAt(rs1, lo, dst, k + 1, p)
    {
      assert At(rs, p) == CopiedAt(rs1, lo, dst, k, p);
    }
  }

  /** Copied whole and then released at the old address. */
  lemma {:induction false} MoveSpace(rs0: seq<Region>, bk0: Backing, v0: seq<Pte>, rs1: seq<Region>, v1: seq<Pte>,
                  rs2: seq<Region>, v2: seq<Pte>, rs: seq<Region>, bk: Backing, v: seq<Pte>,
                  lo: nat, dst: int, n: nat)
    requires SpaceInv(rs0, bk0, v0) && Disjoint(lo, dst, n) && 0 <= dst && dst + n <= PAGES && lo + n <= PAGES
    requires UnmappedOver(rs1, v1, rs0, v0, dst, dst + n)
    requires Copied(rs2, v2, rs1, v1, lo, dst, n)
    requires UnmappedOver(rs, v, rs2, v2, lo, lo + n) && Listed(rs, bk)
    ensures SpaceInv(rs, bk, v) && MovedOver(rs, v, rs0, v0, lo, dst, n)
  {
    hide At, Listed;
    forall p
      ensures At(rs, p) == if lo <= p < lo + n then None else CopiedAt(rs0, lo, dst, n, p)
    {
      assert At(rs2, p) == CopiedAt(rs1, lo, dst, n, p);
      assert dst <= p < dst + n ==> At(rs1, p - dst + lo) == At(rs0, p - dst + lo);
    }
    MovedApart(rs, rs0, lo, dst, n);
    forall p | 0 <= p < PAGES
      ensures CoherentAt(rs, v, p)
    {
      assert CoherentAt(rs0, v0, if dst <= p < dst + n then p - dst + lo else p);
    }
  }

  lemma {:induction false} MovedApart(rs: seq<Region>, rs0: seq<Region>, lo: nat, dst: int, n: nat)
    requires HostsApart(rs0) && Disjoint(lo, dst, n)
    requires forall p :: At(rs, p) == if lo <= p < lo + n then None else CopiedAt(rs0, lo, dst, n, p)
    ensures HostsApart(rs)
  {
    hide At;
    forall p, q | At(rs, p).Some? && At(rs, q).Some? && p != q
      ensures At(rs, p).value.host != At(rs, q).value.host
    {
      var p0 := if dst <= p < dst + n then p - dst + lo else p;
      var q0 := if dst <= q < dst + n then q - dst + lo else q;
      assert At(rs0, p0).Some? && At(rs0, q0).Some? && p0 != q0;
    }
  }

  /** guest_remap_move */
  method Move(sp: AddrSpace, addr: nat, len: nat, dst: nat) returns (st: Status)
    requires sp.Valid()
    modifies sp, sp.pt.Repr
    ensures sp.Valid() && fresh(sp.pt.Repr - old(sp.pt.Repr))
    ensures st == if MapArgs(addr, len) && MapArgs(dst, len) && (addr + len <= dst || dst + len <= addr) then Ok else EINVAL
    ensures st != Ok ==> sp.regions == old(sp.regions) && sp.bk == old(sp.bk) && sp.pt.view == old(sp.pt.view)
    ensures st == Ok ==> MovedOver(sp.regions, sp.pt.view, old(sp.regions), old(sp.pt.view),
                                   addr / PAGE, dst / PAGE, len / PAGE)
    ensures st == Ok ==> PublishedSince(sp.bk, old(sp.bk)) && sp.Told()
  {
    hide At, Listed, SpaceInv, PageTable.Valid, Copied, MovedOver, KeepsPages;
    if !MapArgs(addr, len) || !MapArgs(dst, len) { return EINVAL; }
    if dst < addr + len && addr < dst + len { return EINVAL; }
    var lo, d, n := addr / PAGE, dst / PAGE, len / PAGE;
    PageRange(addr, len);
    PageRange(dst, len);
    var un := sp.Unmap(dst, len);
    ghost var rs1, bk1, v1 := sp.regions, sp.bk, sp.pt.view;
    Shape(rs1, bk1, v1);
    CopyPages(sp, lo, d, n);
    ghost var rs2, bk2, v2 := sp.regions, sp.bk, sp.pt.view;
    sp.Punch(lo, lo + n);
    sp.pt.SetRange(lo, n, 0, 0, false);
    MoveSpace(old(sp.regions), old(sp.bk), old(sp.pt.view), rs1, v1, rs2, v2, sp.regions, sp.bk, sp.pt.view, lo, d, n);
    BumpSpace(sp.regions, sp.bk, sp.pt.view, sp.bk.gen + 1);
    KeepsSelf(sp.regions, sp.bk, sp.pt.view);
    sp.bk := Bump(sp.bk);
    PublishedThen(bk1, bk2, sp.bk);
    PublishedThen(old(sp.bk), bk1, sp.bk);
    sp.toldRegions, sp.toldView := sp.regions, sp.pt.view;
    st := Ok;
  }

  /** The slice loop of guest_remap_move, source by source. */
  method CopyPages(sp: AddrSpace, lo: nat, dst: nat, n: nat)
    requires sp.Valid() && Disjoint(lo, dst, n) && lo + n <= PAGES && dst + n <= PAGES
    requires forall p :: dst <= p < dst + n ==> At(sp.regions, p).None? && sp.pt.view[p].Absent?
    modifies sp`regions, sp`bk, sp`toldRegions, sp`toldView, sp.pt.Repr
    ensures sp.pt.Valid() && sp !in sp.pt.Repr && fresh(sp.pt.Repr - old(sp.pt.Repr))
    ensures Listed(sp.regions, sp.bk) && sp.bk.gen == old(sp.bk).gen + 1
    ensures Within(sp.bk, old(sp.bk)) && sp.bk.retired == old(sp.bk).retired && sp.bk.released == old(sp.bk).released
    ensures Copied(sp.regions, sp.pt.view, old(sp.regions), old(sp.pt.view), lo, dst, n)
  {
    hide At, Listed, SpaceInv, PageTable.Valid, Copied, Ref, KeepsPages;
    ghost var rs1, bk1, v1 := sp.regions, sp.bk, sp.pt.view;
    Shape(rs1, bk1, v1);
    CopiedNone(rs1, v1, lo, dst);
    var k := 0;
    while k < n
      invariant 0 <= k <= n && sp.pt.Valid() && sp !in sp.pt.Repr && fresh(sp.pt.Repr - old(sp.pt.Repr))
      invariant Listed(sp.regions, sp.bk) && Sorted(sp.regions) && sp.bk.gen == old(sp.bk).gen
      invariant Within(sp.bk, bk1) && sp.bk.retired == bk1.retired && sp.bk.released == bk1.released
      invariant Copied(sp.regions, sp.pt.view, rs1, v1, lo, dst, k)
    {
      var i := sp.Find(lo + k);
      if i < 0 {
        SkipHole(sp.regions, sp.bk, sp.pt.view, rs1, bk1, v1, lo, dst, k, n);
        k := k + 1;
      } else {
        var src := sp.regions[i];
        var m := if src.end < lo + n then src.end - (lo + k) else n - k;
        ghost var rs, bk, v := sp.regions, sp.bk, sp.pt.view;
        StillFree(rs, v, rs1, v1, lo, dst, k, n);
        CopyListed(rs, bk, i, lo + k, dst + k, m);
        RefFields(sp.bk, src.hmap);
        sp.bk := Ref(sp.bk, src.hmap);
        sp.InsertRegion(CopyOf(src, lo + k, dst + k, m));
        sp.pt.CopyRange(lo + k, dst + k, m);
        CopyStep(rs, bk, v, sp.pt.view, rs1, v1, lo, dst, k, n, i, m);
        ListIsSorted(sp.regions, sp.bk);
        k := k + m;
      }
    }
    BumpListed(sp.regions, sp.bk, sp.bk.gen + 1);
    sp.bk := Bump(sp.bk);
    sp.toldRegions, sp.toldView := sp.regions, sp.pt.view;
  }

  lemma {:induction false} CopiedNone(rs: seq<Region>, v: seq<Pte>, lo: nat, dst: int)
    requires |v| == PAGES && lo <= PAGES
    ensures Copied(rs, v, rs, v, lo, dst, 0)
  {
  }

  lemma {:induction false} ListIsSorted(rs: seq<Region>, bk: Backing)
    requires Listed(rs, bk)
    ensures Sorted(rs)
  {
  }

  // ------------------------------------------------------------ duplicating

  /** Has page `p` of the duplicate, `off` pages into it, an entry? */
  predicate DupLive(v0: seq<Pte>, lo: nat, srcEnd: int, off: nat) {
    lo + off < srcEnd && lo + off < |v0| && v0[lo + off].Present?
  }

  /** A second mapping of the shared object at `lo`, present where the source is. */
  ghost predicate DuplicatedOver(rs: seq<Region>, v: seq<Pte>, rs0: seq<Region>, v0: seq<Pte>, n: Region, lo: nat, srcEnd: int) {
    && |v| == |v0| == PAGES
    && (forall p :: At(rs, p) == if Covers(n, p) then Some(Slice(n, p)) else At(rs0, p))
    && (forall p :: 0 <= p < PAGES ==>
          v[p] == if Covers(n, p) then SetPte(n.host + (p - n.start), n.prot, DupLive(v0, lo, srcEnd, p - n.start)) else v0[p])
  }

  /** guest_remap_dup */
  method Dup(sp: AddrSpace, addr: nat, len: nat, dst: nat, host: Option<int>) returns (st: Status, ghost src: Region)
    requires sp.Valid() && (host.Some? ==> HostFree(sp.bk, host.value, len / PAGE))
    modifies sp, sp.pt.Repr
    ensures sp.Valid() && fresh(sp.pt.Repr - old(sp.pt.Repr))
    ensures st == if !(Aligned(addr) && Aligned(len) && Aligned(dst)) || len == 0 then EINVAL
                  else if !RangeOk(dst, len) then ENOMEM
                  else if At(old(sp.regions), addr / PAGE).None? then EFAULT
                  else if !At(old(sp.regions), addr / PAGE).value.attr.shared then EINVAL
                  else if !AllFree(old(sp.regions), dst / PAGE, (dst + len) / PAGE) || host.None? then ENOMEM
                  else Ok
    ensures st != Ok ==> sp.regions == old(sp.regions) && sp.bk == old(sp.bk) && sp.pt.view == old(sp.pt.view)
    ensures st == Ok ==> PublishedSince(sp.bk, old(sp.bk)) && sp.Told()
    ensures st == Ok ==>
              && MapArgs(dst, len) && src in old(sp.regions) && Covers(src, addr / PAGE) && src.attr.shared
              && host.Some? && AllFree(old(sp.regions), dst / PAGE, (dst + len) / PAGE)
              && DuplicatedOver(sp.regions, sp.pt.view, old(sp.regions), old(sp.pt.view),
                   CopyOf(src, addr / PAGE, dst / PAGE, len / PAGE).(host := host.value, hmap := old(sp.bk).next),
                   addr / PAGE, src.end)
  {
    hide At, Listed, SpaceInv, PageTable.Valid, DuplicatedOver, KeepsPages;
    src := Region(0, 0, 0, 0, 0, None, 0, Plain);
    if !(Aligned(addr) && Aligned(len) && Aligned(dst)) || len == 0 { return EINVAL, src; }
    if !RangeOk(dst, len) { return ENOMEM, src; }
    Shape(sp.regions, sp.bk, sp.pt.view);
    var lo, d, n := addr / PAGE, dst / PAGE, len / PAGE;
    PageRange(dst, len);
    var i := sp.Find(lo);
    if i < 0 { return EFAULT, src; }
    var r := sp.regions[i];
    if !r.attr.shared { return EINVAL, src; }
    var free := sp.CheckFree(d, d + n);
    if !free { return ENOMEM, src; }
    if host.None? { return ENOMEM, src; }
    src := r;
    var nr := CopyOf(r, lo, d, n).(host := host.value, hmap := sp.bk.next);
    ghost var rs0, bk0, v0 := sp.regions, sp.bk, sp.pt.view;
    FreeGround(rs0, d, d + n);
    sp.bk := New(sp.bk, host.value, n, 0);
    sp.InsertRegion(nr);
    DupEntries(sp.pt, lo, nr, r.end);
    DupSpace(rs0, bk0, v0, i, nr, lo, host.value, n, sp.pt.view);
    BumpSpace(sp.regions, sp.bk, sp.pt.view, sp.bk.gen + 1);
    KeepsSelf(sp.regions, sp.bk, sp.pt.view);
    sp.bk := Bump(sp.bk);
    sp.toldRegions, sp.toldView := sp.regions, sp.pt.view;
    st := Ok;
  }

  /** The page loop of guest_remap_dup. */
  method DupEntries(pt: PageTable, lo: nat, n: Region, srcEnd: int)
    requires pt.Valid() && 0 <= n.start < n.end <= PAGES && srcEnd <= PAGES
    requires n.end <= lo || srcEnd <= n.start
    modifies pt.Repr
    ensures pt.Valid() && fresh(pt.Repr - old(pt.Repr))
    ensures forall p :: 0 <= p < PAGES ==>
              pt.view[p] == if Covers(n, p) && DupLive(old(pt.view), lo, srcEnd, p - n.start)
                            then Present(n.host + (p - n.start), n.prot) else old(pt.view)[p]
  {
    hide PageTable.Valid;
    var off := 0;
    while off < n.end - n.start
      invariant 0 <= off <= n.end - n.start && pt.Valid() && fresh(pt.Repr - old(pt.Repr))
      invariant forall p :: 0 <= p < PAGES ==>
                  pt.view[p] == if n.start <= p < n.start + off && DupLive(old(pt.view), lo, srcEnd, p - n.start)
                                then Present(n.host + (p - n.start), n.prot) else old(pt.view)[p]
    {
      if lo + off < srcEnd {
        var pte := pt.Get(lo + off);
        if pte.Present? {
          pt.PutOne(n.start + off, Present(n.host + off, n.prot));
        }
      }
      off := off + 1;
    }
  }

  lemma {:induction false} DupSpace(rs0: seq<Region>, bk0: Backing, v0: seq<Pte>, i: nat, nr: Region, lo: nat,
                                    host: int, n: nat, v: seq<Pte>)
    requires SpaceInv(rs0, bk0, v0) && i < |rs0| && rs0[i].attr.shared && Covers(rs0[i], lo) && n > 0
    requires nr == CopyOf(rs0[i], lo, nr.start, n).(host := host, hmap := bk0.next) && HostFree(bk0, host, n)
    requires 0 <= nr.start && nr.end <= PAGES && AllFree(rs0, nr.start, nr.end)
    requires |v| == PAGES
    requires forall p :: 0 <= p < PAGES ==>
               v[p] == if Covers(nr, p) && DupLive(v0, lo, rs0[i].end, p - nr.start)
                       then Present(nr.host + (p - nr.start), nr.prot) else v0[p]
    ensures SpaceInv(Insert(rs0, nr), New(bk0, host, n, 0), v)
    ensures DuplicatedOver(Insert(rs0, nr), v, rs0, v0, nr, lo, rs0[i].end)
  {
    hide At, Insert, SpaceInv, Listed, Within, HostFree, New, DupLive, Sorted;
    SharedIsFile(rs0, bk0, v0, i);
    FreeAbsent(rs0, bk0, v0, nr.start, nr.end);
    WithinSelf(bk0);
    Shape(rs0, bk0, v0);
    DupPtes(v, v0, nr, lo, rs0[i].end);
    MapSpace(rs0, bk0, v0, rs0, bk0, nr, host, n, 0, v);
  }

  lemma {:induction false} DupPtes(v: seq<Pte>, v0: seq<Pte>, nr: Region, lo: nat, srcEnd: int)
    requires |v| == |v0| == PAGES && 0 <= nr.start && nr.end <= PAGES
    requires forall p :: nr.start <= p < nr.end ==> v0[p].Absent?
    requires forall p :: 0 <= p < PAGES ==>
               v[p] == if Covers(nr, p) && DupLive(v0, lo, srcEnd, p - nr.start)
                       then Present(nr.host + (p - nr.start), nr.prot) else v0[p]
    ensures forall p :: 0 <= p < PAGES && !Covers(nr, p) ==> v[p] == v0[p]
    ensures forall p :: nr.start <= p < nr.end ==>
              v[p] == SetPte(nr.host + (p - nr.start), nr.prot, DupLive(v0, lo, srcEnd, p - nr.start))
    ensures forall p :: nr.start <= p < nr.end ==>
              v[p] == Present(nr.host + (p - nr.start), nr.prot) || v[p].Absent?
  {
  }

  lemma {:induction false} SharedIsFile(rs: seq<Region>, bk: Backing, v: seq<Pte>, i: nat)
    requires SpaceInv(rs, bk, v) && i < |rs| && rs[i].attr.shared
    ensures rs[i].attr.hostmap && AttrOk(rs[i])
  {
    assert SliceOk(bk, rs[i]);
  }

  lemma {:induction false} WithinSelf(bk: Backing)
    ensures Within(bk, bk)
  {
  }
}
