/**
 A guest address space and the operations that change it: a sorted region list,
 a two-level page table and the host allocations behind both. What the host
 kernel answers is a parameter of the operation that asks.
 */
module AddressSpace {
  import opened Options
  import opened RegionList
  import opened Backing
  import opened PageTable
  import opened Space

  const PAGE: nat := 4096
  const TASK_SIZE: nat := PAGES * PAGE

  /** Where new mappings are placed from, as a page number. */
  const MMAP_FLOOR: nat := 0x600_0000

  datatype Status = Ok | EINVAL | ENOMEM | EFAULT | EACCES

  /** range_ok */
  predicate RangeOk(addr: nat, len: nat) { addr <= TASK_SIZE && len <= TASK_SIZE - addr }

  predicate Aligned(x: nat) { x % PAGE == 0 }

  predicate MapArgs(addr: nat, len: nat) { Aligned(addr) && Aligned(len) && RangeOk(addr, len) && len != 0 }

  function AnonRegion(addr: nat, len: nat, prot: nat, host: int, id: nat): Region {
    Region(addr / PAGE, (addr + len) / PAGE, prot, host, id, None, 0, Plain)
  }

  function StackRegion(addr: nat, len: nat, prot: nat, host: int, id: nat, stack: nat): Region {
    Region(addr / PAGE, (addr + len) / PAGE, prot, host, id, None, 0, Plain.(growsdown := true, stackId := stack))
  }

  function FileRegion(addr: nat, len: nat, prot: nat, host: int, id: nat, file: FileId, off: nat, attr: Attr): Region {
    Region(addr / PAGE, (addr + len) / PAGE, prot, host, id, Some(file), off / PAGE, attr)
  }

  /** Only a shared mapping keeps its descriptor's lack of write access. */
  function FileAttr(shared: bool, writable: bool, path: Option<string>): Attr {
    Plain.(shared := shared, wrOk := !shared || writable, hostmap := true, path := path)
  }

  /** How many pages of a mapping of `n` pages at file page `off` the file has
   (all of them when its size is unknown). */
  function LivePages(n: nat, off: nat, eof: Option<nat>): (m: nat)
    ensures m <= n
  {
    if eof.Some? && off + n > eof.value then (if off < eof.value then eof.value - off else 0) else n
  }

  predicate HasWrite(prot: nat) { prot / 2 % 2 == 1 }

  predicate ReadOnlyShared(attr: Attr) { attr.shared && !attr.wrOk }

  predicate Writable(rs: seq<Region>, lo: int, hi: int) {
    forall k :: 0 <= k < |rs| ==> !(Overlaps(rs[k], lo, hi) && ReadOnlyShared(rs[k].attr))
  }

  /** mprotect asks the host at `p`: a shared mapping's part of the range starts
   there. */
  ghost predicate Asked(rs: seq<Region>, lo: int, p: int) {
    At(rs, p).Some? && At(rs, p).value.attr.shared && (p == lo || Bounded(rs, p))
  }

  /** The change reached `upTo`: the end of the range, or the first place where
   the host was asked and refused. */
  ghost predicate StopsAt(rs: seq<Region>, refuse: set<int>, lo: int, hi: int, upTo: int, ok: bool) {
    && lo <= upTo <= hi
    && (forall p :: lo <= p < upTo && Asked(rs, lo, p) ==> p !in refuse)
    && (if ok then upTo == hi else upTo < hi && Asked(rs, lo, upTo) && upTo in refuse)
  }

  /** The first place of the range where the host, asked, refuses. */
  ghost predicate FirstRefused(rs: seq<Region>, refuse: set<int>, lo: int, p: int) {
    Asked(rs, lo, p) && p in refuse && forall q :: lo <= q < p && Asked(rs, lo, q) ==> q !in refuse
  }

  /** Below the first refusal a live entry has another protection. */
  ghost predicate SilentAt(rs: seq<Region>, v: seq<Pte>, lo: int, hi: int, prot: nat, refuse: set<int>) {
    exists p :: lo <= p < hi && FirstRefused(rs, refuse, lo, p) && !ProtAlready(v, lo, p, prot)
  }

  /** What a call of guest_protect changes without telling anyone: the arguments
   pass, and the host refuses somewhere above a page that changes. */
  ghost predicate SilentRefusal(rs: seq<Region>, v: seq<Pte>, addr: nat, len: nat, prot: nat, refuse: set<int>) {
    && Aligned(addr) && Aligned(len) && RangeOk(addr, len) && AllMapped(rs, addr / PAGE, (addr + len) / PAGE)
    && (HasWrite(prot) ==> Writable(rs, addr / PAGE, (addr + len) / PAGE))
    && SilentAt(rs, v, addr / PAGE, (addr + len) / PAGE, prot, refuse)
  }

  /** Same regions but for their protection. */
  predicate SameShape(rs: seq<Region>, rs0: seq<Region>) {
    |rs| == |rs0| && forall k :: 0 <= k < |rs| ==> rs[k] == rs0[k].(prot := rs[k].prot)
  }

  const Plain := Attr(false, true, false, false, 0, false, 0, false, 0, 0, false, false, None)

  class AddrSpace {
    const pt: PageTable
    var regions: seq<Region>
    var bk: Backing
    var stackIds: nat
    var mmapNext: nat

    /** The list and the table as they were when the generation last moved. */
    ghost var toldRegions: seq<Region>
    ghost var toldView: seq<Pte>

    ghost predicate Valid()
      reads this, pt, pt.Repr, pt.l1
    {
      && pt.Valid() && this !in pt.Repr && SpaceInv(regions, bk, pt.view)
      && KeepsPages(regions, pt.view, toldRegions, toldView)
    }

    /** No entry that is live, and none that was, has changed since the generation
     last moved. */
    ghost predicate Told()
      reads this, pt
    {
      SameView(regions, toldRegions) && pt.view == toldView
    }

    /** as_init */
    constructor ()
      ensures Valid() && regions == [] && fresh(pt.Repr) && mmapNext == MMAP_FLOOR
    {
      pt := new PageTable();
      regions := [];
      bk := Backing(map[], [], [], {}, 0, 1);
      stackIds := 0;
      mmapNext := MMAP_FLOOR;
      new;
      toldRegions, toldView := regions, pt.view;
    }

    // ---------------------------------------------------------- the region list

    /** as_find_region */
    method Find(p: nat) returns (i: int)
      requires Sorted(regions)
      ensures -1 <= i < |regions|
      ensures i < 0 <==> At(regions, p).None?
      ensures i >= 0 ==> Covers(regions[i], p) && At(regions, p) == Some(Slice(regions[i], p))
    {
      i := 0;
      while i < |regions|
        invariant 0 <= i <= |regions|
        invariant forall k :: 0 <= k < i ==> !Covers(regions[k], p)
      {
        if Covers(regions[i], p) {
          AtIndex(regions, i, p);
          return;
        }
        i := i + 1;
      }
      AtNowhere(regions, p);
      i := -1;
    }

    /** Is every page of the range free? */
    method CheckFree(lo: nat, hi: nat) returns (ok: bool)
      requires Sorted(regions)
      ensures ok == AllFree(regions, lo, hi)
    {
      hide At;
      var p := lo;
      while p < hi
        invariant lo <= p && (p <= hi || p == lo) && AllFree(regions, lo, p)
      {
        var j := Find(p);
        if j >= 0 { return false; }
        p := p + 1;
      }
      ok := true;
    }

    /** region_insert */
    method InsertRegion(r: Region)
      modifies this`regions
      ensures regions == Insert(old(regions), r)
    {
      var i := 0;
      while i < |regions| && regions[i].start < r.start
        invariant 0 <= i <= |regions|
        invariant forall k :: 0 <= k < i ==> regions[k].start < r.start
      {
        i := i + 1;
      }
      assert i == Position(regions, r.start);
      InsertIsSplice(regions, r);
      regions := regions[..i] + [r] + regions[i..];
    }

    /** region_split_at: `va` becomes a boundary, and nothing the guest can see
     changes. */
    method SplitRegionAt(va: int)
      requires Listed(regions, bk)
      modifies this`regions, this`bk
      ensures Listed(regions, bk) && SameView(regions, old(regions))
      ensures forall x :: Bounded(regions, x) <==> Bounded(old(regions), x) || x == va
      ensures bk == old(bk).(maps := bk.maps)
    {
      var i := 0;
      while i < |regions|
        invariant 0 <= i <= |regions| && regions == old(regions) && bk == old(bk)
        invariant forall k :: 0 <= k < i ==> !(regions[k].start < va < regions[k].end)
      {
        if regions[i].start < va < regions[i].end {
          var r := regions[i];
          SplitListed(regions, bk, i, va);
          SplitKeepsView(regions, i, va);
          bk := Ref(bk, r.hmap);
          regions := regions[i := Head(r, va)];
          InsertRegion(Tail(r, va));
          assert regions == SplitAt(old(regions), i, va);
          SplitBoundary(old(regions), i, va);
          return;
        }
        i := i + 1;
      }
    }

    /** region_merge_range: no boundary in [lo, hi] is left that could go. */
    method MergeRange(lo: int, hi: int)
      requires Listed(regions, bk)
      modifies this`regions, this`bk
      ensures Listed(regions, bk) && SameView(regions, old(regions))
      ensures forall i :: 0 <= i < |regions| - 1 && lo <= regions[i].end <= hi ==> !Mergeable(regions[i], regions[i + 1])
      ensures bk == old(bk).(maps := bk.maps)
    {
      hide Listed, At, Unref, Mergeable;
      var i := 0;
      while i + 1 < |regions|
        invariant 0 <= i && (i < |regions| || i == 0)
        invariant Listed(regions, bk) && SameView(regions, old(regions)) && bk == old(bk).(maps := bk.maps)
        invariant forall k :: 0 <= k < i && k + 1 < |regions| && lo <= regions[k].end <= hi ==>
                    !Mergeable(regions[k], regions[k + 1])
        decreases |regions| - i
      {
        var a, b := regions[i], regions[i + 1];
        if a.end < lo {
          i := i + 1;
        } else if a.end > hi {
          EndsAscend(regions, bk, i);
          return;
        } else if !Mergeable(a, b) {
          i := i + 1;
        } else {
          MergeListed(regions, bk, i);
          MergePrefix(regions, i);
          UnrefFields(bk, b.hmap);
          bk := Unref(bk, b.hmap);
          regions := MergeAt(regions, i);
        }
      }
    }

    /** region_punch: exactly the range goes. */
    method Punch(addr: int, end: int)
      requires Listed(regions, bk) && addr < end
      modifies this`regions, this`bk
      ensures Listed(regions, bk)
      ensures forall p :: At(regions, p) == if addr <= p < end then None else At(old(regions), p)
      ensures Within(bk, old(bk)) && Retires(bk, old(bk)) && bk.next == old(bk).next && bk.gen == old(bk).gen
    {
      var i := 0;
      while i < |regions|
        invariant 0 <= i <= |regions| && Listed(regions, bk)
        invariant forall p :: !(addr <= p < end) ==> At(regions, p) == At(old(regions), p)
        invariant forall k :: 0 <= k < i ==> !Overlaps(regions[k], addr, end)
        invariant Within(bk, old(bk)) && Retires(bk, old(bk)) && bk.next == old(bk).next && bk.gen == old(bk).gen
        decreases Overlapping(regions, addr, end), |regions| - i
      {
        var r := regions[i];
        if !Overlaps(r, addr, end) {
          i := i + 1;
        } else {
          ghost var bk1 := bk;
          i := PunchOne(i, addr, end);
          RetiresThen(old(bk), bk1, bk);
        }
      }
      forall p | addr <= p < end
        ensures At(regions, p).None?
      {
        assert forall k :: 0 <= k < |regions| ==> !Covers(regions[k], p);
        AtNowhere(regions, p);
      }
    }

    /** One overlapping region: gone, trimmed at its head or tail, or cut in two,
     in which case the scan starts over. */
    method PunchOne(i: nat, addr: int, end: int) returns (next: nat)
      requires Listed(regions, bk) && addr < end && i < |regions| && Overlaps(regions[i], addr, end)
      requires forall k :: 0 <= k < i ==> !Overlaps(regions[k], addr, end)
      modifies this`regions, this`bk
      ensures Listed(regions, bk) && next <= |regions|
      ensures forall p :: !(addr <= p < end) ==> At(regions, p) == At(old(regions), p)
      ensures forall k :: 0 <= k < next ==> !Overlaps(regions[k], addr, end)
      ensures Overlapping(regions, addr, end) < Overlapping(old(regions), addr, end)
      ensures Within(bk, old(bk)) && Retires(bk, old(bk)) && bk.next == old(bk).next && bk.gen == old(bk).gen
    {
      hide Listed, At, Unref, Ref, Overlapping;
      var r := regions[i];
      CutListed(regions, bk, i, addr, end);
      CutKeeps(regions, bk, i, addr, end);
      ghost var out, obk := CutOut(regions, i, addr, end), CutBacking(bk, r, addr, end);
      if addr <= r.start && r.end <= end {
        bk := Unref(bk, r.hmap);
        regions := Delete(regions, i);
        next := i;
      } else if addr <= r.start {
        regions := regions[i := Tail(r, end)];
        next := i;
      } else if r.end <= end {
        regions := regions[i := Head(r, addr)];
        next := i;
      } else {
        CutInTwo(regions, bk, i, addr, end);
        bk := Ref(bk, r.hmap);
        regions := regions[i := Head(r, addr)];
        InsertRegion(Tail(r, end));
        next := 0;
      }
      assert regions == out && bk == obk;
    }

    // ---------------------------------------------------------- mapping and unmapping

    /** The end of every map-over: the region and its entries, `live` pages of
     them. */
    method Install(r: Region, base: int, len: nat, room: nat, live: nat,
                   ghost rs0: seq<Region>, ghost bk0: Backing)
      requires pt.Valid() && this !in pt.Repr && SpaceInv(rs0, bk0, pt.view)
      requires Listed(regions, bk) && Within(bk, bk0) && HostFree(bk0, base, len)
      requires forall p :: At(regions, p) == if r.start <= p < r.end then None else At(rs0, p)
      requires 0 <= r.start < r.end <= PAGES && r.hmap == bk.next && r.host == base + room
      requires room + (r.end - r.start) <= len && live <= r.end - r.start
      requires AttrOk(r) && (live < r.end - r.start ==> r.attr.hostmap)
      modifies this`regions, this`bk, this`toldRegions, this`toldView, pt.Repr
      ensures Valid() && fresh(pt.Repr - old(pt.Repr)) && Told()
      ensures bk == New(old(bk), base, len, room).(gen := bk.gen) && PublishedSince(bk, old(bk))
      ensures MappedOver(regions, pt.view, rs0, old(pt.view), r, live)
    {
      hide Listed, At, New, Within, PageTable.Valid;
      ghost var rs1, bk1, v0 := regions, bk, pt.view;
      bk := New(bk, base, len, room);
      InsertRegion(r);
      ghost var bk2 := bk;
      if live > 0 {
        pt.SetRange(r.start, live, r.host, r.prot, true);
        bk := Bump(bk);
      }
      if live < r.end - r.start {
        pt.SetRange(r.start + live, r.end - r.start - live, 0, 0, false);
        bk := Bump(bk);
      }
      MapSpace(rs0, bk0, v0, rs1, bk1, r, base, len, room, pt.view);
      NewFields(bk1, base, len, room);
      BumpSpace(regions, bk2, pt.view, bk.gen);
      KeepsSelf(regions, bk, pt.view);
      toldRegions, toldView := regions, pt.view;
    }

    /** A region in the place of whatever was there. */
    method MapOver(r: Region, base: int, len: nat, room: nat, live: nat)
      requires Valid() && HostFree(bk, base, len)
      requires 0 <= r.start < r.end <= PAGES && r.hmap == bk.next && r.host == base + room
      requires room + (r.end - r.start) <= len && live <= r.end - r.start
      requires AttrOk(r) && (live < r.end - r.start ==> r.attr.hostmap)
      modifies this`regions, this`bk, this`toldRegions, this`toldView, pt.Repr
      ensures Valid() && fresh(pt.Repr - old(pt.Repr)) && Told() && PublishedSince(bk, old(bk))
      ensures MappedOver(regions, pt.view, old(regions), old(pt.view), r, live)
      ensures old(bk).next in bk.maps && bk.maps[old(bk).next] == HostMap(base, len, 1, 0, base + room, base + room)
    {
      hide At, Listed, Life, HostsApart, Coherent, PageTable.Valid, MappedOver, Retires, Within, Superseded, KeepsPages;
      Punch(r.start, r.end);
      ghost var bk1 := bk;
      Install(r, base, len, room, live, old(regions), old(bk));
      PublishedThen(old(bk), bk1, bk);
    }

    /** guest_map_anon: private memory of its own, whatever was there before. */
    method MapAnon(addr: nat, len: nat, prot: nat, host: Option<int>) returns (st: Status)
      requires Valid() && (host.Some? ==> HostFree(bk, host.value, len / PAGE))
      modifies this, pt.Repr
      ensures Valid() && fresh(pt.Repr - old(pt.Repr))
      ensures st == if !MapArgs(addr, len) then EINVAL else if host.None? then ENOMEM else Ok
      ensures st != Ok ==> regions == old(regions) && bk == old(bk) && pt.view == old(pt.view)
      ensures st == Ok ==>
                MappedOver(regions, pt.view, old(regions), old(pt.view),
                           AnonRegion(addr, len, prot, host.value, old(bk).next), len / PAGE)
      ensures st == Ok ==> old(bk).next in bk.maps
                           && bk.maps[old(bk).next] == HostMap(host.value, len / PAGE, 1, 0, host.value, host.value)
      ensures st == Ok ==> PublishedSince(bk, old(bk)) && Told()
    {
      if !MapArgs(addr, len) { return EINVAL; }
      if host.None? { return ENOMEM; }
      hide At, SpaceInv, PageTable.Valid, MappedOver, KeepsPages, PublishedSince;
      PageRange(addr, len);
      MapOver(AnonRegion(addr, len, prot, host.value, bk.next), host.value, len / PAGE, 0, len / PAGE);
      st := Ok;
    }

    /** guest_map_stack: like MapAnon, a VM_GROWSDOWN mapping with `room` pages
     of reserved backing below it. */
    method MapStack(addr: nat, len: nat, prot: nat, base: Option<int>, room: nat) returns (st: Status)
      requires Valid() && (base.Some? ==> HostFree(bk, base.value, room + len / PAGE))
      modifies this, pt.Repr
      ensures Valid() && fresh(pt.Repr - old(pt.Repr))
      ensures st == if !MapArgs(addr, len) then EINVAL else if base.None? then ENOMEM else Ok
      ensures st != Ok ==> regions == old(regions) && bk == old(bk) && pt.view == old(pt.view)
      ensures st == Ok ==>
                stackIds == (if old(stackIds) == 0xffff_ffff then 1 else old(stackIds) + 1) &&
                MappedOver(regions, pt.view, old(regions), old(pt.view),
                           StackRegion(addr, len, prot, base.value + room, old(bk).next, stackIds), len / PAGE)
      ensures st == Ok ==> old(bk).next in bk.maps
                           && bk.maps[old(bk).next] == HostMap(base.value, room + len / PAGE, 1, 0, base.value + room, base.value + room)
      ensures st == Ok ==> PublishedSince(bk, old(bk)) && Told()
    {
      if !MapArgs(addr, len) { return EINVAL; }
      if base.None? { return ENOMEM; }
      hide At, SpaceInv, PageTable.Valid, MappedOver, KeepsPages, PublishedSince;
      PageRange(addr, len);
      stackIds := if stackIds + 1 == 0x1_0000_0000 then 1 else stackIds + 1;  // never 0, which is no stack
      MapOver(StackRegion(addr, len, prot, base.value + room, bk.next, stackIds), base.value, room + len / PAGE, room, len / PAGE);
      st := Ok;
    }

    /** guest_map_file: pages past the end of the file get no entry. */
    method MapFile(addr: nat, len: nat, prot: nat, off: nat, file: FileId, shared: bool, writable: bool,
                   path: Option<string>, eof: Option<nat>, host: Option<int>) returns (st: Status)
      requires Valid() && (host.Some? ==> HostFree(bk, host.value, len / PAGE))
      modifies this, pt.Repr
      ensures Valid() && fresh(pt.Repr - old(pt.Repr))
      ensures st == if !MapArgs(addr, len) || !Aligned(off) then EINVAL else if host.None? then ENOMEM else Ok
      ensures st != Ok ==> regions == old(regions) && bk == old(bk) && pt.view == old(pt.view)
      ensures st == Ok ==>
                MappedOver(regions, pt.view, old(regions), old(pt.view),
                           FileRegion(addr, len, prot, host.value, old(bk).next, file, off, FileAttr(shared, writable, path)),
                           LivePages(len / PAGE, off / PAGE, eof))
      ensures st == Ok ==> old(bk).next in bk.maps
                           && bk.maps[old(bk).next] == HostMap(host.value, len / PAGE, 1, 0, host.value, host.value)
      ensures st == Ok ==> PublishedSince(bk, old(bk)) && Told()
    {
      if !MapArgs(addr, len) || !Aligned(off) { return EINVAL; }
      if host.None? { return ENOMEM; }
      hide At, SpaceInv, PageTable.Valid, MappedOver, KeepsPages, PublishedSince;
      PageRange(addr, len);
      MapOver(FileRegion(addr, len, prot, host.value, bk.next, file, off, FileAttr(shared, writable, path)),
              host.value, len / PAGE, 0, LivePages(len / PAGE, off / PAGE, eof));
      st := Ok;
    }

    /** guest_unmap */
    method Unmap(addr: nat, len: nat) returns (st: Status)
      requires Valid()
      modifies this, pt.Repr
      ensures Valid() && fresh(pt.Repr - old(pt.Repr))
      ensures st == if MapArgs(addr, len) then Ok else EINVAL
      ensures st != Ok ==> regions == old(regions) && bk == old(bk) && pt.view == old(pt.view)
      ensures st == Ok ==> UnmappedOver(regions, pt.view, old(regions), old(pt.view), addr / PAGE, (addr + len) / PAGE)
      ensures st == Ok ==> PublishedSince(bk, old(bk)) && Within(bk, old(bk)) && Told()
    {
      hide At, SpaceInv, PageTable.Valid, KeepsPages, UnmappedOver, Superseded;
      if !MapArgs(addr, len) { return EINVAL; }
      Shape(regions, bk, pt.view);
      PageRange(addr, len);
      Punch(addr / PAGE, (addr + len) / PAGE);
      pt.SetRange(addr / PAGE, len / PAGE, 0, 0, false);
      UnmapSpace(old(regions), old(bk), old(pt.view), regions, bk, addr / PAGE, (addr + len) / PAGE, pt.view);
      BumpSpace(regions, bk, pt.view, bk.gen + 1);
      KeepsSelf(regions, bk, pt.view);
      bk := Bump(bk);
      toldRegions, toldView := regions, pt.view;
      st := Ok;
    }

    // ---------------------------------------------------------- protection

    /** Is every page of the range part of a mapping? */
    method CheckMapped(lo: nat, hi: nat) returns (ok: bool)
      requires Valid() && hi <= PAGES
      ensures ok == AllMapped(regions, lo, hi)
    {
      var p := lo;
      while p < hi
        invariant lo <= p && (p <= hi || p == lo)
        invariant AllMapped(regions, lo, p)
      {
        var pte := pt.Get(p);
        var i := Find(p);
        assert CoherentAt(regions, pt.view, p);
        if pte.Absent? && i < 0 { return false; }
        p := p + 1;
      }
      ok := true;
    }

    /** May the range be made writable? A shared mapping of a file not opened
     for writing may not. */
    method CheckWritable(lo: nat, hi: nat) returns (ok: bool)
      requires Valid()
      ensures ok == Writable(regions, lo, hi)
    {
      var i := 0;
      while i < |regions|
        invariant 0 <= i <= |regions|
        invariant forall k :: 0 <= k < i ==> !(Overlaps(regions[k], lo, hi) && ReadOnlyShared(regions[k].attr))
      {
        if Overlaps(regions[i], lo, hi) && ReadOnlyShared(regions[i].attr) { return false; }
        i := i + 1;
      }
      ok := true;
    }

    /** The loop over the regions of a range that ends on region boundaries. */
    method ProtectRegions(lo: nat, hi: nat, prot: nat, refuse: set<int>) returns (ok: bool, ghost upTo: int)
      requires Valid() && lo <= hi <= PAGES && AllMapped(regions, lo, hi)
      requires Bounded(regions, lo) && Bounded(regions, hi)
      modifies this, pt.Repr
      ensures Valid() && fresh(pt.Repr - old(pt.Repr)) && bk == old(bk)
      ensures ProtectedOver(regions, pt.view, old(regions), old(pt.view), lo, upTo, prot)
      ensures StopsAt(old(regions), refuse, lo, hi, upTo, ok)
    {
      hide At, Listed, SpaceInv, ProtectedOver, PageTable.Valid, Asked, Progress, Bounded, KeepsPages;
      ghost var rs0, v0 := regions, pt.view;
      upTo := lo;
      ProtectBegins(rs0, bk, v0, lo, hi, prot, refuse);
      var i := 0;
      while i < |regions|
        invariant 0 <= i <= |regions| && pt.Valid() && this !in pt.Repr && fresh(pt.Repr - old(pt.Repr))
        invariant toldRegions == old(toldRegions) && toldView == old(toldView)
        invariant bk == old(bk) && Progress(regions, bk, pt.view, rs0, v0, i, lo, upTo, hi, prot, refuse)
      {
        var r := regions[i];
        if Overlaps(r, lo, hi) {
          ProtectReaches(regions, bk, pt.view, rs0, v0, i, lo, upTo, hi, prot, refuse);
          if r.attr.shared && r.start in refuse {
            ProtectTold(regions, bk, pt.view, rs0, v0, toldRegions, toldView, lo, upTo, prot);
            return false, upTo;
          }
          ghost var rs, v := regions, pt.view;
          regions := regions[i := r.(prot := prot)];
          pt.ProtRange(r.start, r.end - r.start, prot);
          ProtectGoesOn(rs, bk, v, pt.view, rs0, v0, i, lo, upTo, hi, prot, refuse);
          upTo := r.end;
        } else {
          ProtectPasses(regions, bk, pt.view, rs0, v0, i, lo, upTo, hi, prot, refuse);
        }
        i := i + 1;
      }
      ok := true;
      ProtectEnds(regions, bk, pt.view, rs0, v0, i, lo, upTo, hi, prot, refuse);
      ProtectTold(regions, bk, pt.view, rs0, v0, toldRegions, toldView, lo, upTo, prot);
    }

    /** The range lined up with region boundaries, changed, published and merged
     again; a refusal leaves before the last two. */
    method ProtectPages(lo: nat, hi: nat, prot: nat, refuse: set<int>) returns (ok: bool, ghost upTo: int)
      requires Valid() && lo <= hi <= PAGES && AllMapped(regions, lo, hi)
      modifies this, pt.Repr
      ensures Valid() && fresh(pt.Repr - old(pt.Repr))
      ensures ProtectedOver(regions, pt.view, old(regions), old(pt.view), lo, upTo, prot)
      ensures StopsAt(old(regions), refuse, lo, hi, upTo, ok)
      ensures if ok then PublishedSince(bk, old(bk)) && Told() else bk.gen == old(bk).gen
      ensures bk == old(bk).(maps := bk.maps, gen := bk.gen)
    {
      hide At, Listed, SpaceInv, ProtectedOver, PageTable.Valid, StopsAt, KeepsPages;
      Shape(regions, bk, pt.view);
      SplitRegionAt(lo);
      ghost var rs1, bk1 := regions, bk;
      SameSpace(old(regions), old(bk), pt.view, rs1, bk1);
      KeepsView(old(regions), rs1, pt.view, toldRegions, toldView);
      SplitRegionAt(hi);
      SameSpace(rs1, bk1, pt.view, regions, bk);
      KeepsView(rs1, regions, pt.view, toldRegions, toldView);
      ghost var rs2 := regions;
      ok, upTo := ProtectRegions(lo, hi, prot, refuse);
      SplitAsks(old(regions), rs2, refuse, lo, hi, upTo, ok);
      ghost var rs3 := regions;
      Shape(regions, bk, pt.view);
      if ok {
        BumpSpace(regions, bk, pt.view, bk.gen + 1);
        bk := Bump(bk);
        toldRegions, toldView := regions, pt.view;
        ghost var bk3 := bk;
        Shape(regions, bk, pt.view);
        KeepsSelf(regions, bk, pt.view);
        MergeRange(lo, hi);
        SameSpace(rs3, bk3, pt.view, regions, bk);
        KeepsView(rs3, regions, pt.view, toldRegions, toldView);
      }
      ProtectedSame(old(regions), rs2, rs3, regions, old(pt.view), pt.view, lo, upTo, prot);
    }

    /** guest_protect. `refuse` are the pages at which the host kernel, asked to
     reprotect a shared mapping from there on, will not: there the call stops,
     what came before it stays changed, and nobody is told. */
    method Protect(addr: nat, len: nat, prot: nat, refuse: set<int>) returns (st: Status, ghost upTo: int)
      requires Valid()
      modifies this, pt.Repr
      ensures Valid() && fresh(pt.Repr - old(pt.Repr))
      ensures st == EINVAL <==> !(Aligned(addr) && Aligned(len))
      ensures st == ENOMEM <==> Aligned(addr) && Aligned(len)
                                && !(RangeOk(addr, len) && AllMapped(old(regions), addr / PAGE, (addr + len) / PAGE))
      ensures st == EINVAL || st == ENOMEM ==> upTo == addr / PAGE
      ensures st != EINVAL && st != ENOMEM ==>
                if HasWrite(prot) && !Writable(old(regions), addr / PAGE, (addr + len) / PAGE)
                then st == EACCES && upTo == addr / PAGE
                else StopsAt(old(regions), refuse, addr / PAGE, (addr + len) / PAGE, upTo, st == Ok) && (st == Ok || st == EACCES)
      ensures ProtectedOver(regions, pt.view, old(regions), old(pt.view), addr / PAGE, upTo, prot)
      ensures if st == Ok then PublishedSince(bk, old(bk)) && Told() else bk.gen == old(bk).gen
      ensures bk == old(bk).(maps := bk.maps, gen := bk.gen)
      ensures Announced(pt.view, bk, old(pt.view), old(bk))
              <==> !SilentRefusal(old(regions), old(pt.view), addr, len, prot, refuse)
    {
      var lo, hi := addr / PAGE, (addr + len) / PAGE;
      hide At, SpaceInv, ProtectedOver, PageTable.Valid, StopsAt, Writable, HasWrite, Announced, ProtAlready, SilentAt;
      upTo := lo;
      Shape(regions, bk, pt.view);
      ProtectNothing(regions, pt.view, lo, prot);
      SilentlyProtected(regions, pt.view, bk, regions, pt.view, bk, lo, lo, prot);
      if !(Aligned(addr) && Aligned(len)) { return EINVAL, lo; }
      if !RangeOk(addr, len) { return ENOMEM, lo; }
      PageRangeAny(addr, len);
      var ok := CheckMapped(lo, hi);
      if !ok { return ENOMEM, lo; }
      if HasWrite(prot) {
        ok := CheckWritable(lo, hi);
        if !ok { return EACCES, lo; }
      }
      ok, upTo := ProtectPages(lo, hi, prot, refuse);
      SilentlyProtected(old(regions), old(pt.view), old(bk), regions, pt.view, bk, lo, upTo, prot);
      SilentIs(old(regions), old(pt.view), lo, hi, prot, refuse, upTo, ok);
      st := if ok then Ok else EACCES;
    }
  }

  // ------------------------------------------------------------ about the loops

  lemma {:induction false} SplitBoundary(rs: seq<Region>, i: nat, va: int)
    requires Sorted(rs) && i < |rs| && rs[i].start < va < rs[i].end
    ensures forall x :: Bounded(SplitAt(rs, i, va), x) <==> Bounded(rs, x) || x == va
  {
    var out := SplitAt(rs, i, va);
    assert forall k :: 0 <= k < |out| ==>
             out[k] == if k < i then rs[k] else if k == i then Head(rs[i], va)
                       else if k == i + 1 then Tail(rs[i], va) else rs[k - 1];
    assert forall k :: 0 <= k < |rs| && k != i ==> rs[k].end <= rs[i].start || rs[i].end <= rs[k].start;
    forall x
      ensures Bounded(out, x) <==> Bounded(rs, x) || x == va
    {
      if Bounded(out, x) && x != va {
        forall k | 0 <= k < |rs| ensures !(rs[k].start < x < rs[k].end) {
          assert out[if k <= i then k else k + 1].start < x < out[if k <= i then k else k + 1].end || k == i
                 || !(rs[k].start < x < rs[k].end);
          assert !(out[i].start < x < out[i].end) && !(out[i + 1].start < x < out[i + 1].end);
        }
      }
    }
  }

  /** Merging at `i` changes no boundary before it. */
  lemma {:induction false} MergePrefix(rs: seq<Region>, i: nat)
    requires i + 1 < |rs|
    ensures var out := MergeAt(rs, i);
            forall k :: 0 <= k < i ==>
              out[k] == rs[k] && Mergeable(out[k], out[k + 1]) == Mergeable(rs[k], rs[k + 1])
  {
    var out := MergeAt(rs, i);
    forall k | 0 <= k < i
      ensures out[k] == rs[k] && Mergeable(out[k], out[k + 1]) == Mergeable(rs[k], rs[k + 1])
    {
      assert out[k + 1] == if k + 1 == i then rs[i].(end := rs[i + 1].end) else rs[k + 1];
    }
  }

  lemma {:induction false} UnrefFields(bk: Backing, id: nat)
    requires id in bk.maps && Unref(bk, id).retired == bk.retired && Unref(bk, id).orphans == bk.orphans
    ensures Unref(bk, id) == bk.(maps := Unref(bk, id).maps)
  {
  }

  lemma {:induction false} EndsAscend(rs: seq<Region>, bk: Backing, i: nat)
    requires Listed(rs, bk) && i < |rs|
    ensures forall k :: i <= k < |rs| ==> rs[k].end >= rs[i].end
  {
  }

  /** How many regions a range touches: what the scan has left to do. */
  function Overlapping(rs: seq<Region>, lo: int, hi: int): nat {
    if rs == [] then 0 else (if Overlaps(rs[0], lo, hi) then 1 else 0) + Overlapping(rs[1..], lo, hi)
  }

  lemma {:induction false} OverlappingConcat(a: seq<Region>, b: seq<Region>, lo: int, hi: int)
    ensures Overlapping(a + b, lo, hi) == Overlapping(a, lo, hi) + Overlapping(b, lo, hi)
  {
    if a == [] {
      assert a + b == b;
    } else {
      assert (a + b)[1..] == a[1..] + b;
      OverlappingConcat(a[1..], b, lo, hi);
    }
  }

  lemma {:induction false} NoneOverlapping(rs: seq<Region>, lo: int, hi: int)
    requires forall i :: 0 <= i < |rs| ==> !Overlaps(rs[i], lo, hi)
    ensures Overlapping(rs, lo, hi) == 0
  {
    if rs != [] {
      NoneOverlapping(rs[1..], lo, hi);
    }
  }

  lemma {:induction false} CutOverlapping(rs: seq<Region>, i: nat, lo: int, hi: int)
    requires Sorted(rs) && i < |rs| && lo < hi && Overlaps(rs[i], lo, hi)
    ensures Overlapping(CutOut(rs, i, lo, hi), lo, hi) < Overlapping(rs, lo, hi)
  {
    var ps := Pieces(rs[i], lo, hi);
    assert rs == rs[..i] + [rs[i]] + rs[i + 1..];
    OverlappingConcat(rs[..i] + ps, rs[i + 1..], lo, hi);
    OverlappingConcat(rs[..i], ps, lo, hi);
    OverlappingConcat(rs[..i] + [rs[i]], rs[i + 1..], lo, hi);
    OverlappingConcat(rs[..i], [rs[i]], lo, hi);
    CutOutKeeps(rs, i, lo, hi);
    NoneOverlapping(ps, lo, hi);
    assert [rs[i]][1..] == [];
  }

  /** What the cut of one region leaves alone. */
  lemma {:induction false} CutKeeps(rs: seq<Region>, bk: Backing, i: nat, lo: int, hi: int)
    requires Listed(rs, bk) && i < |rs| && lo < hi && Overlaps(rs[i], lo, hi) && rs[i].hmap in bk.maps
    requires forall k :: 0 <= k < i ==> !Overlaps(rs[k], lo, hi)
    ensures var out, obk := CutOut(rs, i, lo, hi), CutBacking(bk, rs[i], lo, hi);
            && Overlapping(out, lo, hi) < Overlapping(rs, lo, hi)
            && i <= |out| && (forall k :: 0 <= k < i ==> !Overlaps(out[k], lo, hi))
            && Within(obk, bk) && Retires(obk, bk) && obk.next == bk.next && obk.gen == bk.gen
    ensures rs[i].start < rs[i].end
  {
    CutOverlapping(rs, i, lo, hi);
    UnrefWithin(bk, rs[i].hmap);
    UnrefRetires(bk, rs[i].hmap);
  }

  lemma {:induction false} CutInTwo(rs: seq<Region>, bk: Backing, i: nat, lo: int, hi: int)
    requires Listed(rs, bk) && i < |rs| && lo < hi && rs[i].start < lo && hi < rs[i].end
    ensures CutOut(rs, i, lo, hi) == Insert(rs[i := Head(rs[i], lo)], Tail(rs[i], hi))
  {
    hide At, Life, Slices, AllocsOk, Insert;
    var h, t := Head(rs[i], lo), Tail(rs[i], hi);
    var mid := rs[i := h];
    InsertIsSplice(mid, t);
    assert forall j :: 0 <= j <= i ==> mid[j].start <= mid[i].start < hi;
    assert i + 1 < |mid| ==> mid[i + 1].start >= hi;
    assert Position(mid, t.start) == i + 1;
    assert mid[..i + 1] == rs[..i] + [h];
    assert mid[i + 1..] == rs[i + 1..];
  }

  /** An aligned range is whole pages below the end of the address space. */
  lemma {:induction false} PageRange(addr: nat, len: nat)
    requires Aligned(addr) && Aligned(len) && RangeOk(addr, len) && len != 0
    ensures addr / PAGE < (addr + len) / PAGE == addr / PAGE + len / PAGE <= PAGES
  {
  }

  // ------------------------------------------------------------ about protection

  predicate Bounded(rs: seq<Region>, va: int) {
    forall k :: 0 <= k < |rs| ==> !(rs[k].start < va < rs[k].end)
  }

  lemma {:induction false} PageRangeAny(addr: nat, len: nat)
    requires Aligned(addr) && Aligned(len) && RangeOk(addr, len)
    ensures addr / PAGE <= (addr + len) / PAGE <= PAGES
  {
  }

  lemma {:induction false} Shape(rs: seq<Region>, bk: Backing, v: seq<Pte>)
    requires SpaceInv(rs, bk, v)
    ensures Sorted(rs) && InBounds(rs) && Listed(rs, bk) && |v| == PAGES
  {
  }

  lemma {:induction false} ProtectNothing(rs: seq<Region>, v: seq<Pte>, lo: int, prot: nat)
    requires |v| == PAGES
    ensures ProtectedOver(rs, v, rs, v, lo, lo, prot)
  {
  }

  /** The list may be redrawn before and after, as long as it shows the same. */
  lemma {:induction false} ProtectedSame(rs0: seq<Region>, rs1: seq<Region>, rs2: seq<Region>, rs3: seq<Region>,
                      v0: seq<Pte>, v: seq<Pte>, lo: int, hi: int, prot: nat)
    requires SameView(rs1, rs0) && SameView(rs3, rs2) && ProtectedOver(rs2, v, rs1, v0, lo, hi, prot)
    ensures ProtectedOver(rs3, v, rs0, v0, lo, hi, prot)
  {
    hide At;
  }

  /** The regions of the range come one after the other, without a gap. */
  lemma {:induction false} NextStart(rs0: seq<Region>, bk: Backing, v0: seq<Pte>, rs: seq<Region>, v: seq<Pte>,
                  i: nat, lo: int, upTo: int, hi: int, prot: nat)
    requires SpaceInv(rs, bk, v) && i < |rs| && Overlaps(rs[i], lo, hi)
    requires ProtectedOver(rs, v, rs0, v0, lo, upTo, prot) && Bounded(rs, lo)
    requires lo <= upTo && AllMapped(rs0, lo, hi)
    requires forall k :: 0 <= k < i ==> rs[k].end <= upTo || hi <= rs[k].start
    requires forall k :: i <= k < |rs| ==> rs[k].end <= lo || upTo <= rs[k].start
    ensures rs[i].start == upTo
  {
    hide At;
    if upTo < rs[i].start {
      AtNowhere(rs, upTo);
      assert false;
    }
  }

  /** In a region the host is asked at its start and nowhere else. */
  lemma {:induction false} AskedOnce(rs: seq<Region>, i: nat, lo: int)
    requires Sorted(rs) && i < |rs| && Bounded(rs, lo)
    ensures rs[i].start < rs[i].end
    ensures forall p :: rs[i].start <= p < rs[i].end ==> (Asked(rs, lo, p) <==> rs[i].attr.shared && p == rs[i].start)
  {
    hide At;
    forall p | rs[i].start <= p < rs[i].end
      ensures Asked(rs, lo, p) <==> rs[i].attr.shared && p == rs[i].start
    {
      AtIndex(rs, i, p);
      assert Bounded(rs, p) <==> p == rs[i].start;
    }
  }

  /** The loop of ProtectRegions before its region `i`: done up to `upTo`. */
  ghost predicate Progress(rs: seq<Region>, bk: Backing, v: seq<Pte>, rs0: seq<Region>, v0: seq<Pte>,
                           i: nat, lo: int, upTo: int, hi: int, prot: nat, refuse: set<int>) {
    && SpaceInv(rs0, bk, v0) && SpaceInv(rs, bk, v) && AllMapped(rs0, lo, hi) && i <= |rs|
    && ProtectedOver(rs, v, rs0, v0, lo, upTo, prot) && SameShape(rs, rs0)
    && Bounded(rs, lo) && Bounded(rs, hi) && lo <= upTo <= hi
    && (forall k :: 0 <= k < i ==> rs[k].end <= upTo || hi <= rs[k].start)
    && (forall k :: i <= k < |rs| ==> rs[k].end <= lo || upTo <= rs[k].start)
    && (forall p :: lo <= p < upTo && Asked(rs0, lo, p) ==> p !in refuse)
  }

  lemma {:induction false} ProtectBegins(rs: seq<Region>, bk: Backing, v: seq<Pte>, lo: int, hi: int, prot: nat, refuse: set<int>)
    requires SpaceInv(rs, bk, v) && AllMapped(rs, lo, hi) && Bounded(rs, lo) && Bounded(rs, hi) && lo <= hi
    ensures Progress(rs, bk, v, rs, v, 0, lo, lo, hi, prot, refuse)
  {
    hide At, Listed, SpaceInv, ProtectedOver, Asked;
    Shape(rs, bk, v);
    ProtectNothing(rs, v, lo, prot);
  }

  lemma {:induction false} ProtectPasses(rs: seq<Region>, bk: Backing, v: seq<Pte>, rs0: seq<Region>, v0: seq<Pte>,
                      i: nat, lo: int, upTo: int, hi: int, prot: nat, refuse: set<int>)
    requires Progress(rs, bk, v, rs0, v0, i, lo, upTo, hi, prot, refuse) && i < |rs| && !Overlaps(rs[i], lo, hi)
    ensures Progress(rs, bk, v, rs0, v0, i + 1, lo, upTo, hi, prot, refuse)
  {
    hide At, Listed, SpaceInv, ProtectedOver, Asked;
  }

  /** At a region of the range, the host is asked where the change has got to. */
  lemma {:induction false} ProtectReaches(rs: seq<Region>, bk: Backing, v: seq<Pte>, rs0: seq<Region>, v0: seq<Pte>,
                       i: nat, lo: int, upTo: int, hi: int, prot: nat, refuse: set<int>)
    requires Progress(rs, bk, v, rs0, v0, i, lo, upTo, hi, prot, refuse) && i < |rs| && Overlaps(rs[i], lo, hi)
    ensures 0 <= rs[i].start == upTo < hi && (Asked(rs0, lo, upTo) <==> rs[i].attr.shared) && upTo < rs[i].end <= PAGES
    ensures SpaceInv(rs, bk, v) && ProtectedOver(rs, v, rs0, v0, lo, upTo, prot)
    ensures lo <= upTo && forall p :: lo <= p < upTo && Asked(rs0, lo, p) ==> p !in refuse
  {
    hide At, Listed, ProtectedOver, Asked, SpaceInv;
    NextStart(rs0, bk, v0, rs, v, i, lo, upTo, hi, prot);
    Shape(rs, bk, v);
    Shape(rs0, bk, v0);
    AskedOnce(rs0, i, lo);
  }

  lemma {:induction false} ProtectGoesOn(rs: seq<Region>, bk: Backing, v: seq<Pte>, v': seq<Pte>, rs0: seq<Region>, v0: seq<Pte>,
                      i: nat, lo: int, upTo: int, hi: int, prot: nat, refuse: set<int>)
    requires Progress(rs, bk, v, rs0, v0, i, lo, upTo, hi, prot, refuse) && i < |rs| && Overlaps(rs[i], lo, hi)
    requires !(rs[i].attr.shared && rs[i].start in refuse) && |v'| == PAGES
    requires forall p :: 0 <= p < PAGES ==>
               v'[p] == if rs[i].start <= p < rs[i].start + (rs[i].end - rs[i].start) then Reprotect(v[p], prot) else v[p]
    ensures Progress(WithProt(rs, i, prot), bk, v', rs0, v0, i + 1, lo, rs[i].end, hi, prot, refuse)
  {
    hide At, Listed, ProtectedOver, Asked, SpaceInv;
    Shape(rs0, bk, v0);
    ProtectReaches(rs, bk, v, rs0, v0, i, lo, upTo, hi, prot, refuse);
    AskedOnce(rs0, i, lo);
    ProtectRegion(rs0, bk, v0, rs, v, v', i, lo, upTo, hi, prot);
  }

  lemma {:induction false} ProtectTold(rs: seq<Region>, bk: Backing, v: seq<Pte>, rs0: seq<Region>, v0: seq<Pte>,
                    told: seq<Region>, toldView: seq<Pte>, lo: int, upTo: int, prot: nat)
    requires SpaceInv(rs0, bk, v0) && ProtectedOver(rs, v, rs0, v0, lo, upTo, prot) && KeepsPages(rs0, v0, told, toldView)
    ensures KeepsPages(rs, v, told, toldView)
  {
    hide SpaceInv, ProtectedOver, KeepsPages;
    ProtectKeepsPages(rs, bk, v, rs0, bk, v0, lo, upTo, prot);
    KeepsTrans(rs, v, rs0, v0, told, toldView);
  }

  lemma {:induction false} ProtectEnds(rs: seq<Region>, bk: Backing, v: seq<Pte>, rs0: seq<Region>, v0: seq<Pte>,
                    i: nat, lo: int, upTo: int, hi: int, prot: nat, refuse: set<int>)
    requires Progress(rs, bk, v, rs0, v0, i, lo, upTo, hi, prot, refuse) && i == |rs|
    ensures upTo == hi && SpaceInv(rs, bk, v) && ProtectedOver(rs, v, rs0, v0, lo, upTo, prot) && lo <= upTo
    ensures forall p :: lo <= p < upTo && Asked(rs0, lo, p) ==> p !in refuse
  {
    hide At, Listed, ProtectedOver, Asked, SpaceInv;
    ReachedEnd(rs0, rs, bk, v0, v, lo, upTo, hi, prot);
  }

  /** Lining the list up with the range changes nothing the host is asked. */
  lemma {:induction false} SplitAsks(rs0: seq<Region>, rs: seq<Region>, refuse: set<int>, lo: int, hi: int, upTo: int, ok: bool)
    requires SameView(rs, rs0) && StopsAt(rs, refuse, lo, hi, upTo, ok)
    requires forall x :: Bounded(rs, x) <==> Bounded(rs0, x) || x == lo || x == hi
    ensures StopsAt(rs0, refuse, lo, hi, upTo, ok)
  {
    hide At, Bounded;
    assert forall p :: p != hi ==> (Asked(rs, lo, p) <==> Asked(rs0, lo, p));
  }

  predicate ProtAlready(v: seq<Pte>, lo: int, hi: int, prot: nat) {
    forall p :: 0 <= p < |v| && lo <= p < hi && v[p].Present? ==> v[p].prot == prot
  }

  lemma {:induction false} SilentIs(rs: seq<Region>, v: seq<Pte>, lo: int, hi: int, prot: nat, refuse: set<int>, upTo: int, ok: bool)
    requires StopsAt(rs, refuse, lo, hi, upTo, ok)
    ensures SilentAt(rs, v, lo, hi, prot, refuse) <==> !ok && !ProtAlready(v, lo, upTo, prot)
  {
    hide Asked, ProtAlready;
    if ok {
      forall p | lo <= p < hi ensures !FirstRefused(rs, refuse, lo, p) { }
    } else {
      assert FirstRefused(rs, refuse, lo, upTo);
      forall p | lo <= p < hi && FirstRefused(rs, refuse, lo, p) ensures p == upTo { }
    }
  }

  /** Unpublished, the change goes unnoticed exactly when no live entry had
   another protection. */
  lemma {:induction false} SilentlyProtected(rs0: seq<Region>, v0: seq<Pte>, bk0: Backing, rs: seq<Region>, v: seq<Pte>, bk: Backing,
                          lo: int, hi: int, prot: nat)
    requires ProtectedOver(rs, v, rs0, v0, lo, hi, prot) && bk.gen >= bk0.gen
    ensures Announced(v, bk, v0, bk0) <==> bk.gen > bk0.gen || ProtAlready(v0, lo, hi, prot)
  {
  }

  lemma {:induction false} ProtectRegion(rs0: seq<Region>, bk: Backing, v0: seq<Pte>, rs: seq<Region>, v: seq<Pte>, v': seq<Pte>,
                      i: nat, lo: int, upTo: int, hi: int, prot: nat)
    requires SpaceInv(rs0, bk, v0) && SpaceInv(rs, bk, v) && i < |rs| && Overlaps(rs[i], lo, hi)
    requires ProtectedOver(rs, v, rs0, v0, lo, upTo, prot) && Bounded(rs, lo) && Bounded(rs, hi)
    requires lo <= upTo && AllMapped(rs0, lo, hi)
    requires forall k :: 0 <= k < i ==> rs[k].end <= upTo || hi <= rs[k].start
    requires forall k :: i <= k < |rs| ==> rs[k].end <= lo || upTo <= rs[k].start
    requires |v'| == PAGES
    requires forall p :: 0 <= p < PAGES ==>
               v'[p] == if rs[i].start <= p < rs[i].start + (rs[i].end - rs[i].start) then Reprotect(v[p], prot) else v[p]
    ensures SpaceInv(WithProt(rs, i, prot), bk, v')
    ensures ProtectedOver(WithProt(rs, i, prot), v', rs0, v0, lo, rs[i].end, prot)
    ensures rs[i].end <= hi && upTo <= rs[i].end
    ensures Sorted(WithProt(rs, i, prot)) && InBounds(WithProt(rs, i, prot))
  {
    hide At;
    var r := rs[i];
    NextStart(rs0, bk, v0, rs, v, i, lo, upTo, hi, prot);
    ProtectStep(rs0, v0, rs, v, v', i, lo, upTo, hi, prot);
    WithProtListed(rs, bk, i, prot);
    ProtectedSpace(rs0, bk, v0, WithProt(rs, i, prot), v', lo, r.end, prot);
  }

  lemma {:induction false} ReachedEnd(rs0: seq<Region>, rs: seq<Region>, bk: Backing, v0: seq<Pte>, v: seq<Pte>,
                   lo: int, upTo: int, hi: int, prot: nat)
    requires ProtectedOver(rs, v, rs0, v0, lo, upTo, prot) && AllMapped(rs0, lo, hi) && lo <= upTo <= hi
    requires forall k :: 0 <= k < |rs| ==> rs[k].end <= upTo || hi <= rs[k].start
    ensures upTo == hi
  {
    if upTo < hi {
      AtNowhere(rs, upTo);
      assert false;
    }
  }
}
