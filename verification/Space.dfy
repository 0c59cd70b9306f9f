/**
 What every operation on a guest address space keeps: the region list, the flat
 page table and the host allocations agree.
 */
module Space {
  import opened Options
  import opened RegionList
  import opened Backing
  import opened PageTable

  /** The slice of its allocation a region names: accessible, and none of it in
   the part no region ever had. */
  predicate SliceOk(bk: Backing, r: Region) {
    && r.hmap in bk.maps && AttrOk(r)
    && var hm := bk.maps[r.hmap];
       hm.freshHi <= r.host && r.host + (r.end - r.start) <= hm.base + hm.len
  }

  /** Shared memory is a mapping of a file; a growing mapping has a stack id, and
   no file. */
  predicate AttrOk(r: Region) {
    && (r.attr.shared ==> r.attr.hostmap)
    && (r.attr.growsdown ==> r.attr.stackId != 0 && !r.attr.hostmap && r.file.None?)
  }

  predicate InBounds(rs: seq<Region>) {
    forall i :: 0 <= i < |rs| ==> 0 <= rs[i].start && rs[i].end <= PAGES
  }

  predicate Slices(bk: Backing, rs: seq<Region>) {
    forall i :: 0 <= i < |rs| ==> SliceOk(bk, rs[i])
  }

  predicate RoomOk(hm: HostMap) { hm.len > 0 && hm.base <= hm.rwLo <= hm.freshHi <= hm.base + hm.len }

  predicate Apart(a: HostMap, b: HostMap) { a.base + a.len <= b.base || b.base + b.len <= a.base }

  /** Live allocations lie apart in the host's address space. */
  predicate AllocsOk(bk: Backing) {
    && (forall x :: x in bk.maps ==> RoomOk(bk.maps[x]))
    && (forall x, y :: x in bk.maps && y in bk.maps && x != y ==> Apart(bk.maps[x], bk.maps[y]))
  }

  /** The region list and the allocations behind it. */
  ghost predicate Listed(rs: seq<Region>, bk: Backing) {
    Sorted(rs) && InBounds(rs) && Life(bk, rs) && Slices(bk, rs) && AllocsOk(bk)
  }

  /** No host page backs two guest pages. */
  ghost predicate HostsApart(rs: seq<Region>) {
    forall p, q :: At(rs, p).Some? && At(rs, q).Some? && p != q ==> At(rs, p).value.host != At(rs, q).value.host
  }

  /** A live entry names its region's own backing and carries its protection;
   memory that is no mapping of a file has every entry live. */
  ghost predicate CoherentAt(rs: seq<Region>, v: seq<Pte>, p: int)
    requires 0 <= p < |v|
  {
    var s := At(rs, p);
    && (v[p].Present? ==> s.Some? && v[p] == Present(s.value.host, s.value.prot))
    && (s.Some? && !s.value.attr.hostmap ==> v[p].Present?)
  }

  ghost predicate Coherent(rs: seq<Region>, v: seq<Pte>) {
    |v| == PAGES && forall p :: 0 <= p < PAGES ==> CoherentAt(rs, v, p)
  }

  ghost predicate SpaceInv(rs: seq<Region>, bk: Backing, v: seq<Pte>) {
    Listed(rs, bk) && HostsApart(rs) && Coherent(rs, v)
  }

  ghost predicate SameView(a: seq<Region>, b: seq<Region>) { forall p :: At(a, p) == At(b, p) }

  // ------------------------------------------------------------ counting

  lemma {:induction false} RefPositive(rs: seq<Region>, i: nat)
    requires i < |rs|
    ensures RefCount(rs, rs[i].hmap) > 0
  {
    if i > 0 {
      RefPositive(rs[1..], i - 1);
    }
  }

  /** Allocations only leave, and none moves. */
  predicate Within(bk': Backing, bk: Backing) {
    forall x :: x in bk'.maps ==>
      && x in bk.maps
      && bk'.maps[x].base == bk.maps[x].base && bk'.maps[x].len == bk.maps[x].len
      && bk'.maps[x].rwLo == bk.maps[x].rwLo && bk'.maps[x].freshHi == bk.maps[x].freshHi
  }

  predicate Fits(bk: Backing, rs: seq<Region>) {
    forall i :: 0 <= i < |rs| ==> SliceOk(bk, rs[i]) && 0 <= rs[i].start && rs[i].end <= PAGES
  }

  /** The list keeps its invariant through any change that moves no allocation
   and counts what is left. */
  lemma {:induction false} ListedKept(rs: seq<Region>, bk: Backing, rs': seq<Region>, bk': Backing)
    requires Listed(rs, bk) && Sorted(rs') && Life(bk', rs') && Within(bk', bk) && Fits(bk, rs')
    ensures Listed(rs', bk')
  {
    hide Sorted;
    forall i | 0 <= i < |rs'|
      ensures SliceOk(bk', rs'[i])
    {
      RefPositive(rs', i);
    }
  }

  lemma {:induction false} UnrefWithin(bk: Backing, id: nat)
    requires id in bk.maps
    ensures Within(Unref(bk, id), bk) && Within(Ref(bk, id), bk)
  {
  }

  // ------------------------------------------------------------ splits and merges

  lemma {:induction false} SplitFits(rs: seq<Region>, bk: Backing, i: nat, va: int)
    requires Fits(bk, rs) && i < |rs| && rs[i].start < va < rs[i].end
    ensures Fits(bk, SplitAt(rs, i, va))
  {
    var rs' := SplitAt(rs, i, va);
    forall k | 0 <= k < |rs'|
      ensures SliceOk(bk, rs'[k]) && 0 <= rs'[k].start && rs'[k].end <= PAGES
    {
      assert rs'[k] == if k < i then rs[k] else if k == i then Head(rs[i], va)
                       else if k == i + 1 then Tail(rs[i], va) else rs[k - 1];
      assert SliceOk(bk, rs[i]);
    }
  }

  /** A split and the reference it takes. */
  lemma {:induction false} SplitListed(rs: seq<Region>, bk: Backing, i: nat, va: int)
    requires Listed(rs, bk) && i < |rs| && rs[i].start < va < rs[i].end
    ensures rs[i].hmap in bk.maps
    ensures Listed(SplitAt(rs, i, va), Ref(bk, rs[i].hmap))
    ensures SameView(SplitAt(rs, i, va), rs)
  {
    hide At, RefCount, Sorted, AllocsOk;
    SplitKeepsView(rs, i, va);
    RefPositive(rs, i);
    RefLife(bk, rs, SplitAt(rs, i, va), rs[i].hmap);
    UnrefWithin(bk, rs[i].hmap);
    SplitFits(rs, bk, i, va);
    hide Life, Within, Fits;
    ListedKept(rs, bk, SplitAt(rs, i, va), Ref(bk, rs[i].hmap));
  }

  lemma {:induction false} MergeFits(rs: seq<Region>, bk: Backing, i: nat)
    requires Fits(bk, rs) && i + 1 < |rs| && Mergeable(rs[i], rs[i + 1])
    ensures Fits(bk, MergeAt(rs, i))
  {
    var rs' := MergeAt(rs, i);
    forall k | 0 <= k < |rs'|
      ensures SliceOk(bk, rs'[k]) && 0 <= rs'[k].start && rs'[k].end <= PAGES
    {
      assert rs'[k] == if k < i then rs[k] else if k == i then rs[i].(end := rs[i + 1].end) else rs[k + 1];
      assert SliceOk(bk, rs[i]) && SliceOk(bk, rs[i + 1]);
    }
  }

  /** A merge and the reference it drops, never the last one. */
  lemma {:induction false} MergeListed(rs: seq<Region>, bk: Backing, i: nat)
    requires Listed(rs, bk) && i + 1 < |rs| && Mergeable(rs[i], rs[i + 1])
    ensures rs[i + 1].hmap in bk.maps
    ensures Listed(MergeAt(rs, i), Unref(bk, rs[i + 1].hmap))
    ensures SameView(MergeAt(rs, i), rs)
    ensures Unref(bk, rs[i + 1].hmap).retired == bk.retired && Unref(bk, rs[i + 1].hmap).orphans == bk.orphans
  {
    var rs', id := MergeAt(rs, i), rs[i + 1].hmap;
    hide At, RefCount, Sorted, AllocsOk;
    MergeKeepsView(rs, i);
    RefPositive(rs, i);
    RefPositive(rs', i);
    assert bk.maps[id].refs > 1;
    UnrefLife(bk, rs, rs', id);
    UnrefWithin(bk, id);
    MergeFits(rs, bk, i);
    hide Life, Within, Fits;
    ListedKept(rs, bk, rs', Unref(bk, id));
  }

  // ------------------------------------------------------------ cutting a range out

  /** What region_punch does to the counts for one region. */
  function CutBacking(bk: Backing, r: Region, lo: int, hi: int): Backing
    requires r.hmap in bk.maps && lo < hi && Overlaps(r, lo, hi)
  {
    var n := |Pieces(r, lo, hi)|;
    if n == 0 then Unref(bk, r.hmap) else if n == 1 then bk else Ref(bk, r.hmap)
  }

  lemma {:induction false} CutFits(rs: seq<Region>, bk: Backing, i: nat, lo: int, hi: int)
    requires Fits(bk, rs) && i < |rs| && lo < hi && Overlaps(rs[i], lo, hi) && rs[i].start < rs[i].end
    ensures Fits(bk, CutOut(rs, i, lo, hi))
  {
    var rs', ps := CutOut(rs, i, lo, hi), Pieces(rs[i], lo, hi);
    assert SliceOk(bk, rs[i]);
    forall k | 0 <= k < |rs'|
      ensures SliceOk(bk, rs'[k]) && 0 <= rs'[k].start && rs'[k].end <= PAGES
    {
      assert rs'[k] == if k < i then rs[k] else if k < i + |ps| then ps[k - i] else rs[k - |ps| + 1];
    }
  }

  lemma {:induction false} CutLife(rs: seq<Region>, bk: Backing, i: nat, lo: int, hi: int)
    requires Sorted(rs) && Life(bk, rs) && i < |rs| && lo < hi && Overlaps(rs[i], lo, hi)
    ensures rs[i].hmap in bk.maps && RefCount(rs, rs[i].hmap) > 0
    ensures Life(CutBacking(bk, rs[i], lo, hi), CutOut(rs, i, lo, hi))
  {
    RefPositive(rs, i);
    hide At, RefCount;
    CutOutKeeps(rs, i, lo, hi);
    var rs', n := CutOut(rs, i, lo, hi), |Pieces(rs[i], lo, hi)|;
    if n == 0 {
      UnrefLife(bk, rs, rs', rs[i].hmap);
    } else if n == 1 {
      SameCounts(bk, rs, rs');
    } else {
      RefLife(bk, rs, rs', rs[i].hmap);
    }
  }

  lemma {:induction false} CutListed(rs: seq<Region>, bk: Backing, i: nat, lo: int, hi: int)
    requires Listed(rs, bk) && i < |rs| && lo < hi && Overlaps(rs[i], lo, hi)
    ensures rs[i].hmap in bk.maps
    ensures Listed(CutOut(rs, i, lo, hi), CutBacking(bk, rs[i], lo, hi))
    ensures forall p :: !(lo <= p < hi) ==> At(CutOut(rs, i, lo, hi), p) == At(rs, p)
  {
    hide At, RefCount, AllocsOk, Life;
    CutLife(rs, bk, i, lo, hi);
    CutOutKeeps(rs, i, lo, hi);
    UnrefWithin(bk, rs[i].hmap);
    CutFits(rs, bk, i, lo, hi);
    hide Within, Fits;
    ListedKept(rs, bk, CutOut(rs, i, lo, hi), CutBacking(bk, rs[i], lo, hi));
  }

  lemma {:induction false} SameCounts(bk: Backing, rs: seq<Region>, rs': seq<Region>)
    requires Life(bk, rs) && forall id :: RefCount(rs', id) == RefCount(rs, id)
    ensures Life(bk, rs')
  {
  }

  // ------------------------------------------------------------ new mappings

  /** What the host promises of memory it hands out: it overlaps nothing that
   backs the guest. */
  predicate HostFree(bk: Backing, base: int, len: nat) {
    forall x :: x in bk.maps ==> base + len <= bk.maps[x].base || bk.maps[x].base + bk.maps[x].len <= base
  }

  lemma {:induction false} HostInAlloc(rs: seq<Region>, bk: Backing, p: int)
    requires Slices(bk, rs) && At(rs, p).Some?
    ensures var s := At(rs, p).value;
            s.hmap in bk.maps && bk.maps[s.hmap].freshHi <= s.host < bk.maps[s.hmap].base + bk.maps[s.hmap].len
  {
    var i := AtWhere(rs, p);
    assert SliceOk(bk, rs[i]);
  }

  /** A new region over free ground, backed by a new allocation whose first
   `room` pages are kept for growth. */
  lemma {:induction false} NewListed(rs: seq<Region>, bk: Backing, r: Region, base: int, len: nat, room: nat)
    requires Listed(rs, bk) && HostFree(bk, base, len)
    requires 0 <= r.start < r.end <= PAGES && r.hmap == bk.next && r.host == base + room
    requires room + (r.end - r.start) <= len && AttrOk(r)
    requires forall p :: r.start <= p < r.end ==> At(rs, p).None?
    ensures Listed(Insert(rs, r), New(bk, base, len, room))
    ensures forall p :: At(Insert(rs, r), p) == if Covers(r, p) then Some(Slice(r, p)) else At(rs, p)
  {
    hide At, RefCount, Insert;
    FreeGround(rs, r.start, r.end);
    InsertFree(rs, r);
    var bk', rs' := New(bk, base, len, room), Insert(rs, r);
    NewLife(bk, rs, rs', base, len, room);
    NewFits(bk, rs, rs', r, base, len, room);
  }

  lemma {:induction false} NewFits(bk: Backing, rs: seq<Region>, rs': seq<Region>, r: Region, base: int, len: nat, room: nat)
    requires Slices(bk, rs) && InBounds(rs) && AllocsOk(bk) && HostFree(bk, base, len) && bk.next !in bk.maps
    requires 0 <= r.start < r.end <= PAGES && r.hmap == bk.next && r.host == base + room
    requires room + (r.end - r.start) <= len && AttrOk(r)
    requires forall x :: x in rs' <==> x == r || x in rs
    ensures var bk' := New(bk, base, len, room); Slices(bk', rs') && InBounds(rs') && AllocsOk(bk')
  {
    var bk' := New(bk, base, len, room);
    forall k | 0 <= k < |rs'|
      ensures SliceOk(bk', rs'[k]) && 0 <= rs'[k].start && rs'[k].end <= PAGES
    {
      assert rs'[k] in rs';
      if rs'[k] != r {
        var j :| 0 <= j < |rs| && rs[j] == rs'[k];
        assert SliceOk(bk, rs[j]);
      }
    }
  }

  /** Ground no page of which is mapped overlaps no region. */
  lemma {:induction false} FreeGround(rs: seq<Region>, lo: int, hi: int)
    requires Sorted(rs) && lo < hi && forall p :: lo <= p < hi ==> At(rs, p).None?
    ensures forall i :: 0 <= i < |rs| ==> !Overlaps(rs[i], lo, hi)
  {
    forall i | 0 <= i < |rs|
      ensures !Overlaps(rs[i], lo, hi)
    {
      if Overlaps(rs[i], lo, hi) {
        var p := if lo < rs[i].start then rs[i].start else lo;
        AtIndex(rs, i, p);
        assert false;
      }
    }
  }

  lemma {:induction false} NewHostsApart(rs: seq<Region>, bk: Backing, rs': seq<Region>, r: Region, base: int, len: nat)
    requires Listed(rs, bk) && HostsApart(rs) && HostFree(bk, base, len)
    requires base <= r.host && r.host + (r.end - r.start) <= base + len
    requires forall p :: At(rs', p) == if Covers(r, p) then Some(Slice(r, p)) else At(rs, p)
    ensures HostsApart(rs')
  {
    forall p, q | At(rs', p).Some? && At(rs', q).Some? && p != q
      ensures At(rs', p).value.host != At(rs', q).value.host
    {
      if !Covers(r, p) { HostInAlloc(rs, bk, p); }
      if !Covers(r, q) { HostInAlloc(rs, bk, q); }
      assert forall x :: x in bk.maps ==> bk.maps[x].base <= bk.maps[x].freshHi;
    }
  }

  /** The pages of `r` are `r`'s, the first `live` of them with entries; nothing
   else changed. */
  ghost predicate MappedOver(rs: seq<Region>, v: seq<Pte>, rs0: seq<Region>, v0: seq<Pte>, r: Region, live: nat) {
    && |v| == |v0| == PAGES
    && (forall p :: At(rs, p) == if Covers(r, p) then Some(Slice(r, p)) else At(rs0, p))
    && (forall p :: 0 <= p < PAGES ==>
          v[p] == if Covers(r, p) then SetPte(r.host + (p - r.start), r.prot, p < r.start + live) else v0[p])
  }

  /** Ground cleared, then mapped anew: the whole invariant again. */
  lemma {:induction false} MapSpace(rs0: seq<Region>, bk0: Backing, v0: seq<Pte>, rs1: seq<Region>, bk1: Backing,
                 r: Region, base: int, len: nat, room: nat, v: seq<Pte>)
    requires SpaceInv(rs0, bk0, v0) && Listed(rs1, bk1) && Within(bk1, bk0) && HostFree(bk0, base, len)
    requires forall p :: At(rs1, p) == if r.start <= p < r.end then None else At(rs0, p)
    requires 0 <= r.start < r.end <= PAGES && r.hmap == bk1.next && r.host == base + room
    requires room + (r.end - r.start) <= len && AttrOk(r)
    requires |v| == PAGES
    requires forall p :: 0 <= p < PAGES && !Covers(r, p) ==> v[p] == v0[p]
    requires forall p :: r.start <= p < r.end ==>
               v[p] == Present(r.host + (p - r.start), r.prot) || (r.attr.hostmap && v[p].Absent?)
    ensures SpaceInv(Insert(rs1, r), New(bk1, base, len, room), v)
    ensures forall p :: At(Insert(rs1, r), p) == if Covers(r, p) then Some(Slice(r, p)) else At(rs0, p)
  {
    hide At, Insert, Listed;
    var rs := Insert(rs1, r);
    NewListed(rs1, bk1, r, base, len, room);
    FewerHosts(rs0, rs1);
    NewHostsApart(rs1, bk1, rs, r, base, len);
    forall p | 0 <= p < PAGES
      ensures CoherentAt(rs, v, p)
    {
      assert CoherentAt(rs0, v0, p);
    }
  }

  lemma {:induction false} FewerHosts(rs0: seq<Region>, rs1: seq<Region>)
    requires HostsApart(rs0) && forall p :: At(rs1, p).Some? ==> At(rs1, p) == At(rs0, p)
    ensures HostsApart(rs1)
  {
  }

  ghost predicate UnmappedOver(rs: seq<Region>, v: seq<Pte>, rs0: seq<Region>, v0: seq<Pte>, lo: int, hi: int) {
    && |v| == |v0| == PAGES
    && (forall p :: At(rs, p) == if lo <= p < hi then None else At(rs0, p))
    && (forall p :: 0 <= p < PAGES ==> v[p] == if lo <= p < hi then Absent else v0[p])
  }

  function Reprotected(s: Option<Region>, prot: nat): Option<Region> {
    if s.Some? then Some(s.value.(prot := prot)) else None
  }

  /** Exactly the protection of the range's pages changed. */
  ghost predicate ProtectedOver(rs: seq<Region>, v: seq<Pte>, rs0: seq<Region>, v0: seq<Pte>, lo: int, hi: int, prot: nat) {
    && |v| == |v0| == PAGES
    && (forall p :: At(rs, p) == if lo <= p < hi then Reprotected(At(rs0, p), prot) else At(rs0, p))
    && (forall p :: 0 <= p < PAGES ==> v[p] == if lo <= p < hi then Reprotect(v0[p], prot) else v0[p])
  }

  ghost predicate AllMapped(rs: seq<Region>, lo: int, hi: int) { forall p :: lo <= p < hi ==> At(rs, p).Some? }

  ghost predicate AllFree(rs: seq<Region>, lo: int, hi: int) { forall p :: lo <= p < hi ==> At(rs, p).None? }

  /** Free ground has no entries. */
  lemma {:induction false} FreeAbsent(rs: seq<Region>, bk: Backing, v: seq<Pte>, lo: int, hi: int)
    requires SpaceInv(rs, bk, v) && AllFree(rs, lo, hi)
    ensures |v| == PAGES && forall p :: lo <= p < hi && 0 <= p < PAGES ==> v[p].Absent?
  {
    hide At, Listed;
    forall p | lo <= p < hi && 0 <= p < PAGES ensures v[p].Absent? { assert CoherentAt(rs, v, p); }
  }

  /** Ground cleared, with its entries. */
  lemma {:induction false} UnmapSpace(rs0: seq<Region>, bk0: Backing, v0: seq<Pte>, rs1: seq<Region>, bk1: Backing,
                   lo: int, hi: int, v: seq<Pte>)
    requires SpaceInv(rs0, bk0, v0) && Listed(rs1, bk1)
    requires forall p :: At(rs1, p) == if lo <= p < hi then None else At(rs0, p)
    requires |v| == PAGES && forall p :: 0 <= p < PAGES ==> v[p] == if lo <= p < hi then Absent else v0[p]
    ensures SpaceInv(rs1, bk1, v) && UnmappedOver(rs1, v, rs0, v0, lo, hi)
  {
    hide At, Listed;
    FewerHosts(rs0, rs1);
    forall p | 0 <= p < PAGES
      ensures CoherentAt(rs1, v, p)
    {
      assert CoherentAt(rs0, v0, p);
    }
  }

  /** A list that shows the same pages. */
  lemma {:induction false} SameSpace(rs0: seq<Region>, bk0: Backing, v: seq<Pte>, rs1: seq<Region>, bk1: Backing)
    requires SpaceInv(rs0, bk0, v) && Listed(rs1, bk1) && SameView(rs1, rs0)
    ensures SpaceInv(rs1, bk1, v)
  {
    hide At, Listed;
    FewerHosts(rs0, rs1);
    forall p | 0 <= p < PAGES
      ensures CoherentAt(rs1, v, p)
    {
      assert CoherentAt(rs0, v, p);
    }
  }

  // ------------------------------------------------------------ the generation

  /** as_gen_bump */
  function Bump(bk: Backing): Backing { bk.(gen := bk.gen + 1) }

  /** Everything in the quarantine was retired in a generation that is over. */
  predicate Superseded(bk: Backing) { forall k :: 0 <= k < |bk.retired| ==> bk.retired[k].gen < bk.gen }

  /** The generation has moved, and what left for the quarantine did so before. */
  predicate PublishedSince(bk: Backing, bk0: Backing) { bk.gen > bk0.gen && Superseded(bk) && Retires(bk, bk0) }

  /** A second operation that moves the generation, on allocations as the first
   left them. */
  lemma {:induction false} PublishedThen(bk: Backing, bk1: Backing, bk2: Backing)
    requires Retires(bk1, bk) && Within(bk1, bk) && PublishedSince(bk2, bk1)
    ensures PublishedSince(bk2, bk)
  {
    RetiresThen(bk, bk1, bk2);
  }

  /** What a cached translation needs of a change to the table: a live entry is
   as it was, or the generation has moved. */
  predicate Announced(v: seq<Pte>, bk: Backing, v0: seq<Pte>, bk0: Backing) {
    bk.gen > bk0.gen || (|v| == |v0| && forall p :: 0 <= p < |v| && v0[p].Present? ==> v[p] == v0[p])
  }

  lemma {:induction false} BumpListed(rs: seq<Region>, bk: Backing, gen: nat)
    requires Listed(rs, bk) && gen > bk.gen
    ensures Listed(rs, bk.(gen := gen)) && Superseded(bk.(gen := gen))
  {
    hide Sorted, InBounds, RefCount;
    assert forall id :: Quarantined(bk.(gen := gen), id) == Quarantined(bk, id);
  }

  lemma {:induction false} RefFields(bk: Backing, id: nat)
    requires id in bk.maps
    ensures Ref(bk, id).gen == bk.gen && Unref(bk, id).gen == bk.gen
    ensures Ref(bk, id).retired == bk.retired && Ref(bk, id).released == bk.released && Within(Ref(bk, id), bk)
  {
  }

  lemma {:induction false} NewFields(bk: Backing, base: int, len: nat, room: nat)
    ensures New(bk, base, len, room).gen == bk.gen && New(bk, base, len, room).retired == bk.retired
    ensures New(bk, base, len, room).released == bk.released
  {
  }

  lemma {:induction false} BumpSpace(rs: seq<Region>, bk: Backing, v: seq<Pte>, gen: nat)
    requires SpaceInv(rs, bk, v) && gen > bk.gen
    ensures SpaceInv(rs, bk.(gen := gen), v) && Superseded(bk.(gen := gen))
  {
    hide Listed, HostsApart, Coherent;
    BumpListed(rs, bk, gen);
  }

  /** Every live page still has the host page it had, whatever its rights. */
  ghost predicate KeepsPages(rs: seq<Region>, v: seq<Pte>, rs0: seq<Region>, v0: seq<Pte>) {
    && |v| == |v0|
    && forall p :: 0 <= p < |v| && v0[p].Present? ==>
         && v[p].Present? && v[p].host == v0[p].host
         && At(rs0, p).Some? && At(rs, p).Some? && At(rs, p).value.hmap == At(rs0, p).value.hmap
  }

  lemma {:induction false} KeepsSelf(rs: seq<Region>, bk: Backing, v: seq<Pte>)
    requires SpaceInv(rs, bk, v)
    ensures KeepsPages(rs, v, rs, v)
  {
    hide At, Listed, HostsApart;
    forall p | 0 <= p < |v| && v[p].Present? ensures At(rs, p).Some? { assert CoherentAt(rs, v, p); }
  }

  lemma {:induction false} KeepsTrans(rs: seq<Region>, v: seq<Pte>, rs1: seq<Region>, v1: seq<Pte>, rs0: seq<Region>, v0: seq<Pte>)
    requires KeepsPages(rs, v, rs1, v1) && KeepsPages(rs1, v1, rs0, v0)
    ensures KeepsPages(rs, v, rs0, v0)
  {
    hide At;
  }

  lemma {:induction false} KeepsView(rs: seq<Region>, rs': seq<Region>, v: seq<Pte>, rs0: seq<Region>, v0: seq<Pte>)
    requires KeepsPages(rs, v, rs0, v0) && SameView(rs', rs)
    ensures KeepsPages(rs', v, rs0, v0)
  {
    hide At;
  }

  /** guest_protect, wherever it stopped. */
  lemma {:induction false} ProtectKeepsPages(rs: seq<Region>, bk: Backing, v: seq<Pte>, rs0: seq<Region>, bk0: Backing, v0: seq<Pte>,
                                             lo: int, upTo: int, prot: nat)
    requires SpaceInv(rs0, bk0, v0) && ProtectedOver(rs, v, rs0, v0, lo, upTo, prot)
    ensures KeepsPages(rs, v, rs0, v0)
  {
    hide At, Listed, HostsApart;
    forall p | 0 <= p < |v| && v0[p].Present?
      ensures v[p].Present? && v[p].host == v0[p].host
      ensures At(rs0, p).Some? && At(rs, p).Some? && At(rs, p).value.hmap == At(rs0, p).value.hmap
    {
      assert CoherentAt(rs0, v0, p);
    }
  }

  /** Growth of a stack, and the filling of a hole: pages that had no entry. */
  lemma {:induction false} AdditionKeepsPages(rs: seq<Region>, bk: Backing, v: seq<Pte>, rs0: seq<Region>, bk0: Backing, v0: seq<Pte>)
    requires SpaceInv(rs0, bk0, v0) && |v| == PAGES && (forall p :: 0 <= p < PAGES && v0[p].Present? ==> v[p] == v0[p])
    requires forall p :: 0 <= p < PAGES && v0[p].Present? ==> At(rs, p) == At(rs0, p)
    ensures KeepsPages(rs, v, rs0, v0)
  {
    hide At, Listed, HostsApart;
    forall p | 0 <= p < |v| && v0[p].Present?
      ensures At(rs0, p).Some?
    {
      assert CoherentAt(rs0, v0, p);
    }
  }

  // ------------------------------------------------------------ protection

  /** The list with the protection of one region changed. */
  function WithProt(rs: seq<Region>, i: nat, prot: nat): seq<Region>
    requires i < |rs|
  {
    rs[i := rs[i].(prot := prot)]
  }

  lemma {:induction false} SameHmaps(a: seq<Region>, b: seq<Region>, id: nat)
    requires |a| == |b| && forall k :: 0 <= k < |a| ==> a[k].hmap == b[k].hmap
    ensures RefCount(a, id) == RefCount(b, id)
  {
    if a != [] {
      SameHmaps(a[1..], b[1..], id);
    }
  }

  lemma {:induction false} WithProtListed(rs: seq<Region>, bk: Backing, i: nat, prot: nat)
    requires Listed(rs, bk) && i < |rs|
    ensures Listed(WithProt(rs, i, prot), bk)
  {
    var rs' := WithProt(rs, i, prot);
    forall id ensures RefCount(rs', id) == RefCount(rs, id) { SameHmaps(rs', rs, id); }
    hide RefCount;
    SameCounts(bk, rs, rs');
    assert forall k :: 0 <= k < |rs'| ==> SliceOk(bk, rs[k]);
  }

  lemma {:induction false} WithProtView(rs: seq<Region>, i: nat, prot: nat, p: int)
    requires Sorted(rs) && i < |rs|
    ensures At(WithProt(rs, i, prot), p) == if Covers(rs[i], p) then Reprotected(At(rs, p), prot) else At(rs, p)
  {
    var r, r' := rs[i], rs[i].(prot := prot);
    assert rs == rs[..i] + [r] + rs[i + 1..];
    assert WithProt(rs, i, prot) == rs[..i] + [r'] + rs[i + 1..];
    AtOne(r, p);
    AtOne(r', p);
    AtReplace(rs[..i], [r], [r'], rs[i + 1..], p);
    AtReplace(rs[..i], [r'], [r], rs[i + 1..], p);
    if Covers(r, p) {
      AtNowhere(rs[..i], p);
    }
  }

  lemma {:induction false} ProtectedSpace(rs0: seq<Region>, bk: Backing, v0: seq<Pte>, rs: seq<Region>, v: seq<Pte>,
                       lo: int, hi: int, prot: nat)
    requires SpaceInv(rs0, bk, v0) && Listed(rs, bk) && ProtectedOver(rs, v, rs0, v0, lo, hi, prot)
    ensures SpaceInv(rs, bk, v)
  {
    hide At, Listed;
    forall p, q | At(rs, p).Some? && At(rs, q).Some? && p != q
      ensures At(rs, p).value.host != At(rs, q).value.host
    {
      assert At(rs0, p).Some? && At(rs0, q).Some?;
    }
    forall p | 0 <= p < PAGES
      ensures CoherentAt(rs, v, p)
    {
      assert CoherentAt(rs0, v0, p);
    }
  }

  /** One more region of the range: the change reaches its end. */
  lemma {:induction false} ProtectStep(rs0: seq<Region>, v0: seq<Pte>, rs: seq<Region>, v: seq<Pte>, v': seq<Pte>, i: nat,
                    lo: int, upTo: int, hi: int, prot: nat)
    requires ProtectedOver(rs, v, rs0, v0, lo, upTo, prot) && Sorted(rs) && i < |rs|
    requires lo <= rs[i].start && rs[i].end <= hi && 0 <= rs[i].start && rs[i].end <= PAGES && upTo == rs[i].start
    requires |v'| == PAGES
    requires forall p :: 0 <= p < PAGES ==> v'[p] == if Covers(rs[i], p) then Reprotect(v[p], prot) else v[p]
    ensures ProtectedOver(WithProt(rs, i, prot), v', rs0, v0, lo, rs[i].end, prot)
  {
    hide At;
    forall p
      ensures At(WithProt(rs, i, prot), p) == if lo <= p < rs[i].end then Reprotected(At(rs0, p), prot) else At(rs0, p)
    {
      WithProtView(rs, i, prot, p);
    }
  }
}
