/**
 mremap growing a mapping where it stands: more host backing directly after the
 region's slice, from its own allocation or from another.
 */
module RemapGrow {
  import opened Options
  import opened RegionList
  import opened Backing
  import opened PageTable
  import opened Space
  import opened AddressSpace

  /** What the host answers when asked for more backing: may the allocation grow
   in place, is this the only guest thread, and where mremap (moving, or
   duplicating a shared object) or mmap put the new one. */
  datatype GrowHost = GrowHost(extend: bool, alone: bool, move: Option<int>, dup: Option<int>, alloc: Option<int>)

  /** The host's answers name memory that backs nothing yet. */
  predicate HostOk(bk: Backing, r: Region, extra: nat, h: GrowHost)
    requires r.hmap in bk.maps
  {
    var hm, rlen := bk.maps[r.hmap], r.end - r.start;
    && rlen >= 0
    && (h.extend ==> HostFree(bk, hm.base + hm.len, extra))
    && (h.move.Some? ==> if h.move.value == r.host then HostFree(bk, r.host + rlen, extra)
                         else HostFree(bk, h.move.value, rlen + extra))
    && (h.dup.Some? ==> HostFree(bk, h.dup.value, rlen + extra))
    && (h.alloc.Some? ==> HostFree(bk, h.alloc.value, rlen + extra))
  }

  // ------------------------------------------------------------ other backing

  function Rehost(rs: seq<Region>, i: nat, host: int, id: nat): seq<Region>
    requires i < |rs|
  {
    rs[i := rs[i].(host := host, hmap := id)]
  }

  lemma {:induction false} ReplaceCounts(rs: seq<Region>, i: nat, r': Region, id: nat)
    requires i < |rs|
    ensures RefCount(rs[i := r'], id)
            == RefCount(rs, id) - (if rs[i].hmap == id then 1 else 0) + (if r'.hmap == id then 1 else 0)
  {
    ReplaceOne(rs, i, [r']);
    assert rs[i := r'] == rs[..i] + [r'] + rs[i + 1..];
    TwoRefs(r', r', id);
  }

  lemma {:induction false} ReplaceView(rs: seq<Region>, i: nat, r': Region, p: int)
    requires Sorted(rs) && i < |rs| && r'.start == rs[i].start && r'.end >= rs[i].end
    requires forall q :: rs[i].end <= q < r'.end ==> At(rs, q).None?
    ensures At(rs[i := r'], p) == if Covers(r', p) then Some(Slice(r', p)) else At(rs, p)
  {
    assert rs == rs[..i] + [rs[i]] + rs[i + 1..];
    assert rs[i := r'] == rs[..i] + [r'] + rs[i + 1..];
    AtReplace(rs[..i], [rs[i]], [r'], rs[i + 1..], p);
    AtReplace(rs[..i], [r'], [rs[i]], rs[i + 1..], p);
    AtOne(rs[i], p);
    AtOne(r', p);
    if Covers(r', p) {
      AtNowhere(rs[..i], p);
    }
  }

  lemma {:induction false} RehostLife(rs: seq<Region>, bk: Backing, i: nat, base: int, len: nat)
    requires Life(bk, rs) && i < |rs|
    ensures rs[i].hmap in bk.maps && bk.next !in bk.maps
    ensures Life(Unref(New(bk, base, len, 0), rs[i].hmap), Rehost(rs, i, base, bk.next))
  {
    hide At;
    var r' := rs[i].(host := base, hmap := bk.next);
    var both := rs + [r'];
    RefPositive(rs, i);
    forall id
      ensures RefCount(both, id) == RefCount(rs, id) + if id == bk.next then 1 else 0
      ensures RefCount(Rehost(rs, i, base, bk.next), id) == RefCount(both, id) - if id == rs[i].hmap then 1 else 0
    {
      RefConcat(rs, [r'], id);
      TwoRefs(r', r', id);
      ReplaceCounts(rs, i, r', id);
    }
    hide RefCount;
    NewLife(bk, rs, both, base, len, 0);
    UnrefLife(New(bk, base, len, 0), both, Rehost(rs, i, base, bk.next), rs[i].hmap);
  }

  lemma {:induction false} RehostFits(rs: seq<Region>, bk: Backing, i: nat, base: int, len: nat)
    requires Slices(bk, rs) && AllocsOk(bk) && i < |rs| && bk.next !in bk.maps && rs[i].hmap in bk.maps
    requires HostFree(bk, base, len) && 0 < rs[i].end - rs[i].start <= len
    ensures var bk' := New(bk, base, len, 0);
            AllocsOk(bk') && Slices(bk', Rehost(rs, i, base, bk.next)) && Within(Unref(bk', rs[i].hmap), bk')
  {
    var bk', rs' := New(bk, base, len, 0), Rehost(rs, i, base, bk.next);
    UnrefWithin(bk', rs[i].hmap);
    forall k | 0 <= k < |rs'|
      ensures SliceOk(bk', rs'[k])
    {
      assert SliceOk(bk, rs[k]);
    }
  }

  /** The region gets another allocation, and gives up its reference to the old. */
  lemma {:induction false} RehostListed(rs: seq<Region>, bk: Backing, i: nat, base: int, len: nat)
    requires Listed(rs, bk) && i < |rs| && HostFree(bk, base, len) && rs[i].end - rs[i].start <= len
    ensures rs[i].hmap in bk.maps && bk.next !in bk.maps
    ensures Listed(Rehost(rs, i, base, bk.next), Unref(New(bk, base, len, 0), rs[i].hmap))
  {
    hide At, RefCount, Life, Slices, AllocsOk, Within, Unref;
    var rs' := Rehost(rs, i, base, bk.next);
    RehostLife(rs, bk, i, base, len);
    RehostFits(rs, bk, i, base, len);
    WithinKeeps(rs', New(bk, base, len, 0), Unref(New(bk, base, len, 0), rs[i].hmap));
  }

  lemma {:induction false} WithinKeeps(rs: seq<Region>, bk: Backing, bk': Backing)
    requires Slices(bk, rs) && AllocsOk(bk) && Within(bk', bk) && Life(bk', rs)
    ensures Slices(bk', rs) && AllocsOk(bk')
  {
    forall i | 0 <= i < |rs|
      ensures SliceOk(bk', rs[i])
    {
      RefPositive(rs, i);
      assert SliceOk(bk, rs[i]);
    }
  }

  /** No page is backed by a host page in [lo, hi). */
  ghost predicate HostsClear(rs: seq<Region>, lo: int, hi: int) {
    forall p :: At(rs, p).Some? ==> !(lo <= At(rs, p).value.host < hi)
  }

  lemma {:induction false} RehostSpace(rs: seq<Region>, bk: Backing, v: seq<Pte>, i: nat, base: int, len: nat, v': seq<Pte>)
    requires SpaceInv(rs, bk, v) && i < |rs| && HostFree(bk, base, len) && rs[i].end - rs[i].start <= len
    requires |v'| == PAGES
    requires forall p :: 0 <= p < PAGES ==>
               v'[p] == if Covers(rs[i], p) then Repoint(v[p], base + (p - rs[i].start)) else v[p]
    ensures rs[i].hmap in bk.maps
    ensures SpaceInv(Rehost(rs, i, base, bk.next), Unref(New(bk, base, len, 0), rs[i].hmap), v')
    ensures HostsClear(Rehost(rs, i, base, bk.next), base + (rs[i].end - rs[i].start), base + len)
  {
    hide At, Unref, New;
    var rs', r' := Rehost(rs, i, base, bk.next), rs[i].(host := base, hmap := bk.next);
    RehostListed(rs, bk, i, base, len);
    forall p
      ensures At(rs', p) == if Covers(r', p) then Some(Slice(r', p)) else At(rs, p)
    {
      ReplaceView(rs, i, r', p);
    }
    RehostApart(rs, bk, rs', r', base, len);
    forall p | 0 <= p < PAGES
      ensures CoherentAt(rs', v', p)
    {
      assert CoherentAt(rs, v, p);
      if Covers(rs[i], p) { AtIndex(rs, i, p); }
    }
  }

  lemma {:induction false} RehostApart(rs: seq<Region>, bk: Backing, rs': seq<Region>, r': Region, base: int, len: nat)
    requires Listed(rs, bk) && HostsApart(rs) && HostFree(bk, base, len) && r'.host == base && 0 < r'.end - r'.start <= len
    requires forall p :: At(rs', p) == if Covers(r', p) then Some(Slice(r', p)) else At(rs, p)
    ensures HostsApart(rs') && HostsClear(rs', base + (r'.end - r'.start), base + len)
  {
    hide At;
    NewHostsApart(rs, bk, rs', r', base, len);
    forall p | At(rs', p).Some?
      ensures !(base + (r'.end - r'.start) <= At(rs', p).value.host < base + len)
    {
      if !Covers(r', p) {
        HostInAlloc(rs, bk, p);
        assert RoomOk(bk.maps[At(rs, p).value.hmap]);
      }
    }
  }

  // ------------------------------------------------------------ more of the same backing

  function Longer(bk: Backing, id: nat, extra: nat): Backing
    requires id in bk.maps
  {
    bk.(maps := bk.maps[id := bk.maps[id].(len := bk.maps[id].len + extra)])
  }

  /** The allocation grows over host memory that backs nothing. */
  lemma {:induction false} LongerSpace(rs: seq<Region>, bk: Backing, v: seq<Pte>, id: nat, extra: nat)
    requires SpaceInv(rs, bk, v) && id in bk.maps && HostFree(bk, bk.maps[id].base + bk.maps[id].len, extra)
    ensures SpaceInv(rs, Longer(bk, id, extra), v)
    ensures HostsClear(rs, bk.maps[id].base + bk.maps[id].len, bk.maps[id].base + bk.maps[id].len + extra)
  {
    hide At, RefCount;
    var bk' := Longer(bk, id, extra);
    SameMapsQuarantine(bk, bk');
    forall k | 0 <= k < |rs| ensures SliceOk(bk', rs[k]) { assert SliceOk(bk, rs[k]); }
    LongerAllocs(bk, id, extra);
    forall p | At(rs, p).Some?
      ensures !(bk.maps[id].base + bk.maps[id].len <= At(rs, p).value.host < bk.maps[id].base + bk.maps[id].len + extra)
    {
      HostInAlloc(rs, bk, p);
      assert RoomOk(bk.maps[At(rs, p).value.hmap]);
    }
  }

  lemma {:induction false} LongerAllocs(bk: Backing, id: nat, extra: nat)
    requires AllocsOk(bk) && id in bk.maps && HostFree(bk, bk.maps[id].base + bk.maps[id].len, extra)
    ensures AllocsOk(Longer(bk, id, extra))
  {
  }

  // ------------------------------------------------------------ the region's end moves

  lemma {:induction false} GrowEndListed(rs: seq<Region>, bk: Backing, i: nat, extra: nat)
    requires Listed(rs, bk) && i < |rs| && rs[i].end + extra <= PAGES && AllFree(rs, rs[i].end, rs[i].end + extra)
    requires rs[i].hmap in bk.maps
    requires rs[i].host + (rs[i].end - rs[i].start) + extra <= bk.maps[rs[i].hmap].base + bk.maps[rs[i].hmap].len
    ensures Listed(rs[i := rs[i].(end := rs[i].end + extra)], bk)
  {
    var r' := rs[i].(end := rs[i].end + extra);
    var rs' := rs[i := r'];
    forall id ensures RefCount(rs', id) == RefCount(rs, id) { SameHmaps(rs', rs, id); }
    hide At, RefCount;
    SameCounts(bk, rs, rs');
    if extra > 0 {
      FreeGround(rs, rs[i].end, rs[i].end + extra);
    }
    forall k | 0 <= k < |rs'| ensures SliceOk(bk, rs'[k]) { assert SliceOk(bk, rs[k]); }
  }

  lemma {:induction false} GrowEndSpace(rs: seq<Region>, bk: Backing, v: seq<Pte>, i: nat, extra: nat, v': seq<Pte>)
    requires SpaceInv(rs, bk, v) && i < |rs| && rs[i].end + extra <= PAGES && AllFree(rs, rs[i].end, rs[i].end + extra)
    requires rs[i].hmap in bk.maps
    requires rs[i].host + (rs[i].end - rs[i].start) + extra <= bk.maps[rs[i].hmap].base + bk.maps[rs[i].hmap].len
    requires HostsClear(rs, rs[i].host + (rs[i].end - rs[i].start), rs[i].host + (rs[i].end - rs[i].start) + extra)
    requires |v'| == PAGES
    requires forall p :: 0 <= p < PAGES ==>
               v'[p] == if rs[i].end <= p < rs[i].end + extra && !rs[i].attr.hostmap
                        then Present(rs[i].host + (p - rs[i].start), rs[i].prot) else v[p]
    ensures SpaceInv(rs[i := rs[i].(end := rs[i].end + extra)], bk, v')
    ensures forall p :: At(rs[i := rs[i].(end := rs[i].end + extra)], p)
                        == if rs[i].end <= p < rs[i].end + extra then Some(Slice(rs[i], p)) else At(rs, p)
  {
    hide At;
    var r' := rs[i].(end := rs[i].end + extra);
    var rs' := rs[i := r'];
    GrowEndListed(rs, bk, i, extra);
    forall p
      ensures At(rs', p) == if rs[i].end <= p < rs[i].end + extra then Some(Slice(rs[i], p)) else At(rs, p)
    {
      ReplaceView(rs, i, r', p);
      if Covers(rs[i], p) { AtIndex(rs, i, p); }
    }
    forall p, q | At(rs', p).Some? && At(rs', q).Some? && p != q
      ensures At(rs', p).value.host != At(rs', q).value.host
    {
    }
    forall p | 0 <= p < PAGES
      ensures CoherentAt(rs', v', p)
    {
      assert CoherentAt(rs, v, p);
    }
  }

  // ------------------------------------------------------------ the operation

  /** What region_extend_backing leaves: the region's slice, here or elsewhere,
   with `extra` pages after it that back nothing yet. */
  ghost predicate Extended(rs: seq<Region>, bk: Backing, v: seq<Pte>, rs0: seq<Region>, v0: seq<Pte>, i: nat, extra: nat) {
    && i < |rs0| && |v| == |v0| == PAGES && |rs| == |rs0|
    && var r := rs[i]; var rlen := r.end - r.start;
       && rs == Rehost(rs0, i, r.host, r.hmap) && r.hmap in bk.maps
       && r.host + rlen + extra <= bk.maps[r.hmap].base + bk.maps[r.hmap].len
       && HostsClear(rs, r.host + rlen, r.host + rlen + extra)
       && (forall p :: 0 <= p < PAGES ==>
             v[p] == if Covers(r, p) then Repoint(v0[p], r.host + (p - r.start)) else v0[p])
  }

  lemma {:induction false} StayedExtended(rs: seq<Region>, bk: Backing, v: seq<Pte>, i: nat, extra: nat)
    requires SpaceInv(rs, bk, v) && i < |rs| && rs[i].hmap in bk.maps
    requires var hm := bk.maps[rs[i].hmap]; rs[i].host + (rs[i].end - rs[i].start) == hm.base + hm.len
    requires HostFree(bk, bk.maps[rs[i].hmap].base + bk.maps[rs[i].hmap].len, extra)
    ensures SpaceInv(rs, Longer(bk, rs[i].hmap, extra), v)
    ensures Extended(rs, Longer(bk, rs[i].hmap, extra), v, rs, v, i, extra)
  {
    LongerSpace(rs, bk, v, rs[i].hmap, extra);
    hide At;
    assert Rehost(rs, i, rs[i].host, rs[i].hmap) == rs;
    forall p | 0 <= p < PAGES
      ensures v[p] == if Covers(rs[i], p) then Repoint(v[p], rs[i].host + (p - rs[i].start)) else v[p]
    {
      assert CoherentAt(rs, v, p);
      if Covers(rs[i], p) { AtIndex(rs, i, p); }
    }
  }

  lemma {:induction false} MovedExtended(rs: seq<Region>, bk: Backing, v: seq<Pte>, i: nat, base: int, extra: nat, v': seq<Pte>)
    requires SpaceInv(rs, bk, v) && i < |rs| && extra > 0 && HostFree(bk, base, rs[i].end - rs[i].start + extra)
    requires |v'| == PAGES
    requires forall p :: 0 <= p < PAGES ==>
               v'[p] == if Covers(rs[i], p) then Repoint(v[p], base + (p - rs[i].start)) else v[p]
    ensures rs[i].hmap in bk.maps
    ensures var bk' := Unref(New(bk, base, rs[i].end - rs[i].start + extra, 0), rs[i].hmap);
            && SpaceInv(Rehost(rs, i, base, bk.next), bk', v')
            && Extended(Rehost(rs, i, base, bk.next), bk', v', rs, v, i, extra)
  {
    hide At, New, Unref, SpaceInv, Listed, HostsClear, HostFree;
    var len := rs[i].end - rs[i].start + extra;
    HmapKnown(rs, bk, v, i);
    Shape(rs, bk, v);
    RehostSpace(rs, bk, v, i, base, len, v');
    NewSurvives(bk, rs, i, base, len);
  }

  lemma {:induction false} NewSurvives(bk: Backing, rs: seq<Region>, i: nat, base: int, len: nat)
    requires Listed(rs, bk) && i < |rs| && rs[i].hmap in bk.maps
    ensures var bk' := Unref(New(bk, base, len, 0), rs[i].hmap);
            bk.next in bk'.maps && bk'.maps[bk.next] == HostMap(base, len, 1, 0, base, base)
  {
  }

  lemma {:induction false} HmapKnown(rs: seq<Region>, bk: Backing, v: seq<Pte>, i: nat)
    requires SpaceInv(rs, bk, v) && i < |rs|
    ensures rs[i].hmap in bk.maps && rs[i].start < rs[i].end && 0 <= rs[i].start && rs[i].end <= PAGES && |v| == PAGES
    ensures rs[i].host + (rs[i].end - rs[i].start) <= bk.maps[rs[i].hmap].base + bk.maps[rs[i].hmap].len
    ensures bk.maps[rs[i].hmap].len > 0 && rs[i].hmap < bk.next
  {
    assert SliceOk(bk, rs[i]) && RoomOk(bk.maps[rs[i].hmap]);
  }

  /** Host memory free right behind a slice is behind its whole allocation. */
  lemma {:induction false} FreeBehind(rs: seq<Region>, bk: Backing, v: seq<Pte>, i: nat, extra: nat)
    requires SpaceInv(rs, bk, v) && i < |rs| && extra > 0 && rs[i].hmap in bk.maps
    requires HostFree(bk, rs[i].host + (rs[i].end - rs[i].start), extra)
    ensures rs[i].host + (rs[i].end - rs[i].start) == bk.maps[rs[i].hmap].base + bk.maps[rs[i].hmap].len
  {
    assert SliceOk(bk, rs[i]) && RoomOk(bk.maps[rs[i].hmap]);
  }

  /** Which other backing region_extend_backing settles on, if any. */
  function NewBacking(hm: HostMap, r: Region, inPlace: bool, h: GrowHost): Option<int> {
    if h.alone && hm.pins == 0 && h.move.Some? then h.move
    else if r.attr.shared then h.dup
    else if r.file.None? && !(inPlace && hm.pins != 0) then h.alloc
    else None
  }

  /** Other backing is the same memory: an object others can see is moved or
   duplicated, never copied; a private file's pages are only moved; and nothing is
   moved that another thread may have translated, or that is lent out, nor lent
   memory copied under a mapping that stays. */
  lemma {:induction false} BackingIsTheSame(hm: HostMap, r: Region, inPlace: bool, h: GrowHost, x: int)
    requires NewBacking(hm, r, inPlace, h) == Some(x)
    ensures h.move == Some(x) || h.dup == Some(x) || h.alloc == Some(x)
    ensures r.attr.shared ==> h.move == Some(x) || h.dup == Some(x)
    ensures !r.attr.shared && r.file.Some? ==> h.move == Some(x)
    ensures !h.alone || hm.pins != 0 ==> if r.attr.shared then h.dup == Some(x) else h.alloc == Some(x) && r.file.None?
    ensures hm.pins != 0 && inPlace ==> r.attr.shared
  {
  }

  /** There is some whenever the host gives some that would be. */
  lemma {:induction false} BackingIsFound(hm: HostMap, r: Region, inPlace: bool, h: GrowHost)
    requires NewBacking(hm, r, inPlace, h).None?
    ensures h.alone && hm.pins == 0 ==> h.move.None?
    ensures r.attr.shared ==> h.dup.None?
    ensures !r.attr.shared && r.file.None? && (hm.pins == 0 || !inPlace) ==> h.alloc.None?
  {
  }

  /** The slice ends its allocation and the host extends that, or it can have
   other backing. */
  predicate CanExtend(hm: HostMap, r: Region, inPlace: bool, h: GrowHost) {
    || (r.host + (r.end - r.start) == hm.base + hm.len && h.extend)
    || NewBacking(hm, r, inPlace, h).Some?
  }

  /** region_extend_backing */
  method ExtendBacking(sp: AddrSpace, i: nat, extra: nat, inPlace: bool, h: GrowHost) returns (ok: bool)
    requires sp.Valid() && i < |sp.regions| && sp.regions[i].hmap in sp.bk.maps && extra > 0
    requires HostOk(sp.bk, sp.regions[i], extra, h)
    modifies sp`regions, sp`bk, sp`toldRegions, sp`toldView, sp.pt.Repr
    ensures sp.Valid() && fresh(sp.pt.Repr - old(sp.pt.Repr))
    ensures !ok ==> sp.regions == old(sp.regions) && sp.bk == old(sp.bk) && sp.pt.view == old(sp.pt.view)
    ensures ok ==> Extended(sp.regions, sp.bk, sp.pt.view, old(sp.regions), old(sp.pt.view), i, extra)
    ensures ok <==> CanExtend(old(sp.bk).maps[old(sp.regions)[i].hmap], old(sp.regions)[i], inPlace, h)
    ensures Announced(sp.pt.view, sp.bk, old(sp.pt.view), old(sp.bk)) && Retires(sp.bk, old(sp.bk))
    ensures ok && sp.regions != old(sp.regions) ==>
              NewBacking(old(sp.bk).maps[old(sp.regions)[i].hmap], old(sp.regions)[i], inPlace, h)
              == Some(sp.regions[i].host)
  {
    hide At, Listed, SpaceInv, Extended, PageTable.Valid, Unref, HostFree, KeepsPages;
    var r := sp.regions[i];
    var hm := sp.bk.maps[r.hmap];
    var rlen := r.end - r.start;
    ghost var rs, bk, v := sp.regions, sp.bk, sp.pt.view;
    HmapKnown(rs, bk, v, i);
    if r.host + rlen == hm.base + hm.len && h.extend {
      StayedExtended(rs, bk, v, i, extra);
      sp.bk := Longer(sp.bk, r.hmap, extra);
      return true;
    }
    if h.alone && hm.pins == 0 && h.move == Some(r.host) {
      FreeBehind(rs, bk, v, i, extra);
      StayedExtended(rs, bk, v, i, extra);
      sp.bk := Longer(sp.bk, r.hmap, extra);
      return true;
    }
    var nb := NewBacking(hm, r, inPlace, h);
    if nb.None? { return false; }
    var id := sp.bk.next;
    sp.bk := New(sp.bk, nb.value, rlen + extra, 0);
    sp.pt.RepointRange(r.start, rlen, nb.value);
    sp.bk := Bump(sp.bk);
    BumpSpace(rs, bk, v, bk.gen + 1);
    SameHostFree(bk, Bump(bk), nb.value, rlen + extra);
    MovedExtended(rs, Bump(bk), v, i, nb.value, extra, sp.pt.view);
    OldRetires(bk, r.hmap, nb.value, rlen + extra);
    sp.regions := Rehost(sp.regions, i, nb.value, id);
    sp.bk := Unref(sp.bk, r.hmap);
    KeepsSelf(sp.regions, sp.bk, sp.pt.view);
    sp.toldRegions, sp.toldView := sp.regions, sp.pt.view;
    ok := true;
  }

  /** The old allocation goes with the generation the new one came in. */
  lemma {:induction false} OldRetires(bk: Backing, id: nat, base: int, len: nat)
    requires id in bk.maps && id < bk.next
    ensures Retires(Unref(Bump(New(bk, base, len, 0)), id), bk)
    ensures Unref(Bump(New(bk, base, len, 0)), id).gen == bk.gen + 1
  {
  }

  lemma {:induction false} SameHostFree(bk: Backing, bk': Backing, base: int, len: nat)
    requires HostFree(bk, base, len) && bk'.maps == bk.maps
    ensures HostFree(bk', base, len)
  {
  }

  /** The mapping that ended at `end` goes on for `extra` pages; what was mapped
   keeps its guest address, protection and presence. */
  ghost predicate GrownOver(rs: seq<Region>, v: seq<Pte>, rs0: seq<Region>, v0: seq<Pte>, r0: Region, r: Region, extra: nat) {
    && |v| == |v0| == PAGES
    && r == r0.(end := r0.end + extra, host := r.host, hmap := r.hmap)
    && (forall p :: At(rs, p) == if Covers(r, p) then Some(Slice(r, p)) else At(rs0, p))
    && (forall p :: 0 <= p < PAGES ==>
          v[p] == if Covers(r0, p) then Repoint(v0[p], r.host + (p - r.start))
                  else if Covers(r, p) && !r.attr.hostmap then Present(r.host + (p - r.start), r.prot)
                  else v0[p])
  }

  lemma {:induction false} GrownView(rs0: seq<Region>, v0: seq<Pte>, rs1: seq<Region>, bk: Backing, v1: seq<Pte>,
                  rs: seq<Region>, v: seq<Pte>, i: nat, extra: nat)
    requires SpaceInv(rs1, bk, v1) && i < |rs0| && Sorted(rs0) && AllFree(rs0, rs0[i].end, rs0[i].end + extra)
    requires Extended(rs1, bk, v1, rs0, v0, i, extra) && rs1[i].end + extra <= PAGES
    requires rs == rs1[i := rs1[i].(end := rs1[i].end + extra)]
    requires |v| == PAGES
    requires forall p :: 0 <= p < PAGES ==>
               v[p] == if rs1[i].end <= p < rs1[i].end + extra && !rs1[i].attr.hostmap
                       then Present(rs1[i].host + (p - rs1[i].start), rs1[i].prot) else v1[p]
    ensures SpaceInv(rs, bk, v) && GrownOver(rs, v, rs0, v0, rs0[i], rs[i], extra)
  {
    hide At, Listed;
    assert rs == rs0[i := rs[i]] && rs1 == rs0[i := rs1[i]];
    forall p
      ensures At(rs, p) == if Covers(rs[i], p) then Some(Slice(rs[i], p)) else At(rs0, p)
    {
      ReplaceView(rs0, i, rs[i], p);
    }
    forall p | rs1[i].end <= p < rs1[i].end + extra
      ensures At(rs1, p).None?
    {
      ReplaceView(rs0, i, rs1[i], p);
    }
    GrowEndSpace(rs1, bk, v1, i, extra, v);
  }

  /** Does a mapping end at `end`, with the ground up to `end'` free and backing
   to be had? */
  ghost predicate GrowsAt(rs: seq<Region>, bk: Backing, end: int, end': int, inPlace: bool, h: GrowHost) {
    && AllFree(rs, end, end')
    && exists i :: 0 <= i < |rs| && rs[i].end == end && (rs[i].file.Some? ==> rs[i].attr.hostmap)
                   && rs[i].hmap in bk.maps && CanExtend(bk.maps[rs[i].hmap], rs[i], inPlace, h)
  }

  /** Only the region over the last page before `end` can end there. */
  lemma {:induction false} GrowsHere(rs: seq<Region>, bk: Backing, i: int, end: int, end': int, inPlace: bool, h: GrowHost)
    requires Sorted(rs) && i < |rs| && (i < 0 ==> At(rs, end - 1).None?) && (i >= 0 ==> Covers(rs[i], end - 1))
    ensures GrowsAt(rs, bk, end, end', inPlace, h) <==>
              && AllFree(rs, end, end') && i >= 0 && rs[i].end == end && (rs[i].file.Some? ==> rs[i].attr.hostmap)
              && rs[i].hmap in bk.maps && CanExtend(bk.maps[rs[i].hmap], rs[i], inPlace, h)
  {
    hide At, CanExtend;
    forall j | 0 <= j < |rs| && rs[j].end == end
      ensures j == i
    {
      AtIndex(rs, j, end - 1);
    }
  }

  /** guest_remap_grow */
  method Grow(sp: AddrSpace, addr: nat, oldLen: nat, newLen: nat, inPlace: bool, h: GrowHost) returns (st: Status, i: int)
    requires sp.Valid()
    requires forall k :: 0 <= k < |sp.regions| && Aligned(oldLen) && Aligned(newLen) && oldLen < newLen && sp.regions[k].hmap in sp.bk.maps
                         ==> HostOk(sp.bk, sp.regions[k], (newLen - oldLen) / PAGE, h)
    modifies sp, sp.pt.Repr
    ensures sp.Valid() && fresh(sp.pt.Repr - old(sp.pt.Repr))
    ensures st == EINVAL <==> !(Aligned(addr) && Aligned(oldLen) && Aligned(newLen)) || newLen <= oldLen
    ensures st == Ok <==> st != EINVAL && RangeOk(addr, newLen) && addr + oldLen > 0
                          && GrowsAt(old(sp.regions), old(sp.bk), (addr + oldLen) / PAGE, (addr + newLen) / PAGE, inPlace, h)
    ensures st == Ok || st == EINVAL || st == ENOMEM
    ensures st == Ok ==> PublishedSince(sp.bk, old(sp.bk)) && sp.Told()
    ensures st != Ok ==> sp.regions == old(sp.regions) && sp.bk == old(sp.bk) && sp.pt.view == old(sp.pt.view)
    ensures st == Ok ==>
      && 0 <= i < |old(sp.regions)| == |sp.regions| && old(sp.regions)[i].end == (addr + oldLen) / PAGE
      && AllFree(old(sp.regions), (addr + oldLen) / PAGE, (addr + newLen) / PAGE)
      && GrownOver(sp.regions, sp.pt.view, old(sp.regions), old(sp.pt.view), old(sp.regions)[i], sp.regions[i],
                   (newLen - oldLen) / PAGE)
  {
    hide At, Listed, SpaceInv, Extended, PageTable.Valid, HostOk, GrownOver, GrowsAt, CanExtend, Announced, KeepsPages;
    i := -1;
    if !(Aligned(addr) && Aligned(oldLen) && Aligned(newLen)) || newLen <= oldLen { return EINVAL, i; }
    if !RangeOk(addr, newLen) { return ENOMEM, i; }
    Shape(sp.regions, sp.bk, sp.pt.view);
    var end, extra := (addr + oldLen) / PAGE, (newLen - oldLen) / PAGE;
    assert end + extra == (addr + newLen) / PAGE <= PAGES && extra > 0;
    if end == 0 { return ENOMEM, i; }
    i := sp.Find(end - 1);
    GrowsHere(sp.regions, sp.bk, i, end, end + extra, inPlace, h);
    if i < 0 || sp.regions[i].end != end { return ENOMEM, i; }
    var free := sp.CheckFree(end, end + extra);
    if !free { return ENOMEM, i; }
    var r0 := sp.regions[i];
    if r0.file.Some? && !r0.attr.hostmap { return ENOMEM, i; }
    ghost var rs0, v0 := sp.regions, sp.pt.view;
    HmapKnown(rs0, sp.bk, v0, i);
    var ok := ExtendBacking(sp, i, extra, inPlace, h);
    if !ok { return ENOMEM, i; }
    Lengthen(sp, i, extra, rs0, v0);
    st := Ok;
  }

  /** The region's end moves, with entries for the pages it gains unless they are
   a file's. */
  method Lengthen(sp: AddrSpace, i: nat, extra: nat, ghost rs0: seq<Region>, ghost v0: seq<Pte>)
    requires sp.Valid() && Extended(sp.regions, sp.bk, sp.pt.view, rs0, v0, i, extra)
    requires Sorted(rs0) && rs0[i].end + extra <= PAGES && AllFree(rs0, rs0[i].end, rs0[i].end + extra)
    modifies sp, sp.pt.Repr
    ensures sp.Valid() && fresh(sp.pt.Repr - old(sp.pt.Repr)) && PublishedSince(sp.bk, old(sp.bk)) && sp.Told()
    ensures sp.bk == Bump(old(sp.bk))
    ensures |sp.regions| == |rs0| && GrownOver(sp.regions, sp.pt.view, rs0, v0, rs0[i], sp.regions[i], extra)
  {
    hide At, Listed, SpaceInv, Extended, PageTable.Valid, GrownOver, KeepsPages;
    ghost var rs1, v1 := sp.regions, sp.pt.view;
    Shape(rs1, sp.bk, v1);
    ExtendedShape(rs1, sp.bk, v1, rs0, v0, i, extra);
    var r := sp.regions[i];
    sp.regions := sp.regions[i := r.(end := r.end + extra)];
    if !r.attr.hostmap {
      sp.pt.SetRange(r.end, extra, r.host + (r.end - r.start), r.prot, true);
    }
    GrownView(rs0, v0, rs1, sp.bk, v1, sp.regions, sp.pt.view, i, extra);
    BumpSpace(sp.regions, sp.bk, sp.pt.view, sp.bk.gen + 1);
    KeepsSelf(sp.regions, sp.bk, sp.pt.view);
    sp.bk := Bump(sp.bk);
    sp.toldRegions, sp.toldView := sp.regions, sp.pt.view;
  }

  lemma {:induction false} ExtendedShape(rs: seq<Region>, bk: Backing, v: seq<Pte>, rs0: seq<Region>, v0: seq<Pte>, i: nat, extra: nat)
    requires Extended(rs, bk, v, rs0, v0, i, extra)
    ensures |rs| == |rs0| && i < |rs0| && |v| == PAGES
    ensures rs[i].start == rs0[i].start && rs[i].end == rs0[i].end && rs[i].attr == rs0[i].attr
  {
  }
}
