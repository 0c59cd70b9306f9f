/**
 What the operations on an address space owe the epochs: an operation that ends
 announced leaves the page table as the protocol of Reclamation wants it before
 the lock is dropped. And a call that does not end so.
 */
module Publication {
  import opened Options
  import opened RegionList
  import opened Backing
  import opened PageTable
  import opened Space
  import opened AddressSpace
  import R = Reclamation
  import L = Lending

  // ------------------------------------------------------------ the two views of one table

  function Rights(prot: nat): set<R.Perm> {
    (if prot % 2 == 1 then {R.Read} else {}) + (if HasWrite(prot) then {R.Write} else {})
    + (if prot / 4 % 2 == 1 then {R.Exec} else {})
  }

  /** The entry the protocol sees for a page: the allocation and the place in it. */
  ghost function EntryOf(rs: seq<Region>, v: seq<Pte>, p: nat): Option<R.Pte>
    requires p < |v|
  {
    if v[p].Present? && At(rs, p).Some?
    then Some(R.Pte(At(rs, p).value.hmap, if v[p].host >= 0 then 2 * v[p].host else -2 * v[p].host - 1, Rights(v[p].prot)))
    else None
  }

  ghost predicate Shows(pt: map<nat, R.Pte>, rs: seq<Region>, v: seq<Pte>) {
    forall p: nat :: p < |v| ==> (p in pt <==> EntryOf(rs, v, p).Some?) && (p in pt ==> Some(pt[p]) == EntryOf(rs, v, p))
  }

  /** Retired and not mapped again: in the quarantine, or released. */
  ghost predicate Left(bk: Backing, id: nat) { Quarantined(bk, id) || Released(bk, id) }

  /** The shared state of the protocol, as an address space has it: the table, what
   has been retired and when, what of it has been given back, and the pages changed
   since the last bump. */
  ghost predicate Abstracts(sh: R.Shared, rs: seq<Region>, bk: Backing, v: seq<Pte>) {
    && (forall p :: p in sh.pt ==> p < |v|) && Shows(sh.pt, rs, v)
    && sh.asgen == bk.gen && (forall id :: id in sh.retiredAt <==> Left(bk, id))
    && (forall k :: 0 <= k < |bk.retired| ==>
          bk.retired[k].id in sh.retiredAt && sh.retiredAt[bk.retired[k].id] == bk.retired[k].gen)
    && sh.freed == bk.released
  }

  /** What the protocol counts as dirty: pages that since the last bump have lost
   the host page they had then. */
  ghost predicate DirtySince(sh: R.Shared, rs: seq<Region>, v: seq<Pte>, rs0: seq<Region>, v0: seq<Pte>) {
    forall p :: p in sh.dirty ==>
      && p < |v0| && p < |v| && EntryOf(rs0, v0, p).Some?
      && !(EntryOf(rs, v, p).Some? && EntryOf(rs, v, p).value.alloc == EntryOf(rs0, v0, p).value.alloc
           && EntryOf(rs, v, p).value.off == EntryOf(rs0, v0, p).value.off)
  }

  /** Every operation of an address space ends where it may drop the lock: nothing
   is dirty, and no entry names what has been retired. */
  lemma {:induction false} MayUnlock(sh: R.Shared, sp: AddrSpace)
    requires sp.Valid() && Abstracts(sh, sp.regions, sp.bk, sp.pt.view) && sh.pending == {}
    requires DirtySince(sh, sp.regions, sp.pt.view, sp.toldRegions, sp.toldView)
    ensures R.Published(sh)
  {
    hide At, Rights, PageTable.Valid;
    var rs, bk, v, rs0, v0 := sp.regions, sp.bk, sp.pt.view, sp.toldRegions, sp.toldView;
    forall p | p in sh.pt ensures sh.pt[p].alloc !in sh.retiredAt {
      assert Some(sh.pt[p]) == EntryOf(rs, v, p);
      NotLeft(rs, bk, v, p);
    }
    forall p: nat | p < |v0| && EntryOf(rs0, v0, p).Some?
      ensures p < |v| && EntryOf(rs, v, p).Some? && EntryOf(rs, v, p).value.alloc == EntryOf(rs0, v0, p).value.alloc
      ensures EntryOf(rs, v, p).value.off == EntryOf(rs0, v0, p).value.off
    {
      assert v0[p].Present?;
    }
    assert sh.dirty == {};
  }

  /** Retiring an allocation is the protocol's step: recorded with the generation as
   it stands. */
  lemma {:induction false} RetireIsStep(sh: R.Shared, rs: seq<Region>, bk: Backing, v: seq<Pte>, id: nat)
    requires Abstracts(sh, rs, bk, v) && QuarantineOk(bk) && id in bk.maps
    ensures id !in sh.retiredAt
    ensures Abstracts(sh.(retiredAt := sh.retiredAt[id := sh.asgen]), rs, Retire(bk, id), v)
  {
    hide Shows;
    var bk' := Retire(bk, id);
    assert bk'.retired[|bk.retired|].id == id;
    forall x ensures Left(bk', x) <==> Left(bk, x) || x == id {
      if Quarantined(bk, x) {
        var k :| 0 <= k < |bk.retired| && bk.retired[k].id == x;
        assert bk'.retired[k].id == x;
      }
    }
  }

  /** A drain is its releases: of what is in the quarantine it gives back exactly
   what the protocol would, for the same bound. */
  lemma {:induction false} DrainIsStep(sh: R.Shared, rs: seq<Region>, bk: Backing, v: seq<Pte>, safe: Option<nat>)
    requires Abstracts(sh, rs, bk, v) && SpaceInv(rs, bk, v)
    ensures var e := if safe.Some? then R.Gen(safe.value) else R.Unbounded;
            var freed := set a | a in sh.retiredAt && (a in sh.freed || R.Below(sh.retiredAt[a], e));
            Abstracts(sh.(freed := freed), rs, L.Drained(bk, safe), v)
  {
    hide Shows, L.Kept, L.Dropped, CountsOk, OrphansOk, Coherent, HostsApart, Slices, AllocsOk;
    var bk' := L.Drained(bk, safe);
    L.DrainLife(bk, rs, safe);
    L.KeptIs(bk.retired, safe);
    forall x ensures Left(bk', x) <==> Left(bk, x) { SameLeft(bk, rs, safe, x); }
    forall k | 0 <= k < |bk'.retired| ensures exists j :: 0 <= j < |bk.retired| && bk.retired[j] == bk'.retired[k] {
      assert bk'.retired[k] in bk.retired;
    }
    forall a: nat { FreedIs(sh, rs, bk, v, safe, a); }
  }

  lemma {:induction false} FreedIs(sh: R.Shared, rs: seq<Region>, bk: Backing, v: seq<Pte>, safe: Option<nat>, a: nat)
    requires Abstracts(sh, rs, bk, v) && Life(bk, rs)
    ensures var e := if safe.Some? then R.Gen(safe.value) else R.Unbounded;
            a in L.Drained(bk, safe).released <==> a in sh.retiredAt && (a in sh.freed || R.Below(sh.retiredAt[a], e))
  {
    hide Shows, L.Kept, L.Dropped, CountsOk, OrphansOk;
    L.DrainLife(bk, rs, safe);
    if Quarantined(bk, a) {
      var k :| 0 <= k < |bk.retired| && bk.retired[k].id == a;
      assert a in L.Drained(bk, safe).released <==> safe.None? || bk.retired[k].gen < safe.value;
    }
  }

  lemma {:induction false} SameLeft(bk: Backing, rs: seq<Region>, safe: Option<nat>, x: nat)
    requires Life(bk, rs)
    ensures Left(L.Drained(bk, safe), x) <==> Left(bk, x)
  {
    hide L.Kept, L.Dropped, CountsOk, OrphansOk;
    var bk' := L.Drained(bk, safe);
    L.DrainLife(bk, rs, safe);
    L.KeptIs(bk.retired, safe);
    if Quarantined(bk, x) {
      var k :| 0 <= k < |bk.retired| && bk.retired[k].id == x;
      if x !in bk'.released {
        assert bk.retired[k] in bk'.retired;
        var j :| 0 <= j < |bk'.retired| && bk'.retired[j] == bk.retired[k];
        assert bk'.retired[j].id == x;
      }
    }
    if Quarantined(bk', x) {
      var k :| 0 <= k < |bk'.retired| && bk'.retired[k].id == x;
      assert bk'.retired[k] in bk.retired;
      var j :| 0 <= j < |bk.retired| && bk.retired[j] == bk'.retired[k];
      assert bk.retired[j].id == x;
    }
  }

  /** After one that moved the generation, cached translations that are current
   were made from the table as it stands. */
  lemma {:induction false} ToldIsAll(sp: AddrSpace, p: nat)
    requires sp.Valid() && sp.Told() && p < PAGES
    ensures |sp.pt.view| == |sp.toldView| == PAGES
    ensures EntryOf(sp.regions, sp.pt.view, p) == EntryOf(sp.toldRegions, sp.toldView, p)
  {
    hide At, Rights, PageTable.Valid, Listed, HostsApart;
  }

  lemma {:induction false} NotLeft(rs: seq<Region>, bk: Backing, v: seq<Pte>, p: nat)
    requires SpaceInv(rs, bk, v) && At(rs, p).Some?
    ensures !Left(bk, At(rs, p).value.hmap)
  {
    hide Coherent, HostsApart, Sorted, RefCount;
    var i := AtWhere(rs, p);
    assert SliceOk(bk, rs[i]);
  }

  // ------------------------------------------------------------ a refused call

  const RW: nat := 3
  const PRIVATE := Region(0, 1, RW, 100, 0, None, 0, Plain)
  const SHARED := Region(1, 2, RW, 200, 1, Some(FileId(1, 1)), 0, Plain.(shared := true, hostmap := true))

  ghost function TwoPages(): seq<Pte> {
    seq(PAGES, p => if p == 0 then Present(100, RW) else if p == 1 then Present(200, RW) else Absent)
  }

  const TWO := Backing(map[0 := HostMap(100, 1, 1, 0, 100, 100), 1 := HostMap(200, 1, 1, 0, 200, 200)], [], [], {}, 2, 1)

  /** A private page and a shared one behind it, both writable, to be made
   read-only; the host refuses the shared one. The private page has lost a right,
   and no cached translation of it will be thrown away. */
  lemma {:induction false} RefusedInSilence()
    ensures SpaceInv([PRIVATE, SHARED], TWO, TwoPages())
    ensures SilentRefusal([PRIVATE, SHARED], TwoPages(), 0, 2 * PAGE, 1, {1})
  {
    var rs := [PRIVATE, SHARED];
    TwoViews();
    assert FirstRefused(rs, {1}, 0, 1);
    assert TwoPages()[0].prot != 1;
    TwoSpace();
  }

  lemma {:induction false} TwoViews()
    ensures var rs := [PRIVATE, SHARED];
            forall p :: At(rs, p) == if p == 0 then Some(Slice(PRIVATE, 0)) else if p == 1 then Some(Slice(SHARED, 1)) else None
  {
    forall p
      ensures At([PRIVATE, SHARED], p)
              == if p == 0 then Some(Slice(PRIVATE, 0)) else if p == 1 then Some(Slice(SHARED, 1)) else None
    {
      AtTwo(PRIVATE, SHARED, p);
    }
  }

  lemma {:induction false} TwoLife()
    ensures Life(TWO, [PRIVATE, SHARED])
  {
    hide RefCount;
    forall id: nat ensures RefCount([PRIVATE, SHARED], id) == (if id == 0 then 1 else 0) + (if id == 1 then 1 else 0) {
      TwoRefs(PRIVATE, SHARED, id);
    }
  }

  lemma {:induction false} TwoListed()
    ensures Listed([PRIVATE, SHARED], TWO)
  {
    hide Life;
    TwoLife();
  }

  lemma {:induction false} TwoCoherent()
    ensures Coherent([PRIVATE, SHARED], TwoPages())
  {
    hide At;
    TwoViews();
    forall p | 0 <= p < PAGES ensures CoherentAt([PRIVATE, SHARED], TwoPages(), p) {
      assert TwoPages()[p] == if p == 0 then Present(100, RW) else if p == 1 then Present(200, RW) else Absent;
    }
  }

  lemma {:induction false} TwoSpace()
    ensures SpaceInv([PRIVATE, SHARED], TWO, TwoPages())
  {
    hide At, Listed, Coherent, TwoPages;
    TwoViews();
    TwoListed();
    TwoCoherent();
  }
}
