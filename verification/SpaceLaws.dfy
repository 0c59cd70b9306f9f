/**
 What the operations on an address space mean to the guest, in the arguments of
 the calls: the pages a map call leaves, what protection lets be lent, and what
 one call undoes of another.
 */
module SpaceLaws {
  import opened Options
  import opened RegionList
  import opened Backing
  import opened PageTable
  import opened Space
  import opened AddressSpace
  import opened Lending
  import Remap
  import RemapGrow
  import StackGrowth
  import Publication
  import R = Reclamation

  // ------------------------------------------------------------ rights

  /** PROT_READ is 1, PROT_WRITE 2, PROT_EXEC 4. */
  function ProtOf(rights: set<R.Perm>): nat {
    (if R.Read in rights then 1 else 0) + (if R.Write in rights then 2 else 0) + (if R.Exec in rights then 4 else 0)
  }

  /** A protection is the rights it grants, and they are it. */
  lemma {:induction false} RightsAreProtection(prot: nat, rights: set<R.Perm>)
    ensures Publication.Rights(ProtOf(rights)) == rights
    ensures ProtOf(Publication.Rights(prot)) == prot % 8
    ensures StackGrowth.Accessible(prot) <==> Publication.Rights(prot) != {}
  {
    ThreeBits(R.Read in rights, R.Write in rights, R.Exec in rights);
    forall x ensures x in Publication.Rights(ProtOf(rights)) <==> x in rights {
      match x case Read => case Write => case Exec =>
    }
    ThreeBits(prot % 2 == 1, prot / 2 % 2 == 1, prot / 4 % 2 == 1);
    EightIs(prot);
    if Publication.Rights(prot) != {} {
      var x :| x in Publication.Rights(prot);
    }
  }

  function Bit(b: bool): nat { if b then 1 else 0 }

  lemma {:induction false} ThreeBits(a: bool, b: bool, c: bool)
    ensures var n := Bit(a) + 2 * Bit(b) + 4 * Bit(c);
            (n % 2 == 1 <==> a) && (n / 2 % 2 == 1 <==> b) && (n / 4 % 2 == 1 <==> c)
  {
  }

  lemma {:induction false} EightIs(n: nat)
    ensures n % 8 == n % 2 + 2 * (n / 2 % 2) + 4 * (n / 4 % 2)
  {
    var a, b, c := n / 2, n / 2 / 2, n / 2 / 2 / 2;
    var low := n % 2 + 2 * (a % 2) + 4 * (b % 2);
    assert n == 2 * a + n % 2 && a == 2 * b + a % 2 && b == 2 * c + b % 2;
    assert n == 8 * c + low && n == 4 * b + (n % 2 + 2 * (a % 2));
    Divided(n, 4, b, n % 2 + 2 * (a % 2));
    Divided(n, 8, c, low);
  }

  lemma {:induction false} Divided(n: nat, d: nat, q: nat, r: nat)
    requires n == d * q + r && r < d && (d == 4 || d == 8)
    ensures n / d == q && n % d == r
  {
  }

  function Right(write: bool): R.Perm { if write then R.Write else R.Read }

  lemma {:induction false} GrantsMeans(prot: nat, write: bool)
    ensures Grants(prot, write) <==> Right(write) in Publication.Rights(prot)
  {
  }

  /** What a walk has lent, the guest may itself read, or write; */
  lemma {:induction false} LentIsAllowed(rs: seq<Region>, v: seq<Pte>, runs: seq<Run>, n0: nat, va: nat, done: nat, write: bool, k: nat)
    requires Covered(rs, v, runs, n0, va, done, write) && k < done
    ensures va + k < TASK_SIZE && |v| == PAGES && v[(va + k) / PAGE].Present?
    ensures Right(write) in Publication.Rights(v[(va + k) / PAGE].prot)
  {
    hide At, Bytes, Grants;
    assert Lent(rs, v, va + k, write, Bytes(runs[n0..])[k]);
    GrantsMeans(v[(va + k) / PAGE].prot, write);
  }

  /** what it stops at, the guest may not. */
  lemma {:induction false} CutIsRefused(rs: seq<Region>, v: seq<Pte>, grown: set<nat>, a: nat, write: bool)
    requires |v| == PAGES
    ensures !CanLend(rs, v, grown, a, write) <==>
              || a >= TASK_SIZE || At(rs, a / PAGE).None?
              || (v[a / PAGE].Absent? && !FillsAt(rs, a / PAGE, grown))
              || Right(write) !in Publication.Rights(At(rs, a / PAGE).value.prot)
  {
    hide At, Grants;
    if At(rs, a / PAGE).Some? { GrantsMeans(At(rs, a / PAGE).value.prot, write); }
  }

  /** After mprotect a byte of the range can be lent exactly if the new protection
   grants it, and its page is there or can be filled in. */
  lemma {:induction false} ProtectionDecides(rs: seq<Region>, v: seq<Pte>, rs0: seq<Region>, v0: seq<Pte>, addr: nat, len: nat, prot: nat,
                                             grown: set<nat>, a: nat, write: bool)
    requires Aligned(addr) && Aligned(len) && RangeOk(addr, len) && AllMapped(rs0, addr / PAGE, (addr + len) / PAGE)
    requires ProtectedOver(rs, v, rs0, v0, addr / PAGE, (addr + len) / PAGE, prot) && addr <= a < addr + len
    ensures CanLend(rs, v, grown, a, write) <==>
              Right(write) in Publication.Rights(prot) && (v0[a / PAGE].Present? || FillsAt(rs0, a / PAGE, grown))
  {
    hide At, Grants;
    InRange(addr, len, a);
    GrantsMeans(prot, write);
  }

  lemma {:induction false} InRange(addr: nat, len: nat, a: nat)
    requires Aligned(addr) && Aligned(len) && addr <= a < addr + len
    ensures addr / PAGE <= a / PAGE < (addr + len) / PAGE && (RangeOk(addr, len) ==> a < TASK_SIZE && a / PAGE < PAGES)
    ensures (a - addr) / PAGE == a / PAGE - addr / PAGE < len / PAGE
  {
  }

  /** mprotect without write, then a read(2) into the range: nothing is lent. */
  method ProtectThenLend(sp: AddrSpace, addr: nat, len: nat, prot: nat, refuse: set<int>, va: nat, n: nat, write: bool,
                         grown: set<nat>, cap: nat)
    returns (st: Status, done: nat, why: Reason)
    requires sp.Valid() && addr <= va < addr + len && n > 0
    modifies sp, sp.pt.Repr
    ensures sp.Valid() && fresh(sp.pt.Repr - old(sp.pt.Repr))
    ensures st == Ok && Right(write) !in Publication.Rights(prot) ==> done == 0 && why == Cut
  {
    hide At, SpaceInv, PageTable.Valid, CanLend, Covered, FilledIn, Grants, Bytes, ProtectedOver, StopsAt, Announced, SilentRefusal;
    ghost var rs0, v0 := sp.regions, sp.pt.view;
    ghost var upTo;
    st, upTo := sp.Protect(addr, len, prot, refuse);
    ghost var v1 := sp.pt.view;
    var runs;
    runs, done, why := Lend(sp, va, n, write, false, grown, [], cap);
    if st == Ok && Right(write) !in Publication.Rights(prot) {
      ProtectedWhole(rs0, refuse, addr, len, upTo);
      ProtectionDecides(sp.regions, v1, rs0, v0, addr, len, prot, grown, va, write);
      ProtectedAt(sp.regions, v1, rs0, v0, addr, len, prot, va);
      NotLent(sp.regions, sp.bk, sp.pt.view, runs, va, done, write, prot);
    }
  }

  lemma {:induction false} ProtectedWhole(rs0: seq<Region>, refuse: set<int>, addr: nat, len: nat, upTo: int)
    requires StopsAt(rs0, refuse, addr / PAGE, (addr + len) / PAGE, upTo, true)
    ensures upTo == (addr + len) / PAGE
  {
  }

  lemma {:induction false} ProtectedAt(rs: seq<Region>, v: seq<Pte>, rs0: seq<Region>, v0: seq<Pte>, addr: nat, len: nat, prot: nat, a: nat)
    requires Aligned(addr) && Aligned(len) && addr <= a < addr + len && AllMapped(rs0, addr / PAGE, (addr + len) / PAGE)
    requires ProtectedOver(rs, v, rs0, v0, addr / PAGE, (addr + len) / PAGE, prot)
    ensures At(rs, a / PAGE).Some? && At(rs, a / PAGE).value.prot == prot
  {
    hide At;
    InRange(addr, len, a);
  }

  /** A page without the right lends not even its first byte. */
  lemma {:induction false} NotLent(rs: seq<Region>, bk: Backing, v: seq<Pte>, runs: seq<Run>, va: nat, done: nat, write: bool, prot: nat)
    requires SpaceInv(rs, bk, v) && Covered(rs, v, runs, 0, va, done, write)
    requires At(rs, va / PAGE).Some? && At(rs, va / PAGE).value.prot == prot && Right(write) !in Publication.Rights(prot)
    ensures done == 0
  {
    hide At, Bytes, Grants, Listed, HostsApart;
    GrantsMeans(prot, write);
    assert |v| == PAGES && (va / PAGE < PAGES ==> CoherentAt(rs, v, va / PAGE));
    assert done > 0 ==> Lent(rs, v, va + 0, write, Bytes(runs[0..])[0]);
  }

  // ------------------------------------------------------------ what a map call leaves

  /** mmap(2) of private memory: every byte of the range is on a page that is there,
   with the protection asked for, of no file, and its own. */
  lemma {:induction false} AnonPages(rs: seq<Region>, v: seq<Pte>, rs0: seq<Region>, v0: seq<Pte>, addr: nat, len: nat, prot: nat,
                                     host: int, id: nat, a: nat)
    requires MapArgs(addr, len) && addr <= a < addr + len
    requires MappedOver(rs, v, rs0, v0, AnonRegion(addr, len, prot, host, id), len / PAGE)
    ensures v[a / PAGE] == Present(host + (a - addr) / PAGE, prot)
    ensures var s := At(rs, a / PAGE);
            && s.Some? && s.value.prot == prot && s.value.hmap == id && s.value.file.None?
            && !s.value.attr.shared && s.value.attr.wrOk && !s.value.attr.growsdown && s.value.attr.stackId == 0
  {
    hide At;
    InRange(addr, len, a);
  }

  /** ...of a stack: the same, but it grows, and goes by the id it was given. */
  lemma {:induction false} StackPages(rs: seq<Region>, v: seq<Pte>, rs0: seq<Region>, v0: seq<Pte>, addr: nat, len: nat, prot: nat,
                                      host: int, id: nat, stack: nat, a: nat)
    requires MapArgs(addr, len) && addr <= a < addr + len
    requires MappedOver(rs, v, rs0, v0, StackRegion(addr, len, prot, host, id, stack), len / PAGE)
    ensures v[a / PAGE] == Present(host + (a - addr) / PAGE, prot)
    ensures var s := At(rs, a / PAGE);
            && s.Some? && s.value.prot == prot && s.value.hmap == id && s.value.file.None?
            && !s.value.attr.shared && s.value.attr.wrOk && s.value.attr.growsdown && s.value.attr.stackId == stack
  {
    hide At;
    InRange(addr, len, a);
  }

  /** ...of a file: byte `a` is on the page of the file it names, there exactly if the
   file reaches it; only a shared mapping is bound by what the descriptor may do. */
  lemma {:induction false} FilePages(rs: seq<Region>, v: seq<Pte>, rs0: seq<Region>, v0: seq<Pte>, addr: nat, len: nat, prot: nat, off: nat,
                                     file: FileId, shared: bool, writable: bool, path: Option<string>, eof: Option<nat>,
                                     host: int, id: nat, a: nat)
    requires MapArgs(addr, len) && Aligned(off) && addr <= a < addr + len
    requires MappedOver(rs, v, rs0, v0, FileRegion(addr, len, prot, host, id, file, off, FileAttr(shared, writable, path)),
                        LivePages(len / PAGE, off / PAGE, eof))
    ensures v[a / PAGE] == if eof.None? || (off + (a - addr)) / PAGE < eof.value
                           then Present(host + (a - addr) / PAGE, prot) else Absent
    ensures var s := At(rs, a / PAGE);
            && s.Some? && s.value.prot == prot && s.value.hmap == id
            && s.value.file == Some(file) && s.value.fileOff == (off + (a - addr)) / PAGE
            && s.value.attr.shared == shared && s.value.attr.hostmap && s.value.attr.path == path
            && !s.value.attr.growsdown && (s.value.attr.wrOk <==> !shared || writable)
  {
    hide At;
    InRange(addr, len, a);
    FilePage(addr, off, a);
  }

  lemma {:induction false} FilePage(addr: nat, off: nat, a: nat)
    requires Aligned(addr) && Aligned(off) && addr <= a
    ensures (off + (a - addr)) / PAGE == off / PAGE + (a / PAGE - addr / PAGE)
    ensures (a - addr) / PAGE == a / PAGE - addr / PAGE
  {
  }

  /** A mapped file may later be made writable exactly if it is private or its
   descriptor was open for writing. */
  lemma {:induction false} WritableLater(rs: seq<Region>, bk: Backing, v: seq<Pte>, rs0: seq<Region>, v0: seq<Pte>, addr: nat, len: nat,
                                         prot: nat, off: nat, file: FileId, shared: bool, writable: bool, path: Option<string>,
                                         live: nat, host: int, id: nat)
    requires MapArgs(addr, len) && SpaceInv(rs, bk, v)
    requires MappedOver(rs, v, rs0, v0, FileRegion(addr, len, prot, host, id, file, off, FileAttr(shared, writable, path)), live)
    ensures Writable(rs, addr / PAGE, (addr + len) / PAGE) <==> !shared || writable
  {
    hide At, Life, Slices, AllocsOk, HostsApart, Coherent;
    PageRange(addr, len);
    WritableMeans(rs, addr / PAGE, (addr + len) / PAGE);
    assert At(rs, addr / PAGE).Some?;
  }

  /** May the range be made writable: not if some page of it is a shared mapping
   that lacks the right to. */
  lemma {:induction false} WritableMeans(rs: seq<Region>, lo: int, hi: int)
    requires Sorted(rs) && lo < hi
    ensures Writable(rs, lo, hi) <==>
              forall p :: lo <= p < hi && At(rs, p).Some? && At(rs, p).value.attr.shared ==> At(rs, p).value.attr.wrOk
  {
    hide At;
    forall p | lo <= p < hi && At(rs, p).Some? && ReadOnlyShared(At(rs, p).value.attr) ensures !Writable(rs, lo, hi) {
      var k := AtWhere(rs, p);
      assert Overlaps(rs[k], lo, hi);
    }
    if !Writable(rs, lo, hi) {
      var k :| 0 <= k < |rs| && Overlaps(rs[k], lo, hi) && ReadOnlyShared(rs[k].attr);
      var p := if rs[k].start < lo then lo else rs[k].start;
      AtIndex(rs, k, p);
      assert lo <= p < hi && !At(rs, p).value.attr.wrOk;
    }
  }

  /** No page of any mapping goes by an id above the count of stacks made. */
  ghost predicate IdsWithin(rs: seq<Region>, n: nat) { forall p :: At(rs, p).Some? ==> At(rs, p).value.attr.stackId <= n }

  /** Until the count wraps, a stack's id is one no page had, and stays the highest. */
  lemma {:induction false} StackIdIsNew(rs: seq<Region>, v: seq<Pte>, rs0: seq<Region>, v0: seq<Pte>, addr: nat, len: nat, prot: nat,
                                        host: int, id: nat, ids: nat, stack: nat)
    requires MappedOver(rs, v, rs0, v0, StackRegion(addr, len, prot, host, id, stack), len / PAGE)
    requires IdsWithin(rs0, ids) && stack == ids + 1
    ensures forall p :: At(rs0, p).Some? ==> At(rs0, p).value.attr.stackId != stack
    ensures IdsWithin(rs, stack)
  {
    hide At;
  }

  // ------------------------------------------------------------ what one call undoes of another

  /** A mapping unmapped again, whatever it replaced is gone and the rest is as it was. */
  lemma {:induction false} MapThenUnmap(rs0: seq<Region>, v0: seq<Pte>, rs1: seq<Region>, v1: seq<Pte>, rs2: seq<Region>, v2: seq<Pte>,
                                        r: Region, live: nat)
    requires MappedOver(rs1, v1, rs0, v0, r, live) && UnmappedOver(rs2, v2, rs1, v1, r.start, r.end)
    ensures UnmappedOver(rs2, v2, rs0, v0, r.start, r.end) && AllFree(rs2, r.start, r.end)
  {
    hide At;
  }

  /** Of two mprotect calls on one range the last counts. */
  lemma {:induction false} LastProtectionCounts(rs0: seq<Region>, v0: seq<Pte>, rs1: seq<Region>, v1: seq<Pte>,
                                                rs2: seq<Region>, v2: seq<Pte>, lo: int, hi: int, p1: nat, p2: nat)
    requires ProtectedOver(rs1, v1, rs0, v0, lo, hi, p1) && ProtectedOver(rs2, v2, rs1, v1, lo, hi, p2)
    ensures ProtectedOver(rs2, v2, rs0, v0, lo, hi, p2)
  {
    hide At;
  }

  /** Memory given back the protection it had is as it was. */
  lemma {:induction false} ProtectAndBack(rs0: seq<Region>, bk0: Backing, v0: seq<Pte>, rs1: seq<Region>, v1: seq<Pte>,
                                          rs2: seq<Region>, v2: seq<Pte>, lo: int, hi: int, prot: nat, was: nat)
    requires SpaceInv(rs0, bk0, v0) && forall p :: lo <= p < hi && At(rs0, p).Some? ==> At(rs0, p).value.prot == was
    requires ProtectedOver(rs1, v1, rs0, v0, lo, hi, prot) && ProtectedOver(rs2, v2, rs1, v1, lo, hi, was)
    ensures SameView(rs2, rs0) && v2 == v0
  {
    hide At, Listed, HostsApart;
    LastProtectionCounts(rs0, v0, rs1, v1, rs2, v2, lo, hi, prot, was);
    forall p ensures At(rs2, p) == At(rs0, p) {
      if At(rs0, p).Some? { assert At(rs0, p).value.(prot := At(rs0, p).value.prot) == At(rs0, p).value; }
    }
    forall p | 0 <= p < PAGES ensures v2[p] == v0[p] { assert CoherentAt(rs0, v0, p); }
  }

  /** A mapping moved to free ground and back is where it was, holes and all. */
  lemma {:induction false} MoveAndBack(rs0: seq<Region>, bk0: Backing, v0: seq<Pte>, rs1: seq<Region>, v1: seq<Pte>,
                                       rs2: seq<Region>, v2: seq<Pte>, lo: nat, dst: nat, n: nat)
    requires SpaceInv(rs0, bk0, v0) && Remap.Disjoint(lo, dst, n) && AllFree(rs0, dst, dst + n)
    requires Remap.MovedOver(rs1, v1, rs0, v0, lo, dst, n) && Remap.MovedOver(rs2, v2, rs1, v1, dst, lo, n)
    ensures SameView(rs2, rs0) && v2 == v0
  {
    hide At, Listed, HostsApart;
    FreeAbsent(rs0, bk0, v0, dst, dst + n);
    forall p ensures At(rs2, p) == At(rs0, p) {
      if lo <= p < lo + n {
        assert At(rs1, p - lo + dst) == Remap.Shifted(At(rs0, p), dst - lo);
        if At(rs0, p).Some? {
          var r := At(rs0, p).value;
          assert r.(start := r.start, end := r.end) == r;
        }
      }
    }
  }

  /** Byte for byte, what was at `addr` is at `dst`: the same host byte, with the same
   rights, or nothing. */
  lemma {:induction false} MovedBytes(rs: seq<Region>, v: seq<Pte>, rs0: seq<Region>, v0: seq<Pte>, addr: nat, len: nat, dst: nat, k: nat)
    requires MapArgs(addr, len) && MapArgs(dst, len) && (addr + len <= dst || dst + len <= addr) && k < len
    requires Remap.MovedOver(rs, v, rs0, v0, addr / PAGE, dst / PAGE, len / PAGE)
    ensures v[(dst + k) / PAGE] == v0[(addr + k) / PAGE] && v[(addr + k) / PAGE].Absent? && At(rs, (addr + k) / PAGE).None?
    ensures At(rs, (dst + k) / PAGE).Some? <==> At(rs0, (addr + k) / PAGE).Some?
    ensures At(rs0, (addr + k) / PAGE).Some? ==> HostByte(rs, dst + k) == HostByte(rs0, addr + k)
  {
    hide At;
    InRange(addr, len, addr + k);
    InRange(dst, len, dst + k);
  }

  /** A second mapping of a shared object: byte `k` of it is the same byte of the
   file, there exactly if it is there in the first. */
  lemma {:induction false} DuplicatedBytes(rs: seq<Region>, v: seq<Pte>, rs0: seq<Region>, v0: seq<Pte>, src: Region, addr: nat, len: nat,
                                           dst: nat, host: int, id: nat, k: nat)
    requires Aligned(addr) && MapArgs(dst, len) && Covers(src, addr / PAGE) && k < len
    requires Remap.DuplicatedOver(rs, v, rs0, v0,
               Remap.CopyOf(src, addr / PAGE, dst / PAGE, len / PAGE).(host := host, hmap := id), addr / PAGE, src.end)
    ensures var s := At(rs, (dst + k) / PAGE);
            && s.Some? && s.value.prot == src.prot && s.value.attr == src.attr && s.value.file == src.file
            && s.value.hmap == id && s.value.host == host + k / PAGE
            && (src.file.Some? ==> s.value.fileOff == src.fileOff + ((addr + k) / PAGE - src.start))
    ensures var q := (addr + k) / PAGE;
            v[(dst + k) / PAGE].Present? <==> Covers(src, q) && q < PAGES && v0[q].Present?
    ensures v[(dst + k) / PAGE].Present? ==> v[(dst + k) / PAGE] == Present(host + k / PAGE, src.prot)
  {
    hide At;
    InRange(dst, len, dst + k);
    FilePage(addr, 0, addr + k);
  }

  // ------------------------------------------------------------ which calls are served

  /** The arguments of a map call pass exactly if they are whole pages of the 47-bit
   address space, and some. */
  lemma {:induction false} ArgumentsPass(addr: nat, len: nat)
    ensures RangeOk(addr, len) <==> addr + len <= 0x8000_0000_0000
    ensures MapArgs(addr, len) <==> addr % 4096 == 0 && len % 4096 == 0 && 0 < len && addr + len <= 0x8000_0000_0000
  {
  }

  /** mprotect of private memory asks the host nothing, and reaches its end. */
  lemma {:induction false} PrivateIsNotRefused(rs: seq<Region>, refuse: set<int>, lo: int, hi: int, upTo: int, ok: bool)
    requires StopsAt(rs, refuse, lo, hi, upTo, ok)
    requires forall p :: lo <= p < hi && At(rs, p).Some? ==> !At(rs, p).value.attr.shared
    ensures ok && upTo == hi
  {
    hide At, Bounded;
  }

  /** Of shared memory it asks where the range begins, and a refusal there ends it. */
  lemma {:induction false} SharedIsAsked(rs: seq<Region>, refuse: set<int>, lo: int, hi: int, upTo: int, ok: bool)
    requires StopsAt(rs, refuse, lo, hi, upTo, ok) && lo < hi && At(rs, lo).Some? && At(rs, lo).value.attr.shared && lo in refuse
    ensures !ok && upTo == lo
  {
    hide At, Bounded;
    assert Asked(rs, lo, lo);
  }

  /** The pages a mapping grows by go on where it ended: the file's next pages, which
   fault in as they are touched, or memory that is there at once. What it had keeps
   its place, its rights and its file pages. */
  lemma {:induction false} GrownPages(rs: seq<Region>, v: seq<Pte>, rs0: seq<Region>, bk0: Backing, v0: seq<Pte>, i: nat, r: Region,
                                      extra: nat, inPlace: bool, h: RemapGrow.GrowHost, p: nat)
    requires SpaceInv(rs0, bk0, v0) && i < |rs0| && rs0[i].start <= p < rs0[i].end + extra <= PAGES
    requires RemapGrow.GrowsAt(rs0, bk0, rs0[i].end, rs0[i].end + extra, inPlace, h)
    requires RemapGrow.GrownOver(rs, v, rs0, v0, rs0[i], r, extra)
    ensures var s, r0 := At(rs, p), rs0[i];
            && s.Some? && s.value.prot == r0.prot && s.value.attr == r0.attr && s.value.file == r0.file
            && (r0.file.Some? ==> s.value.fileOff == r0.fileOff + (p - r0.start))
    ensures p < rs0[i].end ==> (v[p].Present? <==> v0[p].Present?)
    ensures rs0[i].end <= p && rs0[i].file.Some? ==> v[p].Absent?
    ensures rs0[i].end <= p && rs0[i].file.None? && !rs0[i].attr.hostmap ==> v[p].Present? && v[p].prot == rs0[i].prot
  {
    hide At, Life, Slices, AllocsOk, HostsApart, RemapGrow.CanExtend;
    var j :| 0 <= j < |rs0| && rs0[j].end == rs0[i].end && (rs0[j].file.Some? ==> rs0[j].attr.hostmap);
    assert j == i;
    FreeAbsent(rs0, bk0, v0, rs0[i].end, rs0[i].end + extra);
  }
}
