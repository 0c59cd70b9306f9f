/**
 Guest memory lent to a host system call: a walk that turns a guest range into
 runs of host memory and pins the allocations behind them, the end of the loan,
 and the release of quarantined backing.
 */
module Lending {
  import opened Options
  import opened RegionList
  import opened Backing
  import opened PageTable
  import opened Space
  import opened AddressSpace

  /** An iovec and the allocation it pins. Addresses are in bytes. */
  datatype Run = Run(host: int, len: nat, id: nat)

  datatype Reason = All | Cut | Full

  /** The host bytes a list of runs names, in order. */
  function Bytes(runs: seq<Run>): seq<int> {
    if runs == [] then []
    else Bytes(runs[..|runs| - 1]) + seq(runs[|runs| - 1].len, k => runs[|runs| - 1].host + k)
  }

  /** The host byte behind a guest byte. */
  ghost function HostByte(rs: seq<Region>, a: nat): int
    requires At(rs, a / PAGE).Some?
  {
    At(rs, a / PAGE).value.host * PAGE + a % PAGE
  }

  /** PTE_R is bit 0 of a protection, PTE_W bit 1. */
  predicate Grants(prot: nat, write: bool) { if write then HasWrite(prot) else prot % 2 == 1 }

  /** May this byte be lent for reading, or writing? */
  predicate Lendable(v: seq<Pte>, a: nat, write: bool) {
    a < TASK_SIZE && |v| == PAGES && v[a / PAGE].Present? && Grants(v[a / PAGE].prot, write)
  }

  function PinCount(runs: seq<Run>, id: nat): nat {
    if runs == [] then 0 else PinCount(runs[..|runs| - 1], id) + if runs[|runs| - 1].id == id then 1 else 0
  }

  // ------------------------------------------------------------ what pins keep

  lemma {:induction false} PinSpace(rs: seq<Region>, bk: Backing, v: seq<Pte>, id: nat)
    requires SpaceInv(rs, bk, v) && id in bk.maps
    ensures SpaceInv(rs, Pin(bk, id), v)
  {
    hide At, RefCount, Life;
    PinLife(bk, rs, id);
    assert Within(Pin(bk, id), bk);
    ListedKept(rs, bk, rs, Pin(bk, id));
  }

  lemma {:induction false} UnpinSpace(rs: seq<Region>, bk: Backing, v: seq<Pte>, id: nat)
    requires SpaceInv(rs, bk, v) && id in bk.maps && bk.maps[id].pins > 0
    ensures SpaceInv(rs, Unpin(bk, id), v)
  {
    hide At, RefCount, Life;
    UnpinLife(bk, rs, id);
    assert Within(Unpin(bk, id), bk);
    ListedKept(rs, bk, rs, Unpin(bk, id));
  }

  /** An entry filled in for a page its file has grown into. */
  lemma {:induction false} FillSpace(rs: seq<Region>, bk: Backing, v: seq<Pte>, p: nat)
    requires SpaceInv(rs, bk, v) && p < PAGES && At(rs, p).Some?
    ensures SpaceInv(rs, bk, v[p := Present(At(rs, p).value.host, At(rs, p).value.prot)])
  {
    hide At, Listed;
    var v' := v[p := Present(At(rs, p).value.host, At(rs, p).value.prot)];
    forall q | 0 <= q < PAGES ensures CoherentAt(rs, v', q) { assert CoherentAt(rs, v, q); }
  }

  /** A live entry is its region's own backing. */
  lemma {:induction false} EntryIsBacking(rs: seq<Region>, bk: Backing, v: seq<Pte>, p: nat)
    requires SpaceInv(rs, bk, v) && p < PAGES && v[p].Present?
    ensures At(rs, p).Some? && v[p] == Present(At(rs, p).value.host, At(rs, p).value.prot)
    ensures At(rs, p).value.hmap in bk.maps
    ensures bk.maps[At(rs, p).value.hmap].base <= At(rs, p).value.host
            < bk.maps[At(rs, p).value.hmap].base + bk.maps[At(rs, p).value.hmap].len
  {
    hide At;
    assert CoherentAt(rs, v, p);
    HostInAlloc(rs, bk, p);
    assert RoomOk(bk.maps[At(rs, p).value.hmap]);
  }

  // ------------------------------------------------------------ the walk

  /** What a prefix of the walk has: `runs` after the first `n0` name exactly the
   host bytes behind guest bytes [va, va + done), each of them lendable. */
  ghost predicate Covered(rs: seq<Region>, v: seq<Pte>, runs: seq<Run>, n0: nat, va: nat, done: nat, write: bool) {
    && n0 <= |runs| && |Bytes(runs[n0..])| == done
    && forall k :: 0 <= k < done ==> Lent(rs, v, va + k, write, Bytes(runs[n0..])[k])
  }

  ghost predicate Lent(rs: seq<Region>, v: seq<Pte>, a: nat, write: bool, host: int) {
    Lendable(v, a, write) && At(rs, a / PAGE).Some? && host == HostByte(rs, a)
  }

  /** Every run lies inside the allocation it pins. */
  predicate RunsInside(bk: Backing, runs: seq<Run>) {
    forall i :: 0 <= i < |runs| ==>
      && runs[i].id in bk.maps && runs[i].len > 0
      && bk.maps[runs[i].id].base * PAGE <= runs[i].host
      && runs[i].host + runs[i].len <= (bk.maps[runs[i].id].base + bk.maps[runs[i].id].len) * PAGE
  }

  /** Pins, one for each new run, and nothing else. */
  ghost predicate PinsAdded(bk: Backing, bk0: Backing, runs: seq<Run>, n0: nat) {
    && n0 <= |runs| && bk == bk0.(maps := bk.maps) && bk.maps.Keys == bk0.maps.Keys
    && forall id :: id in bk0.maps ==> bk.maps[id] == bk0.maps[id].(pins := bk0.maps[id].pins + PinCount(runs[n0..], id))
  }

  /** A hole of a file mapping that its file has grown into. */
  ghost predicate FillsAt(rs: seq<Region>, p: nat, grown: set<nat>) {
    At(rs, p).Some? && At(rs, p).value.attr.hostmap && p in grown
  }

  /** May this byte be lent, once the holes that can be filled are? */
  ghost predicate CanLend(rs: seq<Region>, v: seq<Pte>, grown: set<nat>, a: nat, write: bool) {
    && a < TASK_SIZE && |v| == PAGES && (v[a / PAGE].Present? || FillsAt(rs, a / PAGE, grown))
    && At(rs, a / PAGE).Some? && Grants(At(rs, a / PAGE).value.prot, write)
  }

  /** Some such holes have been filled, and nothing else changed. */
  ghost predicate FilledIn(rs: seq<Region>, v0: seq<Pte>, v: seq<Pte>, grown: set<nat>) {
    |v0| == |v| == PAGES && forall p :: 0 <= p < PAGES ==> v[p] == v0[p] || (v0[p].Absent? && FillsAt(rs, p, grown))
  }

  lemma {:induction false} FillStep(rs: seq<Region>, bk: Backing, v0: seq<Pte>, v1: seq<Pte>, v2: seq<Pte>, p: nat, grown: set<nat>)
    requires FilledIn(rs, v0, v1, grown) && SpaceInv(rs, bk, v2) && p < PAGES && |v2| == PAGES
    requires forall q :: 0 <= q < PAGES && (q != p || v1[q].Present?) ==> v2[q] == v1[q]
    requires v2[p].Present? <==> v1[p].Present? || FillsAt(rs, p, grown)
    ensures FilledIn(rs, v0, v2, grown) && (v2[p].Present? <==> v0[p].Present? || FillsAt(rs, p, grown))
    ensures v2[p].Present? ==> At(rs, p).Some? && v2[p].prot == At(rs, p).value.prot
  {
    hide At, Listed, HostsApart, FillsAt;
    assert CoherentAt(rs, v2, p);
  }

  /** A page of the file, if the file has grown into it. */
  method Fill(sp: AddrSpace, p: nat, grown: set<nat>) returns (pte: Pte)
    requires sp.Valid() && p < PAGES
    modifies sp.pt.Repr
    ensures sp.Valid() && fresh(sp.pt.Repr - old(sp.pt.Repr)) && pte == sp.pt.view[p]
    ensures |old(sp.pt.view)| == |sp.pt.view| == PAGES
    ensures forall q :: 0 <= q < PAGES && (q != p || old(sp.pt.view)[q].Present?) ==> sp.pt.view[q] == old(sp.pt.view)[q]
    ensures pte.Present? <==>
              || old(sp.pt.view)[p].Present?
              || FillsAt(sp.regions, p, grown)
  {
    hide At, Listed, PageTable.Valid, SpaceInv;
    Shape(sp.regions, sp.bk, sp.pt.view);
    pte := sp.pt.Get(p);
    if pte.Absent? {
      var i := sp.Find(p);
      if i >= 0 && sp.regions[i].attr.hostmap && p in grown {
        FillSpace(sp.regions, sp.bk, sp.pt.view, p);
        pte := Present(sp.regions[i].host + (p - sp.regions[i].start), sp.regions[i].prot);
        sp.pt.PutOne(p, pte);
      }
    }
  }

  /** guest_lend. `tagged` is an address whose tag the system call refuses,
   `grown` are the pages past end-of-file that files have since grown into. */
  method Lend(sp: AddrSpace, va: nat, len: nat, write: bool, tagged: bool, grown: set<nat>, runs0: seq<Run>, cap: nat)
    returns (runs: seq<Run>, done: nat, why: Reason)
    requires sp.Valid() && RunsInside(sp.bk, runs0)
    modifies sp`bk, sp.pt.Repr
    ensures sp.Valid() && fresh(sp.pt.Repr - old(sp.pt.Repr))
    ensures |runs0| <= |runs| && runs[..|runs0|] == runs0 && (|runs| <= cap || runs == runs0)
    ensures done <= len && Covered(sp.regions, sp.pt.view, runs, |runs0|, va, done, write)
    ensures RunsInside(sp.bk, runs) && PinsAdded(sp.bk, old(sp.bk), runs, |runs0|)
    ensures why == All <==> done == len && !tagged
    ensures why == Cut <==> tagged || (done < len && !CanLend(sp.regions, old(sp.pt.view), grown, va + done, write))
    ensures FilledIn(sp.regions, old(sp.pt.view), sp.pt.view, grown)
    ensures why == Full ==> |runs| >= cap
  {
    hide At, Listed, PageTable.Valid, SpaceInv, PinsAdded, Covered, PinCount, RunsInside, FilledIn, FillsAt, HasWrite, Bytes, KeepsPages;
    NoneFilled(sp.regions, sp.bk, sp.pt.view, grown);
    runs, done, why := runs0, 0, All;
    NothingLent(sp.regions, sp.pt.view, sp.bk, runs0, va, write);
    if tagged { return runs0, 0, Cut; }
    while done < len
      invariant done <= len && sp.Valid() && fresh(sp.pt.Repr - old(sp.pt.Repr))
      invariant |runs0| <= |runs| && runs[..|runs0|] == runs0 && (|runs| <= cap || runs == runs0)
      invariant Covered(sp.regions, sp.pt.view, runs, |runs0|, va, done, write)
      invariant RunsInside(sp.bk, runs) && PinsAdded(sp.bk, old(sp.bk), runs, |runs0|)
      invariant FilledIn(sp.regions, old(sp.pt.view), sp.pt.view, grown) && |old(sp.pt.view)| == PAGES
    {
      var a := va + done;
      var chunk := PAGE - a % PAGE;
      if chunk > len - done { chunk := len - done; }
      if a >= TASK_SIZE { return runs, done, Cut; }
      ghost var v0 := sp.pt.view;
      var pte := Fill(sp, a / PAGE, grown);
      CoveredMore(sp.regions, v0, sp.pt.view, runs, |runs0|, va, done, write, a / PAGE);
      FillStep(sp.regions, sp.bk, old(sp.pt.view), v0, sp.pt.view, a / PAGE, grown);
      if pte.Absent? || !Grants(pte.prot, write) { return runs, done, Cut; }
      var full;
      runs, full := LendChunk(sp, va, done, chunk, write, runs, runs0, cap, old(sp.bk));
      if full { return runs, done, Full; }
      done := done + chunk;
    }
  }

  /** One page's part of the range: at the end of the last run if it continues it,
   else in a run of its own, with a pin, if there is one to be had. */
  method LendChunk(sp: AddrSpace, va: nat, done: nat, chunk: nat, write: bool, runs: seq<Run>, runs0: seq<Run>, cap: nat,
                   ghost bk0: Backing)
    returns (runs': seq<Run>, full: bool)
    requires sp.Valid() && Lendable(sp.pt.view, va + done, write) && 0 < chunk <= PAGE - (va + done) % PAGE
    requires |runs0| <= |runs| && runs[..|runs0|] == runs0 && (|runs| <= cap || runs == runs0)
    requires Covered(sp.regions, sp.pt.view, runs, |runs0|, va, done, write)
    requires RunsInside(sp.bk, runs) && PinsAdded(sp.bk, bk0, runs, |runs0|)
    modifies sp`bk
    ensures sp.Valid() && |runs0| <= |runs'| && runs'[..|runs0|] == runs0 && (|runs'| <= cap || runs' == runs0)
    ensures RunsInside(sp.bk, runs') && PinsAdded(sp.bk, bk0, runs', |runs0|)
    ensures full ==> runs' == runs && |runs| >= cap
    ensures !full ==> Covered(sp.regions, sp.pt.view, runs', |runs0|, va, done + chunk, write)
  {
    hide At, Listed, PageTable.Valid, SpaceInv, PinsAdded, Covered, PinCount, RunsInside, HasWrite, Bytes, KeepsPages;
    var a := va + done;
    Shape(sp.regions, sp.bk, sp.pt.view);
    EntryIsBacking(sp.regions, sp.bk, sp.pt.view, a / PAGE);
    var pte := sp.pt.Get(a / PAGE);
    var i := sp.Find(a / PAGE);
    var r, h := sp.regions[i], pte.host * PAGE + a % PAGE;
    var last := |runs| - 1;
    if |runs| > |runs0| && runs[last].id == r.hmap && runs[last].host + runs[last].len == h {
      ExtendRun(sp.regions, sp.bk, sp.pt.view, bk0, runs, |runs0|, va, done, write, chunk);
      runs' := runs[last := runs[last].(len := runs[last].len + chunk)];
    } else {
      if |runs| >= cap { return runs, true; }
      AppendRun(sp.regions, sp.bk, sp.pt.view, bk0, runs, |runs0|, va, done, write, chunk);
      PinSpace(sp.regions, sp.bk, sp.pt.view, r.hmap);
      sp.bk := Pin(sp.bk, r.hmap);
      runs' := runs + [Run(h, chunk, r.hmap)];
    }
    full := false;
  }

  lemma {:induction false} NoneFilled(rs: seq<Region>, bk: Backing, v: seq<Pte>, grown: set<nat>)
    requires SpaceInv(rs, bk, v)
    ensures FilledIn(rs, v, v, grown) && |v| == PAGES
  {
  }

  lemma {:induction false} NothingLent(rs: seq<Region>, v: seq<Pte>, bk: Backing, runs: seq<Run>, va: nat, write: bool)
    ensures Covered(rs, v, runs, |runs|, va, 0, write) && PinsAdded(bk, bk, runs, |runs|)
  {
    assert runs[|runs|..] == [];
  }

  lemma {:induction false} CoveredMore(rs: seq<Region>, v0: seq<Pte>, v: seq<Pte>, runs: seq<Run>, n0: nat, va: nat,
                                       done: nat, write: bool, p: nat)
    requires Covered(rs, v0, runs, n0, va, done, write) && |v0| == |v| == PAGES
    requires forall q :: 0 <= q < PAGES && (q != p || v0[q].Present?) ==> v[q] == v0[q]
    ensures Covered(rs, v, runs, n0, va, done, write)
  {
    hide At, Bytes;
  }

  /** The host bytes of guest bytes inside one page are consecutive. */
  lemma {:induction false} OnePage(rs: seq<Region>, v: seq<Pte>, a: nat, k: nat, write: bool)
    requires Lendable(v, a, write) && At(rs, a / PAGE).Some? && k < PAGE - a % PAGE
    ensures Lent(rs, v, a + k, write, HostByte(rs, a) + k)
  {
    hide At, HasWrite;
    InPage(a, k);
  }

  lemma {:induction false} InPage(a: nat, k: nat)
    requires k < PAGE - a % PAGE
    ensures (a + k) / PAGE == a / PAGE && (a + k) % PAGE == a % PAGE + k
    ensures a < TASK_SIZE ==> a + k < TASK_SIZE
  {
  }

  lemma {:induction false} MoreBytes(rs: seq<Region>, v: seq<Pte>, b: seq<int>, b': seq<int>, va: nat, write: bool, chunk: nat, h: int)
    requires forall k :: 0 <= k < |b| ==> Lent(rs, v, va + k, write, b[k])
    requires Lendable(v, va + |b|, write) && At(rs, (va + |b|) / PAGE).Some? && chunk <= PAGE - (va + |b|) % PAGE
    requires h == HostByte(rs, va + |b|) && b' == b + seq(chunk, k => h + k)
    ensures forall k :: 0 <= k < |b'| ==> Lent(rs, v, va + k, write, b'[k])
  {
    hide Lent, Lendable, At, HostByte;
    var a := va + |b|;
    forall k | 0 <= k < |b'|
      ensures Lent(rs, v, va + k, write, b'[k])
    {
      if k >= |b| {
        OnePage(rs, v, a, k - |b|, write);
      }
    }
  }

  lemma {:induction false} BytesStep(runs: seq<Run>, run: Run)
    ensures Bytes(runs + [run]) == Bytes(runs) + seq(run.len, k => run.host + k)
  {
    assert (runs + [run])[..|runs|] == runs;
  }

  lemma {:induction false} PinStep(runs: seq<Run>, run: Run, id: nat)
    ensures PinCount(runs + [run], id) == PinCount(runs, id) + if run.id == id then 1 else 0
  {
    assert (runs + [run])[..|runs|] == runs;
  }

  /** What the walk knows of the next byte it looks at. */
  ghost predicate NextByte(rs: seq<Region>, bk: Backing, v: seq<Pte>, a: nat, write: bool, chunk: nat, h: int, id: nat) {
    && Lendable(v, a, write) && At(rs, a / PAGE).Some? && 0 < chunk <= PAGE - a % PAGE
    && h == HostByte(rs, a) && id == At(rs, a / PAGE).value.hmap && id in bk.maps
    && bk.maps[id].base <= At(rs, a / PAGE).value.host < bk.maps[id].base + bk.maps[id].len
  }

  /** The chunk goes into a run of its own, with a pin. */
  lemma {:induction false} AppendRun(rs: seq<Region>, bk: Backing, v: seq<Pte>, bk0: Backing, runs: seq<Run>, n0: nat,
                                     va: nat, done: nat, write: bool, chunk: nat)
    requires Covered(rs, v, runs, n0, va, done, write) && RunsInside(bk, runs) && PinsAdded(bk, bk0, runs, n0)
    requires At(rs, (va + done) / PAGE).Some?
    requires NextByte(rs, bk, v, va + done, write, chunk, HostByte(rs, va + done), At(rs, (va + done) / PAGE).value.hmap)
    ensures var id := At(rs, (va + done) / PAGE).value.hmap;
            var runs' := runs + [Run(HostByte(rs, va + done), chunk, id)];
            && Covered(rs, v, runs', n0, va, done + chunk, write)
            && RunsInside(Pin(bk, id), runs') && PinsAdded(Pin(bk, id), bk0, runs', n0)
  {
    hide At, Bytes, PinCount;
    var id, h := At(rs, (va + done) / PAGE).value.hmap, HostByte(rs, va + done);
    var run := Run(h, chunk, id);
    assert (runs + [run])[n0..] == runs[n0..] + [run];
    BytesStep(runs[n0..], run);
    MoreBytes(rs, v, Bytes(runs[n0..]), Bytes(runs[n0..] + [run]), va, write, chunk, h);
    forall x ensures PinCount(runs[n0..] + [run], x) == PinCount(runs[n0..], x) + if id == x then 1 else 0 { PinStep(runs[n0..], run, x); }
  }

  /** The chunk continues the last run. */
  lemma {:induction false} ExtendRun(rs: seq<Region>, bk: Backing, v: seq<Pte>, bk0: Backing, runs: seq<Run>, n0: nat,
                                     va: nat, done: nat, write: bool, chunk: nat)
    requires Covered(rs, v, runs, n0, va, done, write) && RunsInside(bk, runs) && PinsAdded(bk, bk0, runs, n0) && n0 < |runs|
    requires At(rs, (va + done) / PAGE).Some? && runs[|runs| - 1].id == At(rs, (va + done) / PAGE).value.hmap
    requires runs[|runs| - 1].host + runs[|runs| - 1].len == HostByte(rs, va + done)
    requires NextByte(rs, bk, v, va + done, write, chunk, HostByte(rs, va + done), At(rs, (va + done) / PAGE).value.hmap)
    ensures var last := runs[|runs| - 1];
            var runs' := runs[|runs| - 1 := last.(len := last.len + chunk)];
            && Covered(rs, v, runs', n0, va, done + chunk, write)
            && RunsInside(bk, runs') && PinsAdded(bk, bk0, runs', n0)
  {
    hide At, Bytes, PinCount;
    var last, h := runs[|runs| - 1], HostByte(rs, va + done);
    var longer := last.(len := last.len + chunk);
    var front := runs[n0..|runs| - 1];
    assert runs[n0..] == front + [last];
    assert runs[|runs| - 1 := longer][n0..] == front + [longer];
    BytesStep(front, last);
    BytesStep(front, longer);
    assert seq(longer.len, k => longer.host + k) == seq(last.len, k => last.host + k) + seq(chunk, k => h + k);
    assert Bytes(front + [longer]) == Bytes(front + [last]) + seq(chunk, k => h + k);
    MoreBytes(rs, v, Bytes(front + [last]), Bytes(front + [longer]), va, write, chunk, h);
    forall x ensures PinCount(front + [longer], x) == PinCount(front + [last], x) { PinStep(front, last, x); PinStep(front, longer, x); }
  }

  // ------------------------------------------------------------ the end of a loan

  function Returned(pins: seq<Option<nat>>, id: nat): nat {
    if pins == [] then 0 else Returned(pins[..|pins| - 1], id) + if pins[|pins| - 1] == Some(id) then 1 else 0
  }

  /** Every pin handed back is one that is out. */
  ghost predicate Outstanding(bk: Backing, pins: seq<Option<nat>>) {
    forall id :: Returned(pins, id) > 0 ==> id in bk.maps && Returned(pins, id) <= bk.maps[id].pins
  }

  /** The loan of this allocation was the last thing that kept it. */
  predicate LastLoan(hm: HostMap, back: nat) { hm.refs == 0 && hm.pins == back }

  /** Each allocation got back its pins; those that nothing keeps any more went
   into the quarantine, and nothing else did. */
  ghost predicate PinsReturned(bk: Backing, bk0: Backing, pins: seq<Option<nat>>) {
    && bk.released == bk0.released && bk.next == bk0.next && bk.gen == bk0.gen
    && |bk0.retired| <= |bk.retired| && bk.retired[..|bk0.retired|] == bk0.retired
    && (forall id :: id in bk.maps ==> id in bk0.maps)
    && (forall id :: id in bk0.maps ==>
          if LastLoan(bk0.maps[id], Returned(pins, id)) then id !in bk.maps
          else id in bk.maps && bk.maps[id] == bk0.maps[id].(pins := bk0.maps[id].pins - Returned(pins, id)))
    && (forall k :: |bk0.retired| <= k < |bk.retired| ==>
          && bk.retired[k].id in bk0.maps && LastLoan(bk0.maps[bk.retired[k].id], Returned(pins, bk.retired[k].id))
          && bk.retired[k].base == bk0.maps[bk.retired[k].id].base && bk.retired[k].len == bk0.maps[bk.retired[k].id].len
          && bk.retired[k].gen == bk0.gen)
  }

  lemma {:induction false} ReturnedStep(pins: seq<Option<nat>>, i: nat, id: nat)
    requires i < |pins|
    ensures Returned(pins[..i + 1], id) == Returned(pins[..i], id) + if pins[i] == Some(id) then 1 else 0
  {
    assert pins[..i + 1][..i] == pins[..i];
  }

  lemma {:induction false} ReturnedGrows(pins: seq<Option<nat>>, i: nat, id: nat)
    requires i <= |pins|
    ensures Returned(pins[..i], id) <= Returned(pins, id)
    decreases |pins| - i
  {
    if i < |pins| {
      ReturnedStep(pins, i, id);
      ReturnedGrows(pins, i + 1, id);
    } else {
      assert pins[..i] == pins;
    }
  }

  /** One more pin handed back. */
  lemma {:induction false} UnpinOne(bk0: Backing, bk: Backing, rs: seq<Region>, pins: seq<Option<nat>>, i: nat)
    requires Life(bk0, rs) && Outstanding(bk0, pins) && i < |pins| && PinsReturned(bk, bk0, pins[..i])
    ensures pins[i].None? ==> PinsReturned(bk, bk0, pins[..i + 1])
    ensures pins[i].Some? ==> && pins[i].value in bk.maps && bk.maps[pins[i].value].pins > 0
                              && PinsReturned(Unpin(bk, pins[i].value), bk0, pins[..i + 1])
  {
    hide Returned, QuarantineOk, CountsOk, PinsReturned;
    forall id: nat ensures Returned(pins[..i + 1], id) == Returned(pins[..i], id) + if pins[i] == Some(id) then 1 else 0
    {
      ReturnedStep(pins, i, id);
    }
    if pins[i].None? {
      SameReturned(bk0, bk, pins[..i], pins[..i + 1]);
    } else {
      ReturnedGrows(pins, i + 1, pins[i].value);
      UnpinStep(bk0, bk, pins[..i], pins[..i + 1], pins[i].value);
    }
  }

  lemma {:induction false} SameReturned(bk0: Backing, bk: Backing, ps: seq<Option<nat>>, ps': seq<Option<nat>>)
    requires PinsReturned(bk, bk0, ps) && forall x :: Returned(ps', x) == Returned(ps, x)
    ensures PinsReturned(bk, bk0, ps')
  {
    hide Returned;
  }

  lemma {:induction false} UnpinStep(bk0: Backing, bk: Backing, ps: seq<Option<nat>>, ps': seq<Option<nat>>, id: nat)
    requires PinsReturned(bk, bk0, ps) && id in bk0.maps && Returned(ps', id) <= bk0.maps[id].pins
    requires forall x :: Returned(ps', x) == Returned(ps, x) + if x == id then 1 else 0
    ensures id in bk.maps && bk.maps[id].pins > 0
    ensures PinsReturned(Unpin(bk, id), bk0, ps')
  {
    hide Returned, Without;
  }

  /** guest_unlend, up to the drain */
  method ReturnPins(sp: AddrSpace, pins: seq<Option<nat>>)
    requires sp.Valid() && Outstanding(sp.bk, pins)
    modifies sp`bk
    ensures sp.Valid() && PinsReturned(sp.bk, old(sp.bk), pins)
  {
    hide At, Listed, PageTable.Valid, SpaceInv, PinsReturned, Outstanding, Life, Unpin, Returned;
    SpaceLife(sp.regions, sp.bk, sp.pt.view);
    NothingReturned(sp.bk, sp.regions);
    for i := 0 to |pins|
      invariant sp.Valid() && PinsReturned(sp.bk, old(sp.bk), pins[..i])
    {
      UnpinOne(old(sp.bk), sp.bk, sp.regions, pins, i);
      if pins[i].Some? {
        UnpinSpace(sp.regions, sp.bk, sp.pt.view, pins[i].value);
        sp.bk := Unpin(sp.bk, pins[i].value);
      }
    }
    assert pins[..|pins|] == pins;
  }

  lemma {:induction false} SpaceLife(rs: seq<Region>, bk: Backing, v: seq<Pte>)
    requires SpaceInv(rs, bk, v)
    ensures Life(bk, rs)
  {
  }

  lemma {:induction false} NothingReturned(bk: Backing, rs: seq<Region>)
    requires Life(bk, rs)
    ensures PinsReturned(bk, bk, [])
  {
  }

  // ------------------------------------------------------------ releasing the quarantine

  /** What a drain keeps: everything some thread may still reach. `safe` is the
   oldest generation a thread shows (None: no thread shows any). */
  function Kept(q: seq<Retired>, safe: Option<nat>): seq<Retired> {
    if q == [] then []
    else Kept(q[..|q| - 1], safe) + if safe.Some? && q[|q| - 1].gen >= safe.value then [q[|q| - 1]] else []
  }

  function Dropped(q: seq<Retired>, safe: Option<nat>): set<nat> {
    set k | 0 <= k < |q| && !(safe.Some? && q[k].gen >= safe.value) :: q[k].id
  }

  function Drained(bk: Backing, safe: Option<nat>): Backing {
    bk.(retired := Kept(bk.retired, safe), released := bk.released + Dropped(bk.retired, safe))
  }

  /** as_drain_retired: the queue is compacted in place. */
  method Drain(bk: Backing, safe: Option<nat>) returns (bk': Backing)
    ensures bk' == Drained(bk, safe)
  {
    var q, keep, released := bk.retired, 0, bk.released;
    var i := 0;
    while i < |bk.retired|
      invariant 0 <= keep <= i <= |bk.retired| == |q|
      invariant q[..keep] == Kept(bk.retired[..i], safe) && q[i..] == bk.retired[i..]
      invariant released == bk.released + Dropped(bk.retired[..i], safe)
    {
      ghost var q0 := q;
      assert bk.retired[..i + 1][..i] == bk.retired[..i];
      assert q[i] == q[i..][0] && bk.retired[i] == bk.retired[i..][0];
      DroppedStep(bk.retired, i, safe);
      if safe.None? || q[i].gen < safe.value {
        released := released + {q[i].id};
      } else {
        ghost var before := q[..keep];
        q := q[keep := q[i]];
        keep := keep + 1;
        assert q[..keep] == before + [bk.retired[i]];
      }
      assert q[i + 1..] == q0[i..][1..] == bk.retired[i..][1..] == bk.retired[i + 1..];
      i := i + 1;
    }
    assert bk.retired[..i] == bk.retired;
    bk' := bk.(retired := q[..keep], released := released);
  }

  lemma {:induction false} DroppedStep(q: seq<Retired>, i: nat, safe: Option<nat>)
    requires i < |q|
    ensures Dropped(q[..i + 1], safe)
            == Dropped(q[..i], safe) + if safe.Some? && q[i].gen >= safe.value then {} else {q[i].id}
  {
    var a, b := Dropped(q[..i + 1], safe), Dropped(q[..i], safe);
    forall x
      ensures x in a <==> x in b || (!(safe.Some? && q[i].gen >= safe.value) && x == q[i].id)
    {
      if x in b {
        var k :| 0 <= k < i && !(safe.Some? && q[..i][k].gen >= safe.value) && q[..i][k].id == x;
        assert q[..i + 1][k].id == x;
      }
      if !(safe.Some? && q[i].gen >= safe.value) && x == q[i].id {
        assert q[..i + 1][i].id == x;
      }
    }
  }

  lemma {:induction false} KeptIs(q: seq<Retired>, safe: Option<nat>)
    ensures |Kept(q, safe)| <= |q|
    ensures forall x :: x in Kept(q, safe) <==> x in q && safe.Some? && x.gen >= safe.value
  {
    if q != [] {
      var front := q[..|q| - 1];
      KeptIs(front, safe);
      assert q == front + [q[|q| - 1]];
    }
  }

  lemma {:induction false} KeptDistinct(q: seq<Retired>, safe: Option<nat>)
    requires forall i, j :: 0 <= i < j < |q| ==> q[i].id != q[j].id
    ensures var k := Kept(q, safe); forall i, j :: 0 <= i < j < |k| ==> k[i].id != k[j].id
  {
    if q != [] {
      var front := q[..|q| - 1];
      KeptDistinct(front, safe);
      KeptIs(front, safe);
      var k := Kept(front, safe);
      forall i | 0 <= i < |k| ensures k[i].id != q[|q| - 1].id {
        assert k[i] in front;
      }
    }
  }

  /** A drain releases exactly the entries older than `safe`, each once, none of
   them lent out or backing anything, and the lifecycle goes on. */
  lemma {:induction false} DrainLife(bk: Backing, rs: seq<Region>, safe: Option<nat>)
    requires Life(bk, rs)
    ensures Life(Drained(bk, safe), rs)
    ensures forall id :: id in Drained(bk, safe).released && id !in bk.released ==>
              id !in bk.maps && Quarantined(bk, id) && !Quarantined(Drained(bk, safe), id)
    ensures forall k :: 0 <= k < |bk.retired| ==>
              (bk.retired[k].id in Drained(bk, safe).released <==> safe.None? || bk.retired[k].gen < safe.value)
  {
    hide CountsOk, OrphansOk, QuarantineOk;
    DrainQuarantine(bk, safe);
    DrainedWhich(bk, safe);
    SameCountsAndOrphans(bk, Drained(bk, safe), rs);
  }

  lemma {:induction false} DrainedWhich(bk: Backing, safe: Option<nat>)
    requires QuarantineOk(bk) && QuarantineOk(Drained(bk, safe))
    ensures forall id :: id in Drained(bk, safe).released && id !in bk.released ==>
              id !in bk.maps && Quarantined(bk, id) && !Quarantined(Drained(bk, safe), id)
    ensures forall k :: 0 <= k < |bk.retired| ==>
              (bk.retired[k].id in Drained(bk, safe).released <==> safe.None? || bk.retired[k].gen < safe.value)
  {
    hide Kept;
  }

  lemma {:induction false} DrainQuarantine(bk: Backing, safe: Option<nat>)
    requires QuarantineOk(bk)
    ensures QuarantineOk(Drained(bk, safe))
  {
    hide Kept;
    var q, bk' := bk.retired, Drained(bk, safe);
    KeptIs(q, safe);
    KeptDistinct(q, safe);
    forall k | 0 <= k < |bk'.retired| ensures bk'.retired[k] in q && bk'.retired[k].id !in Dropped(q, safe) {
      assert bk'.retired[k] in Kept(q, safe);
    }
    DrainPlaces(bk, safe);
  }

  lemma {:induction false} SameCountsAndOrphans(bk: Backing, bk': Backing, rs: seq<Region>)
    requires OrphansOk(bk) && CountsOk(bk, rs) && bk'.maps == bk.maps && bk'.orphans == bk.orphans
    ensures OrphansOk(bk') && CountsOk(bk', rs)
  {
  }

  lemma {:induction false} DrainPlaces(bk: Backing, safe: Option<nat>)
    requires QuarantineOk(bk)
    ensures var bk' := Drained(bk, safe);
            forall id :: 0 <= id < bk'.next ==> id in bk'.maps || id in bk'.released || Quarantined(bk', id)
  {
    var bk', q := Drained(bk, safe), bk.retired;
    forall id | 0 <= id < bk'.next
      ensures id in bk'.maps || id in bk'.released || Quarantined(bk', id)
    {
      if id !in bk.maps && id !in bk.released {
        var k :| 0 <= k < |q| && q[k].id == id;
        if safe.Some? && q[k].gen >= safe.value {
          KeptIs(q, safe);
          assert q[k] in bk'.retired;
        }
      }
    }
  }

  /** What an operation, or a returned loan, retired is safe from a drain as long as
   some thread shows a generation no later than the one the operation began in: of
   the allocations in use then, none is released. */
  lemma {:induction false} DrainSpares(bk: Backing, bk0: Backing, rs: seq<Region>, rs0: seq<Region>, safe: nat)
    requires Life(bk, rs) && Life(bk0, rs0) && Retires(bk, bk0) && safe <= bk0.gen
    ensures forall k :: |bk0.retired| <= k < |bk.retired| ==>
              bk.retired[k] in Drained(bk, Some(safe)).retired && bk.retired[k].id !in Drained(bk, Some(safe)).released
    ensures forall id :: id in bk0.maps ==> id !in Drained(bk, Some(safe)).released
  {
    hide Kept, Dropped, CountsOk, OrphansOk;
    DrainLife(bk, rs, Some(safe));
    KeptIs(bk.retired, Some(safe));
    forall k | |bk0.retired| <= k < |bk.retired| ensures bk.retired[k] in Drained(bk, Some(safe)).retired {
      assert Leaves(bk.retired[k], bk0);
    }
    forall k | 0 <= k < |bk0.retired| ensures bk.retired[k].id !in bk0.maps {
      assert bk.retired[k] == bk.retired[..|bk0.retired|][k];
    }
    forall id | id in bk0.maps ensures id !in Drained(bk, Some(safe)).released {
      assert id !in bk.released;
      if Quarantined(bk, id) {
        var k :| 0 <= k < |bk.retired| && bk.retired[k].id == id;
      }
    }
  }

  lemma {:induction false} ReturnedRetires(bk: Backing, bk0: Backing, pins: seq<Option<nat>>)
    requires PinsReturned(bk, bk0, pins)
    ensures Retires(bk, bk0)
  {
    hide Returned;
  }

  /** guest_unlend. `alone`: one guest thread, whose own table the bump emptied. */
  method Unlend(sp: AddrSpace, pins: seq<Option<nat>>, alone: bool, safe: nat)
    requires sp.Valid() && Outstanding(sp.bk, pins)
    modifies sp`bk
    ensures sp.Valid()
    ensures pins == [] ==> sp.bk == old(sp.bk)
    ensures pins != [] ==> exists bk1 :: PinsReturned(bk1, old(sp.bk), pins)
                                         && sp.bk == Drained(bk1, if alone then None else Some(safe))
  {
    hide At, Listed, PageTable.Valid, SpaceInv, PinsReturned, Drained, Outstanding;
    if |pins| == 0 { return; }
    ReturnPins(sp, pins);
    ghost var bk1 := sp.bk;
    sp.bk := Drain(sp.bk, if alone then None else Some(safe));
    DrainSpace(sp.regions, bk1, sp.pt.view, if alone then None else Some(safe));
  }

  lemma {:induction false} DrainSpace(rs: seq<Region>, bk: Backing, v: seq<Pte>, safe: Option<nat>)
    requires SpaceInv(rs, bk, v)
    ensures SpaceInv(rs, Drained(bk, safe), v)
  {
    hide At, RefCount, Life;
    SpaceLife(rs, bk, v);
    DrainLife(bk, rs, safe);
    assert Within(Drained(bk, safe), bk);
    ListedKept(rs, bk, rs, Drained(bk, safe));
  }

  // ------------------------------------------------------------ loans are returned whole

  function PinsOf(runs: seq<Run>): seq<Option<nat>> { seq(|runs|, i requires 0 <= i < |runs| => Some(runs[i].id)) }

  lemma {:induction false} PinsOfCount(runs: seq<Run>, id: nat)
    ensures Returned(PinsOf(runs), id) == PinCount(runs, id)
  {
    if runs != [] {
      var front := runs[..|runs| - 1];
      PinsOfCount(front, id);
      assert PinsOf(runs)[..|runs| - 1] == PinsOf(front);
    }
  }

  /** Handing back exactly the pins a loan took leaves every count as it was. */
  lemma {:induction false} LoanRoundTrip(bk0: Backing, bk1: Backing, bk2: Backing, rs: seq<Region>, runs: seq<Run>)
    requires Life(bk0, rs) && PinsAdded(bk1, bk0, runs, 0) && RunsInside(bk0, runs)
    requires PinsReturned(bk2, bk1, PinsOf(runs))
    ensures Outstanding(bk1, PinsOf(runs))
    ensures bk2.maps == bk0.maps && bk2.retired == bk0.retired
  {
    hide Returned, PinCount, CountsOk, QuarantineOk;
    assert runs[0..] == runs;
    forall id: nat
      ensures Returned(PinsOf(runs), id) == PinCount(runs, id)
      ensures PinCount(runs, id) > 0 ==> id in bk0.maps
    {
      PinsOfCount(runs, id);
      if PinCount(runs, id) > 0 { var k := PinnedRun(runs, id); }
    }
    assert forall id :: id in bk1.maps ==> !LastLoan(bk1.maps[id], Returned(PinsOf(runs), id));
    if |bk2.retired| > |bk0.retired| {
      NewlyRetired(bk2, bk1, PinsOf(runs));
      assert false;
    }
  }

  lemma {:induction false} NewlyRetired(bk: Backing, bk0: Backing, ps: seq<Option<nat>>)
    requires PinsReturned(bk, bk0, ps) && |bk.retired| > |bk0.retired|
    ensures exists id :: id in bk0.maps && LastLoan(bk0.maps[id], Returned(ps, id))
  {
    var id := bk.retired[|bk0.retired|].id;
  }

  lemma {:induction false} PinnedRun(runs: seq<Run>, id: nat) returns (k: nat)
    requires PinCount(runs, id) > 0
    ensures k < |runs| && runs[k].id == id
  {
    k := |runs| - 1;
    if runs[k].id != id {
      k := PinnedRun(runs[..k], id);
    }
  }
}
