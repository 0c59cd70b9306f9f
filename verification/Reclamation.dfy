/**
 The epoch protocol that decides when retired host backing may be unmapped, and
 the per-thread data TLBs it protects.

 The machine is a step relation over threads. Every atomic load, store,
 compare-exchange and fetch-add of the C code is one step, steps interleave
 arbitrarily, and memory is sequentially consistent. What runs under the
 address-space lock is a sequence of steps of the lock's owner, so lock-free
 readers of the other threads run in between.
 */
module Reclamation {
  import opened Options

  type Tid = nat

  const DTLB_SIZE: nat := 1024

  datatype Perm = Read | Write | Exec

  /** A page-table entry: a page of a host allocation and what it grants. */
  datatype Pte = Pte(alloc: nat, off: nat, prot: set<Perm>)
  datatype Entry = Entry(page: nat, pte: Pte)

  /** One published epoch. `tid` 0 is a free slot. */
  datatype Slot = Slot(tid: nat, blocked: bool, gen: nat)

  /** Where a thread goes once a publication, or a locked section, is over. */
  datatype Then = ToIdle | ToProbe(page: nat) | ToWalk(page: nat) | ToBlock

  datatype Pc =
    | Idle
    | Flush(gen: nat, page: nat)
    | Probe(page: nat)
    | Walk(page: nat)
    | Fill
    | Publish(gen: nat, k: Then)
    | ClaimLoad(gen: nat, k: Then)
    | ClaimTry(gen: nat, k: Then, i: int, seen: int)
    | ClaimAdd(gen: nat, k: Then)
    | ClaimCas(gen: nat, k: Then, i: int)
    | ClaimUndo(gen: nat, k: Then)
    | ClaimOver(gen: nat, k: Then)
    | Claimed(gen: nat, k: Then)
    | ServiceLoad
    | ServiceFlush(gen: nat)
    | SetBlocked
    | Creating
    | ExitBlocked
    | ExitGen
    | ExitTid
    | ExitCount
    | Locked(k: Then)

  /**
   `tlb` is the direct-mapped table, `fill` a translation read from the page
   table and not stored yet, `ptr` what the last translation returned. `kept` is
   what an earlier one did, put aside while the thread translates again (the first
   end of a memory copy, the first word of a futex); `keeping` remembers that it
   was taken outside a system call and the thread has not flushed on a new
   generation since. `fetch` is the fetch cache, a translation instructions are
   read through with no check of any kind; `guarded` remembers that since it was
   filled the thread has neither flushed on a new generation nor entered a system
   call. `blk` holds while the thread is inside generated code, which probes `tlb`
   with no generation check; `synced` is false between the moment a safepoint
   clears `interrupt` (or the thread registers) and the moment its data TLB is
   brought up to date.
   */
  datatype Thread = Thread(
    pc: Pc, slot: int, overSelf: bool, dgen: nat, tlb: map<nat, Entry>,
    fill: Option<Entry>, ptr: Option<Entry>, kept: Option<Entry>, keeping: bool,
    fetch: Option<Entry>, guarded: bool,
    jit: bool, synced: bool, interrupt: bool, blk: bool)

  /** The newest generation everybody has emptied past: a number, or no bound. */
  datatype Epoch = Gen(g: nat) | Unbounded

  datatype Drain =
    | NoDrain
    | LoadThreads
    | LoadOver
    | LoadHi
    | ScanTid(i: int, hi: int, safe: Epoch)
    | ScanBlocked(i: int, hi: int, safe: Epoch)
    | ScanGen(i: int, hi: int, safe: Epoch)
    | Releasing(safe: Epoch)

  /**
   `retiredAt` remembers the generation every allocation was ever retired at;
   the quarantine is what of it is not in `freed`. `dirty` are the pages whose
   entry changed since the last bump in a way a cached copy must not survive,
   `stale` those that only lost rights since then: guest_protect, refused by the
   host part-way, leaves such a change unannounced. `pending` are the registered JIT threads the bump under way has yet to interrupt.
   */
  datatype Shared = Shared(
    cap: nat, asgen: nat, pt: map<nat, Pte>, dirty: set<nat>, stale: set<nat>, pending: set<Tid>,
    lock: Option<Tid>, pub: seq<Slot>, hi: int, over: int, nthreads: int,
    retiredAt: map<nat, nat>, freed: set<nat>, drain: Drain)

  datatype State = State(sh: Shared, th: map<Tid, Thread>)

  const Fresh := Thread(Idle, -1, false, 0, map[], None, None, None, false, None, false, false, false, false, false)

  function Continue(k: Then): Pc {
    match k
    case ToIdle => Idle
    case ToProbe(p) => Probe(p)
    case ToWalk(p) => Walk(p)
    case ToBlock => SetBlocked
  }

  /** A change of one entry that leaves every cached copy of it true: a page
   that was absent, or the same host page with no right taken away. */
  predicate Extends(sh: Shared, page: nat, val: Option<Pte>) {
    page !in sh.pt ||
    (val.Some? && val.value.alloc == sh.pt[page].alloc && val.value.off == sh.pt[page].off
     && sh.pt[page].prot <= val.value.prot)
  }

  /** ...the same host page, with a right taken away. */
  predicate Narrows(sh: Shared, page: nat, val: Option<Pte>) {
    val.Some? && SamePage(sh, page, val.value) && !Extends(sh, page, val)
  }

  /** The same host page, whatever the rights. */
  predicate SamePage(sh: Shared, page: nat, pte: Pte) {
    page in sh.pt && pte.alloc == sh.pt[page].alloc && pte.off == sh.pt[page].off
  }

  function MinEpoch(e: Epoch, g: nat): Epoch {
    if e.Gen? && e.g <= g then e else Gen(g)
  }

  predicate Below(g: nat, e: Epoch) { e.Unbounded? || g < e.g }

  function JitThreads(th: map<Tid, Thread>): set<Tid> { set u | u in th && th[u].jit }

  /** No entry names retired backing, every change is published. */
  predicate Published(sh: Shared) {
    && sh.dirty == {} && sh.pending == {}
    && forall p :: p in sh.pt ==> sh.pt[p].alloc !in sh.retiredAt
  }

  function At(s: State, t: Tid, me: Thread): State { s.(th := s.th[t := me]) }
  function Both(s: State, t: Tid, me: Thread, sh: Shared): State { State(sh, s.th[t := me]) }
  function SetSlot(sh: Shared, i: int, x: Slot): Shared
    requires 0 <= i < |sh.pub|
  {
    sh.(pub := sh.pub[i := x])
  }
  predicate IsAt(s: State, t: Tid, me: Thread, pc: Pc) { t in s.th && s.th[t] == me && me.pc == pc }

  // ------------------------------------------------------- translate()

  predicate LoadGen(s: State, s': State, t: Tid, me: Thread, page: nat) {
    && IsAt(s, t, me, Idle)
    && s' == At(s, t, if s.sh.asgen == me.dgen
                      then me.(ptr := None, synced := true, pc := Probe(page))
                      else me.(ptr := None, pc := Flush(s.sh.asgen, page)))
  }

  predicate DoFlush(s: State, s': State, t: Tid, me: Thread, gen: nat, page: nat) {
    && IsAt(s, t, me, Flush(gen, page))
    && s' == At(s, t, me.(tlb := map[], dgen := gen, keeping := false, guarded := false, synced := true,
                          pc := Publish(gen, ToProbe(page))))
  }

  predicate ProbeHit(s: State, s': State, t: Tid, me: Thread, page: nat) {
    var i := page % DTLB_SIZE;
    && IsAt(s, t, me, Probe(page))
    && i in me.tlb && me.tlb[i].page == page
    && s' == At(s, t, me.(ptr := Some(me.tlb[i]), pc := Idle))
  }

  predicate ProbeMiss(s: State, s': State, t: Tid, me: Thread, page: nat) {
    var i := page % DTLB_SIZE;
    && IsAt(s, t, me, Probe(page))
    && !(i in me.tlb && me.tlb[i].page == page)
    && s' == At(s, t, me.(pc := Walk(page)))
  }

  /** A hit that lacks the write bit: as_write_heal looks at the region. */
  predicate ProbeHeal(s: State, s': State, t: Tid, me: Thread, page: nat) {
    var i := page % DTLB_SIZE;
    && IsAt(s, t, me, Probe(page))
    && i in me.tlb && me.tlb[i].page == page && Write !in me.tlb[i].pte.prot
    && s' == At(s, t, me.(pc := Walk(page)))
  }

  predicate WalkRead(s: State, s': State, t: Tid, me: Thread, page: nat) {
    && IsAt(s, t, me, Walk(page)) && s.sh.lock.None? && page in s.sh.pt
    && s' == At(s, t, me.(fill := Some(Entry(page, s.sh.pt[page])), pc := Fill))
  }

  predicate WalkFault(s: State, s': State, t: Tid, me: Thread, page: nat) {
    IsAt(s, t, me, Walk(page)) && s' == At(s, t, me.(pc := Idle))
  }

  predicate FillStore(s: State, s': State, t: Tid, me: Thread) {
    && IsAt(s, t, me, Fill) && me.fill.Some?
    && var e := me.fill.value;
       s' == At(s, t, me.(tlb := me.tlb[e.page % DTLB_SIZE := e], ptr := Some(e), fill := None, pc := Idle))
  }

  /** ...and so may an entry just read lack it. */
  predicate FillHeal(s: State, s': State, t: Tid, me: Thread) {
    && IsAt(s, t, me, Fill) && me.fill.Some? && Write !in me.fill.value.pte.prot
    && var e := me.fill.value;
       s' == At(s, t, me.(tlb := me.tlb[e.page % DTLB_SIZE := e], fill := None, pc := Walk(e.page)))
  }

  predicate DropPtr(s: State, s': State, t: Tid, me: Thread) {
    IsAt(s, t, me, Idle) && s' == At(s, t, me.(ptr := None, kept := None))
  }

  /** mops_copy_step() has one end and goes on to translate the other. */
  predicate KeepEnd(s: State, s': State, t: Tid, me: Thread) {
    && IsAt(s, t, me, Idle) && me.ptr.Some?
    && s' == At(s, t, me.(ptr := None, kept := me.ptr, keeping := Unblocked(s.sh, me)))
  }

  /** It has both: the bytes move, with no look at anything else. */
  predicate CopyEnds(s: State, s': State, t: Tid, me: Thread) {
    && IsAt(s, t, me, Idle) && me.ptr.Some? && me.kept.Some?
    && s' == At(s, t, me.(ptr := None, kept := None))
  }

  /** tlb_flush_all(), by the thread itself between accesses or under the lock. */
  predicate FlushSelf(s: State, s': State, t: Tid, me: Thread) {
    && t in s.th && me == s.th[t] && (me.pc.Idle? || me.pc.Locked?)
    && s' == At(s, t, me.(dgen := 0, fetch := None))
  }

  /** mem_ifetch_slow() keeps the translation it was given. */
  predicate FetchFill(s: State, s': State, t: Tid, me: Thread) {
    && IsAt(s, t, me, Idle) && !me.blk && Unblocked(s.sh, me)
    && me.ptr.Some? && Exec in me.ptr.value.pte.prot
    && s' == At(s, t, me.(fetch := me.ptr, guarded := true))
  }

  /** mem_ifetch() on a page it has: the word is read, nothing else is looked at. */
  predicate FetchHit(s: State, s': State, t: Tid, me: Thread) {
    IsAt(s, t, me, Idle) && !me.blk && Unblocked(s.sh, me) && me.fetch.Some? && s' == s
  }

  // ------------------------------------------------------- dtlb_publish(), dtlb_claim_slot()

  predicate PublishStore(s: State, s': State, t: Tid, me: Thread, gen: nat, k: Then) {
    && IsAt(s, t, me, Publish(gen, k)) && 0 <= me.slot < |s.sh.pub|
    && s' == Both(s, t, me.(pc := Continue(k)), SetSlot(s.sh, me.slot, s.sh.pub[me.slot].(gen := gen)))
  }

  predicate ClaimStart(s: State, s': State, t: Tid, me: Thread, gen: nat, k: Then) {
    && IsAt(s, t, me, Publish(gen, k)) && me.slot < 0
    && s' == At(s, t, me.(pc := ClaimLoad(gen, k)))
  }

  predicate ClaimLoadHi(s: State, s': State, t: Tid, me: Thread, gen: nat, k: Then) {
    && IsAt(s, t, me, ClaimLoad(gen, k))
    && s' == At(s, t, me.(pc := ClaimTry(gen, k, 0, if s.sh.hi > s.sh.cap then s.sh.cap else s.sh.hi)))
  }

  /** One compare-exchange of the reuse scan, or the scan's end. */
  predicate ClaimTrySlot(s: State, s': State, t: Tid, me: Thread, gen: nat, k: Then, i: int, seen: int) {
    && IsAt(s, t, me, ClaimTry(gen, k, i, seen)) && 0 <= i
    && (i < seen ==> i < |s.sh.pub|)
    && s' == (if i >= seen then
                At(s, t, me.(pc := if seen >= s.sh.cap then ClaimOver(gen, k) else ClaimAdd(gen, k)))
              else if s.sh.pub[i].tid == 0 then
                Both(s, t, me.(slot := i, pc := Claimed(gen, k)), SetSlot(s.sh, i, s.sh.pub[i].(tid := t)))
              else
                At(s, t, me.(pc := ClaimTry(gen, k, i + 1, seen))))
  }

  predicate ClaimFetchAdd(s: State, s': State, t: Tid, me: Thread, gen: nat, k: Then) {
    && IsAt(s, t, me, ClaimAdd(gen, k))
    && s' == Both(s, t, me.(pc := if s.sh.hi >= s.sh.cap then ClaimUndo(gen, k) else ClaimCas(gen, k, s.sh.hi)),
                  s.sh.(hi := s.sh.hi + 1))
  }

  predicate ClaimCasNew(s: State, s': State, t: Tid, me: Thread, gen: nat, k: Then, i: int) {
    && IsAt(s, t, me, ClaimCas(gen, k, i)) && 0 <= i < |s.sh.pub|
    && s' == (if s.sh.pub[i].tid == 0 then
                Both(s, t, me.(slot := i, pc := Claimed(gen, k)), SetSlot(s.sh, i, s.sh.pub[i].(tid := t)))
              else At(s, t, me.(pc := ClaimLoad(gen, k))))
  }

  predicate ClaimUndoAdd(s: State, s': State, t: Tid, me: Thread, gen: nat, k: Then) {
    && IsAt(s, t, me, ClaimUndo(gen, k))
    && s' == Both(s, t, me.(pc := ClaimOver(gen, k)), s.sh.(hi := s.sh.hi - 1))
  }

  predicate ClaimGiveUp(s: State, s': State, t: Tid, me: Thread, gen: nat, k: Then) {
    && IsAt(s, t, me, ClaimOver(gen, k))
    && s' == Both(s, t, me.(overSelf := true, pc := Continue(k)),
                  if me.overSelf then s.sh else s.sh.(over := s.sh.over + 1))
  }

  predicate ClaimFinish(s: State, s': State, t: Tid, me: Thread, gen: nat, k: Then) {
    && IsAt(s, t, me, Claimed(gen, k))
    && s' == Both(s, t, me.(overSelf := false, pc := Publish(gen, k)),
                  if me.overSelf then s.sh.(over := s.sh.over - 1) else s.sh)
  }

  // ------------------------------------------------------- generated code and its safepoints

  predicate JitRegister(s: State, s': State, t: Tid, me: Thread) {
    && IsAt(s, t, me, Idle) && !me.jit && s.sh.lock.None?
    && s' == At(s, t, me.(jit := true, synced := false, interrupt := false))
  }

  predicate JitDeregister(s: State, s': State, t: Tid, me: Thread) {
    && IsAt(s, t, me, Idle) && me.jit && !me.blk && s.sh.lock.None?
    && s' == At(s, t, me.(jit := false))
  }

  predicate BlockEnter(s: State, s': State, t: Tid, me: Thread) {
    && IsAt(s, t, me, Idle) && me.jit && me.synced && !me.interrupt
    && s' == At(s, t, me.(blk := true))
  }

  predicate BlockLeave(s: State, s': State, t: Tid, me: Thread) {
    IsAt(s, t, me, Idle) && s' == At(s, t, me.(blk := false, ptr := None, kept := None))
  }

  /** jit_service_interrupt() lowers the flag before anything else. */
  predicate ServiceBegin(s: State, s': State, t: Tid, me: Thread) {
    && IsAt(s, t, me, Idle) && !me.blk && me.interrupt
    && s' == At(s, t, me.(interrupt := false, synced := false, ptr := None, kept := None, pc := ServiceLoad))
  }

  /** jit_dtlb_reset() loads the generation: at a safepoint, or on its own. */
  predicate ServiceLoadGen(s: State, s': State, t: Tid, me: Thread) {
    && t in s.th && me == s.th[t] && (me.pc.ServiceLoad? || (me.pc.Idle? && !me.blk))
    && s' == At(s, t, me.(ptr := None, kept := None, pc := ServiceFlush(s.sh.asgen)))
  }

  predicate ServiceEmpty(s: State, s': State, t: Tid, me: Thread, gen: nat) {
    && IsAt(s, t, me, ServiceFlush(gen))
    && s' == At(s, t, me.(tlb := map[], dgen := gen, fetch := None, synced := true, pc := Publish(gen, ToIdle)))
  }

  // ------------------------------------------------------- as_tlb_block_begin(), as_tlb_block_end()

  predicate ParkBegin(s: State, s': State, t: Tid, me: Thread) {
    && IsAt(s, t, me, Idle) && !me.blk
    && s' == At(s, t, me.(ptr := None, kept := None, guarded := false,
                          pc := if me.slot < 0 then Publish(me.dgen, ToBlock) else SetBlocked))
  }

  predicate ParkFlag(s: State, s': State, t: Tid, me: Thread) {
    && IsAt(s, t, me, SetBlocked) && me.slot < |s.sh.pub|
    && s' == Both(s, t, me.(pc := Idle),
                  if me.slot < 0 then s.sh else SetSlot(s.sh, me.slot, s.sh.pub[me.slot].(blocked := true)))
  }

  predicate ParkEnd(s: State, s': State, t: Tid, me: Thread) {
    && IsAt(s, t, me, Idle) && !me.blk && me.slot < |s.sh.pub|
    && s' == Both(s, t, me.(ptr := None, kept := None),
                  if me.slot < 0 then s.sh else SetSlot(s.sh, me.slot, s.sh.pub[me.slot].(blocked := false)))
  }

  // ------------------------------------------------------- threads entering and leaving

  predicate CreateCount(s: State, s': State, t: Tid, me: Thread) {
    && IsAt(s, t, me, Idle)
    && s' == Both(s, t, me.(pc := Creating), s.sh.(nthreads := s.sh.nthreads + 1))
  }

  predicate CreateSpawn(s: State, s': State, t: Tid, me: Thread, child: Tid) {
    && IsAt(s, t, me, Creating) && child !in s.th && child != 0
    && s' == State(s.sh, s.th[t := me.(pc := Idle)][child := Fresh])
  }

  predicate CreateUndo(s: State, s': State, t: Tid, me: Thread) {
    && IsAt(s, t, me, Creating)
    && s' == Both(s, t, me.(pc := Idle), s.sh.(nthreads := s.sh.nthreads - 1))
  }

  /** dtlb_unpublish() starts; the thread makes no access of its own after it. */
  predicate ExitBegin(s: State, s': State, t: Tid, me: Thread) {
    && IsAt(s, t, me, Idle) && !me.blk && !me.jit
    && s' == Both(s, t, me.(overSelf := false, dgen := 0, tlb := map[], ptr := None, kept := None, fetch := None,
                            pc := if me.slot < 0 then ExitCount else ExitBlocked),
                  if me.overSelf then s.sh.(over := s.sh.over - 1) else s.sh)
  }

  predicate ExitClearBlocked(s: State, s': State, t: Tid, me: Thread) {
    && IsAt(s, t, me, ExitBlocked) && 0 <= me.slot < |s.sh.pub|
    && s' == Both(s, t, me.(pc := ExitGen), SetSlot(s.sh, me.slot, s.sh.pub[me.slot].(blocked := false)))
  }

  predicate ExitClearGen(s: State, s': State, t: Tid, me: Thread) {
    && IsAt(s, t, me, ExitGen) && 0 <= me.slot < |s.sh.pub|
    && s' == Both(s, t, me.(pc := ExitTid), SetSlot(s.sh, me.slot, s.sh.pub[me.slot].(gen := 0)))
  }

  predicate ExitClearTid(s: State, s': State, t: Tid, me: Thread) {
    && IsAt(s, t, me, ExitTid) && 0 <= me.slot < |s.sh.pub|
    && s' == Both(s, t, me.(slot := -1, pc := ExitCount), SetSlot(s.sh, me.slot, s.sh.pub[me.slot].(tid := 0)))
  }

  predicate ExitDone(s: State, s': State, t: Tid, me: Thread) {
    && IsAt(s, t, me, ExitCount)
    && s' == State(s.sh.(nthreads := s.sh.nthreads - 1), s.th - {t})
  }

  // ------------------------------------------------------- under the address-space lock

  predicate Owns(s: State, t: Tid) {
    t in s.th && s.th[t].pc.Locked? && s.sh.lock == Some(t)
  }

  /** Inside a mutation, with no notification loop and no drain under way. */
  predicate Mutating(s: State, t: Tid) {
    Owns(s, t) && s.sh.drain.NoDrain? && s.sh.pending == {}
  }

  predicate LockForSyscall(s: State, s': State, t: Tid, me: Thread) {
    && IsAt(s, t, me, Idle) && !me.blk && s.sh.lock.None?
    && s' == Both(s, t, me.(ptr := None, kept := None, guarded := false, pc := Locked(ToIdle)), s.sh.(lock := Some(t)))
  }

  /** A missing page: as_fault_fill, as_stack_grow and as_write_heal take the lock. */
  predicate LockForWalk(s: State, s': State, t: Tid, me: Thread, page: nat) {
    && IsAt(s, t, me, Walk(page)) && s.sh.lock.None?
    && s' == Both(s, t, me.(pc := Locked(ToWalk(page))), s.sh.(lock := Some(t)))
  }

  function SetEntry(sh: Shared, page: nat, val: Option<Pte>): Shared {
    sh.(pt := if val.Some? then sh.pt[page := val.value] else sh.pt - {page},
        dirty := if Extends(sh, page, val) || Narrows(sh, page, val) then sh.dirty else sh.dirty + {page},
        stale := if Narrows(sh, page, val) then sh.stale + {page} else sh.stale)
  }

  predicate PtSet(s: State, s': State, t: Tid, page: nat, val: Option<Pte>) {
    && Mutating(s, t) && (val.Some? ==> val.value.alloc !in s.sh.retiredAt)
    && s' == State(SetEntry(s.sh, page, val), s.th)
  }

  /** as_retire(): recorded with the generation as it stands. */
  predicate Retire(s: State, s': State, t: Tid, alloc: nat) {
    && Mutating(s, t) && alloc !in s.sh.retiredAt
    && s' == State(s.sh.(retiredAt := s.sh.retiredAt[alloc := s.sh.asgen]), s.th)
  }

  predicate Bump(s: State, s': State, t: Tid) {
    && Mutating(s, t)
    && s' == State(s.sh.(asgen := s.sh.asgen + 1, dirty := {}, stale := {}, pending := JitThreads(s.th)), s.th)
  }

  predicate Notify(s: State, s': State, t: Tid, u: Tid) {
    && Owns(s, t) && u in s.sh.pending && u in s.th
    && s' == State(s.sh.(pending := s.sh.pending - {u}), s.th[u := s.th[u].(interrupt := true)])
  }

  predicate LockedRead(s: State, s': State, t: Tid, me: Thread, page: nat) {
    && Mutating(s, t) && me == s.th[t] && me.pc == Locked(ToWalk(page)) && Published(s.sh) && page in s.sh.pt
    && s' == At(s, t, me.(fill := Some(Entry(page, s.sh.pt[page]))))
  }

  predicate Unlock(s: State, s': State, t: Tid, me: Thread) {
    && Mutating(s, t) && me == s.th[t] && Published(s.sh)
    && s' == Both(s, t, me.(pc := if me.fill.Some? then Fill else Continue(me.pc.k)), s.sh.(lock := None))
  }

  // ------------------------------------------------------- as_drain_retired()

  predicate DrainBegin(s: State, s': State, t: Tid) {
    && Mutating(s, t) && s.th[t].pc.k.ToIdle? && Published(s.sh)
    && s' == s.(sh := s.sh.(drain := LoadThreads))
  }

  predicate DrainThreads(s: State, s': State, t: Tid) {
    && Owns(s, t) && s.sh.drain.LoadThreads?
    && s' == s.(sh := s.sh.(drain := if s.sh.nthreads == 1 then Releasing(Unbounded) else LoadOver))
  }

  predicate DrainOver(s: State, s': State, t: Tid) {
    && Owns(s, t) && s.sh.drain.LoadOver?
    && s' == s.(sh := s.sh.(drain := if s.sh.over != 0 then Releasing(Gen(0)) else LoadHi))
  }

  predicate DrainHi(s: State, s': State, t: Tid) {
    && Owns(s, t) && s.sh.drain.LoadHi?
    && s' == s.(sh := s.sh.(drain := ScanTid(0, if s.sh.hi > |s.sh.pub| then |s.sh.pub| else s.sh.hi, Unbounded)))
  }

  /** The three loads of one slot, and the end of the scan. */
  predicate DrainScan(s: State, s': State, t: Tid) {
    var d := s.sh.drain;
    && Owns(s, t) && (d.ScanTid? || d.ScanBlocked? || d.ScanGen?) && 0 <= d.i
    && (d.i < d.hi ==> d.i < |s.sh.pub|)
    && s' == s.(sh := s.sh.(drain :=
        if d.i >= d.hi then Releasing(d.safe)
        else if d.ScanTid? then
          (if s.sh.pub[d.i].tid == 0 then ScanTid(d.i + 1, d.hi, d.safe) else ScanBlocked(d.i, d.hi, d.safe))
        else if d.ScanBlocked? then
          (if s.sh.pub[d.i].blocked then ScanTid(d.i + 1, d.hi, d.safe) else ScanGen(d.i, d.hi, d.safe))
        else ScanTid(d.i + 1, d.hi, MinEpoch(d.safe, s.sh.pub[d.i].gen))))
  }

  /** munmap of one quarantined allocation. */
  predicate Release(s: State, s': State, t: Tid, alloc: nat) {
    && Owns(s, t) && s.sh.drain.Releasing? && alloc in s.sh.retiredAt && alloc !in s.sh.freed
    && Below(s.sh.retiredAt[alloc], s.sh.drain.safe)
    && s' == s.(sh := s.sh.(freed := s.sh.freed + {alloc}))
  }

  predicate DrainEnd(s: State, s': State, t: Tid) {
    && Owns(s, t) && s.sh.drain.Releasing?
    && s' == s.(sh := s.sh.(drain := NoDrain))
  }

  // ------------------------------------------------------- the step relation

  ghost predicate AccessStep(s: State, s': State, t: Tid, me: Thread) {
    || (exists page :: LoadGen(s, s', t, me, page))
    || (exists gen, page :: DoFlush(s, s', t, me, gen, page))
    || (exists page :: ProbeHit(s, s', t, me, page))
    || (exists page :: ProbeMiss(s, s', t, me, page))
    || (exists page :: ProbeHeal(s, s', t, me, page))
    || (exists page :: WalkRead(s, s', t, me, page))
    || (exists page :: WalkFault(s, s', t, me, page))
    || FillStore(s, s', t, me)
    || FillHeal(s, s', t, me)
    || DropPtr(s, s', t, me)
    || KeepEnd(s, s', t, me)
    || CopyEnds(s, s', t, me)
    || FlushSelf(s, s', t, me)
    || FetchFill(s, s', t, me)
    || FetchHit(s, s', t, me)
  }

  ghost predicate ClaimStep(s: State, s': State, t: Tid, me: Thread) {
    || (exists gen, k :: PublishStore(s, s', t, me, gen, k))
    || (exists gen, k :: ClaimStart(s, s', t, me, gen, k))
    || (exists gen, k :: ClaimLoadHi(s, s', t, me, gen, k))
    || (exists gen, k, i, seen :: ClaimTrySlot(s, s', t, me, gen, k, i, seen))
    || (exists gen, k :: ClaimFetchAdd(s, s', t, me, gen, k))
    || (exists gen, k, i :: ClaimCasNew(s, s', t, me, gen, k, i))
    || (exists gen, k :: ClaimUndoAdd(s, s', t, me, gen, k))
    || (exists gen, k :: ClaimGiveUp(s, s', t, me, gen, k))
    || (exists gen, k :: ClaimFinish(s, s', t, me, gen, k))
  }

  ghost predicate JitStep(s: State, s': State, t: Tid, me: Thread) {
    || JitRegister(s, s', t, me)
    || JitDeregister(s, s', t, me)
    || BlockEnter(s, s', t, me)
    || BlockLeave(s, s', t, me)
    || ServiceBegin(s, s', t, me)
    || ServiceLoadGen(s, s', t, me)
    || (exists gen :: ServiceEmpty(s, s', t, me, gen))
  }

  ghost predicate LifeStep(s: State, s': State, t: Tid, me: Thread) {
    || ParkBegin(s, s', t, me)
    || ParkFlag(s, s', t, me)
    || ParkEnd(s, s', t, me)
    || CreateCount(s, s', t, me)
    || (exists child :: CreateSpawn(s, s', t, me, child))
    || CreateUndo(s, s', t, me)
    || ExitBegin(s, s', t, me)
    || ExitClearBlocked(s, s', t, me)
    || ExitClearGen(s, s', t, me)
    || ExitClearTid(s, s', t, me)
    || ExitDone(s, s', t, me)
  }

  ghost predicate LockStep(s: State, s': State, t: Tid, me: Thread) {
    || LockForSyscall(s, s', t, me)
    || (exists page :: LockForWalk(s, s', t, me, page))
    || (exists page, val :: PtSet(s, s', t, page, val))
    || (exists alloc :: Retire(s, s', t, alloc))
    || Bump(s, s', t)
    || (exists u :: Notify(s, s', t, u))
    || (exists page :: LockedRead(s, s', t, me, page))
    || Unlock(s, s', t, me)
  }

  ghost predicate DrainStep(s: State, s': State, t: Tid) {
    || DrainBegin(s, s', t)
    || DrainThreads(s, s', t)
    || DrainOver(s, s', t)
    || DrainHi(s, s', t)
    || DrainScan(s, s', t)
    || (exists alloc :: Release(s, s', t, alloc))
    || DrainEnd(s, s', t)
  }

  ghost predicate StepOf(s: State, s': State, t: Tid) {
    && t in s.th
    && var me := s.th[t];
       AccessStep(s, s', t, me) || ClaimStep(s, s', t, me) || JitStep(s, s', t, me)
       || LifeStep(s, s', t, me) || LockStep(s, s', t, me) || DrainStep(s, s', t)
  }

  ghost predicate Next(s: State, s': State) { exists t :: StepOf(s, s', t) }

  /** A finite run from an initial state. */
  ghost predicate Run(tr: seq<State>) {
    && |tr| > 0 && Init(tr[0])
    && forall i :: 0 <= i < |tr| - 1 ==> Next(tr[i], tr[i + 1])
  }

  // ---------------------------------------------------------------- what holds

  predicate Unblocked(sh: Shared, th: Thread) {
    !(0 <= th.slot < |sh.pub| && sh.pub[th.slot].blocked)
  }

  /** While it holds, the thread dereferences whatever its data TLB names, with
   no look at a generation or an interrupt flag in between. */
  predicate TrustsTlb(th: Thread) { th.blk || th.pc.Probe? }

  /** The thread's latest translation leads nowhere into `gone`: the pointer it was
   handed, the one it is about to store, and every entry of a data TLB it
   trusts. */
  predicate LatestNone(th: Thread, gone: set<nat>) {
    && (th.ptr.Some? ==> th.ptr.value.pte.alloc !in gone)
    && (th.fill.Some? ==> th.fill.value.pte.alloc !in gone)
    && (TrustsTlb(th) ==> forall i :: i in th.tlb ==> th.tlb[i].pte.alloc !in gone)
  }

  /** ...nor does the one it has put aside. */
  predicate TranslatesNone(th: Thread, gone: set<nat>) {
    LatestNone(th, gone) && (th.kept.Some? ==> th.kept.value.pte.alloc !in gone)
  }

  /** Nothing the thread can still dereference is in `gone`: not its translations,
   and not the page it fetches instructions from. */
  predicate ReachesNone(th: Thread, gone: set<nat>) {
    TranslatesNone(th, gone) && (th.fetch.Some? ==> th.fetch.value.pte.alloc !in gone)
  }

  predicate Keeps(th: Thread) { th.kept.Some? && th.keeping }

  predicate Guards(th: Thread) { th.fetch.Some? && th.guarded }

  /** Nothing is put aside, or the thread has not flushed since, or what it leads
   to is still some page's backing. */
  predicate EndKept(sh: Shared, th: Thread) {
    th.kept.None? || th.keeping || th.kept.value.pte.alloc !in sh.retiredAt
  }

  /** The fetch cache is empty, or nothing has let the drain past it since it was
   filled, or what it names is still some page's backing. */
  predicate FetchKept(sh: Shared, th: Thread) {
    th.fetch.None? || th.guarded || th.fetch.value.pte.alloc !in sh.retiredAt
  }

  /** The protocol's promise, for each unblocked thread: what its latest
   translation leads to has not been given back to the host, nor has what it put
   aside while that is kept, nor, while its fetch cache is too, has anything it
   can still dereference. */
  predicate Safe(s: State) {
    forall t :: t in s.th && Unblocked(s.sh, s.th[t]) ==>
      && LatestNone(s.th[t], s.sh.freed)
      && (EndKept(s.sh, s.th[t]) ==> TranslatesNone(s.th[t], s.sh.freed))
      && (EndKept(s.sh, s.th[t]) && FetchKept(s.sh, s.th[t]) ==> ReachesNone(s.th[t], s.sh.freed))
  }

  /** A cached entry that agrees with the shared table: the same host page, and
   no right the table does not grant. */
  predicate Agrees(sh: Shared, e: Entry) {
    SamePage(sh, e.page, e.pte) && e.pte.prot <= sh.pt[e.page].prot
  }

  /** Whenever no change is waiting to be published, a data TLB whose generation
   is current names the table's host pages, and grants what the table does not
   only on pages whose loss of rights was never announced. */
  predicate TlbRefinesTable(s: State) {
    s.sh.dirty == {} ==>
      forall t :: t in s.th && s.th[t].dgen == s.sh.asgen ==>
        forall i :: i in s.th[t].tlb ==>
          var e := s.th[t].tlb[i];
          SamePage(s.sh, e.page, e.pte) && (e.page !in s.sh.stale ==> Agrees(s.sh, e))
  }

  // ---------------------------------------------------------------- invariant

  predicate Consistent(sh: Shared, e: Entry) {
    || Agrees(sh, e)
    || (e.page in sh.dirty && e.pte.alloc !in sh.freed)
    || (e.page in sh.stale && SamePage(sh, e.page, e.pte))
  }

  predicate Registered(th: Thread) { th.slot >= 0 || th.overSelf }

  predicate InClaim(pc: Pc) {
    pc.Publish? || pc.ClaimLoad? || pc.ClaimTry? || pc.ClaimAdd? || pc.ClaimCas?
    || pc.ClaimUndo? || pc.ClaimOver? || pc.Claimed?
  }

  predicate InExit(pc: Pc) { pc.ExitBlocked? || pc.ExitGen? || pc.ExitTid? || pc.ExitCount? }

  predicate Accessing(pc: Pc) {
    pc.Probe? || pc.Walk? || pc.Fill? || (pc.Locked? && pc.k.ToWalk?)
  }

  predicate HoldsNothing(th: Thread) { th.tlb == map[] && th.fill.None? && th.ptr.None? && !Keeps(th) && !Guards(th) }

  predicate RetiredSince(sh: Shared, alloc: nat, gen: nat) {
    alloc in sh.retiredAt ==> gen <= sh.retiredAt[alloc]
  }

  /** Whatever the thread holds a pointer into was retired at `gen` or later, if
   it was retired at all. */
  predicate HeldSince(sh: Shared, th: Thread, gen: nat) {
    && (th.ptr.Some? ==> RetiredSince(sh, th.ptr.value.pte.alloc, gen))
    && (Keeps(th) ==> RetiredSince(sh, th.kept.value.pte.alloc, gen))
    && (Guards(th) ==> RetiredSince(sh, th.fetch.value.pte.alloc, gen))
    && (th.fill.Some? ==> RetiredSince(sh, th.fill.value.pte.alloc, gen))
    && (forall i :: i in th.tlb ==> RetiredSince(sh, th.tlb[i].pte.alloc, gen))
  }

  predicate ClaimInv(sh: Shared, th: Thread) {
    var pc := th.pc;
    InClaim(pc) ==>
      && pc.gen <= sh.asgen && HeldSince(sh, th, pc.gen)
      && !pc.k.ToWalk? && (if pc.k.ToBlock? then !th.blk else th.tlb == map[])
      && th.fill.None? && th.ptr.None? && !Guards(th)
      && (pc.ClaimTry? ==> 0 <= pc.i <= pc.seen <= sh.cap && pc.seen <= sh.hi)
      && (pc.ClaimCas? ==> 0 <= pc.i < sh.cap && pc.i < sh.hi)
      && (pc.Claimed? ==> th.slot >= 0)
      && (!pc.Publish? && !pc.Claimed? ==> th.slot < 0)
  }

  predicate ExitInv(th: Thread) {
    var pc := th.pc;
    InExit(pc) ==>
      && HoldsNothing(th) && th.dgen == 0 && !th.overSelf && !th.jit && !th.blk
      && (if pc.ExitCount? then th.slot < 0 else th.slot >= 0)
  }

  /** The program counter's own facts. */
  predicate PcInv(sh: Shared, th: Thread) {
    var pc := th.pc;
    && ClaimInv(sh, th)
    && ExitInv(th)
    && (pc.Flush? || pc.ServiceFlush? ==> pc.gen <= sh.asgen)
    && (th.fill.Some? ==> pc.Fill? || (pc.Locked? && pc.k.ToWalk?))
    && (th.ptr.Some? ==> pc.Idle? || pc.Creating?)
    && (pc.Locked? ==> (pc.k.ToIdle? && !th.blk) || pc.k.ToWalk?)
    && (pc.SetBlocked? || pc.ServiceLoad? || pc.ServiceFlush? ==> !th.blk)
    && (Keeps(th) ==> Unblocked(sh, th) && (pc.Idle? || pc.Creating? || pc.Flush? || Accessing(pc)))
    && (Guards(th) ==> Unblocked(sh, th) && !pc.SetBlocked? && !(pc.Locked? && pc.k.ToIdle?))
  }

  predicate SlotInv(sh: Shared, t: Tid, th: Thread) {
    && -1 <= th.slot
    && (th.slot >= 0 ==> th.slot < sh.cap <= |sh.pub| && th.slot < sh.hi && sh.pub[th.slot].tid == t
                         && (th.pc.ExitGen? || th.pc.ExitTid? ==> !sh.pub[th.slot].blocked)
                         && (th.pc.ExitTid? ==> sh.pub[th.slot].gen == 0))
  }

  function PubGen(sh: Shared, th: Thread): nat {
    if 0 <= th.slot < |sh.pub| then sh.pub[th.slot].gen else 0
  }

  predicate RegInv(th: Thread) {
    && (!HoldsNothing(th) ==> Registered(th))
    && (Accessing(th.pc) ==> Registered(th))
    && (th.dgen > 0 && !InClaim(th.pc) ==> Registered(th))
  }

  predicate AllConsistent(sh: Shared, th: Thread) {
    && (th.fill.Some? ==> Consistent(sh, th.fill.value))
    && (forall i :: i in th.tlb ==> Consistent(sh, th.tlb[i]))
  }

  predicate NoneFreed(sh: Shared, th: Thread) {
    && (th.fill.Some? ==> th.fill.value.pte.alloc !in sh.freed)
    && (forall i :: i in th.tlb ==> th.tlb[i].pte.alloc !in sh.freed)
  }

  predicate CacheInv(sh: Shared, t: Tid, th: Thread) {
    && (th.dgen == sh.asgen ==> AllConsistent(sh, th))
    && (th.jit && th.synced && !th.interrupt ==>
          if t in sh.pending then NoneFreed(sh, th) else AllConsistent(sh, th))
    && (th.blk ==> th.jit)
  }

  /** How far the drain under way is from releasing an allocation retired at `g`
   that the thread can still reach. */
  predicate DrainOk(d: Drain, slot: int, g: nat) {
    match d
    case NoDrain => true
    case LoadThreads => true
    case LoadOver => true
    case LoadHi => slot >= 0
    case ScanTid(i, hi, safe) => i <= slot < hi || !Below(g, safe)
    case ScanBlocked(i, hi, safe) => i <= slot < hi || !Below(g, safe)
    case ScanGen(i, hi, safe) => i <= slot < hi || !Below(g, safe)
    case Releasing(safe) => !Below(g, safe)
  }

  predicate Spared(sh: Shared, slot: int, alloc: nat) {
    alloc !in sh.freed && (alloc in sh.retiredAt ==> DrainOk(sh.drain, slot, sh.retiredAt[alloc]))
  }

  predicate SafeInv(sh: Shared, th: Thread) {
    Unblocked(sh, th) ==>
      && (th.ptr.Some? ==> Spared(sh, th.slot, th.ptr.value.pte.alloc))
      && (Keeps(th) ==> Spared(sh, th.slot, th.kept.value.pte.alloc))
      && (Guards(th) ==> Spared(sh, th.slot, th.fetch.value.pte.alloc))
      && (th.fill.Some? ==> Spared(sh, th.slot, th.fill.value.pte.alloc))
      && (TrustsTlb(th) ==> forall i :: i in th.tlb ==> Spared(sh, th.slot, th.tlb[i].pte.alloc))
  }

  /** GuardInv: a pointer into retired backing was read before the retirement,
   and its holder has published no later generation since. */
  predicate GuardInv(sh: Shared, th: Thread) {
    HeldSince(sh, th, th.dgen) && HeldSince(sh, th, PubGen(sh, th))
  }

  predicate ThreadInv(sh: Shared, t: Tid, th: Thread) {
    && t != 0
    && th.dgen <= sh.asgen
    && PcInv(sh, th)
    && SlotInv(sh, t, th)
    && GuardInv(sh, th)
    && RegInv(th)
    && CacheInv(sh, t, th)
    && SafeInv(sh, th)
  }

  predicate SharedInv(sh: Shared) {
    && 1 <= sh.asgen
    && sh.cap <= |sh.pub|
    && 0 <= sh.hi
    && (forall i :: 0 <= i < |sh.pub| ==>
          sh.pub[i].gen <= sh.asgen
          && (sh.pub[i].tid == 0 ==> sh.pub[i].gen == 0 && !sh.pub[i].blocked))
    && (forall a :: a in sh.retiredAt ==> sh.retiredAt[a] <= sh.asgen)
    && sh.freed <= sh.retiredAt.Keys
    && (forall p :: p in sh.pt ==> sh.pt[p].alloc !in sh.freed)
    && (sh.lock.None? ==> Published(sh) && sh.drain.NoDrain?)
    && (!sh.drain.NoDrain? ==> Published(sh))
  }

  function OverSet(th: map<Tid, Thread>): set<Tid> { set u | u in th && th[u].overSelf }
  function UndoSet(th: map<Tid, Thread>): set<Tid> { set u | u in th && th[u].pc.ClaimUndo? }
  function CreatingSet(th: map<Tid, Thread>): set<Tid> { set u | u in th && th[u].pc.Creating? }

  predicate CountInv(s: State) {
    && s.sh.over == |OverSet(s.th)|
    && s.sh.nthreads == |s.th.Keys| + |CreatingSet(s.th)|
    && (UndoSet(s.th) != {} ==> s.sh.hi >= s.sh.cap + |UndoSet(s.th)|)
  }

  predicate LockInv(s: State) {
    && (forall t :: t in s.th && s.th[t].pc.Locked? ==> s.sh.lock == Some(t))
    && (s.sh.lock.Some? ==> s.sh.lock.value in s.th && s.th[s.sh.lock.value].pc.Locked?)
    && (s.sh.lock.Some? && !s.sh.drain.NoDrain? ==> s.th[s.sh.lock.value].pc.k.ToIdle?)
    && (forall u :: u in s.sh.pending ==> u in s.th && s.th[u].jit)
  }

  predicate Inv(s: State) {
    && SharedInv(s.sh)
    && CountInv(s)
    && LockInv(s)
    && forall t :: t in s.th ==> ThreadInv(s.sh, t, s.th[t])
  }

  /** One guest thread, no slot handed out, an arbitrary page table. */
  ghost predicate Init(s: State) {
    && s.sh.asgen == 1 && s.sh.cap <= |s.sh.pub| && s.sh.dirty == {} && s.sh.stale == {} && s.sh.pending == {}
    && s.sh.lock.None? && s.sh.hi == 0 && s.sh.over == 0 && s.sh.nthreads == 1
    && s.sh.retiredAt == map[] && s.sh.freed == {} && s.sh.drain.NoDrain?
    && (forall i :: 0 <= i < |s.sh.pub| ==> s.sh.pub[i] == Slot(0, false, 0))
    && (exists t: Tid :: t != 0 && s.th == map[t := Fresh])
  }
}
