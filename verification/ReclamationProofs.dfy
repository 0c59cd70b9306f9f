/**
 Proof that the epoch protocol keeps its invariant on every step, and what
 follows for every run.
 */
module ReclamationProofs {
  import opened Options
  import opened Reclamation

  // ------------------------------------------------------------ bookkeeping

  predicate SameCounts(a: Thread, b: Thread) {
    a.overSelf == b.overSelf && a.pc.ClaimUndo? == b.pc.ClaimUndo? && a.pc.Creating? == b.pc.Creating?
  }

  predicate SameLock(sh: Shared, a: Thread, b: Thread) {
    && a.pc.Locked? == b.pc.Locked? && (a.pc.Locked? ==> a.pc.k == b.pc.k)
    && (a.jit == b.jit || sh.lock.None?)
  }

  function Bit(b: bool): int { if b then 1 else 0 }

  lemma {:induction false} OverCount(th: map<Tid, Thread>, t: Tid, me: Thread)
    requires t in th
    ensures |OverSet(th[t := me])| == |OverSet(th)| - Bit(th[t].overSelf) + Bit(me.overSelf)
  {
    var rest := OverSet(th) - {t};
    assert OverSet(th) == if th[t].overSelf then rest + {t} else rest;
    assert OverSet(th[t := me]) == if me.overSelf then rest + {t} else rest;
  }

  lemma {:induction false} UndoCount(th: map<Tid, Thread>, t: Tid, me: Thread)
    requires t in th
    ensures |UndoSet(th[t := me])| == |UndoSet(th)| - Bit(th[t].pc.ClaimUndo?) + Bit(me.pc.ClaimUndo?)
  {
    var rest := UndoSet(th) - {t};
    assert UndoSet(th) == if th[t].pc.ClaimUndo? then rest + {t} else rest;
    assert UndoSet(th[t := me]) == if me.pc.ClaimUndo? then rest + {t} else rest;
  }

  lemma {:induction false} CreatingCount(th: map<Tid, Thread>, t: Tid, me: Thread)
    requires t in th
    ensures |CreatingSet(th[t := me])| == |CreatingSet(th)| - Bit(th[t].pc.Creating?) + Bit(me.pc.Creating?)
  {
    var rest := CreatingSet(th) - {t};
    assert CreatingSet(th) == if th[t].pc.Creating? then rest + {t} else rest;
    assert CreatingSet(th[t := me]) == if me.pc.Creating? then rest + {t} else rest;
  }

  /** How the three counts move when one thread changes. */
  lemma {:induction false} Counts(s: State, t: Tid, me: Thread, sh: Shared)
    requires CountInv(s) && t in s.th && sh.cap == s.sh.cap
    requires sh.over == s.sh.over - Bit(s.th[t].overSelf) + Bit(me.overSelf)
    requires sh.nthreads == s.sh.nthreads - Bit(s.th[t].pc.Creating?) + Bit(me.pc.Creating?)
    requires me.pc.ClaimUndo? || s.th[t].pc.ClaimUndo? || sh.hi >= s.sh.hi
    requires s.th[t].pc.ClaimUndo? && !me.pc.ClaimUndo? ==> sh.hi >= s.sh.hi - 1
    requires !s.th[t].pc.ClaimUndo? && me.pc.ClaimUndo? ==> sh.hi > s.sh.hi >= sh.cap
    requires s.th[t].pc.ClaimUndo? && me.pc.ClaimUndo? ==> sh.hi >= s.sh.hi
    ensures CountInv(Both(s, t, me, sh))
  {
    OverCount(s.th, t, me);
    UndoCount(s.th, t, me);
    CreatingCount(s.th, t, me);
    assert s.th[t := me].Keys == s.th.Keys;
  }

  lemma {:induction false} LockKept(s: State, t: Tid, me: Thread, sh: Shared)
    requires LockInv(s) && SharedInv(s.sh) && t in s.th && SameLock(s.sh, s.th[t], me)
    requires sh.lock == s.sh.lock && sh.drain == s.sh.drain && sh.pending == s.sh.pending
    ensures LockInv(Both(s, t, me, sh))
  {
  }

  /** A step of one thread that touches neither the lock nor the drain. */
  lemma {:induction false} Assemble(s: State, t: Tid, me: Thread, sh: Shared)
    requires Inv(s) && t in s.th && SameLock(s.sh, s.th[t], me)
    requires sh.lock == s.sh.lock && sh.drain == s.sh.drain && sh.pending == s.sh.pending
    requires SharedInv(sh) && CountInv(Both(s, t, me, sh)) && ThreadInv(sh, t, me)
    requires forall u :: u in s.th && u != t ==> ThreadInv(sh, u, s.th[u])
    ensures Inv(Both(s, t, me, sh))
  {
    LockKept(s, t, me, sh);
    hide ThreadInv, SharedInv, CountInv, LockInv;
  }

  /** A step that changes one thread's own state and nothing shared. */
  lemma {:induction false} Local(s: State, t: Tid, me: Thread)
    requires Inv(s) && t in s.th && SameCounts(s.th[t], me) && SameLock(s.sh, s.th[t], me)
    requires ThreadInv(s.sh, t, me)
    ensures Inv(At(s, t, me))
  {
    hide ThreadInv, SharedInv, LockInv;
    Counts(s, t, me, s.sh);
    hide CountInv;
    Assemble(s, t, me, s.sh);
  }

  /** The slots of two threads differ, and so does a free slot from both. */
  lemma {:induction false} SlotElsewhere(s: State, u: Tid, i: int)
    requires Inv(s) && u in s.th && 0 <= i < |s.sh.pub| && s.sh.pub[i].tid != u
    ensures s.th[u].slot != i
  {
    assert ThreadInv(s.sh, u, s.th[u]);
  }

  lemma {:induction false} OtherSlot(sh: Shared, i: int, x: Slot, u: Tid, th: Thread)
    requires 0 <= i < |sh.pub| && th.slot != i && ThreadInv(sh, u, th)
    ensures ThreadInv(SetSlot(sh, i, x), u, th)
  {
    var sh' := SetSlot(sh, i, x);
    assert Unblocked(sh', th) == Unblocked(sh, th);
    assert PubGen(sh', th) == PubGen(sh, th);
    SameTable(sh, sh', u, th);
  }

  /** A thread's facts read a few shared fields only. */
  lemma {:induction false} SameTable(sh: Shared, sh': Shared, u: Tid, th: Thread)
    requires ThreadInv(sh, u, th)
    requires sh'.cap == sh.cap && sh'.asgen == sh.asgen && sh'.pt == sh.pt && sh'.dirty == sh.dirty && sh'.stale == sh.stale
    requires sh'.pending == sh.pending && sh'.retiredAt == sh.retiredAt && sh'.freed == sh.freed
    requires sh'.drain == sh.drain
    requires (th.slot >= 0 ==> th.slot < sh'.hi) && (InClaim(th.pc) ==> sh'.hi >= sh.hi || sh'.hi >= sh.cap)
    requires |sh'.pub| == |sh.pub| && (0 <= th.slot < |sh.pub| ==> sh'.pub[th.slot] == sh.pub[th.slot])
    ensures ThreadInv(sh', u, th)
  {
    SameReach(sh, sh', th);
    SameCache(sh, sh', u, th);
    SameHeld(sh, sh', th, th.dgen);
    SameHeld(sh, sh', th, PubGen(sh, th));
    if InClaim(th.pc) { SameHeld(sh, sh', th, th.pc.gen); }
    hide HeldSince, SafeInv, CacheInv;
  }

  /** What is held since when reads the retirements only, */
  lemma {:induction false} SameHeld(sh: Shared, sh': Shared, th: Thread, gen: nat)
    requires sh'.retiredAt == sh.retiredAt
    ensures HeldSince(sh', th, gen) == HeldSince(sh, th, gen)
  {
    assert forall a :: RetiredSince(sh', a, gen) == RetiredSince(sh, a, gen);
    hide RetiredSince;
  }

  /** what is spared the quarantine and the drain, */
  lemma {:induction false} SameReach(sh: Shared, sh': Shared, th: Thread)
    requires SafeInv(sh, th) && (Unblocked(sh', th) ==> Unblocked(sh, th))
    requires sh'.retiredAt == sh.retiredAt && sh'.freed == sh.freed && sh'.drain == sh.drain
    ensures SafeInv(sh', th)
  {
    assert forall a :: Spared(sh', th.slot, a) == Spared(sh, th.slot, a);
    hide Spared;
  }

  /** and the caches the table. */
  lemma {:induction false} SameCache(sh: Shared, sh': Shared, u: Tid, th: Thread)
    requires CacheInv(sh, u, th) && sh'.asgen == sh.asgen && sh'.pt == sh.pt && sh'.dirty == sh.dirty && sh'.stale == sh.stale
    requires sh'.freed == sh.freed && (u in sh'.pending <==> u in sh.pending)
    ensures CacheInv(sh', u, th)
  {
    assert forall e :: Consistent(sh', e) == Consistent(sh, e);
    hide Consistent;
  }

  /** A step that changes one thread and one slot: its own, or a free one. */
  lemma {:induction false} SlotStep(s: State, t: Tid, me: Thread, i: int, x: Slot)
    requires Inv(s) && t in s.th && SameCounts(s.th[t], me) && SameLock(s.sh, s.th[t], me)
    requires 0 <= i < |s.sh.pub| && (s.sh.pub[i].tid == 0 || s.sh.pub[i].tid == t)
    requires x.gen <= s.sh.asgen && (x.tid == 0 ==> x.gen == 0 && !x.blocked)
    requires ThreadInv(SetSlot(s.sh, i, x), t, me)
    ensures Inv(Both(s, t, me, SetSlot(s.sh, i, x)))
  {
    hide ThreadInv, LockInv, CountInv;
    var sh' := SetSlot(s.sh, i, x);
    forall u | u in s.th && u != t
      ensures ThreadInv(sh', u, s.th[u])
    {
      NonZero(s, u);
      SlotElsewhere(s, u, i);
      OtherSlot(s.sh, i, x, u, s.th[u]);
    }
    Counts(s, t, me, sh');
    Assemble(s, t, me, sh');
  }

  lemma {:induction false} NonZero(s: State, u: Tid)
    requires Inv(s) && u in s.th
    ensures u != 0 && s.th[u].slot < s.sh.hi
  {
    assert ThreadInv(s.sh, u, s.th[u]);
  }

  lemma {:induction false} Own(s: State, t: Tid)
    requires Inv(s) && t in s.th
    ensures SharedInv(s.sh) && ThreadInv(s.sh, t, s.th[t])
  {
    hide ThreadInv;
  }

  // ------------------------------------------------------------ translate()

  lemma {:induction false} LoadGenThread(sh: Shared, t: Tid, me: Thread, page: nat)
    requires SharedInv(sh) && ThreadInv(sh, t, me) && me.pc.Idle?
    ensures ThreadInv(sh, t, if sh.asgen == me.dgen
                             then me.(ptr := None, synced := true, pc := Probe(page))
                             else me.(ptr := None, pc := Flush(sh.asgen, page)))
  {
    hide RetiredSince, Spared;
    if sh.asgen == me.dgen { TrustCurrent(sh, t, me); }
  }

  lemma {:induction false} KeepLoadGen(s: State, s': State, t: Tid, me: Thread, page: nat)
    requires Inv(s) && LoadGen(s, s', t, me, page)
    ensures Inv(s')
  {
    hide Inv, ThreadInv, SharedInv;
    Own(s, t);
    LoadGenThread(s.sh, t, me, page);
    Local(s, t, s'.th[t]);
  }

  lemma {:induction false} DoFlushThread(sh: Shared, t: Tid, me: Thread, gen: nat, page: nat)
    requires SharedInv(sh) && ThreadInv(sh, t, me) && me.pc == Flush(gen, page)
    ensures ThreadInv(sh, t, me.(tlb := map[], dgen := gen, keeping := false, guarded := false, synced := true,
                                pc := Publish(gen, ToProbe(page))))
  {
  }

  lemma {:induction false} KeepDoFlush(s: State, s': State, t: Tid, me: Thread, gen: nat, page: nat)
    requires Inv(s) && DoFlush(s, s', t, me, gen, page)
    ensures Inv(s')
  {
    hide Inv, ThreadInv, SharedInv;
    Own(s, t);
    DoFlushThread(s.sh, t, me, gen, page);
    Local(s, t, s'.th[t]);
  }

  lemma {:induction false} ProbeHitThread(sh: Shared, t: Tid, me: Thread, page: nat)
    requires SharedInv(sh) && ThreadInv(sh, t, me) && me.pc == Probe(page)
    requires page % DTLB_SIZE in me.tlb
    ensures ThreadInv(sh, t, me.(ptr := Some(me.tlb[page % DTLB_SIZE]), pc := Idle))
  {
    hide Consistent, RetiredSince, Spared;
  }

  lemma {:induction false} KeepProbeHit(s: State, s': State, t: Tid, me: Thread, page: nat)
    requires Inv(s) && ProbeHit(s, s', t, me, page)
    ensures Inv(s')
  {
    hide Inv, ThreadInv, SharedInv;
    Own(s, t);
    ProbeHitThread(s.sh, t, me, page);
    Local(s, t, s'.th[t]);
  }

  lemma {:induction false} ProbeMissThread(sh: Shared, t: Tid, me: Thread, page: nat)
    requires SharedInv(sh) && ThreadInv(sh, t, me) && me.pc == Probe(page)
    ensures ThreadInv(sh, t, me.(pc := Walk(page)))
  {
    hide Consistent, RetiredSince, Spared;
  }

  lemma {:induction false} KeepProbeMiss(s: State, s': State, t: Tid, me: Thread, page: nat)
    requires Inv(s) && ProbeMiss(s, s', t, me, page)
    ensures Inv(s')
  {
    hide Inv, ThreadInv, SharedInv;
    Own(s, t);
    ProbeMissThread(s.sh, t, me, page);
    Local(s, t, s'.th[t]);
  }

  lemma {:induction false} KeepProbeHeal(s: State, s': State, t: Tid, me: Thread, page: nat)
    requires Inv(s) && ProbeHeal(s, s', t, me, page)
    ensures Inv(s')
  {
    hide Inv, ThreadInv, SharedInv;
    Own(s, t);
    ProbeMissThread(s.sh, t, me, page);
    Local(s, t, s'.th[t]);
  }

  lemma {:induction false} WalkReadThread(sh: Shared, t: Tid, me: Thread, page: nat)
    requires SharedInv(sh) && ThreadInv(sh, t, me) && me.pc == Walk(page)
    requires sh.lock.None? && page in sh.pt
    ensures ThreadInv(sh, t, me.(fill := Some(Entry(page, sh.pt[page])), pc := Fill))
  {
  }

  lemma {:induction false} KeepWalkRead(s: State, s': State, t: Tid, me: Thread, page: nat)
    requires Inv(s) && WalkRead(s, s', t, me, page)
    ensures Inv(s')
  {
    hide Inv, ThreadInv, SharedInv;
    Own(s, t);
    WalkReadThread(s.sh, t, me, page);
    Local(s, t, s'.th[t]);
  }

  lemma {:induction false} WalkFaultThread(sh: Shared, t: Tid, me: Thread, page: nat)
    requires SharedInv(sh) && ThreadInv(sh, t, me) && me.pc == Walk(page)
    ensures ThreadInv(sh, t, me.(pc := Idle))
  {
    hide Consistent, RetiredSince, Spared;
  }

  lemma {:induction false} KeepWalkFault(s: State, s': State, t: Tid, me: Thread, page: nat)
    requires Inv(s) && WalkFault(s, s', t, me, page)
    ensures Inv(s')
  {
    hide Inv, ThreadInv, SharedInv;
    Own(s, t);
    WalkFaultThread(s.sh, t, me, page);
    Local(s, t, s'.th[t]);
  }

  lemma {:induction false} FillStoreThread(sh: Shared, t: Tid, me: Thread)
    requires SharedInv(sh) && ThreadInv(sh, t, me) && me.pc.Fill? && me.fill.Some?
    ensures ThreadInv(sh, t, 
      me.(tlb := me.tlb[me.fill.value.page % DTLB_SIZE := me.fill.value], ptr := Some(me.fill.value),
          fill := None, pc := Idle))
  {
  }

  lemma {:induction false} KeepFillStore(s: State, s': State, t: Tid, me: Thread)
    requires Inv(s) && FillStore(s, s', t, me)
    ensures Inv(s')
  {
    hide Inv, ThreadInv, SharedInv;
    Own(s, t);
    FillStoreThread(s.sh, t, me);
    Local(s, t, s'.th[t]);
  }

  lemma {:induction false} FillHealThread(sh: Shared, t: Tid, me: Thread)
    requires SharedInv(sh) && ThreadInv(sh, t, me) && me.pc.Fill? && me.fill.Some?
    ensures var e := me.fill.value;
            ThreadInv(sh, t, me.(tlb := me.tlb[e.page % DTLB_SIZE := e], fill := None, pc := Walk(e.page)))
  {
  }

  lemma {:induction false} KeepFillHeal(s: State, s': State, t: Tid, me: Thread)
    requires Inv(s) && FillHeal(s, s', t, me)
    ensures Inv(s')
  {
    hide Inv, ThreadInv, SharedInv;
    Own(s, t);
    FillHealThread(s.sh, t, me);
    Local(s, t, s'.th[t]);
  }

  lemma {:induction false} KeepEndThread(sh: Shared, t: Tid, me: Thread)
    requires SharedInv(sh) && ThreadInv(sh, t, me) && me.pc.Idle? && me.ptr.Some?
    ensures ThreadInv(sh, t, me.(ptr := None, kept := me.ptr, keeping := Unblocked(sh, me)))
  {
    hide Consistent, RetiredSince, Spared;
  }

  lemma {:induction false} KeepKeepEnd(s: State, s': State, t: Tid, me: Thread)
    requires Inv(s) && KeepEnd(s, s', t, me)
    ensures Inv(s')
  {
    hide Inv, ThreadInv, SharedInv;
    Own(s, t);
    KeepEndThread(s.sh, t, me);
    Local(s, t, s'.th[t]);
  }

  lemma {:induction false} DropPtrThread(sh: Shared, t: Tid, me: Thread)
    requires SharedInv(sh) && ThreadInv(sh, t, me) && me.pc.Idle?
    ensures ThreadInv(sh, t, me.(ptr := None, kept := None))
  {
    hide Consistent, RetiredSince, Spared;
  }

  lemma {:induction false} KeepDropPtr(s: State, s': State, t: Tid, me: Thread)
    requires Inv(s) && (DropPtr(s, s', t, me) || CopyEnds(s, s', t, me))
    ensures Inv(s')
  {
    hide Inv, ThreadInv, SharedInv;
    Own(s, t);
    DropPtrThread(s.sh, t, me);
    Local(s, t, s'.th[t]);
  }

  lemma {:induction false} FlushSelfThread(sh: Shared, t: Tid, me: Thread)
    requires SharedInv(sh) && ThreadInv(sh, t, me) && (me.pc.Idle? || me.pc.Locked?)
    ensures ThreadInv(sh, t, me.(dgen := 0, fetch := None))
  {
    hide Consistent, Spared;
  }

  lemma {:induction false} KeepFlushSelf(s: State, s': State, t: Tid, me: Thread)
    requires Inv(s) && FlushSelf(s, s', t, me)
    ensures Inv(s')
  {
    hide Inv, ThreadInv, SharedInv;
    Own(s, t);
    FlushSelfThread(s.sh, t, me);
    Local(s, t, s'.th[t]);
  }

  lemma {:induction false} FetchFillThread(sh: Shared, t: Tid, me: Thread)
    requires SharedInv(sh) && ThreadInv(sh, t, me) && me.pc.Idle? && Unblocked(sh, me) && me.ptr.Some?
    ensures ThreadInv(sh, t, me.(fetch := me.ptr, guarded := true))
  {
    hide Consistent, RetiredSince, Spared;
  }

  lemma {:induction false} KeepFetchFill(s: State, s': State, t: Tid, me: Thread)
    requires Inv(s) && FetchFill(s, s', t, me)
    ensures Inv(s')
  {
    hide Inv, ThreadInv, SharedInv;
    Own(s, t);
    FetchFillThread(s.sh, t, me);
    Local(s, t, s'.th[t]);
  }

  // ------------------------------------------------------------ publishing and claiming

  lemma {:induction false} ClaimStartThread(sh: Shared, t: Tid, me: Thread, gen: nat, k: Then)
    requires SharedInv(sh) && ThreadInv(sh, t, me) && me.pc == Publish(gen, k) && me.slot < 0
    ensures ThreadInv(sh, t, me.(pc := ClaimLoad(gen, k)))
  {
    hide Consistent, RetiredSince, Spared;
  }

  lemma {:induction false} KeepClaimStart(s: State, s': State, t: Tid, me: Thread, gen: nat, k: Then)
    requires Inv(s) && ClaimStart(s, s', t, me, gen, k)
    ensures Inv(s')
  {
    hide Inv, ThreadInv, SharedInv;
    Own(s, t);
    ClaimStartThread(s.sh, t, me, gen, k);
    Local(s, t, s'.th[t]);
  }

  lemma {:induction false} ClaimLoadHiThread(sh: Shared, t: Tid, me: Thread, gen: nat, k: Then)
    requires SharedInv(sh) && ThreadInv(sh, t, me) && me.pc == ClaimLoad(gen, k)
    ensures ThreadInv(sh, t, me.(pc := ClaimTry(gen, k, 0, if sh.hi > sh.cap then sh.cap else sh.hi)))
  {
    hide Consistent, RetiredSince, Spared;
  }

  lemma {:induction false} KeepClaimLoadHi(s: State, s': State, t: Tid, me: Thread, gen: nat, k: Then)
    requires Inv(s) && ClaimLoadHi(s, s', t, me, gen, k)
    ensures Inv(s')
  {
    hide Inv, ThreadInv, SharedInv;
    Own(s, t);
    ClaimLoadHiThread(s.sh, t, me, gen, k);
    Local(s, t, s'.th[t]);
  }

  lemma {:induction false} PublishThread(sh: Shared, t: Tid, me: Thread, gen: nat, k: Then)
    requires SharedInv(sh) && ThreadInv(sh, t, me) && me.pc == Publish(gen, k) && 0 <= me.slot < |sh.pub|
    ensures ThreadInv(SetSlot(sh, me.slot, sh.pub[me.slot].(gen := gen)), t, me.(pc := Continue(k)))
  {
  }

  lemma {:induction false} KeepPublishStore(s: State, s': State, t: Tid, me: Thread, gen: nat, k: Then)
    requires Inv(s) && PublishStore(s, s', t, me, gen, k)
    ensures Inv(s')
  {
    hide Inv, ThreadInv, SharedInv;
    Facts(s, t);
    CapFits(s);
    PublishThread(s.sh, t, me, gen, k);
    SlotStep(s, t, s'.th[t], me.slot, s.sh.pub[me.slot].(gen := gen));
  }

  /** What the slot steps use of a thread's invariant. */
  lemma {:induction false} Facts(s: State, t: Tid)
    requires Inv(s) && t in s.th
    ensures SharedInv(s.sh) && ThreadInv(s.sh, t, s.th[t]) && t != 0
    ensures InClaim(s.th[t].pc) ==> s.th[t].pc.gen <= s.sh.asgen && !s.th[t].pc.k.ToWalk?
    ensures s.th[t].pc.ClaimTry? ==>
              0 <= s.th[t].pc.i <= s.th[t].pc.seen <= s.sh.cap && s.th[t].pc.seen <= s.sh.hi
    ensures 0 <= s.th[t].slot < |s.sh.pub| ==> s.sh.pub[s.th[t].slot].tid == t
  {
  }

  lemma {:induction false} TakeThread(sh: Shared, t: Tid, me: Thread, gen: nat, k: Then, i: int)
    requires SharedInv(sh) && ThreadInv(sh, t, me)
    requires me.pc.ClaimTry? || me.pc.ClaimCas?
    requires me.pc.gen == gen && me.pc.k == k && 0 <= i < |sh.pub| && sh.pub[i].tid == 0
    requires i < sh.cap && i < sh.hi
    ensures ThreadInv(SetSlot(sh, i, sh.pub[i].(tid := t)), t, me.(slot := i, pc := Claimed(gen, k)))
  {
    var sh' := SetSlot(sh, i, sh.pub[i].(tid := t));
    assert sh'.pub[i] == Slot(t, false, 0);
  }

  lemma {:induction false} ScanThread(sh: Shared, t: Tid, me: Thread, gen: nat, k: Then, i: int, seen: int)
    requires SharedInv(sh) && ThreadInv(sh, t, me) && me.pc == ClaimTry(gen, k, i, seen)
    ensures i >= seen ==> ThreadInv(sh, t, me.(pc := ClaimOver(gen, k)))
    ensures i >= seen ==> ThreadInv(sh, t, me.(pc := ClaimAdd(gen, k)))
    ensures i < seen ==> ThreadInv(sh, t, me.(pc := ClaimTry(gen, k, i + 1, seen)))
  {
    hide Consistent, RetiredSince, Spared;
  }

  lemma {:induction false} CapFits(s: State)
    requires Inv(s)
    ensures s.sh.cap <= |s.sh.pub|
    ensures forall i :: 0 <= i < |s.sh.pub| ==>
              s.sh.pub[i].gen <= s.sh.asgen && (s.sh.pub[i].tid == 0 ==> s.sh.pub[i] == Slot(0, false, 0))
  {
  }

  /** A free slot taken. */
  lemma {:induction false} KeepTake(s: State, t: Tid, me: Thread, gen: nat, k: Then, i: int)
    requires Inv(s) && t in s.th && s.th[t] == me && (me.pc.ClaimTry? || me.pc.ClaimCas?) && me.pc.gen == gen && me.pc.k == k
    requires 0 <= i < |s.sh.pub| && i < s.sh.cap && i < s.sh.hi && s.sh.pub[i].tid == 0
    ensures Inv(Both(s, t, me.(slot := i, pc := Claimed(gen, k)), SetSlot(s.sh, i, s.sh.pub[i].(tid := t))))
  {
    hide Inv, ThreadInv, SharedInv;
    Facts(s, t);
    CapFits(s);
    TakeThread(s.sh, t, me, gen, k, i);
    SlotStep(s, t, me.(slot := i, pc := Claimed(gen, k)), i, s.sh.pub[i].(tid := t));
  }

  lemma {:induction false} KeepClaimTrySlot(s: State, s': State, t: Tid, me: Thread, gen: nat, k: Then, i: int, seen: int)
    requires Inv(s) && ClaimTrySlot(s, s', t, me, gen, k, i, seen)
    ensures Inv(s')
  {
    hide Inv, ThreadInv, SharedInv;
    Facts(s, t);
    if i < seen && s.sh.pub[i].tid == 0 {
      KeepTake(s, t, me, gen, k, i);
    } else {
      KeepScan(s, s', t, me, gen, k, i, seen);
    }
  }

  lemma {:induction false} KeepScan(s: State, s': State, t: Tid, me: Thread, gen: nat, k: Then, i: int, seen: int)
    requires Inv(s) && ClaimTrySlot(s, s', t, me, gen, k, i, seen) && (i >= seen || s.sh.pub[i].tid != 0)
    ensures Inv(s')
  {
    hide Inv, ThreadInv, SharedInv, InClaim;
    Own(s, t);
    ScanThread(s.sh, t, me, gen, k, i, seen);
    Local(s, t, s'.th[t]);
  }

  lemma {:induction false} CasFacts(s: State, t: Tid, me: Thread, gen: nat, k: Then, i: int)
    requires Inv(s) && t in s.th && me == s.th[t] && me.pc == ClaimCas(gen, k, i)
    ensures 0 <= i < s.sh.cap && i < s.sh.hi && t != 0
    ensures ThreadInv(s.sh, t, me.(pc := ClaimLoad(gen, k)))
  {
    Own(s, t);
    hide Inv;
    CasThread(s.sh, t, me, gen, k, i);
    hide ThreadInv;
  }

  lemma {:induction false} CasThread(sh: Shared, t: Tid, me: Thread, gen: nat, k: Then, i: int)
    requires SharedInv(sh) && ThreadInv(sh, t, me) && me.pc == ClaimCas(gen, k, i)
    ensures 0 <= i < sh.cap && i < sh.hi && t != 0
    ensures ThreadInv(sh, t, me.(pc := ClaimLoad(gen, k)))
  {
    hide Consistent, RetiredSince, Spared;
  }

  lemma {:induction false} KeepClaimCasNew(s: State, s': State, t: Tid, me: Thread, gen: nat, k: Then, i: int)
    requires Inv(s) && ClaimCasNew(s, s', t, me, gen, k, i)
    ensures Inv(s')
  {
    hide Inv, ThreadInv, SharedInv;
    CasFacts(s, t, me, gen, k, i);
    if s.sh.pub[i].tid == 0 {
      KeepTake(s, t, me, gen, k, i);
    } else {
      Local(s, t, s'.th[t]);
    }
  }

  /** The high-water mark moves: up, or back down to no less than the cap. */
  lemma {:induction false} HiThread(sh: Shared, h: int, u: Tid, th: Thread)
    requires SharedInv(sh) && ThreadInv(sh, u, th) && (h >= sh.hi || h >= sh.cap)
    ensures ThreadInv(sh.(hi := h), u, th)
  {
    SameTable(sh, sh.(hi := h), u, th);
  }

  lemma {:induction false} AddThread(sh: Shared, t: Tid, me: Thread, gen: nat, k: Then)
    requires SharedInv(sh) && ThreadInv(sh, t, me) && me.pc == ClaimAdd(gen, k)
    ensures ThreadInv(sh.(hi := sh.hi + 1), t, me.(pc := ClaimUndo(gen, k)))
    ensures sh.hi < sh.cap ==> ThreadInv(sh.(hi := sh.hi + 1), t, me.(pc := ClaimCas(gen, k, sh.hi)))
  {
    HiThread(sh, sh.hi + 1, t, me);
  }

  lemma {:induction false} KeepClaimFetchAdd(s: State, s': State, t: Tid, me: Thread, gen: nat, k: Then)
    requires Inv(s) && ClaimFetchAdd(s, s', t, me, gen, k)
    ensures Inv(s')
  {
    hide ThreadInv, LockInv;
    Own(s, t);
    AddThread(s.sh, t, me, gen, k);
    forall u | u in s.th && u != t
      ensures ThreadInv(s'.sh, u, s.th[u])
    {
      Own(s, u);
      HiThread(s.sh, s.sh.hi + 1, u, s.th[u]);
    }
    Counts(s, t, s'.th[t], s'.sh);
    Assemble(s, t, s'.th[t], s'.sh);
  }

  lemma {:induction false} UndoThread(sh: Shared, t: Tid, me: Thread, gen: nat, k: Then)
    requires SharedInv(sh) && ThreadInv(sh, t, me) && me.pc == ClaimUndo(gen, k) && sh.hi - 1 >= sh.cap
    ensures ThreadInv(sh.(hi := sh.hi - 1), t, me.(pc := ClaimOver(gen, k)))
  {
    HiThread(sh, sh.hi - 1, t, me);
  }

  lemma {:induction false} KeepClaimUndoAdd(s: State, s': State, t: Tid, me: Thread, gen: nat, k: Then)
    requires Inv(s) && ClaimUndoAdd(s, s', t, me, gen, k)
    ensures Inv(s')
  {
    hide ThreadInv, LockInv;
    Own(s, t);
    assert t in UndoSet(s.th);
    UndoThread(s.sh, t, me, gen, k);
    forall u | u in s.th && u != t
      ensures ThreadInv(s'.sh, u, s.th[u])
    {
      Own(s, u);
      HiThread(s.sh, s.sh.hi - 1, u, s.th[u]);
    }
    Counts(s, t, s'.th[t], s'.sh);
    Assemble(s, t, s'.th[t], s'.sh);
  }

  lemma {:induction false} OverThread(sh: Shared, o: int, u: Tid, th: Thread)
    requires SharedInv(sh) && ThreadInv(sh, u, th)
    ensures ThreadInv(sh.(over := o), u, th)
  {
    SameTable(sh, sh.(over := o), u, th);
  }

  /** One thread joins or leaves the unregistered, and the count moves with it. */
  lemma {:induction false} OverStep(s: State, t: Tid, me: Thread)
    requires Inv(s) && t in s.th && ThreadInv(s.sh, t, me) && SameLock(s.sh, s.th[t], me)
    requires me.pc.ClaimUndo? == s.th[t].pc.ClaimUndo? && me.pc.Creating? == s.th[t].pc.Creating?
    ensures Inv(Both(s, t, me, if me.overSelf == s.th[t].overSelf then s.sh
                               else if me.overSelf then s.sh.(over := s.sh.over + 1)
                               else s.sh.(over := s.sh.over - 1)))
  {
    hide ThreadInv, LockInv, CountInv;
    var o := if me.overSelf == s.th[t].overSelf then s.sh.over
             else if me.overSelf then s.sh.over + 1 else s.sh.over - 1;
    OverThread(s.sh, o, t, me);
    forall u | u in s.th && u != t
      ensures ThreadInv(s.sh.(over := o), u, s.th[u])
    {
      Own(s, u);
      OverThread(s.sh, o, u, s.th[u]);
    }
    Counts(s, t, me, s.sh.(over := o));
    Assemble(s, t, me, s.sh.(over := o));
  }

  lemma {:induction false} GiveUpThread(sh: Shared, t: Tid, me: Thread, gen: nat, k: Then)
    requires SharedInv(sh) && ThreadInv(sh, t, me) && me.pc == ClaimOver(gen, k)
    ensures ThreadInv(sh, t, me.(overSelf := true, pc := Continue(k)))
    ensures !Continue(k).Locked?
  {
    hide Consistent, RetiredSince, Spared;
  }

  lemma {:induction false} KeepClaimGiveUp(s: State, s': State, t: Tid, me: Thread, gen: nat, k: Then)
    requires Inv(s) && ClaimGiveUp(s, s', t, me, gen, k)
    ensures Inv(s')
  {
    hide Inv, ThreadInv, SharedInv;
    Own(s, t);
    GiveUpThread(s.sh, t, me, gen, k);
    OverStep(s, t, s'.th[t]);
  }

  lemma {:induction false} FinishThread(sh: Shared, t: Tid, me: Thread, gen: nat, k: Then)
    requires SharedInv(sh) && ThreadInv(sh, t, me) && me.pc == Claimed(gen, k)
    ensures ThreadInv(sh, t, me.(overSelf := false, pc := Publish(gen, k)))
  {
    hide Consistent, RetiredSince, Spared;
  }

  lemma {:induction false} KeepClaimFinish(s: State, s': State, t: Tid, me: Thread, gen: nat, k: Then)
    requires Inv(s) && ClaimFinish(s, s', t, me, gen, k)
    ensures Inv(s')
  {
    hide Inv, ThreadInv, SharedInv;
    Own(s, t);
    FinishThread(s.sh, t, me, gen, k);
    OverStep(s, t, s'.th[t]);
  }

  // ------------------------------------------------------------ generated code

  lemma {:induction false} JitRegisterThread(sh: Shared, t: Tid, me: Thread)
    requires SharedInv(sh) && ThreadInv(sh, t, me) && me.pc.Idle? && !me.jit
    ensures ThreadInv(sh, t, me.(jit := true, synced := false, interrupt := false))
  {
    hide Consistent, RetiredSince, Spared;
  }

  lemma {:induction false} KeepJitRegister(s: State, s': State, t: Tid, me: Thread)
    requires Inv(s) && JitRegister(s, s', t, me)
    ensures Inv(s')
  {
    hide Inv, ThreadInv, SharedInv;
    Own(s, t);
    JitRegisterThread(s.sh, t, me);
    Local(s, t, s'.th[t]);
  }

  lemma {:induction false} JitDeregisterThread(sh: Shared, t: Tid, me: Thread)
    requires SharedInv(sh) && ThreadInv(sh, t, me) && me.pc.Idle? && !me.blk
    ensures ThreadInv(sh, t, me.(jit := false))
  {
    hide Consistent, RetiredSince, Spared;
  }

  lemma {:induction false} KeepJitDeregister(s: State, s': State, t: Tid, me: Thread)
    requires Inv(s) && JitDeregister(s, s', t, me)
    ensures Inv(s')
  {
    hide Inv, ThreadInv, SharedInv;
    Own(s, t);
    JitDeregisterThread(s.sh, t, me);
    Local(s, t, s'.th[t]);
  }

  /** Trusting a current data TLB is harmless: what it names is in the table, and
   so not retired, unless a mutation has it half done. */
  lemma {:induction false} TrustCurrent(sh: Shared, t: Tid, me: Thread)
    requires SharedInv(sh) && ThreadInv(sh, t, me)
    requires AllConsistent(sh, me) || (t in sh.pending && NoneFreed(sh, me))
    ensures forall i :: i in me.tlb ==> Spared(sh, me.slot, me.tlb[i].pte.alloc)
  {
    forall i | i in me.tlb
      ensures Spared(sh, me.slot, me.tlb[i].pte.alloc)
    {
      if !sh.drain.NoDrain? {
        assert Published(sh);
      }
    }
  }

  lemma {:induction false} BlockEnterThread(sh: Shared, t: Tid, me: Thread)
    requires SharedInv(sh) && ThreadInv(sh, t, me) && me.pc.Idle? && me.jit && me.synced && !me.interrupt
    ensures ThreadInv(sh, t, me.(blk := true))
  {
    TrustCurrent(sh, t, me);
  }

  lemma {:induction false} KeepBlockEnter(s: State, s': State, t: Tid, me: Thread)
    requires Inv(s) && BlockEnter(s, s', t, me)
    ensures Inv(s')
  {
    hide Inv, ThreadInv, SharedInv;
    Own(s, t);
    BlockEnterThread(s.sh, t, me);
    Local(s, t, s'.th[t]);
  }

  lemma {:induction false} BlockLeaveThread(sh: Shared, t: Tid, me: Thread)
    requires SharedInv(sh) && ThreadInv(sh, t, me) && me.pc.Idle?
    ensures ThreadInv(sh, t, me.(blk := false, ptr := None, kept := None))
  {
    hide Consistent, RetiredSince, Spared;
  }

  lemma {:induction false} KeepBlockLeave(s: State, s': State, t: Tid, me: Thread)
    requires Inv(s) && BlockLeave(s, s', t, me)
    ensures Inv(s')
  {
    hide Inv, ThreadInv, SharedInv;
    Own(s, t);
    BlockLeaveThread(s.sh, t, me);
    Local(s, t, s'.th[t]);
  }

  lemma {:induction false} ServiceBeginThread(sh: Shared, t: Tid, me: Thread)
    requires SharedInv(sh) && ThreadInv(sh, t, me) && me.pc.Idle? && !me.blk
    ensures ThreadInv(sh, t, me.(interrupt := false, synced := false, ptr := None, kept := None, pc := ServiceLoad))
  {
    hide Consistent, RetiredSince, Spared;
  }

  lemma {:induction false} KeepServiceBegin(s: State, s': State, t: Tid, me: Thread)
    requires Inv(s) && ServiceBegin(s, s', t, me)
    ensures Inv(s')
  {
    hide Inv, ThreadInv, SharedInv;
    Own(s, t);
    ServiceBeginThread(s.sh, t, me);
    Local(s, t, s'.th[t]);
  }

  lemma {:induction false} ServiceLoadGenThread(sh: Shared, t: Tid, me: Thread)
    requires SharedInv(sh) && ThreadInv(sh, t, me) && (me.pc.ServiceLoad? || (me.pc.Idle? && !me.blk))
    ensures ThreadInv(sh, t, me.(ptr := None, kept := None, pc := ServiceFlush(sh.asgen)))
  {
    hide Consistent, RetiredSince, Spared;
  }

  lemma {:induction false} KeepServiceLoadGen(s: State, s': State, t: Tid, me: Thread)
    requires Inv(s) && ServiceLoadGen(s, s', t, me)
    ensures Inv(s')
  {
    hide Inv, ThreadInv, SharedInv;
    Own(s, t);
    ServiceLoadGenThread(s.sh, t, me);
    Local(s, t, s'.th[t]);
  }

  lemma {:induction false} ServiceEmptyThread(sh: Shared, t: Tid, me: Thread, gen: nat)
    requires SharedInv(sh) && ThreadInv(sh, t, me) && me.pc == ServiceFlush(gen)
    ensures ThreadInv(sh, t, me.(tlb := map[], dgen := gen, fetch := None, synced := true, pc := Publish(gen, ToIdle)))
  {
  }

  lemma {:induction false} KeepServiceEmpty(s: State, s': State, t: Tid, me: Thread, gen: nat)
    requires Inv(s) && ServiceEmpty(s, s', t, me, gen)
    ensures Inv(s')
  {
    hide Inv, ThreadInv, SharedInv;
    Own(s, t);
    ServiceEmptyThread(s.sh, t, me, gen);
    Local(s, t, s'.th[t]);
  }

  // ------------------------------------------------------------ parking, entering, leaving

  lemma {:induction false} ParkBeginThread(sh: Shared, t: Tid, me: Thread)
    requires SharedInv(sh) && ThreadInv(sh, t, me) && me.pc.Idle? && !me.blk
    ensures ThreadInv(sh, t, 
      me.(ptr := None, kept := None, guarded := false, pc := if me.slot < 0 then Publish(me.dgen, ToBlock) else SetBlocked))
  {
    hide Consistent, RetiredSince, Spared;
  }

  lemma {:induction false} KeepParkBegin(s: State, s': State, t: Tid, me: Thread)
    requires Inv(s) && ParkBegin(s, s', t, me)
    ensures Inv(s')
  {
    hide Inv, ThreadInv, SharedInv;
    Own(s, t);
    ParkBeginThread(s.sh, t, me);
    Local(s, t, s'.th[t]);
  }

  lemma {:induction false} FlagThread(sh: Shared, t: Tid, me: Thread, b: bool, k: Option<Entry>)
    requires SharedInv(sh) && ThreadInv(sh, t, me) && !me.blk && (me.pc.SetBlocked? || (me.pc.Idle? && !b))
    requires k.None? || (me.pc.SetBlocked? && k == me.kept)
    ensures me.slot < 0 ==> ThreadInv(sh, t, me.(pc := Idle, ptr := None, kept := k))
    ensures 0 <= me.slot < |sh.pub| ==>
              ThreadInv(SetSlot(sh, me.slot, sh.pub[me.slot].(blocked := b)), t, me.(pc := Idle, ptr := None, kept := k))
  {
    hide Consistent;
    if 0 <= me.slot < |sh.pub| {
      var sh', me' := SetSlot(sh, me.slot, sh.pub[me.slot].(blocked := b)), me.(pc := Idle, ptr := None, kept := k);
      SameCache(sh, sh', t, me);
      SameHeld(sh, sh', me', me.dgen);
      SameHeld(sh, sh', me', PubGen(sh, me));
      assert forall a :: Spared(sh', me.slot, a) == Spared(sh, me.slot, a);
      hide RetiredSince, Spared;
    }
  }

  lemma {:induction false} Parked(s: State, s': State, t: Tid, me: Thread, b: bool, k: Option<Entry>)
    requires Inv(s) && t in s.th && me == s.th[t] && me.slot < |s.sh.pub|
    requires !me.blk && (me.pc.SetBlocked? || (me.pc.Idle? && !b))
    requires k.None? || (me.pc.SetBlocked? && k == me.kept)
    requires s' == Both(s, t, me.(pc := Idle, ptr := None, kept := k),
                        if me.slot < 0 then s.sh
                        else SetSlot(s.sh, me.slot, s.sh.pub[me.slot].(blocked := b)))
    ensures Inv(s')
  {
    hide Inv, ThreadInv, SharedInv;
    Facts(s, t);
    CapFits(s);
    FlagThread(s.sh, t, me, b, k);
    if me.slot < 0 {
      Local(s, t, s'.th[t]);
    } else {
      SlotStep(s, t, s'.th[t], me.slot, s.sh.pub[me.slot].(blocked := b));
    }
  }

  lemma {:induction false} NotInBlock(s: State, t: Tid)
    requires Inv(s) && t in s.th && s.th[t].pc.SetBlocked?
    ensures !s.th[t].blk && s.th[t].ptr.None?
  {
    assert ThreadInv(s.sh, t, s.th[t]);
  }

  lemma {:induction false} KeepParkFlag(s: State, s': State, t: Tid, me: Thread)
    requires Inv(s) && ParkFlag(s, s', t, me)
    ensures Inv(s')
  {
    NotInBlock(s, t);
    Parked(s, s', t, me, true, me.kept);
  }

  lemma {:induction false} KeepParkEnd(s: State, s': State, t: Tid, me: Thread)
    requires Inv(s) && ParkEnd(s, s', t, me)
    ensures Inv(s')
  {
    assert me.(pc := Idle) == me;
    Parked(s, s', t, me, false, None);
  }

  lemma {:induction false} NThreads(sh: Shared, n: int, u: Tid, th: Thread)
    requires SharedInv(sh) && ThreadInv(sh, u, th)
    ensures ThreadInv(sh.(nthreads := n), u, th)
  {
    SameTable(sh, sh.(nthreads := n), u, th);
  }

  lemma {:induction false} CreatingThread(sh: Shared, t: Tid, me: Thread, pc: Pc)
    requires SharedInv(sh) && ThreadInv(sh, t, me) && (me.pc.Idle? || me.pc.Creating?) && (pc.Idle? || pc.Creating?)
    ensures ThreadInv(sh, t, me.(pc := pc))
  {
    hide Consistent, RetiredSince, Spared;
  }

  lemma {:induction false} KeepCreateCount(s: State, s': State, t: Tid, me: Thread)
    requires Inv(s) && CreateCount(s, s', t, me)
    ensures Inv(s')
  {
    hide ThreadInv;
    Own(s, t);
    CreatingThread(s.sh, t, me, s'.th[t].pc);
    CountThreads(s, s', t, me.(pc := Creating));
  }

  /** A creator counts the thread it is about to start, or takes it back. */
  lemma {:induction false} CountThreads(s: State, s': State, t: Tid, me: Thread)
    requires Inv(s) && t in s.th && me == s.th[t].(pc := me.pc)
    requires s' == Both(s, t, me, s.sh.(nthreads := s.sh.nthreads - Bit(s.th[t].pc.Creating?) + Bit(me.pc.Creating?)))
    requires !me.pc.ClaimUndo? && !s.th[t].pc.ClaimUndo? && !me.pc.Locked? && !s.th[t].pc.Locked?
    requires ThreadInv(s.sh, t, me)
    ensures Inv(s')
  {
    hide ThreadInv, LockInv;
    NThreads(s.sh, s'.sh.nthreads, t, me);
    forall u | u in s.th && u != t
      ensures ThreadInv(s'.sh, u, s.th[u])
    {
      Own(s, u);
      NThreads(s.sh, s'.sh.nthreads, u, s.th[u]);
    }
    Counts(s, t, me, s'.sh);
    Assemble(s, t, me, s'.sh);
  }

  lemma {:induction false} FreshThread(sh: Shared, t: Tid)
    requires SharedInv(sh) && t != 0
    ensures ThreadInv(sh, t, Fresh)
  {
  }

  lemma {:induction false} KeepCreateSpawn(s: State, s': State, t: Tid, me: Thread, child: Tid)
    requires Inv(s) && CreateSpawn(s, s', t, me, child)
    ensures Inv(s')
  {
    hide ThreadInv;
    Own(s, t);
    CreatingThread(s.sh, t, me, s'.th[t].pc);
    FreshThread(s.sh, child);
    SpawnCounts(s.th, t, me.(pc := Idle), child);
    assert CountInv(s');
    SpawnLock(s, s', t, me, child);
    hide CountInv, LockInv, SharedInv;
  }

  lemma {:induction false} SpawnLock(s: State, s': State, t: Tid, me: Thread, child: Tid)
    requires LockInv(s) && CreateSpawn(s, s', t, me, child)
    ensures LockInv(s')
  {
  }

  lemma {:induction false} SpawnCounts(th: map<Tid, Thread>, t: Tid, me: Thread, child: Tid)
    requires t in th && child !in th && th[t].pc.Creating? && me == th[t].(pc := Idle)
    ensures var th' := th[t := me][child := Fresh];
            |OverSet(th')| == |OverSet(th)| && |UndoSet(th')| == |UndoSet(th)|
            && |CreatingSet(th')| + |th'.Keys| == |CreatingSet(th)| + |th.Keys|
  {
    var th1 := th[t := me];
    var th' := th1[child := Fresh];
    OverCount(th, t, me);
    UndoCount(th, t, me);
    CreatingCount(th, t, me);
    assert OverSet(th') == OverSet(th1) && UndoSet(th') == UndoSet(th1) && CreatingSet(th') == CreatingSet(th1);
    assert th'.Keys == th.Keys + {child};
  }

  lemma {:induction false} KeepCreateUndo(s: State, s': State, t: Tid, me: Thread)
    requires Inv(s) && CreateUndo(s, s', t, me)
    ensures Inv(s')
  {
    hide ThreadInv;
    Own(s, t);
    CreatingThread(s.sh, t, me, s'.th[t].pc);
    CountThreads(s, s', t, me.(pc := Idle));
  }

  lemma {:induction false} LeaveThread(sh: Shared, t: Tid, me: Thread)
    requires SharedInv(sh) && ThreadInv(sh, t, me) && me.pc.Idle? && !me.blk && !me.jit
    ensures ThreadInv(sh, t, me.(overSelf := false, dgen := 0, tlb := map[], ptr := None, kept := None, fetch := None,
                                 pc := if me.slot < 0 then ExitCount else ExitBlocked))
  {
  }

  lemma {:induction false} KeepExitBegin(s: State, s': State, t: Tid, me: Thread)
    requires Inv(s) && ExitBegin(s, s', t, me)
    ensures Inv(s')
  {
    hide Inv, ThreadInv, SharedInv;
    Own(s, t);
    LeaveThread(s.sh, t, me);
    OverStep(s, t, s'.th[t]);
  }

  lemma {:induction false} ExitThread(sh: Shared, t: Tid, me: Thread)
    requires SharedInv(sh) && ThreadInv(sh, t, me) && 0 <= me.slot < |sh.pub|
    ensures me.pc.ExitBlocked? ==>
              ThreadInv(SetSlot(sh, me.slot, sh.pub[me.slot].(blocked := false)), t, me.(pc := ExitGen))
    ensures me.pc.ExitGen? ==>
              ThreadInv(SetSlot(sh, me.slot, sh.pub[me.slot].(gen := 0)), t, me.(pc := ExitTid))
    ensures me.pc.ExitTid? ==>
              ThreadInv(SetSlot(sh, me.slot, sh.pub[me.slot].(tid := 0)), t, me.(slot := -1, pc := ExitCount))
  {
  }

  lemma {:induction false} KeepExitClear(s: State, s': State, t: Tid, me: Thread)
    requires Inv(s) && (ExitClearBlocked(s, s', t, me) || ExitClearGen(s, s', t, me))
    ensures Inv(s')
  {
    hide Inv, ThreadInv, SharedInv;
    Facts(s, t);
    CapFits(s);
    ExitThread(s.sh, t, me);
    SlotStep(s, t, s'.th[t], me.slot, s'.sh.pub[me.slot]);
  }

  lemma {:induction false} LastSlot(s: State, t: Tid, me: Thread)
    requires Inv(s) && t in s.th && me == s.th[t] && me.pc.ExitTid? && 0 <= me.slot < |s.sh.pub|
    ensures s.sh.pub[me.slot] == Slot(t, false, 0)
  {
    assert ThreadInv(s.sh, t, me);
  }

  lemma {:induction false} KeepExitClearTid(s: State, s': State, t: Tid, me: Thread)
    requires Inv(s) && ExitClearTid(s, s', t, me)
    ensures Inv(s')
  {
    hide ThreadInv;
    Own(s, t);
    LastSlot(s, t, me);
    ExitThread(s.sh, t, me);
    SlotStep(s, t, s'.th[t], me.slot, s'.sh.pub[me.slot]);
  }

  lemma {:induction false} GoneCounts(th: map<Tid, Thread>, t: Tid)
    requires t in th && !th[t].overSelf && th[t].pc.ExitCount?
    ensures var th' := th - {t};
            OverSet(th') == OverSet(th) && UndoSet(th') == UndoSet(th) && CreatingSet(th') == CreatingSet(th)
            && |th'.Keys| == |th.Keys| - 1
  {
    assert (th - {t}).Keys == th.Keys - {t};
  }

  lemma {:induction false} LeaverFacts(s: State, t: Tid)
    requires Inv(s) && t in s.th && s.th[t].pc.ExitCount?
    ensures !s.th[t].overSelf && !s.th[t].jit
  {
    assert ThreadInv(s.sh, t, s.th[t]);
  }

  lemma {:induction false} FewerThreads(sh: Shared, n: int)
    requires SharedInv(sh)
    ensures SharedInv(sh.(nthreads := n))
  {
  }

  lemma {:induction false} GoneThreads(s: State, t: Tid, n: int)
    requires Inv(s) && t in s.th
    ensures forall u :: u in s.th && u != t ==> ThreadInv(s.sh.(nthreads := n), u, s.th[u])
  {
    hide ThreadInv, SharedInv, CountInv, LockInv;
    forall u | u in s.th && u != t
      ensures ThreadInv(s.sh.(nthreads := n), u, s.th[u])
    {
      Own(s, u);
      NThreads(s.sh, n, u, s.th[u]);
    }
  }

  lemma {:induction false} GoneLock(s: State, s': State, t: Tid)
    requires LockInv(s) && t in s.th && s.th[t].pc.ExitCount? && !s.th[t].jit
    requires s' == State(s.sh.(nthreads := s.sh.nthreads - 1), s.th - {t})
    ensures LockInv(s')
  {
  }

  lemma {:induction false} KeepExitDone(s: State, s': State, t: Tid, me: Thread)
    requires Inv(s) && ExitDone(s, s', t, me)
    ensures Inv(s')
  {
    hide ThreadInv, SharedInv, LockInv;
    LeaverFacts(s, t);
    GoneCounts(s.th, t);
    GoneLock(s, s', t);
    FewerThreads(s.sh, s'.sh.nthreads);
    GoneThreads(s, t, s'.sh.nthreads);
  }
}
