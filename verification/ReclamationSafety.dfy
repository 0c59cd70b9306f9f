/**
 The steps taken under the address-space lock, and the theorems: over every run
 of the epoch protocol nothing an unblocked thread can dereference is released,
 and a current data TLB agrees with the page table.
 */
module ReclamationSafety {
  import opened Options
  import opened Reclamation
  import opened ReclamationProofs

  // ------------------------------------------------------------ taking and leaving the lock

  lemma {:induction false} LockThread(sh: Shared, o: Option<Tid>, u: Tid, th: Thread)
    requires ThreadInv(sh, u, th)
    ensures ThreadInv(sh.(lock := o), u, th)
  {
    SameTable(sh, sh.(lock := o), u, th);
  }

  lemma {:induction false} EnterLock(sh: Shared, t: Tid, me: Thread, pc: Pc)
    requires SharedInv(sh) && ThreadInv(sh, t, me)
    requires (me.pc.Idle? && !me.blk && pc == Locked(ToIdle)) || (me.pc.Walk? && pc == Locked(ToWalk(me.pc.page)))
    ensures ThreadInv(sh, t, me.(ptr := None, kept := if me.pc.Idle? then None else me.kept,
                                 guarded := me.guarded && !me.pc.Idle?, pc := pc))
  {
    hide Consistent, RetiredSince, Spared;
  }

  lemma {:induction false} LockTaken(s: State, s': State, t: Tid, me: Thread)
    requires Inv(s) && t in s.th && s.sh.lock.None? && s' == Both(s, t, me, s.sh.(lock := Some(t)))
    requires me.pc.Locked? && ThreadInv(s.sh, t, me)
    requires me == s.th[t].(ptr := None, kept := me.kept, guarded := me.guarded, pc := me.pc)
    requires s.th[t].pc.Idle? || s.th[t].pc.Walk?
    ensures Inv(s')
  {
    hide ThreadInv;
    forall u | u in s'.th
      ensures ThreadInv(s'.sh, u, s'.th[u])
    {
      Own(s, u);
      LockThread(s.sh, Some(t), u, s'.th[u]);
    }
    Counts(s, t, me, s'.sh);
  }

  lemma {:induction false} WalkHoldsNoPointer(s: State, t: Tid)
    requires Inv(s) && t in s.th && s.th[t].pc.Walk?
    ensures s.th[t].ptr.None?
  {
    assert ThreadInv(s.sh, t, s.th[t]);
  }

  lemma {:induction false} KeepLocks(s: State, s': State, t: Tid, me: Thread, page: nat)
    requires Inv(s) && (LockForSyscall(s, s', t, me) || LockForWalk(s, s', t, me, page))
    ensures Inv(s')
  {
    hide ThreadInv;
    Own(s, t);
    if me.pc.Walk? {
      WalkHoldsNoPointer(s, t);
    }
    EnterLock(s.sh, t, me, s'.th[t].pc);
    LockTaken(s, s', t, s'.th[t]);
  }

  lemma {:induction false} LeaveLock(sh: Shared, t: Tid, me: Thread)
    requires SharedInv(sh) && ThreadInv(sh, t, me) && me.pc.Locked?
    ensures ThreadInv(sh, t, me.(pc := if me.fill.Some? then Fill else Continue(me.pc.k)))
    ensures me.pc.k.ToIdle? || me.pc.k.ToWalk?
  {
    hide Consistent, RetiredSince, Spared;
  }

  lemma {:induction false} KeepUnlock(s: State, s': State, t: Tid, me: Thread)
    requires Inv(s) && Unlock(s, s', t, me)
    ensures Inv(s')
  {
    hide ThreadInv;
    Own(s, t);
    LeaveLock(s.sh, t, me);
    forall u | u in s'.th
      ensures ThreadInv(s'.sh, u, s'.th[u])
    {
      Own(s, u);
      LockThread(s.sh, None, u, s'.th[u]);
    }
    Counts(s, t, s'.th[t], s'.sh);
  }

  // ------------------------------------------------------------ mutations

  /** Steps of the owner that leave every thread as it is. */
  lemma {:induction false} SharedStep(s: State, sh: Shared)
    requires Inv(s) && SharedInv(sh)
    requires sh.over == s.sh.over && sh.nthreads == s.sh.nthreads && sh.hi == s.sh.hi && sh.cap == s.sh.cap
    requires sh.lock == s.sh.lock && (forall u :: u in sh.pending ==> u in s.th && s.th[u].jit)
    requires sh.drain.NoDrain? || (s.sh.lock.Some? && s.th[s.sh.lock.value].pc.k.ToIdle?)
    requires forall u :: u in s.th ==> ThreadInv(sh, u, s.th[u])
    ensures Inv(s.(sh := sh))
  {
    hide ThreadInv, SharedInv;
  }

  lemma {:induction false} PtSetEntry(sh: Shared, page: nat, val: Option<Pte>, e: Entry)
    requires SharedInv(sh) && Consistent(sh, e)
    ensures Consistent(SetEntry(sh, page, val), e)
  {
  }

  lemma {:induction false} PtSetThread(sh: Shared, page: nat, val: Option<Pte>, u: Tid, th: Thread)
    requires SharedInv(sh) && ThreadInv(sh, u, th)
    ensures ThreadInv(SetEntry(sh, page, val), u, th)
  {
    var sh' := SetEntry(sh, page, val);
    if AllConsistent(sh, th) {
      forall i | i in th.tlb
        ensures Consistent(sh', th.tlb[i])
      {
        PtSetEntry(sh, page, val, th.tlb[i]);
      }
      if th.fill.Some? {
        PtSetEntry(sh, page, val, th.fill.value);
      }
      assert AllConsistent(sh', th);
    }
    hide Consistent, Extends, Narrows;
    PtOnly(sh, sh', u, th);
  }

  /** Every fact but the agreement with the table ignores the table. */
  lemma {:induction false} PtOnly(sh: Shared, sh': Shared, u: Tid, th: Thread)
    requires ThreadInv(sh, u, th) && sh' == sh.(pt := sh'.pt, dirty := sh'.dirty, stale := sh'.stale)
    requires AllConsistent(sh, th) ==> AllConsistent(sh', th)
    ensures ThreadInv(sh', u, th)
  {
    hide AllConsistent;
  }

  lemma {:induction false} KeepPtSet(s: State, s': State, t: Tid, page: nat, val: Option<Pte>)
    requires Inv(s) && PtSet(s, s', t, page, val)
    ensures Inv(s')
  {
    hide ThreadInv;
    forall u | u in s.th
      ensures ThreadInv(s'.sh, u, s.th[u])
    {
      Own(s, u);
      PtSetThread(s.sh, page, val, u, s.th[u]);
    }
    SharedStep(s, s'.sh);
  }

  lemma {:induction false} RetireThread(sh: Shared, a: nat, u: Tid, th: Thread)
    requires SharedInv(sh) && ThreadInv(sh, u, th) && sh.drain.NoDrain? && a !in sh.retiredAt
    ensures ThreadInv(sh.(retiredAt := sh.retiredAt[a := sh.asgen]), u, th)
  {
    var sh' := sh.(retiredAt := sh.retiredAt[a := sh.asgen]);
    RetireHeld(sh, sh', a, th, th.dgen);
    RetireHeld(sh, sh', a, th, PubGen(sh, th));
    if InClaim(th.pc) {
      RetireHeld(sh, sh', a, th, th.pc.gen);
    }
    hide HeldSince;
  }

  lemma {:induction false} RetireHeld(sh: Shared, sh': Shared, a: nat, th: Thread, gen: nat)
    requires sh' == sh.(retiredAt := sh.retiredAt[a := sh.asgen]) && gen <= sh.asgen && HeldSince(sh, th, gen)
    ensures HeldSince(sh', th, gen)
  {
    assert forall x :: RetiredSince(sh, x, gen) ==> RetiredSince(sh', x, gen);
  }

  lemma {:induction false} KeepRetire(s: State, s': State, t: Tid, a: nat)
    requires Inv(s) && Retire(s, s', t, a)
    ensures Inv(s')
  {
    hide ThreadInv;
    forall u | u in s.th
      ensures ThreadInv(s'.sh, u, s.th[u])
    {
      Own(s, u);
      RetireThread(s.sh, a, u, s.th[u]);
    }
    SharedStep(s, s'.sh);
  }

  lemma {:induction false} BumpThread(sh: Shared, pend: set<Tid>, u: Tid, th: Thread)
    requires SharedInv(sh) && ThreadInv(sh, u, th) && sh.pending == {} && (th.jit ==> u in pend)
    ensures ThreadInv(sh.(asgen := sh.asgen + 1, dirty := {}, stale := {}, pending := pend), u, th)
  {
    var sh' := sh.(asgen := sh.asgen + 1, dirty := {}, stale := {}, pending := pend);
    SameReach(sh, sh', th);
    SameHeld(sh, sh', th, th.dgen);
    SameHeld(sh, sh', th, PubGen(sh, th));
    if InClaim(th.pc) { SameHeld(sh, sh', th, th.pc.gen); }
    BumpCache(sh, sh', u, th);
    hide HeldSince, SafeInv, CacheInv;
  }

  lemma {:induction false} BumpCache(sh: Shared, sh': Shared, u: Tid, th: Thread)
    requires SharedInv(sh) && CacheInv(sh, u, th) && th.dgen <= sh.asgen && sh.pending == {} && (th.jit ==> u in sh'.pending)
    requires sh' == sh.(asgen := sh.asgen + 1, dirty := {}, stale := {}, pending := sh'.pending)
    ensures CacheInv(sh', u, th)
  {
  }

  lemma {:induction false} KeepBump(s: State, s': State, t: Tid)
    requires Inv(s) && Bump(s, s', t)
    ensures Inv(s')
  {
    hide ThreadInv;
    forall u | u in s.th
      ensures ThreadInv(s'.sh, u, s.th[u])
    {
      Own(s, u);
      BumpThread(s.sh, JitThreads(s.th), u, s.th[u]);
    }
    SharedStep(s, s'.sh);
  }

  lemma {:induction false} NotifyOther(sh: Shared, v: Tid, u: Tid, th: Thread)
    requires SharedInv(sh) && ThreadInv(sh, u, th) && u != v
    ensures ThreadInv(sh.(pending := sh.pending - {v}), u, th)
  {
    var sh' := sh.(pending := sh.pending - {v});
    SameCache(sh, sh', u, th);
    Unread(sh, sh', u, th);
  }

  /** Every fact but that of the caches ignores who has been interrupted. */
  lemma {:induction false} Unread(sh: Shared, sh': Shared, u: Tid, th: Thread)
    requires ThreadInv(sh, u, th) && CacheInv(sh', u, th) && sh' == sh.(pending := sh'.pending)
    ensures ThreadInv(sh', u, th)
  {
    hide CacheInv;
    SameReach(sh, sh', th);
    SameHeld(sh, sh', th, th.dgen);
    SameHeld(sh, sh', th, PubGen(sh, th));
    if InClaim(th.pc) { SameHeld(sh, sh', th, th.pc.gen); }
    hide HeldSince, SafeInv;
  }

  lemma {:induction false} Interrupted(sh: Shared, u: Tid, th: Thread)
    requires ThreadInv(sh, u, th)
    ensures ThreadInv(sh, u, th.(interrupt := true))
  {
    hide Consistent, RetiredSince, Spared;
  }

  lemma {:induction false} NotifySelf(sh: Shared, u: Tid, th: Thread)
    requires ThreadInv(sh, u, th) && th.interrupt
    ensures ThreadInv(sh.(pending := sh.pending - {u}), u, th)
  {
    var sh' := sh.(pending := sh.pending - {u});
    assert CacheInv(sh', u, th) by { assert forall e :: Consistent(sh', e) == Consistent(sh, e); }
    Unread(sh, sh', u, th);
  }

  lemma {:induction false} KeepNotify(s: State, s': State, t: Tid, v: Tid)
    requires Inv(s) && Notify(s, s', t, v)
    ensures Inv(s')
  {
    hide ThreadInv, CountInv;
    forall u | u in s'.th
      ensures ThreadInv(s'.sh, u, s'.th[u])
    {
      Own(s, u);
      if u == v { Interrupted(s.sh, u, s.th[u]); NotifySelf(s.sh, u, s'.th[u]); } else { NotifyOther(s.sh, v, u, s.th[u]); }
    }
    Counts(s, v, s'.th[v], s'.sh);
  }

  lemma {:induction false} ReadThread(sh: Shared, t: Tid, me: Thread, page: nat)
    requires SharedInv(sh) && ThreadInv(sh, t, me) && me.pc == Locked(ToWalk(page))
    requires sh.drain.NoDrain? && Published(sh) && page in sh.pt
    ensures ThreadInv(sh, t, me.(fill := Some(Entry(page, sh.pt[page]))))
  {
  }

  lemma {:induction false} KeepLockedRead(s: State, s': State, t: Tid, me: Thread, page: nat)
    requires Inv(s) && LockedRead(s, s', t, me, page)
    ensures Inv(s')
  {
    hide ThreadInv;
    Own(s, t);
    ReadThread(s.sh, t, me, page);
    Local(s, t, s'.th[t]);
  }

  // ------------------------------------------------------------ the drain

  lemma {:induction false} DrainThread(sh: Shared, d: Drain, u: Tid, th: Thread)
    requires ThreadInv(sh, u, th) && SafeInv(sh.(drain := d), th)
    ensures ThreadInv(sh.(drain := d), u, th)
  {
    hide SafeInv;
  }

  /** A drain step moves the drain's own cursor and nothing else. */
  lemma {:induction false} DrainMoves(s: State, d: Drain, t: Tid)
    requires Inv(s) && Owns(s, t) && s.th[t].pc.k.ToIdle? && Published(s.sh)
    requires forall u :: u in s.th ==> SafeInv(s.sh.(drain := d), s.th[u])
    ensures Inv(s.(sh := s.sh.(drain := d)))
  {
    hide ThreadInv, SafeInv;
    forall u | u in s.th
      ensures ThreadInv(s.sh.(drain := d), u, s.th[u])
    {
      Own(s, u);
      DrainThread(s.sh, d, u, s.th[u]);
    }
    SharedStep(s, s.sh.(drain := d));
  }

  /** If every allocation is spared for the same reason, so is what is reached. */
  lemma {:induction false} Moves(sh: Shared, d: Drain, u: Tid, th: Thread)
    requires ThreadInv(sh, u, th)
    requires forall g :: !HoldsNothing(th) && Unblocked(sh, th) && PubGen(sh, th) <= g && DrainOk(sh.drain, th.slot, g)
                         ==> DrainOk(d, th.slot, g)
    ensures SafeInv(sh.(drain := d), th)
  {
    hide DrainOk;
    var sh' := sh.(drain := d);
    if Unblocked(sh, th) {
      if th.ptr.Some? {
        assert RetiredSince(sh, th.ptr.value.pte.alloc, PubGen(sh, th));
      }
      if Keeps(th) {
        assert RetiredSince(sh, th.kept.value.pte.alloc, PubGen(sh, th));
      }
      if th.fill.Some? {
        assert RetiredSince(sh, th.fill.value.pte.alloc, PubGen(sh, th));
      }
      if Guards(th) {
        assert RetiredSince(sh, th.fetch.value.pte.alloc, PubGen(sh, th));
      }
      if TrustsTlb(th) {
        forall i | i in th.tlb
          ensures Spared(sh', th.slot, th.tlb[i].pte.alloc)
        {
          assert Spared(sh, th.slot, th.tlb[i].pte.alloc) && RetiredSince(sh, th.tlb[i].pte.alloc, PubGen(sh, th));
        }
      }
    }
  }

  lemma {:induction false} DrainerIdle(s: State, t: Tid)
    requires Inv(s) && Owns(s, t) && !s.sh.drain.NoDrain?
    ensures s.th[t].pc.k.ToIdle? && Published(s.sh)
  {
  }

  lemma {:induction false} KeepDrainBegin(s: State, s': State, t: Tid)
    requires Inv(s) && (DrainBegin(s, s', t) || DrainEnd(s, s', t))
    ensures Inv(s')
  {
    hide ThreadInv, SafeInv;
    if DrainEnd(s, s', t) {
      DrainerIdle(s, t);
    }
    forall u | u in s.th
      ensures SafeInv(s'.sh, s.th[u])
    {
      Own(s, u);
      Moves(s.sh, s'.sh.drain, u, s.th[u]);
    }
    DrainMoves(s, s'.sh.drain, t);
  }

  /** With one guest thread counted, the drainer is the only thread there is. */
  lemma {:induction false} Alone(s: State, t: Tid, u: Tid)
    requires CountInv(s) && s.sh.nthreads == 1 && t in s.th && u in s.th
    ensures u == t
  {
    var others := s.th.Keys - {t};
    assert |others| == |s.th.Keys| - 1;
  }

  lemma {:induction false} DrainerReachesNothing(sh: Shared, t: Tid, me: Thread, d: Drain)
    requires ThreadInv(sh, t, me) && me.pc == Locked(ToIdle)
    ensures SafeInv(sh.(drain := d), me)
  {
  }

  lemma {:induction false} KeepDrainThreads(s: State, s': State, t: Tid)
    requires Inv(s) && DrainThreads(s, s', t)
    ensures Inv(s')
  {
    hide ThreadInv, SafeInv;
    DrainerIdle(s, t);
    forall u | u in s.th
      ensures SafeInv(s'.sh, s.th[u])
    {
      Own(s, u);
      if s.sh.nthreads == 1 {
        Alone(s, t, u);
        DrainerReachesNothing(s.sh, t, s.th[t], s'.sh.drain);
      } else {
        Moves(s.sh, s'.sh.drain, u, s.th[u]);
      }
    }
    DrainMoves(s, s'.sh.drain, t);
  }

  lemma {:induction false} HolderRegistered(sh: Shared, u: Tid, th: Thread)
    requires ThreadInv(sh, u, th)
    ensures HoldsNothing(th) || Registered(th)
    ensures th.slot >= 0 ==> th.slot < sh.hi && th.slot < |sh.pub| && sh.pub[th.slot].tid == u && u != 0
  {
  }

  lemma {:induction false} KeepDrainOver(s: State, s': State, t: Tid)
    requires Inv(s) && DrainOver(s, s', t)
    ensures Inv(s')
  {
    hide ThreadInv, SafeInv;
    DrainerIdle(s, t);
    forall u | u in s.th
      ensures SafeInv(s'.sh, s.th[u])
    {
      Own(s, u);
      HolderRegistered(s.sh, u, s.th[u]);
      if s.sh.over == 0 {
        assert u !in OverSet(s.th);
      }
      Moves(s.sh, s'.sh.drain, u, s.th[u]);
    }
    DrainMoves(s, s'.sh.drain, t);
  }

  lemma {:induction false} KeepDrainHi(s: State, s': State, t: Tid)
    requires Inv(s) && DrainHi(s, s', t)
    ensures Inv(s')
  {
    hide ThreadInv, SafeInv;
    DrainerIdle(s, t);
    forall u | u in s.th
      ensures SafeInv(s'.sh, s.th[u])
    {
      Own(s, u);
      HolderRegistered(s.sh, u, s.th[u]);
      Moves(s.sh, s'.sh.drain, u, s.th[u]);
    }
    DrainMoves(s, s'.sh.drain, t);
  }

  lemma {:induction false} KeepDrainScan(s: State, s': State, t: Tid)
    requires Inv(s) && DrainScan(s, s', t)
    ensures Inv(s')
  {
    hide ThreadInv, SafeInv;
    DrainerIdle(s, t);
    forall u | u in s.th
      ensures SafeInv(s'.sh, s.th[u])
    {
      Own(s, u);
      HolderRegistered(s.sh, u, s.th[u]);
      Moves(s.sh, s'.sh.drain, u, s.th[u]);
    }
    DrainMoves(s, s'.sh.drain, t);
  }

  lemma {:induction false} ReleaseThread(sh: Shared, a: nat, u: Tid, th: Thread)
    requires SharedInv(sh) && ThreadInv(sh, u, th)
    requires sh.drain.Releasing? && a in sh.retiredAt && Below(sh.retiredAt[a], sh.drain.safe)
    ensures ThreadInv(sh.(freed := sh.freed + {a}), u, th)
  {
    var sh' := sh.(freed := sh.freed + {a});
    ReleaseCache(sh, sh', a, u, th);
    assert SafeInv(sh', th) by {
      assert forall x :: Spared(sh, th.slot, x) ==> Spared(sh', th.slot, x);
      hide Spared;
    }
    SameHeld(sh, sh', th, th.dgen);
    SameHeld(sh, sh', th, PubGen(sh, th));
    if InClaim(th.pc) { SameHeld(sh, sh', th, th.pc.gen); }
    hide HeldSince, SafeInv, CacheInv;
  }

  lemma {:induction false} ReleaseCache(sh: Shared, sh': Shared, a: nat, u: Tid, th: Thread)
    requires SharedInv(sh) && CacheInv(sh, u, th) && !sh.drain.NoDrain? && a in sh.retiredAt
    requires sh' == sh.(freed := sh.freed + {a})
    ensures CacheInv(sh', u, th)
  {
    assert Published(sh);
  }

  lemma {:induction false} KeepRelease(s: State, s': State, t: Tid, a: nat)
    requires Inv(s) && Release(s, s', t, a)
    ensures Inv(s')
  {
    hide ThreadInv;
    DrainerIdle(s, t);
    forall u | u in s.th
      ensures ThreadInv(s'.sh, u, s.th[u])
    {
      Own(s, u);
      ReleaseThread(s.sh, a, u, s.th[u]);
    }
    SharedStep(s, s'.sh);
  }

  // ------------------------------------------------------------ every step, every run

  lemma {:induction false} KeepAccess(s: State, s': State, t: Tid, me: Thread)
    requires Inv(s) && AccessStep(s, s', t, me)
    ensures Inv(s')
  {
    hide Inv;
    if page :| LoadGen(s, s', t, me, page) { KeepLoadGen(s, s', t, me, page); }
    if gen, page :| DoFlush(s, s', t, me, gen, page) { KeepDoFlush(s, s', t, me, gen, page); }
    if page :| ProbeHit(s, s', t, me, page) { KeepProbeHit(s, s', t, me, page); }
    if page :| ProbeMiss(s, s', t, me, page) { KeepProbeMiss(s, s', t, me, page); }
    if page :| ProbeHeal(s, s', t, me, page) { KeepProbeHeal(s, s', t, me, page); }
    if page :| WalkRead(s, s', t, me, page) { KeepWalkRead(s, s', t, me, page); }
    if page :| WalkFault(s, s', t, me, page) { KeepWalkFault(s, s', t, me, page); }
    if FillStore(s, s', t, me) { KeepFillStore(s, s', t, me); }
    if FillHeal(s, s', t, me) { KeepFillHeal(s, s', t, me); }
    if DropPtr(s, s', t, me) || CopyEnds(s, s', t, me) { KeepDropPtr(s, s', t, me); }
    if KeepEnd(s, s', t, me) { KeepKeepEnd(s, s', t, me); }
    if FlushSelf(s, s', t, me) { KeepFlushSelf(s, s', t, me); }
    if FetchFill(s, s', t, me) { KeepFetchFill(s, s', t, me); }
  }

  lemma {:induction false} KeepClaim(s: State, s': State, t: Tid, me: Thread)
    requires Inv(s) && ClaimStep(s, s', t, me)
    ensures Inv(s')
  {
    hide Inv;
    if gen, k :| PublishStore(s, s', t, me, gen, k) { KeepPublishStore(s, s', t, me, gen, k); }
    if gen, k :| ClaimStart(s, s', t, me, gen, k) { KeepClaimStart(s, s', t, me, gen, k); }
    if gen, k :| ClaimLoadHi(s, s', t, me, gen, k) { KeepClaimLoadHi(s, s', t, me, gen, k); }
    if gen, k, i, seen :| ClaimTrySlot(s, s', t, me, gen, k, i, seen) {
      KeepClaimTrySlot(s, s', t, me, gen, k, i, seen);
    }
    if gen, k :| ClaimFetchAdd(s, s', t, me, gen, k) { KeepClaimFetchAdd(s, s', t, me, gen, k); }
    if gen, k, i :| ClaimCasNew(s, s', t, me, gen, k, i) { KeepClaimCasNew(s, s', t, me, gen, k, i); }
    if gen, k :| ClaimUndoAdd(s, s', t, me, gen, k) { KeepClaimUndoAdd(s, s', t, me, gen, k); }
    if gen, k :| ClaimGiveUp(s, s', t, me, gen, k) { KeepClaimGiveUp(s, s', t, me, gen, k); }
    if gen, k :| ClaimFinish(s, s', t, me, gen, k) { KeepClaimFinish(s, s', t, me, gen, k); }
  }

  lemma {:induction false} KeepJit(s: State, s': State, t: Tid, me: Thread)
    requires Inv(s) && JitStep(s, s', t, me)
    ensures Inv(s')
  {
    hide Inv;
    if JitRegister(s, s', t, me) { KeepJitRegister(s, s', t, me); }
    if JitDeregister(s, s', t, me) { KeepJitDeregister(s, s', t, me); }
    if BlockEnter(s, s', t, me) { KeepBlockEnter(s, s', t, me); }
    if BlockLeave(s, s', t, me) { KeepBlockLeave(s, s', t, me); }
    if ServiceBegin(s, s', t, me) { KeepServiceBegin(s, s', t, me); }
    if ServiceLoadGen(s, s', t, me) { KeepServiceLoadGen(s, s', t, me); }
    if gen :| ServiceEmpty(s, s', t, me, gen) { KeepServiceEmpty(s, s', t, me, gen); }
  }

  lemma {:induction false} KeepLife(s: State, s': State, t: Tid, me: Thread)
    requires Inv(s) && LifeStep(s, s', t, me)
    ensures Inv(s')
  {
    hide Inv;
    if ParkBegin(s, s', t, me) { KeepParkBegin(s, s', t, me); }
    if ParkFlag(s, s', t, me) { KeepParkFlag(s, s', t, me); }
    if ParkEnd(s, s', t, me) { KeepParkEnd(s, s', t, me); }
    if CreateCount(s, s', t, me) { KeepCreateCount(s, s', t, me); }
    if child :| CreateSpawn(s, s', t, me, child) { KeepCreateSpawn(s, s', t, me, child); }
    if CreateUndo(s, s', t, me) { KeepCreateUndo(s, s', t, me); }
    if ExitBegin(s, s', t, me) { KeepExitBegin(s, s', t, me); }
    if ExitClearBlocked(s, s', t, me) || ExitClearGen(s, s', t, me) { KeepExitClear(s, s', t, me); }
    if ExitClearTid(s, s', t, me) { KeepExitClearTid(s, s', t, me); }
    if ExitDone(s, s', t, me) { KeepExitDone(s, s', t, me); }
  }

  lemma {:induction false} KeepLock(s: State, s': State, t: Tid, me: Thread)
    requires Inv(s) && LockStep(s, s', t, me)
    ensures Inv(s')
  {
    hide Inv;
    if LockForSyscall(s, s', t, me) { KeepLocks(s, s', t, me, 0); }
    if page :| LockForWalk(s, s', t, me, page) { KeepLocks(s, s', t, me, page); }
    if page, val :| PtSet(s, s', t, page, val) { KeepPtSet(s, s', t, page, val); }
    if a :| Retire(s, s', t, a) { KeepRetire(s, s', t, a); }
    if Bump(s, s', t) { KeepBump(s, s', t); }
    if u :| Notify(s, s', t, u) { KeepNotify(s, s', t, u); }
    if page :| LockedRead(s, s', t, me, page) { KeepLockedRead(s, s', t, me, page); }
    if Unlock(s, s', t, me) { KeepUnlock(s, s', t, me); }
  }

  lemma {:induction false} KeepDrain(s: State, s': State, t: Tid)
    requires Inv(s) && DrainStep(s, s', t)
    ensures Inv(s')
  {
    hide Inv;
    if DrainBegin(s, s', t) || DrainEnd(s, s', t) { KeepDrainBegin(s, s', t); }
    if DrainThreads(s, s', t) { KeepDrainThreads(s, s', t); }
    if DrainOver(s, s', t) { KeepDrainOver(s, s', t); }
    if DrainHi(s, s', t) { KeepDrainHi(s, s', t); }
    if DrainScan(s, s', t) { KeepDrainScan(s, s', t); }
    if a :| Release(s, s', t, a) { KeepRelease(s, s', t, a); }
  }

  lemma {:induction false} NextKeepsInv(s: State, s': State)
    requires Inv(s) && Next(s, s')
    ensures Inv(s')
  {
    hide Inv;
    var t :| StepOf(s, s', t);
    var me := s.th[t];
    hide AccessStep, ClaimStep, JitStep, LifeStep, LockStep, DrainStep;
    if AccessStep(s, s', t, me) { KeepAccess(s, s', t, me); }
    if ClaimStep(s, s', t, me) { KeepClaim(s, s', t, me); }
    if JitStep(s, s', t, me) { KeepJit(s, s', t, me); }
    if LifeStep(s, s', t, me) { KeepLife(s, s', t, me); }
    if LockStep(s, s', t, me) { KeepLock(s, s', t, me); }
    if DrainStep(s, s', t) { KeepDrain(s, s', t); }
  }

  lemma {:induction false} InitKeepsInv(s: State)
    requires Init(s)
    ensures Inv(s)
  {
    var t: Tid :| t != 0 && s.th == map[t := Fresh];
    FreshThread(s.sh, t);
    assert s.th.Keys == {t};
  }

  lemma {:induction false} RunKeepsInv(tr: seq<State>, n: nat)
    requires Run(tr) && n < |tr|
    ensures Inv(tr[n])
  {
    hide Inv, Init, Next;
    if n == 0 {
      InitKeepsInv(tr[0]);
    } else {
      RunKeepsInv(tr, n - 1);
      NextKeepsInv(tr[n - 1], tr[n]);
    }
  }

  lemma {:induction false} InvIsSafe(s: State)
    requires Inv(s)
    ensures Safe(s) && TlbRefinesTable(s)
  {
    forall t | t in s.th && Unblocked(s.sh, s.th[t])
      ensures LatestNone(s.th[t], s.sh.freed)
      ensures EndKept(s.sh, s.th[t]) ==> TranslatesNone(s.th[t], s.sh.freed)
      ensures EndKept(s.sh, s.th[t]) && FetchKept(s.sh, s.th[t]) ==> ReachesNone(s.th[t], s.sh.freed)
    {
      Own(s, t);
    }
    forall t | t in s.th && s.sh.dirty == {} && s.th[t].dgen == s.sh.asgen
      ensures forall i :: i in s.th[t].tlb ==>
                var e := s.th[t].tlb[i];
                SamePage(s.sh, e.page, e.pte) && (e.page !in s.sh.stale ==> Agrees(s.sh, e))
    {
      Own(s, t);
    }
  }

  /** In every state of every run, no backing an unblocked thread's latest
   translation leads to has been released, and every data TLB whose generation is
   current refines the shared page table, off the pages whose loss of rights went
   unannounced. A pointer put aside is as safe while its thread has not flushed,
   instruction fetches while the fetch cache is kept. */
  lemma {:induction false} ReclamationIsSafe(tr: seq<State>, n: nat)
    requires Run(tr) && n < |tr|
    ensures Safe(tr[n]) && TlbRefinesTable(tr[n])
  {
    RunKeepsInv(tr, n);
    hide Run;
    InvIsSafe(tr[n]);
  }
}
