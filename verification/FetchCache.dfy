/**
 Where the epochs do not reach: the page a thread fetches instructions from is
 kept with no generation beside it, and survives both a flush on a new
 generation and a system call. Exactly when a drain can take it away, and runs in
 which that happens; and a run in which a data TLB keeps a right the table lost.
 */
module FetchCache {
  import opened Options
  import opened Reclamation
  import opened ReclamationProofs
  import opened ReclamationSafety

  // ------------------------------------------------------------ one drain

  /** A step of `b` draining the quarantine and doing nothing else. */
  ghost predicate DrainMove(s: State, s': State, b: Tid) {
    && b in s.th
    && (LockForSyscall(s, s', b, s.th[b]) || DrainStep(s, s', b) || Unlock(s, s', b, s.th[b]))
  }

  ghost predicate DrainPath(p: seq<State>, b: Tid) {
    |p| > 0 && forall i :: 0 <= i < |p| - 1 ==> DrainMove(p[i], p[i + 1], b)
  }

  /** Draining by `b` alone leads from one state to the other. */
  ghost predicate Drains(s: State, s': State, b: Tid) {
    exists p :: DrainPath(p, b) && p[0] == s && p[|p| - 1] == s'
  }

  lemma {:induction false} DrainsNothing(s: State, b: Tid)
    ensures Drains(s, s, b)
  {
    assert DrainPath([s], b) && [s][0] == s;
  }

  lemma {:induction false} DrainsOn(s: State, s1: State, s2: State, b: Tid)
    requires DrainMove(s, s1, b) && Drains(s1, s2, b)
    ensures Drains(s, s2, b)
  {
    hide DrainMove;
    var p :| DrainPath(p, b) && p[0] == s1 && p[|p| - 1] == s2;
    var q := [s] + p;
    forall i | 0 <= i < |q| - 1 ensures DrainMove(q[i], q[i + 1], b) {
      if i > 0 { assert DrainMove(p[i - 1], p[i], b); }
    }
    assert DrainPath(q, b) && q[0] == s && q[|q| - 1] == s2;
  }

  /** A published slot that keeps the drain from an allocation. */
  predicate Holds(sh: Shared, i: int, a: nat)
    requires a in sh.retiredAt
  {
    0 <= i < sh.hi && i < |sh.pub| && sh.pub[i].tid != 0 && !sh.pub[i].blocked && sh.pub[i].gen <= sh.retiredAt[a]
  }

  /** Something does: a slot, or a thread that has none. */
  ghost predicate HeldBack(sh: Shared, a: nat)
    requires a in sh.retiredAt
  {
    sh.nthreads != 1 && (sh.over != 0 || exists i :: Holds(sh, i, a))
  }

  lemma {:induction false} SameHolds(sh: Shared, sh': Shared, a: nat)
    requires a in sh.retiredAt && sh' == sh.(lock := sh'.lock, drain := sh'.drain, freed := sh'.freed)
    ensures forall j :: Holds(sh', j, a) <==> Holds(sh, j, a)
    ensures HeldBack(sh', a) <==> HeldBack(sh, a)
    ensures forall j :: Holds(sh, j, a) ==> 0 <= j < sh.hi && j < |sh.pub|
  {
    assert forall j :: Holds(sh', j, a) <==> Holds(sh, j, a);
  }

  function WithDrain(s: State, d: Drain): State { s.(sh := s.sh.(drain := d)) }

  /** The scan passes every slot that does not hold the allocation. */
  lemma {:induction false} ScanPasses(s: State, b: Tid, a: nat, i: int, hi: int, safe: Epoch) returns (safe': Epoch)
    requires Owns(s, b) && s.sh.drain == ScanTid(i, hi, safe) && 0 <= i && hi <= |s.sh.pub| && hi <= s.sh.hi
    requires a in s.sh.retiredAt && Below(s.sh.retiredAt[a], safe) && forall j :: !Holds(s.sh, j, a)
    ensures Below(s.sh.retiredAt[a], safe') && Drains(s, WithDrain(s, Releasing(safe')), b)
    decreases hi - i
  {
    if i >= hi {
      safe' := safe;
      var s1 := WithDrain(s, Releasing(safe));
      assert DrainScan(s, s1, b);
      DrainsNothing(s1, b);
      DrainsOn(s, s1, s1, b);
      return;
    }
    var slot := s.sh.pub[i];
    assert !Holds(s.sh, i, a);
    var next := if slot.tid == 0 || slot.blocked then safe else MinEpoch(safe, slot.gen);
    var s3 := WithDrain(s, ScanTid(i + 1, hi, next));
    SameHolds(s.sh, s3.sh, a);
    safe' := ScanPasses(s3, b, a, i + 1, hi, next);
    var end := WithDrain(s, Releasing(safe'));
    assert WithDrain(s3, Releasing(safe')) == end;
    if slot.tid == 0 {
      assert DrainScan(s, s3, b);
    } else {
      var s1 := WithDrain(s, ScanBlocked(i, hi, safe));
      assert DrainScan(s, s1, b);
      if slot.blocked {
        assert DrainScan(s1, s3, b);
      } else {
        var s2 := WithDrain(s, ScanGen(i, hi, safe));
        assert DrainScan(s1, s2, b) && DrainScan(s2, s3, b);
        DrainsOn(s2, s3, end, b);
        DrainsOn(s1, s2, end, b);
      }
      if slot.blocked { DrainsOn(s1, s3, end, b); }
      DrainsOn(s, s1, end, b);
    }
    if slot.tid == 0 { DrainsOn(s, s3, end, b); }
  }

  /** A drain by an idle thread releases what nothing holds back. */
  lemma {:induction false} DrainReleases(s: State, b: Tid, me: Thread, a: nat) returns (s': State)
    requires IsAt(s, b, me, Idle) && !me.blk && me.fill.None? && s.sh.lock.None? && s.sh.drain.NoDrain? && Published(s.sh) && 0 <= s.sh.hi
    requires a in s.sh.retiredAt && a !in s.sh.freed && !HeldBack(s.sh, a)
    ensures Drains(s, s', b)
    ensures s' == Both(s, b, me.(ptr := None, kept := None, guarded := false), s.sh.(freed := s.sh.freed + {a}))
  {
    hide Drains, DrainMove, Below;
    var me1 := me.(ptr := None, kept := None, guarded := false, pc := Locked(ToIdle));
    var s1 := Both(s, b, me1, s.sh.(lock := Some(b)));
    SameHolds(s.sh, s1.sh, a);
    var safe := ReleasingFrom(s1, b, a);
    var s3 := WithDrain(s1, Releasing(safe));
    var s4 := s3.(sh := s3.sh.(freed := s.sh.freed + {a}));
    var s5 := WithDrain(s4, NoDrain);
    s' := Both(s, b, me.(ptr := None, kept := None, guarded := false), s.sh.(freed := s.sh.freed + {a}));
    assert s'.th == s5.th[b := me.(ptr := None, kept := None, guarded := false)];
    assert DrainMove(s, s1, b) by { Moves1(s, s1, b, me); }
    assert DrainMove(s3, s4, b) && DrainMove(s4, s5, b) && DrainMove(s5, s', b) by { Moves2(s3, s4, s5, s', b, a); }
    DrainsNothing(s', b);
    DrainsOn(s5, s', s', b);
    DrainsOn(s4, s5, s', b);
    DrainsOn(s3, s4, s', b);
    DrainsThen(s1, s3, s', b);
    DrainsOn(s, s1, s', b);
  }

  lemma {:induction false} Moves1(s: State, s1: State, b: Tid, me: Thread)
    requires LockForSyscall(s, s1, b, me)
    ensures DrainMove(s, s1, b)
  {
  }

  lemma {:induction false} Moves2(s: State, s1: State, s2: State, s3: State, b: Tid, a: nat)
    requires Release(s, s1, b, a) && DrainEnd(s1, s2, b) && b in s2.th && Unlock(s2, s3, b, s2.th[b])
    ensures DrainMove(s, s1, b) && DrainMove(s1, s2, b) && DrainMove(s2, s3, b)
  {
  }

  lemma {:induction false} DrainsThen(s: State, s1: State, s2: State, b: Tid)
    requires Drains(s, s1, b) && Drains(s1, s2, b)
    ensures Drains(s, s2, b)
  {
    hide DrainMove;
    var p :| DrainPath(p, b) && p[0] == s && p[|p| - 1] == s1;
    var q :| DrainPath(q, b) && q[0] == s1 && q[|q| - 1] == s2;
    var r := p + q[1..];
    forall i | 0 <= i < |r| - 1 ensures DrainMove(r[i], r[i + 1], b) {
      if i < |p| - 1 {
        assert DrainMove(p[i], p[i + 1], b);
      } else {
        assert DrainMove(q[i - (|p| - 1)], q[i - (|p| - 1) + 1], b);
        assert r[i] == q[i - (|p| - 1)];
      }
    }
    assert DrainPath(r, b) && r[0] == s && r[|r| - 1] == s2;
  }

  /** From the lock to the first release. */
  lemma {:induction false} ReleasingFrom(s: State, b: Tid, a: nat) returns (safe: Epoch)
    requires Owns(s, b) && s.th[b].pc == Locked(ToIdle) && s.sh.drain.NoDrain? && Published(s.sh) && 0 <= s.sh.hi
    requires a in s.sh.retiredAt && !HeldBack(s.sh, a)
    ensures Below(s.sh.retiredAt[a], safe) && Drains(s, WithDrain(s, Releasing(safe)), b)
  {
    hide Drains;
    var s1 := WithDrain(s, LoadThreads);
    assert DrainBegin(s, s1, b);
    if s.sh.nthreads == 1 {
      safe := Unbounded;
      var s2 := WithDrain(s, Releasing(Unbounded));
      assert DrainThreads(s1, s2, b);
      DrainsNothing(s2, b);
      DrainsOn(s1, s2, s2, b);
      DrainsOn(s, s1, s2, b);
    } else {
      var hi := if s.sh.hi > |s.sh.pub| then |s.sh.pub| else s.sh.hi;
      var s2, s3, s4 := WithDrain(s, LoadOver), WithDrain(s, LoadHi), WithDrain(s, ScanTid(0, hi, Unbounded));
      assert DrainThreads(s1, s2, b) && DrainOver(s2, s3, b) && DrainHi(s3, s4, b);
      SameHolds(s.sh, s4.sh, a);
      safe := ScanPasses(s4, b, a, 0, hi, Unbounded);
      var end := WithDrain(s, Releasing(safe));
      assert WithDrain(s4, Releasing(safe)) == end;
      DrainsOn(s3, s4, end, b);
      DrainsOn(s2, s3, end, b);
      DrainsOn(s1, s2, end, b);
      DrainsOn(s, s1, end, b);
    }
  }

  // ------------------------------------------------------------ what it does not take

  /** The drain under way will not get to the allocation. */
  ghost predicate OutOfReach(sh: Shared, a: nat) {
    a in sh.retiredAt ==>
      match sh.drain
      case NoDrain => true
      case LoadThreads => true
      case LoadOver => true
      case LoadHi => sh.over == 0
      case ScanTid(i, hi, safe) => Ahead(sh, i, hi, a) || !Below(sh.retiredAt[a], safe)
      case ScanBlocked(i, hi, safe) => Ahead(sh, i, hi, a) || !Below(sh.retiredAt[a], safe)
      case ScanGen(i, hi, safe) => Ahead(sh, i, hi, a) || !Below(sh.retiredAt[a], safe)
      case Releasing(safe) => !Below(sh.retiredAt[a], safe)
  }

  ghost predicate Ahead(sh: Shared, i: int, hi: int, a: nat)
    requires a in sh.retiredAt
  {
    exists j :: i <= j < hi && Holds(sh, j, a)
  }

  /** What a drain by `b` leaves as it was, */
  predicate Drained(s0: State, s: State, b: Tid) {
    && s.sh == s0.sh.(lock := s.sh.lock, drain := s.sh.drain, freed := s.sh.freed)
    && s.th.Keys == s0.th.Keys
    && forall t :: t in s0.th ==> s.th[t].fetch == s0.th[t].fetch && (t != b ==> s.th[t] == s0.th[t])
  }

  /** and the allocation with it. */
  ghost predicate Undrained(s0: State, s: State, a: nat) {
    && s.sh == s0.sh.(lock := s.sh.lock, drain := s.sh.drain, freed := s.sh.freed)
    && a !in s.sh.freed && OutOfReach(s.sh, a)
  }

  lemma {:induction false} DrainedPath(p: seq<State>, n: nat, b: Tid)
    requires DrainPath(p, b) && n < |p|
    ensures Drained(p[0], p[n], b)
  {
    hide Published;
    if n > 0 {
      DrainedPath(p, n - 1, b);
      assert DrainMove(p[n - 1], p[n - 1 + 1], b);
      DrainedStep(p[0], p[n - 1], p[n], b);
    }
  }

  lemma {:induction false} DrainedStep(s0: State, s: State, s': State, b: Tid)
    requires Drained(s0, s, b) && DrainMove(s, s', b)
    ensures Drained(s0, s', b)
  {
    DrainedOne(s, s', b);
    hide DrainMove;
  }

  lemma {:induction false} DrainedOne(s: State, s': State, b: Tid)
    requires DrainMove(s, s', b)
    ensures Drained(s, s', b)
  {
    hide Published;
  }

  lemma {:induction false} DrainsKeeps(s: State, s': State, b: Tid)
    requires Drains(s, s', b)
    ensures Drained(s, s', b)
  {
    hide DrainMove, Drained;
    var p :| DrainPath(p, b) && p[0] == s && p[|p| - 1] == s';
    DrainedPath(p, |p| - 1, b);
  }

  lemma {:induction false} UndrainedStep(s0: State, s: State, s': State, b: Tid, a: nat)
    requires Undrained(s0, s, a) && DrainMove(s, s', b) && (a in s0.sh.retiredAt ==> HeldBack(s0.sh, a))
    ensures Undrained(s0, s', a)
  {
    hide Published, Holds;
    if a in s.sh.retiredAt {
      SameHolds(s0.sh, s.sh, a);
      if DrainScan(s, s', b) { ScanKeeps(s, s', b, a); } else { SameHolds(s0.sh, s'.sh, a); }
    }
  }

  lemma {:induction false} ScanKeeps(s: State, s': State, b: Tid, a: nat)
    requires DrainScan(s, s', b) && a in s.sh.retiredAt && OutOfReach(s.sh, a)
    ensures OutOfReach(s'.sh, a)
  {
    var d := s.sh.drain;
    if Below(s.sh.retiredAt[a], d.safe) {
      var j :| d.i <= j < d.hi && Holds(s.sh, j, a);
      assert Holds(s'.sh, j, a);
    }
  }

  lemma {:induction false} UndrainedPath(p: seq<State>, n: nat, b: Tid, a: nat)
    requires DrainPath(p, b) && n < |p| && Undrained(p[0], p[0], a) && (a in p[0].sh.retiredAt ==> HeldBack(p[0].sh, a))
    ensures Undrained(p[0], p[n], a)
  {
    hide DrainMove, HeldBack, OutOfReach;
    if n > 0 {
      UndrainedPath(p, n - 1, b, a);
      UndrainedStep(p[0], p[n - 1], p[n], b, a);
    }
  }

  /** A drain, by whichever idle thread, releases an allocation exactly when it has
   been unmapped for good and no published generation, no unregistered thread
   stands in the way. */
  lemma {:induction false} ReleasedExactly(s: State, b: Tid, a: nat)
    requires Inv(s) && s.sh.lock.None? && b in s.th && s.th[b].pc.Idle? && !s.th[b].blk && a !in s.sh.freed
    ensures (exists s' :: Drains(s, s', b) && a in s'.sh.freed) <==> a in s.sh.retiredAt && !HeldBack(s.sh, a)
  {
    hide HeldBack, Inv, Drains;
    Own(s, b);
    if a in s.sh.retiredAt && !HeldBack(s.sh, a) {
      var s' := DrainReleases(s, b, s.th[b], a);
    } else {
      forall s' | Drains(s, s', b) ensures a !in s'.sh.freed {
        NotReleased(s, s', b, a);
      }
    }
  }

  lemma {:induction false} NotReleased(s: State, s': State, b: Tid, a: nat)
    requires a !in s.sh.freed && s.sh.drain.NoDrain? && (a in s.sh.retiredAt ==> HeldBack(s.sh, a)) && Drains(s, s', b)
    ensures a !in s'.sh.freed
  {
    hide DrainMove, HeldBack;
    var p :| DrainPath(p, b) && p[0] == s && p[|p| - 1] == s';
    UndrainedPath(p, |p| - 1, b, a);
  }

  // ------------------------------------------------------------ the fetch cache

  /** The page the thread fetches from has been given back to the host. */
  predicate Taken(s: State, t: Tid) {
    t in s.th && s.th[t].fetch.Some? && s.th[t].fetch.value.pte.alloc in s.sh.freed
  }

  /** ...and the thread is not in a system call: its next fetch reads there. */
  predicate Lost(s: State, t: Tid) { Taken(s, t) && Unblocked(s.sh, s.th[t]) }

  /** So the page any thread fetches from is taken, blocked or not. */
  lemma {:induction false} FetchTakenExactly(s: State, t: Tid, b: Tid)
    requires Inv(s) && s.sh.lock.None? && b in s.th && s.th[b].pc.Idle? && !s.th[b].blk
    requires t in s.th && s.th[t].fetch.Some? && !Taken(s, t)
    ensures (exists s' :: Drains(s, s', b) && Taken(s', t)) <==>
            var a := s.th[t].fetch.value.pte.alloc; a in s.sh.retiredAt && !HeldBack(s.sh, a)
  {
    hide HeldBack, Inv, Drains;
    var a := s.th[t].fetch.value.pte.alloc;
    ReleasedExactly(s, b, a);
    forall s' | Drains(s, s', b) ensures Taken(s', t) <==> a in s'.sh.freed {
      DrainsKeeps(s, s', b);
    }
  }

  /** For a thread that is running, what is taken is lost at once. */
  lemma {:induction false} FetchLostExactly(s: State, t: Tid, b: Tid)
    requires Inv(s) && s.sh.lock.None? && b in s.th && s.th[b].pc.Idle? && !s.th[b].blk
    requires t in s.th && Unblocked(s.sh, s.th[t]) && s.th[t].fetch.Some? && !Lost(s, t)
    ensures (exists s' :: Drains(s, s', b) && Lost(s', t)) <==>
            var a := s.th[t].fetch.value.pte.alloc; a in s.sh.retiredAt && !HeldBack(s.sh, a)
  {
    hide HeldBack, Inv, Drains;
    Own(s, b);
    var a := s.th[t].fetch.value.pte.alloc;
    FetchTakenExactly(s, t, b);
    if a in s.sh.retiredAt && !HeldBack(s.sh, a) {
      var s' := DrainReleases(s, b, s.th[b], a);
      assert Lost(s', t);
    }
  }

  /** For one in a system call, as soon as the call is over. */
  lemma {:induction false} TakenIsLost(s: State, s': State, t: Tid)
    requires Inv(s) && Taken(s, t) && ParkEnd(s, s', t, s.th[t])
    ensures Lost(s', t)
  {
    assert ThreadInv(s.sh, t, s.th[t]);
  }

  /** A guarded cache is always in the drain's way. */
  lemma {:induction false} GuardHoldsBack(s: State, t: Tid, b: Tid)
    requires Inv(s) && t in s.th && b in s.th && t != b && Guards(s.th[t])
    ensures var a := s.th[t].fetch.value.pte.alloc; a in s.sh.retiredAt ==> HeldBack(s.sh, a)
  {
    hide LockInv;
    Own(s, t);
    var th, a := s.th[t], s.th[t].fetch.value.pte.alloc;
    if a in s.sh.retiredAt {
      if s.sh.nthreads == 1 { Alone(s, b, t); assert false; }
      if th.slot >= 0 { assert Holds(s.sh, th.slot, a); } else { assert t in OverSet(s.th); }
    }
  }

  /** While the table still has the page the thread fetches from, neither unmapped
   nor replaced, the cache is kept. */
  lemma {:induction false} MappedIsKept(s: State, t: Tid)
    requires Inv(s) && s.sh.lock.None? && t in s.th && s.th[t].fetch.Some?
    requires SamePage(s.sh, s.th[t].fetch.value.page, s.th[t].fetch.value.pte)
    ensures FetchKept(s.sh, s.th[t]) && !Taken(s, t)
  {
    assert Published(s.sh);
  }

  // ------------------------------------------------------------ runs

  ghost predicate Ends(tr: seq<State>, s: State) { Run(tr) && tr[|tr| - 1] == s }

  lemma {:induction false} Then1(tr: seq<State>, s: State, s': State, t: Tid) returns (tr': seq<State>)
    requires Ends(tr, s) && StepOf(s, s', t)
    ensures Ends(tr', s')
  {
    hide StepOf, Init;
    tr' := tr + [s'];
    assert Next(s, s');
    forall i | 0 <= i < |tr'| - 1 ensures Next(tr'[i], tr'[i + 1]) {
      if i < |tr| - 1 { assert Next(tr[i], tr[i + 1]); }
    }
  }

  lemma {:induction false} Accesses(tr: seq<State>, s: State, s': State, t: Tid) returns (tr': seq<State>)
    requires Ends(tr, s) && t in s.th && AccessStep(s, s', t, s.th[t])
    ensures Ends(tr', s')
  {
    hide AccessStep, Ends;
    tr' := Then1(tr, s, s', t);
  }

  lemma {:induction false} Claims(tr: seq<State>, s: State, s': State, t: Tid) returns (tr': seq<State>)
    requires Ends(tr, s) && t in s.th && ClaimStep(s, s', t, s.th[t])
    ensures Ends(tr', s')
  {
    hide ClaimStep, Ends;
    tr' := Then1(tr, s, s', t);
  }

  lemma {:induction false} Lives(tr: seq<State>, s: State, s': State, t: Tid) returns (tr': seq<State>)
    requires Ends(tr, s) && t in s.th && LifeStep(s, s', t, s.th[t])
    ensures Ends(tr', s')
  {
    hide LifeStep, Ends;
    tr' := Then1(tr, s, s', t);
  }

  lemma {:induction false} Locks(tr: seq<State>, s: State, s': State, t: Tid) returns (tr': seq<State>)
    requires Ends(tr, s) && t in s.th && LockStep(s, s', t, s.th[t])
    ensures Ends(tr', s')
  {
    hide LockStep, Ends;
    tr' := Then1(tr, s, s', t);
  }

  lemma {:induction false} ThenDrains(tr: seq<State>, s: State, s': State, b: Tid) returns (tr': seq<State>)
    requires Ends(tr, s) && Drains(s, s', b)
    ensures Ends(tr', s')
  {
    hide DrainMove, Init;
    var p :| DrainPath(p, b) && p[0] == s && p[|p| - 1] == s';
    tr' := tr + p[1..];
    forall i | 0 <= i < |tr'| - 1 ensures Next(tr'[i], tr'[i + 1]) {
      if i < |tr| - 1 {
        assert Next(tr[i], tr[i + 1]);
      } else {
        var j := i - (|tr| - 1);
        assert tr'[i] == p[j] && tr'[i + 1] == p[j + 1];
        MoveIsNext(p[j], p[j + 1], b);
      }
    }
  }

  lemma {:induction false} MoveIsNext(s: State, s': State, b: Tid)
    requires DrainMove(s, s', b)
    ensures Next(s, s')
  {
    hide LockForSyscall, DrainStep, Unlock;
    assert StepOf(s, s', b);
  }

  /** Two pages of two allocations, the first with every right. */
  const PTE := Pte(0, 0, {Read, Write, Exec})
  const OTHER := Pte(1, 0, {Read})
  const BEFORE :=
    Shared(1, 1, map[0 := PTE, 1 := OTHER], {}, {}, {}, None, [Slot(0, false, 0)], 0, 0, 1, map[], {}, NoDrain)
  const REGISTERED := BEFORE.(pub := [Slot(1, false, 1)], hi := 1)
  const READER := Fresh.(slot := 0, dgen := 1, synced := true)
  const HOLDER := READER.(tlb := map[0 := Entry(0, PTE)], ptr := Some(Entry(0, PTE)), fetch := Some(Entry(0, PTE)), guarded := true)

  lemma {:induction false} Starts() returns (tr: seq<State>)
    ensures Ends(tr, State(BEFORE, map[1 := Fresh]))
  {
    var s := State(BEFORE, map[1 := Fresh]);
    assert Init(s);
    tr := [s];
  }

  const FLUSHED := Fresh.(dgen := 1, synced := true)
  const K := ToProbe(0)

  /** The first thread's first access flushes, */
  lemma {:induction false} Flushes() returns (tr: seq<State>)
    ensures Ends(tr, State(BEFORE, map[1 := FLUSHED.(pc := Publish(1, K))]))
  {
    hide Ends;
    var s0 := State(BEFORE, map[1 := Fresh]);
    tr := Starts();
    var s1 := At(s0, 1, Fresh.(pc := Flush(1, 0)));
    assert LoadGen(s0, s1, 1, Fresh, 0);
    tr := Accesses(tr, s0, s1, 1);
    var s2 := At(s1, 1, FLUSHED.(pc := Publish(1, K)));
    assert DoFlush(s1, s2, 1, s1.th[1], 1, 0);
    tr := Accesses(tr, s1, s2, 1);
    assert s2.th == map[1 := FLUSHED.(pc := Publish(1, K))];
  }

  /** looks for a slot, */
  lemma {:induction false} Seeks() returns (tr: seq<State>)
    ensures Ends(tr, State(BEFORE, map[1 := FLUSHED.(pc := ClaimAdd(1, K))]))
  {
    hide Ends;
    var s2 := State(BEFORE, map[1 := FLUSHED.(pc := Publish(1, K))]);
    tr := Flushes();
    var s3 := At(s2, 1, FLUSHED.(pc := ClaimLoad(1, K)));
    assert ClaimStart(s2, s3, 1, s2.th[1], 1, K);
    tr := Claims(tr, s2, s3, 1);
    var s4 := At(s3, 1, FLUSHED.(pc := ClaimTry(1, K, 0, 0)));
    assert ClaimLoadHi(s3, s4, 1, s3.th[1], 1, K);
    tr := Claims(tr, s3, s4, 1);
    var s5 := At(s4, 1, FLUSHED.(pc := ClaimAdd(1, K)));
    assert ClaimTrySlot(s4, s5, 1, s4.th[1], 1, K, 0, 0);
    tr := Claims(tr, s4, s5, 1);
    assert s5.th == map[1 := FLUSHED.(pc := ClaimAdd(1, K))];
  }

  const CLAIMED := BEFORE.(hi := 1, pub := [Slot(1, false, 0)])

  /** takes one, */
  lemma {:induction false} Takes() returns (tr: seq<State>)
    ensures Ends(tr, State(CLAIMED, map[1 := READER.(pc := Claimed(1, K))]))
  {
    hide Ends;
    var s5 := State(BEFORE, map[1 := FLUSHED.(pc := ClaimAdd(1, K))]);
    tr := Seeks();
    var s6 := Both(s5, 1, FLUSHED.(pc := ClaimCas(1, K, 0)), BEFORE.(hi := 1));
    assert ClaimFetchAdd(s5, s6, 1, s5.th[1], 1, K);
    tr := Claims(tr, s5, s6, 1);
    var s7 := Both(s6, 1, READER.(pc := Claimed(1, K)), SetSlot(s6.sh, 0, Slot(1, false, 0)));
    assert ClaimCasNew(s6, s7, 1, s6.th[1], 1, K, 0);
    tr := Claims(tr, s6, s7, 1);
    assert s7.sh.pub == [Slot(1, false, 0)];
    assert s7.th == map[1 := READER.(pc := Claimed(1, K))];
  }

  /** and publishes there. */
  lemma {:induction false} Registers() returns (tr: seq<State>)
    ensures Ends(tr, State(REGISTERED, map[1 := READER.(pc := Probe(0))]))
  {
    hide Ends;
    var s7 := State(CLAIMED, map[1 := READER.(pc := Claimed(1, K))]);
    tr := Takes();
    var s8 := Both(s7, 1, READER.(pc := Publish(1, K)), CLAIMED);
    assert ClaimFinish(s7, s8, 1, s7.th[1], 1, K);
    tr := Claims(tr, s7, s8, 1);
    var s9 := Both(s8, 1, READER.(pc := Probe(0)), SetSlot(CLAIMED, 0, Slot(1, false, 1)));
    assert PublishStore(s8, s9, 1, s8.th[1], 1, K);
    tr := Claims(tr, s8, s9, 1);
    assert s9.sh.pub == [Slot(1, false, 1)];
    assert s9.th == map[1 := READER.(pc := Probe(0))];
  }

  /** It fetches from the page. */
  lemma {:induction false} Fetches() returns (tr: seq<State>)
    ensures Ends(tr, State(REGISTERED, map[1 := HOLDER]))
  {
    hide Ends;
    var e := Entry(0, PTE);
    var s0 := State(REGISTERED, map[1 := READER.(pc := Probe(0))]);
    tr := Registers();
    var s1 := At(s0, 1, READER.(pc := Walk(0)));
    assert ProbeMiss(s0, s1, 1, s0.th[1], 0);
    tr := Accesses(tr, s0, s1, 1);
    var s2 := At(s1, 1, READER.(fill := Some(e), pc := Fill));
    assert WalkRead(s1, s2, 1, s1.th[1], 0);
    tr := Accesses(tr, s1, s2, 1);
    var s3 := At(s2, 1, READER.(tlb := map[0 := e], ptr := Some(e)));
    assert FillStore(s2, s3, 1, s2.th[1]);
    tr := Accesses(tr, s2, s3, 1);
    var s4 := At(s3, 1, HOLDER);
    assert FetchFill(s3, s4, 1, s3.th[1]);
    tr := Accesses(tr, s3, s4, 1);
    assert s4.th == map[1 := HOLDER];
  }

  /** ...and starts a second thread. */
  lemma {:induction false} Spawns() returns (tr: seq<State>)
    ensures Ends(tr, State(REGISTERED.(nthreads := 2), map[1 := HOLDER, 2 := Fresh]))
  {
    hide Ends;
    var s0 := State(REGISTERED, map[1 := HOLDER]);
    tr := Fetches();
    var s1 := Both(s0, 1, HOLDER.(pc := Creating), REGISTERED.(nthreads := 2));
    assert CreateCount(s0, s1, 1, HOLDER);
    tr := Lives(tr, s0, s1, 1);
    var s2 := State(s1.sh, s1.th[1 := HOLDER][2 := Fresh]);
    assert CreateSpawn(s1, s2, 1, s1.th[1], 2);
    tr := Lives(tr, s1, s2, 1);
    assert s2.th == map[1 := HOLDER, 2 := Fresh];
  }

  const UNMAPPED := REGISTERED.(nthreads := 2, asgen := 2, pt := map[1 := OTHER], retiredAt := map[0 := 1])

  /** The second thread unmaps the page, whatever the first is at; its backing goes
   into the quarantine. */
  lemma {:induction false} Unmaps(tr0: seq<State>, pub: seq<Slot>, h: Thread) returns (tr: seq<State>)
    requires Ends(tr0, State(REGISTERED.(nthreads := 2, pub := pub), map[1 := h, 2 := Fresh])) && !h.jit
    ensures Ends(tr, State(UNMAPPED.(pub := pub), map[1 := h, 2 := Fresh]))
  {
    hide Ends;
    var sh := REGISTERED.(nthreads := 2, pub := pub);
    var s0 := State(sh, map[1 := h, 2 := Fresh]);
    tr := tr0;
    var me := Fresh.(pc := Locked(ToIdle));
    var s1 := Both(s0, 2, me, sh.(lock := Some(2)));
    assert LockForSyscall(s0, s1, 2, Fresh);
    tr := Locks(tr, s0, s1, 2);
    var s2 := State(s1.sh.(retiredAt := map[0 := 1]), s1.th);
    assert Retire(s1, s2, 2, 0);
    tr := Locks(tr, s1, s2, 2);
    var s3 := State(SetEntry(s2.sh, 0, None), s2.th);
    assert PtSet(s2, s3, 2, 0, None);
    tr := Locks(tr, s2, s3, 2);
    var s4 := State(s3.sh.(asgen := 2, dirty := {}, stale := {}), s3.th);
    assert JitThreads(s3.th) == {};
    assert Bump(s3, s4, 2);
    tr := Locks(tr, s3, s4, 2);
    var s5 := Both(s4, 2, Fresh, s4.sh.(lock := None));
    assert Unlock(s4, s5, 2, s4.th[2]);
    tr := Locks(tr, s4, s5, 2);
    assert s5.th == map[1 := h, 2 := Fresh] && s5.sh.pt == map[1 := OTHER];
  }

  const PUBLISHED := UNMAPPED.(pub := [Slot(1, false, 2)])

  /** A thread after its lazy flush, about to look a page up. */
  function Past(h: Thread, page: nat): Thread {
    h.(ptr := None, tlb := map[], dgen := 2, keeping := false, guarded := false, synced := true, pc := Probe(page))
  }

  /** The first thread's next data access flushes */
  lemma {:induction false} FlushesAgain(tr0: seq<State>, h: Thread, page: nat) returns (tr: seq<State>)
    requires Ends(tr0, State(UNMAPPED, map[1 := h, 2 := Fresh])) && h.pc.Idle? && h.dgen == 1
    ensures Ends(tr, State(UNMAPPED, map[1 := Past(h, page).(pc := Publish(2, ToProbe(page))), 2 := Fresh]))
  {
    hide Ends;
    var s0 := State(UNMAPPED, map[1 := h, 2 := Fresh]);
    var s1 := At(s0, 1, h.(ptr := None, pc := Flush(2, page)));
    assert LoadGen(s0, s1, 1, h, page);
    tr := Accesses(tr0, s0, s1, 1);
    var s2 := At(s1, 1, Past(h, page).(pc := Publish(2, ToProbe(page))));
    assert DoFlush(s1, s2, 1, s1.th[1], 2, page);
    tr := Accesses(tr, s1, s2, 1);
    assert s2.th == map[1 := Past(h, page).(pc := Publish(2, ToProbe(page))), 2 := Fresh];
  }

  /** and publishes; */
  lemma {:induction false} MovesPast(tr0: seq<State>, h: Thread, page: nat) returns (tr: seq<State>)
    requires Ends(tr0, State(UNMAPPED, map[1 := h, 2 := Fresh])) && h.pc.Idle? && h.dgen == 1 && h.slot == 0
    ensures Ends(tr, State(PUBLISHED, map[1 := Past(h, page), 2 := Fresh]))
  {
    hide Ends;
    tr := FlushesAgain(tr0, h, page);
    var s2 := State(UNMAPPED, map[1 := Past(h, page).(pc := Publish(2, ToProbe(page))), 2 := Fresh]);
    var s3 := Both(s2, 1, Past(h, page), SetSlot(UNMAPPED, 0, Slot(1, false, 2)));
    assert PublishStore(s2, s3, 1, s2.th[1], 2, ToProbe(page));
    tr := Claims(tr, s2, s3, 1);
    assert s3.sh.pub == [Slot(1, false, 2)] && s3.th == map[1 := Past(h, page), 2 := Fresh];
  }

  /** a drain takes the page its next fetch reads. */
  lemma {:induction false} LostAfterFlush() returns (tr: seq<State>)
    ensures Run(tr) && Lost(tr[|tr| - 1], 1)
  {
    hide Run, Drains;
    var s3 := State(PUBLISHED, map[1 := Past(HOLDER, 5), 2 := Fresh]);
    tr := Spawns();
    tr := Unmaps(tr, REGISTERED.pub, HOLDER);
    tr := MovesPast(tr, HOLDER, 5);
    assert forall i :: !Holds(PUBLISHED, i, 0);
    var s4 := DrainReleases(s3, 2, Fresh, 0);
    tr := ThenDrains(tr, s3, s4, 2);
  }

  /** Or it makes a system call, during which it holds nothing back. */
  lemma {:induction false} LostAfterCall() returns (tr: seq<State>)
    ensures Run(tr) && Lost(tr[|tr| - 1], 1)
  {
    hide Run, Drains;
    var s0 := State(UNMAPPED, map[1 := HOLDER, 2 := Fresh]);
    tr := Spawns();
    tr := Unmaps(tr, REGISTERED.pub, HOLDER);
    var me := HOLDER.(ptr := None, guarded := false);
    var s1 := At(s0, 1, me.(pc := SetBlocked));
    assert ParkBegin(s0, s1, 1, HOLDER);
    tr := Lives(tr, s0, s1, 1);
    var s2 := Both(s1, 1, me, SetSlot(UNMAPPED, 0, Slot(1, true, 1)));
    assert ParkFlag(s1, s2, 1, s1.th[1]);
    tr := Lives(tr, s1, s2, 1);
    assert s2.sh.pub == [Slot(1, true, 1)];
    assert forall i :: !Holds(s2.sh, i, 0);
    var s3 := DrainReleases(s2, 2, Fresh, 0);
    tr := ThenDrains(tr, s2, s3, 2);
    var s4 := Both(s3, 1, me, SetSlot(s3.sh, 0, Slot(1, false, 1)));
    assert ParkEnd(s3, s4, 1, me);
    tr := Lives(tr, s3, s4, 1);
  }

  /** A refused guest_protect: the table has lost a right, the generation has not
   moved, and a current data TLB still grants it. */
  lemma {:induction false} RightKept() returns (tr: seq<State>)
    ensures Run(tr)
    ensures var s := tr[|tr| - 1];
            s.sh.lock.None? && s.sh.dirty == {} && 1 in s.th && s.th[1].dgen == s.sh.asgen
            && 0 in s.th[1].tlb && !Agrees(s.sh, s.th[1].tlb[0])
  {
    hide Run;
    var sh := REGISTERED.(nthreads := 2);
    var s0 := State(sh, map[1 := HOLDER, 2 := Fresh]);
    tr := Spawns();
    var s1 := Both(s0, 2, Fresh.(pc := Locked(ToIdle)), sh.(lock := Some(2)));
    assert LockForSyscall(s0, s1, 2, Fresh);
    tr := Locks(tr, s0, s1, 2);
    var s2 := State(SetEntry(s1.sh, 0, Some(PTE.(prot := {Read}))), s1.th);
    assert PtSet(s1, s2, 2, 0, Some(PTE.(prot := {Read})));
    tr := Locks(tr, s1, s2, 2);
    assert Write in PTE.prot;
    var s3 := Both(s2, 2, Fresh, s2.sh.(lock := None));
    assert Unlock(s2, s3, 2, s2.th[2]);
    tr := Locks(tr, s2, s3, 2);
  }
}
