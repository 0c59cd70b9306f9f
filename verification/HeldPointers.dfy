/**
 Pointers a thread holds over what lets the drain past it: the one it put aside
 while it translates again, whose flush publishes a later generation, and any of a
 thread in a system call, which is flagged as holding nothing. Exactly when a
 drain takes what they lead to, and runs in which that happens.
 */
module HeldPointers {
  import opened Options
  import opened Reclamation
  import opened ReclamationProofs
  import opened ReclamationSafety
  import opened FetchCache

  /** What the thread will dereference with no further look at anything. */
  predicate Points(th: Thread, e: Entry) { th.ptr == Some(e) || th.kept == Some(e) }

  /** A drain by an idle thread takes what another holds a pointer to, in a system
   call or not, exactly when its backing is retired and nothing holds it back. */
  lemma {:induction false} PointerTakenExactly(s: State, t: Tid, b: Tid, e: Entry)
    requires Inv(s) && s.sh.lock.None? && b in s.th && s.th[b].pc.Idle? && !s.th[b].blk
    requires t in s.th && t != b && Points(s.th[t], e) && e.pte.alloc !in s.sh.freed
    ensures (exists s' :: Drains(s, s', b) && t in s'.th && s'.th[t] == s.th[t] && e.pte.alloc in s'.sh.freed) <==>
            e.pte.alloc in s.sh.retiredAt && !HeldBack(s.sh, e.pte.alloc)
  {
    hide HeldBack, Inv, Drains;
    ReleasedExactly(s, b, e.pte.alloc);
    forall s' | Drains(s, s', b) ensures t in s'.th && s'.th[t] == s.th[t] {
      DrainsKeeps(s, s', b);
    }
  }

  /** The latest translation of a running thread is always in the drain's way, and
   so is what it put aside and has not flushed over since. */
  lemma {:induction false} HolderHoldsBack(s: State, t: Tid, b: Tid, e: Entry)
    requires Inv(s) && t in s.th && b in s.th && t != b
    requires (s.th[t].ptr == Some(e) && Unblocked(s.sh, s.th[t])) || (Keeps(s.th[t]) && s.th[t].kept == Some(e))
    ensures e.pte.alloc in s.sh.retiredAt ==> HeldBack(s.sh, e.pte.alloc)
  {
    hide LockInv;
    Own(s, t);
    var th, a := s.th[t], e.pte.alloc;
    if a in s.sh.retiredAt {
      if s.sh.nthreads == 1 { Alone(s, b, t); assert false; }
      if th.slot >= 0 { assert Holds(s.sh, th.slot, a); } else { assert t in OverSet(s.th); }
    }
  }

  // ------------------------------------------------------------ runs

  const FIRST := Entry(0, PTE)
  const SECOND := Entry(1, OTHER)

  /** The thread has both ends of its copy, and one has been given back. */
  predicate CopiesInto(s: State, t: Tid) {
    && t in s.th && s.th[t].pc.Idle? && Unblocked(s.sh, s.th[t]) && s.th[t].ptr.Some? && s.th[t].kept.Some?
    && s.th[t].kept.value.pte.alloc in s.sh.freed
  }

  const COPIER := HOLDER.(ptr := None, kept := Some(FIRST), keeping := true)

  /** The first thread translates the first end and puts it aside; */
  lemma {:induction false} KeepsFirst() returns (tr: seq<State>)
    ensures Ends(tr, State(REGISTERED.(nthreads := 2), map[1 := COPIER, 2 := Fresh]))
  {
    hide Ends;
    var s0 := State(REGISTERED.(nthreads := 2), map[1 := HOLDER, 2 := Fresh]);
    tr := Spawns();
    var s1 := At(s0, 1, HOLDER.(ptr := None, pc := Probe(0)));
    assert LoadGen(s0, s1, 1, HOLDER, 0);
    tr := Accesses(tr, s0, s1, 1);
    var s2 := At(s1, 1, HOLDER);
    assert ProbeHit(s1, s2, 1, s1.th[1], 0);
    tr := Accesses(tr, s1, s2, 1);
    var s3 := At(s2, 1, COPIER);
    assert KeepEnd(s2, s3, 1, HOLDER);
    tr := Accesses(tr, s2, s3, 1);
    assert s3.th == map[1 := COPIER, 2 := Fresh];
  }

  const BETWEEN := Past(COPIER, 1)

  /** its page is unmapped; translating the second end flushes, publishes and misses. */
  lemma {:induction false} Misses() returns (tr: seq<State>)
    ensures Ends(tr, State(PUBLISHED, map[1 := BETWEEN.(pc := Walk(1)), 2 := Fresh]))
  {
    hide Ends;
    tr := KeepsFirst();
    tr := Unmaps(tr, REGISTERED.pub, COPIER);
    tr := MovesPast(tr, COPIER, 1);
    var s3 := State(PUBLISHED, map[1 := BETWEEN, 2 := Fresh]);
    var s4 := At(s3, 1, BETWEEN.(pc := Walk(1)));
    assert ProbeMiss(s3, s4, 1, s3.th[1], 1);
    tr := Accesses(tr, s3, s4, 1);
    assert s4.th == map[1 := BETWEEN.(pc := Walk(1)), 2 := Fresh];
  }

  /** A drain takes the first end, and the copy goes ahead with both. */
  lemma {:induction false} LostMidCopy() returns (tr: seq<State>)
    ensures Run(tr) && CopiesInto(tr[|tr| - 1], 1)
  {
    hide Run, Drains;
    var s0 := State(PUBLISHED, map[1 := BETWEEN.(pc := Walk(1)), 2 := Fresh]);
    tr := Misses();
    assert forall i :: !Holds(PUBLISHED, i, 0);
    var s1 := DrainReleases(s0, 2, Fresh, 0);
    tr := ThenDrains(tr, s0, s1, 2);
    var s2 := At(s1, 1, BETWEEN.(fill := Some(SECOND), pc := Fill));
    assert WalkRead(s1, s2, 1, s1.th[1], 1);
    tr := Accesses(tr, s1, s2, 1);
    var s3 := At(s2, 1, BETWEEN.(tlb := map[1 := SECOND], ptr := Some(SECOND), pc := Idle));
    assert FillStore(s2, s3, 1, s2.th[1]);
    tr := Accesses(tr, s2, s3, 1);
  }

  const CALLER := HOLDER.(guarded := false)

  /** A system call's handler translates a page it is to copy from; */
  lemma {:induction false} CallTranslates() returns (tr: seq<State>)
    ensures Ends(tr, State(REGISTERED.(nthreads := 2, pub := [Slot(1, true, 1)]), map[1 := CALLER, 2 := Fresh]))
  {
    hide Ends;
    var s0 := State(REGISTERED.(nthreads := 2), map[1 := HOLDER, 2 := Fresh]);
    tr := Spawns();
    var me := CALLER.(ptr := None);
    var s1 := At(s0, 1, me.(pc := SetBlocked));
    assert ParkBegin(s0, s1, 1, HOLDER);
    tr := Lives(tr, s0, s1, 1);
    var s2 := Both(s1, 1, me, SetSlot(s1.sh, 0, Slot(1, true, 1)));
    assert ParkFlag(s1, s2, 1, s1.th[1]);
    tr := Lives(tr, s1, s2, 1);
    var s3 := At(s2, 1, me.(pc := Probe(0)));
    assert LoadGen(s2, s3, 1, me, 0);
    tr := Accesses(tr, s2, s3, 1);
    var s4 := At(s3, 1, CALLER);
    assert ProbeHit(s3, s4, 1, s3.th[1], 0);
    tr := Accesses(tr, s3, s4, 1);
    assert s4.sh.pub == [Slot(1, true, 1)] && s4.th == map[1 := CALLER, 2 := Fresh];
  }

  /** the page is unmapped and taken before the copy is made. */
  lemma {:induction false} LostInCall() returns (tr: seq<State>)
    ensures Run(tr)
    ensures var s := tr[|tr| - 1];
            1 in s.th && s.th[1].pc.Idle? && s.th[1].ptr.Some? && s.th[1].ptr.value.pte.alloc in s.sh.freed
  {
    hide Run, Drains;
    var pub := [Slot(1, true, 1)];
    tr := CallTranslates();
    tr := Unmaps(tr, pub, CALLER);
    var s0 := State(UNMAPPED.(pub := pub), map[1 := CALLER, 2 := Fresh]);
    assert forall i :: !Holds(s0.sh, i, 0);
    var s1 := DrainReleases(s0, 2, Fresh, 0);
    tr := ThenDrains(tr, s0, s1, 2);
  }
}
