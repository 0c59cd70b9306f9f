/**
 Readers of the mount table do get answers: one that no writer disturbs accepts the
 mount it found exactly when that covers the path it wants.
 */
module BindSeqlockLive {
  import opened Options
  import opened BindSeqlock
  import opened BindSeqlockProofs

  /** Steps of one reader, and of nobody else. */
  ghost predicate Alone(tr: seq<State>, t: Tid) {
    |tr| > 0 && forall i :: 0 <= i < |tr| - 1 ==> ReaderStep(tr[i], tr[i + 1], t)
  }

  ghost predicate Reads(s: State, s': State, t: Tid) { exists tr :: Alone(tr, t) && tr[0] == s && tr[|tr| - 1] == s' }

  lemma {:induction false} ReadsNothing(s: State, t: Tid)
    ensures Reads(s, s, t)
  {
    assert Alone([s], t) && [s][0] == s;
  }

  lemma {:induction false} ReadsOn(s: State, s1: State, s2: State, t: Tid)
    requires ReaderStep(s, s1, t) && Reads(s1, s2, t)
    ensures Reads(s, s2, t)
  {
    hide ReaderStep;
    var tr :| Alone(tr, t) && tr[0] == s1 && tr[|tr| - 1] == s2;
    var out := [s] + tr;
    forall i | 0 <= i < |out| - 1 ensures ReaderStep(out[i], out[i + 1], t) {
      if i > 0 { assert ReaderStep(tr[i - 1], tr[i - 1 + 1], t); }
    }
    assert Alone(out, t) && out[0] == s && out[|out| - 1] == s2;
  }

  /** The slot has the mount, and is not being written. */
  predicate Quiet(s: State, t: Tid, m: Mount) {
    && t in s.th && Holds(s.slot, m) && Fits(m.guest) && Fits(m.host) && s.slot.active == 1 && s.slot.lock % 2 == 0
    && |s.slot.guest| == |s.slot.host| == MAX
  }

  /** The reader ends with the mount, and has changed nothing. */
  ghost predicate Gets(s: State, s': State, t: Tid, r: Read, m: Mount) {
    Reads(s, s', t) && t in s'.th && s'.th[t] == Accepted(r, m) && s'.slot == s.slot
  }

  /** One step, and on from there. */
  lemma {:induction false} GetsOn(s: State, s1: State, s2: State, t: Tid, r: Read, m: Mount)
    requires ReaderStep(s, s1, t) && s1.slot == s.slot && Gets(s1, s2, t, r, m)
    ensures Gets(s, s2, t, r, m)
  {
    ReadsOn(s, s1, s2, t);
  }

  lemma {:induction false} FromCheck(s: State, t: Tid, r: Read, m: Mount) returns (s': State)
    requires Quiet(s, t, m) && s.th[t] == RCheck(r, s.slot.lock, m)
    ensures Gets(s, s', t, r, m)
  {
    var s1 := To(s, t, RActive(r, s.slot.lock, m));
    assert CheckLock(s, s1, t);
    s' := To(s1, t, Accepted(r, m));
    assert CheckActive(s1, s', t);
    ReadsNothing(s', t);
    ReadsOn(s1, s', s', t);
    ReadsOn(s, s1, s', t);
  }

  lemma {:induction false} FromGuest(s: State, t: Tid, r: Read, m: Mount, n: nat) returns (s': State)
    requires Quiet(s, t, m) && n <= |m.guest| && s.th[t] == RCopyG(r, s.slot.lock, |m.guest|, m.host, m.guest[..n])
    ensures Gets(s, s', t, r, m)
    decreases |m.guest| - n
  {
    hide Gets, ReaderStep;
    if n < |m.guest| {
      var s1 := To(s, t, RCopyG(r, s.slot.lock, |m.guest|, m.host, m.guest[..n + 1]));
      assert m.guest[..n + 1] == m.guest[..n] + [m.guest[n]] && s.slot.guest[..|m.guest|][n] == m.guest[n];
      assert GetGuest(s, s1, t);
      IsStep(s, s1, t);
      s' := FromGuest(s1, t, r, m, n + 1);
      GetsOn(s, s1, s', t, r, m);
    } else {
      assert m.guest[..n] == m.guest;
      var s1 := To(s, t, RSeq(r, s.slot.lock, m.guest, m.host));
      assert GetGuest(s, s1, t);
      IsStep(s, s1, t);
      var s2 := To(s1, t, RCheck(r, s.slot.lock, m));
      assert Mount(m.guest, m.host, m.order) == m;
      assert GetSeq(s1, s2, t);
      IsStep(s1, s2, t);
      s' := FromCheck(s2, t, r, m);
      GetsOn(s1, s2, s', t, r, m);
      GetsOn(s, s1, s', t, r, m);
    }
  }

  lemma {:induction false} IsStep(s: State, s1: State, t: Tid)
    requires LoadLock(s, s1, t) || LenGuest(s, s1, t) || Compare(s, s1, t) || LenHost(s, s1, t) || GetHost(s, s1, t) || GetGuest(s, s1, t)
             || GetSeq(s, s1, t)
    ensures ReaderStep(s, s1, t)
  {
    hide LoadLock, LenGuest, Compare, LenHost, GetHost, GetGuest, GetSeq, GiveUp, CheckLock, CheckActive;
  }

  lemma {:induction false} FromHost(s: State, t: Tid, r: Read, m: Mount, n: nat) returns (s': State)
    requires Quiet(s, t, m) && n <= |m.host| && s.th[t] == RCopyH(r, s.slot.lock, |m.guest|, |m.host|, m.host[..n])
    ensures Gets(s, s', t, r, m)
    decreases |m.host| - n
  {
    hide Gets, ReaderStep;
    if n < |m.host| {
      var s1 := To(s, t, RCopyH(r, s.slot.lock, |m.guest|, |m.host|, m.host[..n + 1]));
      assert m.host[..n + 1] == m.host[..n] + [m.host[n]] && s.slot.host[..|m.host|][n] == m.host[n];
      assert GetHost(s, s1, t);
      IsStep(s, s1, t);
      s' := FromHost(s1, t, r, m, n + 1);
      GetsOn(s, s1, s', t, r, m);
    } else {
      assert m.host[..n] == m.host && m.guest[..0] == "";
      var s1 := To(s, t, RCopyG(r, s.slot.lock, |m.guest|, m.host, ""));
      assert GetHost(s, s1, t);
      IsStep(s, s1, t);
      s' := FromGuest(s1, t, r, m, 0);
      GetsOn(s, s1, s', t, r, m);
    }
  }

  lemma {:induction false} FromLenHost(s: State, t: Tid, r: Read, m: Mount, n: nat) returns (s': State)
    requires Quiet(s, t, m) && n <= |m.host| && s.th[t] == RLenH(r, s.slot.lock, |m.guest|, n)
    ensures Gets(s, s', t, r, m)
    decreases |m.host| - n
  {
    hide Gets, ReaderStep;
    if n < |m.host| {
      assert s.slot.host[..|m.host|][n] == m.host[n] && m.host[n] in m.host;
      var s1 := To(s, t, RLenH(r, s.slot.lock, |m.guest|, n + 1));
      assert LenHost(s, s1, t);
      IsStep(s, s1, t);
      s' := FromLenHost(s1, t, r, m, n + 1);
      GetsOn(s, s1, s', t, r, m);
    } else {
      assert m.host[..0] == "";
      var s1 := To(s, t, RCopyH(r, s.slot.lock, |m.guest|, |m.host|, ""));
      assert LenHost(s, s1, t);
      IsStep(s, s1, t);
      s' := FromHost(s1, t, r, m, 0);
      GetsOn(s, s1, s', t, r, m);
    }
  }

  lemma {:induction false} FromCompare(s: State, t: Tid, r: Read, m: Mount, n: nat) returns (s': State)
    requires Quiet(s, t, m) && n <= |m.guest| && s.th[t] == RCmp(r, s.slot.lock, |m.guest|, n) && Wanted(r, m)
    ensures Gets(s, s', t, r, m)
    decreases |m.guest| - n
  {
    hide Gets, ReaderStep;
    if r.pfx.Some? && n < |m.guest| {
      assert s.slot.guest[..|m.guest|][n] == m.guest[n] && m.guest[n] in m.guest;
      assert r.pfx.value[..|m.guest|][n] == m.guest[n];
      var s1 := To(s, t, RCmp(r, s.slot.lock, |m.guest|, n + 1));
      assert Compare(s, s1, t);
      IsStep(s, s1, t);
      s' := FromCompare(s1, t, r, m, n + 1);
      GetsOn(s, s1, s', t, r, m);
    } else {
      var s1 := To(s, t, RLenH(r, s.slot.lock, |m.guest|, 0));
      assert Compare(s, s1, t);
      IsStep(s, s1, t);
      s' := FromLenHost(s1, t, r, m, 0);
      GetsOn(s, s1, s', t, r, m);
    }
  }

  lemma {:induction false} FromLenGuest(s: State, t: Tid, r: Read, m: Mount, n: nat) returns (s': State)
    requires Quiet(s, t, m) && n <= |m.guest| && s.th[t] == RLenG(r, s.slot.lock, n) && Wanted(r, m)
    ensures Gets(s, s', t, r, m)
    decreases |m.guest| - n
  {
    hide Gets, ReaderStep, Wanted;
    if n < |m.guest| {
      assert s.slot.guest[..|m.guest|][n] == m.guest[n] && m.guest[n] in m.guest;
      var s1 := To(s, t, RLenG(r, s.slot.lock, n + 1));
      assert LenGuest(s, s1, t);
      IsStep(s, s1, t);
      s' := FromLenGuest(s1, t, r, m, n + 1);
      GetsOn(s, s1, s', t, r, m);
    } else {
      var s1 := To(s, t, RCmp(r, s.slot.lock, |m.guest|, 0));
      assert LenGuest(s, s1, t);
      IsStep(s, s1, t);
      s' := FromCompare(s1, t, r, m, 0);
      GetsOn(s, s1, s', t, r, m);
    }
  }

  /** A reader that found the slot live and is left alone: it accepts the mount there
   exactly when that covers the path it wants, and never another. */
  lemma {:induction false} QuietReadAccepts(s: State, t: Tid, m: Mount)
    requires Inv(s) && Quiet(s, t, m) && s.th[t].RLock? && s.slot.lock in s.log && s.log[s.slot.lock] == m
    ensures Wanted(s.th[t].r, m) <==> exists s' :: Gets(s, s', t, s.th[t].r, m)
    ensures forall s' :: Reads(s, s', t) && t in s'.th && s'.th[t].Accepted? ==> s'.th[t].m == m
  {
    hide Inv, ReaderStep, Wanted;
    var r := s.th[t].r;
    if Wanted(r, m) {
      var s1 := To(s, t, RLenG(r, s.slot.lock, 0));
      assert LoadLock(s, s1, t);
      IsStep(s, s1, t);
      var s' := FromLenGuest(s1, t, r, m, 0);
      GetsOn(s, s1, s', t, r, m);
    }
    forall s' | Reads(s, s', t) && t in s'.th && s'.th[t].Accepted? ensures s'.th[t].m == m && s'.th[t].r == r && Wanted(r, m) {
      OnlyThis(s, s', t, m);
    }
  }

  /** What a reader alone has at hand is of the mount in the slot. */
  ghost predicate Has(s: State, s0: State, t: Tid, m: Mount)
    requires t in s0.th && Reading(s0.th[t])
  {
    && Inv(s) && t in s.th && s.slot == s0.slot && s.log == s0.log
    && (s.th[t] == Idle || (Reading(s.th[t]) && s.th[t].r == s0.th[t].r && SampledAt(s.th[t], s0.slot.lock)))
    && (s.th[t].Accepted? ==> s.th[t].m == m && Wanted(s0.th[t].r, m))
  }

  /** It looked at the lock as it is. */
  predicate SampledAt(pc: Pc, lock: nat)
    requires Reading(pc)
  {
    pc.RLock? || pc.Accepted? || pc.l1 == lock
  }

  lemma {:induction false} HasStep(s: State, s': State, s0: State, t: Tid, m: Mount)
    requires t in s0.th && Reading(s0.th[t]) && Has(s, s0, t, m) && ReaderStep(s, s', t)
    requires s0.slot.lock in s0.log && s0.log[s0.slot.lock] == m
    ensures Has(s', s0, t, m)
  {
    assert Step(s, s', t);
    StepKeepsInv(s, s', t);
    ReaderShape(s, s', t);
    SamplesNow(s, s', t);
    assert ReaderOk(s, s.th[t]) && (s'.th[t].Accepted? && !s.th[t].Accepted? ==> s.th[t].RActive?);
    hide Inv, ReaderStep, Wanted;
  }

  lemma {:induction false} SamplesNow(s: State, s': State, t: Tid)
    requires ReaderStep(s, s', t) && Reading(s.th[t]) && SampledAt(s.th[t], s.slot.lock)
    ensures Reading(s'.th[t]) ==> SampledAt(s'.th[t], s.slot.lock)
    ensures s'.th[t].Accepted? ==> s.th[t].RActive? && s'.th[t].m == s.th[t].m
  {
  }

  lemma {:induction false} HasAlone(tr: seq<State>, n: nat, t: Tid, m: Mount)
    requires Alone(tr, t) && n < |tr| && t in tr[0].th && Reading(tr[0].th[t]) && Has(tr[0], tr[0], t, m)
    requires tr[0].slot.lock in tr[0].log && tr[0].log[tr[0].slot.lock] == m
    ensures Has(tr[n], tr[0], t, m)
  {
    hide Has, ReaderStep;
    if n > 0 {
      HasAlone(tr, n - 1, t, m);
      assert ReaderStep(tr[n - 1], tr[n - 1 + 1], t);
      HasStep(tr[n - 1], tr[n], tr[0], t, m);
    }
  }

  lemma {:induction false} OnlyThis(s: State, s': State, t: Tid, m: Mount)
    requires Inv(s) && t in s.th && s.th[t].RLock? && s.slot.lock in s.log && s.log[s.slot.lock] == m
    requires Reads(s, s', t) && t in s'.th && s'.th[t].Accepted?
    ensures s'.th[t].m == m && s'.th[t].r == s.th[t].r && Wanted(s.th[t].r, m)
  {
    hide Inv, ReaderStep, Wanted;
    var tr :| Alone(tr, t) && tr[0] == s && tr[|tr| - 1] == s';
    HasAlone(tr, |tr| - 1, t, m);
  }
}
