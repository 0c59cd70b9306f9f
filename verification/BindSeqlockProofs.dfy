/** Every step keeps the seqlock's invariant, and what it means over a run. */
module BindSeqlockProofs {
  import opened Options
  import opened BindSeqlock

  // ------------------------------------------------------------ readers and everyone else's steps

  /** Versions only come, and what was sealed stays. */
  predicate Later(s: State, s': State) {
    && s.slot.lock <= s'.slot.lock && s.pub <= s'.pub && s.clock <= s'.clock
    && (forall v :: v in s.log ==> v in s'.log && s'.log[v] == s.log[v])
  }

  lemma {:induction false} ReaderFrame(s: State, s': State, pc: Pc)
    requires LogOk(s) && ReaderOk(s, pc) && Later(s, s')
    ensures ReaderOk(s', pc)
  {
    if pc.Accepted? {
      var v :| pc.r.v0 <= v <= s.pub && v in s.log && s.log[v] == pc.m;
      assert v in s'.log && s'.log[v] == pc.m;
    }
  }

  lemma {:induction false} KeepReaders(s: State, s': State, t: Tid, pc: Pc)
    requires LogOk(s) && ReadersOk(s) && Later(s, s') && s'.th == s.th[t := pc] && ReaderOk(s', pc)
    ensures ReadersOk(s')
  {
    hide ReaderOk, Later, LogOk;
    forall u | u in s'.th ensures ReaderOk(s', s'.th[u]) {
      if u != t { ReaderFrame(s, s', s.th[u]); }
    }
  }

  /** The other threads of a step by the one writer are not writing. */
  lemma {:induction false} OneWriter(s: State, s': State, t: Tid, pc: Pc)
    requires WritersOk(s) && t in s.th && Writing(s.th[t]) && s'.th == s.th[t := pc]
    requires Writing(pc) ==> s'.slot.active == -1 && WriterOk(s', pc)
    ensures WritersOk(s')
  {
    hide WriterOk;
  }

  // ------------------------------------------------------------ writers

  lemma {:induction false} KeepClaim(s: State, s': State, t: Tid, g: string, h: string)
    requires Inv(s) && Claim(s, s', t, g, h)
    ensures Inv(s')
  {
    hide ReaderOk;
    assert ReaderOk(s', s'.th[t]) by { var pc := s'.th[t]; OnlyWriter(s', pc); }
    KeepReaders(s, s', t, s'.th[t]);
  }

  lemma {:induction false} OnlyWriter(s: State, pc: Pc)
    requires Writing(pc) || pc == Idle
    ensures ReaderOk(s, pc)
  {
  }

  lemma {:induction false} KeepMakeOdd(s: State, s': State, t: Tid)
    requires Inv(s) && MakeOdd(s, s', t)
    ensures Inv(s')
  {
    hide ReaderOk;
    OnlyWriter(s', s'.th[t]);
    KeepReaders(s, s', t, s'.th[t]);
    OneWriter(s, s', t, s'.th[t]);
  }

  lemma {:induction false} SpellStep(cells: seq<char>, x: string, k: nat)
    requires k <= |x| < |cells| && cells[..k] == x[..k]
    ensures var c := cells[k := Cell(x, k)];
            if k < |x| then c[..k + 1] == x[..k + 1] else Spells(c, x)
  {
    var c := cells[k := Cell(x, k)];
    assert c[..k] == cells[..k];
    if k < |x| {
      assert c[..k + 1] == c[..k] + [x[k]];
      assert x[..k + 1] == x[..k] + [x[k]];
    } else {
      assert x[..k] == x;
    }
  }

  lemma {:induction false} KeepCopyGuest(s: State, s': State, t: Tid)
    requires Inv(s) && CopyGuest(s, s', t)
    ensures Inv(s')
  {
    hide ReaderOk, Spells;
    var pc := s.th[t];
    assert WriterOk(s, pc);
    SpellStep(s.slot.guest, pc.g, pc.k);
    OnlyWriter(s', s'.th[t]);
    KeepReaders(s, s', t, s'.th[t]);
    OneWriter(s, s', t, s'.th[t]);
  }

  lemma {:induction false} KeepCopyHost(s: State, s': State, t: Tid)
    requires Inv(s) && CopyHost(s, s', t)
    ensures Inv(s')
  {
    hide ReaderOk, Spells;
    var pc := s.th[t];
    assert WriterOk(s, pc);
    SpellStep(s.slot.host, pc.h, pc.k);
    OnlyWriter(s', s'.th[t]);
    KeepReaders(s, s', t, s'.th[t]);
    OneWriter(s, s', t, s'.th[t]);
  }

  lemma {:induction false} KeepTakeSeq(s: State, s': State, t: Tid)
    requires Inv(s) && TakeSeq(s, s', t)
    ensures Inv(s')
  {
    hide ReaderOk, Spells;
    assert WriterOk(s, s.th[t]);
    OnlyWriter(s', s'.th[t]);
    KeepReaders(s, s', t, s'.th[t]);
    OneWriter(s, s', t, s'.th[t]);
  }

  lemma {:induction false} KeepMakeEven(s: State, s': State, t: Tid)
    requires Inv(s) && MakeEven(s, s', t)
    ensures Inv(s')
  {
    hide ReaderOk, Spells;
    assert WriterOk(s, s.th[t]);
    OnlyWriter(s', s'.th[t]);
    KeepReaders(s, s', t, s'.th[t]);
    OneWriter(s, s', t, s'.th[t]);
  }

  lemma {:induction false} KeepPublish(s: State, s': State, t: Tid)
    requires Inv(s) && Publish(s, s', t)
    ensures Inv(s')
  {
    hide ReaderOk, Spells;
    assert WriterOk(s, s.th[t]);
    OnlyWriter(s', s'.th[t]);
    KeepReaders(s, s', t, s'.th[t]);
    OneWriter(s, s', t, s'.th[t]);
  }

  lemma {:induction false} KeepKill(s: State, s': State, t: Tid)
    requires Inv(s) && Kill(s, s', t)
    ensures Inv(s')
  {
    hide ReaderOk, Spells;
    OnlyWriter(s', Idle);
    KeepReaders(s, s', t, Idle);
    SameWriters(s, s');
  }

  /** Nobody writes who did not before, and the slot is as it was. */
  lemma {:induction false} SameWriters(s: State, s': State)
    requires WritersOk(s) && s'.slot == s.slot && s'.pub == s.pub && s'.log == s.log && s.counter <= s'.counter
    requires forall u :: u in s'.th && Writing(s'.th[u]) ==> u in s.th && s'.th[u] == s.th[u]
    ensures WritersOk(s')
  {
  }

  lemma {:induction false} KeepRemove(s: State, s': State, t: Tid)
    requires Inv(s) && Remove(s, s', t)
    ensures Inv(s')
  {
    hide ReaderOk, Spells;
    OnlyWriter(s', Idle);
    KeepReaders(s, s', t, Idle);
  }

  lemma {:induction false} KeepElsewhere(s: State, s': State)
    requires Inv(s) && Elsewhere(s, s')
    ensures Inv(s')
  {
    hide ReaderOk, Spells;
    SameWriters(s, s');
    forall u | u in s'.th ensures ReaderOk(s', s'.th[u]) { ReaderFrame(s, s', s.th[u]); }
  }

  // ------------------------------------------------------------ readers

  lemma {:induction false} ReaderKeeps(s: State, s': State, t: Tid, pc: Pc)
    requires Inv(s) && t in s.th && !Writing(s.th[t]) && !Writing(pc) && s' == To(s, t, pc) && ReaderOk(s', pc)
    ensures Inv(s')
  {
    hide ReaderOk, Spells;
    KeepReaders(s, s', t, pc);
    SameWriters(s, s');
  }

  lemma {:induction false} KeepBegin(s: State, s': State, t: Tid, pfx: Option<string>)
    requires Inv(s) && Begin(s, s', t, pfx)
    ensures Inv(s')
  {
    ReaderKeeps(s, s', t, s'.th[t]);
  }

  /** What a reader sees in a slot nobody has touched since. */
  lemma {:induction false} Sees(s: State, l1: nat)
    requires LogOk(s) && SlotOk(s) && l1 in s.log && s.slot.lock == l1
    ensures Holds(s.slot, s.log[l1]) && Fits(s.log[l1].guest) && Fits(s.log[l1].host)
    ensures forall k :: 0 <= k < |s.log[l1].guest| ==> s.slot.guest[k] == s.log[l1].guest[k] && s.slot.guest[k] != NUL
    ensures forall k :: 0 <= k < |s.log[l1].host| ==> s.slot.host[k] == s.log[l1].host[k] && s.slot.host[k] != NUL
  {
    var m := s.log[l1];
    forall k | 0 <= k < |m.guest| ensures s.slot.guest[k] == m.guest[k] && s.slot.guest[k] != NUL {
      assert s.slot.guest[..|m.guest|][k] == m.guest[k];
    }
    forall k | 0 <= k < |m.host| ensures s.slot.host[k] == m.host[k] && s.slot.host[k] != NUL {
      assert s.slot.host[..|m.host|][k] == m.host[k];
    }
  }

  lemma {:induction false} OwnReader(s: State, t: Tid)
    requires Inv(s) && t in s.th
    ensures ReaderOk(s, s.th[t])
  {
  }

  lemma {:induction false} KeepLoadLock(s: State, s': State, t: Tid)
    requires Inv(s) && LoadLock(s, s', t)
    ensures Inv(s')
  {
    hide ReadersOk, WritersOk;
    var pc := s.th[t];
    assert ReaderOk(s, pc) by { OwnReader(s, t); }
    assert ReaderOk(s', s'.th[t]);
    ReaderKeeps(s, s', t, s'.th[t]);
  }

  lemma {:induction false} KeepLenGuest(s: State, s': State, t: Tid)
    requires Inv(s) && LenGuest(s, s', t)
    ensures Inv(s')
  {
    hide ReadersOk, WritersOk;
    var pc := s.th[t];
    assert ReaderOk(s, pc) by { OwnReader(s, t); }
    if s.slot.lock == pc.l1 { Sees(s, pc.l1); }
    assert ReaderOk(s', s'.th[t]);
    ReaderKeeps(s, s', t, s'.th[t]);
  }

  lemma {:induction false} KeepLenHost(s: State, s': State, t: Tid)
    requires Inv(s) && LenHost(s, s', t)
    ensures Inv(s')
  {
    hide ReadersOk, WritersOk;
    var pc := s.th[t];
    assert ReaderOk(s, pc) by { OwnReader(s, t); }
    if s.slot.lock == pc.l1 { Sees(s, pc.l1); }
    assert ReaderOk(s', s'.th[t]);
    ReaderKeeps(s, s', t, s'.th[t]);
  }

  lemma {:induction false} KeepGetHost(s: State, s': State, t: Tid)
    requires Inv(s) && GetHost(s, s', t)
    ensures Inv(s')
  {
    hide ReadersOk, WritersOk;
    var pc := s.th[t];
    assert ReaderOk(s, pc) by { OwnReader(s, t); }
    if s.slot.lock == pc.l1 {
      Sees(s, pc.l1);
      var x, n := s.log[pc.l1].host, |pc.buf|;
      if n < |x| {
        assert x[..n + 1] == x[..n] + [x[n]];
      } else {
        assert x[..n] == x;
      }
    }
    assert ReaderOk(s', s'.th[t]);
    ReaderKeeps(s, s', t, s'.th[t]);
  }

  lemma {:induction false} KeepGetGuest(s: State, s': State, t: Tid)
    requires Inv(s) && GetGuest(s, s', t)
    ensures Inv(s')
  {
    hide ReadersOk, WritersOk;
    var pc := s.th[t];
    assert ReaderOk(s, pc) by { OwnReader(s, t); }
    if s.slot.lock == pc.l1 {
      Sees(s, pc.l1);
      var x, n := s.log[pc.l1].guest, |pc.buf|;
      if n < |x| {
        assert x[..n + 1] == x[..n] + [x[n]];
      } else {
        assert x[..n] == x;
      }
    }
    assert ReaderOk(s', s'.th[t]);
    ReaderKeeps(s, s', t, s'.th[t]);
  }

  lemma {:induction false} CompareStep(s: State, s': State, t: Tid)
    requires Inv(s) && Compare(s, s', t)
    ensures Inv(s')
  {
    hide ReadersOk, WritersOk;
    var pc := s.th[t];
    assert ReaderOk(s, pc) by { OwnReader(s, t); }
    if s.slot.lock == pc.l1 {
      Sees(s, pc.l1);
      var g := s.log[pc.l1].guest;
      if pc.r.pfx.Some? && pc.k < pc.gl {
        assert g[..pc.k + 1] == g[..pc.k] + [g[pc.k]];
        assert pc.k < |pc.r.pfx.value|;
        assert pc.r.pfx.value[..pc.k + 1] == pc.r.pfx.value[..pc.k] + [pc.r.pfx.value[pc.k]];
      } else {
        assert g[..pc.gl] == g;
      }
    }
    assert ReaderOk(s', s'.th[t]);
    ReaderKeeps(s, s', t, s'.th[t]);
  }

  lemma {:induction false} KeepGetSeq(s: State, s': State, t: Tid)
    requires Inv(s) && GetSeq(s, s', t)
    ensures Inv(s')
  {
    hide ReadersOk, WritersOk;
    var pc := s.th[t];
    assert ReaderOk(s, pc) by { OwnReader(s, t); }
    if s.slot.lock == pc.l1 { Sees(s, pc.l1); }
    assert ReaderOk(s', s'.th[t]);
    ReaderKeeps(s, s', t, s'.th[t]);
  }

  lemma {:induction false} KeepCheckLock(s: State, s': State, t: Tid)
    requires Inv(s) && CheckLock(s, s', t)
    ensures Inv(s')
  {
    hide ReadersOk, WritersOk;
    var pc := s.th[t];
    assert ReaderOk(s, pc) by { OwnReader(s, t); }
    assert ReaderOk(s', s'.th[t]);
    ReaderKeeps(s, s', t, s'.th[t]);
  }

  lemma {:induction false} KeepCheckActive(s: State, s': State, t: Tid)
    requires Inv(s) && CheckActive(s, s', t)
    ensures Inv(s')
  {
    hide ReadersOk, WritersOk;
    var pc := s.th[t];
    assert ReaderOk(s, pc) by { OwnReader(s, t); }
    assert pc.r.v0 <= pc.l1 <= s'.pub && s'.log[pc.l1] == pc.m;
    assert ReaderOk(s', s'.th[t]);
    ReaderKeeps(s, s', t, s'.th[t]);
  }

  lemma {:induction false} KeepGiveUp(s: State, s': State, t: Tid)
    requires Inv(s) && GiveUp(s, s', t)
    ensures Inv(s')
  {
    OnlyWriter(s', Idle);
    ReaderKeeps(s, s', t, Idle);
  }

  // ------------------------------------------------------------ runs

  lemma {:induction false} InitInv(s: State)
    requires Init(s)
    ensures Inv(s)
  {
  }

  lemma {:induction false} NextKeepsInv(s: State, s': State)
    requires Inv(s) && Next(s, s')
    ensures Inv(s') && Later(s, s') && s'.clock == s.clock + 1
  {
    hide Inv;
    if Elsewhere(s, s') {
      KeepElsewhere(s, s');
    } else {
      var t :| Step(s, s', t);
      StepKeepsInv(s, s', t);
    }
    LaterStep(s, s');
  }

  /** A reader changes nothing but where it stands. */
  lemma {:induction false} ReaderShape(s: State, s': State, t: Tid)
    requires ReaderStep(s, s', t)
    ensures t in s.th && s' == To(s, t, s'.th[t]) && Reading(s.th[t])
    ensures s'.th[t] == Idle || (Reading(s'.th[t]) && s'.th[t].r == s.th[t].r)
  {
  }

  lemma {:induction false} WriterShape(s: State, s': State, t: Tid)
    requires WriterStep(s, s', t) && LogOk(s)
    ensures t in s.th && Writing(s.th[t]) && !Reading(s'.th[t]) && s'.th == s.th[t := s'.th[t]]
    ensures s.slot.lock <= s'.slot.lock && s'.clock == s.clock + 1 && (s'.pub == s.pub || s'.pub == s.slot.lock)
    ensures forall v :: v in s.log ==> v in s'.log && s'.log[v] == s.log[v]
  {
  }

  lemma {:induction false} LaterStep(s: State, s': State)
    requires Inv(s) && Next(s, s')
    ensures Later(s, s') && s'.clock == s.clock + 1
  {
    hide ReadersOk, WritersOk, ReaderStep, WriterStep;
    if !Elsewhere(s, s') {
      var t :| Step(s, s', t);
      if ReaderStep(s, s', t) { ReaderShape(s, s', t); }
      else if WriterStep(s, s', t) { WriterShape(s, s', t); }
    }
  }

  lemma {:induction false} StepKeepsInv(s: State, s': State, t: Tid)
    requires Inv(s) && Step(s, s', t)
    ensures Inv(s')
  {
    hide Inv, Claim, Begin, MakeOdd, CopyGuest, CopyHost, TakeSeq, MakeEven, Publish, Kill, Remove,
      LoadLock, LenGuest, LenHost, Compare, GetHost, GetGuest, GetSeq, CheckLock, CheckActive, GiveUp;
    if g, h :| Claim(s, s', t, g, h) { KeepClaim(s, s', t, g, h); }
    else if MakeOdd(s, s', t) { KeepMakeOdd(s, s', t); }
    else if CopyGuest(s, s', t) { KeepCopyGuest(s, s', t); }
    else if CopyHost(s, s', t) { KeepCopyHost(s, s', t); }
    else if TakeSeq(s, s', t) { KeepTakeSeq(s, s', t); }
    else if MakeEven(s, s', t) { KeepMakeEven(s, s', t); }
    else if Publish(s, s', t) { KeepPublish(s, s', t); }
    else if Kill(s, s', t) { KeepKill(s, s', t); }
    else if Remove(s, s', t) { KeepRemove(s, s', t); }
    else if pfx :| Begin(s, s', t, pfx) { KeepBegin(s, s', t, pfx); }
    else if LoadLock(s, s', t) { KeepLoadLock(s, s', t); }
    else if LenGuest(s, s', t) { KeepLenGuest(s, s', t); }
    else if LenHost(s, s', t) { KeepLenHost(s, s', t); }
    else if Compare(s, s', t) { CompareStep(s, s', t); }
    else if GetHost(s, s', t) { KeepGetHost(s, s', t); }
    else if GetGuest(s, s', t) { KeepGetGuest(s, s', t); }
    else if GetSeq(s, s', t) { KeepGetSeq(s, s', t); }
    else if CheckLock(s, s', t) { KeepCheckLock(s, s', t); }
    else if CheckActive(s, s', t) { KeepCheckActive(s, s', t); }
    else { KeepGiveUp(s, s', t); }
  }

  ghost predicate Run(tr: seq<State>) {
    |tr| > 0 && Init(tr[0]) && forall i :: 0 <= i < |tr| - 1 ==> Next(tr[i], tr[i + 1])
  }

  lemma {:induction false} RunKeepsInv(tr: seq<State>, n: nat)
    requires Run(tr) && n < |tr|
    ensures Inv(tr[n]) && tr[n].clock == n
  {
    hide Inv, Next;
    if n == 0 {
      InitInv(tr[0]);
    } else {
      RunKeepsInv(tr, n - 1);
      assert Next(tr[n - 1], tr[n - 1 + 1]);
      NextKeepsInv(tr[n - 1], tr[n]);
    }
  }

  lemma {:induction false} RunLater(tr: seq<State>, b: nat, n: nat)
    requires Run(tr) && b <= n < |tr|
    ensures Later(tr[b], tr[n])
  {
    hide Inv, Next;
    if b < n {
      RunLater(tr, b, n - 1);
      RunKeepsInv(tr, n - 1);
      assert Next(tr[n - 1], tr[n - 1 + 1]);
      NextKeepsInv(tr[n - 1], tr[n]);
    }
  }

  /** The slot holds version `v`, published and not yet taken away. */
  predicate Live(s: State, v: nat) { s.slot.active == 1 && s.slot.lock == v && v in s.log && Holds(s.slot, s.log[v]) }

  /** A version published between two moments was live in between. */
  lemma {:induction false} PublishedWasLive(tr: seq<State>, b: nat, n: nat, v: nat)
    requires Run(tr) && b <= n < |tr| && tr[b].pub < v <= tr[n].pub && v in tr[n].log
    ensures exists k :: b < k <= n && Live(tr[k], v)
  {
    hide Inv, Next, Live;
    RunKeepsInv(tr, n - 1);
    RunKeepsInv(tr, n);
    assert Next(tr[n - 1], tr[n - 1 + 1]);
    if v <= tr[n - 1].pub {
      PubIsLogged(tr[n - 1], v, tr[n]);
      PublishedWasLive(tr, b, n - 1, v);
    } else {
      PubStep(tr[n - 1], tr[n], v);
    }
  }

  lemma {:induction false} PubIsLogged(s: State, v: nat, s': State)
    requires Inv(s) && v <= s.pub && v in s'.log && Inv(s')
    ensures v in s.log
  {
  }

  lemma {:induction false} PubStep(s: State, s': State, v: nat)
    requires Inv(s) && Inv(s') && Next(s, s') && s.pub < v <= s'.pub && v in s'.log
    ensures Live(s', v)
  {
    hide ReaderOk, ReadersOk, ReaderStep;
    var t :| Step(s, s', t);
    if ReaderStep(s, s', t) { ReaderShape(s, s', t); }
    assert Publish(s, s', t);
    assert WriterOk(s, s.th[t]);
  }

  /** When the version that was live as a read began was live. */
  lemma {:induction false} BeganLive(tr: seq<State>, n: nat, t: Tid)
    requires Run(tr) && n < |tr| && t in tr[n].th && Reading(tr[n].th[t])
    ensures tr[n].th[t].r.since < n && Live(tr[tr[n].th[t].r.since], tr[n].th[t].r.v0)
  {
    hide Inv;
    RunKeepsInv(tr, n);
    if n == 0 {
      assert false;
    }
    RunKeepsInv(tr, n - 1);
    assert Next(tr[n - 1], tr[n - 1 + 1]);
    if t in tr[n - 1].th && Reading(tr[n - 1].th[t]) {
      SameRead(tr[n - 1], tr[n], t);
      BeganLive(tr, n - 1, t);
    } else {
      FreshRead(tr[n - 1], tr[n], t);
    }
  }

  lemma {:induction false} SameRead(s: State, s': State, t: Tid)
    requires Inv(s) && Next(s, s') && t in s.th && t in s'.th && Reading(s.th[t]) && Reading(s'.th[t])
    ensures s'.th[t].r == s.th[t].r
  {
    hide ReadersOk, WritersOk, ReaderStep, WriterStep;
    if !Elsewhere(s, s') {
      var u :| Step(s, s', u);
      if ReaderStep(s, s', u) { ReaderShape(s, s', u); }
      else if WriterStep(s, s', u) { WriterShape(s, s', u); }
    }
  }

  lemma {:induction false} FreshRead(s: State, s': State, t: Tid)
    requires Inv(s) && Next(s, s') && t in s'.th && Reading(s'.th[t]) && !(t in s.th && Reading(s.th[t]))
    ensures s'.th[t].r.since == s.clock && Live(s, s'.th[t].r.v0)
  {
    hide ReadersOk, WritersOk, ReaderStep, WriterStep;
    var u :| Step(s, s', u);
    if ReaderStep(s, s', u) { ReaderShape(s, s', u); }
    else if WriterStep(s, s', u) { WriterShape(s, s', u); }
  }

  /** The seqlock is linearizable: an accepted read is a mount that one bind_add
   sealed whole, live in the slot at some moment during the read, and its mount
   point is the prefix that was asked for. */
  lemma {:induction false} AcceptedReadsAreLive(tr: seq<State>, n: nat, t: Tid)
    requires Run(tr) && n < |tr| && t in tr[n].th && tr[n].th[t].Accepted?
    ensures Wanted(tr[n].th[t].r, tr[n].th[t].m)
    ensures exists k, v :: tr[n].th[t].r.since <= k <= n && Live(tr[k], v) && tr[k].log[v] == tr[n].th[t].m
  {
    RunKeepsInv(tr, n);
    BeganLive(tr, n, t);
    var r, m := tr[n].th[t].r, tr[n].th[t].m;
    assert ReaderOk(tr[n], tr[n].th[t]);
    var v :| r.v0 <= v <= tr[n].pub && v in tr[n].log && tr[n].log[v] == m;
    hide Inv, ReaderOk;
    RunKeepsInv(tr, r.since);
    var k := r.since;
    if v > r.v0 {
      LivePub(tr[r.since], r.v0);
      PublishedWasLive(tr, r.since, n, v);
      k :| r.since < k <= n && Live(tr[k], v);
    }
    RunLater(tr, k, n);
    assert Live(tr[k], v) && tr[k].log[v] == m;
  }

  lemma {:induction false} LivePub(s: State, v: nat)
    requires Inv(s) && Live(s, v)
    ensures s.pub == v
  {
  }

  /** A sealed version was written by one bind_add, from its own arguments. */
  lemma {:induction false} SealedByOne(tr: seq<State>, n: nat, v: nat)
    requires Run(tr) && n < |tr| && v in tr[n].log
    ensures exists j, w :: 0 <= j < n && MakeEven(tr[j], tr[j + 1], w) && tr[j].th[w].m == tr[n].log[v]
  {
    hide Inv;
    if n == 0 {
      assert false;
    }
    assert Next(tr[n - 1], tr[n - 1 + 1]);
    RunKeepsInv(tr, n - 1);
    NextKeepsInv(tr[n - 1], tr[n]);
    if v in tr[n - 1].log {
      SealedByOne(tr, n - 1, v);
    } else {
      SealStep(tr[n - 1], tr[n], v);
      var w :| MakeEven(tr[n - 1], tr[n], w) && tr[n - 1].th[w].m == tr[n].log[v];
      assert MakeEven(tr[n - 1], tr[n - 1 + 1], w);
    }
  }

  lemma {:induction false} SealStep(s: State, s': State, v: nat)
    requires Next(s, s') && v !in s.log && v in s'.log
    ensures exists w :: MakeEven(s, s', w) && s.th[w].m == s'.log[v]
  {
    var t :| Step(s, s', t);
    assert MakeEven(s, s', t);
  }
}
