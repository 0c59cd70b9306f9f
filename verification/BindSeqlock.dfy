/**
 One slot of the mount table under concurrent mounts, unmounts and lock-free
 readers, as steps of any number of threads, a character at a time. The other
 slots show only in the counter that orders mounts.

 A reader that accepts what it read has read a mount whole: the guest path, host
 path and position that one bind_add wrote, live at a moment during the read.
 */
module BindSeqlock {
  import opened Options

  /** PATH_MAX */
  const MAX: nat := 4096

  const NUL: char := '\0'

  type Tid = nat

  datatype Mount = Mount(guest: string, host: string, order: nat)

  /** A C string in a buffer. */
  predicate Spells(cells: seq<char>, x: string) { |x| < |cells| && cells[..|x|] == x && cells[|x|] == NUL }

  predicate Fits(x: string) { |x| < MAX && NUL !in x }

  /** `active` is 0 free, -1 being claimed, 1 live; `lock` is odd while the slot
   is written. */
  datatype Slot = Slot(guest: seq<char>, host: seq<char>, order: nat, active: int, lock: nat)

  /** One attempt to read: the path to match (None: any), when it began, and the
   version of the slot that was live then. */
  datatype Read = Read(pfx: Option<string>, since: nat, v0: nat)

  datatype Pc =
    | Idle
    | WClaimed(g: string, h: string)
    | WGuest(g: string, h: string, k: nat)
    | WHost(g: string, h: string, k: nat)
    | WSeq(g: string, h: string)
    | WSeal(m: Mount)
    | WPublish
    | RLock(r: Read)
    | RLenG(r: Read, l1: nat, k: nat)
    | RCmp(r: Read, l1: nat, gl: nat, k: nat)
    | RLenH(r: Read, l1: nat, gl: nat, k: nat)
    | RCopyH(r: Read, l1: nat, gl: nat, hl: nat, buf: string)
    | RCopyG(r: Read, l1: nat, gl: nat, host: string, buf: string)
    | RSeq(r: Read, l1: nat, guest: string, host: string)
    | RCheck(r: Read, l1: nat, m: Mount)
    | RActive(r: Read, l1: nat, m: Mount)
    | Accepted(r: Read, m: Mount)

  /** `counter` is g_bindseq. For the proof: `log` has the mount each version of
   the slot was sealed with, `pub` is the last version published, `clock` counts
   steps. */
  datatype State = State(slot: Slot, counter: nat, log: map<nat, Mount>, pub: nat, clock: nat, th: map<Tid, Pc>)

  predicate Init(s: State) {
    && |s.slot.guest| == MAX && |s.slot.host| == MAX && s.slot.active == 0 && s.slot.lock == 0
    && s.log == map[] && s.pub == 0 && s.clock == 0 && forall t :: t in s.th ==> s.th[t] == Idle
  }

  // ------------------------------------------------------------ steps

  function To(s: State, t: Tid, pc: Pc): State { s.(th := s.th[t := pc], clock := s.clock + 1) }

  predicate At(s: State, t: Tid) { t in s.th }

  // bind_add

  predicate Claim(s: State, s': State, t: Tid, g: string, h: string) {
    && At(s, t) && s.th[t] == Idle && s.slot.active == 0 && Fits(g) && Fits(h)
    && s' == To(s, t, WClaimed(g, h)).(slot := s.slot.(active := -1))
  }

  predicate MakeOdd(s: State, s': State, t: Tid) {
    && At(s, t) && s.th[t].WClaimed?
    && s' == To(s, t, WGuest(s.th[t].g, s.th[t].h, 0)).(slot := s.slot.(lock := s.slot.lock + 1))
  }

  function Cell(x: string, k: nat): char { if k < |x| then x[k] else NUL }

  /** One character of strcpy, the terminator last. */
  predicate CopyGuest(s: State, s': State, t: Tid) {
    && At(s, t) && s.th[t].WGuest? && var pc := s.th[t];
    && pc.k < |s.slot.guest|
    && s' == To(s, t, if pc.k < |pc.g| then WGuest(pc.g, pc.h, pc.k + 1) else WHost(pc.g, pc.h, 0))
             .(slot := s.slot.(guest := s.slot.guest[pc.k := Cell(pc.g, pc.k)]))
  }

  predicate CopyHost(s: State, s': State, t: Tid) {
    && At(s, t) && s.th[t].WHost? && var pc := s.th[t];
    && pc.k < |s.slot.host|
    && s' == To(s, t, if pc.k < |pc.h| then WHost(pc.g, pc.h, pc.k + 1) else WSeq(pc.g, pc.h))
             .(slot := s.slot.(host := s.slot.host[pc.k := Cell(pc.h, pc.k)]))
  }

  predicate TakeSeq(s: State, s': State, t: Tid) {
    && At(s, t) && s.th[t].WSeq?
    && s' == To(s, t, WSeal(Mount(s.th[t].g, s.th[t].h, s.counter + 1)))
             .(slot := s.slot.(order := s.counter + 1), counter := s.counter + 1)
  }

  predicate MakeEven(s: State, s': State, t: Tid) {
    && At(s, t) && s.th[t].WSeal?
    && s' == To(s, t, WPublish).(slot := s.slot.(lock := s.slot.lock + 1), log := s.log[s.slot.lock + 1 := s.th[t].m])
  }

  predicate Publish(s: State, s': State, t: Tid) {
    && At(s, t) && s.th[t] == WPublish
    && s' == To(s, t, Idle).(slot := s.slot.(active := 1), pub := s.slot.lock)
  }

  /** A writer killed where it stands leaks the slot. */
  predicate Kill(s: State, s': State, t: Tid) { At(s, t) && s' == To(s, t, Idle) }

  /** bind_remove, whichever mount it was after. */
  predicate Remove(s: State, s': State, t: Tid) {
    && At(s, t) && s.th[t] == Idle && s.slot.active == 1
    && s' == To(s, t, Idle).(slot := s.slot.(active := 0))
  }

  /** Mounts in other slots. */
  predicate Elsewhere(s: State, s': State) { s' == s.(counter := s'.counter, clock := s.clock + 1) && s'.counter >= s.counter }

  // bind_snap

  predicate Begin(s: State, s': State, t: Tid, pfx: Option<string>) {
    && At(s, t) && s.th[t] == Idle && s.slot.active == 1
    && s' == To(s, t, RLock(Read(pfx, s.clock, s.slot.lock)))
  }

  /** A miss, a slot found inactive, or another try. */
  predicate GiveUp(s: State, s': State, t: Tid) { At(s, t) && Reading(s.th[t]) && s' == To(s, t, Idle) }

  predicate LoadLock(s: State, s': State, t: Tid) {
    && At(s, t) && s.th[t].RLock? && s.slot.lock % 2 == 0
    && s' == To(s, t, RLenG(s.th[t].r, s.slot.lock, 0))
  }

  predicate LenGuest(s: State, s': State, t: Tid) {
    && At(s, t) && s.th[t].RLenG? && var pc := s.th[t];
    && pc.k < |s.slot.guest|
    && s' == To(s, t, if s.slot.guest[pc.k] == NUL then RCmp(pc.r, pc.l1, pc.k, 0) else RLenG(pc.r, pc.l1, pc.k + 1))
  }

  /** strncmp with the wanted path, and what follows it there. */
  predicate Compare(s: State, s': State, t: Tid) {
    && At(s, t) && s.th[t].RCmp? && var pc := s.th[t];
    && (pc.r.pfx.Some? && pc.k < pc.gl ==>
          && pc.k < |s.slot.guest| && s.slot.guest[pc.k] == Cell(pc.r.pfx.value, pc.k)
          && s' == To(s, t, if s.slot.guest[pc.k] == NUL then RCmp(pc.r, pc.l1, pc.gl, pc.gl)
                            else RCmp(pc.r, pc.l1, pc.gl, pc.k + 1)))
    && (pc.r.pfx.Some? && pc.k >= pc.gl ==> Cell(pc.r.pfx.value, pc.gl) in {NUL, '/'})
    && (pc.r.pfx.None? || pc.k >= pc.gl ==> s' == To(s, t, RLenH(pc.r, pc.l1, pc.gl, 0)))
  }

  predicate LenHost(s: State, s': State, t: Tid) {
    && At(s, t) && s.th[t].RLenH? && var pc := s.th[t];
    && pc.k < |s.slot.host|
    && s' == To(s, t, if s.slot.host[pc.k] == NUL then RCopyH(pc.r, pc.l1, pc.gl, pc.k, "")
                      else RLenH(pc.r, pc.l1, pc.gl, pc.k + 1))
  }

  predicate GetHost(s: State, s': State, t: Tid) {
    && At(s, t) && s.th[t].RCopyH? && var pc := s.th[t];
    && |pc.buf| <= pc.hl && |pc.buf| < |s.slot.host|
    && s' == To(s, t, if |pc.buf| < pc.hl then RCopyH(pc.r, pc.l1, pc.gl, pc.hl, pc.buf + [s.slot.host[|pc.buf|]])
                      else RCopyG(pc.r, pc.l1, pc.gl, pc.buf, ""))
  }

  predicate GetGuest(s: State, s': State, t: Tid) {
    && At(s, t) && s.th[t].RCopyG? && var pc := s.th[t];
    && |pc.buf| <= pc.gl && |pc.buf| < |s.slot.guest|
    && s' == To(s, t, if |pc.buf| < pc.gl then RCopyG(pc.r, pc.l1, pc.gl, pc.host, pc.buf + [s.slot.guest[|pc.buf|]])
                      else RSeq(pc.r, pc.l1, pc.buf, pc.host))
  }

  predicate GetSeq(s: State, s': State, t: Tid) {
    && At(s, t) && s.th[t].RSeq? && var pc := s.th[t];
    s' == To(s, t, RCheck(pc.r, pc.l1, Mount(pc.guest, pc.host, s.slot.order)))
  }

  predicate CheckLock(s: State, s': State, t: Tid) {
    && At(s, t) && s.th[t].RCheck? && s.slot.lock == s.th[t].l1
    && s' == To(s, t, RActive(s.th[t].r, s.th[t].l1, s.th[t].m))
  }

  predicate CheckActive(s: State, s': State, t: Tid) {
    && At(s, t) && s.th[t].RActive? && s.slot.active == 1
    && s' == To(s, t, Accepted(s.th[t].r, s.th[t].m))
  }

  predicate WriterStep(s: State, s': State, t: Tid) {
    || MakeOdd(s, s', t) || CopyGuest(s, s', t) || CopyHost(s, s', t) || TakeSeq(s, s', t)
    || MakeEven(s, s', t) || Publish(s, s', t)
  }

  predicate ReaderStep(s: State, s': State, t: Tid) {
    || GiveUp(s, s', t) || LoadLock(s, s', t) || LenGuest(s, s', t) || Compare(s, s', t)
    || LenHost(s, s', t) || GetHost(s, s', t) || GetGuest(s, s', t) || GetSeq(s, s', t) || CheckLock(s, s', t)
    || CheckActive(s, s', t)
  }

  ghost predicate Step(s: State, s': State, t: Tid) {
    || (exists g, h :: Claim(s, s', t, g, h)) || WriterStep(s, s', t) || Kill(s, s', t) || Remove(s, s', t)
    || (exists pfx :: Begin(s, s', t, pfx)) || ReaderStep(s, s', t)
  }

  ghost predicate Next(s: State, s': State) { (exists t :: Step(s, s', t)) || Elsewhere(s, s') }

  // ------------------------------------------------------------ invariant

  predicate Writing(pc: Pc) {
    pc.WClaimed? || pc.WGuest? || pc.WHost? || pc.WSeq? || pc.WSeal? || pc.WPublish?
  }

  predicate Reading(pc: Pc) { pc != Idle && !Writing(pc) }

  predicate Holds(x: Slot, m: Mount) { Spells(x.guest, m.guest) && Spells(x.host, m.host) && x.order == m.order }

  ghost predicate LogOk(s: State) {
    && (forall v :: v in s.log <==> 2 <= v <= s.slot.lock && v % 2 == 0)
    && (forall v :: v in s.log ==> Fits(s.log[v].guest) && Fits(s.log[v].host) && s.log[v].order <= s.counter)
    && (forall v, w :: v in s.log && w in s.log && v < w ==> s.log[v].order < s.log[w].order)
  }

  predicate SlotOk(s: State) {
    && |s.slot.guest| == MAX && |s.slot.host| == MAX
    && s.slot.active in {-1, 0, 1}
    && (s.slot.active != -1 ==> s.slot.lock % 2 == 0 && s.pub == s.slot.lock)
    && (s.slot.active == 1 ==> s.slot.lock > 0)
    && (s.slot.lock in s.log ==> Holds(s.slot, s.log[s.slot.lock]))
    && s.pub <= s.slot.lock && s.pub + 2 >= s.slot.lock
  }

  /** What the one writer has done so far. */
  predicate WriterOk(s: State, pc: Pc) {
    match pc
    case WClaimed(g, h) => Fits(g) && Fits(h) && s.slot.lock % 2 == 0 && s.pub == s.slot.lock
    case WGuest(g, h, k) => Fits(g) && Fits(h) && Odd(s) && k <= |g| && k <= |s.slot.guest| && s.slot.guest[..k] == g[..k]
    case WHost(g, h, k) =>
      Fits(g) && Fits(h) && Odd(s) && Spells(s.slot.guest, g) && k <= |h| && k <= |s.slot.host| && s.slot.host[..k] == h[..k]
    case WSeq(g, h) => Fits(g) && Fits(h) && Odd(s) && Spells(s.slot.guest, g) && Spells(s.slot.host, h)
    case WSeal(m) =>
      && Fits(m.guest) && Fits(m.host) && Odd(s) && Holds(s.slot, m) && m.order <= s.counter
      && (forall v :: v in s.log ==> s.log[v].order < m.order)
    case WPublish => s.slot.lock % 2 == 0 && s.slot.lock == s.pub + 2
    case _ => true
  }

  predicate Odd(s: State) { s.slot.lock % 2 == 1 && s.slot.lock == s.pub + 1 }

  ghost predicate WritersOk(s: State) {
    && (forall t :: t in s.th && Writing(s.th[t]) ==> s.slot.active == -1 && WriterOk(s, s.th[t]))
    && (forall t, u :: t in s.th && u in s.th && Writing(s.th[t]) && Writing(s.th[u]) ==> t == u)
  }

  predicate Began(s: State, r: Read) { r.v0 in s.log && r.v0 <= s.pub && r.since < s.clock }

  predicate Sampled(s: State, r: Read, l1: nat) { Began(s, r) && r.v0 <= l1 <= s.slot.lock && l1 in s.log }

  predicate Wanted(r: Read, m: Mount) {
    r.pfx.Some? ==> |m.guest| <= |r.pfx.value| && m.guest == r.pfx.value[..|m.guest|] && Cell(r.pfx.value, |m.guest|) in {NUL, '/'}
  }

  /** What a reader has, if no writer came since it sampled the lock: so much of
   the mount the slot was sealed with. */
  predicate ReaderOk(s: State, pc: Pc) {
    match pc
    case RLock(r) => Began(s, r)
    case RLenG(r, l1, k) => Sampled(s, r, l1) && (s.slot.lock == l1 ==> k <= |s.log[l1].guest|)
    case RCmp(r, l1, gl, k) =>
      && Sampled(s, r, l1)
      && (s.slot.lock == l1 ==>
            && gl == |s.log[l1].guest| && k <= gl
            && (r.pfx.Some? ==> k <= |r.pfx.value| && s.log[l1].guest[..k] == r.pfx.value[..k]))
    case RLenH(r, l1, gl, k) =>
      Sampled(s, r, l1) && (s.slot.lock == l1 ==> gl == |s.log[l1].guest| && Wanted(r, s.log[l1]) && k <= |s.log[l1].host|)
    case RCopyH(r, l1, gl, hl, buf) =>
      && Sampled(s, r, l1)
      && (s.slot.lock == l1 ==>
            && gl == |s.log[l1].guest| && Wanted(r, s.log[l1]) && hl == |s.log[l1].host|
            && |buf| <= hl && buf == s.log[l1].host[..|buf|])
    case RCopyG(r, l1, gl, host, buf) =>
      && Sampled(s, r, l1)
      && (s.slot.lock == l1 ==>
            && gl == |s.log[l1].guest| && Wanted(r, s.log[l1]) && host == s.log[l1].host
            && |buf| <= gl && buf == s.log[l1].guest[..|buf|])
    case RSeq(r, l1, guest, host) =>
      Sampled(s, r, l1) && (s.slot.lock == l1 ==> guest == s.log[l1].guest && host == s.log[l1].host && Wanted(r, s.log[l1]))
    case RCheck(r, l1, m) => Sampled(s, r, l1) && (s.slot.lock == l1 ==> m == s.log[l1] && Wanted(r, m))
    case RActive(r, l1, m) => Sampled(s, r, l1) && m == s.log[l1] && Wanted(r, m)
    case Accepted(r, m) => Began(s, r) && Wanted(r, m) && exists v :: r.v0 <= v <= s.pub && v in s.log && s.log[v] == m
    case _ => true
  }

  ghost predicate ReadersOk(s: State) { forall t :: t in s.th ==> ReaderOk(s, s.th[t]) }

  ghost predicate Inv(s: State) { LogOk(s) && SlotOk(s) && WritersOk(s) && ReadersOk(s) }
}
