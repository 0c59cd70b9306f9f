/**
 The emulator's ten ranked locks, the fork barrier over descriptor windows and
 the descriptor registry's lock: a thread that passes the mask test takes them in
 rank order, the fork handler takes them all in that order, and so nobody waits
 in a circle. A lock is its bit in the mask, and the bits are in rank order:
 jit statistics, /proc files, system statistics, netlink, signalfd, signal
 actions, threads, task, CASP and, innermost, the address space.
 */
module LockOrder {
  type Tid = nat

  const AS: bv32 := 0x200

  /** Behind every lock: the barrier over windows, and the registry's lock. */
  const BARRIER: bv32 := 0x400
  const REGISTRY: bv32 := 0x800

  predicate IsLock(b: bv32) {
    b in {0x001, 0x002, 0x004, 0x008, 0x010, 0x020, 0x040, 0x080, 0x100, 0x200}
  }

  // ------------------------------------------------------------ the mask test

  /** EMU_LK_INNER */
  function Inner(bit: bv32): bv32 { !(bit - 1) }

  /** The test EMU_LOCK makes before it takes a lock. */
  predicate Fires(held: bv32, bit: bv32) { held & Inner(bit) != 0 }

  lemma {:induction false} FiresIsOrder(held: bv32, b: bv32)
    requires IsLock(b)
    ensures Fires(held, b) <==> held >= b
  {
  }

  lemma {:induction false} HighBit(held: bv32, b: bv32)
    requires IsLock(b) && held < BARRIER
    ensures held >= b <==>
            || (b <= 0x001 && held & 0x001 != 0) || (b <= 0x002 && held & 0x002 != 0) || (b <= 0x004 && held & 0x004 != 0)
            || (b <= 0x008 && held & 0x008 != 0) || (b <= 0x010 && held & 0x010 != 0) || (b <= 0x020 && held & 0x020 != 0)
            || (b <= 0x040 && held & 0x040 != 0) || (b <= 0x080 && held & 0x080 != 0) || (b <= 0x100 && held & 0x100 != 0)
            || (b <= 0x200 && held & 0x200 != 0)
  {
  }

  /** The test fires exactly when a lock of this rank or a further inner one is
   held. */
  lemma {:induction false} FiresMeans(held: bv32, b: bv32)
    requires IsLock(b) && held < BARRIER
    ensures Fires(held, b) <==> exists c :: IsLock(c) && b <= c && held & c != 0
  {
    FiresIsOrder(held, b);
    HighBit(held, b);
    assert IsLock(0x001) && IsLock(0x002) && IsLock(0x004) && IsLock(0x008) && IsLock(0x010);
    assert IsLock(0x020) && IsLock(0x040) && IsLock(0x080) && IsLock(0x100) && IsLock(0x200);
    hide IsLock, Fires;
    if c :| IsLock(c) && b <= c && held & c != 0 {
      HoldsIsOrder(held, c);
    }
  }

  lemma {:induction false} HoldsIsOrder(held: bv32, b: bv32)
    requires IsLock(b) && held & b != 0
    ensures b <= held
  {
  }

  // ------------------------------------------------------------ threads

  /** What a thread is waiting for; a helper thread, parked, for the fork to be
   over. */
  datatype Want = Nothing | Lock(b: bv32) | Window | Barrier | Registry | Parked

  /** In emu_atfork_prepare, in emu_atfork_parent, or neither. */
  datatype Fork = NoFork | Taking | Dropping

  /** `mask` and `asDepth` are what the thread has recorded, `raw` the locks the
   fork handler took, which it does not record. The thread is inside `win`
   windows; it may have the barrier (exclusive) and the registry's lock. */
  datatype Thread = Thread(mask: bv32, asDepth: nat, raw: bv32, win: nat, barrier: bool, registry: bool, fork: Fork, want: Want)

  /** The locks a thread has. */
  function Held(x: Thread): bv32 { HeldBits(x.fork != NoFork, x.raw, x.mask, x.asDepth > 0) }

  function HeldBits(forking: bool, raw: bv32, mask: bv32, deep: bool): bv32 {
    if forking then raw else if deep then mask | AS else mask
  }

  datatype State = State(th: map<Tid, Thread>)

  const IDLE := Thread(0, 0, 0, 0, false, false, NoFork, Nothing)

  predicate Init(s: State) { forall t :: t in s.th ==> s.th[t] == IDLE }

  function Put(s: State, t: Tid, x: Thread): State { State(s.th[t := x]) }

  predicate Runs(s: State, t: Tid) { t in s.th && s.th[t].want == Nothing }

  /** `t` cannot have what it waits for while `u`, perhaps `t` itself, has what it
   has. */
  predicate BlockedBy(s: State, t: Tid, u: Tid) {
    && t in s.th && u in s.th
    && match s.th[t].want
       case Nothing => false
       case Lock(b) => Has(s.th[u], b)
       case Window => s.th[u].barrier
       case Barrier => s.th[u].barrier || s.th[u].win > 0
       case Registry => s.th[u].registry
       case Parked => s.th[u].fork != NoFork
  }

  // asking

  /** EMU_LOCK, where the test does not fire and no window is open. */
  predicate Asks(s: State, s': State, t: Tid, b: bv32) {
    && Runs(s, t) && var x := s.th[t];
    && IsLock(b) && b != AS && x.fork == NoFork && x.win == 0 && !x.registry && !Fires(Held(x), b)
    && s' == Put(s, t, x.(want := Lock(b)))
  }

  /** as_lock, which makes no test and may nest. */
  predicate AsksAs(s: State, s': State, t: Tid) {
    && Runs(s, t) && var x := s.th[t];
    && x.fork == NoFork && x.win == 0 && !x.registry
    && s' == Put(s, t, if x.asDepth > 0 then x.(asDepth := x.asDepth + 1) else x.(want := Lock(AS)))
  }

  /** fdwin_enter, which may nest. */
  predicate AsksWindow(s: State, s': State, t: Tid) {
    && Runs(s, t) && var x := s.th[t];
    && x.fork == NoFork && !x.registry
    && s' == Put(s, t, if x.win > 0 then x.(win := x.win + 1) else x.(want := Window))
  }

  predicate AsksRegistry(s: State, s': State, t: Tid) {
    && Runs(s, t) && var x := s.th[t];
    && (x.win > 0 || (x.fork == Taking && x.barrier)) && !x.registry
    && s' == Put(s, t, x.(want := Registry))
  }

  /** helper_park_point, between two pieces of work. */
  predicate Parks(s: State, s': State, t: Tid) {
    && Runs(s, t) && var x := s.th[t];
    && x.fork == NoFork && x.mask == 0 && x.asDepth == 0 && x.win == 0 && !x.registry
    && s' == Put(s, t, x.(want := Parked))
  }

  /** fork, which emu_fork_check lets begin with nothing held. */
  predicate Forks(s: State, s': State, t: Tid) {
    && Runs(s, t) && var x := s.th[t];
    && x.fork == NoFork && x.mask == 0 && x.asDepth == 0 && x.win == 0 && !x.registry
    && s' == Put(s, t, x.(fork := Taking, raw := 0))
  }

  /** emu_atfork_prepare: the next lock in the order, and the barrier last. */
  predicate ForkAsks(s: State, s': State, t: Tid) {
    && Runs(s, t) && var x := s.th[t];
    && x.fork == Taking && !x.barrier
    && s' == Put(s, t, x.(want := if x.raw < 0x3ff then Lock(x.raw + 1) else Barrier))
  }

  /** The wait is over. */
  ghost predicate Gets(s: State, s': State, t: Tid) {
    && t in s.th && (forall u :: !BlockedBy(s, t, u))
    && var x := s.th[t].(want := Nothing);
       match s.th[t].want
       case Nothing => false
       case Lock(b) => s' == Put(s, t, Got(x, b))
       case Window => s' == Put(s, t, x.(win := 1))
       case Barrier => s' == Put(s, t, x.(barrier := true))
       case Registry => s' == Put(s, t, x.(registry := true))
       case Parked => s' == Put(s, t, x)
  }

  function Got(x: Thread, b: bv32): Thread {
    if x.fork != NoFork then x.(raw := Join(x.raw, b))
    else if b == AS then x.(asDepth := 1)
    else x.(mask := Join(x.mask, b))
  }

  function Join(a: bv32, b: bv32): bv32 { a | b }

  // releasing

  /** EMU_UNLOCK */
  predicate Unlocks(s: State, s': State, t: Tid, b: bv32) {
    && Runs(s, t) && IsLock(b) && b != AS && s.th[t].fork == NoFork && s.th[t].mask & b != 0
    && s' == Put(s, t, s.th[t].(mask := s.th[t].mask & !b))
  }

  predicate UnlocksAs(s: State, s': State, t: Tid) {
    Runs(s, t) && s.th[t].fork == NoFork && s.th[t].asDepth > 0 && s' == Put(s, t, s.th[t].(asDepth := s.th[t].asDepth - 1))
  }

  predicate Leaves(s: State, s': State, t: Tid) {
    Runs(s, t) && s.th[t].win > 0 && !s.th[t].registry && s' == Put(s, t, s.th[t].(win := s.th[t].win - 1))
  }

  predicate DropsRegistry(s: State, s': State, t: Tid) {
    && Runs(s, t) && s.th[t].registry
    && s' == Put(s, t, s.th[t].(registry := false, fork := if s.th[t].barrier then Dropping else s.th[t].fork))
  }

  /** emu_atfork_parent: the barrier, then the locks, innermost first. */
  predicate ForkDrops(s: State, s': State, t: Tid) {
    && Runs(s, t) && var x := s.th[t];
    && x.fork == Dropping && !x.registry
    && s' == Put(s, t, if x.barrier then x.(barrier := false) else if x.raw != 0 then x.(raw := x.raw >> 1) else x.(fork := NoFork))
  }

  ghost predicate Step(s: State, s': State, t: Tid, b: bv32) {
    || Asks(s, s', t, b) || AsksAs(s, s', t) || AsksWindow(s, s', t) || AsksRegistry(s, s', t) || Forks(s, s', t) || Parks(s, s', t)
    || ForkAsks(s, s', t) || Gets(s, s', t) || Unlocks(s, s', t, b) || UnlocksAs(s, s', t) || Leaves(s, s', t)
    || DropsRegistry(s, s', t) || ForkDrops(s, s', t)
  }

  ghost predicate Next(s: State, s': State) { exists t, b :: Step(s, s', t, b) }

  // ------------------------------------------------------------ invariant

  /** The rank waited for. */
  function Rank(w: Want): bv32 {
    match w case Nothing => 0 case Lock(b) => b case Window => BARRIER case Barrier => BARRIER case Registry => REGISTRY
    case Parked => 1
  }

  /** Everything the thread has is of lower rank than what it waits for. */
  predicate InOrder(x: Thread) {
    x.want != Nothing ==> Held(x) < Rank(x.want) && (x.win > 0 || x.barrier ==> x.want == Registry) && !x.registry
  }

  /** The first so many locks of the order. */
  predicate Prefix(m: bv32) { m <= 0x3ff && m & (m + 1) == 0 }

  predicate ThreadOk(x: Thread) {
    && x.mask < AS && Prefix(x.raw) && InOrder(x)
    && (x.want.Lock? ==> IsLock(x.want.b))
    && (x.registry || x.want == Registry ==> x.win > 0 || x.barrier)
    && (x.fork == NoFork ==> x.raw == 0 && !x.barrier && x.want != Barrier)
    && (x.fork != NoFork ==> x.mask == 0 && x.asDepth == 0 && x.win == 0 && x.want != Window && x.want != Parked)
    && (x.fork == Taking && x.want.Lock? ==> x.want.b == x.raw + 1)
    && (x.fork == Dropping ==> x.want == Nothing)
  }

  predicate Disjoint(a: bv32, b: bv32) { a & b == 0 }

  predicate Within(a: bv32, b: bv32) { a & !b == 0 }

  /** No lock in two hands, nobody else in a window while one thread has the
   barrier, one registrar at a time. */
  predicate Apart(x: Thread, y: Thread) {
    && Disjoint(Held(x), Held(y))
    && !(x.barrier && (y.barrier || y.win > 0)) && !(y.barrier && x.win > 0)
    && !(x.registry && y.registry)
  }

  ghost predicate Exclusive(s: State) {
    forall t, u :: t in s.th && u in s.th && t != u ==> Apart(s.th[t], s.th[u])
  }

  ghost predicate Inv(s: State) {
    (forall t :: t in s.th ==> ThreadOk(s.th[t])) && Exclusive(s)
  }

  lemma {:induction false} ApartSwaps(x: Thread, y: Thread)
    requires Apart(x, y)
    ensures Apart(y, x)
  {
    hide Disjoint, Held;
    DisjointSwaps(Held(x), Held(y));
  }

  lemma {:induction false} DisjointSwaps(a: bv32, b: bv32)
    requires Disjoint(a, b)
    ensures Disjoint(b, a)
  {
  }

  lemma {:induction false} KeepThread(s: State, t: Tid, x: Thread)
    requires Inv(s) && ThreadOk(x) && t in s.th && forall u :: u in s.th && u != t ==> Apart(x, s.th[u])
    ensures Inv(Put(s, t, x))
  {
    hide ThreadOk, Apart;
    var s' := Put(s, t, x);
    forall u, v | u in s'.th && v in s'.th && u != v ensures Apart(s'.th[u], s'.th[v]) {
      if v == t { ApartSwaps(x, s.th[u]); }
    }
  }

  lemma {:induction false} SameHeld(x: Thread, y: Thread)
    requires x.fork == y.fork && x.raw == y.raw && x.asDepth == y.asDepth && x.mask == y.mask
    ensures Held(x) == Held(y) && Within(Held(x), Held(y))
  {
    WithinIs(Held(x), 0);
  }

  /** A thread that now has no more than it had. */
  predicate Shrinks(x: Thread, y: Thread) {
    && Within(Held(x), Held(y))
    && (x.win > 0 ==> y.win > 0) && (x.barrier ==> y.barrier) && (x.registry ==> y.registry)
  }

  lemma {:induction false} KeepShrink(s: State, t: Tid, x: Thread)
    requires Inv(s) && ThreadOk(x) && t in s.th && Shrinks(x, s.th[t])
    ensures Inv(Put(s, t, x))
  {
    hide ThreadOk, Held, Disjoint, Within;
    forall u | u in s.th && u != t ensures Apart(x, s.th[u]) {
      assert Apart(s.th[t], s.th[u]);
      WithinDisjoint(Held(x), Held(s.th[t]), Held(s.th[u]));
    }
    KeepThread(s, t, x);
  }

  lemma {:induction false} WithinDisjoint(a: bv32, b: bv32, c: bv32)
    requires Within(a, b) && Disjoint(b, c)
    ensures Disjoint(a, c)
  {
  }

  lemma {:induction false} WithinIs(a: bv32, b: bv32)
    ensures Within(a, a) && Within(a & !b, a) && Within((a & !b) | AS, a | AS) && Within(a, a | AS) && Within(0, a)
    ensures Prefix(a) ==> Within(a >> 1, a)
  {
  }

  lemma {:induction false} Union(a: bv32, b: bv32, c: bv32)
    requires Disjoint(a, c) && Disjoint(c, b)
    ensures Disjoint(Join(a, b), c)
  {
  }

  lemma {:induction false} Bits(m: bv32, b: bv32)
    requires IsLock(b)
    ensures m < AS && b < AS ==> m | b < AS
    ensures m < AS ==> m & !b < AS && m | AS < BARRIER
  {
  }

  lemma {:induction false} NextLock(m: bv32)
    requires Prefix(m)
    ensures m < 0x3ff ==> IsLock(m + 1) && Prefix(m | (m + 1))
    ensures Prefix(m >> 1) && Prefix(0)
  {
  }

  /** A lock the test lets through is inside everything held. */
  lemma {:induction false} KeepAsks(s: State, s': State, t: Tid, b: bv32)
    requires Inv(s) && Asks(s, s', t, b)
    ensures Inv(s')
  {
    FiresIsOrder(Held(s.th[t]), b);
    SameHeld(s'.th[t], s.th[t]);
    hide Fires, IsLock, Prefix, Exclusive, Within, Disjoint;
    KeepShrink(s, t, s'.th[t]);
  }

  /** as_lock needs no test: nothing is inside it but itself. */
  lemma {:induction false} KeepAsksAs(s: State, s': State, t: Tid)
    requires Inv(s) && AsksAs(s, s', t)
    ensures Inv(s')
  {
    WithinIs(Held(s.th[t]), 0);
    hide Prefix, Exclusive, Within, Disjoint;
    KeepShrink(s, t, s'.th[t]);
  }

  lemma {:induction false} HeldBelow(x: Thread)
    requires ThreadOk(x)
    ensures Held(x) < BARRIER
  {
    Bits(x.mask, AS);
  }

  lemma {:induction false} DropsHeld(x: Thread, y: Thread)
    requires ThreadOk(x) && x.raw == y.raw && x.asDepth == y.asDepth && x.mask == y.mask
    requires x.fork == y.fork || (y.fork == Dropping && x.barrier)
    ensures Held(x) == Held(y) && Within(Held(y), Held(x))
  {
    hide Prefix, IsLock;
    WithinIs(Held(x), 0);
  }

  lemma {:induction false} KeepWindow(s: State, s': State, t: Tid)
    requires Inv(s) && (AsksWindow(s, s', t) || AsksRegistry(s, s', t) || Leaves(s, s', t) || DropsRegistry(s, s', t))
    ensures Inv(s')
  {
    hide Prefix, IsLock, Exclusive, Within, Disjoint;
    HeldBelow(s.th[t]);
    DropsHeld(s.th[t], s'.th[t]);
    KeepShrink(s, t, s'.th[t]);
  }

  lemma {:induction false} KeepFork(s: State, s': State, t: Tid)
    requires Inv(s) && (Forks(s, s', t) || ForkAsks(s, s', t) || ForkDrops(s, s', t) || Parks(s, s', t))
    ensures Inv(s')
  {
    NextLock(s.th[t].raw);
    HeldBelow(s.th[t]);
    WithinIs(s.th[t].raw, 0);
    WithinIs(Held(s.th[t]), 0);
    hide Prefix, IsLock, Exclusive, Within, Disjoint;
    KeepShrink(s, t, s'.th[t]);
  }

  lemma {:induction false} KeepGets(s: State, s': State, t: Tid)
    requires Inv(s) && Gets(s, s', t)
    ensures Inv(s')
  {
    var x := s.th[t];
    NextLock(x.raw);
    if x.want.Lock? { Bits(x.mask, x.want.b); LockBelow(x.want.b); PrefixBelow(x.raw); }
    assert ThreadOk(s'.th[t]) by { hide Prefix, IsLock, BlockedBy, Exclusive; }
    hide ThreadOk, Exclusive, Prefix, IsLock;
    forall u | u in s.th && u != t ensures Apart(s'.th[t], s.th[u]) {
      GetsApart(s, s', t, u);
    }
    KeepThread(s, t, s'.th[t]);
  }

  /** What a thread gets, nobody else has. */
  lemma {:induction false} GetsApart(s: State, s': State, t: Tid, u: Tid)
    requires Inv(s) && Gets(s, s', t) && u in s.th && u != t
    ensures Apart(s'.th[t], s.th[u])
  {
    hide IsLock, Held, Disjoint, ThreadOk, Got, Join;
    var x := s.th[t];
    assert !BlockedBy(s, t, u) && Apart(x, s.th[u]) && ThreadOk(x);
    if x.want.Lock? { GetsLock(x, s.th[u]); } else { SameHeld(s'.th[t], x); }
  }

  lemma {:induction false} GetsLock(x: Thread, z: Thread)
    requires ThreadOk(x) && x.want.Lock? && Apart(x, z) && !Has(z, x.want.b)
    ensures Apart(Got(x.(want := Nothing), x.want.b), z)
  {
    hide IsLock, Held, Disjoint, ThreadOk, Got, Join;
    GotIs(x);
    Union(Held(x), x.want.b, Held(z));
  }

  lemma {:induction false} GotIs(x: Thread)
    requires ThreadOk(x) && x.want.Lock?
    ensures var y := Got(x.(want := Nothing), x.want.b);
            Held(y) == Join(Held(x), x.want.b) && y.win == x.win && y.barrier == x.barrier && y.registry == x.registry
  {
    hide ThreadOk, IsLock, HeldBits, Join;
    GotBitsOf(x);
  }

  lemma {:induction false} GotBitsOf(x: Thread)
    requires ThreadOk(x) && x.want.Lock?
    ensures var f, r, m, d, b := x.fork != NoFork, x.raw, x.mask, x.asDepth > 0, x.want.b;
            && (f ==> HeldBits(f, Join(r, b), m, d) == Join(HeldBits(f, r, m, d), b))
            && (!f && b == AS ==> HeldBits(f, r, m, true) == Join(HeldBits(f, r, m, d), b))
            && (!f && b != AS ==> HeldBits(f, r, Join(m, b), d) == Join(HeldBits(f, r, m, d), b))
  {
    hide ThreadOk, IsLock, HeldBits, Join;
    WaitsInside(x);
    LockBelow(x.want.b);
    GotBits(x.fork != NoFork, x.raw, x.mask, x.asDepth > 0, x.want.b);
  }

  lemma {:induction false} GotBits(forking: bool, raw: bv32, mask: bv32, deep: bool, b: bv32)
    requires HeldBits(forking, raw, mask, deep) < b <= AS
    ensures forking ==> HeldBits(forking, Join(raw, b), mask, deep) == Join(HeldBits(forking, raw, mask, deep), b)
    ensures !forking && b == AS ==> HeldBits(forking, raw, mask, true) == Join(HeldBits(forking, raw, mask, deep), b)
    ensures !forking && b != AS ==> HeldBits(forking, raw, Join(mask, b), deep) == Join(HeldBits(forking, raw, mask, deep), b)
  {
  }

  lemma {:induction false} LockBelow(b: bv32)
    requires IsLock(b)
    ensures b <= AS
  {
  }

  lemma {:induction false} PrefixBelow(m: bv32)
    requires Prefix(m) && IsLock(m + 1)
    ensures m < 0x3ff
  {
  }

  lemma {:induction false} UnlockHeld(x: Thread, y: Thread, b: bv32)
    requires x.fork == y.fork == NoFork && x.raw == y.raw
    requires (y.mask == x.mask & !b && y.asDepth == x.asDepth) || (y.mask == x.mask && y.asDepth == x.asDepth - 1)
    ensures Within(Held(y), Held(x))
  {
    hide HeldBits, Within;
    UnlockBits(x.raw, x.mask, x.asDepth > 0, b);
    UnlockBits(x.raw, x.mask, x.asDepth > 0, 0);
  }

  lemma {:induction false} UnlockBits(raw: bv32, mask: bv32, deep: bool, b: bv32)
    ensures Within(HeldBits(false, raw, mask & !b, deep), HeldBits(false, raw, mask, deep))
    ensures Within(HeldBits(false, raw, mask, deep), HeldBits(false, raw, mask, deep))
    ensures Within(HeldBits(false, raw, mask, false), HeldBits(false, raw, mask, deep))
  {
  }

  lemma {:induction false} KeepUnlocks(s: State, s': State, t: Tid, b: bv32)
    requires Inv(s) && (Unlocks(s, s', t, b) || UnlocksAs(s, s', t))
    ensures Inv(s')
  {
    if Unlocks(s, s', t, b) { Bits(s.th[t].mask, b); }
    UnlockHeld(s.th[t], s'.th[t], b);
    hide Prefix, IsLock, Exclusive, Within, Disjoint;
    KeepShrink(s, t, s'.th[t]);
  }

  lemma {:induction false} NextKeepsInv(s: State, s': State)
    requires Inv(s) && Next(s, s')
    ensures Inv(s')
  {
    hide Inv, Asks, AsksAs, AsksWindow, AsksRegistry, Forks, Parks, ForkAsks, Gets, Unlocks, UnlocksAs, Leaves, DropsRegistry, ForkDrops;
    var t, b :| Step(s, s', t, b);
    if Asks(s, s', t, b) { KeepAsks(s, s', t, b); }
    else if AsksAs(s, s', t) { KeepAsksAs(s, s', t); }
    else if Forks(s, s', t) || ForkAsks(s, s', t) || ForkDrops(s, s', t) || Parks(s, s', t) { KeepFork(s, s', t); }
    else if Gets(s, s', t) { KeepGets(s, s', t); }
    else if Unlocks(s, s', t, b) || UnlocksAs(s, s', t) { KeepUnlocks(s, s', t, b); }
    else { KeepWindow(s, s', t); }
  }

  ghost predicate Run(tr: seq<State>) {
    |tr| > 0 && Init(tr[0]) && forall i :: 0 <= i < |tr| - 1 ==> Next(tr[i], tr[i + 1])
  }

  lemma {:induction false} RunKeepsInv(tr: seq<State>, n: nat)
    requires Run(tr) && n < |tr|
    ensures Inv(tr[n])
  {
    hide Next;
    if n == 0 {
      NextLock(0);
      assert ThreadOk(IDLE) && Apart(IDLE, IDLE);
    } else {
      RunKeepsInv(tr, n - 1);
      assert Next(tr[n - 1], tr[n - 1 + 1]);
      NextKeepsInv(tr[n - 1], tr[n]);
    }
  }

  // ------------------------------------------------------------ no circle

  /** The place of a lock in the order. */
  function Place(b: bv32): int {
    if b == 0x001 then 0 else if b == 0x002 then 1 else if b == 0x004 then 2 else if b == 0x008 then 3
    else if b == 0x010 then 4 else if b == 0x020 then 5 else if b == 0x040 then 6 else if b == 0x080 then 7
    else if b == 0x100 then 8 else 9
  }

  function Depth(w: Want): int {
    match w case Nothing => -2 case Lock(b) => Place(b) case Window => 10 case Barrier => 10 case Registry => 11
    case Parked => -1
  }

  lemma {:induction false} HeldIsOutside(held: bv32, b: bv32, c: bv32)
    requires IsLock(b) && IsLock(c) && held & b != 0 && held < c
    ensures Place(b) < Place(c)
  {
  }

  predicate Has(x: Thread, b: bv32) { !Disjoint(Held(x), b) }

  lemma {:induction false} LockWait(x: Thread, b: bv32)
    requires ThreadOk(x) && x.want.Lock? && IsLock(b) && Has(x, b)
    ensures Place(b) < Place(x.want.b)
  {
    hide IsLock, ThreadOk, Held, Place;
    WaitsInside(x);
    HeldIsOutside(Held(x), b, x.want.b);
  }

  lemma {:induction false} WaitsInside(x: Thread)
    requires ThreadOk(x) && x.want.Lock?
    ensures IsLock(x.want.b) && Held(x) < x.want.b
  {
    hide IsLock, Prefix, Held;
    assert InOrder(x);
  }

  lemma {:induction false} OtherWait(x: Thread)
    requires ThreadOk(x) && x.want != Nothing
    ensures (x.win > 0 || x.barrier ==> x.want == Registry) && !x.registry && (x.want.Lock? ==> IsLock(x.want.b))
    ensures x.fork != NoFork ==> x.want != Parked
    ensures x.want == Parked ==> Held(x) == 0
  {
    hide IsLock, Prefix, Held;
  }

  /** Of some threads, one that waits for the innermost rank. */
  lemma {:induction false} Innermost(s: State, w: set<Tid>) returns (t: Tid)
    requires w != {} && forall u :: u in w ==> u in s.th
    ensures t in w && forall u :: u in w ==> Depth(s.th[u].want) <= Depth(s.th[t].want)
  {
    hide Depth;
    t :| t in w;
    if w != {t} {
      var u := Innermost(s, w - {t});
      if Depth(s.th[t].want) < Depth(s.th[u].want) { t := u; }
    }
  }

  /** No lock is ever in two hands, no window open beside the barrier. */
  lemma {:induction false} NeverShared(tr: seq<State>, n: nat, t: Tid, u: Tid)
    requires Run(tr) && n < |tr| && t in tr[n].th && u in tr[n].th && t != u
    ensures forall b :: IsLock(b) && Has(tr[n].th[t], b) ==> !Has(tr[n].th[u], b)
    ensures tr[n].th[t].barrier ==> tr[n].th[u].win == 0 && !tr[n].th[u].barrier
    ensures tr[n].th[t].registry ==> !tr[n].th[u].registry
  {
    hide IsLock, Held, ThreadOk, Disjoint;
    RunKeepsInv(tr, n);
    assert Apart(tr[n].th[t], tr[n].th[u]);
    forall b | IsLock(b) && Has(tr[n].th[t], b) ensures !Has(tr[n].th[u], b) {
      OneHand(Held(tr[n].th[t]), Held(tr[n].th[u]), b);
    }
  }

  lemma {:induction false} OneHand(a: bv32, c: bv32, b: bv32)
    requires IsLock(b) && Disjoint(a, c) && !Disjoint(a, b)
    ensures Disjoint(c, b)
  {
  }

  /** Who blocks a thread, and waits too, waits for something further in. */
  lemma {:induction false} FurtherIn(s: State, t: Tid, u: Tid)
    requires Inv(s) && BlockedBy(s, t, u) && s.th[u].want != Nothing
    ensures Depth(s.th[t].want) < Depth(s.th[u].want)
  {
    hide IsLock, ThreadOk, Place, Held, Disjoint;
    var x, y := s.th[t], s.th[u];
    OtherWait(x);
    OtherWait(y);
    if y.want.Lock? { PlaceIs(y.want.b); }
    if x.want.Lock? {
      PlaceIs(x.want.b);
      if y.want.Lock? { LockWait(y, x.want.b); }
      if y.want == Parked { NoneHeld(x.want.b); }
    }
  }

  lemma {:induction false} NoneHeld(b: bv32)
    ensures Disjoint(0, b)
  {
  }

  lemma {:induction false} PlaceIs(b: bv32)
    ensures 0 <= Place(b) <= 9
  {
  }

  /** In no state of any run do some threads wait only for each other. */
  lemma {:induction false} NeverDeadlocked(tr: seq<State>, n: nat, w: set<Tid>)
    requires Run(tr) && n < |tr| && w != {} && forall u :: u in w ==> u in tr[n].th && tr[n].th[u].want != Nothing
    ensures exists t :: t in w && forall u :: u in w ==> !BlockedBy(tr[n], t, u)
  {
    hide Inv, BlockedBy, Depth;
    RunKeepsInv(tr, n);
    var t := Innermost(tr[n], w);
    forall u | u in w
      ensures !BlockedBy(tr[n], t, u)
    {
      if BlockedBy(tr[n], t, u) { FurtherIn(tr[n], t, u); assert false; }
    }
  }
}
