/**
 Which descriptors a fork child keeps. Guest and emulator share one descriptor
 table; what the emulator opens for itself lives inside a window, which fork
 waits out, or in a registry, whose entries of other threads the child closes.
 Steps of any number of threads, with a registry operation one step.
 */
module ForkDescriptors {
  import opened Options

  type Tid = nat
  type Fd = nat

  datatype Entry = Entry(fd: Fd, tid: Tid)

  /** Whose a descriptor is, which nothing in the program records: the guest's, or
   the emulator's own, under the id of the thread that opened it or is about to
   close it. */
  datatype Owner = Guest | Own(t: Tid)

  // ------------------------------------------------------------ the registry

  predicate Distinct(h: seq<Entry>) { forall i, j :: 0 <= i < j < |h| ==> h[i].fd != h[j].fd }

  predicate Lists(h: seq<Entry>, fd: Fd) { exists i :: 0 <= i < |h| && h[i].fd == fd }

  /** The entry of a number goes, and the last one takes its place. */
  function Dropped(h: seq<Entry>, i: nat): seq<Entry>
    requires i < |h|
  {
    h[i := h[|h| - 1]][..|h| - 1]
  }

  lemma {:induction false} DroppedIs(h: seq<Entry>, i: nat)
    requires i < |h| && Distinct(h)
    ensures Distinct(Dropped(h, i)) && !Lists(Dropped(h, i), h[i].fd)
    ensures forall e :: e in Dropped(h, i) <==> e in h && e != h[i]
  {
    var r := Dropped(h, i);
    assert forall k :: 0 <= k < |r| ==> r[k] == if k == i then h[|h| - 1] else h[k];
    forall e | e in h && e != h[i]
      ensures e in r
    {
      var k :| 0 <= k < |h| && h[k] == e;
      assert r[if k == |h| - 1 then i else k] == e;
    }
  }

  /** Removing a number: the loop of fdheld_close and fdheld_forget. */
  ghost predicate Removed(h: seq<Entry>, h': seq<Entry>, fd: Fd) {
    if Lists(h, fd) then exists i :: 0 <= i < |h| && h[i].fd == fd && h' == Dropped(h, i) else h' == h
  }

  method Remove(h: seq<Entry>, fd: Fd) returns (h': seq<Entry>)
    ensures Removed(h, h', fd)
  {
    var i := 0;
    while i < |h|
      invariant 0 <= i <= |h| && forall k :: 0 <= k < i ==> h[k].fd != fd
    {
      if h[i].fd == fd { return Dropped(h, i); }
      i := i + 1;
    }
    h' := h;
  }

  /** fdheld_add: an entry the number still had is dropped first. */
  method Add(h: seq<Entry>, fd: Fd, t: Tid) returns (h': seq<Entry>, stale: bool)
    ensures stale == Lists(h, fd)
    ensures exists r :: Removed(h, r, fd) && h' == r + [Entry(fd, t)]
  {
    var r := Remove(h, fd);
    stale := |r| < |h|;
    h' := r + [Entry(fd, t)];
  }

  /** fdheld_fork_child: the forker's entries stay, the rest are closed. */
  method Settle(h: seq<Entry>, open: set<Fd>, forker: Tid) returns (h': seq<Entry>, open': set<Fd>)
    ensures forall e :: e in h' <==> e in h && e.tid == forker
    ensures Distinct(h) ==> Distinct(h')
    ensures forall fd :: fd in open' <==> fd in open && forall e :: e in h && e.tid != forker ==> e.fd != fd
  {
    var q, keep := h, 0;
    open' := open;
    var i := 0;
    while i < |h|
      invariant 0 <= keep <= i <= |h| == |q| && q[i..] == h[i..]
      invariant forall e :: e in q[..keep] <==> e in h[..i] && e.tid == forker
      invariant Distinct(h) ==> Distinct(q[..keep])
      invariant forall fd :: fd in open' <==> fd in open && forall e :: e in h[..i] && e.tid != forker ==> e.fd != fd
    {
      ghost var q0 := q;
      assert q[i] == q[i..][0] == h[i..][0] == h[i];
      assert h[..i + 1] == h[..i] + [h[i]];
      if h[i].tid == forker {
        ghost var before := q[..keep];
        q := q[keep := q[i]];
        keep := keep + 1;
        assert q[..keep] == before + [h[i]];
        assert forall e :: e in before ==> e in h[..i];
      } else {
        open' := open' - {h[i].fd};
      }
      assert q[i + 1..] == q0[i..][1..] == h[i + 1..];
      i := i + 1;
    }
    assert h[..i] == h;
    h' := q[..keep];
  }

  // ------------------------------------------------------------ the protocol

  /** `loose` are the numbers the thread opened, or took out of the registry to
   close, and has yet to close or register; `pins` those it registered, or was
   left by the thread it was forked from, and is to close or hand over. */
  datatype Thread = Thread(depth: nat, loose: set<Fd>, pins: set<Fd>)

  /** `taken` remembers the numbers the guest ever closed or replaced while they
   were the emulator's. */
  datatype State = State(open: map<Fd, Owner>, held: seq<Entry>, forker: Option<Tid>, th: map<Tid, Thread>, taken: set<Fd>)

  /** A process as it starts: no thread in a window, and what is open is the
   guest's or, where it was forked from one that held something, listed. */
  ghost predicate Init(s: State) {
    && s.forker == None && s.taken == {} && Distinct(s.held)
    && (forall t :: t in s.th ==> s.th[t].depth == 0 && s.th[t].loose == {})
    && (forall e :: e in s.held ==> e.fd in s.open && s.open[e.fd] == Own(e.tid))
    && (forall fd :: fd in s.open && s.open[fd].Own? ==> Lists(s.held, fd))
    && (forall t, fd :: t in s.th && fd in s.th[t].pins ==> Lists(s.held, fd))
    && (forall t, u :: t in s.th && u in s.th && t != u ==> s.th[t].pins !! s.th[u].pins)
  }

  predicate InWindow(s: State, t: Tid) { t in s.th && s.th[t].depth > 0 }

  function With(s: State, t: Tid, loose: set<Fd>, pins: set<Fd>): State
    requires t in s.th
  {
    s.(th := s.th[t := s.th[t].(loose := loose, pins := pins)])
  }

  predicate Ours(s: State, fd: Fd) { fd in s.open && s.open[fd].Own? }

  function Taking(s: State, fd: Fd): set<Fd> { if Ours(s, fd) then s.taken + {fd} else s.taken }

  predicate GuestOpens(s: State, s': State, fd: Fd) { fd !in s.open && s' == s.(open := s.open[fd := Guest]) }

  /** close(2), of any number: nothing looks at the registry. */
  predicate GuestCloses(s: State, s': State, fd: Fd) {
    fd in s.open && s' == s.(open := s.open - {fd}, taken := Taking(s, fd))
  }

  /** dup3(2) onto any number. */
  predicate GuestReplaces(s: State, s': State, fd: Fd) {
    s' == s.(open := s.open[fd := Guest], taken := Taking(s, fd))
  }

  /** fdwin_enter: shared, so not while a fork has the lock. */
  predicate Enter(s: State, s': State, t: Tid) {
    t in s.th && s.forker == None && s' == s.(th := s.th[t := s.th[t].(depth := s.th[t].depth + 1)])
  }

  /** fdwin_leave. What was opened in the window is closed or registered. */
  predicate Leave(s: State, s': State, t: Tid) {
    && InWindow(s, t) && (s.th[t].depth == 1 ==> s.th[t].loose == {})
    && s' == s.(th := s.th[t := s.th[t].(depth := s.th[t].depth - 1)])
  }

  predicate Opens(s: State, s': State, t: Tid, fd: Fd) {
    && InWindow(s, t) && fd !in s.open
    && s' == With(s, t, s.th[t].loose + {fd}, s.th[t].pins).(open := s.open[fd := Own(t)])
  }

  /** Whatever is open under the number by now. */
  predicate Closes(s: State, s': State, t: Tid, fd: Fd) {
    && InWindow(s, t) && fd in s.th[t].loose
    && s' == With(s, t, s.th[t].loose - {fd}, s.th[t].pins).(open := s.open - {fd})
  }

  /** fdheld_add, inside a window */
  ghost predicate Holds(s: State, s': State, t: Tid, fd: Fd) {
    && InWindow(s, t) && fd in s.th[t].loose
    && s' == With(s, t, s.th[t].loose - {fd}, s.th[t].pins + {fd}).(held := s'.held)
    && exists r :: Removed(s.held, r, fd) && s'.held == r + [Entry(fd, t)]
  }

  /** The first half of fdheld_close: forgotten, not yet closed. The entry of the
   number goes, whoever's it is by now. */
  ghost predicate Unholds(s: State, s': State, t: Tid, fd: Fd) {
    && InWindow(s, t) && fd in s.th[t].pins && Removed(s.held, s'.held, fd)
    && s' == With(s, t, s.th[t].loose + {fd}, s.th[t].pins - {fd}).(
             held := s'.held, open := if Ours(s, fd) then s.open[fd := Own(t)] else s.open)
  }

  /** fdheld_forget: from here on it is the guest's. */
  ghost predicate HandsOver(s: State, s': State, t: Tid, fd: Fd) {
    && InWindow(s, t) && fd in s.th[t].pins && Removed(s.held, s'.held, fd)
    && s' == With(s, t, s.th[t].loose, s.th[t].pins - {fd}).(
             held := s'.held, open := if fd in s.open then s.open[fd := Guest] else s.open)
  }

  /** fdheld_fork_prepare: exclusive, once every window is closed. */
  predicate Prepares(s: State, s': State, t: Tid) {
    && t in s.th && s.forker == None && (forall u :: u in s.th ==> s.th[u].depth == 0)
    && s' == s.(forker := Some(t))
  }

  /** fdheld_fork_parent */
  predicate Resumes(s: State, s': State, t: Tid) { s.forker == Some(t) && s' == s.(forker := None) }

  predicate Spawns(s: State, s': State, t: Tid, u: Tid) {
    t in s.th && u !in s.th && s' == s.(th := s.th[u := Thread(0, {}, {})])
  }

  predicate Exits(s: State, s': State, t: Tid) {
    t in s.th && s.th[t].depth == 0 && s.forker != Some(t) && s' == s.(th := s.th - {t})
  }

  /** fdheld_exec_clear and the close-on-exec walk after it, which closes what the
   threads the exec ended still held and whatever else is the emulator's. */
  ghost predicate ExecClears(s: State, s': State, t: Tid) {
    && s.th.Keys == {t} && s.th[t].depth == 0 && s.forker == None && Distinct(s'.held)
    && (forall e :: e in s'.held <==> e in s.held && e.tid == t)
    && s' == With(s, t, {}, set fd | fd in s.th[t].pins && Entry(fd, t) in s.held).(
             held := s'.held, open := map fd | fd in s.open && (s.open[fd] == Guest || Entry(fd, t) in s.held) :: s.open[fd])
  }

  /** A child of the fork in progress: what its handler makes of the copies. */
  ghost predicate Child(s: State, t: Tid, open: set<Fd>, held: seq<Entry>) {
    && s.forker == Some(t)
    && (forall e :: e in held <==> e in s.held && e.tid == t)
    && (forall fd :: fd in open <==> fd in s.open && forall e :: e in s.held && e.tid != t ==> e.fd != fd)
  }

  /** The run goes on in the child, whose one thread has an id of its own and the
   forker's numbers to see to. */
  ghost predicate Becomes(s: State, s': State, t: Tid, u: Tid) {
    && t in s.th && Child(s, t, s'.open.Keys, s'.held) && Distinct(s'.held)
    && s' == State(map fd | fd in s'.open.Keys && fd in s.open :: s.open[fd], s'.held, None,
                   map[u := Thread(0, {}, set fd | fd in s.th[t].pins && Entry(fd, t) in s.held)], s.taken)
  }

  ghost predicate GuestStep(s: State, s': State) {
    exists fd :: GuestOpens(s, s', fd) || GuestCloses(s, s', fd) || GuestReplaces(s, s', fd)
  }

  ghost predicate LifeStep(s: State, s': State, t: Tid) {
    || (exists u :: Spawns(s, s', t, u)) || Exits(s, s', t) || ExecClears(s, s', t) || (exists u :: Becomes(s, s', t, u))
  }

  ghost predicate FdStep(s: State, s': State, t: Tid, fd: Fd) {
    Opens(s, s', t, fd) || Closes(s, s', t, fd) || Holds(s, s', t, fd) || Unholds(s, s', t, fd) || HandsOver(s, s', t, fd)
  }

  predicate WindowStep(s: State, s': State, t: Tid) {
    Enter(s, s', t) || Leave(s, s', t) || Prepares(s, s', t) || Resumes(s, s', t)
  }

  ghost predicate Next(s: State, s': State) {
    || GuestStep(s, s')
    || (exists t :: LifeStep(s, s', t) || WindowStep(s, s', t))
    || (exists t, fd :: FdStep(s, s', t, fd))
  }

  // ------------------------------------------------------------ what is true of every run

  ghost predicate IsLoose(s: State, fd: Fd) { exists t :: t in s.th && fd in s.th[t].loose }

  /** What is the emulator's is listed, under some thread, or loose. If the guest has
   left the number alone, it is listed under its own thread, or loose and not
   listed, and one thread at most is to see to it. */
  ghost predicate AtNumber(s: State, fd: Fd) {
    && (Ours(s, fd) ==> Lists(s.held, fd) || IsLoose(s, fd))
    && (fd !in s.taken ==>
          && (forall e :: e in s.held && e.fd == fd ==> fd in s.open && s.open[fd] == Own(e.tid))
          && (forall t :: t in s.th && fd in s.th[t].loose ==> fd in s.open && s.open[fd] == Own(t) && !Lists(s.held, fd))
          && (forall t :: t in s.th && fd in s.th[t].pins ==> Lists(s.held, fd))
          && (forall t, u :: t in s.th && u in s.th && fd in s.th[t].pins && fd in s.th[u].pins ==> t == u))
  }

  predicate WindowInv(s: State) {
    && (forall t :: t in s.th && s.th[t].depth == 0 ==> s.th[t].loose == {})
    && (s.forker.Some? ==> forall t :: t in s.th ==> s.th[t].depth == 0)
  }

  ghost predicate Inv(s: State) { Distinct(s.held) && WindowInv(s) && forall fd :: AtNumber(s, fd) }

  lemma {:induction false} RemovedIs(h: seq<Entry>, h': seq<Entry>, fd: Fd)
    requires Distinct(h) && Removed(h, h', fd)
    ensures Distinct(h') && !Lists(h', fd)
    ensures forall e :: e in h' <==> e in h && e.fd != fd
    ensures forall x :: x != fd ==> (Lists(h', x) <==> Lists(h, x))
  {
    if Lists(h, fd) {
      var i :| 0 <= i < |h| && h[i].fd == fd && h' == Dropped(h, i);
      DroppedIs(h, i);
      assert forall e :: e in h && e.fd == fd ==> e == h[i];
    } else {
      assert forall e :: e in h ==> e.fd != fd;
    }
    SameLists(h, h', fd);
  }

  /** Listed is listed under some thread. */
  lemma {:induction false} ListedIs(h: seq<Entry>, fd: Fd)
    ensures Lists(h, fd) <==> exists e :: e in h && e.fd == fd
  {
    if Lists(h, fd) {
      var i :| 0 <= i < |h| && h[i].fd == fd;
      assert h[i] in h;
    }
  }

  lemma {:induction false} SameLists(h: seq<Entry>, h': seq<Entry>, fd: Fd)
    requires forall e :: e in h' <==> e in h && e.fd != fd
    ensures forall x :: x != fd ==> (Lists(h', x) <==> Lists(h, x))
  {
    hide Lists;
    forall x | x != fd ensures Lists(h', x) <==> Lists(h, x) {
      ListedIs(h, x);
      ListedIs(h', x);
    }
  }

  /** fdheld_add leaves one entry for the number, the thread's. */
  lemma {:induction false} AddedIs(h: seq<Entry>, h': seq<Entry>, fd: Fd, t: Tid)
    requires Distinct(h) && exists r :: Removed(h, r, fd) && h' == r + [Entry(fd, t)]
    ensures Distinct(h') && Lists(h', fd)
    ensures forall e :: e in h' <==> (e in h && e.fd != fd) || e == Entry(fd, t)
    ensures forall x :: x != fd ==> (Lists(h', x) <==> Lists(h, x))
  {
    var r :| Removed(h, r, fd) && h' == r + [Entry(fd, t)];
    RemovedIs(h, r, fd);
    assert h'[|r|] == Entry(fd, t);
    assert forall k :: 0 <= k < |r| ==> h'[k] == r[k] && r[k] in r;
    forall x | x != fd ensures Lists(h', x) <==> Lists(r, x) {
      ListedIs(r, x);
      ListedIs(h', x);
    }
  }

  lemma {:induction false} KeepGuest(s: State, s': State)
    requires Inv(s) && GuestStep(s, s')
    ensures Inv(s')
  {
    hide Distinct, Lists;
    var fd :| GuestOpens(s, s', fd) || GuestCloses(s, s', fd) || GuestReplaces(s, s', fd);
    forall x ensures AtNumber(s', x) {
      assert AtNumber(s, x);
      if IsLoose(s, x) {
        var t :| t in s.th && x in s.th[t].loose;
        assert IsLoose(s', x);
      }
    }
  }

  /** One number of one thread moves: the others' facts are as they were. */
  ghost predicate OnlyAt(s: State, s': State, t: Tid, fd: Fd) {
    && t in s.th && s'.th.Keys == s.th.Keys && s'.taken == s.taken && s'.forker == s.forker
    && (forall u :: u in s.th && u != t ==> s'.th[u] == s.th[u])
    && s'.th[t].depth == s.th[t].depth
    && (forall x :: x != fd ==> (x in s'.th[t].loose <==> x in s.th[t].loose) && (x in s'.th[t].pins <==> x in s.th[t].pins))
    && (forall x :: x != fd ==> (x in s'.open <==> x in s.open) && (x in s.open ==> s'.open[x] == s.open[x]))
    && Distinct(s'.held) && (forall e: Entry :: e.fd != fd ==> (e in s'.held <==> e in s.held))
    && (forall x :: x != fd ==> (Lists(s'.held, x) <==> Lists(s.held, x)))
  }

  lemma {:induction false} NumberSame(s: State, s': State, t: Tid, fd: Fd, x: Fd)
    requires OnlyAt(s, s', t, fd) && AtNumber(s, x) && x != fd
    ensures AtNumber(s', x)
  {
    hide Lists, Distinct;
    if Ours(s', x) && IsLoose(s, x) {
      var u :| u in s.th && x in s.th[u].loose;
      assert u in s'.th && x in s'.th[u].loose;
    }
  }

  lemma {:induction false} NumberMoves(s: State, s': State, t: Tid, fd: Fd)
    requires Inv(s) && InWindow(s, t) && OnlyAt(s, s', t, fd) && AtNumber(s', fd)
    ensures Inv(s')
  {
    hide AtNumber, Lists;
    forall x ensures AtNumber(s', x) {
      if x != fd { NumberSame(s, s', t, fd, x); }
    }
  }

  lemma {:induction false} KeepOpens(s: State, s': State, t: Tid, fd: Fd)
    requires Inv(s) && (Opens(s, s', t, fd) || Closes(s, s', t, fd))
    ensures Inv(s')
  {
    assert AtNumber(s, fd) && Distinct(s.held);
    hide Inv, Distinct;
    ListedIs(s.held, fd);
    hide Lists;
    assert IsLoose(s', fd) || !Ours(s', fd) by { assert Opens(s, s', t, fd) ==> fd in s'.th[t].loose; }
    NumberMoves(s, s', t, fd);
  }

  lemma {:induction false} KeepHolds(s: State, s': State, t: Tid, fd: Fd)
    requires Inv(s) && Holds(s, s', t, fd)
    ensures Inv(s')
  {
    assert AtNumber(s, fd) && Distinct(s.held);
    hide Inv, Distinct;
    AddedIs(s.held, s'.held, fd, t);
    ListedIs(s.held, fd);
    hide Lists, Removed;
    NumberMoves(s, s', t, fd);
  }

  lemma {:induction false} KeepUnholds(s: State, s': State, t: Tid, fd: Fd)
    requires Inv(s) && (Unholds(s, s', t, fd) || HandsOver(s, s', t, fd))
    ensures Inv(s')
  {
    assert AtNumber(s, fd) && Distinct(s.held);
    hide Inv, Distinct;
    RemovedIs(s.held, s'.held, fd);
    ListedIs(s.held, fd);
    hide Lists, Removed;
    assert IsLoose(s', fd) || !Ours(s', fd) by { assert Unholds(s, s', t, fd) ==> fd in s'.th[t].loose; }
    NumberMoves(s, s', t, fd);
  }

  /** Threads enter and leave with nothing loose; what they hold and what is open
   is as it was. */
  lemma {:induction false} NumbersSame(s: State, s': State)
    requires Inv(s) && s'.open == s.open && s'.held == s.held && s'.taken == s.taken
    requires forall t :: t in s.th && t !in s'.th ==> s.th[t].loose == {}
    requires forall t :: t in s'.th && t !in s.th ==> s'.th[t].loose == {} && s'.th[t].pins == {}
    requires forall t :: t in s.th && t in s'.th ==> s'.th[t].loose == s.th[t].loose && s'.th[t].pins == s.th[t].pins
    ensures forall fd :: AtNumber(s', fd)
  {
    hide Distinct, Lists, WindowInv;
    forall fd ensures AtNumber(s', fd) {
      assert AtNumber(s, fd);
      if IsLoose(s, fd) {
        var t :| t in s.th && fd in s.th[t].loose;
        assert IsLoose(s', fd);
      }
    }
  }

  lemma {:induction false} KeepWindows(s: State, s': State, t: Tid)
    requires Inv(s) && (WindowStep(s, s', t) || (exists u :: Spawns(s, s', t, u)) || Exits(s, s', t))
    ensures Inv(s')
  {
    NumbersSame(s, s');
    hide AtNumber, Distinct;
  }

  lemma {:induction false} KeepExec(s: State, s': State, t: Tid)
    requires Inv(s) && ExecClears(s, s', t)
    ensures Inv(s')
  {
    hide Distinct;
    forall fd ensures AtNumber(s', fd) {
      assert AtNumber(s, fd);
      ListedIs(s.held, fd);
      ListedIs(s'.held, fd);
      hide Lists, Inv;
      assert Entry(fd, t) in s.held ==> Entry(fd, t) in s'.held;
    }
  }

  /** While a fork has the barrier nothing is loose. */
  lemma {:induction false} NoneLoose(s: State, fd: Fd)
    requires Inv(s) && s.forker.Some?
    ensures !IsLoose(s, fd) && (Ours(s, fd) ==> Lists(s.held, fd))
  {
    assert AtNumber(s, fd);
  }

  lemma {:induction false} KeepBecomes(s: State, s': State, t: Tid, u: Tid)
    requires Inv(s) && Becomes(s, s', t, u)
    ensures Inv(s')
  {
    hide Distinct;
    forall fd ensures AtNumber(s', fd) {
      assert AtNumber(s, fd);
      NoneLoose(s, fd);
      ListedIs(s.held, fd);
      ListedIs(s'.held, fd);
      hide Lists, Inv;
      assert Entry(fd, t) in s.held ==> Entry(fd, t) in s'.held;
      if Entry(fd, t) in s.held { NoTwin(s.held, Entry(fd, t)); }
    }
  }

  /** One entry for each number. */
  lemma {:induction false} NoTwin(h: seq<Entry>, e: Entry)
    requires Distinct(h) && e in h
    ensures forall x :: x in h && x.fd == e.fd ==> x == e
  {
  }

  lemma {:induction false} NextKeepsInv(s: State, s': State)
    requires Inv(s) && Next(s, s')
    ensures Inv(s')
  {
    hide Inv, GuestStep, WindowStep, Spawns, Exits, ExecClears, Becomes, Opens, Closes, Holds, Unholds, HandsOver;
    if GuestStep(s, s') {
      KeepGuest(s, s');
    } else if t :| LifeStep(s, s', t) || WindowStep(s, s', t) {
      if WindowStep(s, s', t) || (exists u :: Spawns(s, s', t, u)) || Exits(s, s', t) { KeepWindows(s, s', t); }
      else if ExecClears(s, s', t) { KeepExec(s, s', t); }
      else {
        var u :| Becomes(s, s', t, u);
        KeepBecomes(s, s', t, u);
      }
    } else {
      var t, fd :| FdStep(s, s', t, fd);
      if Opens(s, s', t, fd) || Closes(s, s', t, fd) { KeepOpens(s, s', t, fd); }
      else if Holds(s, s', t, fd) { KeepHolds(s, s', t, fd); }
      else { KeepUnholds(s, s', t, fd); }
    }
  }

  ghost predicate Run(tr: seq<State>) {
    |tr| > 0 && Init(tr[0]) && forall i :: 0 <= i < |tr| - 1 ==> Next(tr[i], tr[i + 1])
  }

  lemma {:induction false} InitKeepsInv(s: State)
    requires Init(s)
    ensures Inv(s)
  {
    hide Distinct, Lists;
    forall fd ensures AtNumber(s, fd) {
    }
  }

  lemma {:induction false} RunKeepsInv(tr: seq<State>, n: nat)
    requires Run(tr) && n < |tr|
    ensures Inv(tr[n])
  {
    hide Next, Distinct;
    if n == 0 {
      InitKeepsInv(tr[0]);
    } else {
      RunKeepsInv(tr, n - 1);
      assert Next(tr[n - 1], tr[n - 1 + 1]);
      hide Inv;
      NextKeepsInv(tr[n - 1], tr[n]);
    }
  }

  // ------------------------------------------------------------ what a child keeps

  /** What a child of `t` is to have: the guest's, and what `t` opened itself. */
  predicate Belongs(s: State, t: Tid, fd: Fd) {
    fd in s.open && (s.open[fd] == Guest || s.open[fd] == Own(t))
  }

  /** An entry whose number is no longer its thread's descriptor. */
  predicate Astray(s: State, e: Entry) { e.fd !in s.open || s.open[e.fd] != Own(e.tid) }

  /** One that makes a child of `t` close what belongs there, the guest's or its
   own, or keep what is another thread's. */
  predicate Misleads(s: State, t: Tid, e: Entry) {
    e in s.held && e.fd in s.open && if e.tid != t then Belongs(s, t, e.fd) else !Belongs(s, t, e.fd)
  }

  /** An entry goes astray only over a number the guest took from the emulator. */
  lemma {:induction false} AstrayIsTaken(tr: seq<State>, n: nat, e: Entry)
    requires Run(tr) && n < |tr| && e in tr[n].held && Astray(tr[n], e)
    ensures e.fd in tr[n].taken
  {
    RunKeepsInv(tr, n);
    assert AtNumber(tr[n], e.fd);
  }

  /** Every number the guest has left alone is right in the child, whatever every
   thread was doing: it has it exactly if it is the guest's or the forker's own,
   and its registry lists exactly the latter. */
  lemma {:induction false} ChildKeepsRightOnes(tr: seq<State>, n: nat, t: Tid, open: set<Fd>, held: seq<Entry>)
    requires Run(tr) && n < |tr| && Child(tr[n], t, open, held)
    ensures forall fd :: fd !in tr[n].taken ==>
              && (fd in open <==> Belongs(tr[n], t, fd))
              && (Entry(fd, t) in held <==> fd in open && tr[n].open[fd] == Own(t))
  {
    RunKeepsInv(tr, n);
    var s := tr[n];
    hide Run;
    forall fd | fd !in s.taken
      ensures fd in open <==> Belongs(s, t, fd)
      ensures Entry(fd, t) in held <==> fd in open && s.open[fd] == Own(t)
    {
      assert AtNumber(s, fd);
      NoneLoose(s, fd);
      ListedIs(s.held, fd);
      hide Inv, Lists;
    }
  }

  /** The child's table is right in every number exactly when no entry misleads it. */
  lemma {:induction false} ChildRightExactly(tr: seq<State>, n: nat, t: Tid, open: set<Fd>, held: seq<Entry>)
    requires Run(tr) && n < |tr| && Child(tr[n], t, open, held)
    ensures (forall fd :: fd in open <==> Belongs(tr[n], t, fd)) <==> !exists e :: Misleads(tr[n], t, e)
  {
    RunKeepsInv(tr, n);
    var s := tr[n];
    hide Run;
    forall fd ensures (fd in open <==> Belongs(s, t, fd)) <==> !exists e :: Misleads(s, t, e) && e.fd == fd {
      NoneLoose(s, fd);
      ListedIs(s.held, fd);
      hide Inv, Lists;
      if e :| e in s.held && e.fd == fd {
        assert Distinct(s.held);
        NoTwin(s.held, e);
        assert Misleads(s, t, e) <==> !(fd in open <==> Belongs(s, t, fd));
      }
    }
    if e :| Misleads(s, t, e) {
      assert !(e.fd in open <==> Belongs(s, t, e.fd));
    }
  }

  /** Its registry lists the forker's own exactly when none of the forker's entries
   is astray. */
  lemma {:induction false} ListRightExactly(tr: seq<State>, n: nat, t: Tid, open: set<Fd>, held: seq<Entry>)
    requires Run(tr) && n < |tr| && Child(tr[n], t, open, held)
    ensures (forall fd :: Entry(fd, t) in held <==> fd in open && tr[n].open[fd] == Own(t)) <==>
            forall e :: e in tr[n].held && e.tid == t ==> !Astray(tr[n], e)
  {
    RunKeepsInv(tr, n);
    var s := tr[n];
    hide Run;
    forall fd | fd in open && s.open[fd] == Own(t) ensures Entry(fd, t) in held {
      NoneLoose(s, fd);
      ListedIs(s.held, fd);
    }
    forall fd | Entry(fd, t) in held ensures fd in open <==> fd in s.open {
      NoTwin(s.held, Entry(fd, t));
    }
    hide Inv;
    forall e | e in s.held && e.tid == t ensures e == Entry(e.fd, t) && e in held {
    }
  }

  /** A child goes by the id an entry was made under. What it was left by its
   parent is under the parent's id, and a child of its own does not keep it. */
  lemma {:induction false} GrandchildDrops(s: State, s1: State, s2: State, t: Tid, u: Tid, fd: Fd, open: set<Fd>, held: seq<Entry>)
    requires Inv(s) && Becomes(s, s1, t, u) && t != u && Entry(fd, t) in s.held
    requires Prepares(s1, s2, u) && Child(s2, u, open, held)
    ensures (fd in s1.open <==> fd in s.open) && fd !in open
  {
    NoTwin(s.held, Entry(fd, t));
    assert Entry(fd, t) in s2.held;
  }

  /** A number about to be registered is still listed only if the guest took it
   from the emulator; either way the registry then has one entry for it. */
  lemma {:induction false} NoStaleEntry(tr: seq<State>, n: nat, s': State, t: Tid, fd: Fd)
    requires Run(tr) && n < |tr| && Holds(tr[n], s', t, fd)
    ensures Lists(tr[n].held, fd) ==> fd in tr[n].taken
    ensures !Lists(tr[n].held, fd) ==> s'.held == tr[n].held + [Entry(fd, t)]
    ensures forall e :: e in s'.held <==> (e in tr[n].held && e.fd != fd) || e == Entry(fd, t)
  {
    RunKeepsInv(tr, n);
    assert AtNumber(tr[n], fd);
    hide Run;
    AddedIs(tr[n].held, s'.held, fd, t);
  }

  // ------------------------------------------------------------ runs

  ghost predicate Ends(tr: seq<State>, s: State) { Run(tr) && tr[|tr| - 1] == s }

  lemma {:induction false} Then1(tr: seq<State>, s: State, s': State) returns (tr': seq<State>)
    requires Ends(tr, s) && Next(s, s')
    ensures Ends(tr', s')
  {
    hide Next, Init;
    tr' := tr + [s'];
    forall i | 0 <= i < |tr'| - 1 ensures Next(tr'[i], tr'[i + 1]) {
      if i < |tr| - 1 { assert Next(tr[i], tr[i + 1]); }
    }
  }

  lemma {:induction false} ThenFd(tr: seq<State>, s: State, s': State, t: Tid, fd: Fd) returns (tr': seq<State>)
    requires Ends(tr, s) && FdStep(s, s', t, fd)
    ensures Ends(tr', s')
  {
    hide FdStep, Ends;
    tr' := Then1(tr, s, s');
  }

  lemma {:induction false} ThenWindow(tr: seq<State>, s: State, s': State, t: Tid) returns (tr': seq<State>)
    requires Ends(tr, s) && WindowStep(s, s', t)
    ensures Ends(tr', s')
  {
    hide WindowStep, Ends;
    tr' := Then1(tr, s, s');
  }

  lemma {:induction false} ThenGuest(tr: seq<State>, s: State, s': State) returns (tr': seq<State>)
    requires Ends(tr, s) && GuestStep(s, s')
    ensures Ends(tr', s')
  {
    hide GuestStep, Ends;
    tr' := Then1(tr, s, s');
  }

  const QUIET := Thread(0, {}, {})
  const PINNED := Thread(0, {}, {7})

  /** One of two threads pins 7, */
  lemma {:induction false} Pins() returns (tr: seq<State>)
    ensures Ends(tr, State(map[7 := Own(1)], [Entry(7, 1)], None, map[1 := PINNED, 2 := QUIET], {}))
  {
    hide Ends;
    var s0 := State(map[], [], None, map[1 := QUIET, 2 := QUIET], {});
    tr := Starts();
    var s1 := s0.(th := s0.th[1 := Thread(1, {}, {})]);
    assert Enter(s0, s1, 1);
    tr := ThenWindow(tr, s0, s1, 1);
    var s2 := With(s1, 1, {} + {7}, {}).(open := s1.open[7 := Own(1)]);
    assert Opens(s1, s2, 1, 7);
    tr := ThenFd(tr, s1, s2, 1, 7);
    var s3 := With(s2, 1, s2.th[1].loose - {7}, {} + {7}).(held := [Entry(7, 1)]);
    assert Removed(s2.held, [], 7) && [] + [Entry(7, 1)] == s3.held;
    assert Holds(s2, s3, 1, 7);
    tr := ThenFd(tr, s2, s3, 1, 7);
    assert s3.th[1] == Thread(1, {}, {7});
    var s4 := s3.(th := s3.th[1 := PINNED]);
    assert Leave(s3, s4, 1);
    tr := ThenWindow(tr, s3, s4, 1);
    assert s4.th == map[1 := PINNED, 2 := QUIET];
  }

  lemma {:induction false} Starts() returns (tr: seq<State>)
    ensures Ends(tr, State(map[], [], None, map[1 := QUIET, 2 := QUIET], {}))
  {
    tr := [State(map[], [], None, map[1 := QUIET, 2 := QUIET], {})];
  }

  const CLOSED := State(map[], [Entry(7, 1)], None, map[1 := PINNED, 2 := QUIET], {7})

  /** and the guest closes it, */
  lemma {:induction false} LosesPin() returns (tr: seq<State>)
    ensures Ends(tr, CLOSED)
  {
    hide Ends;
    var s0 := State(map[7 := Own(1)], [Entry(7, 1)], None, map[1 := PINNED, 2 := QUIET], {});
    tr := Pins();
    assert GuestCloses(s0, CLOSED, 7);
    tr := ThenGuest(tr, s0, CLOSED);
  }

  /** opens a file there, and forks from the other thread: the child closes it. */
  lemma {:induction false} GuestLosesOne() returns (tr: seq<State>, open: set<Fd>, held: seq<Entry>)
    ensures Run(tr) && Child(tr[|tr| - 1], 2, open, held)
    ensures 7 in tr[|tr| - 1].open && tr[|tr| - 1].open[7] == Guest && 7 !in open
  {
    hide Run;
    tr := LosesPin();
    var s1 := CLOSED.(open := map[7 := Guest]);
    assert GuestOpens(CLOSED, s1, 7);
    tr := ThenGuest(tr, CLOSED, s1);
    var s2 := s1.(forker := Some(2));
    assert Prepares(s1, s2, 2);
    tr := ThenWindow(tr, s1, s2, 2);
    open, held := {}, [];
    assert Entry(7, 1) in s2.held;
  }

  /** Or the other thread opens a descriptor of its own there, and registering it
   finds the entry that was left. */
  lemma {:induction false} StaleIsFound() returns (tr: seq<State>, s': State)
    ensures Run(tr) && Holds(tr[|tr| - 1], s', 2, 7) && Lists(tr[|tr| - 1].held, 7)
  {
    hide Run;
    tr := LosesPin();
    var s1 := CLOSED.(th := CLOSED.th[2 := Thread(1, {}, {})]);
    assert Enter(CLOSED, s1, 2);
    tr := ThenWindow(tr, CLOSED, s1, 2);
    var s2 := With(s1, 2, {} + {7}, {}).(open := s1.open[7 := Own(2)]);
    assert Opens(s1, s2, 2, 7);
    tr := ThenFd(tr, s1, s2, 2, 7);
    s' := With(s2, 2, s2.th[2].loose - {7}, {} + {7}).(held := [Entry(7, 2)]);
    assert s2.held[0] == Entry(7, 1);
    assert Lists(s2.held, 7) && Dropped(s2.held, 0) == [];
    assert Removed(s2.held, [], 7) && [] + [Entry(7, 2)] == s'.held;
  }
}
