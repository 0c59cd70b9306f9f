/**
 The mount table as its one-at-a-time callers see it: a fixed array of slots,
 reused as mounts come and go, that stands for the list of mounts in the order
 they were made.
 */
module BindTable {
  import opened Options

  const BIND_MAX: nat := 64
  const PATH_MAX: nat := 4096

  datatype Mount = Mount(guest: string, host: string, locked: bool)

  datatype Slot = Slot(mount: Mount, active: bool, order: nat)

  datatype Status = Done | EINVAL | ENOMEM | ENAMETOOLONG

  // ------------------------------------------------------------ the list it stands for

  /** A mount point covers a path at a component boundary. */
  predicate Covers(guest: string, path: string) {
    && |guest| <= |path| && path[..|guest|] == guest
    && (|guest| == |path| || path[|guest|] == '/')
  }

  /** Of the mounts that cover the path, the deepest, and the latest of those. */
  predicate Wins(ms: seq<Mount>, path: string, k: int) {
    && 0 <= k < |ms| && Covers(ms[k].guest, path)
    && forall j :: 0 <= j < |ms| && Covers(ms[j].guest, path) ==>
         |ms[j].guest| < |ms[k].guest| || (|ms[j].guest| == |ms[k].guest| && j <= k)
  }

  predicate Uncovered(ms: seq<Mount>, path: string) { forall j :: 0 <= j < |ms| ==> !Covers(ms[j].guest, path) }

  lemma {:induction false} OneWinner(ms: seq<Mount>, path: string, j: int, k: int)
    requires Wins(ms, path, j) && Wins(ms, path, k)
    ensures j == k
  {
  }

  /** Where a path resolves: the winner's directory and the rest of the path. */
  ghost predicate Resolves(ms: seq<Mount>, path: string, to: Option<(string, string)>) {
    match to
    case None => Uncovered(ms, path)
    case Some(x) => exists k :: Wins(ms, path, k) && x == (ms[k].host, path[|ms[k].guest|..])
  }

  /** The topmost mount at exactly this point. */
  predicate IsTop(ms: seq<Mount>, guest: string, k: int) {
    0 <= k < |ms| && ms[k].guest == guest && forall j :: k < j < |ms| ==> ms[j].guest != guest
  }

  function Without(ms: seq<Mount>, k: nat): seq<Mount>
    requires k < |ms|
  {
    ms[..k] + ms[k + 1..]
  }

  // ------------------------------------------------------------ the table

  function MountsAt(order: seq<nat>, slots: seq<Slot>): (ms: seq<Mount>)
    requires forall i :: 0 <= i < |order| ==> order[i] < |slots|
    ensures |ms| == |order| && forall i :: 0 <= i < |order| ==> ms[i] == slots[order[i]].mount
  {
    if order == [] then [] else [slots[order[0]].mount] + MountsAt(order[1..], slots)
  }

  /** The live slots, in mount order, below the bound readers scan to. */
  ghost predicate TableOk(slots: seq<Slot>, n: nat, counter: nat, order: seq<nat>) {
    && n <= |slots|
    && (forall i :: 0 <= i < |order| ==> order[i] < n && slots[order[i]].active && slots[order[i]].order <= counter)
    && (forall i, j :: 0 <= i < j < |order| ==> slots[order[i]].order < slots[order[j]].order)
    && (forall s: nat :: s < |slots| && slots[s].active ==> s in order)
  }

  lemma {:induction false} AddOk(slots: seq<Slot>, n: nat, counter: nat, order: seq<nat>, i: nat, m: Mount)
    requires TableOk(slots, n, counter, order) && i < |slots| && !slots[i].active
    ensures var slots', order' := slots[i := Slot(m, true, counter + 1)], order + [i];
            && TableOk(slots', if i >= n then i + 1 else n, counter + 1, order')
            && MountsAt(order', slots') == MountsAt(order, slots) + [m]
  {
    hide MountsAt;
    var slots', order' := slots[i := Slot(m, true, counter + 1)], order + [i];
    forall s: nat | s < |slots'| && slots'[s].active
      ensures s in order'
    {
      assert s == i || s in order;
    }
    assert forall k :: 0 <= k < |order| ==> order[k] != i;
    assert TableOk(slots', if i >= n then i + 1 else n, counter + 1, order');
    assert forall k :: 0 <= k < |order| ==> MountsAt(order', slots')[k] == MountsAt(order, slots)[k];
  }

  function Cut(order: seq<nat>, k: nat): (r: seq<nat>)
    requires k < |order|
    ensures |r| == |order| - 1 && forall j :: 0 <= j < |r| ==> r[j] == order[if j < k then j else j + 1]
  {
    order[..k] + order[k + 1..]
  }

  lemma {:induction false} CutKeeps(order: seq<nat>, k: nat, s: nat)
    requires k < |order| && s in order && s != order[k]
    ensures s in Cut(order, k)
  {
    var j :| 0 <= j < |order| && order[j] == s;
    assert Cut(order, k)[if j < k then j else j - 1] == s;
  }

  lemma {:induction false} RemoveOk(slots: seq<Slot>, n: nat, counter: nat, order: seq<nat>, k: nat)
    requires TableOk(slots, n, counter, order) && k < |order|
    ensures order[k] < |slots|
    ensures TableOk(slots[order[k] := slots[order[k]].(active := false)], n, counter, Cut(order, k))
  {
    hide Cut;
    var i := order[k];
    var slots' := slots[i := slots[i].(active := false)];
    assert forall j :: 0 <= j < |order| && j != k ==> order[j] != i;
    forall s: nat | s < |slots'| && slots'[s].active
      ensures s in Cut(order, k)
    {
      CutKeeps(order, k, s);
    }
  }

  lemma {:induction false} RemoveMounts(slots: seq<Slot>, n: nat, counter: nat, order: seq<nat>, k: nat)
    requires TableOk(slots, n, counter, order) && k < |order|
    requires TableOk(slots[order[k] := slots[order[k]].(active := false)], n, counter, Cut(order, k))
    ensures MountsAt(Cut(order, k), slots[order[k] := slots[order[k]].(active := false)]) == Without(MountsAt(order, slots), k)
  {
    hide MountsAt, Cut, TableOk;
    assert |slots| > order[k] && (forall j :: 0 <= j < |order| ==> order[j] < |slots|) by { Indices(slots, n, counter, order); }
  }

  lemma {:induction false} Indices(slots: seq<Slot>, n: nat, counter: nat, order: seq<nat>)
    requires TableOk(slots, n, counter, order)
    ensures forall j :: 0 <= j < |order| ==> order[j] < |slots|
  {
  }

  class BindTable {
    const slots: array<Slot>
    var n: nat
    var counter: nat
    /** Live slots in mount order. */
    ghost var order: seq<nat>

    ghost predicate Valid()
      reads this, slots
    {
      slots.Length == BIND_MAX && TableOk(slots[..], n, counter, order)
    }

    ghost function Mounts(): (ms: seq<Mount>)
      requires Valid()
      reads this, slots
      ensures |ms| == |order| && forall i :: 0 <= i < |order| ==> ms[i] == slots[order[i]].mount
    {
      MountsAt(order, slots[..])
    }

    constructor ()
      ensures Valid() && Mounts() == [] && fresh(slots)
    {
      slots := new Slot[BIND_MAX](_ => Slot(Mount("", "", false), false, 0));
      n, counter := 0, 0;
      order := [];
    }

    /** bind_best: the slot whose mount covers the path. */
    method Best(path: string) returns (best: int)
      requires Valid()
      ensures best < 0 <==> Uncovered(Mounts(), path)
      ensures best >= 0 ==> exists k :: Wins(Mounts(), path, k) && order[k] == best
    {
      best := -1;
      var bestLen, bestOrder := 0, 0;
      for i := 0 to n
        invariant -1 <= best < i
        invariant best < 0 ==> forall s: nat :: s < i && slots[s].active ==> !Covers(slots[s].mount.guest, path)
        invariant best >= 0 ==>
          && slots[best].active && Covers(slots[best].mount.guest, path)
          && bestLen == |slots[best].mount.guest| && bestOrder == slots[best].order
          && forall s: nat :: s < i && slots[s].active && Covers(slots[s].mount.guest, path) ==>
               |slots[s].mount.guest| < bestLen || (|slots[s].mount.guest| == bestLen && slots[s].order <= bestOrder)
      {
        var e := slots[i];
        if e.active && Covers(e.mount.guest, path) {
          var gl := |e.mount.guest|;
          if best < 0 || gl > bestLen || (gl == bestLen && e.order > bestOrder) {
            best, bestLen, bestOrder := i, gl, e.order;
          }
        }
      }
      if best >= 0 {
        ghost var k :| 0 <= k < |order| && order[k] == best;
        assert Wins(Mounts(), path, k);
      } else {
        assert Uncovered(Mounts(), path);
      }
    }

    /** bind_match, before the rest of the path is appended. */
    method Match(path: string) returns (to: Option<(string, string)>)
      requires Valid()
      ensures Resolves(Mounts(), path, to)
    {
      var best := Best(path);
      if best < 0 { return None; }
      var m := slots[best].mount;
      to := Some((m.host, path[|m.guest|..]));
    }

    /** bind_top_at */
    method TopAt(guest: string) returns (best: int)
      requires Valid()
      ensures best < 0 <==> forall k :: 0 <= k < |Mounts()| ==> Mounts()[k].guest != guest
      ensures best >= 0 ==> exists k :: IsTop(Mounts(), guest, k) && order[k] == best
    {
      best := -1;
      var bestOrder := 0;
      for i := 0 to n
        invariant -1 <= best < i
        invariant best < 0 ==> forall s: nat :: s < i && slots[s].active ==> slots[s].mount.guest != guest
        invariant best >= 0 ==>
          && slots[best].active && slots[best].mount.guest == guest && bestOrder == slots[best].order
          && forall s: nat :: s < i && slots[s].active && slots[s].mount.guest == guest ==> slots[s].order <= bestOrder
      {
        var e := slots[i];
        // it covers the point and is no shorter: it is the point
        if e.active && Covers(e.mount.guest, guest) && |e.mount.guest| == |guest| {
          if best < 0 || e.order > bestOrder {
            best, bestOrder := i, e.order;
          }
        }
      }
      if best >= 0 {
        ghost var k :| 0 <= k < |order| && order[k] == best;
        assert IsTop(Mounts(), guest, k);
      } else {
        assert forall k :: 0 <= k < |Mounts()| ==> Mounts()[k].guest != guest;
      }
    }

    /** bind_add: the first free slot, at the top of the stack. */
    method Add(m: Mount) returns (st: Status, slot: nat)
      requires Valid()
      modifies this, slots
      ensures Valid()
      ensures st == ENAMETOOLONG <==> |m.guest| + 1 > PATH_MAX || |m.host| + 1 > PATH_MAX
      ensures st == ENOMEM <==> |m.guest| + 1 <= PATH_MAX && |m.host| + 1 <= PATH_MAX
                                && forall s :: 0 <= s < BIND_MAX ==> old(slots[s].active)
      ensures st == Done || st == ENAMETOOLONG || st == ENOMEM
      ensures st == Done ==> Mounts() == old(Mounts()) + [m] && slot < BIND_MAX && slots[slot].mount == m
      ensures st != Done ==> Mounts() == old(Mounts())
    {
      hide TableOk, MountsAt;
      slot := 0;
      if |m.guest| + 1 > PATH_MAX || |m.host| + 1 > PATH_MAX { return ENAMETOOLONG, 0; }
      var i := 0;
      while i < BIND_MAX && slots[i].active
        invariant i <= BIND_MAX && forall s :: 0 <= s < i ==> slots[s].active
      {
        i := i + 1;
      }
      if i == BIND_MAX { return ENOMEM, 0; }
      AddOk(slots[..], n, counter, order, i, m);
      ghost var was := slots[..];
      counter := counter + 1;
      slots[i] := Slot(m, true, counter);
      if i >= n { n := i + 1; }
      order := order + [i];
      assert slots[..] == was[i := Slot(m, true, counter)];
      return Done, i;
    }

    /** bind_remove: the topmost mount at the point, unless the guest may not. */
    method Remove(guest: string) returns (st: Status)
      requires Valid()
      modifies this, slots
      ensures Valid() && (st == Done || st == EINVAL)
      ensures st == Done ==> exists k :: IsTop(old(Mounts()), guest, k) && !old(Mounts())[k].locked
                                         && Mounts() == Without(old(Mounts()), k)
      ensures st == EINVAL ==> Mounts() == old(Mounts()) && forall k :: IsTop(Mounts(), guest, k) ==> Mounts()[k].locked
    {
      hide TableOk, MountsAt;
      var i := TopAt(guest);
      if i < 0 { return EINVAL; }
      ghost var k :| IsTop(Mounts(), guest, k) && order[k] == i;
      RemoveOk(slots[..], n, counter, order, k);
      if slots[i].mount.locked {
        return EINVAL;
      }
      RemoveMounts(slots[..], n, counter, order, k);
      ghost var was := slots[..];
      slots[i] := slots[i].(active := false);
      order := Cut(order, k);
      assert slots[..] == was[i := was[i].(active := false)];
      st := Done;
    }
  }

  // ------------------------------------------------------------ what the list promises

  /** Mounting and unmounting the same point gives back the list. */
  lemma {:induction false} MountThenUnmount(ms: seq<Mount>, m: Mount, k: int)
    requires !m.locked && IsTop(ms + [m], m.guest, k)
    ensures Without(ms + [m], k) == ms
    ensures forall path, to :: Resolves(Without(ms + [m], k), path, to) <==> Resolves(ms, path, to)
  {
    assert (ms + [m])[|ms|].guest == m.guest;
    assert k == |ms|;
  }

  /** A new mount takes every path at or below it that no deeper mount has, and
   no other. */
  lemma {:induction false} NewMountTakes(ms: seq<Mount>, m: Mount, path: string)
    ensures Wins(ms + [m], path, |ms|) <==>
            Covers(m.guest, path) && forall j :: 0 <= j < |ms| && Covers(ms[j].guest, path) ==> |ms[j].guest| <= |m.guest|
    ensures forall k :: 0 <= k < |ms| ==>
              (Wins(ms + [m], path, k) <==> Wins(ms, path, k) && (Covers(m.guest, path) ==> |m.guest| < |ms[k].guest|))
  {
    var all := ms + [m];
    assert all[|ms|] == m;
    assert forall j :: 0 <= j < |ms| ==> all[j] == ms[j];
    forall k | 0 <= k < |ms| && Wins(all, path, k)
      ensures Wins(ms, path, k) && (Covers(m.guest, path) ==> |m.guest| < |ms[k].guest|)
    {
    }
  }
}
