/**
 Host allocations behind a region list: counted references, pins of memory lent
 to host system calls, the orphan list and the quarantine.
 */
module Backing {
  import opened RegionList

  /** `refs` counts regions, `pins` loans. Below `rwLo` the host refuses access;
   [rwLo, freshHi) has never been any region's. */
  datatype HostMap = HostMap(base: int, len: nat, refs: int, pins: int, rwLo: int, freshHi: int)

  datatype Retired = Retired(id: nat, base: int, len: nat, gen: nat)

  /** `next` is the identity the next allocation record gets, `gen` the
   address-space generation, `released` what munmap has given back. */
  datatype Backing = Backing(
    maps: map<nat, HostMap>, orphans: seq<nat>, retired: seq<Retired>,
    released: set<nat>, next: nat, gen: nat)

  function Retire(bk: Backing, id: nat): Backing
    requires id in bk.maps
  {
    bk.(retired := bk.retired + [Retired(id, bk.maps[id].base, bk.maps[id].len, bk.gen)], maps := bk.maps - {id})
  }

  function Ref(bk: Backing, id: nat): Backing
    requires id in bk.maps
  {
    bk.(maps := bk.maps[id := bk.maps[id].(refs := bk.maps[id].refs + 1)])
  }

  /** hmap_unref: the last reference retires the allocation, or parks it on the
   orphan list while a run of it is lent out. */
  function Unref(bk: Backing, id: nat): Backing
    requires id in bk.maps
  {
    var hm := bk.maps[id].(refs := bk.maps[id].refs - 1);
    var bk1 := bk.(maps := bk.maps[id := hm]);
    if hm.refs != 0 then bk1
    else if hm.pins != 0 then bk1.(orphans := [id] + bk.orphans)
    else Retire(bk1, id)
  }

  /** hmap_new, with `room` pages below the part that is handed out. */
  function New(bk: Backing, base: int, len: nat, room: nat): Backing {
    bk.(maps := bk.maps[bk.next := HostMap(base, len, 1, 0, base + room, base + room)], next := bk.next + 1)
  }

  function Pin(bk: Backing, id: nat): Backing
    requires id in bk.maps
  {
    bk.(maps := bk.maps[id := bk.maps[id].(pins := bk.maps[id].pins + 1)])
  }

  function Without(s: seq<nat>, id: nat): seq<nat> {
    if s == [] then [] else if s[0] == id then s[1..] else [s[0]] + Without(s[1..], id)
  }

  /** One entry of guest_unlend: the last loan of an orphan retires it. */
  function Unpin(bk: Backing, id: nat): Backing
    requires id in bk.maps
  {
    var hm := bk.maps[id].(pins := bk.maps[id].pins - 1);
    var bk1 := bk.(maps := bk.maps[id := hm]);
    if hm.pins != 0 || hm.refs != 0 then bk1
    else Retire(bk1.(orphans := Without(bk.orphans, id)), id)
  }

  // ------------------------------------------------------------ where an allocation is

  predicate Referenced(bk: Backing, id: nat) { id in bk.maps && bk.maps[id].refs > 0 }
  predicate Orphaned(bk: Backing, id: nat) { id in bk.maps && bk.maps[id].refs == 0 && bk.maps[id].pins > 0 }
  predicate Quarantined(bk: Backing, id: nat) { exists k :: 0 <= k < |bk.retired| && bk.retired[k].id == id }
  predicate Released(bk: Backing, id: nat) { id in bk.released }

  predicate NoRepeats(s: seq<nat>) { forall i, j :: 0 <= i < j < |s| ==> s[i] != s[j] }

  ghost predicate OrphansOk(bk: Backing) {
    && NoRepeats(bk.orphans)
    && (forall id :: id in bk.orphans <==> id in bk.maps && bk.maps[id].refs == 0)
    && (forall id :: id in bk.maps ==> bk.maps[id].pins >= 0 && (bk.maps[id].refs == 0 ==> bk.maps[id].pins > 0))
  }

  ghost predicate QuarantineOk(bk: Backing) {
    && (forall i, j :: 0 <= i < j < |bk.retired| ==> bk.retired[i].id != bk.retired[j].id)
    && (forall i :: 0 <= i < |bk.retired| ==>
          bk.retired[i].id !in bk.maps && bk.retired[i].id !in bk.released && bk.retired[i].id < bk.next
          && bk.retired[i].gen <= bk.gen)
    && (forall id :: id in bk.maps ==> id < bk.next && id !in bk.released)
    && (forall id :: id in bk.released ==> id < bk.next)
    && (forall id :: 0 <= id < bk.next ==> id in bk.maps || id in bk.released || Quarantined(bk, id))
  }

  /** `refs` is the number of regions that name the allocation. */
  ghost predicate CountsOk(bk: Backing, rs: seq<Region>) {
    && (forall id :: id in bk.maps ==> bk.maps[id].refs == RefCount(rs, id))
    && (forall id :: RefCount(rs, id) > 0 ==> id in bk.maps)
  }

  ghost predicate Life(bk: Backing, rs: seq<Region>) {
    OrphansOk(bk) && QuarantineOk(bk) && CountsOk(bk, rs)
  }

  /** An allocation is in exactly one place, and nothing lent out has left the
   host. */
  lemma {:induction false} OnePlace(bk: Backing, rs: seq<Region>, id: nat)
    requires Life(bk, rs) && id < bk.next
    ensures Referenced(bk, id) || Orphaned(bk, id) || Quarantined(bk, id) || Released(bk, id)
    ensures !(Referenced(bk, id) && (Orphaned(bk, id) || Quarantined(bk, id) || Released(bk, id)))
    ensures !(Orphaned(bk, id) && (Quarantined(bk, id) || Released(bk, id)))
    ensures !(Quarantined(bk, id) && Released(bk, id))
    ensures Referenced(bk, id) <==> RefCount(rs, id) > 0
    ensures id in bk.maps && bk.maps[id].pins > 0 ==> !Quarantined(bk, id) && !Released(bk, id)
  {
  }

  // ------------------------------------------------------------ what goes into the quarantine

  /** An allocation as it was, stamped no earlier than the generation it was in use. */
  predicate Leaves(e: Retired, bk0: Backing) {
    && e.id in bk0.maps && e.base == bk0.maps[e.id].base && e.len == bk0.maps[e.id].len
    && bk0.gen <= e.gen
  }

  /** Since `bk0` nothing has been given back, and the quarantine has only gained
   allocations there were then. */
  predicate Retires(bk: Backing, bk0: Backing) {
    && bk0.gen <= bk.gen && bk.released == bk0.released
    && |bk0.retired| <= |bk.retired| && bk.retired[..|bk0.retired|] == bk0.retired
    && forall k :: |bk0.retired| <= k < |bk.retired| ==> Leaves(bk.retired[k], bk0)
  }

  lemma {:induction false} UnrefRetires(bk: Backing, id: nat)
    requires id in bk.maps
    ensures Retires(Unref(bk, id), bk) && Retires(Ref(bk, id), bk)
  {
  }

  /** Two operations, the second on allocations the first left as they were. */
  lemma {:induction false} RetiresThen(bk: Backing, bk1: Backing, bk2: Backing)
    requires Retires(bk1, bk) && Retires(bk2, bk1)
    requires forall k :: |bk1.retired| <= k < |bk2.retired| ==>
               var id := bk2.retired[k].id;
               id in bk.maps && id in bk1.maps && bk1.maps[id].base == bk.maps[id].base && bk1.maps[id].len == bk.maps[id].len
    ensures Retires(bk2, bk)
  {
    forall k | |bk.retired| <= k < |bk2.retired| ensures Leaves(bk2.retired[k], bk) {
      if k < |bk1.retired| { assert bk2.retired[k] == bk2.retired[..|bk1.retired|][k] == bk1.retired[k]; }
    }
    forall k | 0 <= k < |bk.retired| ensures bk2.retired[k] == bk.retired[k] {
      assert bk2.retired[k] == bk2.retired[..|bk1.retired|][k] == bk1.retired[..|bk.retired|][k];
    }
    assert bk2.retired[..|bk.retired|] == bk.retired;
  }

  /** The last reference to an allocation nothing is lent of: it is in the
   quarantine, with the generation that runs. */
  lemma {:induction false} LastRefRetires(bk: Backing, rs: seq<Region>, id: nat)
    requires Life(bk, rs) && RefCount(rs, id) == 1 && bk.maps[id].pins == 0
    ensures var e := Retired(id, bk.maps[id].base, bk.maps[id].len, bk.gen);
            e !in bk.retired && e in Unref(bk, id).retired && id !in Unref(bk, id).maps
  {
    var e := Retired(id, bk.maps[id].base, bk.maps[id].len, bk.gen);
    assert Unref(bk, id).retired[|bk.retired|] == e;
  }

  // ------------------------------------------------------------ what each operation keeps

  lemma {:induction false} RefLife(bk: Backing, rs: seq<Region>, rs': seq<Region>, id: nat)
    requires Life(bk, rs) && RefCount(rs, id) > 0
    requires forall x :: RefCount(rs', x) == RefCount(rs, x) + if x == id then 1 else 0
    ensures Life(Ref(bk, id), rs')
  {
  }

  /** A split's reference dropped again by the merge that undoes it. */
  lemma {:induction false} RefThenUnref(bk: Backing, id: nat)
    requires Referenced(bk, id)
    ensures Unref(Ref(bk, id), id) == bk
  {
    assert Ref(bk, id).maps[id := bk.maps[id]] == bk.maps;
  }

  lemma {:induction false} RetireQuarantine(bk: Backing, id: nat)
    requires QuarantineOk(bk) && id in bk.maps
    ensures QuarantineOk(Retire(bk, id))
  {
    var bk' := Retire(bk, id);
    assert bk'.retired[|bk.retired|].id == id;
    forall x | 0 <= x < bk'.next
      ensures x in bk'.maps || x in bk'.released || Quarantined(bk', x)
    {
      if x != id && Quarantined(bk, x) {
        var k :| 0 <= k < |bk.retired| && bk.retired[k].id == x;
        assert bk'.retired[k].id == x;
      }
    }
  }

  lemma {:induction false} SameMapsQuarantine(bk: Backing, bk': Backing)
    requires QuarantineOk(bk) && bk' == bk.(maps := bk'.maps, orphans := bk'.orphans)
    requires bk'.maps.Keys == bk.maps.Keys
    ensures QuarantineOk(bk')
  {
    forall x | 0 <= x < bk'.next
      ensures x in bk'.maps || x in bk'.released || Quarantined(bk', x)
    {
      assert x in bk.maps || x in bk.released || Quarantined(bk, x);
    }
  }

  lemma {:induction false} UnrefQuarantine(bk: Backing, id: nat)
    requires QuarantineOk(bk) && id in bk.maps
    ensures QuarantineOk(Unref(bk, id))
  {
    hide QuarantineOk;
    var bk1 := bk.(maps := bk.maps[id := bk.maps[id].(refs := bk.maps[id].refs - 1)]);
    SameMapsQuarantine(bk, bk1);
    if bk1.maps[id].refs == 0 {
      if bk1.maps[id].pins != 0 {
        SameMapsQuarantine(bk1, bk1.(orphans := [id] + bk.orphans));
      } else {
        RetireQuarantine(bk1, id);
      }
    }
  }

  lemma {:induction false} UnrefLife(bk: Backing, rs: seq<Region>, rs': seq<Region>, id: nat)
    requires Life(bk, rs) && RefCount(rs, id) > 0
    requires forall x :: RefCount(rs', x) == RefCount(rs, x) - if x == id then 1 else 0
    ensures Life(Unref(bk, id), rs')
  {
    hide QuarantineOk, RefCount;
    UnrefQuarantine(bk, id);
    assert id !in bk.orphans;
    var orphans := [id] + bk.orphans;
    assert forall x :: x in orphans <==> x == id || x in bk.orphans;
  }

  lemma {:induction false} NewLife(bk: Backing, rs: seq<Region>, rs': seq<Region>, base: int, len: nat, room: nat)
    requires Life(bk, rs)
    requires forall x :: RefCount(rs', x) == RefCount(rs, x) + if x == bk.next then 1 else 0
    ensures Life(New(bk, base, len, room), rs')
  {
    var bk' := New(bk, base, len, room);
    assert RefCount(rs, bk.next) == 0;
    forall x | 0 <= x < bk'.next
      ensures x in bk'.maps || x in bk'.released || Quarantined(bk', x)
    {
      if x < bk.next {
        assert x in bk.maps || x in bk.released || Quarantined(bk, x);
      }
    }
  }

  lemma {:induction false} PinLife(bk: Backing, rs: seq<Region>, id: nat)
    requires Life(bk, rs) && id in bk.maps
    ensures Life(Pin(bk, id), rs)
  {
    SameMapsQuarantine(bk, Pin(bk, id));
  }

  lemma {:induction false} WithoutIs(s: seq<nat>, id: nat)
    requires NoRepeats(s)
    ensures NoRepeats(Without(s, id))
    ensures forall x :: x in Without(s, id) <==> x in s && x != id
  {
    if s != [] && s[0] != id {
      WithoutIs(s[1..], id);
      var w := Without(s[1..], id);
      assert s[0] !in s[1..];
      assert forall k :: 0 <= k < |w| ==> w[k] in w;
    }
  }

  lemma {:induction false} UnpinLife(bk: Backing, rs: seq<Region>, id: nat)
    requires Life(bk, rs) && id in bk.maps && bk.maps[id].pins > 0
    ensures Life(Unpin(bk, id), rs)
  {
    var bk1 := bk.(maps := bk.maps[id := bk.maps[id].(pins := bk.maps[id].pins - 1)]);
    SameMapsQuarantine(bk, bk1);
    if bk1.maps[id].pins == 0 && bk1.maps[id].refs == 0 {
      WithoutIs(bk.orphans, id);
      var bk2 := bk1.(orphans := Without(bk.orphans, id));
      SameMapsQuarantine(bk1, bk2);
      RetireQuarantine(bk2, id);
    }
  }
}
