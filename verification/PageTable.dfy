/**
 The two-level page table: a first level of L1_SIZE slots, each empty or naming
 a second-level table of L2_SIZE entries that carries the count of its live
 entries. A table that loses its last entry is kept as the spare or dropped.
 */
module PageTable {
  const L1_SIZE: nat := 0x20_0000
  const L2_SIZE: nat := 0x4000
  /** Pages below GUEST_TASK_SIZE. */
  const PAGES: nat := L1_SIZE * L2_SIZE

  /** An entry: nothing, or a host page and its protection bits. */
  datatype Pte = Absent | Present(host: int, prot: nat)

  ghost function Live(s: seq<Pte>): nat {
    if s == [] then 0 else (if s[0].Present? then 1 else 0) + Live(s[1..])
  }

  ghost function Bit(b: bool): int { if b then 1 else 0 }

  lemma {:induction false} LiveUpdate(s: seq<Pte>, i: nat, v: Pte)
    requires i < |s|
    ensures Live(s[i := v]) == Live(s) - Bit(s[i].Present?) + Bit(v.Present?)
  {
    if i == 0 {
      assert s[0 := v] == [v] + s[1..];
      assert s[0 := v][1..] == s[1..];
    } else {
      assert s[i := v][1..] == s[1..][i - 1 := v];
      LiveUpdate(s[1..], i - 1, v);
    }
  }

  lemma {:induction false} LiveZero(s: seq<Pte>)
    ensures Live(s) == 0 <==> forall i :: 0 <= i < |s| ==> s[i].Absent?
  {
    if s != [] {
      LiveZero(s[1..]);
      assert forall i :: 1 <= i < |s| ==> s[i] == s[1..][i - 1];
    }
  }

  class L2Table {
    var used: int
    var e: seq<Pte>
    /** The slot the table is in; -1 for the spare. */
    ghost var home: int

    ghost predicate Ok()
      reads this
    {
      |e| == L2_SIZE && used == Live(e)
    }

    constructor ()
      ensures Ok() && used == 0
    {
      e := seq(L2_SIZE, i => Absent);
      used := 0;
      new;
      LiveZero(e);
    }

    /** pte_put: counts transitions rather than writes. */
    method Put(idx: nat, val: Pte)
      requires Ok() && idx < L2_SIZE
      modifies this
      ensures Ok() && e == old(e)[idx := val] && home == old(home)
    {
      LiveUpdate(e, idx, val);
      if e[idx].Present? != val.Present? {
        if val.Present? { used := used + 1; } else { used := used - 1; }
      }
      e := e[idx := val];
    }
  }

  ghost function Tables(s: seq<L2Table?>): nat {
    if s == [] then 0 else (if s[0] != null then 1 else 0) + Tables(s[1..])
  }

  lemma {:induction false} TablesUpdate(s: seq<L2Table?>, i: nat, v: L2Table?)
    requires i < |s|
    ensures Tables(s[i := v]) == Tables(s) - Bit(s[i] != null) + Bit(v != null)
  {
    if i == 0 {
      assert s[0 := v][1..] == s[1..];
    } else {
      assert s[i := v][1..] == s[1..][i - 1 := v];
      TablesUpdate(s[1..], i - 1, v);
    }
  }

  lemma {:induction false} NoTables(s: seq<L2Table?>)
    requires forall i :: 0 <= i < |s| ==> s[i] == null
    ensures Tables(s) == 0
  {
    if s != [] {
      NoTables(s[1..]);
    }
  }

  class PageTable {
    const l1: array<L2Table?>
    var spare: L2Table?
    var npgtables: int
    /** The flat table the two levels stand for. */
    ghost var view: seq<Pte>
    ghost var Repr: set<object>

    /** Every slot holds its own exactly counted table, nonempty except perhaps
     in slot `k`; the spare is in none of them and all absent; `npgtables`
     counts the slots in use. */
    ghost predicate ShapeBut(k: int)
      reads this, Repr, l1
    {
      && this in Repr && l1 in Repr && l1.Length == L1_SIZE
      && (forall i :: 0 <= i < L1_SIZE && l1[i] != null ==>
            l1[i] in Repr && l1[i].home == i && l1[i].Ok() && (i == k || l1[i].used > 0))
      && (spare != null ==> spare in Repr && spare.home == -1 && spare.Ok() && spare.used == 0)
      && npgtables == Tables(l1[..])
    }

    ghost predicate Shape()
      reads this, Repr, l1
    {
      ShapeBut(-1)
    }

    ghost function Entry(k: int, page: nat): Pte
      requires page < PAGES && ShapeBut(k)
      reads this, Repr, l1
    {
      if l1[page / L2_SIZE] == null then Absent else l1[page / L2_SIZE].e[page % L2_SIZE]
    }

    /** The two levels, entry by entry, are the flat table `view`. */
    ghost predicate Flat(k: int)
      requires ShapeBut(k)
      reads this, Repr, l1
    {
      |view| == PAGES && forall p: nat :: p < PAGES ==> Entry(k, p) == view[p]
    }

    ghost predicate Valid()
      reads this, Repr, l1
      ensures Valid() ==> this in Repr && |view| == PAGES
    {
      Shape() && Flat(-1)
    }

    constructor ()
      ensures Valid() && fresh(Repr) && npgtables == 0 && spare == null
      ensures forall p :: 0 <= p < PAGES ==> view[p].Absent?
    {
      l1 := new L2Table?[L1_SIZE](i => null);
      spare := null;
      npgtables := 0;
      view := seq(PAGES, i => Absent);
      new;
      Repr := {this, l1};
      NoTables(l1[..]);
    }

    /** pte_get */
    method Get(page: nat) returns (pte: Pte)
      requires Valid() && page < PAGES
      ensures pte == view[page]
    {
      var l2 := l1[page / L2_SIZE];
      if l2 == null { pte := Absent; } else { pte := l2.e[page % L2_SIZE]; }
      assert pte == Entry(-1, page);
    }

    /** A slot that needs a table gets the spare, or a new one. */
    method Attach(k: nat)
      requires Shape() && k < L1_SIZE && l1[k] == null
      modifies this`spare, this`npgtables, this`Repr, l1, spare
      ensures ShapeBut(k) && fresh(Repr - old(Repr)) && old(Repr) <= Repr
      ensures l1[..] == old(l1[..])[k := l1[k]] && l1[k] != null && l1[k].used == 0
      ensures l1[k] == old(spare) || fresh(l1[k])
      ensures view == old(view)
      ensures forall p: nat :: p < PAGES ==> Entry(k, p) == old(Entry(-1, p))
    {
      var t: L2Table;
      if spare != null {
        t := spare;
        spare := null;
      } else {
        t := new L2Table();
        Repr := Repr + {t};
      }
      LiveZero(t.e);
      t.home := k;
      TablesUpdate(l1[..], k, t);
      l1[k] := t;
      assert l1[..] == old(l1[..])[k := t];
      npgtables := npgtables + 1;
    }

    /** An emptied table leaves its slot: it becomes the spare, or is dropped. */
    method Detach(k: nat)
      requires ShapeBut(k) && k < L1_SIZE && l1[k] != null && l1[k].used == 0
      modifies this`spare, this`npgtables, l1, l1[k]
      ensures Shape() && l1[..] == old(l1[..])[k := null]
      ensures view == old(view) && Repr == old(Repr)
      ensures forall p: nat :: p < PAGES ==> Entry(-1, p) == old(Entry(k, p))
    {
      LiveZero(l1[k].e);
      TablesUpdate(l1[..], k, null);
      if spare == null {
        spare := l1[k];
        spare.home := -1;
      }
      l1[k] := null;
      assert l1[..] == old(l1[..])[k := null];
      npgtables := npgtables - 1;
    }

    /** One entry of an attached table. */
    method Store(k: nat, page: nat, val: Pte)
      requires ShapeBut(k) && Flat(k) && page < PAGES && k == page / L2_SIZE && l1[k] != null
      modifies this`view, l1[k]
      ensures ShapeBut(k) && view == old(view)[page := val] && Flat(k)
    {
      l1[k].Put(page % L2_SIZE, val);
      view := view[page := val];
      forall p: nat | p < PAGES
        ensures Entry(k, p) == view[p]
      {
        assert p / L2_SIZE == k && p % L2_SIZE == page % L2_SIZE ==> p == page;
      }
    }

    /** pte_put_one */
    method PutOne(page: nat, val: Pte)
      requires Valid() && page < PAGES
      modifies Repr
      ensures Valid() && fresh(Repr - old(Repr))
      ensures view == old(view)[page := val]
    {
      var k := page / L2_SIZE;
      if l1[k] == null {
        if val.Absent? {
          assert Entry(-1, page).Absent?;
          return;
        }
        Attach(k);
      }
      assert ShapeBut(k);
      Store(k, page, val);
      if l1[k].used == 0 {
        Detach(k);
      }
    }

    /** pte_set_range: live entries from `host` on, or (no host) none. */
    method SetRange(start: nat, n: nat, host: int, prot: nat, live: bool)
      requires Valid() && start + n <= PAGES
      modifies Repr
      ensures Valid() && fresh(Repr - old(Repr))
      ensures forall p :: 0 <= p < PAGES ==>
                view[p] == if start <= p < start + n then SetPte(host + (p - start), prot, live) else old(view)[p]
    {
      hide Valid;
      var off := 0;
      while off < n
        invariant off <= n && Valid() && fresh(Repr - old(Repr))
        invariant forall p :: 0 <= p < PAGES ==>
                    view[p] == if start <= p < start + off then SetPte(host + (p - start), prot, live) else old(view)[p]
      {
        PutOne(start + off, SetPte(host + off, prot, live));
        off := off + 1;
      }
    }

    /** pte_prot_raw: the protection of the live entries of a range. */
    method ProtRange(start: nat, n: nat, prot: nat)
      requires Valid() && start + n <= PAGES
      modifies Repr
      ensures Valid() && fresh(Repr - old(Repr))
      ensures forall p :: 0 <= p < PAGES ==>
                view[p] == if start <= p < start + n then Reprotect(old(view)[p], prot) else old(view)[p]
    {
      hide Valid;
      var off := 0;
      while off < n
        invariant off <= n && Valid() && fresh(Repr - old(Repr))
        invariant forall p :: 0 <= p < PAGES ==>
                    view[p] == if start <= p < start + off then Reprotect(old(view)[p], prot) else old(view)[p]
      {
        var pte := Get(start + off);
        if pte.Present? {
          PutOne(start + off, Reprotect(pte, prot));
        }
        off := off + 1;
      }
    }

    /** pte_repoint_range: the live entries of a range name other host pages. */
    method RepointRange(start: nat, n: nat, host: int)
      requires Valid() && start + n <= PAGES
      modifies Repr
      ensures Valid() && fresh(Repr - old(Repr))
      ensures forall p :: 0 <= p < PAGES ==>
                view[p] == if start <= p < start + n then Repoint(old(view)[p], host + (p - start)) else old(view)[p]
    {
      hide Valid;
      var off := 0;
      while off < n
        invariant off <= n && Valid() && fresh(Repr - old(Repr))
        invariant forall p :: 0 <= p < PAGES ==>
                    view[p] == if start <= p < start + off then Repoint(old(view)[p], host + (p - start)) else old(view)[p]
      {
        var pte := Get(start + off);
        if pte.Present? {
          PutOne(start + off, Repoint(pte, host + off));
        }
        off := off + 1;
      }
    }

    /** The page loops of the mremap helpers: the live entries at `src` appear at `dst`. */
    method CopyRange(src: nat, dst: nat, n: nat)
      requires Valid() && src + n <= PAGES && dst + n <= PAGES
      requires src + n <= dst || dst + n <= src
      modifies Repr
      ensures Valid() && fresh(Repr - old(Repr))
      ensures forall p :: 0 <= p < PAGES ==> view[p] == CopyAt(old(view), src, dst, n, p)
    {
      hide Valid;
      var off := 0;
      while off < n
        invariant off <= n && Valid() && fresh(Repr - old(Repr))
        invariant forall p :: 0 <= p < PAGES ==> view[p] == CopyAt(old(view), src, dst, off, p)
      {
        var pte := Get(src + off);
        if pte.Present? {
          PutOne(dst + off, pte);
        }
        off := off + 1;
      }
    }
  }

  function SetPte(host: int, prot: nat, live: bool): Pte { if live then Present(host, prot) else Absent }
  function Reprotect(pte: Pte, prot: nat): Pte { if pte.Present? then Present(pte.host, prot) else pte }
  function Repoint(pte: Pte, host: int): Pte { if pte.Present? then Present(host, pte.prot) else pte }

  /** Page `p` after the live entries of [src, src + n) were copied to `dst`. */
  function CopyAt(v: seq<Pte>, src: nat, dst: nat, n: nat, p: nat): Pte
    requires |v| == PAGES && p < PAGES && src + n <= PAGES
  {
    if dst <= p < dst + n && v[src + (p - dst)].Present? then v[src + (p - dst)] else v[p]
  }
}
