/**
 What a vfork child wrote, carried back to its parent: pages snapshotted at
 their first store, compared byte for byte at the end, and the changed runs
 applied to the parent's copy.
 */
module Vfork {
  newtype Byte = x: int | 0 <= x < 256

  const SIZE: nat := 4096

  /** Gaps shorter than this go with the run around them. */
  const FOLD: nat := 16

  type Page = p: seq<Byte> | |p| == SIZE witness seq(SIZE, _ => 0)

  // ------------------------------------------------------------ runs of one page

  datatype Piece = Piece(off: nat, data: seq<Byte>)

  predicate Inside(r: Piece) { r.off + |r.data| <= SIZE }

  function Patch(p: Page, r: Piece): Page
    requires Inside(r)
  {
    p[..r.off] + r.data + p[r.off + |r.data|..]
  }

  function PatchAll(p: Page, rs: seq<Piece>): Page
    requires forall i :: 0 <= i < |rs| ==> Inside(rs[i])
  {
    if rs == [] then p else Patch(PatchAll(p, rs[..|rs| - 1]), rs[|rs| - 1])
  }

  predicate Changed(was: Page, now: Page, b: nat) { b < SIZE && was[b] != now[b] }

  predicate Unchanged(was: Page, now: Page, lo: int, hi: int) { forall b: nat :: lo <= b < hi ==> !Changed(was, now, b) }

  /** FOLD bytes from `b` on, none of them changed. */
  predicate Stretch(was: Page, now: Page, b: nat) { Unchanged(was, now, b, b + FOLD) }

  predicate NoStretch(was: Page, now: Page, lo: nat, hi: nat) {
    forall b: nat :: lo <= b && b + FOLD <= hi ==> !Stretch(was, now, b)
  }

  /** A run worth sending: the bytes as they are now, changed at both ends, with
   no stretch of FOLD unchanged bytes inside. */
  ghost predicate Tight(was: Page, now: Page, r: Piece) {
    && Inside(r) && |r.data| > 0 && r.data == now[r.off..r.off + |r.data|]
    && Changed(was, now, r.off) && Changed(was, now, r.off + |r.data| - 1)
    && NoStretch(was, now, r.off, r.off + |r.data|)
  }

  /** The runs of a page below `upTo`: each tight, in order, at least FOLD
   unchanged bytes apart, and together all that changed. */
  ghost predicate Diff(was: Page, now: Page, rs: seq<Piece>, upTo: nat) {
    && upTo <= SIZE
    && (forall i :: 0 <= i < |rs| ==> Tight(was, now, rs[i]) && rs[i].off + |rs[i].data| <= upTo)
    && (forall i :: 0 < i < |rs| ==> rs[i - 1].off + |rs[i - 1].data| + FOLD <= rs[i].off)
    && PatchAll(was, rs) == now[..upTo] + was[upTo..]
  }

  /** The end of the run that starts at `off`: the last changed byte that is not
   FOLD unchanged bytes away from the one before it. */
  method RunEnd(was: Page, now: Page, off: nat) returns (last: nat)
    requires Changed(was, now, off)
    ensures off <= last < SIZE && Changed(was, now, last)
    ensures NoStretch(was, now, off, last + 1)
    ensures Unchanged(was, now, last + 1, last + 1 + FOLD)
  {
    last := off;
    var j := off + 1;
    while j < SIZE && j - last <= FOLD
      invariant off <= last < j <= SIZE && j - last <= FOLD + 1 && Changed(was, now, last)
      invariant NoStretch(was, now, off, last + 1)
      invariant Unchanged(was, now, last + 1, j)
    {
      if now[j] != was[j] {
        ghost var before := last;
        last := j;
        forall b: nat | off <= b && b + FOLD <= last + 1
          ensures !Stretch(was, now, b)
        {
          if before + 1 < b + FOLD {
            assert Changed(was, now, if b <= before then before else last);
          }
        }
      }
      j := j + 1;
    }
  }

  lemma {:induction false} PatchStep(p: Page, rs: seq<Piece>, r: Piece)
    requires Inside(r) && forall i :: 0 <= i < |rs| ==> Inside(rs[i])
    ensures PatchAll(p, rs + [r]) == Patch(PatchAll(p, rs), r)
  {
    assert (rs + [r])[..|rs|] == rs;
  }

  lemma {:induction false} PatchRun(was: Page, now: Page, off: nat, end: nat)
    requires off <= end <= SIZE
    ensures Patch(now[..off] + was[off..], Piece(off, now[off..end])) == now[..end] + was[end..]
  {
    var p := now[..off] + was[off..];
    assert p[..off] == now[..off];
    assert p[end..] == was[end..];
    assert now[..off] + now[off..end] == now[..end];
  }

  lemma {:induction false} DiffGrows(was: Page, now: Page, rs: seq<Piece>, off: nat, last: nat)
    requires Diff(was, now, rs, off) && off <= last < SIZE
    requires Tight(was, now, Piece(off, now[off..last + 1]))
    requires |rs| > 0 ==> rs[|rs| - 1].off + |rs[|rs| - 1].data| + FOLD <= off
    ensures Diff(was, now, rs + [Piece(off, now[off..last + 1])], last + 1)
  {
    hide PatchAll, NoStretch, Changed;
    var r := Piece(off, now[off..last + 1]);
    PatchStep(was, rs, r);
    PatchRun(was, now, off, last + 1);
    hide Patch;
  }

  /** The inner loop of as_vfork_flush: the runs of one page, until the receiver
   (who has `cap` places left) refuses one. */
  method Runs(was: Page, now: Page, cap: nat) returns (rs: seq<Piece>, ok: bool, ghost upTo: nat)
    ensures Diff(was, now, rs, upTo) && |rs| <= cap
    ensures ok ==> upTo == SIZE && PatchAll(was, rs) == now
    ensures !ok ==> |rs| == cap && Changed(was, now, upTo)
  {
    hide Tight, PatchAll, Diff, NoStretch;
    rs, ok := [], true;
    var off := 0;
    ghost var end := 0 - FOLD as int;
    NoRuns(was, now);
    while off < SIZE
      invariant off <= SIZE && Diff(was, now, rs, off) && |rs| <= cap
      invariant end <= off && Unchanged(was, now, end, off) && Unchanged(was, now, end, end + FOLD)
      invariant |rs| > 0 ==> end == rs[|rs| - 1].off + |rs[|rs| - 1].data|
    {
      if now[off] == was[off] {
        DiffSkips(was, now, rs, off);
        off := off + 1;
      } else {
        assert Changed(was, now, off);
        var last := RunEnd(was, now, off);
        if |rs| == cap { return rs, false, off; }
        TightRun(was, now, off, last);
        DiffGrows(was, now, rs, off, last);
        rs := rs + [Piece(off, now[off..last + 1])];
        off := last + 1;
        end := off;
      }
    }
    upTo := SIZE;
    DiffInside(was, now, rs, SIZE);
    DiffWhole(was, now, rs);
  }

  lemma {:induction false} NoRuns(was: Page, now: Page)
    ensures Diff(was, now, [], 0)
  {
    assert now[..0] + was[0..] == was;
  }

  lemma {:induction false} TightRun(was: Page, now: Page, off: nat, last: nat)
    requires off <= last < SIZE && Changed(was, now, off) && Changed(was, now, last)
    requires NoStretch(was, now, off, last + 1)
    ensures Tight(was, now, Piece(off, now[off..last + 1]))
  {
  }

  lemma {:induction false} DiffSkips(was: Page, now: Page, rs: seq<Piece>, off: nat)
    requires Diff(was, now, rs, off) && off < SIZE && now[off] == was[off]
    ensures Diff(was, now, rs, off + 1)
  {
    hide Tight, PatchAll;
    assert now[..off] + was[off..] == now[..off + 1] + was[off + 1..];
  }

  /** Nothing is sent exactly when nothing changed. */
  lemma {:induction false} QuietPage(was: Page, now: Page, rs: seq<Piece>)
    requires Diff(was, now, rs, SIZE)
    ensures rs == [] <==> was == now
  {
    assert now[..SIZE] + was[SIZE..] == now;
    if rs != [] {
      assert Tight(was, now, rs[0]);
    }
  }

  // ------------------------------------------------------------ the snapshot table

  datatype Snap = Snap(va: nat, was: Page)

  predicate Ascending(s: seq<Snap>) { forall i, j :: 0 <= i < j < |s| ==> s[i].va < s[j].va }

  /** vf_find: where a page is, or -(where it would go + 1). */
  method Lookup(s: seq<Snap>, va: nat) returns (i: int)
    requires Ascending(s)
    ensures 0 <= i ==> i < |s| && s[i].va == va
    ensures i < 0 ==> -i - 1 <= |s| && (forall k :: 0 <= k < -i - 1 ==> s[k].va < va) && (forall k :: -i - 1 <= k < |s| ==> va < s[k].va)
  {
    var lo, hi := 0, |s| - 1;
    while lo <= hi
      invariant 0 <= lo <= hi + 1 <= |s|
      invariant forall k :: 0 <= k < lo ==> s[k].va < va
      invariant forall k :: hi < k < |s| ==> va < s[k].va
    {
      var mid := (lo + hi) / 2;
      if s[mid].va == va { return mid; }
      if s[mid].va < va { lo := mid + 1; } else { hi := mid - 1; }
    }
    i := -(lo + 1);
  }

  predicate Has(s: seq<Snap>, va: nat) { exists i :: 0 <= i < |s| && s[i].va == va }

  lemma {:induction false} InsertSnap(s: seq<Snap>, k: nat, x: Snap)
    requires Ascending(s) && k <= |s|
    requires (forall j :: 0 <= j < k ==> s[j].va < x.va) && (forall j :: k <= j < |s| ==> x.va < s[j].va)
    ensures var s' := s[..k] + [x] + s[k..];
            && Ascending(s')
            && (forall i :: 0 <= i < |s'| ==> s'[i] == x || s'[i] in s)
            && (forall va :: Has(s, va) || va == x.va ==> Has(s', va))
  {
    var s' := s[..k] + [x] + s[k..];
    assert forall i :: 0 <= i < |s'| ==> s'[i] == if i < k then s[i] else if i == k then x else s[i - 1];
    assert s'[k].va == x.va;
    forall va | Has(s, va)
      ensures Has(s', va)
    {
      var i :| 0 <= i < |s| && s[i].va == va;
      assert s'[if i < k then i else i + 1].va == va;
    }
  }

  // ------------------------------------------------------------ the child

  /** What goes to the parent: `data` at byte `off` of page `va`. */
  datatype Carry = Carry(va: nat, piece: Piece)

  /** The tracked child. `mem` is its private memory, `may` the pages whose
   region allows stores, `open` those whose entry does (the tracking takes that
   bit until the first store). */
  class Child {
    var mem: map<nat, Page>
    var may: set<nat>
    var open: set<nat>
    var track: bool
    var snaps: seq<Snap>
    ghost var orig: map<nat, Page>

    /** Every page that differs from what it was has what it was in the table. */
    ghost predicate Valid()
      reads this
    {
      && Ascending(snaps) && mem.Keys <= orig.Keys
      && (forall i :: 0 <= i < |snaps| ==> snaps[i].va in orig && snaps[i].was == orig[snaps[i].va])
      && (track ==> forall p :: p in mem && p in open ==> Has(snaps, p))
      && (track ==> forall p :: p in mem && mem[p] != orig[p] ==> Has(snaps, p))
    }

    /** as_vfork_track_begin */
    method TrackBegin()
      modifies this
      ensures Valid() && track && orig == mem == old(mem) && snaps == [] && may == old(may)
    {
      snaps, track := [], true;
      open := {};
      orig := mem;
    }

    /** vf_record: refused when there is no memory for the copy. */
    method Record(page: nat, room: bool) returns (ok: bool)
      requires Valid() && track && page in mem
      modifies this`snaps
      ensures Valid() && ok == (room || Has(old(snaps), page))
      ensures if ok then Has(snaps, page) else snaps == old(snaps)
    {
      var i := Lookup(snaps, page);
      if i >= 0 { return true; }
      i := -i - 1;
      if !room { return false; }
      assert !Has(snaps, page);
      InsertSnap(snaps, i, Snap(page, mem[page]));
      snaps := snaps[..i] + [Snap(page, mem[page])] + snaps[i..];
      ok := true;
    }

    /** A guest store of `data` at byte `off` of a page: the page's entry is
     mended (as_write_heal) if the tracking took its write bit. */
    method Store(page: nat, off: nat, data: seq<Byte>, room: bool) returns (ok: bool)
      requires Valid() && off + |data| <= SIZE
      modifies this
      ensures Valid() && orig == old(orig) && track == old(track) && may == old(may)
      ensures ok <==> page in old(mem) && (page in old(open) || (page in may && (!track || room || Has(old(snaps), page))))
      ensures ok ==> mem == old(mem)[page := Patch(old(mem)[page], Piece(off, data))]
      ensures !ok ==> mem == old(mem)
    {
      if page !in mem { return false; }
      if page !in open {
        if page !in may { return false; }
        if track {
          var kept := Record(page, room);
          if !kept { return false; }
        }
        open := open + {page};
      }
      mem := mem[page := Patch(mem[page], Piece(off, data))];
      ok := true;
    }

    /** Bytes a vfork child of its own sends it (as_vfork_note_write, then the
     store past the write bit): `lands` is whether the page takes them. Unlike a
     guest store this one goes ahead when there is no memory for the copy. */
    method Apply(page: nat, off: nat, data: seq<Byte>, lands: bool, room: bool)
      requires Valid() && off + |data| <= SIZE
      modifies this
      ensures orig == old(orig) && track == old(track) && may == old(may) && open == old(open)
      ensures mem == if lands && page in old(mem) then old(mem)[page := Patch(old(mem)[page], Piece(off, data))] else old(mem)
      ensures Valid() <==> !track || room || Has(old(snaps), page) || mem == old(mem)
    {
      if page !in mem { return; }
      if track {
        var _ := Record(page, room);
      }
      if lands {
        mem := mem[page := Patch(mem[page], Piece(off, data))];
        assert mem[page] == old(mem)[page] ==> mem == old(mem);
      }
      assert !Has(old(snaps), page) && track ==> old(mem)[page] == orig[page];
    }

    /** A page the child gives up is its own affair from then on. */
    method Unmap(page: nat)
      requires Valid()
      modifies this
      ensures Valid() && mem == old(mem) - {page} && orig == old(orig)
    {
      mem := mem - {page};
    }

    /** as_vfork_flush: the changed bytes of every page still mapped, in page
     order, until the receiver refuses one. */
    method Flush(cap: nat) returns (out: seq<Carry>, ok: bool)
      requires Valid() && track
      modifies this
      ensures mem == old(mem) && orig == old(orig) && snaps == [] && !track
      ensures Carried(out) && |out| <= cap
      ensures forall i :: 0 <= i < |out| ==> out[i].va in mem
      ensures ok ==> forall p :: p in mem ==> PatchAll(orig[p], For(out, p)) == mem[p] && Diff(orig[p], mem[p], For(out, p), SIZE)
      ensures !ok ==> |out| == cap
    {
      hide Diff, PatchAll, For;
      track, out, ok := false, [], true;
      var i := 0;
      while i < |snaps| && ok
        invariant 0 <= i <= |snaps| && mem == old(mem) && orig == old(orig) && snaps == old(snaps) && !track
        invariant Carried(out) && |out| <= cap
        invariant ok ==> From(out, snaps[..i])
        invariant forall k :: 0 <= k < |out| ==> out[k].va in mem
        invariant ok ==> forall j :: 0 <= j < i && snaps[j].va in mem ==>
                    Diff(orig[snaps[j].va], mem[snaps[j].va], For(out, snaps[j].va), SIZE)
        invariant !ok ==> |out| == cap
      {
        var va := snaps[i].va;
        if va in mem {
          ghost var out0 := out;
          ghost var upTo;
          var rs;
          FromBefore(out0, snaps, i);
          rs, ok, upTo := Runs(snaps[i].was, mem[va], cap - |out|);
          DiffInside(snaps[i].was, mem[va], rs, upTo);
          ForPage(out0, va, rs);
          out := out + On(va, rs);
          forall j | 0 <= j < i ensures For(out, snaps[j].va) == For(out0, snaps[j].va) { ForOther(out0, va, rs, snaps[j].va); }
        }
        FromMore(out, snaps, i);
        i := i + 1;
      }
      assert snaps[..|snaps|] == snaps;
      if ok {
        forall p | p in mem
          ensures PatchAll(orig[p], For(out, p)) == mem[p] && Diff(orig[p], mem[p], For(out, p), SIZE)
        {
          if Has(snaps, p) {
            var j :| 0 <= j < |snaps| && snaps[j].va == p;
            DiffWhole(orig[p], mem[p], For(out, p));
          } else {
            ForNone(out, p);
            QuietDiff(mem[p]);
          }
        }
      }
      snaps := [];
    }
  }

  predicate Carried(out: seq<Carry>) { forall i :: 0 <= i < |out| ==> Inside(out[i].piece) }

  /** The pieces that go to one page. */
  function For(out: seq<Carry>, va: nat): (rs: seq<Piece>)
    ensures Carried(out) ==> forall i :: 0 <= i < |rs| ==> Inside(rs[i])
  {
    if out == [] then []
    else For(out[..|out| - 1], va) + if out[|out| - 1].va == va then [out[|out| - 1].piece] else []
  }

  /** Everything carried so far is of pages in the table. */
  predicate From(out: seq<Carry>, s: seq<Snap>) { forall k :: 0 <= k < |out| ==> Has(s, out[k].va) }

  lemma {:induction false} FromBefore(out: seq<Carry>, s: seq<Snap>, i: nat)
    requires Ascending(s) && i < |s| && From(out, s[..i])
    ensures forall k :: 0 <= k < |out| ==> out[k].va != s[i].va
  {
    forall k | 0 <= k < |out| ensures out[k].va != s[i].va {
      assert Has(s[..i], out[k].va);
      var j :| 0 <= j < |s[..i]| && s[..i][j].va == out[k].va;
      assert s[j].va < s[i].va;
    }
  }

  /** The next page of the table may be among what is carried. */
  lemma {:induction false} FromMore(out: seq<Carry>, s: seq<Snap>, i: nat)
    requires i < |s|
    ensures (forall k :: 0 <= k < |out| ==> Has(s[..i], out[k].va) || out[k].va == s[i].va) ==> From(out, s[..i + 1])
  {
    assert s[..i + 1][i].va == s[i].va;
    forall x | Has(s[..i], x) ensures Has(s[..i + 1], x) {
      var j :| 0 <= j < |s[..i]| && s[..i][j].va == x;
      assert s[..i + 1][j].va == x;
    }
  }

  function On(va: nat, rs: seq<Piece>): seq<Carry> { seq(|rs|, i requires 0 <= i < |rs| => Carry(va, rs[i])) }

  lemma {:induction false} ForNone(out: seq<Carry>, va: nat)
    requires forall k :: 0 <= k < |out| ==> out[k].va != va
    ensures For(out, va) == []
  {
    if out != [] { ForNone(out[..|out| - 1], va); }
  }

  lemma {:induction false} ForPage(out: seq<Carry>, va: nat, rs: seq<Piece>)
    requires forall k :: 0 <= k < |out| ==> out[k].va != va
    ensures For(out + On(va, rs), va) == rs
  {
    if rs == [] {
      assert out + On(va, rs) == out;
      ForNone(out, va);
    } else {
      var front := rs[..|rs| - 1];
      ForPage(out, va, front);
      assert (out + On(va, rs))[..|out| + |rs| - 1] == out + On(va, front);
    }
  }

  lemma {:induction false} ForOther(out: seq<Carry>, va: nat, rs: seq<Piece>, p: nat)
    requires p != va
    ensures For(out + On(va, rs), p) == For(out, p)
  {
    if rs == [] {
      assert out + On(va, rs) == out;
    } else {
      var front := rs[..|rs| - 1];
      ForOther(out, va, front, p);
      assert (out + On(va, rs))[..|out| + |rs| - 1] == out + On(va, front);
    }
  }

  lemma {:induction false} DiffInside(was: Page, now: Page, rs: seq<Piece>, upTo: nat)
    requires Diff(was, now, rs, upTo)
    ensures forall i :: 0 <= i < |rs| ==> Inside(rs[i])
  {
  }

  lemma {:induction false} DiffWhole(was: Page, now: Page, rs: seq<Piece>)
    requires Diff(was, now, rs, SIZE)
    ensures PatchAll(was, rs) == now
  {
    assert now[..SIZE] + was[SIZE..] == now;
  }

  lemma {:induction false} QuietDiff(now: Page)
    ensures PatchAll(now, []) == now && Diff(now, now, [], SIZE)
  {
    assert now[..SIZE] + now[SIZE..] == now;
  }
}
