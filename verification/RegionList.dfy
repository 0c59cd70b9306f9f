/**
 The region list of a guest address space: a sequence of mappings sorted by
 start. Guest addresses, host addresses and file offsets are counted in 4 KB
 pages, since every one the list stores is page aligned.
 */
module RegionList {
  import opened Options

  datatype FileId = FileId(dev: nat, ino: nat)

  /** What travels unchanged with a mapping through splits, trims and moves. */
  datatype Attr = Attr(
    shared: bool, wrOk: bool, hostmap: bool, anonShm: bool, shmSize: nat, mfdcnt: bool,
    forkflags: nat, growsdown: bool, stackId: nat, lock: nat, special: bool, shmLock: bool,
    path: Option<string>)

  datatype Region = Region(
    start: int, end: int, prot: nat, host: int, hmap: nat,
    file: Option<FileId>, fileOff: int, attr: Attr)

  // ------------------------------------------------------------ the page view

  predicate Covers(r: Region, p: int) { r.start <= p < r.end }

  /** The one-page mapping `r` is at page `p`. A file offset means nothing
   without a file. */
  function Slice(r: Region, p: int): Region {
    r.(start := p, end := p + 1, host := r.host + (p - r.start),
       fileOff := if r.file.Some? then r.fileOff + (p - r.start) else 0)
  }

  /** What the address space has at page `p`. */
  function At(rs: seq<Region>, p: int): Option<Region> {
    if rs == [] then None
    else if Covers(rs[0], p) then Some(Slice(rs[0], p))
    else At(rs[1..], p)
  }

  predicate Overlaps(r: Region, lo: int, hi: int) { lo < r.end && r.start < hi }

  // ------------------------------------------------------------ invariant

  /** Nonempty, sorted and disjoint. */
  predicate Sorted(rs: seq<Region>) {
    && (forall i :: 0 <= i < |rs| ==> rs[i].start < rs[i].end)
    && (forall i, j :: 0 <= i < j < |rs| ==> rs[i].end <= rs[j].start)
  }

  function RefCount(rs: seq<Region>, id: nat): nat {
    if rs == [] then 0 else (if rs[0].hmap == id then 1 else 0) + RefCount(rs[1..], id)
  }

  // ------------------------------------------------------------ operations on values

  /** region_insert: before the first region that does not start below `r`. */
  function Insert(rs: seq<Region>, r: Region): seq<Region> {
    if rs == [] || rs[0].start >= r.start then [r] + rs
    else [rs[0]] + Insert(rs[1..], r)
  }

  function Delete(rs: seq<Region>, i: nat): seq<Region>
    requires i < |rs|
  {
    rs[..i] + rs[i + 1..]
  }

  function Head(r: Region, va: int): Region { r.(end := va) }

  function Tail(r: Region, va: int): Region {
    r.(start := va, host := r.host + (va - r.start), fileOff := r.fileOff + (va - r.start))
  }

  /** region_mergeable: `b` directly after `a`, of the same allocation and the
   same in everything that shows. */
  predicate Mergeable(a: Region, b: Region) {
    && a.end == b.start && a.hmap == b.hmap && a.host + (a.end - a.start) == b.host
    && a.prot == b.prot && a.attr == b.attr && a.file.Some? == b.file.Some?
    && (a.file.Some? ==> a.fileOff + (a.end - a.start) == b.fileOff && a.file == b.file)
  }

  /** Two regions may become one exactly when the second's first page is what the
   first would have there, were it longer. */
  lemma {:induction false} MergeableMeans(a: Region, b: Region)
    ensures Mergeable(a, b) <==> a.end == b.start && Slice(a.(end := b.end), b.start) == Slice(b, b.start)
  {
  }

  // ------------------------------------------------------------ view lemmas

  lemma {:induction false} AtConcat(a: seq<Region>, b: seq<Region>, p: int)
    ensures At(a + b, p) == if At(a, p).Some? then At(a, p) else At(b, p)
  {
    if a == [] {
      assert a + b == b;
    } else {
      assert (a + b)[1..] == a[1..] + b;
      AtConcat(a[1..], b, p);
    }
  }

  lemma {:induction false} AtIndex(rs: seq<Region>, i: nat, p: int)
    requires Sorted(rs) && i < |rs| && Covers(rs[i], p)
    ensures At(rs, p) == Some(Slice(rs[i], p))
  {
    if i > 0 {
      assert !Covers(rs[0], p);
      assert rs[1..][i - 1] == rs[i];
      AtIndex(rs[1..], i - 1, p);
    }
  }

  lemma {:induction false} AtNowhere(rs: seq<Region>, p: int)
    requires forall i :: 0 <= i < |rs| ==> !Covers(rs[i], p)
    ensures At(rs, p) == None
  {
    if rs != [] {
      AtNowhere(rs[1..], p);
    }
  }

  /** Where a mapped page lives. */
  lemma {:induction false} AtWhere(rs: seq<Region>, p: int) returns (i: nat)
    requires At(rs, p).Some?
    ensures i < |rs| && Covers(rs[i], p) && At(rs, p) == Some(Slice(rs[i], p))
  {
    if Covers(rs[0], p) {
      i := 0;
    } else {
      i := AtWhere(rs[1..], p);
      i := i + 1;
    }
  }

  /** Replacing a run of regions by another with the same pages. */
  lemma {:induction false} AtReplace(a: seq<Region>, b: seq<Region>, b': seq<Region>, c: seq<Region>, p: int)
    ensures At(a + b + c, p) == if At(a, p).Some? then At(a, p)
                                else if At(b, p).Some? then At(b, p) else At(c, p)
    ensures At(b, p) == At(b', p) ==> At(a + b' + c, p) == At(a + b + c, p)
  {
    AtConcat(a + b, c, p);
    AtConcat(a, b, p);
    AtConcat(a + b', c, p);
    AtConcat(a, b', p);
  }

  lemma {:induction false} AtOne(r: Region, p: int)
    ensures At([r], p) == if Covers(r, p) then Some(Slice(r, p)) else None
  {
    assert [r][1..] == [];
  }

  lemma {:induction false} AtTwo(a: Region, b: Region, p: int)
    ensures At([a, b], p) == if Covers(a, p) then Some(Slice(a, p))
                             else if Covers(b, p) then Some(Slice(b, p)) else None
  {
    assert [a, b][1..] == [b];
    AtOne(b, p);
  }

  /** Where region_insert puts a region. */
  function Position(rs: seq<Region>, start: int): (i: nat)
    ensures i <= |rs|
    ensures forall k :: 0 <= k < i ==> rs[k].start < start
    ensures i < |rs| ==> rs[i].start >= start
  {
    if rs == [] || rs[0].start >= start then 0 else 1 + Position(rs[1..], start)
  }

  lemma {:induction false} InsertIsSplice(rs: seq<Region>, r: Region)
    ensures var i := Position(rs, r.start); Insert(rs, r) == rs[..i] + [r] + rs[i..]
  {
    if rs == [] || rs[0].start >= r.start {
    } else {
      InsertIsSplice(rs[1..], r);
      var i := Position(rs[1..], r.start);
      assert rs[..i + 1] == [rs[0]] + rs[1..][..i];
      assert rs[i + 1..] == rs[1..][i..];
    }
  }

  lemma {:induction false} InsertOrder(rs: seq<Region>, r: Region)
    requires Sorted(rs) && r.start < r.end
    requires forall i :: 0 <= i < |rs| ==> !Overlaps(rs[i], r.start, r.end)
    ensures Sorted(Insert(rs, r))
  {
    hide Insert, Position;
    InsertIsSplice(rs, r);
    var i, out := Position(rs, r.start), Insert(rs, r);
    assert forall k :: 0 <= k < |out| ==> out[k] == if k < i then rs[k] else if k == i then r else rs[k - 1];
    assert forall k :: 0 <= k < i ==> rs[k].end <= r.start;
    assert i < |rs| ==> r.end <= rs[i].start;
  }

  lemma {:induction false} InsertView(rs: seq<Region>, r: Region, p: int)
    requires forall i :: 0 <= i < |rs| ==> !Overlaps(rs[i], r.start, r.end)
    ensures At(Insert(rs, r), p) == if Covers(r, p) then Some(Slice(r, p)) else At(rs, p)
  {
    InsertIsSplice(rs, r);
    var i := Position(rs, r.start);
    assert rs == rs[..i] + rs[i..];
    AtReplace(rs[..i], [r], [], rs[i..], p);
    AtConcat(rs[..i], rs[i..], p);
    AtOne(r, p);
    if Covers(r, p) {
      AtNowhere(rs[..i], p);
    }
  }

  lemma {:induction false} InsertRefs(rs: seq<Region>, r: Region, id: nat)
    ensures RefCount(Insert(rs, r), id) == RefCount(rs, id) + if r.hmap == id then 1 else 0
  {
    InsertIsSplice(rs, r);
    var i := Position(rs, r.start);
    assert rs == rs[..i] + rs[i..];
    RefConcat(rs[..i] + [r], rs[i..], id);
    RefConcat(rs[..i], [r], id);
    RefConcat(rs[..i], rs[i..], id);
    assert [r][1..] == [];
  }

  lemma {:induction false} InsertMembers(rs: seq<Region>, r: Region)
    ensures forall x :: x in Insert(rs, r) <==> x == r || x in rs
  {
    if rs == [] || rs[0].start >= r.start {
    } else {
      InsertMembers(rs[1..], r);
    }
  }

  /** Inserting a mapping of free ground keeps the order and adds exactly it. */
  lemma {:induction false} InsertFree(rs: seq<Region>, r: Region)
    requires Sorted(rs) && r.start < r.end
    requires forall i :: 0 <= i < |rs| ==> !Overlaps(rs[i], r.start, r.end)
    ensures Sorted(Insert(rs, r))
    ensures forall p :: At(Insert(rs, r), p) == if Covers(r, p) then Some(Slice(r, p)) else At(rs, p)
    ensures forall id :: RefCount(Insert(rs, r), id) == RefCount(rs, id) + if r.hmap == id then 1 else 0
    ensures forall x :: x in Insert(rs, r) <==> x == r || x in rs
  {
    hide Insert, At, RefCount;
    InsertOrder(rs, r);
    InsertMembers(rs, r);
    forall p
      ensures At(Insert(rs, r), p) == if Covers(r, p) then Some(Slice(r, p)) else At(rs, p)
    {
      InsertView(rs, r, p);
    }
    forall id
      ensures RefCount(Insert(rs, r), id) == RefCount(rs, id) + if r.hmap == id then 1 else 0
    {
      InsertRefs(rs, r, id);
    }
  }

  lemma {:induction false} RefConcat(a: seq<Region>, b: seq<Region>, id: nat)
    ensures RefCount(a + b, id) == RefCount(a, id) + RefCount(b, id)
  {
    if a == [] {
      assert a + b == b;
    } else {
      assert (a + b)[1..] == a[1..] + b;
      RefConcat(a[1..], b, id);
    }
  }

  predicate SamePage(rs: seq<Region>, i: nat, pieces: seq<Region>, p: int)
    requires i < |rs|
  {
    if Covers(rs[i], p) then At(rs[..i], p).None? && At(pieces, p) == Some(Slice(rs[i], p))
    else At(pieces, p).None?
  }

  /** Replacing one region by pieces of it: what the page view and the counts
   become. */
  lemma {:induction false} ReplaceOne(rs: seq<Region>, i: nat, pieces: seq<Region>)
    requires i < |rs|
    ensures var out := rs[..i] + pieces + rs[i + 1..];
            && (forall p :: SamePage(rs, i, pieces, p) ==> At(out, p) == At(rs, p))
            && (forall id :: RefCount(out, id)
                             == RefCount(rs, id) - (if rs[i].hmap == id then 1 else 0) + RefCount(pieces, id))
  {
    var out := rs[..i] + pieces + rs[i + 1..];
    assert rs == rs[..i] + [rs[i]] + rs[i + 1..];
    forall p | SamePage(rs, i, pieces, p)
      ensures At(out, p) == At(rs, p)
    {
      AtOne(rs[i], p);
      AtReplace(rs[..i], [rs[i]], pieces, rs[i + 1..], p);
    }
    forall id
      ensures RefCount(out, id) == RefCount(rs, id) - (if rs[i].hmap == id then 1 else 0) + RefCount(pieces, id)
    {
      RefConcat(rs[..i] + pieces, rs[i + 1..], id);
      RefConcat(rs[..i], pieces, id);
      RefConcat(rs[..i] + [rs[i]], rs[i + 1..], id);
      RefConcat(rs[..i], [rs[i]], id);
      assert [rs[i]][1..] == [];
    }
  }

  /** Cutting [lo, hi) out of region `i` (some page of it): what is left. */
  function Pieces(r: Region, lo: int, hi: int): seq<Region>
    requires lo < hi && Overlaps(r, lo, hi)
  {
    (if r.start < lo then [Head(r, lo)] else []) + (if hi < r.end then [Tail(r, hi)] else [])
  }

  function CutOut(rs: seq<Region>, i: nat, lo: int, hi: int): seq<Region>
    requires i < |rs| && lo < hi && Overlaps(rs[i], lo, hi)
  {
    rs[..i] + Pieces(rs[i], lo, hi) + rs[i + 1..]
  }

  lemma {:induction false} PiecesView(r: Region, lo: int, hi: int, p: int)
    requires lo < hi && Overlaps(r, lo, hi) && r.start < r.end
    ensures At(Pieces(r, lo, hi), p) == if Covers(r, p) && !(lo <= p < hi) then Some(Slice(r, p)) else None
  {
    var h, t := Head(r, lo), Tail(r, hi);
    AtOne(h, p);
    AtOne(t, p);
    AtTwo(h, t, p);
    assert Pieces(r, lo, hi) == if r.start < lo && hi < r.end then [h, t]
                                else if r.start < lo then [h] else if hi < r.end then [t] else [];
  }

  lemma {:induction false} CutOutKeeps(rs: seq<Region>, i: nat, lo: int, hi: int)
    requires Sorted(rs) && i < |rs| && lo < hi && Overlaps(rs[i], lo, hi)
    ensures Sorted(CutOut(rs, i, lo, hi))
    ensures forall p :: !(lo <= p < hi) ==> At(CutOut(rs, i, lo, hi), p) == At(rs, p)
    ensures forall k :: 0 <= k < |Pieces(rs[i], lo, hi)| ==> !Overlaps(Pieces(rs[i], lo, hi)[k], lo, hi)
    ensures forall id :: RefCount(CutOut(rs, i, lo, hi), id)
                         == RefCount(rs, id) + (if rs[i].hmap == id then |Pieces(rs[i], lo, hi)| - 1 else 0)
  {
    var r := rs[i];
    var ps := Pieces(r, lo, hi);
    forall p | !(lo <= p < hi)
      ensures At(CutOut(rs, i, lo, hi), p) == At(rs, p)
    {
      PiecesView(r, lo, hi, p);
      if Covers(r, p) {
        AtNowhere(rs[..i], p);
      }
      ReplaceOne(rs, i, ps);
    }
    ReplaceOne(rs, i, ps);
    PiecesRefs(r, lo, hi);
  }

  lemma {:induction false} PiecesRefs(r: Region, lo: int, hi: int)
    requires lo < hi && Overlaps(r, lo, hi)
    ensures forall id :: RefCount(Pieces(r, lo, hi), id) == if r.hmap == id then |Pieces(r, lo, hi)| else 0
  {
    var h, t := Head(r, lo), Tail(r, hi);
    forall id
      ensures RefCount(Pieces(r, lo, hi), id) == if r.hmap == id then |Pieces(r, lo, hi)| else 0
    {
      TwoRefs(h, t, id);
      RefConcat(if r.start < lo then [h] else [], if hi < r.end then [t] else [], id);
    }
  }

  lemma {:induction false} TwoRefs(a: Region, b: Region, id: nat)
    ensures RefCount([a], id) == if a.hmap == id then 1 else 0
    ensures RefCount([b], id) == if b.hmap == id then 1 else 0
    ensures RefCount([a, b], id) == RefCount([a], id) + RefCount([b], id)
  {
    assert [a, b] == [a] + [b] && [a][1..] == [] && [b][1..] == [];
    RefConcat([a], [b], id);
  }

  // ------------------------------------------------------------ splitting and merging

  function SplitAt(rs: seq<Region>, i: nat, va: int): seq<Region>
    requires i < |rs|
  {
    rs[..i] + [Head(rs[i], va), Tail(rs[i], va)] + rs[i + 1..]
  }

  lemma {:induction false} SplitView(rs: seq<Region>, i: nat, va: int, p: int)
    requires Sorted(rs) && i < |rs| && rs[i].start < va < rs[i].end
    ensures At(SplitAt(rs, i, va), p) == At(rs, p)
  {
    var h, t := Head(rs[i], va), Tail(rs[i], va);
    AtTwo(h, t, p);
    if Covers(rs[i], p) {
      AtNowhere(rs[..i], p);
    }
    ReplaceOne(rs, i, [h, t]);
    assert SamePage(rs, i, [h, t], p);
  }

  lemma {:induction false} SplitRefs(rs: seq<Region>, i: nat, va: int, id: nat)
    requires i < |rs|
    ensures RefCount(SplitAt(rs, i, va), id) == RefCount(rs, id) + if rs[i].hmap == id then 1 else 0
  {
    var h, t := Head(rs[i], va), Tail(rs[i], va);
    TwoRefs(h, t, id);
    ReplaceOne(rs, i, [h, t]);
  }

  lemma {:induction false} SplitIsInsert(rs: seq<Region>, i: nat, va: int)
    requires Sorted(rs) && i < |rs| && rs[i].start < va < rs[i].end
    ensures SplitAt(rs, i, va) == Insert(rs[i := Head(rs[i], va)], Tail(rs[i], va))
  {
    var h, t := Head(rs[i], va), Tail(rs[i], va);
    var mid := rs[i := h];
    InsertIsSplice(mid, t);
    var k := Position(mid, t.start);
    assert forall j :: 0 <= j <= i ==> mid[j].start <= mid[i].start < va;
    assert i + 1 < |mid| ==> mid[i + 1].start >= va;
    assert k == i + 1;
    assert mid[..i + 1] == rs[..i] + [h];
    assert mid[i + 1..] == rs[i + 1..];
  }

  lemma {:induction false} SplitOrder(rs: seq<Region>, i: nat, va: int)
    requires Sorted(rs) && i < |rs| && rs[i].start < va < rs[i].end
    ensures Sorted(SplitAt(rs, i, va))
  {
    var out := SplitAt(rs, i, va);
    forall k | 0 <= k < |out|
      ensures out[k] == if k < i then rs[k] else if k == i then Head(rs[i], va)
                        else if k == i + 1 then Tail(rs[i], va) else rs[k - 1]
    {
    }
  }

  /** A split changes the list and one count, and no page. */
  lemma {:induction false} SplitKeepsView(rs: seq<Region>, i: nat, va: int)
    requires Sorted(rs) && i < |rs| && rs[i].start < va < rs[i].end
    ensures Sorted(SplitAt(rs, i, va))
    ensures forall p :: At(SplitAt(rs, i, va), p) == At(rs, p)
    ensures forall id :: RefCount(SplitAt(rs, i, va), id) == RefCount(rs, id) + if rs[i].hmap == id then 1 else 0
    ensures SplitAt(rs, i, va) == Insert(rs[i := Head(rs[i], va)], Tail(rs[i], va))
  {
    hide Insert, At, RefCount;
    SplitIsInsert(rs, i, va);
    SplitOrder(rs, i, va);
    hide Sorted;
    forall p ensures At(SplitAt(rs, i, va), p) == At(rs, p) { SplitView(rs, i, va, p); }
    forall id
      ensures RefCount(SplitAt(rs, i, va), id) == RefCount(rs, id) + if rs[i].hmap == id then 1 else 0
    {
      SplitRefs(rs, i, va, id);
    }
  }

  function MergeAt(rs: seq<Region>, i: nat): seq<Region>
    requires i + 1 < |rs|
  {
    rs[..i] + [rs[i].(end := rs[i + 1].end)] + rs[i + 2..]
  }

  lemma {:induction false} MergeView(rs: seq<Region>, i: nat, p: int)
    requires Sorted(rs) && i + 1 < |rs| && Mergeable(rs[i], rs[i + 1])
    ensures At(MergeAt(rs, i), p) == At(rs, p)
  {
    var a, b := rs[i], rs[i + 1];
    var m := a.(end := b.end);
    assert rs == rs[..i] + [a, b] + rs[i + 2..];
    AtTwo(a, b, p);
    AtOne(m, p);
    AtReplace(rs[..i], [a, b], [m], rs[i + 2..], p);
  }

  lemma {:induction false} MergeRefs(rs: seq<Region>, i: nat, id: nat)
    requires i + 1 < |rs| && rs[i].hmap == rs[i + 1].hmap
    ensures RefCount(MergeAt(rs, i), id) == RefCount(rs, id) - if rs[i].hmap == id then 1 else 0
  {
    var a, b := rs[i], rs[i + 1];
    var m := a.(end := b.end);
    assert rs == rs[..i] + [a, b] + rs[i + 2..];
    RefConcat(rs[..i] + [m], rs[i + 2..], id);
    RefConcat(rs[..i], [m], id);
    RefConcat(rs[..i] + [a, b], rs[i + 2..], id);
    RefConcat(rs[..i], [a, b], id);
    TwoRefs(a, b, id);
    TwoRefs(m, b, id);
  }

  /** A merge changes the list and one count, and no page. */
  lemma {:induction false} MergeKeepsView(rs: seq<Region>, i: nat)
    requires Sorted(rs) && i + 1 < |rs| && Mergeable(rs[i], rs[i + 1])
    ensures Sorted(MergeAt(rs, i))
    ensures forall p :: At(MergeAt(rs, i), p) == At(rs, p)
    ensures forall id :: RefCount(MergeAt(rs, i), id) == RefCount(rs, id) - if rs[i].hmap == id then 1 else 0
    ensures MergeAt(rs, i) == Delete(rs[i := rs[i].(end := rs[i + 1].end)], i + 1)
  {
    hide At, RefCount;
    forall p ensures At(MergeAt(rs, i), p) == At(rs, p) { MergeView(rs, i, p); }
    forall id
      ensures RefCount(MergeAt(rs, i), id) == RefCount(rs, id) - if rs[i].hmap == id then 1 else 0
    {
      MergeRefs(rs, i, id);
    }
  }

  /** Splitting at an address and merging there again gives back the list. */
  lemma {:induction false} SplitThenMerge(rs: seq<Region>, i: nat, va: int)
    requires Sorted(rs) && i < |rs| && rs[i].start < va < rs[i].end
    ensures Mergeable(Head(rs[i], va), Tail(rs[i], va))
    ensures MergeAt(SplitAt(rs, i, va), i) == rs
  {
    var out := SplitAt(rs, i, va);
    assert out[i] == Head(rs[i], va) && out[i + 1] == Tail(rs[i], va);
    assert out[..i] == rs[..i] && out[i + 2..] == rs[i + 1..];
    assert out[i].(end := out[i + 1].end) == rs[i];
    assert rs == rs[..i] + [rs[i]] + rs[i + 1..];
  }
}
