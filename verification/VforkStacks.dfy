/**
 The stacks of a vfork child, which are its parent's: where each began is noted
 when the tracking does, and one the child has grown since goes to the parent.
 */
module VforkStacks {
  import opened Options
  import opened RegionList
  import opened StackGrowth

  function VmaBase(rs: seq<Region>, i: nat): int
    requires i < |rs|
  {
    if i > 0 && SameVma(rs[i - 1], rs[i]) then VmaBase(rs, i - 1) else rs[i].start
  }

  /** as_vma_start */
  method VmaStart(rs: seq<Region>, i: nat) returns (start: int)
    requires i < |rs|
    ensures start == VmaBase(rs, i)
  {
    var k := i;
    while k > 0 && SameVma(rs[k - 1], rs[k])
      invariant 0 <= k <= i && VmaBase(rs, k) == VmaBase(rs, i)
    {
      k := k - 1;
    }
    start := rs[k].start;
  }

  /** The page belongs to the mapping `r` is a piece of. */
  predicate OfStack(rs: seq<Region>, q: int, r: Region) { At(rs, q).Some? && SameStack(At(rs, q).value, r) }

  /** From VmaBase to the region's end there is one mapping without a hole, and it
   goes no further down. */
  lemma {:induction false} BaseIsOneMapping(rs: seq<Region>, i: nat)
    requires Sorted(rs) && i < |rs| && rs[i].attr.stackId != 0
    ensures VmaBase(rs, i) <= rs[i].start
    ensures forall q :: VmaBase(rs, i) <= q < rs[i].end ==> OfStack(rs, q, rs[i])
    ensures !OfStack(rs, VmaBase(rs, i) - 1, rs[i])
  {
    hide At;
    forall q | Covers(rs[i], q) ensures At(rs, q) == Some(Slice(rs[i], q)) { AtIndex(rs, i, q); }
    if i > 0 && SameVma(rs[i - 1], rs[i]) {
      BaseIsOneMapping(rs, i - 1);
      assert forall q :: OfStack(rs, q, rs[i]) == OfStack(rs, q, rs[i - 1]);
    } else if At(rs, rs[i].start - 1).Some? {
      var k := AtWhere(rs, rs[i].start - 1);
      assert k == i - 1;
    }
  }

  /** The lowest page of a growing mapping: below it is something else. */
  ghost predicate Bottom(rs: seq<Region>, p: int) {
    && At(rs, p).Some? && At(rs, p).value.attr.growsdown
    && !OfStack(rs, p - 1, At(rs, p).value)
  }

  /** A growing mapping has an id: guest_map_stack, which makes it, gives it one. */
  predicate Named(rs: seq<Region>) { forall i :: 0 <= i < |rs| && rs[i].attr.growsdown ==> rs[i].attr.stackId != 0 }

  lemma {:induction false} BottomIs(rs: seq<Region>, p: int)
    requires Sorted(rs) && Named(rs)
    ensures Bottom(rs, p) <==> exists i :: 0 <= i < |rs| && rs[i].attr.growsdown && rs[i].start == p == VmaBase(rs, i)
  {
    hide At;
    if Bottom(rs, p) {
      var i := AtWhere(rs, p);
      BaseIsOneMapping(rs, i);
      assert OfStack(rs, p - 1, At(rs, p).value) == OfStack(rs, p - 1, rs[i]);
      assert rs[i].start == p == VmaBase(rs, i);
    }
    if i :| 0 <= i < |rs| && rs[i].attr.growsdown && rs[i].start == p == VmaBase(rs, i) {
      BaseIsOneMapping(rs, i);
      AtIndex(rs, i, p);
    }
  }

  /** The first loop of as_vfork_track_begin: the bottom of every stack. */
  method NoteStacks(rs: seq<Region>) returns (out: seq<int>)
    requires Sorted(rs) && Named(rs)
    ensures forall p :: p in out <==> Bottom(rs, p)
  {
    out := [];
    for i := 0 to |rs|
      invariant forall p :: p in out <==> exists k :: 0 <= k < i && rs[k].attr.growsdown && rs[k].start == p == VmaBase(rs, k)
    {
      BaseBelow(rs, i);
      if rs[i].attr.growsdown && (i == 0 || !SameVma(rs[i - 1], rs[i])) {
        out := out + [rs[i].start];
      }
    }
    forall p ensures p in out <==> Bottom(rs, p) { BottomIs(rs, p); }
  }

  /** A piece that goes on from the one below it is not its mapping's bottom. */
  lemma {:induction false} BaseBelow(rs: seq<Region>, i: nat)
    requires Sorted(rs) && i < |rs|
    ensures VmaBase(rs, i) <= rs[i].start && (i > 0 && SameVma(rs[i - 1], rs[i]) ==> VmaBase(rs, i) < rs[i].start)
  {
    if i > 0 && SameVma(rs[i - 1], rs[i]) { BaseBelow(rs, i - 1); }
  }

  /** The stack that began at `was` has grown: it goes on below, down to `start`. */
  ghost predicate GrewTo(rs: seq<Region>, was: int, start: int) {
    && start < was && At(rs, was).Some? && At(rs, was).value.attr.growsdown
    && (forall q :: start <= q < was ==> OfStack(rs, q, At(rs, was).value))
    && !OfStack(rs, start - 1, At(rs, was).value)
  }

  lemma {:induction false} GrewIs(rs: seq<Region>, i: nat, was: int)
    requires Sorted(rs) && Named(rs) && i < |rs| && Covers(rs[i], was)
    ensures forall start :: GrewTo(rs, was, start) <==> rs[i].attr.growsdown && start == VmaBase(rs, i) < was
  {
    hide At;
    AtIndex(rs, i, was);
    if rs[i].attr.growsdown {
      BaseIsOneMapping(rs, i);
      assert forall q :: OfStack(rs, q, At(rs, was).value) == OfStack(rs, q, rs[i]);
      var base := VmaBase(rs, i);
      forall start ensures GrewTo(rs, was, start) <==> start == base < was {
        assert start < base ==> start <= base - 1 < was;
        assert base < start < was ==> base <= start - 1 < rs[i].end;
      }
    }
  }

  lemma {:induction false} NotGrown(rs: seq<Region>, was: int)
    requires forall i :: 0 <= i < |rs| ==> !Covers(rs[i], was)
    ensures forall start :: !GrewTo(rs, was, start)
  {
    if At(rs, was).Some? { var i := AtWhere(rs, was); assert false; }
  }

  /** The first loop of as_vfork_flush: every stack grown since, with its new
   bottom, until the receiver refuses one. */
  method GrownStacks(rs: seq<Region>, stacks: seq<int>, cap: nat) returns (out: seq<(int, int)>, ok: bool)
    requires Sorted(rs) && Named(rs)
    ensures |out| <= cap && (!ok ==> |out| == cap)
    ensures forall g :: g in out ==> g.0 in stacks && GrewTo(rs, g.0, g.1)
    ensures ok ==> forall was, start :: was in stacks && GrewTo(rs, was, start) ==> (was, start) in out
  {
    out, ok := [], true;
    var k := 0;
    while k < |stacks| && ok
      invariant 0 <= k <= |stacks| && |out| <= cap && (!ok ==> |out| == cap)
      invariant forall g :: g in out ==> g.0 in stacks && GrewTo(rs, g.0, g.1)
      invariant ok ==> forall was, start :: was in stacks[..k] && GrewTo(rs, was, start) ==> (was, start) in out
    {
      hide GrewTo;
      var g, start := Lowest(rs, stacks[k]);
      if g {
        if |out| == cap { ok := false; } else { out := out + [(stacks[k], start)]; }
      }
      assert stacks[..k + 1] == stacks[..k] + [stacks[k]];
      k := k + 1;
    }
    assert ok ==> stacks[..k] == stacks;
  }

  /** The region a stack's start is in, and where its mapping begins now. */
  method Lowest(rs: seq<Region>, was: int) returns (grew: bool, start: int)
    requires Sorted(rs) && Named(rs)
    ensures forall s :: GrewTo(rs, was, s) <==> grew && s == start
  {
    hide GrewTo, At;
    grew, start := false, 0;
    var i := 0;
    while i < |rs| && rs[i].start <= was
      invariant 0 <= i <= |rs| && !grew && forall k :: 0 <= k < i ==> !Covers(rs[k], was)
    {
      if was < rs[i].end {
        var base := VmaStart(rs, i);
        GrewIs(rs, i, was);
        return rs[i].attr.growsdown && base < was, base;
      }
      i := i + 1;
    }
    assert forall k :: i <= k < |rs| ==> rs[i].start <= rs[k].start;
    NotGrown(rs, was);
  }
}
