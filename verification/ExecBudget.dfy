/**
 What execve lets a new image's arguments take, and where load_elf then puts
 them. Sizes and addresses are in bytes; a limit is a 64-bit number, None for
 none.
 */
module ExecBudget {
  import opened Options

  const U64: nat := 0x1_0000_0000_0000_0000
  const PAGE: nat := 4096
  const STACK_TOP: nat := 0x7f_ffff_f000
  const STK_LIM: nat := 0x80_0000
  const STACK_EXPAND: nat := 0x2_0000
  const STACK_FIXED: nat := 1024
  const ARG_MAX: nat := 131072
  const AUXV: nat := 20 * 16

  /** PG_UP, which wraps. */
  function PageUp(x: nat): nat
    requires x < U64
  {
    (x + PAGE - 1) % U64 / PAGE * PAGE
  }

  function PageDown(x: nat): nat { x / PAGE * PAGE }

  predicate LimitOk(stk: Option<nat>) { stk.Some? ==> stk.value < U64 - 1 }

  /** exec_arg_budget */
  function Budget(stk: Option<nat>): nat {
    var most := STK_LIM / 4 * 3;
    var limit := if stk.Some? && stk.value / 4 < most then stk.value / 4 else most;
    if limit < ARG_MAX then ARG_MAX else limit
  }

  function PointerTable(argc: nat, envc: nat): nat { ((if argc > 1 then argc else 1) + envc) * 8 }

  /** exec_arg_room: the bytes of string a list may carry. */
  function Room(stk: Option<nat>, argc: nat, envc: nat): Option<nat>
    requires LimitOk(stk)
  {
    var limit, table := Budget(stk), PointerTable(argc, envc);
    if limit <= table then None
    else
      var most := if stk.Some? then PageUp(stk.value) else U64 - 1;
      var fit := if most > table + STACK_FIXED then most - table - STACK_FIXED else 0;
      Some(if limit - table < fit then limit - table else fit)
  }

  /** Strings end to end, each with its terminator. */
  function Flat(ss: seq<string>): string {
    if ss == [] then "" else Flat(ss[..|ss| - 1]) + ss[|ss| - 1] + ['\0']
  }

  lemma {:induction false} FlatStep(ss: seq<string>, i: nat)
    requires i < |ss|
    ensures Flat(ss[..i + 1]) == Flat(ss[..i]) + ss[i] + ['\0']
  {
    assert ss[..i + 1][..i] == ss[..i];
  }

  /** What exec_arg_limit measures. */
  function Strings(execfn: string, argv: seq<string>, envp: seq<string>): string {
    Flat(argv) + Flat(envp) + execfn + ['\0']
  }

  predicate Accepts(stk: Option<nat>, execfn: string, argv: seq<string>, envp: seq<string>)
    requires LimitOk(stk)
  {
    var room := Room(stk, |argv|, |envp|);
    room.Some? && |Strings(execfn, argv, envp)| <= room.value
  }

  method Total(ss: seq<string>) returns (bytes: nat)
    ensures bytes == |Flat(ss)|
  {
    bytes := 0;
    for i := 0 to |ss|
      invariant bytes == |Flat(ss[..i])|
    {
      FlatStep(ss, i);
      bytes := bytes + (|ss[i]| + 1);
    }
    assert ss[..|ss|] == ss;
  }

  /** exec_arg_limit */
  method ArgLimit(stk: Option<nat>, execfn: string, argv: seq<string>, envp: seq<string>) returns (ok: bool)
    requires LimitOk(stk)
    ensures ok == Accepts(stk, execfn, argv, envp)
  {
    var bytes := |execfn| + 1;
    var a := Total(argv);
    var e := Total(envp);
    bytes := bytes + a + e;
    var room := Room(stk, |argv|, |envp|);
    ok := room.Some? && bytes <= room.value;
  }

  /** Accepted arguments and their pointers stay within the budget, and leave the
   fixed part of the stack its place below the limit. */
  lemma {:induction false} AcceptedFits(stk: Option<nat>, execfn: string, argv: seq<string>, envp: seq<string>)
    requires LimitOk(stk) && Accepts(stk, execfn, argv, envp)
    ensures var bytes, table := |Strings(execfn, argv, envp)|, PointerTable(|argv|, |envp|);
            && bytes + table <= Budget(stk) <= STK_LIM / 4 * 3
            && (stk.Some? ==> stk.value + PAGE - 1 < U64 && bytes + table + STACK_FIXED <= PageUp(stk.value))
  {
  }

  function StringBytes(ss: seq<string>): nat { if ss == [] then 0 else |ss[0]| + 1 + StringBytes(ss[1..]) }

  /** What an image's arguments take: its strings with their terminators, and eight
   bytes for each pointer, argv[0]'s whether or not there is one. */
  function Taken(execfn: string, argv: seq<string>, envp: seq<string>): nat {
    StringBytes([execfn]) + StringBytes(argv) + StringBytes(envp) + 8 * |envp| + if argv == [] then 8 else 8 * |argv|
  }

  lemma {:induction false} FlatBytes(ss: seq<string>)
    ensures |Flat(ss)| == StringBytes(ss)
  {
    if ss != [] {
      FlatBytes(ss[1..]);
      FlatFront(ss);
    }
  }

  lemma {:induction false} FlatFront(ss: seq<string>)
    requires ss != []
    ensures Flat(ss) == ss[0] + ['\0'] + Flat(ss[1..])
  {
    var front := ss[..|ss| - 1];
    if |ss| > 1 {
      FlatFront(front);
      assert front[1..] == ss[1..][..|ss| - 2];
    }
  }

  /** An exec is accepted exactly when its arguments take at most 128 KB, or at most a
   quarter of the stack limit and 6 MB; and, if there is a limit, they and 1 KB more
   fit the whole pages of it, counted without wrapping. */
  lemma {:induction false} AcceptsExactly(stk: Option<nat>, execfn: string, argv: seq<string>, envp: seq<string>)
    requires LimitOk(stk)
    ensures var n := Taken(execfn, argv, envp);
            Accepts(stk, execfn, argv, envp) <==>
              && (n <= 131072 || (n <= 6291456 && (stk.Some? ==> n <= stk.value / 4)))
              && (stk.Some? ==> stk.value + 4095 < 0x1_0000_0000_0000_0000 && n + 1024 <= (stk.value + 4095) / 4096 * 4096)
  {
    FlatBytes(argv);
    FlatBytes(envp);
    assert StringBytes([execfn]) == |execfn| + 1;
    var bytes, table := |Strings(execfn, argv, envp)|, PointerTable(|argv|, |envp|);
    assert Taken(execfn, argv, envp) == bytes + table && bytes > 0;
    hide Flat, StringBytes, Strings, Taken, PointerTable, PageUp;
    RoundsUp(stk);
    assert Budget(stk) == if stk.None? || stk.value / 4 >= 6291456 then 6291456
                          else if stk.value / 4 >= 131072 then stk.value / 4 else 131072;
  }

  lemma {:induction false} RoundsUp(stk: Option<nat>)
    requires LimitOk(stk)
    ensures stk.Some? ==> PageUp(stk.value) == if stk.value + 4095 < U64 then (stk.value + 4095) / 4096 * 4096 else 0
  {
  }

  /** A limit whose page round-up wraps refuses every image. */
  lemma {:induction false} WrappedLimitRefuses(stk: nat, execfn: string, argv: seq<string>, envp: seq<string>)
    requires stk < U64 - 1 && stk + PAGE - 1 >= U64
    ensures !Accepts(Some(stk), execfn, argv, envp)
  {
  }

  // ------------------------------------------------------------ the layout

  /** Where things are: the block of strings from `argStart` up, the pointers to
   them, the mapping's size and the stack pointer of the new image. */
  datatype Layout = Layout(
    argStart: nat, block: string, argvp: seq<nat>, envpp: seq<nat>, envStart: nat, execfn: nat, size: nat, vectors: nat, sp: nat)

  /** stack_push moves the pointer so. */
  function Pushed(sp: nat, len: nat): nat
    requires len <= sp
  {
    (sp - len) / 8 * 8
  }

  /** The pointers to strings laid end to end from `base`. */
  predicate Points(ps: seq<nat>, base: nat, ss: seq<string>) {
    |ps| == |ss| && forall i :: 0 <= i < |ss| ==> ps[i] == base + |Flat(ss[..i])|
  }

  method Place(base: nat, block0: string, ss: seq<string>) returns (ps: seq<nat>, block: string, next: nat)
    ensures Points(ps, base, ss) && block == block0 + Flat(ss) && next == base + |Flat(ss)|
  {
    ps, block, next := [], block0, base;
    for i := 0 to |ss|
      invariant |ps| == i && block == block0 + Flat(ss[..i]) && next == base + |Flat(ss[..i])|
      invariant forall k :: 0 <= k < i ==> ps[k] == base + |Flat(ss[..k])|
    {
      FlatStep(ss, i);
      ps := ps + [next];
      block := block + ss[i] + ['\0'];
      next := next + (|ss[i]| + 1);
    }
    assert ss[..|ss|] == ss;
  }

  /** load_elf, from the argument count to the initial stack pointer. */
  method Lay(stk: Option<nat>, execfn: string, argv: seq<string>, envp: seq<string>) returns (l: Layout)
    requires LimitOk(stk) && Accepts(stk, execfn, argv, envp)
    ensures l.block == Strings(execfn, argv, envp) && l.argStart + |l.block| == STACK_TOP
    ensures Points(l.argvp, l.argStart, argv) && Points(l.envpp, l.envStart, envp)
    ensures l.envStart == l.argStart + |Flat(argv)| && l.execfn == l.envStart + |Flat(envp)|
    ensures l.block[l.execfn - l.argStart..] == execfn + ['\0']
    ensures |l.block| <= l.size <= STACK_TOP && l.size % PAGE == 0 && l.size < |l.block| + PAGE + 131072
    ensures l.size < |l.block| + 131072 ==> stk.Some? && (stk.value < l.size + PAGE || l.size < |l.block| + PAGE)
    ensures stk.Some? && l.size > stk.value ==> l.size < |l.block| + PAGE
    ensures l.vectors == 8 * (3 + |argv| + |envp|) + AUXV
    ensures l.sp % 16 == 0 && l.sp + l.vectors + 24 <= l.argStart
    ensures stk.Some? ==> STACK_TOP - l.sp <= PageUp(stk.value)
  {
    AcceptedFits(stk, execfn, argv, envp);
    var strtab := |execfn| + 1;
    var a := Total(argv);
    var e := Total(envp);
    strtab := strtab + a + e;
    var size := StackSize(stk, strtab);
    var sp := STACK_TOP - strtab;
    var argStart := sp;
    var argvp, block, envStart := Place(sp, "", argv);
    var envpp, execfnVa;
    envpp, block, execfnVa := Place(envStart, block, envp);
    block := block + execfn + ['\0'];
    assert block == Strings(execfn, argv, envp);
    var vectors := 8 * (1 + |argv| + 1 + |envp| + 1) + AUXV;
    sp := Lower(sp, vectors);
    l := Layout(argStart, block, argvp, envpp, envStart, execfnVa, size, vectors, sp);
  }

  /** The argument pages and 128 KB below them, or the limit if that is less. */
  method StackSize(stk: Option<nat>, strtab: nat) returns (size: nat)
    requires strtab <= STK_LIM
    ensures strtab <= size < strtab + PAGE + 131072 && size % PAGE == 0
    ensures size < strtab + 131072 ==> stk.Some? && (stk.value < size + PAGE || size < strtab + PAGE)
    ensures stk.Some? && size > stk.value ==> size < strtab + PAGE
  {
    var args := PageUp(strtab);
    PageUpBounds(strtab);
    size := args + STACK_EXPAND;
    if stk.Some? && PageDown(stk.value) < size { size := PageDown(stk.value); }
    if size < args { size := args; }
  }

  lemma {:induction false} PageUpBounds(n: nat)
    requires n <= STK_LIM
    ensures n <= PageUp(n) < n + PAGE && PageUp(n) % PAGE == 0
  {
  }

  /** The blocks of AT_RANDOM and the platform, the alignment and the vectors. */
  method Lower(top: nat, vectors: nat) returns (sp: nat)
    requires vectors % 8 == 0 && top >= vectors + 4096
    ensures sp % 16 == 0 && sp + vectors + 24 <= top <= sp + vectors + 47
  {
    hide Pushed;
    PushedIs(top, 16);
    sp := Pushed(top, 16);
    PushedIs(sp, 8);
    sp := Pushed(sp, 8);
    Align16(sp);
    sp := sp / 16 * 16;
    if vectors % 16 != 0 { sp := sp - (16 - vectors % 16); }
    sp := sp - vectors;
  }

  lemma {:induction false} PushedIs(sp: nat, len: nat)
    requires len <= sp
    ensures sp - len - 7 <= Pushed(sp, len) <= sp - len && Pushed(sp, len) % 8 == 0
    ensures sp % 8 == 0 && len == 8 ==> Pushed(sp, len) == sp - 8
  {
  }

  lemma {:induction false} Align16(x: nat)
    requires x % 8 == 0
    ensures x - 8 <= x / 16 * 16 <= x && x / 16 * 16 % 16 == 0
  {
  }

  /** Every pointer of the layout is to its own string. */
  lemma {:induction false} PointerFinds(ss: seq<string>, i: nat, before: string, after: string)
    requires i < |ss|
    ensures var block, at := before + Flat(ss) + after, |before| + |Flat(ss[..i])|;
            at + |ss[i]| + 1 <= |block| && block[at..at + |ss[i]| + 1] == ss[i] + ['\0']
  {
    FlatPrefix(ss, i + 1);
    FlatStep(ss, i);
    var block, head := before + Flat(ss) + after, before + Flat(ss[..i]);
    assert block[..|head|] == head;
    assert block[|head|..|head| + |ss[i]| + 1] == Flat(ss)[|Flat(ss[..i])|..|Flat(ss[..i + 1])|];
    assert Flat(ss)[..|Flat(ss[..i + 1])|] == Flat(ss[..i + 1]);
    assert Flat(ss)[|Flat(ss[..i])|..|Flat(ss[..i + 1])|] == Flat(ss[..i + 1])[|Flat(ss[..i])|..];
  }

  lemma {:induction false} FlatPrefix(ss: seq<string>, k: nat)
    requires k <= |ss|
    ensures |Flat(ss[..k])| <= |Flat(ss)| && Flat(ss)[..|Flat(ss[..k])|] == Flat(ss[..k])
    decreases |ss| - k
  {
    if k < |ss| {
      FlatPrefix(ss, k + 1);
      FlatStep(ss, k);
      assert Flat(ss)[..|Flat(ss[..k])|] == Flat(ss[..k + 1])[..|Flat(ss[..k])|];
    } else {
      assert ss[..k] == ss;
    }
  }
}
