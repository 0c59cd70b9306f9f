/**
 The pre-decoder: an instruction word becomes an operation with its operands
 extracted, and the operation's handler does what the architecture says of the
 word. The cache in front of it is validated by the word alone.
 */
module Predecode {
  import opened Options
  import opened Bits
  import opened ArmRef
  import opened ArmIsa
  import opened PredecodeOps

  /** The operations, with the register width in place of a second name. */
  datatype Op =
    | GENERIC
    | ADR | ADRP
    | ADDI(sf: bool) | SUBI(sf: bool) | ADDSI(sf: bool) | SUBSI(sf: bool)
    | LOGI(k: Logic, sf: bool)
    | MOVI | MOVK(sf: bool)
    | LSLI(sf: bool) | LSRI(sf: bool) | ASRI(sf: bool) | UBFX(sf: bool) | UBFIZ(sf: bool) | SBFX(sf: bool)
    | EXTR(sf: bool)
    | LOG(k: Logic, inv: bool, sf: bool) | LOGS(k: Logic, sf: bool)
    | ADDR(sub: bool, s: bool, sf: bool) | ADDRS(sub: bool, s: bool, sf: bool) | ADDX(sub: bool, s: bool, sf: bool)

  /** PDEnt */
  datatype Ent = Ent(insn: Insn, op: Op, rd: nat, rn: nat, rm: nat, imm: U64)

  predicate EntOk(e: Ent) { e.rd < 32 && e.rn < 32 && e.rm < 64 }

  // ------------------------------------------------------------ handlers

  /** A number packed into an immediate. */
  function N(e: Ent): nat { UInt(e.imm) }

  function ShiftNo(n: nat): ShiftType { match n % 4 case 0 => LSL case 1 => LSR case 2 => ASR case _ => ROR }

  function LogResult(c: Cpu, d: nat, k: Logic, r: U64, sf: bool): Cpu
    requires CpuOk(c) && d < 32
  {
    var v := Cast(r, sf);
    SetX(if k == ANDS then c.(fl := LogicalFlags(v[..Width(sf)])) else c, d, v)
  }

  function HandleAdr(e: Ent, c: Cpu): Cpu
    requires CpuOk(c) && EntOk(e)
  {
    if e.op == ADR then SetX(c, e.rd, Num(UInt(c.pc) + N(e)))
    else SetX(c, e.rd, Num(UInt(And(c.pc, Not(Ones(12, 64)))) + N(e)))
  }

  /** The SUBS immediate is stored inverted. */
  function HandleAddImm(e: Ent, c: Cpu, sub: bool, s: bool, sf: bool): Cpu
    requires CpuOk(c) && EntOk(e)
  {
    var x := Xsp(c, e.rn, 64);
    if s then var r := Awc(x, e.imm, sub, sf); SetX(c.(fl := r.1), e.rd, Cast(r.0, sf))
    else SetXsp(c, e.rd, Cast(Num(if sub then UInt(x) - N(e) else UInt(x) + N(e)), sf))
  }

  function HandleLogImm(e: Ent, c: Cpu, k: Logic, sf: bool): Cpu
    requires CpuOk(c) && EntOk(e)
  {
    var r := Combine(k, X(c, e.rn, 64), e.imm);
    if k == ANDS then LogResult(c, e.rd, k, r, sf) else SetXsp(c, e.rd, Cast(r, sf))
  }

  function HandleMove(e: Ent, c: Cpu): Cpu
    requires CpuOk(c) && EntOk(e)
  {
    if e.op.MOVK? then SetX(c, e.rd, Cast(Or(And(X(c, e.rd, 64), Not(Shl(Ones(16, 64), e.rm))), e.imm), e.op.sf))
    else SetX(c, e.rd, e.imm)
  }

  function LslOf(x: U64, n: nat, sf: bool): U64 { Cast(Shl(x, n), sf) }

  function LsrOf(x: U64, n: nat, sf: bool): U64 { if sf then Shr(x, n) else Zext(Shr(x[..32], n), 64) }

  function AsrOf(x: U64, n: nat, sf: bool): U64 { if sf then Asr(x, n) else Zext(Asr(x[..32], n), 64) }

  function UbfxOf(x: U64, n: nat, mask: U64): U64 { And(Shr(x, n), mask) }

  function UbfizOf(x: U64, n: nat, mask: U64, sf: bool): U64 { Cast(Shl(And(x, mask), n), sf) }

  function SbfxOf(x: U64, l: nat, n: nat, sf: bool): U64 {
    if sf then Asr(Shl(x, l), n) else Zext(Asr(Shl(x[..32], l), n), 64)
  }

  /** The word a bitfield operation writes. */
  function FieldWord(e: Ent, x: U64): U64
    requires EntOk(e)
  {
    match e.op
    case LSLI(sf) => LslOf(x, e.rm, sf)
    case LSRI(sf) => LsrOf(x, e.rm, sf)
    case ASRI(sf) => AsrOf(x, e.rm, sf)
    case UBFX(sf) => UbfxOf(x, e.rm, e.imm)
    case UBFIZ(sf) => UbfizOf(x, e.rm, e.imm, sf)
    case SBFX(sf) => SbfxOf(x, e.rm, N(e), sf)
    case _ => x
  }

  function ExtrWord(k: nat, hi: U64, lo: U64, sf: bool): U64 {
    if sf then (if 0 < k < 64 then Or(Shl(hi, 64 - k), Shr(lo, k)) else lo)
    else Zext(if 0 < k < 32 then Or(Shl(hi[..32], 32 - k), Shr(lo[..32], k)) else lo[..32], 64)
  }

  /** An operand, as it is or inverted. */
  function Inverted(y: U64, inv: bool): U64 { if inv then Not(y) else y }

  function ShiftedArg(e: Ent, c: Cpu, sf: bool): U64
    requires CpuOk(c) && e.rm < 32
  {
    ShiftOp(X(c, e.rm, 64), ShiftNo(N(e) / 64), N(e) % 64, sf)
  }

  function HandleAddReg(e: Ent, c: Cpu, sub: bool, s: bool, sf: bool): Cpu
    requires CpuOk(c) && EntOk(e) && e.rm < 32
  {
    var x, y := X(c, e.rn, 64), X(c, e.rm, 64);
    if s then var r := Awc(x, Inverted(y, sub), sub, sf); SetX(c.(fl := r.1), e.rd, Cast(r.0, sf))
    else SetX(c, e.rd, Cast(Num(if sub then UInt(x) - UInt(y) else UInt(x) + UInt(y)), sf))
  }

  function HandleAddShifted(e: Ent, c: Cpu, sub: bool, s: bool, sf: bool): Cpu
    requires CpuOk(c) && EntOk(e) && e.rm < 32
  {
    var r := Awc(X(c, e.rn, 64), Inverted(ShiftedArg(e, c, sf), sub), sub, sf);
    SetX(if s then c.(fl := r.1) else c, e.rd, Cast(r.0, sf))
  }

  function HandleAddExt(e: Ent, c: Cpu, sub: bool, s: bool, sf: bool): Cpu
    requires CpuOk(c) && EntOk(e) && e.rm < 32
  {
    var y := ExtendOp(X(c, e.rm, 64), N(e) / 8 % 8, N(e) % 8);
    var r := Awc(Xsp(c, e.rn, 64), Inverted(y, sub), sub, sf);
    if s then SetX(c.(fl := r.1), e.rd, Cast(r.0, sf)) else SetXsp(c, e.rd, Cast(r.0, sf))
  }

  /** What the handler of an entry does: the labels of pd_run. */
  function Handle(e: Ent, c: Cpu): Cpu
    requires CpuOk(c) && EntOk(e)
  {
    match e.op
    case GENERIC => c
    case ADR => HandleAdr(e, c)
    case ADRP => HandleAdr(e, c)
    case ADDI(sf) => HandleAddImm(e, c, false, false, sf)
    case SUBI(sf) => HandleAddImm(e, c, true, false, sf)
    case ADDSI(sf) => HandleAddImm(e, c, false, true, sf)
    case SUBSI(sf) => HandleAddImm(e, c, true, true, sf)
    case LOGI(k, sf) => HandleLogImm(e, c, k, sf)
    case MOVI => HandleMove(e, c)
    case MOVK(_) => HandleMove(e, c)
    case EXTR(sf) => if e.rm < 32 then SetX(c, e.rd, ExtrWord(N(e), X(c, e.rn, 64), X(c, e.rm, 64), sf)) else c
    case LOG(k, inv, sf) =>
      if e.rm < 32 then LogResult(c, e.rd, k, Combine(k, X(c, e.rn, 64), Inverted(X(c, e.rm, 64), inv)), sf) else c
    case LOGS(k, sf) =>
      if e.rm < 32 then
        LogResult(c, e.rd, k, Combine(k, X(c, e.rn, 64), Inverted(ShiftedArg(e, c, sf), N(e) / 256 % 2 == 1)), sf)
      else c
    case ADDR(sub, s, sf) => if e.rm < 32 then HandleAddReg(e, c, sub, s, sf) else c
    case ADDRS(sub, s, sf) => if e.rm < 32 then HandleAddShifted(e, c, sub, s, sf) else c
    case ADDX(sub, s, sf) => if e.rm < 32 then HandleAddExt(e, c, sub, s, sf) else c
    case _ => SetX(c, e.rd, FieldWord(e, X(c, e.rn, 64)))
  }

  /** The label an operation dispatches to. */
  lemma {:induction false} Dispatch(e: Ent, c: Cpu)
    requires CpuOk(c) && EntOk(e)
    ensures e.op == ADR || e.op == ADRP ==> Handle(e, c) == HandleAdr(e, c)
    ensures e.op.LOGI? ==> Handle(e, c) == HandleLogImm(e, c, e.op.k, e.op.sf)
    ensures e.op.MOVI? || e.op.MOVK? ==> Handle(e, c) == HandleMove(e, c)
    ensures e.op.LSLI? || e.op.LSRI? || e.op.ASRI? || e.op.UBFX? || e.op.UBFIZ? || e.op.SBFX? ==>
              Handle(e, c) == SetX(c, e.rd, FieldWord(e, X(c, e.rn, 64)))
  {
    hide HandleAdr, HandleLogImm, HandleMove, FieldWord, SetX, X, HandleAddImm, HandleAddReg, HandleAddShifted, HandleAddExt,
      LogResult, ExtrWord, ShiftedArg, Inverted, Combine;
  }

  lemma {:induction false} DispatchReg(e: Ent, c: Cpu)
    requires CpuOk(c) && EntOk(e) && e.rm < 32
    ensures e.op.EXTR? ==> Handle(e, c) == SetX(c, e.rd, ExtrWord(N(e), X(c, e.rn, 64), X(c, e.rm, 64), e.op.sf))
    ensures e.op.LOG? ==>
              Handle(e, c) == LogResult(c, e.rd, e.op.k, Combine(e.op.k, X(c, e.rn, 64), Inverted(X(c, e.rm, 64), e.op.inv)), e.op.sf)
    ensures e.op.LOGS? ==>
              Handle(e, c) == LogResult(c, e.rd, e.op.k, Combine(e.op.k, X(c, e.rn, 64),
                                                                 Inverted(ShiftedArg(e, c, e.op.sf), N(e) / 256 % 2 == 1)), e.op.sf)
    ensures e.op.ADDR? ==> Handle(e, c) == HandleAddReg(e, c, e.op.sub, e.op.s, e.op.sf)
    ensures e.op.ADDRS? ==> Handle(e, c) == HandleAddShifted(e, c, e.op.sub, e.op.s, e.op.sf)
    ensures e.op.ADDX? ==> Handle(e, c) == HandleAddExt(e, c, e.op.sub, e.op.s, e.op.sf)
  {
    hide HandleAdr, HandleLogImm, HandleMove, FieldWord, SetX, X, HandleAddImm, HandleAddReg, HandleAddShifted, HandleAddExt,
      LogResult, ExtrWord, ShiftedArg, Inverted, Combine, N;
  }

  /** The entry does to any state what the architecture says of its word. */
  ghost predicate Means(e: Ent) {
    forall c :: CpuOk(c) && EntOk(e) ==> Exec(e.insn, c) == Some(Handle(e, c))
  }

  // ------------------------------------------------------------ words of a register's width

  lemma {:induction false} CastIs(v: U64, sf: bool)
    ensures Cast(v, sf) == Zext(v[..Width(sf)], 64) && Cast(v, sf)[..Width(sf)] == v[..Width(sf)]
    ensures Zext(Cast(v, sf), 64) == Cast(v, sf)
  {
  }

  /** Writing a cast word is writing the word of that width. */
  lemma {:induction false} SetCast(c: Cpu, d: nat, v: U64, sf: bool)
    requires CpuOk(c) && d < 32
    ensures SetX(c, d, Cast(v, sf)) == SetX(c, d, v[..Width(sf)])
    ensures SetXsp(c, d, Cast(v, sf)) == SetXsp(c, d, v[..Width(sf)])
  {
    hide Cast;
    CastIs(v, sf);
  }

  lemma {:induction false} NarrowX(c: Cpu, r: nat, w: nat)
    requires CpuOk(c) && r < 32 && WidthOk(w)
    ensures X(c, r, 64)[..w] == X(c, r, w) && Xsp(c, r, 64)[..w] == Xsp(c, r, w)
  {
  }

  // ------------------------------------------------------------ addition

  lemma {:induction false} SumIs(x: U64, y: U64, sf: bool)
    ensures Num(UInt(x) + UInt(y))[..Width(sf)] == AddWithCarry(x[..Width(sf)], y[..Width(sf)], false).0
  {
    hide UInt, FromInt, Pow2, SInt;
    var w := Width(sf);
    Powers();
    LowValue(x, w);
    LowValue(y, w);
    FromIntLow(UInt(x) + UInt(y), 64, w);
    FromIntSame(UInt(x) + UInt(y), UInt(x[..w]) + UInt(y[..w]), w);
  }

  /** The difference of two numbers, and that of what is left of them plus the width. */
  lemma {:induction false} SubtractMod(a: nat, b: nat, w: nat)
    requires w == 32 || w == 64
    ensures (a - b) % Pow2(w) == (a % Pow2(w) + (Pow2(w) - 1 - b % Pow2(w)) + 1) % Pow2(w)
  {
    Powers();
    hide Pow2;
    var n := Pow2(w);
    var d, q := a % n - b % n, a / n - b / n;
    assert a == n * (a / n) + a % n && b == n * (b / n) + b % n;
    assert n * (a / n) - n * (b / n) == n * q;
    if d >= 0 {
      ModUnique(a - b, n, q, d);
      ModUnique(d + n, n, 1, d);
    } else {
      assert n * q == n * (q - 1) + n;
      ModUnique(a - b, n, q - 1, d + n);
      ModUnique(d + n, n, 0, d + n);
    }
  }

  lemma {:induction false} DifferenceIs(x: U64, y: U64, sf: bool)
    ensures Num(UInt(x) - UInt(y))[..Width(sf)] == AddWithCarry(x[..Width(sf)], Not(y[..Width(sf)]), true).0
  {
    hide UInt, FromInt, Pow2, SInt;
    var w := Width(sf);
    Powers();
    LowValue(x, w);
    LowValue(y, w);
    NotValue(y[..w]);
    FromIntLow(UInt(x) - UInt(y), 64, w);
    SubtractMod(UInt(x), UInt(y), w);
    FromIntSame(UInt(x) - UInt(y), UInt(x[..w]) + UInt(Not(y[..w])) + 1, w);
  }

  lemma {:induction false} NotLow(y: U64, w: nat)
    requires w <= 64
    ensures Not(y)[..w] == Not(y[..w])
  {
  }

  /** The plain addition or subtraction of the handlers without flags. */
  lemma {:induction false} PlainSum(x: U64, y: U64, sub: bool, sf: bool)
    ensures Cast(Num(if sub then UInt(x) - UInt(y) else UInt(x) + UInt(y)), sf)
            == Zext(AddSub(x[..Width(sf)], y[..Width(sf)], sub).0, 64)
  {
    hide UInt, Num, Cast, AddWithCarry;
    CastIs(Num(if sub then UInt(x) - UInt(y) else UInt(x) + UInt(y)), sf);
    if sub { DifferenceIs(x, y, sf); } else { SumIs(x, y, sf); }
  }

  /** Either way an addition or subtraction is done, on registers of 64 bits. */
  lemma {:induction false} AwcSub(x: U64, y: U64, sub: bool, sf: bool)
    ensures var r, a := Awc(x, if sub then Not(y) else y, sub, sf), AddSub(x[..Width(sf)], y[..Width(sf)], sub);
            r.1 == a.1 && Cast(r.0, sf) == Zext(a.0, 64)
  {
    hide Awc, AddWithCarry;
    var z := if sub then Not(y) else y;
    AwcIsArm(x, z, sub, sf);
    NotLow(y, Width(sf));
    CastIs(Awc(x, z, sub, sf).0, sf);
    assert Zext(AddSub(x[..Width(sf)], y[..Width(sf)], sub).0, 64)[..Width(sf)] == AddSub(x[..Width(sf)], y[..Width(sf)], sub).0;
  }

  // ------------------------------------------------------------ immediates

  predicate ImmClass(insn: Insn, k: nat) { insn[28] && !insn[27] && !insn[26] && Three(insn, 23) == k }

  predicate Fields(e: Ent) { e.rd == R(e.insn, 0) && e.rn == R(e.insn, 5) }

  /** The entry before its class is known. */
  function Blank(insn: Insn): (e: Ent)
    ensures EntOk(e) && Fields(e) && e.insn == insn
  {
    Ent(insn, GENERIC, R(insn, 0), R(insn, 5), R(insn, 16), Ones(0, 64))
  }

  function PcImm(insn: Insn): U64 { Sext(Or(Shl(Zext(insn[5..24], 64), 2), Zext(insn[29..31], 64))[..21], 64) }

  lemma {:induction false} PcRelMeans(e: Ent)
    requires (ImmClass(e.insn, 0) || ImmClass(e.insn, 1)) && Fields(e) && EntOk(e)
    requires if e.insn[31] then e.op == ADRP && e.imm == Shl(PcImm(e.insn), 12) else e.op == ADR && e.imm == PcImm(e.insn)
    ensures Means(e)
  {
    hide UInt, FromInt, Exec, Handle, R, Three;
    var insn := e.insn;
    assert Or(Shl(Zext(insn[5..24], 64), 2), Zext(insn[29..31], 64))[..21] == insn[29..31] + insn[5..24];
    forall c | CpuOk(c)
      ensures Exec(insn, c) == Some(Handle(e, c))
    {
      ImmExec(insn, c);
      Dispatch(e, c);
      assert And(c.pc, Not(Ones(12, 64))) == Ones(0, 12) + c.pc[12..];
    }
  }

  function Imm12(insn: Insn): U64 {
    if insn[22] then Shl(Zext(insn[10..22], 64), 12) else Zext(insn[10..22], 64)
  }

  lemma {:induction false} Imm12Is(insn: Insn, w: nat)
    requires WidthOk(w)
    ensures Imm12(insn)[..w] == Zext(if insn[22] then Ones(0, 12) + insn[10..22] else insn[10..22], w)
  {
  }

  function AddImmOp(insn: Insn): Op {
    var sf := insn[31];
    if insn[29] then (if insn[30] then SUBSI(sf) else ADDSI(sf)) else (if insn[30] then SUBI(sf) else ADDI(sf))
  }

  predicate AddImmEnt(e: Ent) {
    && ImmClass(e.insn, 2) && Fields(e) && EntOk(e) && e.op == AddImmOp(e.insn)
    && e.imm == if e.insn[29] && e.insn[30] then Not(Imm12(e.insn)) else Imm12(e.insn)
  }

  lemma {:induction false} AddImmAt(e: Ent, c: Cpu)
    requires AddImmEnt(e) && CpuOk(c)
    ensures HandleAddImm(e, c, e.insn[30], e.insn[29], e.insn[31]) == AddSubImm(e.insn, c)
  {
    hide Imm12, UInt, Num, Cast, Awc, AddWithCarry, Three, R, SetX, SetXsp, X, Xsp, Zext, AddSub, Ones, ImmClass;
    var insn := e.insn;
    var sf, w, imm := insn[31], Width(insn[31]), Imm12(insn);
    Imm12Is(insn, w);
    var x := Xsp(c, e.rn, 64);
    NarrowX(c, e.rn, w);
    var a := AddSub(x[..w], imm[..w], insn[30]);
    if insn[29] {
      AwcSub(x, imm, insn[30], sf);
      SetWide(c.(fl := a.1), e.rd, a.0);
    } else {
      PlainSum(x, imm, insn[30], sf);
      SetWide(c, e.rd, a.0);
    }
  }

  /** Which operation of the architecture a class of words is. */
  lemma {:induction false} ImmExec(insn: Insn, c: Cpu)
    requires CpuOk(c)
    ensures ImmClass(insn, 0) || ImmClass(insn, 1) ==> Exec(insn, c) == Some(PcRel(insn, c))
    ensures ImmClass(insn, 2) ==> Exec(insn, c) == Some(AddSubImm(insn, c))
    ensures ImmClass(insn, 4) ==> Exec(insn, c) == LogicalImm(insn, c)
    ensures ImmClass(insn, 5) ==> Exec(insn, c) == MoveWide(insn, c)
    ensures ImmClass(insn, 6) ==> Exec(insn, c) == Bitfield(insn, c)
    ensures ImmClass(insn, 7) ==> Exec(insn, c) == ExtractInsn(insn, c)
  {
    hide PcRel, AddSubImm, LogicalImm, MoveWide, Bitfield, ExtractInsn, LogicalReg, AddSubExt, AddSubReg, Three;
  }

  lemma {:induction false} AddImmHandle(e: Ent, c: Cpu)
    requires CpuOk(c) && EntOk(e) && e.op == AddImmOp(e.insn)
    ensures Handle(e, c) == HandleAddImm(e, c, e.insn[30], e.insn[29], e.insn[31])
  {
    hide HandleAddImm;
  }

  lemma {:induction false} AddImmMeans(e: Ent)
    requires AddImmEnt(e)
    ensures Means(e)
  {
    hide HandleAddImm, AddSubImm, Imm12, Exec, Handle, ImmClass;
    forall c | CpuOk(c)
      ensures Exec(e.insn, c) == Some(Handle(e, c))
    {
      ImmExec(e.insn, c);
      AddImmHandle(e, c);
      AddImmAt(e, c);
    }
  }

  /** A register takes a word of any width as its zero extension. */
  lemma {:induction false} SetWide(c: Cpu, d: nat, v: Word)
    requires CpuOk(c) && d < 32 && |v| <= 64
    ensures SetX(c, d, v) == SetX(c, d, Zext(v, 64)) && SetXsp(c, d, v) == SetXsp(c, d, Zext(v, 64))
  {
    assert Zext(Zext(v, 64), 64) == Zext(v, 64);
  }

  lemma {:induction false} CombineLow(k: Logic, x: U64, y: U64, w: nat)
    requires w <= 64
    ensures Combine(k, x, y)[..w] == Combine(k, x[..w], y[..w])
  {
  }

  predicate LogImmEnt(e: Ent, m: Masks) {
    && ImmClass(e.insn, 4) && Fields(e) && EntOk(e) && e.op == LOGI(LogicOf(e.insn), e.insn[31])
    && DecodeBitMasks(e.insn[22], R6(e.insn, 10), R6(e.insn, 16), true, Width(e.insn[31])) == Some(m)
    && e.imm == Zext(m.wmask, 64)
  }

  /** A logical result, written as a word of the register's width. */
  lemma {:induction false} LogWord(c: Cpu, d: nat, k: Logic, x: U64, y: U64, sf: bool)
    requires CpuOk(c) && d < 32
    ensures var w := Width(sf); var r := Combine(k, x[..w], y[..w]);
            && LogResult(c, d, k, Combine(k, x, y), sf) == PlainResult(c, d, (r, LogicalFlags(r)), k == ANDS)
            && SetXsp(c, d, Cast(Combine(k, x, y), sf)) == SetXsp(c, d, r)
  {
    hide Cast, Combine, SetX, SetXsp;
    var w, v := Width(sf), Combine(k, x, y);
    CombineLow(k, x, y, w);
    CastIs(v, sf);
    SetCast(c, d, v, sf);
    SetCast(c.(fl := LogicalFlags(v[..w])), d, v, sf);
  }

  lemma {:induction false} LogImmAt(e: Ent, c: Cpu, m: Masks)
    requires LogImmEnt(e, m) && CpuOk(c)
    ensures LogicalImm(e.insn, c) == Some(HandleLogImm(e, c, LogicOf(e.insn), e.insn[31]))
  {
    hide DecodeBitMasks, Cast, Combine, LogicOf, R6, R, Three, SetX, SetXsp, X, LogicalFlags, LogResult, ImmClass;
    var w := Width(e.insn[31]);
    assert e.imm[..w] == m.wmask;
    NarrowX(c, e.rn, w);
    LogWord(c, e.rd, LogicOf(e.insn), X(c, e.rn, 64), e.imm, e.insn[31]);
  }

  lemma {:induction false} LogImmMeans(e: Ent, m: Masks)
    requires LogImmEnt(e, m)
    ensures Means(e)
  {
    hide HandleLogImm, LogicalImm, Exec, Handle, ImmClass, DecodeBitMasks, LogicOf, R6, R, SetX, X;
    forall c | CpuOk(c)
      ensures Exec(e.insn, c) == Some(Handle(e, c))
    {
      ImmExec(e.insn, c);
      Dispatch(e, c);
      LogImmAt(e, c, m);
    }
  }

  // ------------------------------------------------------------ moves

  function Moved(insn: Insn): U64 { Shl(Zext(insn[5..21], 64), Place16(insn)) }

  predicate MoveEnt(e: Ent) {
    && ImmClass(e.insn, 5) && Fields(e) && EntOk(e)
    && Place16(e.insn) < Width(e.insn[31]) && (e.insn[30] || !e.insn[29])
    && if e.insn[30] && e.insn[29] then e.op == MOVK(e.insn[31]) && e.rm == Place16(e.insn) && e.imm == Moved(e.insn)
       else e.op == MOVI && e.imm == Cast(if e.insn[30] then Moved(e.insn) else Not(Moved(e.insn)), e.insn[31])
  }

  lemma {:induction false} MovedIs(insn: Insn)
    requires Place16(insn) < Width(insn[31])
    ensures Place16(insn) + 16 <= Width(insn[31])
    ensures Moved(insn)[..Width(insn[31])] == Insert16(Ones(0, Width(insn[31])), Place16(insn), insn[5..21])
  {
  }

  lemma {:induction false} MoveAt(e: Ent, c: Cpu)
    requires MoveEnt(e) && CpuOk(c)
    ensures MoveWide(e.insn, c) == Some(HandleMove(e, c))
  {
    hide Cast, SetX, X, R, Three, ImmClass, Insert16, Shl, Or, And, Place16;
    var insn := e.insn;
    var sf, w, pos := insn[31], Width(insn[31]), Place16(insn);
    MovedIs(insn);
    NotLow(Moved(insn), w);
    NarrowX(c, e.rd, w);
    if insn[30] && insn[29] {
      var x := X(c, e.rd, 64);
      KeepMove(x, insn[5..21], pos, w);
      SetCast(c, e.rd, Or(And(x, Not(Shl(Ones(16, 64), pos))), Moved(insn)), sf);
    } else {
      SetCast(c, e.rd, if insn[30] then Moved(insn) else Not(Moved(insn)), sf);
    }
  }

  lemma {:induction false} MoveMeans(e: Ent)
    requires MoveEnt(e)
    ensures Means(e)
  {
    hide HandleMove, MoveWide, Exec, Handle, ImmClass, Moved, Place16, R, SetX, X, Cast;
    forall c | CpuOk(c)
      ensures Exec(e.insn, c) == Some(Handle(e, c))
    {
      ImmExec(e.insn, c);
      Dispatch(e, c);
      MoveAt(e, c);
    }
  }

  lemma {:induction false} KeepMove(x: U64, imm: Word, pos: nat, w: nat)
    requires |imm| == 16 && pos + 16 <= w <= 64
    ensures Or(And(x, Not(Shl(Ones(16, 64), pos))), Shl(Zext(imm, 64), pos))[..w] == Insert16(x[..w], pos, imm)
  {
  }

  // ------------------------------------------------------------ bitfields and extraction

  predicate FieldOk(insn: Insn) {
    var w := Width(insn[31]);
    insn[22] == insn[31] && R6(insn, 16) < w && R6(insn, 10) < w && !insn[29]
  }

  /** The operation a bitfield move is an alias of, with its operands. */
  predicate FieldEnt(e: Ent) {
    var sf, w, immr, imms := e.insn[31], Width(e.insn[31]), R6(e.insn, 16), R6(e.insn, 10);
    && ImmClass(e.insn, 6) && Fields(e) && EntOk(e) && FieldOk(e.insn)
    && if e.insn[30] then
         if imms == w - 1 then e.op == LSRI(sf) && e.rm == immr
         else if immr == imms + 1 then e.op == LSLI(sf) && e.rm == w - 1 - imms
         else if imms >= immr then e.op == UBFX(sf) && e.rm == immr && e.imm == Ones(imms - immr + 1, 64)
         else e.op == UBFIZ(sf) && e.rm == w - immr && e.imm == Ones(imms + 1, 64)
       else
         && imms >= immr
         && if imms == w - 1 then e.op == ASRI(sf) && e.rm == immr
            else e.op == SBFX(sf) && e.rm == w - 1 - imms && e.imm == Num(w - 1 - imms + immr)
  }

  /** The word of each operation, of either width, is that of the move it is an
   alias of. */
  lemma {:induction false} LsrWord(x: U64, immr: nat, sf: bool)
    requires immr < Width(sf)
    ensures LsrOf(x, immr, sf) == Zext(FieldMove(x[..Width(sf)], immr, Width(sf) - 1, false), 64)
  {
    hide FieldMove;
    AliasLsr(x[..Width(sf)], immr);
    assert sf ==> x[..64] == x;
  }

  lemma {:induction false} LslWord(x: U64, imms: nat, sf: bool)
    requires imms + 1 < Width(sf)
    ensures LslOf(x, Width(sf) - 1 - imms, sf) == Zext(FieldMove(x[..Width(sf)], imms + 1, imms, false), 64)
  {
    hide FieldMove;
    AliasLsl(x[..Width(sf)], imms);
    assert sf ==> x[..64] == x;
  }

  lemma {:induction false} UbfxWord(x: U64, immr: nat, imms: nat, sf: bool)
    requires immr <= imms < Width(sf)
    ensures UbfxOf(x, immr, Ones(imms - immr + 1, 64)) == Zext(FieldMove(x[..Width(sf)], immr, imms, false), 64)
  {
    hide FieldMove;
    AliasUbfx(x[..Width(sf)], immr, imms);
    assert sf ==> x[..64] == x;
  }

  lemma {:induction false} UbfizWord(x: U64, immr: nat, imms: nat, sf: bool)
    requires imms < immr < Width(sf)
    ensures UbfizOf(x, Width(sf) - immr, Ones(imms + 1, 64), sf) == Zext(FieldMove(x[..Width(sf)], immr, imms, false), 64)
  {
    hide FieldMove;
    AliasUbfiz(x[..Width(sf)], immr, imms);
    assert sf ==> x[..64] == x;
  }

  lemma {:induction false} AsrWord(x: U64, immr: nat, sf: bool)
    requires immr < Width(sf)
    ensures AsrOf(x, immr, sf) == Zext(FieldMove(x[..Width(sf)], immr, Width(sf) - 1, true), 64)
  {
    hide FieldMove;
    AliasAsr(x[..Width(sf)], immr);
    assert sf ==> x[..64] == x;
  }

  lemma {:induction false} SbfxWord(x: U64, immr: nat, imms: nat, sf: bool)
    requires immr <= imms < Width(sf)
    ensures SbfxOf(x, Width(sf) - 1 - imms, Width(sf) - 1 - imms + immr, sf)
            == Zext(FieldMove(x[..Width(sf)], immr, imms, true), 64)
  {
    hide FieldMove;
    AliasSbfx(x[..Width(sf)], immr, imms);
    assert sf ==> x[..64] == x;
  }

  lemma {:induction false} FieldWhole(y: Word, immr: nat, imms: nat, signed: bool)
    requires WidthOk(|y|) && immr < |y| && imms < |y|
    ensures |FieldMove(y, immr, imms, signed)| == |y|
    ensures |y| == 64 ==> Zext(FieldMove(y, immr, imms, signed), 64) == FieldMove(y, immr, imms, signed)
  {
  }

  lemma {:induction false} UnsignedWord(e: Ent, x: U64)
    requires FieldEnt(e) && e.insn[30]
    ensures FieldWord(e, x) == Zext(FieldMove(x[..Width(e.insn[31])], R6(e.insn, 16), R6(e.insn, 10), false), 64)
  {
    hide FieldMove, R6, R, Three, Num, UInt, LslOf, LsrOf, AsrOf, UbfxOf, UbfizOf, SbfxOf, Zext, Ones, ImmClass;
    var sf, w, immr, imms := e.insn[31], Width(e.insn[31]), R6(e.insn, 16), R6(e.insn, 10);
    if imms == w - 1 { LsrWord(x, immr, sf); }
    else if immr == imms + 1 { LslWord(x, imms, sf); }
    else if imms >= immr { UbfxWord(x, immr, imms, sf); }
    else { UbfizWord(x, immr, imms, sf); }
  }

  lemma {:induction false} SignedWord(e: Ent, x: U64)
    requires FieldEnt(e) && !e.insn[30]
    ensures FieldWord(e, x) == Zext(FieldMove(x[..Width(e.insn[31])], R6(e.insn, 16), R6(e.insn, 10), true), 64)
  {
    hide FieldMove, R6, R, Three, Num, UInt, LslOf, LsrOf, AsrOf, UbfxOf, UbfizOf, SbfxOf, Zext, Ones, ImmClass;
    var sf, w, immr, imms := e.insn[31], Width(e.insn[31]), R6(e.insn, 16), R6(e.insn, 10);
    if imms == w - 1 {
      AsrWord(x, immr, sf);
    } else {
      SmallNum(w - 1 - imms + immr);
      SbfxWord(x, immr, imms, sf);
    }
  }

  lemma {:induction false} SmallNum(n: nat)
    requires n < P64
    ensures UInt(Num(n)) == n
  {
    hide Num, UInt;
    NumValue(n);
    SmallMod(n, P64);
  }

  lemma {:induction false} FieldWordIs(e: Ent, x: U64)
    requires FieldEnt(e)
    ensures FieldWord(e, x) == Zext(FieldMove(x[..Width(e.insn[31])], R6(e.insn, 16), R6(e.insn, 10), !e.insn[30]), 64)
  {
    hide FieldMove, FieldWord, FieldEnt;
    if e.insn[30] { UnsignedWord(e, x); } else { SignedWord(e, x); }
  }

  lemma {:induction false} FieldFacts(e: Ent)
    requires FieldEnt(e)
    ensures Fields(e) && EntOk(e) && FieldOk(e.insn)
  {
    hide ImmClass, R6, R, Num, Ones;
  }

  lemma {:induction false} FieldAt(e: Ent, c: Cpu)
    requires FieldEnt(e) && CpuOk(c)
    ensures Bitfield(e.insn, c) == Some(SetX(c, e.rd, FieldWord(e, X(c, e.rn, 64))))
  {
    hide FieldWord, FieldMove, DecodeBitMasks, R6, R, Three, SetX, X, FieldEnt, BitfieldMoveOf, Zext, Ror, Ones;
    FieldFacts(e);
    var w, immr, imms := Width(e.insn[31]), R6(e.insn, 16), R6(e.insn, 10);
    var x := X(c, e.rn, 64);
    FieldMasks(w, imms, immr);
    NarrowX(c, e.rn, w);
    FieldWordIs(e, x);
    FieldWhole(x[..w], immr, imms, !e.insn[30]);
    FieldIs(x[..w], immr, imms, !e.insn[30]);
    SetWide(c, e.rd, FieldMove(x[..w], immr, imms, !e.insn[30]));
  }

  lemma {:induction false} FieldIs(y: Word, immr: nat, imms: nat, signed: bool)
    requires WidthOk(|y|) && immr < |y| && imms < |y|
    ensures FieldMove(y, immr, imms, signed)
            == BitfieldMoveOf(y, immr, imms, Masks(Ror(Ones(imms + 1, |y|), immr), Ones((imms - immr) % |y| + 1, |y|)), signed)
  {
  }

  lemma {:induction false} FieldOp(e: Ent)
    requires FieldEnt(e)
    ensures ImmClass(e.insn, 6) && EntOk(e)
    ensures e.op.LSLI? || e.op.LSRI? || e.op.ASRI? || e.op.UBFX? || e.op.UBFIZ? || e.op.SBFX?
  {
    hide ImmClass, R6, R, Num, Ones;
  }

  lemma {:induction false} FieldMeans(e: Ent)
    requires FieldEnt(e)
    ensures Means(e)
  {
    hide FieldWord, Bitfield, Exec, Handle, R6, R, ImmClass, SetX, X, Num, Ones;
    FieldOp(e);
    hide FieldEnt;
    forall c | CpuOk(c)
      ensures Exec(e.insn, c) == Some(Handle(e, c))
    {
      ImmExec(e.insn, c);
      Dispatch(e, c);
      FieldAt(e, c);
    }
  }

  predicate ExtrOk(insn: Insn) {
    !insn[30] && !insn[29] && insn[22] == insn[31] && !insn[21] && R6(insn, 10) < Width(insn[31])
  }

  predicate ExtrEnt(e: Ent) {
    && ImmClass(e.insn, 7) && Fields(e) && EntOk(e) && e.rm == R(e.insn, 16)
    && ExtrOk(e.insn) && e.op == EXTR(e.insn[31]) && N(e) == R6(e.insn, 10)
  }

  lemma {:induction false} ExtrWordIs(k: nat, hi: U64, lo: U64, sf: bool)
    requires k < Width(sf)
    ensures ExtrWord(k, hi, lo, sf) == Zext(Extract(hi[..Width(sf)], lo[..Width(sf)], k), 64)
  {
    var w := Width(sf);
    if k > 0 { ExtractIs(hi[..w], lo[..w], k); } else { assert Extract(hi[..w], lo[..w], 0) == lo[..w]; }
    assert sf ==> hi[..64] == hi && lo[..64] == lo;
    hide Extract;
  }

  lemma {:induction false} ExtrMeans(e: Ent)
    requires ExtrEnt(e)
    ensures Means(e)
  {
    hide ExtrWord, Extract, ImmClass, R, R6, SetX, X, N, Exec, Handle, Zext;
    var w := Width(e.insn[31]);
    forall c | CpuOk(c)
      ensures Exec(e.insn, c) == Some(Handle(e, c))
    {
      ImmExec(e.insn, c);
      DispatchReg(e, c);
      var hi, lo := X(c, e.rn, 64), X(c, e.rm, 64);
      NarrowX(c, e.rn, w);
      NarrowX(c, e.rm, w);
      ExtrWordIs(N(e), hi, lo, e.insn[31]);
      SetWide(c, e.rd, Extract(hi[..w], lo[..w], N(e)));
    }
  }

  // ------------------------------------------------------------ registers

  predicate RegClass(insn: Insn) { !insn[28] && insn[27] && !insn[26] && insn[25] }

  lemma {:induction false} RegExec(insn: Insn, c: Cpu)
    requires CpuOk(c) && RegClass(insn)
    ensures Exec(insn, c) == if !insn[24] then LogicalReg(insn, c) else if insn[21] then AddSubExt(insn, c) else AddSubReg(insn, c)
  {
    hide PcRel, AddSubImm, LogicalImm, MoveWide, Bitfield, ExtractInsn, LogicalReg, AddSubExt, AddSubReg, Three;
  }

  function ShiftCode(t: ShiftType): nat { match t case LSL => 0 case LSR => 1 case ASR => 2 case ROR => 3 }

  /** The second operand: shifted, or (no shift) as it is. */
  predicate ArgEnt(e: Ent, packed: bool) {
    && RegClass(e.insn) && Fields(e) && EntOk(e) && e.rm == R(e.insn, 16) && R6(e.insn, 10) < Width(e.insn[31])
    && (packed ==> N(e) % 256 == 64 * ShiftCode(ShiftOf(e.insn)) + R6(e.insn, 10))
    && (!packed ==> ShiftOf(e.insn) == LSL && R6(e.insn, 10) == 0)
  }

  lemma {:induction false} Unpack(n: nat, t: ShiftType, amt: nat)
    requires n % 256 == 64 * ShiftCode(t) + amt && amt < 64
    ensures n % 64 == amt && ShiftNo(n / 64) == t
  {
  }

  lemma {:induction false} NoShift(y: Word)
    requires |y| > 0
    ensures ShiftReg(y, LSL, 0) == y
  {
  }

  /** What either form of the operand is, in the low bits. */
  lemma {:induction false} ArgIs(e: Ent, c: Cpu, packed: bool)
    requires ArgEnt(e, packed) && CpuOk(c)
    ensures var w := Width(e.insn[31]);
            (if packed then ShiftedArg(e, c, e.insn[31]) else X(c, e.rm, 64))[..w]
            == ShiftReg(X(c, e.rm, w), ShiftOf(e.insn), R6(e.insn, 10))
  {
    hide R, R6, ShiftOp, ShiftReg, X, ShiftNo, ShiftOf, N;
    var w := Width(e.insn[31]);
    NarrowX(c, e.rm, w);
    if packed {
      Unpack(N(e), ShiftOf(e.insn), R6(e.insn, 10));
      ShiftIsArm(X(c, e.rm, 64), ShiftOf(e.insn), R6(e.insn, 10), e.insn[31]);
    } else {
      NoShift(X(c, e.rm, w));
    }
  }

  predicate LogEnt(e: Ent, packed: bool) {
    && ArgEnt(e, packed) && !e.insn[24]
    && (packed ==> e.op == LOGS(LogicOf(e.insn), e.insn[31]) && (N(e) / 256 % 2 == 1) == e.insn[21])
    && (!packed ==> e.op == LOG(LogicOf(e.insn), e.insn[21], e.insn[31]))
  }

  lemma {:induction false} LogAt(e: Ent, c: Cpu, packed: bool, y: U64)
    requires LogEnt(e, packed) && CpuOk(c)
    requires y[..Width(e.insn[31])] == ShiftReg(X(c, e.rm, Width(e.insn[31])), ShiftOf(e.insn), R6(e.insn, 10))
    ensures LogicalReg(e.insn, c)
            == Some(LogResult(c, e.rd, LogicOf(e.insn), Combine(LogicOf(e.insn), X(c, e.rn, 64), Inverted(y, e.insn[21])), e.insn[31]))
  {
    hide R, R6, ShiftReg, X, ShiftOf, N, LogResult, Combine, LogicOf, SetX, LogicalFlags, RegClass;
    var w := Width(e.insn[31]);
    NarrowX(c, e.rn, w);
    NotLow(y, w);
    LogWord(c, e.rd, LogicOf(e.insn), X(c, e.rn, 64), Inverted(y, e.insn[21]), e.insn[31]);
  }

  lemma {:induction false} LogMeans(e: Ent, packed: bool)
    requires LogEnt(e, packed)
    ensures Means(e)
  {
    hide R, R6, ShiftReg, X, ShiftOf, N, LogResult, Combine, LogicOf, SetX, RegClass, Exec, Handle, LogicalReg, ShiftedArg, Inverted;
    forall c | CpuOk(c)
      ensures Exec(e.insn, c) == Some(Handle(e, c))
    {
      RegExec(e.insn, c);
      DispatchReg(e, c);
      ArgIs(e, c, packed);
      LogAt(e, c, packed, if packed then ShiftedArg(e, c, e.insn[31]) else X(c, e.rm, 64));
    }
  }

  predicate AddEnt(e: Ent, packed: bool) {
    && ArgEnt(e, packed) && e.insn[24] && !e.insn[21] && ShiftOf(e.insn) != ROR
    && e.op == if packed then ADDRS(e.insn[30], e.insn[29], e.insn[31]) else ADDR(e.insn[30], e.insn[29], e.insn[31])
  }

  lemma {:induction false} AddRegAt(e: Ent, c: Cpu)
    requires AddEnt(e, false) && CpuOk(c)
    ensures AddSubReg(e.insn, c) == Some(HandleAddReg(e, c, e.insn[30], e.insn[29], e.insn[31]))
  {
    hide R, R6, ShiftReg, X, ShiftOf, N, SetX, RegClass, Awc, Cast, Num, UInt, AddSub, Zext;
    var sf, w := e.insn[31], Width(e.insn[31]);
    ArgIs(e, c, false);
    NarrowX(c, e.rn, w);
    var x, y := X(c, e.rn, 64), X(c, e.rm, 64);
    var a := AddSub(x[..w], y[..w], e.insn[30]);
    AwcSub(x, y, e.insn[30], sf);
    PlainSum(x, y, e.insn[30], sf);
    SetWide(c, e.rd, a.0);
    SetWide(c.(fl := a.1), e.rd, a.0);
  }

  lemma {:induction false} AddShiftedAt(e: Ent, c: Cpu)
    requires AddEnt(e, true) && CpuOk(c)
    ensures AddSubReg(e.insn, c) == Some(HandleAddShifted(e, c, e.insn[30], e.insn[29], e.insn[31]))
  {
    hide R, R6, ShiftReg, X, ShiftOf, N, SetX, RegClass, Awc, Cast, AddSub, Zext, ShiftedArg;
    var sf, w := e.insn[31], Width(e.insn[31]);
    ArgIs(e, c, true);
    NarrowX(c, e.rn, w);
    var x, y := X(c, e.rn, 64), ShiftedArg(e, c, sf);
    var a := AddSub(x[..w], y[..w], e.insn[30]);
    AwcSub(x, y, e.insn[30], sf);
    SetWide(c, e.rd, a.0);
    SetWide(c.(fl := a.1), e.rd, a.0);
  }

  lemma {:induction false} AddMeans(e: Ent, packed: bool)
    requires AddEnt(e, packed)
    ensures Means(e)
  {
    hide R, R6, ShiftOf, RegClass, Exec, Handle, AddSubReg, HandleAddReg, HandleAddShifted;
    forall c | CpuOk(c)
      ensures Exec(e.insn, c) == Some(Handle(e, c))
    {
      RegExec(e.insn, c);
      DispatchReg(e, c);
      if packed { AddShiftedAt(e, c); } else { AddRegAt(e, c); }
    }
  }

  predicate ExtOk(insn: Insn) { Three(insn, 10) <= 4 && !insn[23] && !insn[22] }

  predicate ExtEnt(e: Ent) {
    && RegClass(e.insn) && Fields(e) && EntOk(e) && e.rm == R(e.insn, 16) && e.insn[24] && e.insn[21] && ExtOk(e.insn)
    && e.op == ADDX(e.insn[30], e.insn[29], e.insn[31])
    && N(e) / 8 % 8 == Three(e.insn, 13) && N(e) % 8 == Three(e.insn, 10)
  }

  lemma {:induction false} ExtAt(e: Ent, c: Cpu)
    requires ExtEnt(e) && CpuOk(c)
    ensures AddSubExt(e.insn, c) == Some(HandleAddExt(e, c, e.insn[30], e.insn[29], e.insn[31]))
  {
    hide R, Three, X, Xsp, N, SetX, SetXsp, RegClass, Awc, Cast, AddSub, Zext, ExtendOp, ExtendReg;
    var sf, w := e.insn[31], Width(e.insn[31]);
    NarrowX(c, e.rn, w);
    var x, y := Xsp(c, e.rn, 64), ExtendOp(X(c, e.rm, 64), N(e) / 8 % 8, N(e) % 8);
    ExtendIsArm(X(c, e.rm, 64), Three(e.insn, 13), Three(e.insn, 10), w);
    var a := AddSub(x[..w], y[..w], e.insn[30]);
    AwcSub(x, y, e.insn[30], sf);
    SetWide(c, e.rd, a.0);
    SetWide(c.(fl := a.1), e.rd, a.0);
  }

  lemma {:induction false} ExtMeans(e: Ent)
    requires ExtEnt(e)
    ensures Means(e)
  {
    hide R, Three, RegClass, Exec, Handle, AddSubExt, HandleAddExt, N;
    forall c | CpuOk(c)
      ensures Exec(e.insn, c) == Some(Handle(e, c))
    {
      RegExec(e.insn, c);
      DispatchReg(e, c);
      ExtAt(e, c);
    }
  }
}
