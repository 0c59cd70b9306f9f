/**
 The data-processing instructions the pre-decoder covers, as sections C4.1 and
 C6.2 of DDI 0487 decode and define them. None is an encoding that is unallocated,
 undefined, or of an instruction not given here.
 */
module ArmIsa {
  import opened Options
  import opened Bits
  import opened ArmRef

  type Insn = x: Word | |x| == 32 witness Ones(0, 32)

  /** insn<hi:lo> as a number */
  function F(insn: Insn, hi: nat, lo: nat): nat
    requires lo <= hi < 32
  {
    UInt(insn[lo..hi + 1])
  }

  /** A register number at insn<lo+4:lo>. */
  function R(insn: Insn, lo: nat): (r: nat)
    requires lo + 5 <= 32
    ensures r < 32
  {
    UIntBound(insn[lo..lo + 5]);
    Pow6();
    UInt(insn[lo..lo + 5])
  }

  function R6(insn: Insn, lo: nat): (r: nat)
    requires lo + 6 <= 32
    ensures r < 64
  {
    UIntBound(insn[lo..lo + 6]);
    Pow6();
    UInt(insn[lo..lo + 6])
  }

  function AddSub(x: Word, y: Word, sub: bool): (r: (Word, Flags))
    requires |x| == |y| > 0
    ensures |r.0| == |x|
  {
    AddWithCarry(x, if sub then Not(y) else y, sub)
  }

  /** A result, to the register or the stack pointer, with or without flags. */
  function Result(c: Cpu, d: nat, r: (Word, Flags), flags: bool): Cpu
    requires CpuOk(c) && d < 32 && |r.0| <= 64
  {
    if flags then SetX(c.(fl := r.1), d, r.0) else SetXsp(c, d, r.0)
  }

  function PlainResult(c: Cpu, d: nat, r: (Word, Flags), flags: bool): Cpu
    requires CpuOk(c) && d < 32 && |r.0| <= 64
  {
    SetX(if flags then c.(fl := r.1) else c, d, r.0)
  }

  /** ADR and ADRP: insn<23:5>:insn<30:29>, signed, in bytes or pages. */
  function PcRel(insn: Insn, c: Cpu): Cpu
    requires CpuOk(c)
  {
    var imm := Sext(insn[29..31] + insn[5..24], 64);
    var page := insn[31];
    var base := if page then Ones(0, 12) + c.pc[12..] else c.pc;
    SetX(c, R(insn, 0), FromInt(UInt(base) + UInt(if page then Shl(imm, 12) else imm), 64))
  }

  function AddSubImm(insn: Insn, c: Cpu): Cpu
    requires CpuOk(c)
  {
    var w := Width(insn[31]);
    var imm := Zext(if insn[22] then Ones(0, 12) + insn[10..22] else insn[10..22], w);
    Result(c, R(insn, 0), AddSub(Xsp(c, R(insn, 5), w), imm, insn[30]), insn[29])
  }

  datatype Logic = AND | ORR | EOR | ANDS

  function LogicOf(insn: Insn): Logic {
    if insn[30] then (if insn[29] then ANDS else EOR) else (if insn[29] then ORR else AND)
  }

  function Combine(k: Logic, x: Word, y: Word): (r: Word)
    requires |x| == |y|
    ensures |r| == |x|
  {
    match k case ORR => Or(x, y) case EOR => Xor(x, y) case _ => And(x, y)
  }

  function LogicalImm(insn: Insn, c: Cpu): Option<Cpu>
    requires CpuOk(c)
  {
    var w := Width(insn[31]);
    var m := DecodeBitMasks(insn[22], R6(insn, 10), R6(insn, 16), true, w);
    if m.None? then None
    else
      var r := Combine(LogicOf(insn), X(c, R(insn, 5), w), m.value.wmask);
      Some(Result(c, R(insn, 0), (r, LogicalFlags(r)), LogicOf(insn) == ANDS))
  }

  function Place16(insn: Insn): nat { 16 * (Bit(insn[21]) + 2 * Bit(insn[22])) }

  /** The 16 bits at `pos` of `x` replaced. */
  function Insert16(x: Word, pos: nat, v: Word): Word
    requires |v| == 16 && pos + 16 <= |x|
  {
    x[..pos] + v + x[pos + 16..]
  }

  function MoveWide(insn: Insn, c: Cpu): Option<Cpu>
    requires CpuOk(c)
  {
    var w, d, pos := Width(insn[31]), R(insn, 0), Place16(insn);
    if pos >= w || (!insn[30] && insn[29]) then None
    else if insn[30] && insn[29] then Some(SetX(c, d, Insert16(X(c, d, w), pos, insn[5..21])))
    else
      var r := Insert16(Ones(0, w), pos, insn[5..21]);
      Some(SetX(c, d, if insn[30] then r else Not(r)))
  }

  /** UBFM and SBFM; BFM is not given here. */
  function Bitfield(insn: Insn, c: Cpu): Option<Cpu>
    requires CpuOk(c)
  {
    var w, immr, imms := Width(insn[31]), R6(insn, 16), R6(insn, 10);
    if insn[22] != insn[31] || immr >= w || imms >= w || insn[29] then None
    else
      var m := DecodeBitMasks(insn[22], imms, immr, false, w);
      if m.None? then None
      else Some(SetX(c, R(insn, 0), BitfieldMoveOf(X(c, R(insn, 5), w), immr, imms, m.value, !insn[30])))
  }

  function BitfieldMoveOf(src: Word, immr: nat, imms: nat, m: Masks, signed: bool): (r: Word)
    requires 0 < |src| <= 64 && immr < |src| && imms < |src| && |m.wmask| == |m.tmask| == |src|
    ensures |r| <= 64
  {
    BitfieldMove(src, immr, imms, m, signed)
  }

  function ExtractInsn(insn: Insn, c: Cpu): Option<Cpu>
    requires CpuOk(c)
  {
    var w, lsb := Width(insn[31]), R6(insn, 10);
    if insn[30] || insn[29] || insn[22] != insn[31] || insn[21] || lsb >= w then None
    else Some(SetX(c, R(insn, 0), Extract(X(c, R(insn, 5), w), X(c, R(insn, 16), w), lsb)))
  }

  function ShiftOf(insn: Insn): ShiftType {
    if insn[23] then (if insn[22] then ROR else ASR) else (if insn[22] then LSR else LSL)
  }

  function LogicalReg(insn: Insn, c: Cpu): Option<Cpu>
    requires CpuOk(c)
  {
    var w, n := Width(insn[31]), R6(insn, 10);
    if n >= w then None
    else
      var y := ShiftReg(X(c, R(insn, 16), w), ShiftOf(insn), n);
      var r := Combine(LogicOf(insn), X(c, R(insn, 5), w), if insn[21] then Not(y) else y);
      Some(PlainResult(c, R(insn, 0), (r, LogicalFlags(r)), LogicOf(insn) == ANDS))
  }

  function AddSubReg(insn: Insn, c: Cpu): Option<Cpu>
    requires CpuOk(c)
  {
    var w, n := Width(insn[31]), R6(insn, 10);
    if n >= w || ShiftOf(insn) == ROR then None
    else
      var y := ShiftReg(X(c, R(insn, 16), w), ShiftOf(insn), n);
      Some(PlainResult(c, R(insn, 0), AddSub(X(c, R(insn, 5), w), y, insn[30]), insn[29]))
  }

  function Three(insn: Insn, lo: nat): (n: nat)
    requires lo + 3 <= 32
    ensures n < 8
  {
    UIntBound(insn[lo..lo + 3]);
    Pow6();
    UInt(insn[lo..lo + 3])
  }

  function AddSubExt(insn: Insn, c: Cpu): Option<Cpu>
    requires CpuOk(c)
  {
    var w := Width(insn[31]);
    if Three(insn, 10) > 4 || insn[23] || insn[22] then None
    else
      var y := ExtendReg(X(c, R(insn, 16), 64), Three(insn, 13), Three(insn, 10), w);
      Some(Result(c, R(insn, 0), AddSub(Xsp(c, R(insn, 5), w), y, insn[30]), insn[29]))
  }

  /** Data processing, immediate (insn<28:26> = 100) and the shifted and extended
   register forms (insn<28:24> = 01010 and 01011). */
  function Exec(insn: Insn, c: Cpu): Option<Cpu>
    requires CpuOk(c)
  {
    if insn[28] && !insn[27] && !insn[26] then
      match Three(insn, 23)
      case 0 => Some(PcRel(insn, c))
      case 1 => Some(PcRel(insn, c))
      case 2 => Some(AddSubImm(insn, c))
      case 4 => LogicalImm(insn, c)
      case 5 => MoveWide(insn, c)
      case 6 => Bitfield(insn, c)
      case 7 => ExtractInsn(insn, c)
      case _ => None
    else if !insn[28] && insn[27] && !insn[26] && insn[25] then
      if !insn[24] then LogicalReg(insn, c)
      else if insn[21] then AddSubExt(insn, c) else AddSubReg(insn, c)
    else None
  }
}
