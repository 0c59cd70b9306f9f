/**
 What the Arm Architecture Reference Manual (DDI 0487) says of the instructions
 the pre-decoder covers: the shared pseudocode functions AddWithCarry,
 DecodeBitMasks, ShiftReg and ExtendReg, and the operations of section C6.2 that
 use them.
 */
module ArmRef {
  import opened Options
  import opened Bits

  datatype Flags = Flags(n: bool, z: bool, c: bool, v: bool)

  /** X0 to X30, the stack pointer, the address of the instruction, PSTATE.NZCV. */
  datatype Cpu = Cpu(x: seq<Word>, sp: Word, pc: Word, fl: Flags)

  predicate CpuOk(c: Cpu) {
    |c.x| == 31 && (forall i :: 0 <= i < 31 ==> |c.x[i]| == 64) && |c.sp| == 64 && |c.pc| == 64
  }

  function Width(sf: bool): nat { if sf then 64 else 32 }

  /** X[r, w], with register 31 the zero register... */
  function X(c: Cpu, r: nat, w: nat): (v: Word)
    requires CpuOk(c) && r < 32 && w <= 64
    ensures |v| == w
  {
    if r == 31 then Ones(0, w) else c.x[r][..w]
  }

  /** ...or the stack pointer. */
  function Xsp(c: Cpu, r: nat, w: nat): (v: Word)
    requires CpuOk(c) && r < 32 && w <= 64
    ensures |v| == w
  {
    if r == 31 then c.sp[..w] else c.x[r][..w]
  }

  function SetX(c: Cpu, r: nat, v: Word): (c': Cpu)
    requires CpuOk(c) && r < 32 && |v| <= 64
    ensures CpuOk(c')
  {
    if r == 31 then c else c.(x := c.x[r := Zext(v, 64)])
  }

  function SetXsp(c: Cpu, r: nat, v: Word): (c': Cpu)
    requires CpuOk(c) && r < 32 && |v| <= 64
    ensures CpuOk(c')
  {
    if r == 31 then c.(sp := Zext(v, 64)) else c.(x := c.x[r := Zext(v, 64)])
  }

  // ------------------------------------------------------------ shared functions

  function AddWithCarry(x: Word, y: Word, carry: bool): (r: (Word, Flags))
    requires |x| == |y| > 0
    ensures |r.0| == |x|
  {
    var u := UInt(x) + UInt(y) + Bit(carry);
    var s := SInt(x) + SInt(y) + Bit(carry);
    var res := FromInt(u, |x|);
    (res, Flags(res[|x| - 1], IsZero(res), UInt(res) != u, SInt(res) != s))
  }

  /** The position of the highest one in a number, -1 for none. */
  function HighestSetBit(v: nat): (k: int)
    ensures -1 <= k && (k == -1 <==> v == 0)
  {
    if v == 0 then -1 else 1 + HighestSetBit(v / 2)
  }

  function Replicate(x: Word, w: nat): (r: Word)
    requires |x| > 0
    ensures |r| == w && forall i :: 0 <= i < w ==> r[i] == x[i % |x|]
  {
    seq(w, i requires 0 <= i => x[i % |x|])
  }

  /** N:NOT(imms) as a number. */
  function MaskKey(n: bool, imms: nat): nat
    requires imms < 64
  {
    64 * Bit(n) + (63 - imms)
  }

  datatype Masks = Masks(wmask: Word, tmask: Word)

  function DecodeBitMasks(n: bool, imms: nat, immr: nat, immediate: bool, w: nat): (m: Option<Masks>)
    requires imms < 64 && immr < 64
    ensures m.Some? ==> |m.value.wmask| == w && |m.value.tmask| == w
  {
    var len := HighestSetBit(MaskKey(n, imms));
    if len < 1 || w < Pow2(len) then None
    else
      var esize := Pow2(len);
      var s, r := imms % esize, immr % esize;
      if immediate && s == esize - 1 then None
      else
        var d := (s - r) % esize;
        Some(Masks(Replicate(Ror(Ones(s + 1, esize), r), w), Replicate(Ones(d + 1, esize), w)))
  }

  /** UBFM and SBFM. */
  function BitfieldMove(src: Word, immr: nat, imms: nat, m: Masks, signed: bool): Word
    requires immr < |src| && imms < |src| && |m.wmask| == |m.tmask| == |src|
  {
    var bot := And(Ror(src, immr), m.wmask);
    if signed then Or(And(if src[imms] then Ones(|src|, |src|) else Ones(0, |src|), Not(m.tmask)), And(bot, m.tmask))
    else And(bot, m.tmask)
  }

  /** EXTR: two registers end to end. */
  function Extract(hi: Word, lo: Word, lsb: nat): (r: Word)
    requires |hi| == |lo| && lsb < |hi|
    ensures |r| == |hi|
  {
    (lo + hi)[lsb..lsb + |hi|]
  }

  datatype ShiftType = LSL | LSR | ASR | ROR

  function ShiftReg(x: Word, t: ShiftType, n: nat): (r: Word)
    requires n < |x|
    ensures |r| == |x|
  {
    match t case LSL => Shl(x, n) case LSR => Shr(x, n) case ASR => Asr(x, n) case ROR => Ror(x, n)
  }

  function Min(a: nat, b: nat): nat { if a < b then a else b }

  /** The length an extension takes of its operand. */
  function ExtendLen(option: nat): nat
    requires option < 8
  {
    match option % 4 case 0 => 8 case 1 => 16 case 2 => 32 case _ => 64
  }

  function ExtendReg(val: Word, option: nat, shift: nat, w: nat): (r: Word)
    requires |val| == 64 && option < 8 && shift <= 4 && (w == 32 || w == 64)
    ensures |r| == w
  {
    var nbits := Min(ExtendLen(option), w - shift);
    var field := Ones(0, shift) + val[..nbits];
    if option < 4 then Zext(field, w) else Sext(field, w)
  }

  function LogicalFlags(r: Word): Flags
    requires |r| > 0
  {
    Flags(r[|r| - 1], IsZero(r), false, false)
  }
}
