/**
 Filling an entry from an instruction word, and the cache of filled entries,
 which the word alone validates.
 */
module PredecodeCache {
  import opened Options
  import opened Bits
  import opened ArmRef
  import opened ArmIsa
  import opened PredecodeOps
  import opened Predecode

  // ------------------------------------------------------------ which words are covered

  predicate Masked(insn: Insn) { DecodeBitMasks(insn[22], R6(insn, 10), R6(insn, 16), false, Width(insn[31])).Some? }

  /** Of the immediate, logical and add/subtract groups, the words the pre-decoder
   has an operation for; it has others for other groups. */
  predicate Covered(insn: Insn) {
    || ImmClass(insn, 0) || ImmClass(insn, 1) || ImmClass(insn, 2)
    || (ImmClass(insn, 4) && Masked(insn))
    || (ImmClass(insn, 5) && Place16(insn) < Width(insn[31]) && (insn[30] || !insn[29]))
    || (ImmClass(insn, 6) && FieldOk(insn) && (insn[30] || R6(insn, 10) >= R6(insn, 16)))
    || (ImmClass(insn, 7) && ExtrOk(insn))
    || (RegClass(insn) && !insn[24] && R6(insn, 10) < Width(insn[31]))
    || (RegClass(insn) && insn[24] && !insn[21] && ShiftOf(insn) != ROR && R6(insn, 10) < Width(insn[31]))
    || (RegClass(insn) && insn[24] && insn[21] && ExtOk(insn))
  }

  /** The logical immediate the architecture reserves. */
  predicate Reserved(insn: Insn) { ImmClass(insn, 4) && AllOnes(insn[22], R6(insn, 10)) }

  /** SBFM with imms below immr: SBFIZ, which is left to the decoder. */
  predicate SignedInsert(insn: Insn) { ImmClass(insn, 6) && !insn[30] && R6(insn, 10) < R6(insn, 16) }

  /** Those are the words the architecture defines an instruction of these groups for,
   but for the signed insert, and the one it reserves besides. */
  lemma {:induction false} CoveredExactly(insn: Insn, c: Cpu)
    requires CpuOk(c)
    ensures Covered(insn) <==> (Exec(insn, c).Some? && !SignedInsert(insn)) || (Reserved(insn) && Masked(insn))
  {
    hide R, R6, Three, UInt, DecodeBitMasks, AllOnes, PcRel, AddSubImm, ShiftReg, ExtendReg, Combine, Result, PlainResult, SetX, X, Xsp,
         BitfieldMoveOf, Extract, Insert16, AddSub;
    if ImmClass(insn, 4) { MaskedIs(insn); }
    if ImmClass(insn, 6) && FieldOk(insn) {
      FieldMasks(Width(insn[31]), R6(insn, 10), R6(insn, 16));
    }
  }

  lemma {:induction false} MaskedIs(insn: Insn)
    ensures DecodeBitMasks(insn[22], R6(insn, 10), R6(insn, 16), true, Width(insn[31])).Some?
            <==> Masked(insn) && !AllOnes(insn[22], R6(insn, 10))
  {
    hide R6;
    if Masked(insn) { ReservedIsAccepted(insn[22], R6(insn, 10), R6(insn, 16), Width(insn[31])); }
  }

  /** What a filled entry is: of its word, with an operation exactly for the words
   covered, which means what the architecture says. */
  ghost predicate Filled(e: Ent) {
    && EntOk(e) && (e.op != GENERIC <==> Covered(e.insn))
    && (e.op != GENERIC && !Reserved(e.insn) ==> Means(e))
  }

  // ------------------------------------------------------------ fields as numbers

  lemma {:induction false} ThreeBits(x: Word)
    requires |x| == 3
    ensures UInt(x) == Bit(x[0]) + 2 * Bit(x[1]) + 4 * Bit(x[2])
  {
    var y, z := x[1..], x[2..];
    assert y[1..] == z && z[1..] == [] && y[0] == x[1] && z[0] == x[2];
    assert UInt(z) == Bit(x[2]) && UInt(y) == Bit(x[1]) + 2 * UInt(z);
  }

  lemma {:induction false} TopFields(insn: Insn)
    ensures F(insn, 28, 23) == Three(insn, 23) + 8 * (Bit(insn[26]) + 2 * Bit(insn[27]) + 4 * Bit(insn[28]))
    ensures F(insn, 28, 24) == Bit(insn[24]) + 2 * F(insn, 28, 25)
    ensures F(insn, 28, 25) == Bit(insn[25]) + 2 * (Bit(insn[26]) + 2 * Bit(insn[27]) + 4 * Bit(insn[28]))
  {
    Pow6();
    assert insn[23..29] == insn[23..26] + insn[26..29];
    UIntConcat(insn[23..26], insn[26..29]);
    ThreeBits(insn[26..29]);
    assert insn[25..29] == [insn[25]] + insn[26..29];
    assert insn[24..29] == [insn[24]] + insn[25..29];
    assert insn[25..29][1..] == insn[26..29] && insn[24..29][1..] == insn[25..29];
  }

  lemma {:induction false} ImmTop(insn: Insn, k: nat)
    requires k < 8
    ensures F(insn, 28, 23) == 0x20 + k <==> ImmClass(insn, k)
  {
    TopFields(insn);
    hide UInt;
  }

  /** A field used as a register width or an option. */
  lemma {:induction false} ShiftField(insn: Insn)
    ensures ShiftCode(ShiftOf(insn)) == Bit(insn[22]) + 2 * Bit(insn[23])
  {
  }

  // ------------------------------------------------------------ pd_fill

  /** fill_dp_imm, for a word of the group. */
  method FillImm(insn: Insn) returns (e: Ent)
    requires insn[28] && !insn[27] && !insn[26]
    ensures e.insn == insn && Filled(e)
  {
    hide Means, R, R6, Three, UInt, DecodeBitMasks, AllOnes, Exec, Handle, F, ShiftOf, Sext, Num;
    e := Blank(insn);
    var t, sf := F(insn, 28, 23), insn[31];
    assert forall k: nat :: k < 8 ==> (t == 0x20 + k <==> ImmClass(insn, k)) by {
      forall k: nat | k < 8 ensures t == 0x20 + k <==> ImmClass(insn, k) { ImmTop(insn, k); }
    }
    if t == 0x20 || t == 0x21 {
      e := if sf then e.(op := ADRP, imm := Shl(PcImm(insn), 12)) else e.(op := ADR, imm := PcImm(insn));
      PcRelMeans(e);
      return;
    }
    if t == 0x22 {
      var imm := Imm12(insn);
      e := e.(op := AddImmOp(insn), imm := if insn[29] && insn[30] then Not(imm) else imm);
      AddImmMeans(e);
      return;
    }
    if t == 0x24 { e := FillLogImm(insn); return; }
    if t == 0x25 { e := FillMove(insn); return; }
    if t == 0x26 { e := FillField(insn); return; }
    if t == 0x27 { e := FillExtr(insn); return; }
    assert !RegClass(insn);
  }

  method FillLogImm(insn: Insn) returns (e: Ent)
    requires ImmClass(insn, 4)
    ensures e.insn == insn && Filled(e)
  {
    hide Means, R, R6, Three, UInt, DecodeBitMasks, AllOnes, LogicOf;
    e := Blank(insn);
    var ok, wmask := BitMasks(insn[22], R6(insn, 10), R6(insn, 16), insn[31]);
    if !ok { return; }
    e := e.(op := LOGI(LogicOf(insn), insn[31]), imm := wmask);
    ReservedIsAccepted(insn[22], R6(insn, 10), R6(insn, 16), Width(insn[31]));
    if !Reserved(insn) {
      LogImmMeans(e, DecodeBitMasks(insn[22], R6(insn, 10), R6(insn, 16), true, Width(insn[31])).value);
    }
  }

  method FillMove(insn: Insn) returns (e: Ent)
    requires ImmClass(insn, 5)
    ensures e.insn == insn && Filled(e)
  {
    hide Means, R, R6, Three, UInt;
    e := Blank(insn);
    var sf, hw, shift := insn[31], Bit(insn[21]) + 2 * Bit(insn[22]), Place16(insn);
    if !sf && hw >= 2 { return; }
    var v := Moved(insn);
    if !insn[30] && !insn[29] {
      e := e.(op := MOVI, imm := Cast(Not(v), sf));
      MoveMeans(e);
    } else if insn[30] && !insn[29] {
      e := e.(op := MOVI, imm := Cast(v, sf));
      MoveMeans(e);
    } else if insn[30] && insn[29] {
      e := e.(op := MOVK(sf), rm := shift, imm := v);
      MoveMeans(e);
    }
  }

  method FillField(insn: Insn) returns (e: Ent)
    requires ImmClass(insn, 6)
    ensures e.insn == insn && Filled(e)
  {
    hide Means, R, R6, Three, UInt, Num;
    e := Blank(insn);
    var sf, immr, imms := insn[31], R6(insn, 16), R6(insn, 10);
    var w := Width(sf);
    if if sf then !insn[22] else insn[22] || immr >= 32 || imms >= 32 { return; }
    if insn[30] && !insn[29] {
      if imms == w - 1 {
        e := e.(op := LSRI(sf), rm := immr);
      } else if immr == imms + 1 {
        e := e.(op := LSLI(sf), rm := w - 1 - imms);
      } else if imms >= immr {
        e := e.(op := UBFX(sf), rm := immr, imm := Ones(imms - immr + 1, 64));
      } else {
        e := e.(op := UBFIZ(sf), rm := w - immr, imm := Ones(imms + 1, 64));
      }
      FieldMeans(e);
    } else if !insn[30] && !insn[29] {
      if imms == w - 1 {
        e := e.(op := ASRI(sf), rm := immr);
        FieldMeans(e);
      } else if imms >= immr {
        e := e.(op := SBFX(sf), rm := w - 1 - imms, imm := Num(w - 1 - imms + immr));
        FieldMeans(e);
      }
    }
  }

  method FillExtr(insn: Insn) returns (e: Ent)
    requires ImmClass(insn, 7)
    ensures e.insn == insn && Filled(e)
  {
    hide Means, R, R6, Three, UInt, Num;
    e := Blank(insn);
    var sf, imms := insn[31], R6(insn, 10);
    if insn[30] || insn[29] || insn[22] != sf || insn[21] { return; }
    SmallNum(imms);
    if sf {
      e := e.(op := EXTR(true), imm := Num(imms));
      ExtrMeans(e);
    } else if imms < 32 {
      e := e.(op := EXTR(false), imm := Num(imms));
      ExtrMeans(e);
    }
  }

  /** fill_dp_reg: the shifted and extended register forms. */
  method FillReg(insn: Insn) returns (e: Ent)
    requires RegClass(insn)
    ensures e.insn == insn && Filled(e)
  {
    hide Means, R, R6, Three, UInt, Num, LogicOf, ShiftOf;
    e := Blank(insn);
    var sf, imm6, shift := insn[31], R6(insn, 10), Bit(insn[22]) + 2 * Bit(insn[23]);
    ShiftField(insn);
    if !insn[24] {
      if !sf && imm6 >= 32 { return; }
      if shift == 0 && imm6 == 0 {
        e := e.(op := LOG(LogicOf(insn), insn[21], sf));
        LogMeans(e, false);
      } else {
        var n := 256 * Bit(insn[21]) + 64 * shift + imm6;
        e := e.(op := LOGS(LogicOf(insn), sf), imm := Num(n));
        SmallNum(n);
        Packed(insn[21], 64 * shift + imm6);
        LogMeans(e, true);
      }
    } else if insn[21] {
      if Three(insn, 10) > 4 || insn[23] || insn[22] { return; }
      var n := 8 * Three(insn, 13) + Three(insn, 10);
      e := e.(op := ADDX(insn[30], insn[29], sf), imm := Num(n));
      SmallNum(n);
      Packed8(Three(insn, 13), Three(insn, 10));
      ExtMeans(e);
    } else {
      if shift == 3 { return; }
      if !sf && imm6 >= 32 { return; }
      if shift == 0 && imm6 == 0 {
        e := e.(op := ADDR(insn[30], insn[29], sf));
        AddMeans(e, false);
      } else {
        var n := 64 * shift + imm6;
        e := e.(op := ADDRS(insn[30], insn[29], sf), imm := Num(n));
        SmallNum(n);
        AddMeans(e, true);
      }
    }
  }

  lemma {:induction false} Packed(inv: bool, n: nat)
    requires n < 256
    ensures (256 * Bit(inv) + n) % 256 == n && ((256 * Bit(inv) + n) / 256 % 2 == 1) == inv
  {
  }

  lemma {:induction false} Packed8(a: nat, b: nat)
    requires a < 8 && b < 8
    ensures (8 * a + b) / 8 % 8 == a && (8 * a + b) % 8 == b
  {
  }

  /** pd_fill, for the two data-processing groups. */
  method Fill(insn: Insn) returns (e: Ent)
    ensures e.insn == insn && Filled(e)
  {
    hide Means, R, R6, Three, UInt, Filled, F;
    TopFields(insn);
    var top := F(insn, 28, 25);
    e := Blank(insn);
    if top == 0x8 || top == 0x9 {
      e := FillImm(insn);
    } else if top == 0x5 {
      e := FillReg(insn);
    } else {
      Uncovered(insn);
    }
  }

  lemma {:induction false} Uncovered(insn: Insn)
    requires !(insn[28] && !insn[27] && !insn[26]) && !RegClass(insn)
    ensures Filled(Blank(insn))
  {
    hide Means;
  }

  // ------------------------------------------------------------ the cache

  const PD_SIZE: nat := 16384

  /** One thread's registers and decode cache. `generic` is what decode.c does
   with a word there is no operation for. */
  class Core {
    const cache: array<Ent>
    var cpu: Cpu
    var icount: nat

    ghost predicate Valid()
      reads this, cache
    {
      cache.Length == PD_SIZE && CpuOk(cpu) && forall i :: 0 <= i < PD_SIZE ==> Filled(cache[i])
    }

    /** An empty cache holds the all-zero word, which has no operation. */
    constructor (c: Cpu)
      requires CpuOk(c)
      ensures Valid() && cpu == c && icount == 0 && fresh(cache)
    {
      ZeroWord();
      var zero := Blank(Ones(0, 32));
      cache := new Ent[PD_SIZE](_ => zero);
      cpu, icount := c, 0;
    }

    /** One turn of pd_run: the word at pc is fetched, and whatever the cache held
     it is the one that runs. `generic` is the decoder behind the cache, which
     moves pc itself; `pending` is whether the instruction leaves a stop, an
     exception or a signal for the caller to see to. */
    method Step(fetch: Word -> Option<Insn>, generic: (Insn, Cpu) -> Cpu, pending: bool) returns (ok: bool, more: bool)
      requires Valid() && forall w, c :: CpuOk(c) ==> CpuOk(generic(w, c))
      modifies this, cache
      ensures Valid() && ok == fetch(old(cpu).pc).Some? && more == (ok && !pending)
      ensures icount == old(icount) + if ok then 1 else 0
      ensures !ok ==> cpu == old(cpu)
      ensures ok && !Covered(fetch(old(cpu).pc).value) ==> cpu == generic(fetch(old(cpu).pc).value, old(cpu))
      ensures ok && Covered(fetch(old(cpu).pc).value) ==> cpu.pc == NextPc(old(cpu).pc)
      ensures ok && Covered(fetch(old(cpu).pc).value) && !Reserved(fetch(old(cpu).pc).value) ==>
                Exec(fetch(old(cpu).pc).value, old(cpu)) == Some(cpu.(pc := old(cpu).pc))
    {
      hide Exec, Handle, Covered, Reserved, R, UInt, FromInt;
      var word := fetch(cpu.pc);
      if word.None? { return false, false; }
      var insn, slot := word.value, Slot(cpu.pc);
      if cache[slot].insn != insn {
        cache[slot] := Fill(insn);
      }
      var e := cache[slot];
      assert Filled(e);
      ghost var c0 := cpu;
      if e.op == GENERIC {
        cpu := generic(insn, cpu);
      } else {
        HandleOk(e, c0);
        cpu := Handle(e, cpu).(pc := NextPc(cpu.pc));
        assert cpu.(pc := c0.pc) == Handle(e, c0);
      }
      icount := icount + 1;
      ok, more := true, !pending;
    }
  }

  /** The next instruction's address. */
  function NextPc(pc: U64): U64 { Num(UInt(pc) + 4) }

  lemma {:induction false} NextPcIs(pc: U64)
    ensures UInt(NextPc(pc)) == (UInt(pc) + 4) % 0x1_0000_0000_0000_0000
  {
    FromIntValue(UInt(pc) + 4, 64);
    Powers();
  }

  /** (pc >> 2) & PD_MASK */
  function Slot(pc: Word): nat
    requires |pc| == 64
    ensures Slot(pc) < PD_SIZE
  {
    UIntBound(pc[2..16]);
    assert Pow2(14) == PD_SIZE;
    UInt(pc[2..16])
  }

  lemma {:induction false} ZeroWord()
    ensures Filled(Blank(Ones(0, 32)))
  {
    Uncovered(Ones(0, 32));
  }

  lemma {:induction false} HandleOk(e: Ent, c: Cpu)
    requires CpuOk(c) && EntOk(e)
    ensures CpuOk(Handle(e, c)) && Handle(e, c).pc == c.pc
  {
    hide Awc, Num, UInt, Combine, ShiftedArg, ExtendOp, ExtrWord, FieldWord, Cast;
  }
}
