/**
 The arithmetic helpers of the pre-decoder, on 64-bit words, against the
 architecture's: the carry and overflow of an addition, shifts, extensions and
 the masks of logical immediates.
 */
module PredecodeOps {
  import opened Options
  import opened Bits
  import opened ArmRef

  /** A 64-bit word. */
  type U64 = x: Word | |x| == 64 witness Ones(0, 64)

  /** (u32)x */
  function Low32(x: U64): U64 { Zext(x[..32], 64) }

  function Cast(x: U64, is64: bool): U64 { if is64 then x else Low32(x) }

  function Num(v: int): U64 { FromInt(v, 64) }

  /** pd_awc */
  function Awc(x: U64, y: U64, cin: bool, is64: bool): (U64, Flags) {
    if is64 then
      var t := Num(UInt(x) + UInt(y));
      var res := Num(UInt(t) + Bit(cin));
      (res, Flags(res[63], IsZero(res), UInt(t) < UInt(x) || UInt(res) < UInt(t), And(Not(Xor(x, y)), Xor(x, res))[63]))
    else
      var u := UInt(x[..32]) + UInt(y[..32]) + Bit(cin);
      var res := Num(u)[..32];
      var s := SInt(x[..32]) + SInt(y[..32]) + Bit(cin);
      (Zext(res, 64), Flags(res[31], IsZero(res), u / P32 % 2 == 1, SInt(res) != s))
  }

  /** What the architecture gives for the same operands, in the low bits. */
  predicate AwcAgrees(x: U64, y: U64, cin: bool, is64: bool) {
    var w := Width(is64);
    var (r, fl), (ar, afl) := Awc(x, y, cin, is64), AddWithCarry(x[..w], y[..w], cin);
    r == Zext(ar, 64) && fl == afl
  }

  lemma {:induction false} CarryNumbers(a: nat, b: nat, c: nat, t: nat, r: nat)
    requires a < P64 && b < P64 && c <= 1 && t == (a + b) % P64 && r == (t + c) % P64
    ensures r == (a + b + c) % P64 && (t < a || r < t <==> r != a + b + c)
  {
  }

  function Signed(a: int, half: int): int { if a >= half then a - 2 * half else a }

  lemma {:induction false} OverflowNumbers(a: nat, b: nat, c: nat, r: nat)
    requires a < P64 && b < P64 && c <= 1 && r == (a + b + c) % P64
    ensures (a >= P63) == (b >= P63) && (a >= P63) != (r >= P63) <==> Signed(r, P63) != Signed(a, P63) + Signed(b, P63) + c
  {
  }

  lemma {:induction false} Value64(x: U64)
    ensures UInt(x) < P64 && (x[63] <==> UInt(x) >= P63) && SInt(x) == Signed(UInt(x), P63)
  {
    Powers();
    TopBit(x);
  }

  lemma {:induction false} Value32(x: Word)
    requires |x| == 32
    ensures UInt(x) < P32 && (x[31] <==> UInt(x) >= 0x8000_0000) && SInt(x) == Signed(UInt(x), 0x8000_0000)
  {
    Powers();
    TopBit(x);
  }

  lemma {:induction false} NumValue(v: int)
    ensures UInt(Num(v)) == v % P64 && UInt(FromInt(v, 32)) == v % P32 && Num(v)[..32] == FromInt(v, 32)
  {
    Powers();
    FromIntValue(v, 64);
    FromIntValue(v, 32);
    FromIntLow(v, 64, 32);
  }

  lemma {:induction false} Sum64(x: U64, y: U64, cin: bool)
    ensures var t, u := Num(UInt(x) + UInt(y)), UInt(x) + UInt(y) + Bit(cin);
            var res := Num(UInt(t) + Bit(cin));
            res == Num(u) && UInt(res) == u % P64 && (UInt(t) < UInt(x) || UInt(res) < UInt(t) <==> UInt(res) != u)
  {
    hide UInt, FromInt, Pow2;
    var t, u := Num(UInt(x) + UInt(y)), UInt(x) + UInt(y) + Bit(cin);
    var res := Num(UInt(t) + Bit(cin));
    NumValue(UInt(x) + UInt(y));
    NumValue(UInt(t) + Bit(cin));
    NumValue(u);
    Value64(x);
    Value64(y);
    CarryNumbers(UInt(x), UInt(y), Bit(cin), UInt(t), UInt(res));
    UIntInjective(res, Num(u));
  }

  lemma {:induction false} Overflow64(x: U64, y: U64, cin: bool, res: U64)
    requires UInt(res) == (UInt(x) + UInt(y) + Bit(cin)) % P64
    ensures And(Not(Xor(x, y)), Xor(x, res))[63] <==> SInt(res) != SInt(x) + SInt(y) + Bit(cin)
  {
    hide UInt, SInt;
    Value64(x);
    Value64(y);
    Value64(res);
    OverflowNumbers(UInt(x), UInt(y), Bit(cin), UInt(res));
  }

  lemma {:induction false} Awc64(x: U64, y: U64, cin: bool)
    ensures AwcAgrees(x, y, cin, true)
  {
    hide UInt, FromInt, SInt, Not, Xor, And;
    assert x[..64] == x && y[..64] == y;
    Sum64(x, y, cin);
    var res := Num(UInt(x) + UInt(y) + Bit(cin));
    Overflow64(x, y, cin, res);
    assert Zext(res, 64) == res;
  }

  lemma {:induction false} Awc32(x: U64, y: U64, cin: bool)
    ensures AwcAgrees(x, y, cin, false)
  {
    hide UInt, FromInt, Pow2, SInt;
    var a, b := x[..32], y[..32];
    var u := UInt(a) + UInt(b) + Bit(cin);
    Value32(a);
    Value32(b);
    NumValue(u);
    assert u / P32 % 2 == 1 <==> u % P32 != u;
  }

  lemma {:induction false} AwcIsArm(x: U64, y: U64, cin: bool, is64: bool)
    ensures AwcAgrees(x, y, cin, is64)
  {
    if is64 { Awc64(x, y, cin); } else { Awc32(x, y, cin); }
  }

  // ------------------------------------------------------------ shifts and extensions

  /** pd_shift_reg: of a 32-bit LSL, only the low half means anything. */
  function ShiftOp(v: U64, t: ShiftType, amount: nat, is64: bool): U64
    requires amount < 64
  {
    var n := amount % Width(is64);
    var x := Cast(v, is64);
    match t
    case LSL => Shl(x, n)
    case LSR => if is64 then Shr(x, n) else Zext(Shr(x[..32], n), 64)
    case ASR => if is64 then Asr(x, n) else Zext(Asr(x[..32], n), 64)
    case ROR => if is64 then Ror(x, n) else Zext(Ror(x[..32], n), 64)
  }

  lemma {:induction false} ShiftIsArm(v: U64, t: ShiftType, amount: nat, is64: bool)
    requires amount < Width(is64)
    ensures ShiftOp(v, t, amount, is64)[..Width(is64)] == ShiftReg(v[..Width(is64)], t, amount)
  {
    if is64 {
      assert v[..64] == v;
    } else {
      assert Low32(v)[..32] == v[..32];
      ShiftLow(v, t, amount);
    }
  }

  lemma {:induction false} ShiftLow(v: U64, t: ShiftType, n: nat)
    requires n < 32
    ensures ShiftOp(v, t, n, false)[..32] == ShiftReg(v[..32], t, n)
  {
    var x := v[..32];
    assert Low32(v)[..32] == x;
    var r := ShiftOp(v, t, n, false);
    match t
    case LSL => assert r[..32] == Shl(x, n);
    case LSR => assert r[..32] == Shr(x, n);
    case ASR => assert r[..32] == Asr(x, n);
    case ROR => assert r[..32] == Ror(x, n);
  }

  /** pd_extend_reg */
  function ExtendOp(v: U64, option: nat, shift: nat): U64
    requires option < 8 && shift < 64
  {
    var len := ExtendLen(option);
    var out := Zext(v[..len], 64);
    Shl(if option >= 4 then Sext(out[..len], 64) else out, shift)
  }

  lemma {:induction false} ExtendLens(option: nat)
    requires option < 8
    ensures ExtendLen(option) in {8, 16, 32, 64}
  {
  }

  lemma {:induction false} ExtendBit(v: U64, option: nat, shift: nat, w: nat, i: nat)
    requires option < 8 && shift <= 4 && (w == 32 || w == 64) && i < w
    ensures ExtendReg(v, option, shift, w)[i]
            == var len := ExtendLen(option);
               if i < shift then false else if i - shift < len then v[i - shift] else option >= 4 && v[len - 1]
  {
    hide ExtendLen;
    ExtendLens(option);
    var len := ExtendLen(option);
    var nbits := Min(len, w - shift);
    var field := Ones(0, shift) + v[..nbits];
    assert |field| == shift + nbits && field[|field| - 1] == v[nbits - 1];
    if i < shift {
      assert !field[i];
    } else if i < |field| {
      assert field[i] == v[i - shift];
    } else {
      assert nbits == len;
    }
  }

  lemma {:induction false} ExtendOpBit(v: U64, option: nat, shift: nat, i: nat)
    requires option < 8 && shift <= 4 && i < 64
    ensures ExtendOp(v, option, shift)[i]
            == var len := ExtendLen(option);
               if i < shift then false else if i - shift < len then v[i - shift] else option >= 4 && v[len - 1]
  {
  }

  lemma {:induction false} ExtendIsArm(v: U64, option: nat, shift: nat, w: nat)
    requires option < 8 && shift <= 4 && (w == 32 || w == 64)
    ensures ExtendOp(v, option, shift)[..w] == ExtendReg(v, option, shift, w)
  {
    hide ExtendOp, ExtendReg, ExtendLen;
    forall i | 0 <= i < w ensures ExtendOp(v, option, shift)[i] == ExtendReg(v, option, shift, w)[i] {
      ExtendBit(v, option, shift, w, i);
      ExtendOpBit(v, option, shift, i);
    }
  }

  // ------------------------------------------------------------ bitfield aliases

  lemma {:induction false} HighBitIs(v: nat, k: nat)
    requires Pow2(k) <= v < Pow2(k + 1)
    ensures HighestSetBit(v) == k
  {
    if k > 0 { HighBitIs(v / 2, k - 1); }
  }

  predicate WidthOk(w: nat) { w == 32 || w == 64 }

  /** The masks of a bitfield move: one element, as wide as the register. */
  lemma {:induction false} FieldMasks(w: nat, imms: nat, immr: nat)
    requires WidthOk(w) && imms < w && immr < w
    ensures DecodeBitMasks(w == 64, imms, immr, false, w)
            == Some(Masks(Ror(Ones(imms + 1, w), immr), Ones((imms - immr) % w + 1, w)))
  {
    hide HighestSetBit, Replicate, Ror, Ones;
    Pow6();
    HighBitIs(MaskKey(w == 64, imms), if w == 64 then 6 else 5);
    hide Pow2;
    SmallMod(imms, w);
    SmallMod(immr, w);
    OneElement(Ror(Ones(imms + 1, w), immr));
    OneElement(Ones((imms - immr) % w + 1, w));
  }

  lemma {:induction false} SmallMod(a: nat, w: nat)
    requires a < w
    ensures a % w == a
  {
  }

  lemma {:induction false} OneElement(x: Word)
    requires |x| > 0
    ensures Replicate(x, |x|) == x
  {
  }

  function FieldMove(src: Word, immr: nat, imms: nat, signed: bool): Word
    requires WidthOk(|src|) && imms < |src| && immr < |src|
  {
    BitfieldMove(src, immr, imms, Masks(Ror(Ones(imms + 1, |src|), immr), Ones((imms - immr) % |src| + 1, |src|)), signed)
  }

  lemma {:induction false} Wrap(d: int, w: int)
    requires w > 0 && -w <= d < w
    ensures d % w == if d < 0 then d + w else d
  {
  }

  /** LSR, LSL, UBFX and UBFIZ are UBFM. */
  lemma {:induction false} UnsignedAliases(src: Word, immr: nat, imms: nat)
    requires WidthOk(|src|) && imms < |src| && immr < |src|
    ensures var w, r := |src|, FieldMove(src, immr, imms, false);
            && (imms == w - 1 ==> r == Shr(src, immr))
            && (immr == imms + 1 ==> r == Shl(src, w - 1 - imms))
            && (imms >= immr ==> r == And(Shr(src, immr), Ones(imms - immr + 1, w)))
            && (imms < immr ==> r == Shl(And(src, Ones(imms + 1, w)), w - immr))
  {
    Wrap(imms - immr, |src|);
  }

  lemma {:induction false} AliasLsr(src: Word, immr: nat)
    requires WidthOk(|src|) && immr < |src|
    ensures FieldMove(src, immr, |src| - 1, false) == Shr(src, immr)
  {
    hide FieldMove;
    UnsignedAliases(src, immr, |src| - 1);
  }

  lemma {:induction false} AliasLsl(src: Word, imms: nat)
    requires WidthOk(|src|) && imms + 1 < |src|
    ensures FieldMove(src, imms + 1, imms, false) == Shl(src, |src| - 1 - imms)
  {
    hide FieldMove;
    UnsignedAliases(src, imms + 1, imms);
  }

  lemma {:induction false} AliasUbfx(src: Word, immr: nat, imms: nat)
    requires WidthOk(|src|) && immr <= imms < |src|
    ensures FieldMove(src, immr, imms, false) == And(Shr(src, immr), Ones(imms - immr + 1, |src|))
  {
    hide FieldMove;
    UnsignedAliases(src, immr, imms);
  }

  lemma {:induction false} AliasUbfiz(src: Word, immr: nat, imms: nat)
    requires WidthOk(|src|) && imms < immr < |src|
    ensures FieldMove(src, immr, imms, false) == Shl(And(src, Ones(imms + 1, |src|)), |src| - immr)
  {
    hide FieldMove;
    UnsignedAliases(src, immr, imms);
  }

  lemma {:induction false} SignedBit(src: Word, immr: nat, imms: nat, i: nat)
    requires WidthOk(|src|) && immr <= imms < |src| && i < |src|
    ensures |FieldMove(src, immr, imms, true)| == |src|
    ensures FieldMove(src, immr, imms, true)[i] == src[if i + immr <= imms then i + immr else imms]
  {
    Wrap(imms - immr, |src|);
  }

  /** ASR and SBFX are SBFM. */
  lemma {:induction false} SignedAliases(src: Word, immr: nat, imms: nat)
    requires WidthOk(|src|) && immr <= imms < |src|
    ensures var w, r := |src|, FieldMove(src, immr, imms, true);
            && (imms == w - 1 ==> r == Asr(src, immr))
            && r == Asr(Shl(src, w - 1 - imms), w - 1 - imms + immr)
  {
    hide FieldMove;
    var w, r := |src|, FieldMove(src, immr, imms, true);
    SignedBit(src, immr, imms, 0);
    var sh := Shl(src, w - 1 - imms);
    forall i | 0 <= i < w
      ensures r[i] == Asr(sh, w - 1 - imms + immr)[i] && (imms == w - 1 ==> r[i] == Asr(src, immr)[i])
    {
      SignedBit(src, immr, imms, i);
    }
  }

  lemma {:induction false} AliasAsr(src: Word, immr: nat)
    requires WidthOk(|src|) && immr < |src|
    ensures FieldMove(src, immr, |src| - 1, true) == Asr(src, immr)
  {
    hide FieldMove;
    SignedAliases(src, immr, |src| - 1);
  }

  lemma {:induction false} AliasSbfx(src: Word, immr: nat, imms: nat)
    requires WidthOk(|src|) && immr <= imms < |src|
    ensures FieldMove(src, immr, imms, true) == Asr(Shl(src, |src| - 1 - imms), |src| - 1 - imms + immr)
  {
    hide FieldMove;
    SignedAliases(src, immr, imms);
  }

  lemma {:induction false} ExtractIs(hi: Word, lo: Word, lsb: nat)
    requires |hi| == |lo| && 0 < lsb < |hi|
    ensures Extract(hi, lo, lsb) == Or(Shl(hi, |hi| - lsb), Shr(lo, lsb))
    ensures Extract(hi, lo, 0) == lo
  {
  }

  // ------------------------------------------------------------ logical immediates

  /** The reserved encoding: an element of all ones. */
  predicate AllOnes(n: bool, imms: nat)
    requires imms < 64
  {
    var len := HighestSetBit(MaskKey(n, imms));
    len >= 1 && imms % Pow2(len) == Pow2(len) - 1
  }

  lemma {:induction false} ElementSize(n: bool, imms: nat)
    requires imms < 64
    ensures var len := HighestSetBit(MaskKey(n, imms));
            len <= 6 && (len >= 1 ==> Pow2(len) in {2, 4, 8, 16, 32, 64})
  {
    Pow6();
    var v := MaskKey(n, imms);
    if v >= 64 { HighBitIs(v, 6); } else if v >= 32 { HighBitIs(v, 5); } else if v >= 16 { HighBitIs(v, 4); }
    else if v >= 8 { HighBitIs(v, 3); } else if v >= 4 { HighBitIs(v, 2); } else if v >= 2 { HighBitIs(v, 1); }
    else if v == 1 { HighBitIs(v, 0); }
  }

  /** pd_bitmasks: the mask of a logical immediate, or false. */
  method BitMasks(n: bool, imms: nat, immr: nat, is64: bool) returns (ok: bool, wmask: U64)
    requires imms < 64 && immr < 64
    ensures ok <==> DecodeBitMasks(n, imms, immr, false, Width(is64)).Some?
    ensures ok ==> wmask == Zext(DecodeBitMasks(n, imms, immr, false, Width(is64)).value.wmask, 64)
  {
    hide HighestSetBit, Pow2, Ror, Replicate, Zext, DecodeBitMasks, Ones, Low32;
    wmask := Ones(0, 64);
    ElementSize(n, imms);
    MasksAre(n, imms, immr, Width(is64));
    var key := MaskKey(n, imms);
    if key == 0 { return false, wmask; }
    var len := HighestSetBit(key);
    if len < 1 { return false, wmask; }
    var esize := Pow2(len);
    if esize > Width(is64) { return false, wmask; }
    wmask := Mask(imms % esize, immr % esize, esize, is64);
    ok := true;
  }

  /** The mask of an element of `s + 1` ones, rotated by `r`. */
  method Mask(s: nat, r: nat, esize: nat, is64: bool) returns (wmask: U64)
    requires s < esize && r < esize && esize in {2, 4, 8, 16, 32, 64} && esize <= Width(is64)
    ensures wmask == Zext(Replicate(Ror(Ones(s + 1, esize), r), Width(is64)), 64)
  {
    hide Ror, Replicate, Zext, Ones, Low32;
    var w := Element(s, r, esize);
    var wm := Repeat(w, esize);
    wmask := if is64 then wm else Low32(wm);
    RepeatIs(wm, w, Ror(Ones(s + 1, esize), r), is64);
  }

  lemma {:induction false} MasksAre(n: bool, imms: nat, immr: nat, w: nat)
    requires imms < 64 && immr < 64
    ensures var len, m := HighestSetBit(MaskKey(n, imms)), DecodeBitMasks(n, imms, immr, false, w);
            && (m.Some? <==> len >= 1 && w >= Pow2(len))
            && (m.Some? ==> m.value.wmask == Replicate(Ror(Ones(imms % Pow2(len) + 1, Pow2(len)), immr % Pow2(len)), w))
  {
    hide HighestSetBit, Pow2, Ror, Replicate, Ones;
  }

  /** The rotated element of a mask, in the low bits. */
  method Element(s: nat, r: nat, esize: nat) returns (w: U64)
    requires s < esize && r < esize && esize <= 64
    ensures w[..esize] == Ror(Ones(s + 1, esize), r) && forall i :: esize <= i < 64 ==> !w[i]
  {
    var emask := Ones(esize, 64);
    var welem := And(Ones(s + 1, 64), emask);
    w := if r != 0 then And(Or(Shr(welem, r), Shl(welem, esize - r)), emask) else welem;
    RotatedElement(s, r, esize, w);
  }

  lemma {:induction false} RotatedElement(s: nat, r: nat, esize: nat, w: U64)
    requires s < esize && r < esize && esize <= 64
    requires var welem := And(Ones(s + 1, 64), Ones(esize, 64));
             w == if r != 0 then And(Or(Shr(welem, r), Shl(welem, esize - r)), Ones(esize, 64)) else welem
    ensures w[..esize] == Ror(Ones(s + 1, esize), r)
    ensures forall i :: esize <= i < 64 ==> !w[i]
  {
  }

  /** The element, again and again. */
  method Repeat(w: U64, esize: nat) returns (wm: U64)
    requires esize in {2, 4, 8, 16, 32, 64} && forall i :: esize <= i < 64 ==> !w[i]
    ensures forall j :: 0 <= j < 64 ==> wm[j] == w[j % esize]
  {
    wm := Ones(0, 64);
    var i := 0;
    while i < 64
      invariant 0 <= i <= 64 && i % esize == 0
      invariant forall j :: 0 <= j < 64 ==> wm[j] == (j < i && w[j % esize])
      decreases 64 - i
    {
      StepMod(i, esize);
      wm := Or(wm, Shl(w, i));
      i := i + esize;
    }
  }

  lemma {:induction false} StepMod(i: nat, e: nat)
    requires e in {2, 4, 8, 16, 32, 64} && i % e == 0 && i < 64
    ensures (i + e) % e == 0 && i + e <= 64
    ensures forall j :: i <= j < i + e ==> j % e == j - i
  {
    Whole(i, e);
    Distribute(e, i / e + 1, i / e);
    ModUnique(i + e, e, i / e + 1, 0);
    forall j | i <= j < i + e ensures j % e == j - i { ModUnique(j, e, i / e, j - i); }
  }

  lemma {:induction false} Whole(i: nat, e: nat)
    requires e in {2, 4, 8, 16, 32, 64} && i % e == 0 && i < 64
    ensures i == e * (i / e) && i + e <= 64
  {
  }

  lemma {:induction false} RepeatIs(wm: U64, w: U64, elem: Word, is64: bool)
    requires 0 < |elem| <= Width(is64) && w[..|elem|] == elem && forall j :: 0 <= j < 64 ==> wm[j] == w[j % |elem|]
    ensures Cast(wm, is64) == Zext(Replicate(elem, Width(is64)), 64)
  {
    forall j | 0 <= j < 64 ensures wm[j] == elem[j % |elem|] {
      assert w[j % |elem|] == w[..|elem|][j % |elem|];
    }
  }

  /** The one encoding the architecture reserves is accepted, as all ones. */
  lemma {:induction false} ReservedIsAccepted(n: bool, imms: nat, immr: nat, w: nat)
    requires imms < 64 && immr < 64 && WidthOk(w) && DecodeBitMasks(n, imms, immr, false, w).Some?
    ensures DecodeBitMasks(n, imms, immr, true, w).None? <==> AllOnes(n, imms)
    ensures AllOnes(n, imms) ==> DecodeBitMasks(n, imms, immr, false, w).value.wmask == Ones(w, w)
    ensures !AllOnes(n, imms) ==> DecodeBitMasks(n, imms, immr, true, w) == DecodeBitMasks(n, imms, immr, false, w)
  {
  }
}
