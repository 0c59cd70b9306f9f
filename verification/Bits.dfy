/**
 Machine words as bits, the least significant first, and the numbers they stand
 for.
 */
module Bits {
  type Word = seq<bool>

  const P32: nat := 0x1_0000_0000
  const P63: nat := 0x8000_0000_0000_0000
  const P64: nat := 0x1_0000_0000_0000_0000

  function Pow2(n: nat): (p: nat)
    ensures p > 0
  {
    if n == 0 then 1 else 2 * Pow2(n - 1)
  }

  function Bit(b: bool): nat { if b then 1 else 0 }

  function UInt(x: Word): nat { if x == [] then 0 else Bit(x[0]) + 2 * UInt(x[1..]) }

  function SInt(x: Word): int
    requires |x| > 0
  {
    if x[|x| - 1] then UInt(x) - Pow2(|x|) else UInt(x)
  }

  /** The low `w` bits of a number. */
  function FromInt(v: int, w: nat): (x: Word)
    ensures |x| == w
    decreases w
  {
    if w == 0 then [] else [v % 2 == 1] + FromInt(v / 2, w - 1)
  }

  // ------------------------------------------------------------ bitwise

  function Not(x: Word): (r: Word)
    ensures |r| == |x| && forall i :: 0 <= i < |x| ==> r[i] == !x[i]
  {
    seq(|x|, i requires 0 <= i < |x| => !x[i])
  }

  function And(x: Word, y: Word): (r: Word)
    requires |x| == |y|
    ensures |r| == |x| && forall i :: 0 <= i < |x| ==> r[i] == (x[i] && y[i])
  {
    seq(|x|, i requires 0 <= i < |x| => x[i] && y[i])
  }

  function Or(x: Word, y: Word): (r: Word)
    requires |x| == |y|
    ensures |r| == |x| && forall i :: 0 <= i < |x| ==> r[i] == (x[i] || y[i])
  {
    seq(|x|, i requires 0 <= i < |x| => x[i] || y[i])
  }

  function Xor(x: Word, y: Word): (r: Word)
    requires |x| == |y|
    ensures |r| == |x| && forall i :: 0 <= i < |x| ==> r[i] == (x[i] != y[i])
  {
    seq(|x|, i requires 0 <= i < |x| => x[i] != y[i])
  }

  function Shl(x: Word, n: nat): (r: Word)
    ensures |r| == |x| && forall i :: 0 <= i < |x| ==> r[i] == (i >= n && x[i - n])
  {
    seq(|x|, i requires 0 <= i < |x| => i >= n && x[i - n])
  }

  function Shr(x: Word, n: nat): (r: Word)
    ensures |r| == |x| && forall i :: 0 <= i < |x| ==> r[i] == (i + n < |x| && x[i + n])
  {
    seq(|x|, i requires 0 <= i < |x| => i + n < |x| && x[i + n])
  }

  function Asr(x: Word, n: nat): (r: Word)
    requires |x| > 0
    ensures |r| == |x| && forall i :: 0 <= i < |x| ==> r[i] == x[if i + n < |x| then i + n else |x| - 1]
  {
    seq(|x|, i requires 0 <= i < |x| => x[if i + n < |x| then i + n else |x| - 1])
  }

  function Ror(x: Word, n: nat): (r: Word)
    requires n < |x|
    ensures |r| == |x| && forall i :: 0 <= i < |x| ==> r[i] == x[if i + n < |x| then i + n else i + n - |x|]
  {
    x[n..] + x[..n]
  }

  /** `n` ones in a word of `w` bits. */
  function Ones(n: nat, w: nat): (r: Word)
    ensures |r| == w && forall i :: 0 <= i < w ==> r[i] == (i < n)
  {
    seq(w, i => i < n)
  }

  function Zext(x: Word, w: nat): (r: Word)
    requires |x| <= w
    ensures |r| == w && forall i :: 0 <= i < w ==> r[i] == (i < |x| && x[i])
  {
    seq(w, i requires 0 <= i => i < |x| && x[i])
  }

  function Sext(x: Word, w: nat): (r: Word)
    requires 0 < |x| <= w
    ensures |r| == w && forall i :: 0 <= i < w ==> r[i] == x[if i < |x| then i else |x| - 1]
  {
    seq(w, i requires 0 <= i => x[if i < |x| then i else |x| - 1])
  }

  predicate IsZero(x: Word) { forall i :: 0 <= i < |x| ==> !x[i] }

  // ------------------------------------------------------------ numbers

  lemma {:induction false} UIntBound(x: Word)
    ensures UInt(x) < Pow2(|x|)
  {
    if x != [] { UIntBound(x[1..]); }
  }

  lemma {:induction false} UIntConcat(a: Word, b: Word)
    ensures UInt(a + b) == UInt(a) + Pow2(|a|) * UInt(b)
  {
    if a == [] {
      assert a + b == b;
    } else {
      assert (a + b)[1..] == a[1..] + b;
      UIntConcat(a[1..], b);
      Double(Pow2(|a| - 1), UInt(b));
    }
  }

  lemma {:induction false} Double(p: int, n: int)
    ensures 2 * (p * n) == (2 * p) * n
  {
  }

  /** The top bit is the upper half. */
  lemma {:induction false} TopBit(x: Word)
    requires |x| > 0
    ensures UInt(x) == UInt(x[..|x| - 1]) + if x[|x| - 1] then Pow2(|x| - 1) else 0
    ensures UInt(x[..|x| - 1]) < Pow2(|x| - 1)
  {
    var low, top := x[..|x| - 1], [x[|x| - 1]];
    assert x == low + top;
    UIntConcat(low, top);
    assert top[1..] == [];
    UIntBound(low);
  }

  lemma {:induction false} FromIntValue(v: int, w: nat)
    ensures UInt(FromInt(v, w)) == v % Pow2(w)
    decreases w
  {
    if w > 0 {
      FromIntValue(v / 2, w - 1);
      assert FromInt(v, w)[1..] == FromInt(v / 2, w - 1);
      ModHalf(v, Pow2(w - 1));
    }
  }

  lemma {:induction false} ModHalf(v: int, p: nat)
    requires p > 0
    ensures v % (2 * p) == v % 2 + 2 * ((v / 2) % p)
  {
    var q, r := (v / 2) / p, (v / 2) % p;
    assert v / 2 == p * q + r;
    assert v == 2 * (v / 2) + v % 2;
    assert v == (2 * p) * q + (2 * r + v % 2) by { Double(p, q); }
    ModUnique(v, 2 * p, q, 2 * r + v % 2);
  }

  lemma {:induction false} ModUnique(v: int, p: nat, q: int, r: int)
    requires p > 0 && v == p * q + r && 0 <= r < p
    ensures v % p == r && v / p == q
  {
    var q', r' := v / p, v % p;
    assert v == p * q' + r';
    Distribute(p, q, q');
    if q > q' { AtLeast(p, q - q'); }
    if q < q' { AtLeast(p, q' - q); Distribute(p, q', q); }
  }

  lemma {:induction false} Distribute(p: int, a: int, b: int)
    ensures p * a - p * b == p * (a - b)
  {
  }

  lemma {:induction false} AtLeast(p: nat, k: nat)
    requires k >= 1
    ensures p * k >= p
  {
  }

  lemma {:induction false} UIntInjective(x: Word, y: Word)
    requires |x| == |y| && UInt(x) == UInt(y)
    ensures x == y
  {
    if x != [] {
      UIntInjective(x[1..], y[1..]);
      assert x == [x[0]] + x[1..] && y == [y[0]] + y[1..];
    }
  }

  lemma {:induction false} NotValue(x: Word)
    ensures UInt(Not(x)) == Pow2(|x|) - 1 - UInt(x)
  {
    if x != [] {
      assert Not(x)[1..] == Not(x[1..]);
      NotValue(x[1..]);
    }
  }

  lemma {:induction false} ZeroValue(x: Word)
    ensures UInt(x) == 0 <==> IsZero(x)
  {
    if x != [] {
      ZeroValue(x[1..]);
      if IsZero(x) {
        assert IsZero(x[1..]) by { assert forall i :: 0 <= i < |x[1..]| ==> x[1..][i] == x[i + 1]; }
      } else if !x[0] {
        var i :| 0 <= i < |x| && x[i];
        assert x[1..][i - 1];
      }
    }
  }

  lemma {:induction false} Powers()
    ensures Pow2(0) == 1 && Pow2(31) == 0x8000_0000 && Pow2(32) == P32 && Pow2(63) == P63 && Pow2(64) == P64
  {
    assert Pow2(8) == 0x100 && Pow2(16) == 0x1_0000 && Pow2(24) == 0x100_0000 && Pow2(31) == 0x8000_0000;
    assert Pow2(40) == 0x100_0000_0000 && Pow2(48) == 0x1_0000_0000_0000 && Pow2(56) == 0x100_0000_0000_0000;
    assert Pow2(63) == P63;
  }

  lemma {:induction false} Pow6()
    ensures Pow2(0) == 1 && Pow2(1) == 2 && Pow2(2) == 4 && Pow2(3) == 8 && Pow2(4) == 16 && Pow2(5) == 32 && Pow2(6) == 64
    ensures Pow2(7) == 128
  {
  }

  /** A word and its low half. */
  lemma {:induction false} LowValue(x: Word, n: nat)
    requires n <= |x|
    ensures UInt(x[..n]) == UInt(x) % Pow2(n)
  {
    assert x == x[..n] + x[n..];
    UIntConcat(x[..n], x[n..]);
    UIntBound(x[..n]);
    ModUnique(UInt(x), Pow2(n), UInt(x[n..]), UInt(x[..n]));
  }

  /** Only a number modulo the width counts. */
  lemma {:induction false} FromIntSame(a: int, b: int, w: nat)
    requires a % Pow2(w) == b % Pow2(w)
    ensures FromInt(a, w) == FromInt(b, w)
  {
    FromIntValue(a, w);
    FromIntValue(b, w);
    UIntInjective(FromInt(a, w), FromInt(b, w));
  }

  lemma {:induction false} FromIntLow(v: int, w: nat, n: nat)
    requires n <= w
    ensures FromInt(v, w)[..n] == FromInt(v, n)
    decreases n
  {
    if n > 0 {
      FromIntLow(v / 2, w - 1, n - 1);
      assert FromInt(v, w)[..n] == [v % 2 == 1] + FromInt(v / 2, w - 1)[..n - 1];
    }
  }
}
