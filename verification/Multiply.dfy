/**
  The simulated multiplier: a 32 x 32 to 64 bit shift-and-add product with its
  two result words.  Machine words are modelled as integers in the range of the
  C type, with every wrap-around written out.
 */
module Multiply {
  import opened Common

  const Two31: int := 0x8000_0000
  const Two32: int := 0x1_0000_0000
  const Two64: int := 0x1_0000_0000_0000_0000

  type UInt32 = x: int | 0 <= x < 0x1_0000_0000

  // Conversions between the signed and the unsigned reading of a word.
  function ToUnsigned(x: Int32): UInt32 { if x < 0 then x + Two32 else x }
  function ToSigned(x: UInt32): Int32 { if x >= Two31 then x - Two32 else x }

  // 32-bit operations that can wrap around.
  function Wrap(x: int): UInt32 { x % Two32 }
  function Negate(x: Int32): Int32 { if x == -Two31 then x else -x }

  // The 64-bit value held in two words, read as unsigned and as signed.
  function Pair(hi: UInt32, lo: UInt32): int { hi * Two32 + lo }
  function Unsigned64(hi: Int32, lo: Int32): int { Pair(ToUnsigned(hi), ToUnsigned(lo)) }
  function Signed64(hi: Int32, lo: Int32): int { hi * Two32 + ToUnsigned(lo) }

  // Bit i and the bits from i on, of the word that reads a as unsigned.
  function Pow2(i: nat): (p: nat)
    ensures p >= 1
  {
    if i == 0 then 1 else 2 * Pow2(i - 1)
  }

  // The 32-bit word `a` shifted right arithmetically: for a negative word the
  // bits that come in are ones, so that floor division is what >> computes.
  function ShiftRight(a: Int32): Int32 { a / 2 }

  predicate Odd(a: Int32) { a % 2 == 1 }

  // (a & 0xfffffffe) == 0
  predicate OnlyBitZero(a: Int32) { a == 0 || a == 1 }

  // The low `left` bits of the word a, as an unsigned number.
  function LowBits(a: Int32, left: nat): nat
    decreases left
  {
    if left == 0 then 0 else (if Odd(a) then 1 else 0) + 2 * LowBits(ShiftRight(a), left - 1)
  }

  lemma {:induction false} LowBitsIs(a: Int32, left: nat)
    ensures LowBits(a, left) == a % Pow2(left)
    decreases left
  {
    if left > 0 {
      LowBitsIs(ShiftRight(a), left - 1);
      var p := Pow2(left - 1);
      HalfMod(a, p);
    }
  }

  lemma HalfMod(a: int, p: nat)
    requires p >= 1
    ensures a % (2 * p) == a % 2 + 2 * ((a / 2) % p)
  {
    var q, r := (a / 2) / p, (a / 2) % p;
    assert a / 2 == q * p + r;
    assert a == (2 * p) * q + (a % 2 + 2 * r);
    ModUnique(a, 2 * p, q, a % 2 + 2 * r);
  }

  lemma ModUnique(a: int, m: int, q: int, r: int)
    requires 0 <= r < m && a == m * q + r
    ensures a % m == r
  {
    var q', r' := a / m, a % m;
    assert a == m * q' + r';
    assert m * (q - q') == r' - r;
    assert q - q' >= 1 ==> m * (q - q') >= m;
    assert q - q' <= -1 ==> m * (q - q') <= -m;
  }

  lemma WholeWord(a: Int32)
    ensures LowBits(a, 32) == ToUnsigned(a)
  {
    LowBitsIs(a, 32);
    Pow2At32();
    ModUnique(a, Two32, if a < 0 then -1 else 0, ToUnsigned(a));
  }

  lemma Pow2At32()
    ensures Pow2(32) == Two32
  {
    assert Pow2(8) == 0x100;
    assert Pow2(16) == 0x1_0000;
    assert Pow2(24) == 0x100_0000;
  }

  lemma {:induction false} Pow2Monotone(i: nat, j: nat)
    requires i <= j
    ensures Pow2(i) <= Pow2(j)
    decreases j - i
  {
    if i < j { Pow2Monotone(i, j - 1); }
  }

  // A word with no set bits adds nothing.
  lemma {:induction false} NoBits(left: nat)
    ensures LowBits(0, left) == 0
    decreases left
  {
    if left > 0 { NoBits(left - 1); }
  }

  // The addition with its carry: exact as long as the sum fits in 64 bits.
  lemma AddExact(hi: UInt32, lo: UInt32, bHi: UInt32, bLo: UInt32)
    requires Pair(hi, lo) + Pair(bHi, bLo) < Two64
    ensures var lo' := Wrap(lo + bLo);
            var carried := if lo' < bLo then Wrap(hi + 1) else hi;
            Pair(Wrap(carried + bHi), lo') == Pair(hi, lo) + Pair(bHi, bLo)
  {
    var lo' := Wrap(lo + bLo);
    var c := if lo' < bLo then 1 else 0;
    assert lo + bLo == c * Two32 + lo' by {
      if lo + bLo < Two32 { ModUnique(lo + bLo, Two32, 0, lo + bLo); }
      else { ModUnique(lo + bLo, Two32, 1, lo + bLo - Two32); }
    }
    assert Pair(hi, lo) + Pair(bHi, bLo) == (hi + c + bHi) * Two32 + lo';
    assert hi + c + bHi < Two32;
  }

  // The doubling of the two-word multiplicand.
  lemma DoubleExact(bHi: UInt32, bLo: UInt32)
    requires 2 * Pair(bHi, bLo) < Two64
    ensures var top := if bLo >= Two31 then 1 else 0;
            Wrap(2 * bHi) + top < Two32 && Pair(Wrap(2 * bHi) + top, Wrap(2 * bLo)) == 2 * Pair(bHi, bLo)
  {
    assert 2 * bHi < Two32;
    if bLo >= Two31 { ModUnique(2 * bLo, Two32, 1, 2 * bLo - Two32); }
  }

  // Two's complement of the double word.
  lemma ComplementExact(hi: UInt32, lo: UInt32)
    requires 0 < Pair(hi, lo)
    ensures var lo' := Wrap((Two32 - 1 - lo) + 1);
            var hi' := if lo' == 0 then Wrap((Two32 - 1 - hi) + 1) else Two32 - 1 - hi;
            Pair(hi', lo') == Two64 - Pair(hi, lo)
  {
  }

  lemma MulMonotone(x: nat, y: nat, m: nat, n: nat)
    requires x <= m && y <= n
    ensures 0 <= x * y <= m * n
  {
    assert x * y <= m * y;
    assert m * y <= m * n;
  }

  // Multiplication by repeated addition, which the loop invariants speak of.
  function Times(x: nat, y: nat): nat {
    if x == 0 then 0 else y + Times(x - 1, y)
  }

  lemma {:induction false} TimesIsProduct(x: nat, y: nat)
    ensures Times(x, y) == x * y
    decreases x
  {
    if x > 0 { TimesIsProduct(x - 1, y); }
  }

  // One turn of the loop, on numbers: the part of the product already added up
  // plus what the remaining bits contribute is always the whole product.
  ghost predicate Partial(sum: int, bits: nat, shifted: nat, product: int) {
    sum + Times(bits, shifted) == product
  }

  lemma TurnKeeps(sum: int, odd: bool, rest: nat, shifted: nat, product: int)
    requires Partial(sum, (if odd then 1 else 0) + 2 * rest, shifted, product)
    ensures Partial(if odd then sum + shifted else sum, rest, 2 * shifted, product)
    ensures odd ==> sum + shifted <= product
  {
    TimesIsProduct((if odd then 1 else 0) + 2 * rest, shifted);
    TimesIsProduct(rest, 2 * shifted);
    assert rest * (2 * shifted) == (2 * rest) * shifted;
    assert (1 + 2 * rest) * shifted == shifted + (2 * rest) * shifted;
  }

  // The multiplicand shifted left i times, before it can leave 64 bits.
  ghost predicate Shifted(shifted: nat, b: UInt32, i: nat) {
    shifted == Times(Pow2(i), b)
  }

  lemma Regroup(x: nat, y: nat)
    ensures (2 * x) * y == 2 * (x * y)
  {
  }

  lemma ShiftedFits(shifted: nat, b: UInt32, i: nat)
    requires i < 32 && Shifted(shifted, b, i)
    ensures Shifted(2 * shifted, b, i + 1) && 2 * shifted < Two64
  {
    Pow2At32();
    Pow2Monotone(i + 1, 32);
    TimesIsProduct(Pow2(i), b);
    TimesIsProduct(Pow2(i + 1), b);
    MulMonotone(Pow2(i + 1), b, Two32, Two32 - 1);
    Regroup(Pow2(i), b);
  }

  method AddIn(hi: UInt32, lo: UInt32, bHi: UInt32, bLo: UInt32) returns (hi': UInt32, lo': UInt32)
    requires Pair(hi, lo) + Pair(bHi, bLo) < Two64
    ensures Pair(hi', lo') == Pair(hi, lo) + Pair(bHi, bLo)
  {
    AddExact(hi, lo, bHi, bLo);
    hi' := hi;
    lo' := Wrap(lo + bLo);
    if lo' < bLo { hi' := Wrap(hi' + 1); }
    hi' := Wrap(hi' + bHi);
  }

  method Double(bHi: UInt32, bLo: UInt32) returns (bHi': UInt32, bLo': UInt32)
    requires 2 * Pair(bHi, bLo) < Two64
    ensures Pair(bHi', bLo') == 2 * Pair(bHi, bLo)
  {
    DoubleExact(bHi, bLo);
    bHi' := Wrap(2 * bHi);
    if bLo >= Two31 { bHi' := bHi' + 1; }
    bLo' := Wrap(2 * bLo);
  }

  lemma LoopStarts(multiplier: Int32, b: Int32)
    ensures Shifted(Pair(0, ToUnsigned(b)), ToUnsigned(b), 0)
    ensures Partial(0, LowBits(multiplier, 32), Pair(0, ToUnsigned(b)), ToUnsigned(multiplier) * ToUnsigned(b))
    ensures ToUnsigned(multiplier) * ToUnsigned(b) < Two64
  {
    WholeWord(multiplier);
    TimesIsProduct(ToUnsigned(multiplier), ToUnsigned(b));
    MulMonotone(ToUnsigned(multiplier), ToUnsigned(b), Two32 - 1, Two32 - 1);
    assert Times(1, ToUnsigned(b)) == ToUnsigned(b) + Times(0, ToUnsigned(b));
  }

  // The loop: the product of the unsigned readings, in two words.
  method MultiplyUnsigned(multiplier: Int32, b: Int32) returns (hi: UInt32, lo: UInt32)
    ensures Pair(hi, lo) == ToUnsigned(multiplier) * ToUnsigned(b)
  {
    var a := multiplier;
    var bLo: UInt32, bHi: UInt32 := ToUnsigned(b), 0;
    ghost var product := ToUnsigned(multiplier) * ToUnsigned(b);
    lo, hi := 0, 0;
    LoopStarts(multiplier, b);
    var i := 0;
    while i < 32
      invariant 0 <= i <= 32
      invariant Shifted(Pair(bHi, bLo), ToUnsigned(b), i)
      invariant Partial(Pair(hi, lo), LowBits(a, 32 - i), Pair(bHi, bLo), product)
    {
      TurnKeeps(Pair(hi, lo), Odd(a), LowBits(ShiftRight(a), 32 - i - 1), Pair(bHi, bLo), product);
      if Odd(a) {
        hi, lo := AddIn(hi, lo, bHi, bLo);
        if OnlyBitZero(a) {
          NoBits(32 - i - 1);
          break;
        }
      }
      ShiftedFits(Pair(bHi, bLo), ToUnsigned(b), i);
      bHi, bLo := Double(bHi, bLo);
      a := ShiftRight(a);
      i := i + 1;
    }
  }

  // Mult: the exact 64-bit product, signed or unsigned, for all words.
  method Mult(a: Int32, b: Int32, signedArith: bool) returns (hi: Int32, lo: Int32)
    ensures signedArith ==> Signed64(hi, lo) == a * b
    ensures !signedArith ==> Unsigned64(hi, lo) == ToUnsigned(a) * ToUnsigned(b)
  {
    if a == 0 || b == 0 { return 0, 0; }
    var negative, x, y := false, a, b;
    if signedArith {
      if x < 0 { negative, x := !negative, Negate(x); }
      if y < 0 { negative, y := !negative, Negate(y); }
    }
    var h, l := MultiplyUnsigned(x, y);
    ghost var product := Pair(h, l);
    if signedArith { Magnitudes(a, b, x, y, negative); }
    if negative {
      ComplementExact(h, l);
      h, l := Two32 - 1 - h, Two32 - 1 - l;
      l := Wrap(l + 1);
      if l == 0 { h := Wrap(h + 1); }
    }
    hi, lo := ToSigned(h), ToSigned(l);
  }

  // The magnitudes multiply to the magnitude of the product, which leaves the
  // top bit of the double word free.
  lemma Magnitudes(a: Int32, b: Int32, x: Int32, y: Int32, negative: bool)
    requires a != 0 && b != 0 && x == (if a < 0 then Negate(a) else a) && y == (if b < 0 then Negate(b) else b)
    requires negative == ((a < 0) != (b < 0))
    ensures ToUnsigned(x) * ToUnsigned(y) == if negative then -(a * b) else a * b
    ensures 0 < ToUnsigned(x) * ToUnsigned(y) <= Two31 * Two31
  {
    var u: int, v: int, s: int, t: int := ToUnsigned(x), ToUnsigned(y), a, b;
    assert u == (if s < 0 then -s else s) && v == (if t < 0 then -t else t);
    MulMonotone(u, v, Two31, Two31);
  }
}
