// The 256-bit arithmetic of the interpreter (src/core/alu.rs), with the
// two's-complement meaning of its signed operations.
module Alu {
  import opened Common
  import opened Arith

  const WORD_BITS: nat := 256
  const SIGN_BIT: nat := 255
  const MAX_WORD: U256 := TWO_256 - 1

  // ---------- bits of natural numbers ----------

  function Pow2(n: nat): (r: nat)
    ensures r > 0
  {
    if n == 0 then 1 else 2 * Pow2(n - 1)
  }

  predicate Bit(x: nat, i: nat) { (x / Pow2(i)) % 2 == 1 }

  function BitLength(x: nat): nat {
    if x == 0 then 0 else 1 + BitLength(x / 2)
  }

  function BitOr(x: nat, y: nat): nat
    decreases x + y
  {
    if x == 0 && y == 0 then 0
    else 2 * BitOr(x / 2, y / 2) + (if x % 2 == 1 || y % 2 == 1 then 1 else 0)
  }

  function BitAnd(x: nat, y: nat): nat
    decreases x + y
  {
    if x == 0 && y == 0 then 0
    else 2 * BitAnd(x / 2, y / 2) + (if x % 2 == 1 && y % 2 == 1 then 1 else 0)
  }

  function BitXor(x: nat, y: nat): nat
    decreases x + y
  {
    if x == 0 && y == 0 then 0
    else 2 * BitXor(x / 2, y / 2) + (if x % 2 != y % 2 then 1 else 0)
  }

  lemma {:induction false} BitwiseBound(x: nat, y: nat, n: nat)
    requires x < Pow2(n) && y < Pow2(n)
    ensures BitOr(x, y) < Pow2(n) && BitAnd(x, y) < Pow2(n) && BitXor(x, y) < Pow2(n)
  {
    if n > 0 {
      BitwiseBound(x / 2, y / 2, n - 1);
    }
  }

  lemma {:induction false} OrZero(y: nat)
    ensures BitOr(0, y) == y && BitOr(y, 0) == y
  {
    if y > 0 {
      OrZero(y / 2);
    }
  }

  // Xor with n ones complements the low n bits.
  lemma {:induction false} XorOnes(x: nat, n: nat)
    requires x < Pow2(n)
    ensures BitXor(x, Pow2(n) - 1) == Pow2(n) - 1 - x
  {
    if n > 0 {
      XorOnes(x / 2, n - 1);
      var y := Pow2(n) - 1;
      assert y / 2 == Pow2(n - 1) - 1 && y % 2 == 1;
    }
  }

  lemma {:induction false} OrOnes(x: nat, n: nat)
    requires x < Pow2(n)
    ensures BitOr(x, Pow2(n) - 1) == Pow2(n) - 1
  {
    if n > 0 {
      OrOnes(x / 2, n - 1);
      var y := Pow2(n) - 1;
      assert y / 2 == Pow2(n - 1) - 1 && y % 2 == 1;
    }
  }

  // Or with ones from bit n up to bit m fills those bits of x.
  lemma {:induction false} OrFill(x: nat, n: nat, m: nat)
    requires n <= m && x < Pow2(m)
    ensures Pow2(n) <= Pow2(m)
    ensures BitOr(x, Pow2(m) - Pow2(n)) == x % Pow2(n) + Pow2(m) - Pow2(n)
    decreases n
  {
    if n == 0 {
      OrOnes(x, m);
    } else {
      OrFill(x / 2, n - 1, m - 1);
      ModHalf(x, Pow2(n - 1));
      var y := Pow2(m) - Pow2(n);
      assert y / 2 == Pow2(m - 1) - Pow2(n - 1) && y % 2 == 0;
    }
  }

  lemma ModHalf(x: nat, p: nat)
    requires p > 0
    ensures x % (2 * p) == 2 * ((x / 2) % p) + x % 2
  {
    var q, r := (x / 2) / p, (x / 2) % p;
    DivMod(x / 2, p);
    assert q * (2 * p) == 2 * (q * p);
    DivUnique(x, 2 * p, q, 2 * r + x % 2);
  }

  lemma {:induction false} Pow2Add(m: nat, n: nat)
    ensures Pow2(m + n) == Pow2(m) * Pow2(n)
  {
    if m > 0 {
      Pow2Add(m - 1, n);
      assert 2 * (Pow2(m - 1) * Pow2(n)) == 2 * Pow2(m - 1) * Pow2(n);
    }
  }

  lemma {:induction false} Pow2Monotone(m: nat, n: nat)
    requires m <= n
    ensures Pow2(m) <= Pow2(n)
    decreases n
  {
    if m < n {
      Pow2Monotone(m, n - 1);
    }
  }

  lemma Pow2Word()
    ensures Pow2(SIGN_BIT) == TWO_255 && Pow2(WORD_BITS) == TWO_256
  {
    assert Pow2(8) == 256;
    assert Pow2(WORD_BITS) == 2 * Pow2(SIGN_BIT);
    hide Pow2;
    var k := 8;
    Pow2Double(k, 0x100);
    Pow2Double(2 * k, 0x1_0000);
    Pow2Double(4 * k, 0x1_0000_0000);
    Pow2Double(8 * k, TWO_64);
    Pow2Double(16 * k, TWO_64 * TWO_64);
  }

  lemma Pow2Double(n: nat, v: nat)
    requires Pow2(n) == v
    ensures Pow2(2 * n) == v * v
  {
    Pow2Add(n, n);
  }

  lemma WordBits(x: U256, y: U256)
    ensures BitOr(x, y) < TWO_256 && BitAnd(x, y) < TWO_256 && BitXor(x, y) < TWO_256
  {
    Pow2Word();
    BitwiseBound(x, y, WORD_BITS);
  }

  // ---------- the operations ----------

  const TWO_512: nat :=
    0x1_00000000_00000000_00000000_00000000_00000000_00000000_00000000_00000000_00000000_00000000_00000000_00000000_00000000_00000000_00000000_00000000

  type U512 = x: int | 0 <= x < TWO_512

  function Wrap(x: int): U256 { x % TWO_256 }

  function FromBool(b: bool): U256 { if b then 1 else 0 }

  function Add(a: U256, b: U256): U256 { Wrap(a + b) }

  function Sub(a: U256, b: U256): U256 { Wrap(a - b) }

  function Mul(a: U256, b: U256): U256 { Wrap(a * b) }

  function Div(a: U256, b: U256): U256 {
    if b == 0 then 0 else QuotientBound(a, b); a / b
  }

  function Rem(a: U256, b: U256): U256 {
    if b == 0 then 0 else a % b
  }

  function Neg(a: U256): U256 {
    Xor(Sub(a, 1), MAX_WORD)
  }

  function GetSignAbs(x: U256): (bool, U256) {
    if Bit(x, SIGN_BIT) then (true, Neg(x)) else (false, x)
  }

  function SDiv(a: U256, b: U256): U256 {
    var (aSign, aAbs) := GetSignAbs(a);
    var (bSign, bAbs) := GetSignAbs(b);
    if bAbs == 0 then 0
    else
      var r := Div(aAbs, bAbs);
      if aSign != bSign then Neg(r) else r
  }

  function SMod(a: U256, b: U256): U256 {
    if b == 0 then 0 else Sub(a, Mul(b, SDiv(a, b)))
  }

  // The sum and product of two words in 512 bits, which would wrap above that.
  function Add512(a: U512, b: U512): U512 { (a + b) % TWO_512 }

  function Mul512(a: U512, b: U512): U512 {
    MulNonNeg(a, b);
    (a * b) % TWO_512
  }

  // Back to a word; None when it does not fit, which would abort.
  function Narrow(x: U512): Option<U256> {
    if x < TWO_256 then Some(x) else None
  }

  // The remainder, or None modulo zero.
  function CheckedRem(x: U512, n: U512): Option<U512> {
    if n == 0 then None else Some(x % n)
  }

  function AddMod(a: U256, b: U256, n: U256): U256 {
    RemainderNarrows(Add512(a, b), n);
    match CheckedRem(Add512(a, b), n)
    case Some(r) => Narrow(r).value
    case None => 0
  }

  function MulMod(a: U256, b: U256, n: U256): U256 {
    RemainderNarrows(Mul512(a, b), n);
    match CheckedRem(Mul512(a, b), n)
    case Some(r) => Narrow(r).value
    case None => 0
  }

  // A remainder by a word is a word, so narrowing it never aborts.
  lemma RemainderNarrows(x: U512, n: U256)
    ensures var r := CheckedRem(x, n); r.Some? ==> Narrow(r.value).Some?
  {
  }

  function Exp(a: U256, b: U256): U256
    decreases b
  {
    if b == 0 then 1 else Mul(a, Exp(a, b - 1))
  }

  function SignExtend(back: U256, x: U256): U256 {
    SignFill(8 * ((if back > 31 then 31 else back) + 1), x)
  }

  // Copies bit n - 1 of x upward when it is set; leaves x alone otherwise.
  function SignFill(n: nat, x: U256): U256
    requires 0 < n <= WORD_BITS
  {
    if Bit(x, n - 1) then Or(x, Shl(n, Sub(Shl(WORD_BITS - n, 1), 1))) else x
  }

  function Lt(a: U256, b: U256): U256 { FromBool(a < b) }

  function Gt(a: U256, b: U256): U256 { FromBool(a > b) }

  function Slt(a: U256, b: U256): U256 {
    var (aSign, aAbs) := GetSignAbs(a);
    var (bSign, bAbs) := GetSignAbs(b);
    if aSign != bSign then FromBool(aSign)
    else FromBool(if aAbs == bAbs then false else (aAbs < bAbs) != aSign)
  }

  function Sgt(a: U256, b: U256): U256 {
    var (aSign, aAbs) := GetSignAbs(a);
    var (bSign, bAbs) := GetSignAbs(b);
    if aSign != bSign then FromBool(bSign)
    else FromBool(if aAbs == bAbs then false else (aAbs > bAbs) != bSign)
  }

  function Eq(a: U256, b: U256): U256 { FromBool(a == b) }

  function IsZero(a: U256): U256 { FromBool(a == 0) }

  function And(a: U256, b: U256): U256 { WordBits(a, b); BitAnd(a, b) }

  function Or(a: U256, b: U256): U256 { WordBits(a, b); BitOr(a, b) }

  function Xor(a: U256, b: U256): U256 { WordBits(a, b); BitXor(a, b) }

  function Not(a: U256): U256 { Xor(a, MAX_WORD) }

  function ByteAt(i: U256, x: U256): U256 {
    var i := if i > 31 then 31 else i;
    Shr(248 - 8 * i, x) % 256
  }

  function Shl(s: U256, val: U256): U256 {
    if s < WORD_BITS then Wrap(val * Pow2(s)) else 0
  }

  function Shr(s: U256, val: U256): U256 {
    if s < WORD_BITS then QuotientBound(val, Pow2(s)); val / Pow2(s) else 0
  }

  function Sar(s: U256, val: U256): U256 {
    var ext := Bit(val, SIGN_BIT);
    if s > WORD_BITS then (if ext then MAX_WORD else 0)
    else
      var v := Shr(s, val);
      if ext then Or(v, Shl(WORD_BITS - s, Sub(Shl(s, 1), 1))) else v
  }

  // ---------- what the signed operations mean ----------

  // A word read as a two's-complement integer.
  function Signed(x: U256): int {
    if x >= TWO_255 then x - TWO_256 else x
  }

  function Abs(x: int): nat { if x < 0 then -x else x }

  // Division and remainder that round toward zero.
  function TruncDiv(x: int, y: int): int
    requires y != 0
  {
    var q := Abs(x) / Abs(y);
    if (x < 0) != (y < 0) then -q else q
  }

  function TruncRem(x: int, y: int): int
    requires y != 0
  {
    x - y * TruncDiv(x, y)
  }

  lemma SignBit(x: U256)
    ensures Bit(x, SIGN_BIT) <==> Signed(x) < 0
  {
    Pow2Word();
    assert x / TWO_255 == if x >= TWO_255 then 1 else 0;
  }

  lemma NegMeaning(x: U256)
    ensures Neg(x) == Wrap(-(x as int))
  {
    hide BitXor, Pow2;
    Pow2Word();
    XorOnes(Sub(x, 1), WORD_BITS);
  }

  lemma SignAbsMeaning(x: U256)
    ensures GetSignAbs(x).0 == (Signed(x) < 0)
    ensures GetSignAbs(x).1 == Abs(Signed(x))
  {
    hide Bit, Neg;
    SignBit(x);
    NegMeaning(x);
  }

  lemma SDivMeaning(a: U256, b: U256)
    ensures SDiv(a, b) == if b == 0 then 0 else Wrap(TruncDiv(Signed(a), Signed(b)))
  {
    hide GetSignAbs, Neg;
    SignAbsMeaning(a);
    SignAbsMeaning(b);
    if b != 0 {
      var (x, y) := (GetSignAbs(a).1, GetSignAbs(b).1);
      NegMeaning(Div(x, y));
    }
  }

  lemma SModMeaning(a: U256, b: U256)
    ensures SMod(a, b) == if b == 0 then 0 else Wrap(TruncRem(Signed(a), Signed(b)))
  {
    if b != 0 {
      SDivMeaning(a, b);
      var q := TruncDiv(Signed(a), Signed(b));
      ProductMod(b, SDiv(a, b), q);
      SubMod(a, Mul(b, SDiv(a, b)), Signed(b) * q);
    }
  }

  lemma CongruentWrap(x: int, y: int, k: int)
    requires x == y + k * TWO_256
    ensures Wrap(x) == Wrap(y)
  {
    DivSubMultiple(x, TWO_256, k);
  }

  lemma ProductMod(x: U256, y: U256, sy: int)
    requires y == Wrap(sy)
    ensures Mul(x, y) == Wrap(Signed(x) * sy)
  {
    var sx, j := Signed(x), sy / TWO_256;
    var i := if x >= TWO_255 then 1 else 0;
    assert sy == y + j * TWO_256;
    calc {
      x * y;
      (sx + i * TWO_256) * y;
      sx * y + (i * y) * TWO_256;
      sx * (sy - j * TWO_256) + (i * y) * TWO_256;
      { assert sx * (j * TWO_256) == (sx * j) * TWO_256; }
      sx * sy - (sx * j) * TWO_256 + (i * y) * TWO_256;
      sx * sy + (i * y - sx * j) * TWO_256;
    }
    CongruentWrap(x * y, sx * sy, i * y - sx * j);
  }

  lemma SubMod(x: U256, y: U256, sy: int)
    requires y == Wrap(sy)
    ensures Sub(x, y) == Wrap(Signed(x) - sy)
  {
    var j := sy / TWO_256;
    var i := if x >= TWO_255 then 1 else 0;
    CongruentWrap(x - y, Signed(x) - sy, i + j);
  }

  lemma SignedComparison(a: U256, b: U256)
    ensures Slt(a, b) == FromBool(Signed(a) < Signed(b))
    ensures Sgt(a, b) == FromBool(Signed(a) > Signed(b))
  {
    SignAbsMeaning(a);
    SignAbsMeaning(b);
  }

  // SAR is division by 2^s rounding down, for every shift amount.
  lemma SarMeaning(s: U256, val: U256)
    ensures Signed(Sar(s, val)) == Signed(val) / Pow2(s)
  {
    if s >= WORD_BITS {
      SarLarge(s, val);
    } else if val >= TWO_255 {
      SarNegative(s, val);
      NegativeShift(s, val);
    } else {
      SignBit(val);
      hide Pow2, Bit;
      QuotientBound(val, Pow2(s));
    }
  }

  lemma SarLarge(s: U256, val: U256)
    requires s >= WORD_BITS
    ensures Signed(Sar(s, val)) == Signed(val) / Pow2(s)
  {
    LargeShift(s, val);
    assert Pow2(s) >= TWO_256 by {
      Pow2Word();
      Pow2Monotone(WORD_BITS, s);
    }
    hide Pow2, Sar;
    FloorOfSmall(Signed(val), Pow2(s));
  }

  lemma LargeShift(s: U256, val: U256)
    requires s >= WORD_BITS
    ensures Sar(s, val) == if Signed(val) < 0 then MAX_WORD else 0
  {
    SignBit(val);
    assert Pow2(0) == 1;
    OrZero(MAX_WORD);
    hide Pow2, Bit, BitOr;
  }

  lemma FloorOfSmall(x: int, p: nat)
    requires Abs(x) < p
    ensures x / p == if x < 0 then -1 else 0
  {
    if x < 0 {
      DivUnique(x, p, -1, x + p);
    } else {
      DivUnique(x, p, 0, x);
    }
  }

  lemma SarNegative(s: U256, val: U256)
    requires s < WORD_BITS && val >= TWO_255
    ensures Sar(s, val) == val / Pow2(s) + TWO_256 - Pow2(WORD_BITS - s)
  {
    var n, v := WORD_BITS - s, val / Pow2(s);
    SignBit(val);
    ShiftedOnes(s);
    assert 0 <= v < Pow2(n) <= TWO_256 by { NegativeShift(s, val); QuotientBound(val, Pow2(s)); }
    assert Pow2(WORD_BITS) == TWO_256 by { Pow2Word(); }
    hide Pow2, Bit, Shl;
    OrFill(v, n, WORD_BITS);
    DivUnique(v, Pow2(n), 0, v);
  }

  // A word with the sign bit set, shifted right by s, as a signed quotient.
  lemma NegativeShift(s: nat, val: U256)
    requires s < WORD_BITS && val >= TWO_255
    ensures val / Pow2(s) < Pow2(WORD_BITS - s) <= TWO_256
    ensures Signed(val) / Pow2(s) == val / Pow2(s) - Pow2(WORD_BITS - s)
    ensures TWO_255 <= val / Pow2(s) + TWO_256 - Pow2(WORD_BITS - s)
  {
    var h := Pow2(SIGN_BIT - s);
    assert Pow2(WORD_BITS - s) == 2 * h;
    assert h * Pow2(s) == TWO_255 && h <= TWO_255 by {
      Pow2Word();
      Pow2Add(SIGN_BIT - s, s);
      Pow2Monotone(SIGN_BIT - s, SIGN_BIT);
    }
    hide Pow2;
    NegativeQuotient(val, Pow2(s), h);
  }

  lemma NegativeQuotient(val: U256, p: nat, h: nat)
    requires p > 0 && h * p == TWO_255 <= val
    ensures h <= val / p < 2 * h
    ensures (val - TWO_256) / p == val / p - 2 * h
  {
    assert (2 * h) * p == 2 * (h * p);
    DivSubMultiple(val, p, 2 * h);
    QuotientAtLeast(val, p, h);
    QuotientBelow(val, p, 2 * h);
  }

  // The ones that SAR and SIGNEXTEND shift in are the top s bits.
  lemma ShiftedOnes(s: nat)
    requires s < WORD_BITS
    ensures Shl(WORD_BITS - s, Sub(Shl(s, 1), 1)) == TWO_256 - Pow2(WORD_BITS - s)
  {
    hide Pow2;
    var p, top := Pow2(s), Pow2(WORD_BITS - s);
    assert p <= TWO_255 && p * top == TWO_256 by {
      Pow2Word();
      Pow2Monotone(s, SIGN_BIT);
      Pow2Add(s, WORD_BITS - s);
    }
    assert Sub(Shl(s, 1), 1) == p - 1;
    if s == 0 {
      Pow2Zero();
    }
    OnesTimes(p, top);
  }

  lemma Pow2Zero()
    ensures Pow2(0) == 1
  {
  }

  lemma OnesTimes(p: nat, top: nat)
    requires p > 0 && p * top == TWO_256
    ensures 0 < top <= TWO_256
    ensures (p - 1) * top == TWO_256 - top
  {
    MulMono(1, p, top);
  }

  // The low (b + 1) bytes of x read as a two's-complement integer.
  function SignExtended(b: U256, x: U256): U256 {
    if b >= 31 then x else LowSigned(8 * (b + 1), x)
  }

  // SIGNEXTEND keeps the high bytes of x when the sign bit is clear, so it
  // computes the extension exactly when that bit is set or those bytes are zero.
  lemma SignExtendMeaning(b: U256, x: U256)
    ensures SignExtend(b, x) == SignExtended(b, x)
      <==> b >= 31 || Bit(x, 8 * (b + 1) - 1) || x < Pow2(8 * (b + 1))
  {
    if b >= 31 {
      SignExtendWhole(b, x);
    } else {
      hide Pow2, Bit, Shl, Or, Sub;
      SignFillMeaning(8 * (b + 1), x);
    }
  }

  // The low n bits of x as a two's-complement integer, as a word.
  function LowSigned(n: nat, x: U256): U256
    requires n < WORD_BITS
  {
    LowPart(x, Pow2(n));
    var low := x % Pow2(n);
    if 2 * low >= Pow2(n) then Wrap(low - Pow2(n)) else low
  }

  lemma SignFillMeaning(n: nat, x: U256)
    requires 0 < n < WORD_BITS
    ensures SignFill(n, x) == LowSigned(n, x) <==> Bit(x, n - 1) || x < Pow2(n)
  {
    hide Pow2, Bit, Shl, Or, Sub;
    LowSignBit(x, n);
    LowPart(x, Pow2(n));
    assert Pow2(n) <= TWO_255 by { Pow2Word(); Pow2Monotone(n, SIGN_BIT); }
    if Bit(x, n - 1) {
      SignExtendOnes(n, x);
    }
  }

  lemma LowPart(x: nat, p: nat)
    requires p > 0
    ensures x < p <==> x == x % p
    ensures x % p <= x
  {
    QuotientBound(x, p);
    DivMod(x, p);
    MulNonNeg(x / p, p);
    if x < p {
      DivUnique(x, p, 0, x);
    }
  }

  lemma SignExtendWhole(b: U256, x: U256)
    requires b >= 31
    ensures SignExtend(b, x) == x
  {
    assert Pow2(0) == 1;
    assert Shl(WORD_BITS, 0) == 0;
    OrZero(x);
  }

  lemma SignExtendOnes(n: nat, x: U256)
    requires 0 < n < WORD_BITS
    ensures Or(x, Shl(n, Sub(Shl(WORD_BITS - n, 1), 1))) == x % Pow2(n) + TWO_256 - Pow2(n)
  {
    ShiftedOnes(WORD_BITS - n);
    assert Pow2(WORD_BITS) == TWO_256 by { Pow2Word(); }
    hide Pow2, Shl;
    OrFill(x, n, WORD_BITS);
  }

  // The bit below 2^n says which half of the low part x falls in.
  lemma LowSignBit(x: nat, n: nat)
    requires n > 0
    ensures Bit(x, n - 1) <==> 2 * (x % Pow2(n)) >= Pow2(n)
  {
    HalfRemainder(x, Pow2(n - 1));
  }

  lemma HalfRemainder(x: nat, h: nat)
    requires h > 0
    ensures (x / h) % 2 == 1 <==> x % (2 * h) >= h
  {
    var q, r := x / h, x % h;
    DivMod(x, h);
    var b := q % 2;
    assert q == 2 * (q / 2) + b;
    assert q * h == (q / 2) * (2 * h) + b * h by {
      assert (2 * (q / 2) + b) * h == 2 * (q / 2) * h + b * h;
    }
    DivUnique(x, 2 * h, q / 2, b * h + r);
  }

  // In 512 bits neither the sum nor the product of two words wraps, so the
  // remainders are those of the unbounded ones; modulo zero is zero.
  lemma ModArithmeticExact(a: U256, b: U256, n: U256)
    ensures Add512(a, b) == a + b && Mul512(a, b) == a * b
    ensures AddMod(a, b, n) == if n == 0 then 0 else (a + b) % n
    ensures MulMod(a, b, n) == if n == 0 then 0 else (a * b) % n
  {
    MulNonNeg(a, b);
    ProductFits(a, b, TWO_256 - 1);
  }

  lemma ProductFits(a: nat, b: nat, most: nat)
    requires a <= most && b <= most
    ensures 0 <= a * b <= most * most
  {
    MulMono(a, most, b);
    MulMono(b, most, most);
    assert a * b <= most * b == b * most <= most * most;
  }
}
