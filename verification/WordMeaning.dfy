// What the arithmetic, comparison and bit instructions answer, in integers, and
// that the interpreter's functions on words answer just that.
module WordMeaning {
  import opened Common
  import opened Alu
  import opened Arith

  // ---------- the answers ----------

  function Power(a: nat, n: nat): nat {
    if n == 0 then 1 else MulNonNeg(a, Power(a, n - 1)); a * Power(a, n - 1)
  }

  // One operand: ISZERO and NOT.
  ghost predicate UnaryAnswer(raw: Byte, a: U256, v: U256) {
    if raw == 0x15 then v == if a == 0 then 1 else 0
    else forall i: nat | i < WORD_BITS :: Bit(v, i) <==> !Bit(a, i)
  }

  // Two operands, a from the top of the stack and b from below it.
  ghost predicate BinaryAnswer(raw: Byte, a: U256, b: U256, v: U256) {
    if raw <= 0x0b then ArithmeticAnswer(raw, a, b, v)
    else if raw <= 0x14 then ComparisonAnswer(raw, a, b, v)
    else BitAnswer(raw, a, b, v)
  }

  // ADD, MUL, SUB, DIV, SDIV, MOD, SMOD, EXP and SIGNEXTEND. The last one extends
  // the low a + 1 bytes of b when their sign is set, and else leaves b alone.
  ghost predicate ArithmeticAnswer(raw: Byte, a: U256, b: U256, v: U256) {
    if raw == 0x01 then v == (a + b) % TWO_256
    else if raw == 0x02 then v == (a * b) % TWO_256
    else if raw == 0x03 then v == (a - b) % TWO_256
    else if raw == 0x04 then v == if b == 0 then 0 else a / b
    else if raw == 0x05 then v == if b == 0 then 0 else TruncDiv(Signed(a), Signed(b)) % TWO_256
    else if raw == 0x06 then v == if b == 0 then 0 else a % b
    else if raw == 0x07 then v == if b == 0 then 0 else TruncRem(Signed(a), Signed(b)) % TWO_256
    else if raw == 0x0a then v == Power(a, b) % TWO_256
    else if raw == 0x0b then
      if a < 31 && Bit(b, 8 * a + 7) then v == (b % Pow2(8 * a + 8) - Pow2(8 * a + 8)) % TWO_256 else v == b
    else false
  }

  // LT, GT, SLT, SGT and EQ.
  ghost predicate ComparisonAnswer(raw: Byte, a: U256, b: U256, v: U256) {
    var holds :=
      if raw == 0x10 then a < b
      else if raw == 0x11 then a > b
      else if raw == 0x12 then Signed(a) < Signed(b)
      else if raw == 0x13 then Signed(a) > Signed(b)
      else a == b;
    v == if holds then 1 else 0
  }

  // AND, OR, XOR, BYTE, SHL, SHR and SAR. BYTE counts from the highest byte and
  // answers the lowest one for every index above.
  ghost predicate BitAnswer(raw: Byte, a: U256, b: U256, v: U256) {
    if raw == 0x16 then forall i: nat | i < WORD_BITS :: Bit(v, i) <==> Bit(a, i) && Bit(b, i)
    else if raw == 0x17 then forall i: nat | i < WORD_BITS :: Bit(v, i) <==> Bit(a, i) || Bit(b, i)
    else if raw == 0x18 then forall i: nat | i < WORD_BITS :: Bit(v, i) <==> (Bit(a, i) <==> !Bit(b, i))
    else if raw == 0x1a then v == b / Pow2(if a < 31 then 248 - 8 * a else 0) % 256
    else if raw == 0x1b then v == b * Pow2(a) % TWO_256
    else if raw == 0x1c then v == b / Pow2(a)
    else if raw == 0x1d then Signed(v) == Signed(b) / Pow2(a)
    else false
  }

  // ADDMOD and MULMOD.
  ghost predicate TernaryAnswer(raw: Byte, a: U256, b: U256, n: U256, v: U256) {
    v == if n == 0 then 0 else if raw == 0x08 then (a + b) % n else (a * b) % n
  }

  // ---------- bit by bit ----------

  lemma BitHalf(x: nat, i: nat)
    requires i > 0
    ensures Bit(x, i) <==> Bit(x / 2, i - 1)
  {
    var p := Pow2(i - 1);
    DivMod(x / 2, p);
    var q, r := (x / 2) / p, (x / 2) % p;
    assert x == 2 * (q * p + r) + x % 2;
    assert q * (2 * p) == 2 * (q * p);
    DivUnique(x, 2 * p, q, 2 * r + x % 2);
  }

  lemma {:induction false} BitsOf(x: nat, y: nat, i: nat)
    ensures Bit(BitAnd(x, y), i) <==> Bit(x, i) && Bit(y, i)
    ensures Bit(BitOr(x, y), i) <==> Bit(x, i) || Bit(y, i)
    ensures Bit(BitXor(x, y), i) <==> (Bit(x, i) <==> !Bit(y, i))
    decreases i
  {
    if i == 0 {
      LowestBits(x, y);
    } else {
      Halves(x, y);
      BitHalf(x, i);
      BitHalf(y, i);
      BitHalf(BitAnd(x, y), i);
      BitHalf(BitOr(x, y), i);
      BitHalf(BitXor(x, y), i);
      BitsOf(x / 2, y / 2, i - 1);
    }
  }

  lemma LowestBits(x: nat, y: nat)
    ensures Bit(BitAnd(x, y), 0) <==> Bit(x, 0) && Bit(y, 0)
    ensures Bit(BitOr(x, y), 0) <==> Bit(x, 0) || Bit(y, 0)
    ensures Bit(BitXor(x, y), 0) <==> (Bit(x, 0) <==> !Bit(y, 0))
  {
    hide Bit;
    LowestBit(x);
    LowestBit(y);
    LowestBit(BitAnd(x, y));
    LowestBit(BitOr(x, y));
    LowestBit(BitXor(x, y));
    Parities(x, y);
  }

  lemma LowestBit(x: nat)
    ensures Bit(x, 0) <==> x % 2 == 1
  {
    hide Pow2;
    Pow2Zero();
  }

  lemma Parities(x: nat, y: nat)
    ensures BitAnd(x, y) % 2 == 1 <==> x % 2 == 1 && y % 2 == 1
    ensures BitOr(x, y) % 2 == 1 <==> x % 2 == 1 || y % 2 == 1
    ensures BitXor(x, y) % 2 == 1 <==> x % 2 != y % 2
  {
  }

  lemma Halves(x: nat, y: nat)
    ensures BitAnd(x, y) / 2 == BitAnd(x / 2, y / 2)
    ensures BitOr(x, y) / 2 == BitOr(x / 2, y / 2)
    ensures BitXor(x, y) / 2 == BitXor(x / 2, y / 2)
  {
  }

  lemma {:induction false} OnesBits(n: nat, i: nat)
    requires i < n
    ensures Bit(Pow2(n) - 1, i)
    decreases i
  {
    var x := Pow2(n) - 1;
    assert x % 2 == 1 && x / 2 == Pow2(n - 1) - 1;
    if i == 0 {
      Pow2Zero();
    } else {
      BitHalf(x, i);
      OnesBits(n - 1, i - 1);
    }
  }

  lemma BitwiseAnswers(a: U256, b: U256)
    ensures BitAnswer(0x16, a, b, And(a, b)) && BitAnswer(0x17, a, b, Or(a, b)) && BitAnswer(0x18, a, b, Xor(a, b))
  {
    forall i: nat | i < WORD_BITS
      ensures Bit(And(a, b), i) <==> Bit(a, i) && Bit(b, i)
      ensures Bit(Or(a, b), i) <==> Bit(a, i) || Bit(b, i)
      ensures Bit(Xor(a, b), i) <==> (Bit(a, i) <==> !Bit(b, i))
    {
      BitsOf(a, b, i);
    }
  }

  lemma UnaryAnswers(a: U256)
    ensures UnaryAnswer(0x15, a, IsZero(a)) && UnaryAnswer(0x19, a, Not(a))
  {
    forall i: nat | i < WORD_BITS ensures Bit(Not(a), i) <==> !Bit(a, i) {
      BitsOf(a, MAX_WORD, i);
      Pow2Word();
      OnesBits(WORD_BITS, i);
    }
  }

  // ---------- the other answers ----------

  lemma {:induction false} ExpAnswers(a: U256, n: nat)
    ensures n < TWO_256 ==> Exp(a, n) == Power(a, n) % TWO_256
  {
    if 0 < n < TWO_256 {
      ExpAnswers(a, n - 1);
      TimesRemainder(a, Power(a, n - 1), TWO_256);
    }
  }

  lemma TimesRemainder(a: nat, x: nat, m: nat)
    requires m > 0
    ensures (a * (x % m)) % m == (a * x) % m
  {
    DivMod(x, m);
    var q := x / m;
    assert a * x == a * (x % m) + (a * q) * m by {
      assert a * (q * m + x % m) == a * (q * m) + a * (x % m);
    }
    DivSubMultiple(a * x, m, a * q);
  }

  lemma ShiftAnswers(s: U256, val: U256)
    ensures Shl(s, val) == val * Pow2(s) % TWO_256 && Shr(s, val) == val / Pow2(s)
  {
    hide Pow2;
    if s >= WORD_BITS {
      var p := Pow2(s - WORD_BITS);
      assert Pow2(s) == TWO_256 * p && Pow2(s) >= TWO_256 by {
        Pow2Word();
        Pow2Add(WORD_BITS, s - WORD_BITS);
        Pow2Monotone(WORD_BITS, s);
      }
      FarShift(val, p, Pow2(s));
    }
  }

  lemma FarShift(val: U256, p: nat, q: nat)
    requires q == TWO_256 * p && q >= TWO_256
    ensures val * q % TWO_256 == 0 && val / q == 0
  {
    assert val * (TWO_256 * p) == (val * p) * TWO_256;
    DivUnique(val * q, TWO_256, val * p, 0);
    DivUnique(val, q, 0, val);
  }

  lemma ByteAnswers(i: U256, x: U256)
    ensures BitAnswer(0x1a, i, x, ByteAt(i, x))
  {
    hide Pow2;
    ShiftAnswers(248 - 8 * (if i > 31 then 31 else i), x);
  }

  lemma SignExtendAnswers(back: U256, x: U256)
    ensures ArithmeticAnswer(0x0b, back, x, SignExtend(back, x))
  {
    if back >= 31 {
      SignExtendWhole(back, x);
    } else {
      hide Pow2, Bit, SignFill;
      SignFillAnswers(8 * back + 8, x);
    }
  }

  lemma SignFillAnswers(n: nat, x: U256)
    requires 0 < n < WORD_BITS
    ensures SignFill(n, x) == if Bit(x, n - 1) then (x % Pow2(n) - Pow2(n)) % TWO_256 else x
  {
    hide Pow2, Bit, Shl, Or, Sub;
    if Bit(x, n - 1) {
      SignExtendOnes(n, x);
      assert Pow2(n) <= TWO_255 by { Pow2Word(); Pow2Monotone(n, SIGN_BIT); }
      BelowZero(x % Pow2(n), Pow2(n));
    }
  }

  lemma BelowZero(r: nat, p: nat)
    requires r < p <= TWO_255
    ensures (r - p) % TWO_256 == r - p + TWO_256
  {
    DivUnique(r - p, TWO_256, -1, r - p + TWO_256);
  }

  // The instructions of each kind.
  predicate IsBinary(raw: Byte) {
    0x01 <= raw <= 0x07 || raw == 0x0a || raw == 0x0b || 0x10 <= raw <= 0x14 || 0x16 <= raw <= 0x18 || 0x1a <= raw <= 0x1d
  }

  lemma ArithmeticAnswers(a: U256, b: U256)
    ensures ArithmeticAnswer(0x01, a, b, Add(a, b)) && ArithmeticAnswer(0x02, a, b, Mul(a, b))
    ensures ArithmeticAnswer(0x03, a, b, Sub(a, b)) && ArithmeticAnswer(0x04, a, b, Div(a, b))
    ensures ArithmeticAnswer(0x05, a, b, SDiv(a, b)) && ArithmeticAnswer(0x06, a, b, Rem(a, b))
    ensures ArithmeticAnswer(0x07, a, b, SMod(a, b)) && ArithmeticAnswer(0x0a, a, b, Exp(a, b))
    ensures ArithmeticAnswer(0x0b, a, b, SignExtend(a, b))
  {
    hide SDiv, SMod, Exp, SignExtend, Power, Pow2, Bit;
    SDivMeaning(a, b);
    SModMeaning(a, b);
    ExpAnswers(a, b);
    SignExtendAnswers(a, b);
  }

  lemma ComparisonAnswers(a: U256, b: U256)
    ensures ComparisonAnswer(0x10, a, b, Lt(a, b)) && ComparisonAnswer(0x11, a, b, Gt(a, b))
    ensures ComparisonAnswer(0x12, a, b, Slt(a, b)) && ComparisonAnswer(0x13, a, b, Sgt(a, b))
    ensures ComparisonAnswer(0x14, a, b, Eq(a, b))
  {
    hide Slt, Sgt;
    SignedComparison(a, b);
  }

  lemma BitAnswers(a: U256, b: U256)
    ensures BitAnswer(0x16, a, b, And(a, b)) && BitAnswer(0x17, a, b, Or(a, b)) && BitAnswer(0x18, a, b, Xor(a, b))
    ensures BitAnswer(0x1a, a, b, ByteAt(a, b)) && BitAnswer(0x1b, a, b, Shl(a, b))
    ensures BitAnswer(0x1c, a, b, Shr(a, b)) && BitAnswer(0x1d, a, b, Sar(a, b))
  {
    hide Pow2, Bit, ByteAt, Shl, Shr, Sar, And, Or, Xor;
    BitwiseAnswers(a, b);
    ByteAnswers(a, b);
    ShiftAnswers(a, b);
    SarMeaning(a, b);
  }

  lemma TernaryAnswers(a: U256, b: U256, n: U256)
    ensures TernaryAnswer(0x08, a, b, n, AddMod(a, b, n)) && TernaryAnswer(0x09, a, b, n, MulMod(a, b, n))
  {
    hide AddMod, MulMod, Add512, Mul512;
    ModArithmeticExact(a, b, n);
  }
}
