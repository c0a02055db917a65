// What each instruction that works on the stack alone does, byte by byte: when a
// step on it completes, which words it takes, what it puts there, and its price.
module StackMeaning {
  import opened Common
  import opened Params
  import opened Machine
  import opened Frames
  import opened Interpreter
  import opened Stepping
  import opened WordMeaning
  import Alu

  // The machine is about to run the instruction with this byte.
  predicate Runs(c: Ctx, raw: Byte) {
    c.status.Running? && c.cur.pc < |c.cur.code| && c.cur.code[c.cur.pc] == raw
  }

  // The instruction about to run completes, neither failing nor aborting.
  ghost predicate Completes(e: Env, c: Ctx) {
    Fetchable(c.cur) && Exec(e, Fetch(c.cur), PushedData(c.cur), c).Ok?
  }

  function Height(c: Ctx): nat { |Words(c.cur)| }

  // The k-th word from the top of the stack, counting from 1.
  function Word(c: Ctx, k: nat): U256
    requires 1 <= k <= Height(c)
  {
    Words(c.cur)[Height(c) - k]
  }

  function Top(c: Ctx): U256 { if Height(c) >= 1 then Word(c, 1) else 0 }

  // The step took n words off the stack, put others there, charged some gas and
  // went on behind the instruction and its data; nothing else is different.
  ghost predicate Replaces(c: Ctx, d: Ctx, n: nat, vs: seq<U256>, gas: nat, width: nat) {
    && Height(c) >= n && Words(d.cur) == Words(c.cur)[..Height(c) - n] + vs
    && d.cur.gas == c.cur.gas - gas
    && d == c.(cur := c.cur.(
           stack := d.cur.stack, gas := d.cur.gas, pc := Wrap64(c.cur.pc + 1 + width)))
  }

  // The instruction works on the frame alone and has no data behind it.
  predicate FetchedPlain(c: Ctx) {
    && Fetchable(c.cur) && OnFrameOnly(Fetch(c.cur)) && PushWidth(Fetch(c.cur)) == 0 && PushedData(c.cur) == []
  }

  // ---------- from frames to steps ----------

  // The same of the outcome of an operation on a frame.
  ghost predicate Yields(f: Frame, r: FrameOutcome<()>, ok: bool, n: nat, vs: seq<U256>, gas: nat) {
    && (r.Ok? <==> ok)
    && (ok ==>
          && f.stack.top >= n && f.gas >= gas && Words(r.state) == Words(f)[..f.stack.top - n] + vs
          && r == Ok(f.(stack := r.state.stack, gas := f.gas - gas), ()))
  }

  lemma FrameCompletes(e: Env, c: Ctx)
    requires Fetchable(c.cur) && OnFrameOnly(Fetch(c.cur))
    ensures Completes(e, c) <==> FrameOp(e, Fetch(c.cur), PushedData(c.cur), c.cur).Ok?
  {
    hide FrameOp, Fetch, Exec;
    FrameExec(e, Fetch(c.cur), PushedData(c.cur), c);
  }

  lemma YieldsStep(e: Env, c: Ctx, r: FrameOutcome<()>, ok: bool, n: nat, vs: seq<U256>, gas: nat, width: nat)
    requires c.status.Running? && Fetchable(c.cur) && OnFrameOnly(Fetch(c.cur)) && PushWidth(Fetch(c.cur)) == width
    requires FrameOp(e, Fetch(c.cur), PushedData(c.cur), c.cur) == r && Yields(c.cur, r, ok, n, vs, gas)
    ensures Completes(e, c) <==> ok
    ensures ok ==> Replaces(c, Step(e, c), n, vs, gas, width)
  {
    hide FrameOp, Fetch, Step, Completes;
    FrameCompletes(e, c);
    if ok {
      FrameStep(e, c, r.state);
    }
  }

  lemma UnaryYields(f: Frame, gas: nat, op: U256 -> U256)
    ensures Yields(f, Unary(f, gas, op), f.stack.top >= 1 && f.gas >= gas,
                   1, if f.stack.top >= 1 then [op(Below(f, 1))] else [], gas)
  {
    if f.stack.top >= 1 {
      Repushed(f, 1, op(Below(f, 1)));
    }
  }

  lemma BinaryYields(f: Frame, gas: nat, op: (U256, U256) -> U256)
    ensures Yields(f, Binary(f, gas, op), f.stack.top >= 2 && f.gas >= gas,
                   2, if f.stack.top >= 2 then [op(Below(f, 1), Below(f, 2))] else [], gas)
  {
    if f.stack.top >= 2 {
      Repushed(f, 2, op(Below(f, 1), Below(f, 2)));
    }
  }

  lemma TernaryYields(f: Frame, gas: nat, op: (U256, U256, U256) -> U256)
    ensures Yields(f, Ternary(f, gas, op), f.stack.top >= 3 && f.gas >= gas,
                   3, if f.stack.top >= 3 then [op(Below(f, 1), Below(f, 2), Below(f, 3))] else [], gas)
  {
    if f.stack.top >= 3 {
      Repushed(f, 3, op(Below(f, 1), Below(f, 2), Below(f, 3)));
    }
  }

  // A word in the place of some others.
  lemma Repushed(f: Frame, n: nat, v: U256)
    requires 1 <= n <= f.stack.top
    ensures var r := Push(Drop(f, n), v);
      && r == Ok(f.(stack := r.state.stack), ())
      && Words(r.state) == Words(f)[..f.stack.top - n] + [v]
  {
    assert Words(Drop(f, n)) == Words(f)[..f.stack.top - n];
  }

  lemma WordBelow(c: Ctx, k: nat)
    requires 1 <= k <= c.cur.stack.top
    ensures Height(c) == c.cur.stack.top && Word(c, k) == Below(c.cur, k)
  {
  }

  // ---------- arithmetic, comparisons and bits ----------

  // The prices of the Yellow Paper, appendix G.
  function Price(raw: Byte): nat {
    if raw == 0x01 || raw == 0x03 || raw >= 0x10 then 3 else if raw == 0x08 || raw == 0x09 then 8 else 5
  }

  function ArithCode(raw: Byte): Opcode {
    match raw
    case 0x01 => Add
    case 0x02 => Mul
    case 0x03 => Sub
    case 0x04 => Div
    case 0x05 => SDiv
    case 0x06 => Mod
    case 0x07 => SMod
    case 0x08 => AddMod
    case 0x09 => MulMod
    case 0x0a => ExpOp
    case 0x0b => SignExtend
    case 0x10 => Lt
    case 0x11 => Gt
    case 0x12 => Slt
    case 0x13 => Sgt
    case 0x14 => Eql
    case 0x15 => IsZero
    case 0x16 => And
    case 0x17 => Or
    case 0x18 => Xor
    case 0x19 => Not
    case 0x1a => ByteOp
    case 0x1b => Shl
    case 0x1c => Shr
    case _ => Sar
  }

  predicate IsArith(raw: Byte) { 0x01 <= raw <= 0x0b || 0x10 <= raw <= 0x1d }

  lemma ArithDecodes(raw: Byte)
    requires IsArith(raw)
    ensures Decode(raw) == ArithCode(raw)
  {
  }

  predicate IsArithOp(op: Opcode) {
    || op.Add? || op.Mul? || op.Sub? || op.Div? || op.SDiv? || op.Mod? || op.SMod? || op.AddMod? || op.MulMod?
    || op.ExpOp? || op.SignExtend? || op.Lt? || op.Gt? || op.Slt? || op.Sgt? || op.Eql? || op.IsZero? || op.And?
    || op.Or? || op.Xor? || op.Not? || op.ByteOp? || op.Shl? || op.Shr? || op.Sar?
  }

  lemma ArithKinds(raw: Byte)
    requires IsArith(raw)
    ensures IsArithOp(ArithCode(raw))
  {
  }

  lemma ArithIsPlain(op: Opcode)
    requires IsArithOp(op)
    ensures OnFrameOnly(op) && !op.PushOp?
  {
  }

  lemma ArithPastFrame(e: Env, op: Opcode, f: Frame)
    requires IsArithOp(op)
    ensures FrameOp(e, op, [], f) == EnvOp(e, op, f)
  {
    hide EnvOp;
  }

  lemma ArithPastEnv(e: Env, op: Opcode, f: Frame)
    requires IsArithOp(op)
    ensures EnvOp(e, op, f) == ArithOp(e, op, f)
  {
    hide ArithOp;
  }

  // The outcome of an arithmetic instruction about to run.
  lemma ArithDispatch(e: Env, c: Ctx, raw: Byte)
    requires Runs(c, raw) && IsArith(raw)
    ensures Fetch(c.cur) == ArithCode(raw) && FetchedPlain(c)
    ensures FrameOp(e, Fetch(c.cur), [], c.cur) == ArithOp(e, ArithCode(raw), c.cur)
  {
    hide Decode, FrameOp, EnvOp, ArithOp, ArithCode, IsArithOp, OnFrameOnly;
    ArithDecodes(raw);
    ArithKinds(raw);
    ArithIsPlain(ArithCode(raw));
    ArithPastFrame(e, ArithCode(raw), c.cur);
    ArithPastEnv(e, ArithCode(raw), c.cur);
  }

  function BinaryOf(raw: Byte): (U256, U256) -> U256 {
    match raw
    case 0x01 => Alu.Add
    case 0x02 => Alu.Mul
    case 0x03 => Alu.Sub
    case 0x04 => Alu.Div
    case 0x05 => Alu.SDiv
    case 0x06 => Alu.Rem
    case 0x07 => Alu.SMod
    case 0x0b => Alu.SignExtend
    case 0x10 => Alu.Lt
    case 0x11 => Alu.Gt
    case 0x12 => Alu.Slt
    case 0x13 => Alu.Sgt
    case 0x14 => Alu.Eq
    case 0x16 => Alu.And
    case 0x17 => Alu.Or
    case 0x18 => Alu.Xor
    case 0x1a => Alu.ByteAt
    case 0x1b => Alu.Shl
    case 0x1c => Alu.Shr
    case _ => Alu.Sar
  }

  lemma BinaryDispatch(e: Env, raw: Byte, f: Frame)
    requires IsBinary(raw) && raw != 0x0a
    ensures ArithOp(e, ArithCode(raw), f)
         == Since(f, raw >= 0x1b ==> e.From(Constantinople), Binary(f, Price(raw), BinaryOf(raw)))
  {
    hide Binary, Unary, Ternary, Exp;
  }

  lemma ArithmeticOfAnswers(raw: Byte, a: U256, b: U256)
    requires 0x01 <= raw <= 0x07 || raw == 0x0b
    ensures ArithmeticAnswer(raw, a, b, BinaryOf(raw)(a, b))
  {
    hide ArithmeticAnswer;
    ArithmeticAnswers(a, b);
  }

  lemma ComparisonOfAnswers(raw: Byte, a: U256, b: U256)
    requires 0x10 <= raw <= 0x14
    ensures ComparisonAnswer(raw, a, b, BinaryOf(raw)(a, b))
  {
    hide ComparisonAnswer;
    ComparisonAnswers(a, b);
  }

  lemma BitOfAnswers(raw: Byte, a: U256, b: U256)
    requires 0x16 <= raw <= 0x1d && raw != 0x19
    ensures BitAnswer(raw, a, b, BinaryOf(raw)(a, b))
  {
    hide BitAnswer;
    BitAnswers(a, b);
  }

  lemma BinaryOfAnswers(raw: Byte, a: U256, b: U256)
    requires IsBinary(raw) && raw != 0x0a
    ensures BinaryAnswer(raw, a, b, BinaryOf(raw)(a, b))
  {
    hide ArithmeticAnswer, ComparisonAnswer, BitAnswer, BinaryOf;
    if raw <= 0x0b {
      ArithmeticOfAnswers(raw, a, b);
    } else if raw <= 0x14 {
      ComparisonOfAnswers(raw, a, b);
    } else {
      BitOfAnswers(raw, a, b);
    }
  }

  // ADD to SMOD, SIGNEXTEND, the comparisons and the operations on bits of two
  // words: the shifts exist from Constantinople on (EIP-145).
  lemma BinaryInstruction(e: Env, c: Ctx, raw: Byte)
    requires Runs(c, raw) && IsBinary(raw) && raw != 0x0a
    ensures Completes(e, c)
       <==> Height(c) >= 2 && c.cur.gas >= Price(raw) && (raw >= 0x1b ==> e.From(Constantinople))
    ensures Completes(e, c) ==>
      var d := Step(e, c);
      && Replaces(c, d, 2, [Top(d)], Price(raw), 0)
      && BinaryAnswer(raw, Word(c, 1), Word(c, 2), Top(d))
  {
    hide Fetch, FrameOp, ArithOp, ArithCode, Step, Completes, Binary, BinaryOf, BinaryAnswer, OnFrameOnly;
    ArithDispatch(e, c, raw);
    BinaryDispatch(e, raw, c.cur);
    BinaryYields(c.cur, Price(raw), BinaryOf(raw));
    FrameCompletes(e, c);
    if Height(c) >= 2 {
      WordBelow(c, 1);
      WordBelow(c, 2);
      BinaryOfAnswers(raw, Word(c, 1), Word(c, 2));
    }
    if Completes(e, c) {
      YieldsStep(e, c, Binary(c.cur, Price(raw), BinaryOf(raw)), true,
                 2, [BinaryOf(raw)(Word(c, 1), Word(c, 2))], Price(raw), 0);
    }
  }

  // ISZERO and NOT.
  lemma UnaryInstruction(e: Env, c: Ctx, raw: Byte)
    requires Runs(c, raw) && (raw == 0x15 || raw == 0x19)
    ensures Completes(e, c) <==> Height(c) >= 1 && c.cur.gas >= 3
    ensures Completes(e, c) ==>
      var d := Step(e, c);
      Replaces(c, d, 1, [Top(d)], 3, 0) && UnaryAnswer(raw, Word(c, 1), Top(d))
  {
    hide Fetch, FrameOp, ArithCode, Step, Completes, Unary, UnaryAnswer, OnFrameOnly;
    ArithDispatch(e, c, raw);
    var op: U256 -> U256 := if raw == 0x15 then Alu.IsZero else Alu.Not;
    assert ArithOp(e, ArithCode(raw), c.cur) == Unary(c.cur, 3, op) by { UnaryDispatch(e, raw, c.cur); }
    hide ArithOp;
    UnaryYields(c.cur, 3, op);
    FrameCompletes(e, c);
    if Height(c) >= 1 {
      WordBelow(c, 1);
      UnaryAnswers(Word(c, 1));
    }
    if Completes(e, c) {
      YieldsStep(e, c, Unary(c.cur, 3, op), true, 1, [op(Word(c, 1))], 3, 0);
    }
  }

  lemma UnaryDispatch(e: Env, raw: Byte, f: Frame)
    requires raw == 0x15 || raw == 0x19
    ensures ArithOp(e, ArithCode(raw), f) == Unary(f, 3, if raw == 0x15 then Alu.IsZero else Alu.Not)
  {
    hide Binary, Unary, Ternary, Exp;
  }

  // ADDMOD and MULMOD.
  lemma TernaryInstruction(e: Env, c: Ctx, raw: Byte)
    requires Runs(c, raw) && (raw == 0x08 || raw == 0x09)
    ensures Completes(e, c) <==> Height(c) >= 3 && c.cur.gas >= 8
    ensures Completes(e, c) ==>
      var d := Step(e, c);
      && Replaces(c, d, 3, [Top(d)], 8, 0)
      && TernaryAnswer(raw, Word(c, 1), Word(c, 2), Word(c, 3), Top(d))
  {
    hide Fetch, FrameOp, ArithOp, ArithCode, Step, Completes, Ternary, TernaryAnswer, OnFrameOnly;
    ArithDispatch(e, c, raw);
    var op: (U256, U256, U256) -> U256 := if raw == 0x08 then Alu.AddMod else Alu.MulMod;
    TernaryDispatch(e, raw, c.cur);
    TernaryYields(c.cur, 8, op);
    FrameCompletes(e, c);
    if Height(c) >= 3 {
      WordBelow(c, 1);
      WordBelow(c, 2);
      WordBelow(c, 3);
      TernaryAnswers(Word(c, 1), Word(c, 2), Word(c, 3));
    }
    if Completes(e, c) {
      YieldsStep(e, c, Ternary(c.cur, 8, op), true, 3, [op(Word(c, 1), Word(c, 2), Word(c, 3))], 8, 0);
    }
  }

  lemma TernaryDispatch(e: Env, raw: Byte, f: Frame)
    requires raw == 0x08 || raw == 0x09
    ensures ArithOp(e, ArithCode(raw), f) == Ternary(f, 8, if raw == 0x08 then Alu.AddMod else Alu.MulMod)
  {
    hide Binary, Unary, Ternary, Exp;
  }

  // How many bytes a word takes without its leading zeros.
  function ByteLength(x: nat): nat {
    if x == 0 then 0 else 1 + ByteLength(x / 256)
  }

  lemma {:induction false} BitsInBytes(x: nat)
    ensures (Alu.BitLength(x) + 7) / 8 == ByteLength(x)
    decreases x
  {
    if x >= 256 {
      BitsInBytes(x / 256);
      EightBits(x);
    } else {
      SmallBits(x);
    }
  }

  lemma EightBits(x: nat)
    requires x >= 256
    ensures Alu.BitLength(x) == 8 + Alu.BitLength(x / 256)
  {
    hide Alu.BitLength;
    FourBits(x);
    FourBits(x / 16);
    assert x / 16 / 16 == x / 256;
  }

  lemma FourBits(x: nat)
    requires x >= 16
    ensures Alu.BitLength(x) == 4 + Alu.BitLength(x / 16)
  {
    hide Alu.BitLength;
    BitLengthHalf(x);
    BitLengthHalf(x / 2);
    BitLengthHalf(x / 2 / 2);
    BitLengthHalf(x / 2 / 2 / 2);
    assert x / 2 / 2 / 2 / 2 == x / 16;
  }

  lemma BitLengthHalf(x: nat)
    requires x > 0
    ensures Alu.BitLength(x) == 1 + Alu.BitLength(x / 2)
  {
  }

  lemma SmallBits(x: nat)
    requires x < 256
    ensures (Alu.BitLength(x) + 7) / 8 == ByteLength(x)
  {
    SmallBitLength(x, 8);
  }

  lemma {:induction false} SmallBitLength(x: nat, n: nat)
    requires x < Alu.Pow2(n)
    ensures Alu.BitLength(x) <= n
  {
    if x > 0 {
      SmallBitLength(x / 2, n - 1);
    }
  }

  // EXP is charged for the bytes of its exponent alone.
  lemma ExpInstruction(e: Env, c: Ctx)
    requires Runs(c, 0x0a)
    ensures var perByte := if e.From(SpuriousDragon) then 50 else 10;
      && (Completes(e, c) <==> Height(c) >= 2 && c.cur.gas >= perByte * ByteLength(Word(c, 2)))
      && (Completes(e, c) ==>
            var d := Step(e, c);
            && Replaces(c, d, 2, [Top(d)], perByte * ByteLength(Word(c, 2)), 0)
            && BinaryAnswer(0x0a, Word(c, 1), Word(c, 2), Top(d)))
  {
    hide Fetch, FrameOp, ArithOp, ArithCode, Step, Completes, Exp, BinaryAnswer, OnFrameOnly, ByteLength;
    ArithDispatch(e, c, 0x0a);
    ExpDispatch(e, c.cur);
    ExpYields(e, c.cur);
    FrameCompletes(e, c);
    if Height(c) >= 2 {
      WordBelow(c, 1);
      WordBelow(c, 2);
      ExpAnswer(Word(c, 1), Word(c, 2));
    }
    if Completes(e, c) {
      var perByte := if e.From(SpuriousDragon) then 50 else 10;
      YieldsStep(e, c, Exp(e, c.cur), true, 2, [Alu.Exp(Word(c, 1), Word(c, 2))], perByte * ByteLength(Word(c, 2)), 0);
    }
  }

  lemma ExpDispatch(e: Env, f: Frame)
    ensures ArithOp(e, ArithCode(0x0a), f) == Exp(e, f)
  {
    hide Binary, Unary, Ternary, Exp;
  }

  lemma ExpAnswer(a: U256, b: U256)
    ensures BinaryAnswer(0x0a, a, b, Alu.Exp(a, b))
  {
    hide ArithmeticAnswer;
    ArithmeticAnswers(a, b);
  }

  lemma ExpYields(e: Env, f: Frame)
    ensures var perByte := if e.From(SpuriousDragon) then 50 else 10;
      var ok := f.stack.top >= 2 && f.gas >= perByte * ByteLength(Below(f, 2));
      Yields(f, Exp(e, f), ok, 2, if ok then [Alu.Exp(Below(f, 1), Below(f, 2))] else [],
             if ok then perByte * ByteLength(Below(f, 2)) else 0)
  {
    hide Alu.Exp, ByteLength, Alu.BitLength;
    if f.stack.top >= 2 {
      BitsInBytes(Below(f, 2));
      Repushed(f, 2, Alu.Exp(Below(f, 1), Below(f, 2)));
    }
  }
}
