// What the instructions do that push a word of the frame, the transaction or the
// block, that copy and move words, and that jump.
module PushMeaning {
  import opened Common
  import opened Params
  import opened Machine
  import opened Frames
  import opened Instructions
  import opened Interpreter
  import opened Stepping
  import opened StackMeaning
  import OperandStack
  import PlainCode

  // ---------- words of the frame, the transaction and the block ----------

  predicate IsFrameWord(raw: Byte) {
    raw == 0x30 || raw == 0x33 || raw == 0x34 || raw == 0x36 || raw == 0x38 || raw == 0x3d || 0x58 <= raw <= 0x5a
  }

  predicate IsBlockWord(raw: Byte) {
    raw == 0x32 || raw == 0x3a || 0x41 <= raw <= 0x46 || raw == 0x48
  }

  // ADDRESS, ORIGIN, CALLER, CALLVALUE, CALLDATASIZE, CODESIZE, GASPRICE,
  // RETURNDATASIZE, COINBASE, TIMESTAMP, NUMBER, DIFFICULTY, GASLIMIT, CHAINID,
  // BASEFEE, PC, MSIZE, and GAS, which pushes what is left after its own charge.
  function OwnWord(e: Env, f: Frame, raw: Byte): U256 {
    match raw
    case 0x30 => f.callee
    case 0x32 => e.origin
    case 0x33 => f.caller
    case 0x34 => f.value
    case 0x36 => |f.input|
    case 0x38 => |f.code|
    case 0x3a => e.gasPrice
    case 0x3d => |f.lastReturned|
    case 0x41 => e.coinbase
    case 0x42 => e.timestamp
    case 0x43 => e.number
    case 0x44 => e.difficulty
    case 0x45 => e.gasLimit
    case 0x46 => e.chainId
    case 0x48 => e.baseFee
    case 0x58 => f.pc
    case 0x59 => |f.memory.space|
    case _ => if f.gas >= 2 then f.gas - 2 else 0
  }

  // The fork that brings an instruction.
  predicate Available(e: Env, raw: Byte) {
    && (raw == 0x3d ==> e.From(Byzantium))
    && (raw == 0x46 || raw == 0x47 ==> e.From(Istanbul))
    && (raw == 0x48 ==> e.From(London))
  }

  function OwnCode(raw: Byte): Opcode {
    match raw
    case 0x30 => Address
    case 0x32 => Origin
    case 0x33 => Caller
    case 0x34 => CallValue
    case 0x36 => CallDataSize
    case 0x38 => CodeSize
    case 0x3a => GasPrice
    case 0x3d => ReturnDataSize
    case 0x41 => Coinbase
    case 0x42 => Timestamp
    case 0x43 => Number
    case 0x44 => Difficulty
    case 0x45 => GasLimit
    case 0x46 => ChainId
    case 0x48 => BaseFee
    case 0x58 => PC
    case 0x59 => MSize
    case _ => Gas
  }

  lemma OwnDecodes(raw: Byte)
    requires IsFrameWord(raw) || IsBlockWord(raw)
    ensures Decode(raw) == OwnCode(raw)
  {
  }

  lemma OwnIsPlain(raw: Byte)
    ensures OnFrameOnly(OwnCode(raw)) && !OwnCode(raw).PushOp?
  {
  }

  lemma FrameWordDispatch(e: Env, raw: Byte, f: Frame)
    requires IsFrameWord(raw)
    ensures FrameOp(e, OwnCode(raw), [], f)
         == if raw == 0x5a then PushGas(f)
            else Since(f, Available(e, raw), PushConst(f, 2, OwnWord(e, f, raw)))
  {
    hide PushConst, PushGas, EnvOp;
  }

  lemma BlockWordDispatch(e: Env, raw: Byte, f: Frame)
    requires IsBlockWord(raw)
    ensures FrameOp(e, OwnCode(raw), [], f) == EnvOp(e, OwnCode(raw), f)
  {
    hide EnvOp;
  }

  lemma BlockWordEnv(e: Env, raw: Byte, f: Frame)
    requires IsBlockWord(raw)
    ensures EnvOp(e, OwnCode(raw), f) == Since(f, Available(e, raw), PushConst(f, 2, OwnWord(e, f, raw)))
  {
    hide PushConst, ArithOp;
  }

  lemma ConstYields(f: Frame, gas: nat, v: U256)
    ensures Yields(f, PushConst(f, gas, v), f.stack.top < MAX_STACK_DEPTH && f.gas >= gas, 0, [v], gas)
  {
  }

  lemma GasYields(e: Env, f: Frame)
    ensures Yields(f, PushGas(f), f.stack.top < MAX_STACK_DEPTH && f.gas >= 2, 0, [OwnWord(e, f, 0x5a)], 2)
  {
  }

  lemma SinceYields(f: Frame, available: bool, r: FrameOutcome<()>, ok: bool, n: nat, vs: seq<U256>, gas: nat)
    requires Yields(f, r, ok, n, vs, gas)
    ensures Yields(f, Since(f, available, r), available && ok, n, vs, gas)
  {
  }

  // The instruction about to run has no data behind it.
  lemma RunsPlain(c: Ctx, raw: Byte)
    requires Runs(c, raw) && !Decode(raw).PushOp? && OnFrameOnly(Decode(raw))
    ensures Fetch(c.cur) == Decode(raw) && FetchedPlain(c)
  {
    hide Decode, OnFrameOnly;
  }

  // Each of these pushes its word for two gas.
  lemma OwnWordInstruction(e: Env, c: Ctx, raw: Byte)
    requires Runs(c, raw) && (IsFrameWord(raw) || IsBlockWord(raw))
    ensures Completes(e, c) <==> Height(c) < 1024 && c.cur.gas >= 2 && Available(e, raw)
    ensures Completes(e, c) ==> Replaces(c, Step(e, c), 0, [OwnWord(e, c.cur, raw)], 2, 0)
  {
    hide Decode, Fetch, FrameOp, EnvOp, Step, Completes, OnFrameOnly, PushConst, PushGas, OwnCode, OwnWord;
    hide Available, Since;
    var f, ok := c.cur, Height(c) < 1024 && c.cur.gas >= 2;
    OwnDecodes(raw);
    OwnIsPlain(raw);
    RunsPlain(c, raw);
    var v := OwnWord(e, f, raw);
    if raw == 0x5a {
      FrameWordDispatch(e, raw, f);
      GasYields(e, f);
      AlwaysAvailable(e, raw);
      YieldsStep(e, c, PushGas(f), ok, 0, [v], 2, 0);
    } else {
      if IsFrameWord(raw) {
        FrameWordDispatch(e, raw, f);
      } else {
        BlockWordDispatch(e, raw, f);
        BlockWordEnv(e, raw, f);
      }
      ConstYields(f, 2, v);
      SinceYields(f, Available(e, raw), PushConst(f, 2, v), ok, 0, [v], 2);
      YieldsStep(e, c, Since(f, Available(e, raw), PushConst(f, 2, v)), Available(e, raw) && ok, 0, [v], 2, 0);
    }
  }

  lemma AlwaysAvailable(e: Env, raw: Byte)
    requires raw == 0x5a
    ensures Available(e, raw)
  {
  }

  // ---------- data, copies and exchanges ----------

  lemma StackDecodes(raw: Byte)
    ensures 0x60 <= raw <= 0x7f ==> Decode(raw) == PushOp(raw - 0x5f)
    ensures 0x80 <= raw <= 0x8f ==> Decode(raw) == DupOp(raw - 0x7f)
    ensures 0x90 <= raw <= 0x9f ==> Decode(raw) == SwapOp(raw - 0x8f)
    ensures raw == 0x50 ==> Decode(raw) == PopOp
    ensures raw == 0x5b ==> Decode(raw) == JumpDest
  {
  }

  lemma StackDispatch(e: Env, op: Opcode, data: Bytes, f: Frame)
    requires op.PopOp? || op.DupOp? || op.SwapOp? || op.JumpDest? || op.PushOp?
    requires |data| <= 32
    ensures FrameOp(e, op, data, f)
         == match op
            case PopOp => Pop(f)
            case JumpDest => UseGas(f, 1)
            case DupOp(n) => Dup(f, n)
            case SwapOp(n) => Swap(f, n)
            case _ => PushData(f, data)
    ensures OnFrameOnly(op)
  {
    hide Pop, UseGas, Dup, Swap, PushData, EnvOp;
  }

  // PUSH1 to PUSH32: the bytes behind the instruction as a word; they must lie
  // within the code.
  lemma PushInstruction(e: Env, c: Ctx, raw: Byte)
    requires Runs(c, raw) && 0x60 <= raw <= 0x7f
    ensures var n, pc := raw - 0x5f, c.cur.pc;
      && (Completes(e, c) <==> pc + 1 + n <= |c.cur.code| && Height(c) < 1024 && c.cur.gas >= 3)
      && (Completes(e, c) ==>
            Replaces(c, Step(e, c), 0, [WordFromBE(c.cur.code[pc + 1..pc + 1 + n])], 3, n))
  {
    hide Decode, FrameOp, Step, Completes, PushConst, WordFromBE;
    StackDecodes(raw);
    if Fetchable(c.cur) {
      StackDispatch(e, Fetch(c.cur), PushedData(c.cur), c.cur);
      var v := WordFromBE(PushedData(c.cur));
      ConstYields(c.cur, 3, v);
      YieldsStep(e, c, PushData(c.cur, PushedData(c.cur)), Height(c) < 1024 && c.cur.gas >= 3, 0, [v], 3, raw - 0x5f);
    } else {
      TruncatedFails(e, c);
    }
  }

  lemma TruncatedFails(e: Env, c: Ctx)
    requires !Fetchable(c.cur)
    ensures !Completes(e, c)
  {
    hide Fetchable;
  }

  lemma PopYields(f: Frame)
    ensures Yields(f, Pop(f), f.stack.top >= 1 && f.gas >= 2, 1, [], 2)
  {
    if f.stack.top >= 1 {
      assert Words(Drop(f, 1)) == Words(f)[..f.stack.top - 1];
    }
  }

  lemma DupYields(f: Frame, n: nat)
    requires 1 <= n
    ensures Yields(f, Dup(f, n), n <= f.stack.top < MAX_STACK_DEPTH && f.gas >= 3,
                   0, if n <= f.stack.top then [Below(f, n)] else [], 3)
  {
  }

  // The words of a stack with the top one and the n-th below it exchanged.
  function Exchanged(ws: seq<U256>, n: nat): seq<U256>
    requires |ws| > n
  {
    ws[|ws| - 1 := ws[|ws| - 1 - n]][|ws| - 1 - n := ws[|ws| - 1]]
  }

  lemma SwapYields(f: Frame, n: nat)
    requires 1 <= n
    ensures Yields(f, Swap(f, n), n < f.stack.top && f.gas >= 3,
                   if n < f.stack.top then f.stack.top else 0, if n < f.stack.top then Exchanged(Words(f), n) else [], 3)
  {
    if n < f.stack.top {
      var r := OperandStack.Swap(f.stack, n);
      assert OperandStack.Contents(r.stack) == Exchanged(Words(f), n);
      assert Words(f)[..0] == [];
    }
  }

  lemma UseGasYields(f: Frame, gas: nat)
    ensures Yields(f, UseGas(f, gas), f.gas >= gas, 0, [], gas)
  {
    assert Words(f)[..f.stack.top] + [] == Words(f);
  }

  // POP and JUMPDEST.
  lemma PopInstruction(e: Env, c: Ctx, raw: Byte)
    requires Runs(c, raw) && (raw == 0x50 || raw == 0x5b)
    ensures var n, gas := if raw == 0x50 then 1 else 0, if raw == 0x50 then 2 else 1;
      && (Completes(e, c) <==> Height(c) >= n && c.cur.gas >= gas)
      && (Completes(e, c) ==> Replaces(c, Step(e, c), n, [], gas, 0))
  {
    hide Decode, Fetch, FrameOp, Step, Completes, OnFrameOnly, Pop, UseGas;
    StackDecodes(raw);
    StackDispatch(e, Decode(raw), [], c.cur);
    RunsPlain(c, raw);
    if raw == 0x50 {
      PopYields(c.cur);
      YieldsStep(e, c, Pop(c.cur), Height(c) >= 1 && c.cur.gas >= 2, 1, [], 2, 0);
    } else {
      UseGasYields(c.cur, 1);
      YieldsStep(e, c, UseGas(c.cur, 1), c.cur.gas >= 1, 0, [], 1, 0);
    }
  }

  // DUP1 to DUP16.
  lemma DupInstruction(e: Env, c: Ctx, raw: Byte)
    requires Runs(c, raw) && 0x80 <= raw <= 0x8f
    ensures var n := raw - 0x7f;
      && (Completes(e, c) <==> n <= Height(c) < 1024 && c.cur.gas >= 3)
      && (Completes(e, c) ==> Replaces(c, Step(e, c), 0, [Word(c, n)], 3, 0))
  {
    hide Decode, Fetch, FrameOp, Step, Completes, OnFrameOnly, Dup;
    var n := raw - 0x7f;
    StackDecodes(raw);
    StackDispatch(e, Decode(raw), [], c.cur);
    RunsPlain(c, raw);
    DupYields(c.cur, n);
    if n <= Height(c) {
      WordBelow(c, n);
    }
    YieldsStep(e, c, Dup(c.cur, n), n <= Height(c) < 1024 && c.cur.gas >= 3,
               0, if n <= Height(c) then [Below(c.cur, n)] else [], 3, 0);
  }

  // SWAP1 to SWAP16.
  lemma SwapInstruction(e: Env, c: Ctx, raw: Byte)
    requires Runs(c, raw) && 0x90 <= raw <= 0x9f
    ensures var n := raw - 0x8f;
      && (Completes(e, c) <==> n < Height(c) && c.cur.gas >= 3)
      && (Completes(e, c) ==> Replaces(c, Step(e, c), Height(c), Exchanged(Words(c.cur), n), 3, 0))
  {
    hide Decode, Fetch, FrameOp, Step, Completes, OnFrameOnly, Swap, Exchanged;
    var n := raw - 0x8f;
    StackDecodes(raw);
    StackDispatch(e, Decode(raw), [], c.cur);
    RunsPlain(c, raw);
    SwapYields(c.cur, n);
    YieldsStep(e, c, Swap(c.cur, n), n < Height(c) && c.cur.gas >= 3,
               if n < Height(c) then Height(c) else 0, if n < Height(c) then Exchanged(Words(c.cur), n) else [], 3, 0);
  }

  // ---------- the other bytes ----------

  // No instruction on any fork; 0xfe is the designated one (EIP-141).
  predicate IsUndefined(raw: Byte) {
    || 0x0c <= raw <= 0x0f || 0x1e <= raw <= 0x1f || 0x21 <= raw <= 0x2f || 0x49 <= raw <= 0x4f
    || 0x5c <= raw <= 0x5f || 0xa5 <= raw <= 0xaf || 0xb3 <= raw <= 0xef || 0xf6 <= raw <= 0xf9
    || 0xfb <= raw <= 0xfc || raw == 0xfe
  }

  lemma UndefinedDecodes(raw: Byte)
    ensures IsUndefined(raw) ==> Decode(raw) == Invalid
    ensures raw == 0xb0 ==> Decode(raw) == PushOp(0)
    ensures raw == 0xb1 ==> Decode(raw) == DupOp(0)
    ensures raw == 0xb2 ==> Decode(raw) == SwapOp(0)
  {
  }

  lemma InvalidFrame(e: Env, f: Frame)
    ensures FrameOp(e, Invalid, [], f) == Err(f, InvalidOpcode) && OnFrameOnly(Invalid)
  {
  }

  // They fail and change nothing.
  lemma UndefinedInstruction(e: Env, c: Ctx, raw: Byte)
    requires Runs(c, raw) && IsUndefined(raw)
    ensures Fetchable(c.cur) && Exec(e, Fetch(c.cur), PushedData(c.cur), c) == Err(c, InvalidOpcode)
    ensures !Completes(e, c)
  {
    hide Decode, Fetch, FrameOp, Exec, OnFrameOnly;
    UndefinedDecodes(raw);
    InvalidFrame(e, c.cur);
    RunsPlain(c, raw);
    FrameExec(e, Invalid, [], c);
  }

  // The three bytes that decode to PUSH, DUP and SWAP of nothing: the first
  // aborts, the second pushes what is left in the slot above the stack, and the
  // third changes no word.
  lemma BareInstruction(e: Env, c: Ctx, raw: Byte)
    requires Runs(c, raw) && 0xb0 <= raw <= 0xb2
    ensures raw == 0xb0 ==> !Completes(e, c) && Step(e, c) == c.(status := Aborted(TruncatedPush))
    ensures raw == 0xb1 ==>
      && (Completes(e, c) <==> Height(c) < 1024 && c.cur.gas >= 3)
      && (Completes(e, c) ==> Replaces(c, Step(e, c), 0, [c.cur.stack.slots[Height(c)]], 3, 0))
    ensures raw == 0xb2 ==>
      && (Completes(e, c) <==> Height(c) >= 1 && c.cur.gas >= 3)
      && (Completes(e, c) ==> Replaces(c, Step(e, c), 0, [], 3, 0))
  {
    hide Step, Completes;
    if raw == 0xb0 {
      BarePush(e, c);
    } else if raw == 0xb1 {
      BareDup(e, c);
    } else {
      BareSwap(e, c);
    }
  }

  lemma BarePush(e: Env, c: Ctx)
    requires Runs(c, 0xb0)
    ensures !Completes(e, c) && Step(e, c) == c.(status := Aborted(TruncatedPush))
  {
    hide Decode, Completes, Exec;
    UndefinedDecodes(0xb0);
    TruncatedFails(e, c);
  }

  lemma BareDup(e: Env, c: Ctx)
    requires Runs(c, 0xb1)
    ensures Completes(e, c) <==> Height(c) < 1024 && c.cur.gas >= 3
    ensures Completes(e, c) ==> Replaces(c, Step(e, c), 0, [c.cur.stack.slots[Height(c)]], 3, 0)
  {
    hide Decode, Fetch, FrameOp, Step, Completes, OnFrameOnly, Dup;
    UndefinedDecodes(0xb1);
    StackDispatch(e, Decode(0xb1), [], c.cur);
    RunsPlain(c, 0xb1);
    BareYields(c.cur);
    YieldsStep(e, c, Dup(c.cur, 0), Height(c) < 1024 && c.cur.gas >= 3,
               0, if Height(c) < 1024 then [c.cur.stack.slots[Height(c)]] else [], 3, 0);
  }

  lemma BareSwap(e: Env, c: Ctx)
    requires Runs(c, 0xb2)
    ensures Completes(e, c) <==> Height(c) >= 1 && c.cur.gas >= 3
    ensures Completes(e, c) ==> Replaces(c, Step(e, c), 0, [], 3, 0)
  {
    hide Decode, Fetch, FrameOp, Step, Completes, OnFrameOnly, Swap;
    UndefinedDecodes(0xb2);
    StackDispatch(e, Decode(0xb2), [], c.cur);
    RunsPlain(c, 0xb2);
    BareYields(c.cur);
    YieldsStep(e, c, Swap(c.cur, 0), Height(c) >= 1 && c.cur.gas >= 3, 0, [], 3, 0);
  }

  lemma BareYields(f: Frame)
    ensures var n := f.stack.top;
      Yields(f, Dup(f, 0), n < MAX_STACK_DEPTH && f.gas >= 3, 0, if n < MAX_STACK_DEPTH then [f.stack.slots[n]] else [], 3)
    ensures Yields(f, Swap(f, 0), f.stack.top >= 1 && f.gas >= 3, 0, [], 3)
  {
    if f.stack.top >= 1 {
      assert OperandStack.Contents(OperandStack.Swap(f.stack, 0).stack) == Words(f);
      assert Words(f)[..f.stack.top] + [] == Words(f);
    }
  }

  // ---------- jumps ----------

  // A position holds a JUMPDEST instruction, not a byte of PUSH data.
  predicate Lands(c: Ctx, dest: U256) {
    dest < |c.cur.code| && c.cur.code[dest] == 0x5b && PlainCode.IsStart(c.cur.code, dest)
  }

  lemma JumpDecodes()
    ensures Decode(0x56) == JumpOp && Decode(0x57) == JumpIOp
  {
  }

  lemma RunsJump(c: Ctx, raw: Byte)
    requires Runs(c, raw) && (raw == 0x56 || raw == 0x57)
    ensures Fetch(c.cur) == (if raw == 0x56 then JumpOp else JumpIOp) && Fetchable(c.cur) && PushedData(c.cur) == []
  {
    hide Decode;
    JumpDecodes();
  }

  lemma JumpOutcome(c: Ctx)
    ensures var r, ok := Jump(c), c.cur.stack.top >= 1 && c.cur.gas >= 8 && Lands(c, Below(c.cur, 1));
      && (r.Ok? <==> ok)
      && (ok ==>
            && r == Ok(c.(cur := c.cur.(stack := r.state.cur.stack, gas := c.cur.gas - 8,
                                        pc := Wrap64(Below(c.cur, 1) - 1))), ())
            && Words(r.state.cur) == Words(c.cur)[..Height(c) - 1])
  {
    hide PlainCode.IsStart;
  }

  lemma JumpIOutcome(c: Ctx)
    ensures var r := JumpI(c);
      var ok := c.cur.stack.top >= 2 && c.cur.gas >= 10 && (Below(c.cur, 2) == 0 || Lands(c, Below(c.cur, 1)));
      && (r.Ok? <==> ok)
      && (ok ==>
            && r == Ok(c.(cur := c.cur.(stack := r.state.cur.stack, gas := c.cur.gas - 10,
                                        pc := if Below(c.cur, 2) == 0 then c.cur.pc else Wrap64(Below(c.cur, 1) - 1))), ())
            && Words(r.state.cur) == Words(c.cur)[..Height(c) - 2])
  {
    hide PlainCode.IsStart;
  }

  lemma JumpExec(e: Env, c: Ctx, raw: Byte)
    requires Runs(c, raw) && (raw == 0x56 || raw == 0x57)
    ensures var r := if raw == 0x56 then Jump(c) else JumpI(c);
      && (Completes(e, c) <==> r.Ok?)
      && (r.Ok? ==> Step(e, c) == AdvancePc(r.state, 0))
  {
    hide Fetch, Decode, Jump, JumpI, Exec, Step, Completes;
    RunsJump(c, raw);
    var op := if raw == 0x56 then JumpOp else JumpIOp;
    JumpDispatch(e, op, c);
    ExecStep(e, c, op);
  }

  lemma JumpDispatch(e: Env, op: Opcode, c: Ctx)
    requires op.JumpOp? || op.JumpIOp?
    ensures Exec(e, op, [], c) == (if op.JumpOp? then Jump(c) else JumpI(c))
  {
    hide Jump, JumpI;
  }

  lemma ExecStep(e: Env, c: Ctx, op: Opcode)
    requires c.status.Running? && Fetchable(c.cur) && Fetch(c.cur) == op && PushedData(c.cur) == []
    requires !EntersCall(op) && !op.PushOp?
    ensures var r := Exec(e, op, [], c); (Completes(e, c) <==> r.Ok?) && (r.Ok? ==> Step(e, c) == AdvancePc(r.state, 0))
  {
    hide Exec, Fetch;
  }

  // The step took n words off the stack, charged some gas and went on at a
  // position; nothing else is different.
  ghost predicate GoesOnAt(c: Ctx, d: Ctx, n: nat, gas: nat, pc: U64) {
    && Height(c) >= n && Words(d.cur) == Words(c.cur)[..Height(c) - n] && d.cur.gas == c.cur.gas - gas
    && d == c.(cur := c.cur.(stack := d.cur.stack, gas := d.cur.gas, pc := pc))
  }

  // JUMP goes on at a destination that holds a JUMPDEST, and fails otherwise.
  lemma JumpInstruction(e: Env, c: Ctx)
    requires Runs(c, 0x56)
    ensures Completes(e, c) <==> Height(c) >= 1 && c.cur.gas >= 8 && Lands(c, Word(c, 1))
    ensures Completes(e, c) ==> GoesOnAt(c, Step(e, c), 1, 8, Word(c, 1))
  {
    hide Jump, Step, Completes, Lands;
    JumpExec(e, c, 0x56);
    JumpOutcome(c);
    if Completes(e, c) {
      LandsFits(c, Word(c, 1));
    }
  }

  lemma LandsFits(c: Ctx, dest: U256)
    requires Lands(c, dest)
    ensures dest < TWO_64 && Wrap64(Wrap64(dest - 1) + 1) == dest
  {
  }

  // JUMPI does so when its second word is not zero, and else goes on behind itself.
  lemma JumpIInstruction(e: Env, c: Ctx)
    requires Runs(c, 0x57)
    ensures Completes(e, c)
       <==> Height(c) >= 2 && c.cur.gas >= 10 && (Word(c, 2) == 0 || Lands(c, Word(c, 1)))
    ensures Completes(e, c) ==>
      GoesOnAt(c, Step(e, c), 2, 10, if Word(c, 2) == 0 then Wrap64(c.cur.pc + 1) else Word(c, 1))
  {
    hide JumpI, Step, Completes, Lands;
    JumpExec(e, c, 0x57);
    JumpIOutcome(c);
    if Completes(e, c) && Word(c, 2) != 0 {
      LandsFits(c, Word(c, 1));
    }
  }
}
