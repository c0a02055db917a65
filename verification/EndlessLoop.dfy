// A transaction that never ends: a loop whose zero-value call gains as much gas
// as the rest of its instructions cost. So the termination theorem cannot do
// without its condition on zero-value calls.
module EndlessLoop {
  import opened Common
  import opened Params
  import opened FlatWorld
  import opened Machine
  import opened Frames
  import opened Instructions
  import opened Interpreter
  import opened CallStack
  import opened Stepping
  import CallMemory
  import GasBound
  import PlainCode

  // JUMPDEST; four zeros; CALLVALUE; ADDRESS; GAS; CALL; POP; the hash of 11360
  // bytes of memory; POP; and a jump back. The contract calls itself while its
  // own code is not stored yet, so the call comes back at once.
  const LOOP: Bytes := [
    0x5b, 0x60, 0, 0x60, 0, 0x60, 0, 0x60, 0, 0x34, 0x30, 0x5a, 0xf1, 0x50,
    0x61, 0x2c, 0x60, 0x60, 0, 0x20, 0x50, 0x60, 0, 0x56]

  const HASHED: nat := 11360

  // What growing the memory to the hashed bytes costs, once.
  const GROWTH: nat := 1311

  // ---------- what stays the same around the loop ----------

  ghost predicate Looping(e: Env, c: Ctx) {
    var self := c.cur.callee;
    && Disciplined(e, c) && e.From(Berlin) && |c.callStack| < MAX_CALL_DEPTH
    && c.cur.code == LOOP && c.cur.value == 0
    && c.world.Exist(self) && c.world.GetCode(self) == [] && self !in e.precompiled
  }

  function MemorySize(f: Frame): nat { |f.memory.space| }

  // ---------- single instructions ----------

  // The next state of the loop after an instruction on the frame.
  lemma LoopStep(e: Env, c: Ctx, g: Frame)
    requires Looping(e, c) && Fetchable(c.cur) && OnFrameOnly(Fetch(c.cur))
    requires FrameOp(e, Fetch(c.cur), PushedData(c.cur), c.cur) == Ok(g, ())
    ensures var d := Step(e, c);
      && Looping(e, d) && d.cur.callee == c.cur.callee
      && d.cur == g.(pc := Wrap64(c.cur.pc + PushWidth(Fetch(c.cur)) + 1))
  {
    hide FrameOp, Fetch, Step, Disciplined;
    StillRunning(e, c);
    FrameStep(e, c, g);
    FrameLocal(e, Fetch(c.cur), PushedData(c.cur), c.cur);
    StepKeeps(e, c);
  }

  lemma StillRunning(e: Env, c: Ctx)
    requires Disciplined(e, c)
    ensures c.status.Running?
  {
  }

  // A step that pushes a value.
  lemma PushStep(e: Env, c: Ctx, gas: nat, v: U256)
    requires Looping(e, c) && Fetchable(c.cur) && OnFrameOnly(Fetch(c.cur))
    requires FrameOp(e, Fetch(c.cur), PushedData(c.cur), c.cur) == PushConst(c.cur, gas, v)
    requires c.cur.gas >= gas && |Words(c.cur)| < MAX_STACK_DEPTH
    ensures var d := Step(e, c);
      && Looping(e, d) && d.cur.callee == c.cur.callee && d.cur.pc == Wrap64(c.cur.pc + PushWidth(Fetch(c.cur)) + 1)
      && Words(d.cur) == Words(c.cur) + [v] && d.cur.gas == c.cur.gas - gas
      && d.cur.memory == c.cur.memory
  {
    hide FrameOp, Fetch, Step, Looping, PushConst;
    Pushed(c.cur, gas, v);
    LoopStep(e, c, PushConst(c.cur, gas, v).state);
  }

  lemma PopStep(e: Env, c: Ctx)
    requires Looping(e, c) && Fetch(c.cur) == PopOp
    requires c.cur.gas >= GAS_QUICK && |Words(c.cur)| >= 1
    ensures var d := Step(e, c);
      && Looping(e, d) && d.cur.callee == c.cur.callee && d.cur.pc == Wrap64(c.cur.pc + 1)
      && Words(d.cur) == Words(c.cur)[..|Words(c.cur)| - 1] && d.cur.gas == c.cur.gas - GAS_QUICK
      && d.cur.memory == c.cur.memory
  {
    hide Fetch, Step, Looping, Pop;
    Popped(c.cur);
    FramePop(e, c.cur);
    LoopStep(e, c, Pop(c.cur).state);
  }

  lemma JumpDestStep(e: Env, c: Ctx)
    requires Looping(e, c) && Fetch(c.cur) == JumpDest && c.cur.gas >= GAS_JUMPDEST
    ensures var d := Step(e, c);
      && Looping(e, d) && d.cur.callee == c.cur.callee && d.cur.pc == Wrap64(c.cur.pc + 1)
      && Words(d.cur) == Words(c.cur) && d.cur.gas == c.cur.gas - GAS_JUMPDEST
      && d.cur.memory == c.cur.memory
  {
    hide Fetch, Step, Looping;
    FrameJumpDest(e, c.cur);
    LoopStep(e, c, c.cur.(gas := c.cur.gas - GAS_JUMPDEST));
  }

  lemma FrameJumpDest(e: Env, f: Frame)
    requires f.gas >= GAS_JUMPDEST
    ensures FrameOp(e, JumpDest, [], f) == Ok(f.(gas := f.gas - GAS_JUMPDEST), ())
  {
  }

  // The jump back to the start.
  lemma JumpStep(e: Env, c: Ctx)
    requires Looping(e, c) && Fetch(c.cur) == JumpOp
    requires c.cur.gas >= GAS_MID && Words(c.cur) == [0]
    ensures var d := Step(e, c);
      && Looping(e, d) && d.cur.callee == c.cur.callee && d.cur.pc == 0
      && Words(d.cur) == [] && d.cur.gas == c.cur.gas - GAS_MID
      && d.cur.memory == c.cur.memory
  {
    hide Fetch, Disciplined, Step, Jump;
    StillRunning(e, c);
    JumpBack(c);
    JumpOpStep(e, c);
    StepKeeps(e, c);
  }

  lemma JumpBack(c: Ctx)
    requires c.cur.code == LOOP && c.cur.gas >= GAS_MID && Words(c.cur) == [0]
    ensures var f := Drop(c.cur, 1);
      Jump(c) == Ok(c.(cur := f.(gas := c.cur.gas - GAS_MID, pc := Wrap64(-1))), ())
  {
    assert Below(c.cur, 1) == 0 by {
      assert Words(c.cur)[0] == 0;
    }
    assert PlainCode.IsStart(LOOP, 0);
  }

  lemma JumpOpStep(e: Env, c: Ctx)
    requires c.status.Running? && Fetch(c.cur) == JumpOp && Jump(c).Ok?
    ensures Step(e, c) == AdvancePc(Jump(c).state, 0)
  {
    hide Jump, Fetch, Decode;
  }

  // Hashing the memory costs 30 and 6 for each of 355 words, and growing it the
  // first time what that costs.
  lemma HashStep(e: Env, c: Ctx)
    requires Looping(e, c) && Fetch(c.cur) == Sha3Op
    requires c.cur.gas >= 10000 && Words(c.cur) == [HASHED, 0]
    requires MemorySize(c.cur) == 0 || MemorySize(c.cur) >= HASHED
    ensures var d := Step(e, c);
      && Looping(e, d) && d.cur.callee == c.cur.callee && d.cur.pc == Wrap64(c.cur.pc + 1)
      && |Words(d.cur)| == 1 && MemorySize(d.cur) >= HASHED
      && d.cur.gas == c.cur.gas - 2160 - if MemorySize(c.cur) == 0 then GROWTH else 0
  {
    hide Fetch, Step, Looping, Sha3;
    Hashed(e, c.cur);
    FrameHash(e, c.cur);
    LoopStep(e, c, Sha3(e, c.cur).state);
  }

  lemma FrameHash(e: Env, f: Frame)
    ensures FrameOp(e, Sha3Op, [], f) == Sha3(e, f)
  {
    hide Sha3;
  }

  lemma Hashed(e: Env, f: Frame)
    requires f.gas >= 10000 && Words(f) == [HASHED, 0]
    requires MemorySize(f) == 0 || MemorySize(f) >= HASHED
    ensures var r := Sha3(e, f);
      && r == Ok(r.state, ()) && r.state.pc == f.pc
      && |Words(r.state)| == 1 && MemorySize(r.state) >= HASHED
      && r.state.gas == f.gas - 2160 - if MemorySize(f) == 0 then GROWTH else 0
  {
    hide Slice;
    assert Below(f, 1) == 0 && Below(f, 2) == HASHED by {
      assert Words(f)[1] == 0 && Words(f)[0] == HASHED;
    }
    var g := Drop(f.(gas := f.gas - GAS_SHA3), 2);
    Sliced(g);
    assert CallMemory.ToWordSize(HASHED) == 355;
  }

  lemma Sliced(f: Frame)
    requires MemorySize(f) == 0 || MemorySize(f) >= HASHED
    ensures var r := Slice(f, 0, HASHED);
      && r.Ok? && r.state == f.(memory := r.state.memory) && MemorySize(r.state) >= HASHED
      && r.value.1 == if MemorySize(f) == 0 then GROWTH else 0
  {
    assert CallMemory.ToWordSize(HASHED) == 355;
    assert CallMemory.Cost(355) == GROWTH && CallMemory.Cost(0) == 0;
  }

  // The zero-value call of the contract to itself.
  lemma CallStep(e: Env, c: Ctx)
    requires Looping(e, c) && Fetch(c.cur) == CallOp
    requires 100 <= c.cur.gas < TWO_64 - GAS_CALL_STIPEND
    requires |Words(c.cur)| == 7 && Words(c.cur)[..6] == [0, 0, 0, 0, 0, c.cur.callee]
    ensures var d := Step(e, c);
      && Looping(e, d) && d.cur.callee == c.cur.callee && d.cur.pc == Wrap64(c.cur.pc + 1)
      && Words(d.cur) == [1] && d.cur.gas == c.cur.gas + 2200
      && d.cur.memory == c.cur.memory
  {
    hide Fetch, Step, Disciplined;
    SelfIsWarm(e, c);
    CallWords(c.cur);
    GasBound.IdleCallAddsGas(e, c);
    StepKeeps(e, c);
  }

  lemma SelfIsWarm(e: Env, c: Ctx)
    requires Disciplined(e, c) && e.From(Berlin)
    ensures c.cur.callee in c.access.addrs && c.status.Running?
  {
    assert FrameInPlace(e, c, |c.callStack|);
  }

  lemma CallWords(f: Frame)
    requires |Words(f)| == 7 && Words(f)[..6] == [0, 0, 0, 0, 0, f.callee]
    ensures f.stack.top == 7 && (forall k | 3 <= k <= 7 :: Below(f, k) == 0)
    ensures ToAddr(Below(f, 2)) == f.callee
  {
    forall k | 2 <= k <= 7 ensures Below(f, k) == Words(f)[..6][7 - k] {
    }
  }

  // ---------- the points of the loop ----------

  // The program counter, the words on the stack but for a top one that may be
  // anything, and the gas spent since the jump, at each instruction.
  datatype Point = Point(pc: U64, words: seq<U256>, any: bool, spent: int)

  function PointAt(i: nat, self: Addr): Point
    requires i < 16
  {
    match i
    case 0 => Point(0, [], false, 0)
    case 1 => Point(1, [], false, 1)
    case 2 => Point(3, [0], false, 4)
    case 3 => Point(5, [0, 0], false, 7)
    case 4 => Point(7, [0, 0, 0], false, 10)
    case 5 => Point(9, [0, 0, 0, 0], false, 13)
    case 6 => Point(10, [0, 0, 0, 0, 0], false, 15)
    case 7 => Point(11, [0, 0, 0, 0, 0, self], false, 17)
    case 8 => Point(12, [0, 0, 0, 0, 0, self], true, 19)
    case 9 => Point(13, [1], false, -2181)
    case 10 => Point(14, [], false, -2179)
    case 11 => Point(17, [HASHED], false, -2176)
    case 12 => Point(19, [HASHED, 0], false, -2173)
    case 13 => Point(20, [], true, -13)
    case 14 => Point(21, [], false, -11)
    case 15 => Point(23, [0], false, -8)
  }

  // At point i of the loop, in which the gas at the start is always g once the
  // memory has grown.
  ghost predicate AtPoint(e: Env, c: Ctx, i: nat, g: int) {
    && i < 16 && Looping(e, c)
    && var p := PointAt(i, c.cur.callee);
       && c.cur.pc == p.pc
       && (if p.any then |Words(c.cur)| == |p.words| + 1 && Words(c.cur)[..|p.words|] == p.words
           else Words(c.cur) == p.words)
       && (MemorySize(c.cur) >= HASHED || (MemorySize(c.cur) == 0 && i <= 12))
       && c.cur.gas == g - p.spent + if MemorySize(c.cur) == 0 then GROWTH else 0
  }

  // The instruction at each point.
  function OpAt(i: nat): Opcode
    requires i < 16
  {
    if i == 0 then JumpDest
    else if i == 5 then CallValue
    else if i == 6 then Address
    else if i == 7 then Opcode.Gas
    else if i == 8 then CallOp
    else if i == 9 || i == 13 then PopOp
    else if i == 10 then PushOp(2)
    else if i == 12 then Sha3Op
    else if i == 15 then JumpOp
    else PushOp(1)
  }

  function DataAt(i: nat): Bytes
    requires i < 16
  {
    if i == 10 then [0x2c, 0x60] else if OpAt(i).PushOp? then [0] else []
  }

  lemma FetchAt(f: Frame, i: nat)
    requires i < 16 && f.code == LOOP && f.pc == PointAt(i, f.callee).pc
    ensures Fetchable(f) && Fetch(f) == OpAt(i) && PushedData(f) == DataAt(i)
  {
    hide Decode, PointAt, OpAt, DataAt;
    BytesAt(i, f.callee);
    DataOf(i);
  }

  lemma DataOf(i: nat)
    requires i < 16
    ensures |DataAt(i)| == PushWidth(OpAt(i)) && (OpAt(i).PushOp? ==> OpAt(i).width > 0)
  {
  }

  lemma BytesAt(i: nat, self: Addr)
    requires i < 16
    ensures var pc, op := PointAt(i, self).pc, OpAt(i);
      && pc + 1 + PushWidth(op) <= |LOOP| && Decode(LOOP[pc]) == op
      && (op.PushOp? ==> LOOP[pc + 1..pc + 1 + op.width] == DataAt(i))
  {
    hide Decode;
    DecodesTo();
    var pc, op := PointAt(i, self).pc, OpAt(i);
    if i == 10 {
      assert LOOP[15..17] == [LOOP[15], LOOP[16]];
    } else if op.PushOp? {
      assert LOOP[pc + 1..pc + 2] == [LOOP[pc + 1]];
    }
  }

  lemma DecodesTo()
    ensures Decode(0x5b) == JumpDest && Decode(0x34) == CallValue && Decode(0x30) == Address
    ensures Decode(0x5a) == Opcode.Gas && Decode(0xf1) == CallOp && Decode(0x50) == PopOp
    ensures Decode(0x20) == Sha3Op && Decode(0x56) == JumpOp
    ensures Decode(0x60) == PushOp(1) && Decode(0x61) == PushOp(2)
  {
    FrameDecodes();
  }

  lemma FrameDecodes()
    ensures Decode(0x34) == CallValue && Decode(0x30) == Address && Decode(0x5a) == Opcode.Gas
    ensures Decode(0x50) == PopOp && Decode(0x60) == PushOp(1) && Decode(0x61) == PushOp(2)
  {
  }

  // ---------- around the loop ----------

  // Enough gas for the instructions, and none that the stipend could wrap.
  predicate Fits(g: int) { 20000 <= g < TWO_64 - 10000 }

  // What a point that pushes pushes, and its price.
  function ValueAt(i: nat, f: Frame): U256
    requires i < 16
  {
    if i == 6 then f.callee
    else if i == 7 then (if f.gas >= GAS_QUICK then f.gas - GAS_QUICK else 0)
    else if i == 10 then HASHED
    else 0
  }

  function PriceAt(i: nat): nat { if 5 <= i <= 7 then GAS_QUICK else GAS_FASTEST }

  lemma ValueOp(e: Env, f: Frame, i: nat)
    requires i < 16 && (OpAt(i).PushOp? || 5 <= i <= 7) && f.value == 0 && f.gas >= GAS_QUICK
    ensures FrameOp(e, OpAt(i), DataAt(i), f) == PushConst(f, PriceAt(i), ValueAt(i, f))
  {
    hide FrameOp;
    DataWords();
    if OpAt(i).PushOp? {
      FramePush(e, OpAt(i).width, DataAt(i), f);
    } else {
      FrameCallValue(e, f);
      FrameAddress(e, f);
      FrameGas(e, f);
    }
  }

  lemma FrameCallValue(e: Env, f: Frame)
    ensures FrameOp(e, CallValue, [], f) == PushConst(f, GAS_QUICK, f.value)
  {
    hide PushConst;
  }

  lemma FrameAddress(e: Env, f: Frame)
    ensures FrameOp(e, Address, [], f) == PushConst(f, GAS_QUICK, f.callee)
  {
    hide PushConst;
  }

  lemma FrameGas(e: Env, f: Frame)
    ensures FrameOp(e, Opcode.Gas, [], f) == PushGas(f)
  {
    hide PushGas;
  }

  lemma DataWords()
    ensures WordFromBE([0]) == 0 && WordFromBE([0x2c, 0x60]) == HASHED
  {
    assert [0x2c, 0x60][..1] == [0x2c];
    assert [0x2c][..0] == [];
  }

  lemma ValuePoint(e: Env, c: Ctx, i: nat, g: int)
    requires AtPoint(e, c, i, g) && Fits(g)
    requires OpAt(i).PushOp? || 5 <= i <= 7
    ensures AtPoint(e, Step(e, c), i + 1, g)
  {
    hide Step, Fetch, FrameOp, PushConst, Looping;
    LoopCode(e, c);
    FetchAt(c.cur, i);
    ValueOp(e, c.cur, i);
    PushStep(e, c, PriceAt(i), ValueAt(i, c.cur));
  }

  lemma LoopCode(e: Env, c: Ctx)
    requires Looping(e, c)
    ensures c.cur.code == LOOP && c.cur.value == 0
  {
  }

  lemma FramePoint(e: Env, c: Ctx, i: nat, g: int)
    requires AtPoint(e, c, i, g) && Fits(g) && (i == 0 || i == 9 || i == 13)
    ensures AtPoint(e, Step(e, c), i + 1, g)
  {
    hide Step, Looping, Fetch;
    LoopCode(e, c);
    FetchAt(c.cur, i);
    if i == 0 {
      JumpDestStep(e, c);
    } else {
      PopStep(e, c);
    }
  }

  lemma CallPoint(e: Env, c: Ctx, g: int)
    requires AtPoint(e, c, 8, g) && Fits(g)
    ensures AtPoint(e, Step(e, c), 9, g)
  {
    hide Step, Looping, Fetch;
    LoopCode(e, c);
    FetchAt(c.cur, 8);
    CallStep(e, c);
  }

  lemma HashPoint(e: Env, c: Ctx, g: int)
    requires AtPoint(e, c, 12, g) && Fits(g)
    ensures AtPoint(e, Step(e, c), 13, g)
  {
    hide Step, Looping, Fetch;
    LoopCode(e, c);
    FetchAt(c.cur, 12);
    HashStep(e, c);
  }

  lemma JumpPoint(e: Env, c: Ctx, g: int)
    requires AtPoint(e, c, 15, g) && Fits(g)
    ensures AtPoint(e, Step(e, c), 0, g)
  {
    hide Step, Looping, Fetch;
    LoopCode(e, c);
    FetchAt(c.cur, 15);
    JumpStep(e, c);
  }

  lemma PointStep(e: Env, c: Ctx, i: nat, g: int)
    requires AtPoint(e, c, i, g) && Fits(g)
    ensures AtPoint(e, Step(e, c), (i + 1) % 16, g)
  {
    hide Step, AtPoint;
    assert i < 16 by { PointRuns(e, c, i, g); }
    if i == 8 {
      CallPoint(e, c, g);
    } else if i == 12 {
      HashPoint(e, c, g);
    } else if i == 15 {
      JumpPoint(e, c, g);
    } else if i == 0 || i == 9 || i == 13 {
      FramePoint(e, c, i, g);
    } else {
      ValuePoint(e, c, i, g);
    }
  }

  lemma {:induction false} StaysInLoop(e: Env, c: Ctx, i: nat, g: int, n: nat)
    requires AtPoint(e, c, i, g) && Fits(g)
    ensures Run(e, c, n).status.Running?
    decreases n
  {
    hide Step, AtPoint;
    PointRuns(e, c, i, g);
    if n > 0 {
      PointStep(e, c, i, g);
      StaysInLoop(e, Step(e, c), (i + 1) % 16, g, n - 1);
    }
  }

  lemma PointRuns(e: Env, c: Ctx, i: nat, g: int)
    requires AtPoint(e, c, i, g)
    ensures c.status.Running? && i < 16
  {
  }

  // ---------- the transaction ----------

  // Creates a contract whose initialisation code is the loop, without value.
  predicate LoopingTx(e: Env, tx: Tx, world: World) {
    && e.From(Berlin)
    && tx.to.None? && tx.value == 0 && tx.input == LOOP
    && 50000 <= tx.gas < TWO_64 - 10000
    && world.GetNonce(tx.from) + 1 < TWO_64
    && var a := e.createAddr(tx.from, world.GetNonce(tx.from));
       world.GetNonce(a) == 0 && world.GetCode(a) == [] && a !in e.precompiled
  }

  // Whatever gas such a transaction is given, it runs for ever.
  lemma LoopingTxNeverEnds(e: Env, tx: Tx, world: World, n: nat)
    requires LoopingTx(e, tx, world)
    ensures Execution(e, tx, world, n).status.Running?
  {
    hide Run, Start, AtPoint;
    LoopStarts(e, tx, world);
    StaysInLoop(e, Start(e, tx, world), 0, tx.gas - GAS_TX - GROWTH, n);
  }

  lemma LoopStarts(e: Env, tx: Tx, world: World)
    requires LoopingTx(e, tx, world)
    ensures AtPoint(e, Start(e, tx, world), 0, tx.gas - GAS_TX - GROWTH)
  {
    hide Disciplined, Endow;
    StartKeeps(e, tx, world);
    var a := e.createAddr(tx.from, world.GetNonce(tx.from));
    EndowedLoop(e, world.SetNonce(tx.from, world.GetNonce(tx.from) + 1), a, tx.from);
  }

  // The new account exists and has no code yet.
  lemma EndowedLoop(e: Env, w: World, a: Addr, caller: Addr)
    ensures var t := Endow(e, w, a, caller, 0);
      t.Some? && t.value.Exist(a) && t.value.GetCode(a) == []
  {
  }
}
