// Runs of short byte codes through the machine: pushing bytes, and delegating to
// the code of another account.
module ShortRuns {
  import opened Common
  import opened Params
  import opened FlatWorld
  import opened Machine
  import opened Frames
  import opened Instructions
  import opened Interpreter
  import opened CallStack
  import opened Stepping
  import GasBound

  // The code runs at pc with these words and at least this much gas.
  ghost predicate At(e: Env, c: Ctx, code: Bytes, pc: nat, words: seq<U256>, gas: int) {
    && Disciplined(e, c) && !c.cur.readOnly
    && c.cur.code == code && c.cur.pc == pc && Words(c.cur) == words && c.cur.gas >= gas
  }

  lemma IsRunning(e: Env, c: Ctx)
    requires Disciplined(e, c)
    ensures c.status.Running? && c.callStack != []
  {
  }

  lemma AtRuns(e: Env, c: Ctx, code: Bytes, pc: nat, words: seq<U256>, gas: int)
    requires At(e, c, code, pc, words, gas)
    ensures c.status.Running?
  {
  }

  lemma LessGas(e: Env, c: Ctx, code: Bytes, pc: nat, words: seq<U256>, gas: int)
    requires At(e, c, code, pc, words, gas)
    ensures forall g: int | g <= gas :: At(e, c, code, pc, words, g)
  {
  }

  // ---------- reaching a state ----------

  // Some number of steps leads from one state to the other.
  ghost predicate Leads(e: Env, c: Ctx, d: Ctx) {
    exists n: nat :: Run(e, c, n) == d
  }

  lemma LeadsNowhere(e: Env, c: Ctx)
    ensures Leads(e, c, c)
  {
    hide Step;
    assert Run(e, c, 0) == c;
  }

  lemma LeadsOn(e: Env, c: Ctx, d: Ctx)
    requires c.status.Running? && Leads(e, Step(e, c), d)
    ensures Leads(e, c, d)
  {
    hide Step;
    var n: nat :| Run(e, Step(e, c), n) == d;
    assert Run(e, c, n + 1) == Run(e, Step(e, c), n);
  }

  lemma {:induction false} LeadsThrough(e: Env, c: Ctx, d: Ctx, f: Ctx)
    requires Leads(e, c, d) && Leads(e, d, f)
    ensures Leads(e, c, f)
  {
    var n: nat :| Run(e, c, n) == d;
    ThroughSteps(e, c, n, f);
  }

  lemma {:induction false} ThroughSteps(e: Env, c: Ctx, n: nat, f: Ctx)
    requires Leads(e, Run(e, c, n), f)
    ensures Leads(e, c, f)
    decreases n
  {
    hide Step, Leads;
    if n > 0 && c.status.Running? {
      ThroughSteps(e, Step(e, c), n - 1, f);
      LeadsOn(e, c, f);
    }
  }

  // ---------- pushing ----------

  lemma PushCodes()
    ensures Decode(0x60) == PushOp(1) && Decode(0x61) == PushOp(2) && Decode(0xf4) == DelegateCallOp
  {
  }

  lemma PushStep(e: Env, c: Ctx, code: Bytes, pc: nat, words: seq<U256>, gas: int, n: nat)
    requires At(e, c, code, pc, words, gas) && gas >= GAS_FASTEST && |words| < MAX_STACK_DEPTH
    requires 0 < n <= 32 && pc + 1 + n <= |code| < TWO_64 && Decode(code[pc]) == PushOp(n)
    ensures var d := Step(e, c);
      && At(e, d, code, pc + 1 + n, words + [WordFromBE(code[pc + 1..pc + 1 + n])], gas - GAS_FASTEST)
      && d == c.(cur := d.cur) && d.cur.callee == c.cur.callee && d.cur.callType == c.cur.callType
  {
    hide Decode, FrameOp, Step, Disciplined, PushConst, WordFromBE;
    IsRunning(e, c);
    var v := WordFromBE(PushedData(c.cur));
    FramePush(e, n, PushedData(c.cur), c.cur);
    Pushed(c.cur, GAS_FASTEST, v);
    FrameStep(e, c, PushConst(c.cur, GAS_FASTEST, v).state);
    StepKeeps(e, c);
  }

  // PUSH1 of a given byte.
  lemma PushByte(e: Env, c: Ctx, code: Bytes, pc: nat, words: seq<U256>, gas: int)
    requires At(e, c, code, pc, words, gas) && gas >= GAS_FASTEST && |words| < MAX_STACK_DEPTH
    requires pc + 2 <= |code| < TWO_64 && code[pc] == 0x60
    ensures var d := Step(e, c);
      && At(e, d, code, pc + 2, words + [code[pc + 1]], gas - GAS_FASTEST)
      && d == c.(cur := d.cur) && d.cur.callee == c.cur.callee && d.cur.callType == c.cur.callType
  {
    hide Decode, Step, At;
    PushCodes();
    PushStep(e, c, code, pc, words, gas, 1);
    OneByte(code[pc + 1]);
    assert code[pc + 1..pc + 2] == [code[pc + 1]];
  }

  lemma OneByte(b: Byte)
    ensures WordFromBE([b]) == b
  {
    assert FromBE([b]) == 256 * FromBE([b][..0]) + b;
  }

  // From pc on the code is PUSH1 of each of the values.
  predicate PushesAt(code: Bytes, pc: nat, vals: seq<U256>)
    decreases |vals|
  {
    vals == [] ||
    (pc + 2 <= |code| && code[pc] == 0x60 && code[pc + 1] == vals[0] && PushesAt(code, pc + 2, vals[1..]))
  }

  lemma OnePush(code: Bytes, pc: nat, v: U256, rest: seq<U256>)
    requires pc + 2 <= |code| && code[pc] == 0x60 && code[pc + 1] == v && PushesAt(code, pc + 2, rest)
    ensures PushesAt(code, pc, [v] + rest)
  {
    assert ([v] + rest)[1..] == rest;
  }

  // A number of PUSH1 instructions.
  lemma {:induction false} Pushes(
    e: Env, c: Ctx, code: Bytes, pc: nat, words: seq<U256>, gas: int, vals: seq<U256>
  ) returns (d: Ctx)
    requires At(e, c, code, pc, words, gas) && gas >= GAS_FASTEST * |vals| && |words| + |vals| < MAX_STACK_DEPTH
    requires PushesAt(code, pc, vals) && |code| < TWO_64
    ensures At(e, d, code, pc + 2 * |vals|, words + vals, gas - GAS_FASTEST * |vals|)
    ensures d == c.(cur := d.cur) && d.cur.callee == c.cur.callee && d.cur.callType == c.cur.callType
    ensures Leads(e, c, d)
    decreases |vals|
  {
    hide Step, At, Leads;
    if vals == [] {
      d := c;
      LeadsNowhere(e, c);
      assert words + vals == words;
    } else {
      AtRuns(e, c, code, pc, words, gas);
      PushByte(e, c, code, pc, words, gas);
      var rest := vals[1..];
      d := Pushes(e, Step(e, c), code, pc + 2, words + [vals[0]], gas - GAS_FASTEST, rest);
      assert words + [vals[0]] + rest == words + vals;
      LeadsOn(e, c, d);
    }
  }

  // ---------- delegating ----------

  // The words of a DELEGATECALL without input or room for returned data.
  function CallWords(kept: seq<U256>, lib: Addr, asked: U256): seq<U256> {
    kept + [0, 0, 0, 0, lib, asked]
  }

  lemma DelegateArgs(f: Frame, fee: nat, kept: seq<U256>, lib: Addr, asked: U256)
    requires fee <= f.gas && Words(f) == CallWords(kept, lib, asked)
    ensures f.stack.top == |kept| + 6
    ensures PopCallArgs(f, DelegateCall, fee)
         == Ok(Drop(f.(gas := f.gas - fee), 6), CallArgs(asked, lib, 0, [], 0, 0, 0))
    ensures Words(Drop(f, 6)) == kept
  {
    hide PopCallTail;
    var g := f.(gas := f.gas - fee);
    var last: seq<U256> := [0, 0, 0, 0, lib, asked];
    forall k | 1 <= k <= 6 ensures Below(f, k) == last[6 - k] {
      assert Words(f)[|kept| + 6 - k] == last[6 - k];
    }
    forall k | 1 <= k <= 4 ensures Below(Drop(g, 2), k) == 0 {
      assert Below(Drop(g, 2), k) == Below(f, k + 2);
    }
    GasBound.IdleTail(Drop(g, 2));
    WordsUnder(f, kept, last);
  }

  lemma WordsUnder(f: Frame, kept: seq<U256>, last: seq<U256>)
    requires Words(f) == kept + last
    ensures f.stack.top == |kept| + |last| && Words(Drop(f, |last|)) == kept
  {
    assert Words(Drop(f, |last|)) == Words(f)[..|kept|];
  }

  lemma DelegateFund(e: Env, c: Ctx, lib: Addr, asked: U256)
    requires c.cur.gas >= 90000 && asked <= 30000
    ensures var r := FundCall(e, c, DelegateCall, CallArgs(asked, lib, 0, [], 0, 0, 0));
      && r.Ok? && r.value == CallRequest(asked, lib, 0, [], 0, 0)
      && r.state == c.(cur := c.cur.(gas := r.state.cur.gas), access := r.state.access)
      && r.state.cur.gas >= c.cur.gas - 32500 && c.access.addrs <= r.state.access.addrs
  {
    hide CallSurcharges;
    DelegateSurcharge(e, c, lib);
  }

  lemma DelegateSurcharge(e: Env, c: Ctx, lib: Addr)
    requires c.cur.gas >= 90000
    ensures var r := CallSurcharges(e, c, DelegateCall, 0, lib, 0);
      && r.Ok? && r.state == c.(cur := c.cur.(gas := r.state.cur.gas), access := r.state.access)
      && r.state.cur.gas >= c.cur.gas - 2500 && c.access.addrs <= r.state.access.addrs
  {
  }

  lemma DelegatePrepared(e: Env, c: Ctx, kept: seq<U256>, lib: Addr, asked: U256)
    requires c.cur.gas >= 100000 && asked <= 30000 && Words(c.cur) == CallWords(kept, lib, asked)
    ensures var r := PrepareCall(e, c, DelegateCall);
      && r.Ok? && r.value == CallRequest(asked, lib, 0, [], 0, 0)
      && c.cur.stack.top >= 6 && Words(Drop(c.cur, 6)) == kept
      && r.state == c.(cur := Drop(c.cur, 6).(gas := r.state.cur.gas), access := r.state.access)
      && r.state.cur.gas >= c.cur.gas - 33500 && c.access.addrs <= r.state.access.addrs
  {
    hide FundCall, PopCallArgs, CallWords;
    DelegateArgs(c.cur, CallBaseFee(e), kept, lib, asked);
    var p := AskedCall(e, c, DelegateCall);
    DelegateFund(e, p.state, lib, asked);
  }

  lemma DelegateOpStep(e: Env, c: Ctx)
    requires c.status.Running? && Fetch(c.cur) == DelegateCallOp && DelegateCallBegin(e, c).Ok?
    ensures Step(e, c) == DelegateCallBegin(e, c).state
  {
    hide DelegateCallBegin, Fetch, Decode;
  }

  // The contract's frame waits with the words it kept, and another one runs for
  // it in the same world.
  ghost predicate Delegated(c: Ctx, d: Ctx, kept: seq<U256>, gas: int) {
    var n := |c.callStack|;
    && |d.callStack| == n + 1 && d.callStack[..n] == c.callStack
    && d.cur.callee == c.cur.callee && d.cur.callType == SubCall(Some(c.world), 0, 0)
    && d.world == c.world && d.refund == c.refund && c.access.addrs <= d.access.addrs
    && var f := d.callStack[n];
       && f == c.cur.(gas := f.gas, stack := f.stack) && Words(f) == kept && f.gas >= gas - 33500
  }

  // The code of the library runs for the contract.
  lemma DelegateStep(
    e: Env, c: Ctx, code: Bytes, pc: nat, kept: seq<U256>, lib: Addr, asked: U256, gas: int
  )
    requires At(e, c, code, pc, CallWords(kept, lib, asked), gas) && gas >= 100000 && asked <= 30000
    requires pc < |code| && code[pc] == 0xf4 && e.From(Homestead)
    requires c.cur.callee !in e.precompiled && |c.callStack| < MAX_CALL_DEPTH
    ensures c.status.Running?
    ensures var d := Step(e, c);
      At(e, d, c.world.GetCode(lib), 0, [], asked) && d.cur.gas == asked && Delegated(c, d, kept, gas)
  {
    hide Decode, Step, Disciplined, PrepareCall, CallWords;
    IsRunning(e, c);
    PushCodes();
    DelegatePrepared(e, c, kept, lib, asked);
    DelegateOpStep(e, c);
    StepKeeps(e, c);
    assert Words(Step(e, c).cur) == [];
  }

  // ---------- starting ----------

  // A message call without value to a contract with some code, and with gas
  // enough for a short run.
  predicate Messages(e: Env, tx: Tx, world: World, code: Bytes) {
    && tx.to.Some? && tx.value == 0 && tx.gas >= 200000 && code != []
    && tx.to.value !in e.precompiled && world.Exist(tx.to.value) && world.GetCode(tx.to.value) == code
  }

  lemma MessageStarts(e: Env, tx: Tx, world: World, code: Bytes)
    requires Messages(e, tx, world, code)
    ensures var c := Start(e, tx, world);
      && At(e, c, code, 0, [], 150000) && |c.callStack| == 1 && c.refund == 0
      && c.cur.callee == tx.to.value && tx.to.value in c.access.addrs
      && (forall a: Addr :: c.world.GetCode(a) == world.GetCode(a))
      && (forall a: Addr, k: U256 :: c.world.GetState(a, k) == world.GetState(a, k))
  {
    hide Disciplined;
    StartKeeps(e, tx, world);
  }
}
