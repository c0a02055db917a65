// Gas over a whole run: the total held by the frames never grows except by
// the stipend of a zero-value call, and without such calls every run ends.
module GasBound {
  import opened Common
  import opened Params
  import opened FlatWorld
  import opened Machine
  import opened CallMemory
  import OperandStack
  import opened Frames
  import opened Instructions
  import opened Interpreter
  import opened CallStack

  // The gas of the stored frames above the placeholder.
  ghost function GasBelow(frames: seq<Frame>): nat {
    if |frames| <= 1 then 0
    else GasBelow(frames[..|frames| - 1]) + frames[|frames| - 1].gas
  }

  // The gas of all frames above the placeholder.
  ghost function GasSum(c: Ctx): nat {
    if c.callStack == [] then 0 else GasBelow(c.callStack) + c.cur.gas
  }

  // The instruction about to run is a CALL or CALLCODE with value zero.
  predicate ZeroValueCall(c: Ctx) {
    var op := Fetch(c.cur);
    (op.CallOp? || op.CallCodeOp?) && c.cur.stack.top >= 3 && Below(c.cur, 3) == 0
  }

  // Of a running state: at least cost has left the frames when the operation
  // completes; a failed one has not added gas or frames.
  ghost predicate Pays(c: Ctx, r: CtxOutcome<()>, cost: int) {
    match r
    case Ok(d, _) => d.status.Running? ==> GasSum(d) + cost <= GasSum(c)
    case Err(d, _) => |d.callStack| <= |c.callStack| && GasSum(d) + (if cost < 0 then cost else 0) <= GasSum(c)
    case Panic(_, _) => true
  }

  lemma PushedGas(frames: seq<Frame>, f: Frame)
    requires frames != []
    ensures GasBelow(frames + [f]) == GasBelow(frames) + f.gas
  {
    assert (frames + [f])[..|frames|] == frames;
  }

  lemma FinishPays(e: Env, c: Ctx, data: Bytes, verdict: Verdict)
    requires Disciplined(e, c)
    ensures Pays(c, FinishCall(e, c, data, verdict), 0)
    ensures var d := FinishCall(e, c, data, verdict).state; |d.callStack| == |c.callStack| - 1
  {
    hide CallEnd, CreateEnd, TxEnd;
    assert FrameInPlace(e, c, |c.callStack|);
  }

  lemma ReturnPays(e: Env, c: Ctx, callType: CallType, data: Bytes, gas: U64, verdict: Verdict)
    requires Disciplined(e, c) && callType.SubCall?
    ensures Pays(c, ReturnWithoutFrame(e, c, callType, data, gas, verdict), -(gas as int))
  {
    hide CallEnd;
  }

  lemma TargetPays(
    e: Env, c: Ctx, precompile: Addr, codeAt: Addr, callee: Addr, caller: Addr,
    input: Bytes, value: U256, gas: U64, callType: CallType, readOnly: bool
  )
    requires Disciplined(e, c) && callType.SubCall?
    ensures Pays(c, CallTarget(e, c, precompile, codeAt, callee, caller, input, value, gas, callType, readOnly),
                 -(gas as int))
  {
    hide ReturnWithoutFrame;
    if precompile in e.precompiled {
      var result := e.precompiled[precompile](input);
      ReturnPays(e, c, callType, result.data, gas, result.verdict);
    } else {
      PushedGas(c.callStack, c.cur);
    }
  }

  lemma CallPays(
    e: Env, c: Ctx, callee: Addr, caller: Addr, input: Bytes, gas: U64, value: U256, callType: CallType
  )
    requires Disciplined(e, c) && callType.SubCall?
    ensures Pays(c, Call_(e, c, callee, caller, input, gas, value, callType), -(gas as int))
  {
    hide ReturnWithoutFrame, CallTarget;
    var d := c.(dirty := c.dirty + {caller, callee});
    SameFramesKeep(e, c, d);
    ReturnPays(e, d, callType, [], gas, Success);
    var w := if c.world.Exist(callee) then c.world else c.world.CreateAccount(callee);
    var t := w.Transfer(caller, callee, value);
    if t.Some? {
      var d' := d.(world := t.value);
      SameFramesKeep(e, d, d');
      ReturnPays(e, d', callType, [], gas, Success);
      TargetPays(e, d', callee, callee, callee, caller, input, value, gas, callType, false);
    }
  }

  lemma CreatePays(
    e: Env, c: Ctx, a: Addr, caller: Addr, code: Bytes, value: U256, gas: U64, callType: CallType
  )
    requires Disciplined(e, c)
    ensures Pays(c, Create_(e, c, a, caller, code, value, gas, callType), -(gas as int))
  {
    PushedGas(c.callStack, c.cur);
  }

  lemma CallBeginPays(e: Env, c: Ctx)
    requires Disciplined(e, c)
    ensures Pays(c, CallBegin(e, c), CallBaseFee(e) - CallStipend(c))
  {
    hide PrepareCall, Call_;
    var r := PrepareCall(e, c, PlainCall);
    PrepareCallKeeps(e, c, PlainCall);
    if r.Ok? {
      var (d, q) := (r.state, r.value);
      CallPays(e, d, q.addr, d.cur.callee, q.input, q.gas, q.value,
               SubCall(Some(d.world), q.retOff, q.retLen));
    }
  }

  // What a CALL or CALLCODE with these arguments adds to what was paid for.
  ghost function CallStipend(c: Ctx): nat {
    if c.cur.stack.top >= 3 && Below(c.cur, 3) == 0 then GAS_CALL_STIPEND else 0
  }

  lemma CallCodeBeginPays(e: Env, c: Ctx)
    requires Disciplined(e, c)
    ensures Pays(c, CallCodeBegin(e, c), CallBaseFee(e) - CallStipend(c))
  {
    hide PrepareCall, CallTarget;
    var r := PrepareCall(e, c, CallCode);
    PrepareCallKeeps(e, c, CallCode);
    if r.Ok? && |c.callStack| < MAX_CALL_DEPTH {
      var (d, q, self) := (r.state, r.value, r.state.cur.callee);
      TargetPays(e, d, self, q.addr, self, self, q.input, q.value, q.gas,
                 SubCall(Some(d.world), q.retOff, q.retLen), false);
    }
  }

  lemma DelegateCallBeginPays(e: Env, c: Ctx)
    requires Disciplined(e, c)
    ensures Pays(c, DelegateCallBegin(e, c), CallBaseFee(e))
  {
    hide PrepareCall, CallTarget;
    var r := PrepareCall(e, c, DelegateCall);
    PrepareCallKeeps(e, c, DelegateCall);
    if r.Ok? && |c.callStack| < MAX_CALL_DEPTH {
      var (d, q, f) := (r.state, r.value, r.state.cur);
      TargetPays(e, d, f.callee, q.addr, f.callee, f.caller, q.input, f.value, q.gas,
                 SubCall(Some(d.world), q.retOff, q.retLen), false);
    }
  }

  lemma StaticCallBeginPays(e: Env, c: Ctx)
    requires Disciplined(e, c)
    ensures Pays(c, StaticCallBegin(e, c), CallBaseFee(e))
  {
    hide PrepareCall, CallTarget;
    var r := PrepareCall(e, c, StaticCall);
    PrepareCallKeeps(e, c, StaticCall);
    if r.Ok? && |c.callStack| < MAX_CALL_DEPTH {
      var (d, q) := (r.state, r.value);
      TargetPays(e, d, q.addr, q.addr, q.addr, d.cur.callee, q.input, 0, q.gas,
                 SubCall(None, q.retOff, q.retLen), true);
    }
  }

  lemma CreateBeginPays(e: Env, c: Ctx)
    requires Disciplined(e, c)
    ensures Pays(c, CreateBegin(e, c), GAS_CREATE)
  {
    hide PrepareCreate, Create_, Charge;
    var paid := Charge(c, GAS_CREATE);
    QuietKeeps(e, c, paid);
    var r := PrepareCreate(e, paid.state, false);
    QuietKeeps(e, paid.state, r);
    if paid.Ok? && r.Ok? {
      var (d, q, self) := (r.state, r.value, r.state.cur.callee);
      var a := e.createAddr(self, d.world.GetNonce(self));
      CreatePays(e, d, a, self, q.code, q.value, q.gas, CreateCall(d.world, a));
    }
  }

  lemma Create2BeginPays(e: Env, c: Ctx)
    requires Disciplined(e, c)
    ensures Pays(c, Create2Begin(e, c), GAS_CREATE2)
  {
    hide PrepareCreate, Create_, Charge;
    var paid := Charge(c, GAS_CREATE2);
    QuietKeeps(e, c, paid);
    var r := PrepareCreate(e, paid.state, true);
    QuietKeeps(e, paid.state, r);
    if paid.Ok? && r.Ok? {
      var (d, q, self) := (r.state, r.value, r.state.cur.callee);
      var a := e.createAddr2(self, q.salt, q.code);
      CreatePays(e, d, a, self, q.code, q.value, q.gas, CreateCall(d.world, a));
    }
  }

  lemma EnterOpPays(e: Env, op: Opcode, c: Ctx)
    requires Disciplined(e, c) && EntersCall(op)
    ensures Pays(c, EnterOp(e, op, c), 1 - if op.CallOp? || op.CallCodeOp? then CallStipend(c) else 0)
  {
    hide CallBegin, CallCodeBegin, DelegateCallBegin, StaticCallBegin, CreateBegin, Create2Begin;
    match op {
      case CreateOp => CreateBeginPays(e, c);
      case CallOp => CallBeginPays(e, c);
      case CallCodeOp => CallCodeBeginPays(e, c);
      case DelegateCallOp => DelegateCallBeginPays(e, c);
      case Create2Op => Create2BeginPays(e, c);
      case StaticCallOp => StaticCallBeginPays(e, c);
    }
  }

  lemma EndOpPays(e: Env, op: Opcode, c: Ctx)
    requires Disciplined(e, c) && EndsFrame(op)
    ensures var r := EndOp(e, op, c);
      Pays(c, r, 0) && (r.Ok? ==> |r.state.callStack| < |c.callStack|)
  {
    hide FinishCall, Return, Revert, SelfDestruct;
    match op {
      case Stop => FinishPays(e, c, [], Success);
      case ReturnOp => ReturnOpsPay(e, c);
      case RevertOp => ReturnOpsPay(e, c);
      case SelfDestructOp => SelfDestructPays(e, c);
    }
  }

  lemma ReturnOpsPay(e: Env, c: Ctx)
    requires Disciplined(e, c)
    ensures Pays(c, Return(e, c), 0) && (Return(e, c).Ok? ==> |Return(e, c).state.callStack| < |c.callStack|)
    ensures Pays(c, Revert(e, c), 0) && (Revert(e, c).Ok? ==> |Revert(e, c).state.callStack| < |c.callStack|)
  {
    hide FinishCall, ReturnData;
    var r := ReturnData(c);
    QuietKeeps(e, c, r);
    if r.Ok? {
      FinishPays(e, r.state, r.value, Success);
      FinishPays(e, r.state, r.value, Failure(RevertedCall));
    }
  }

  lemma SelfDestructPays(e: Env, c: Ctx)
    requires Disciplined(e, c)
    ensures var r := SelfDestruct(e, c); Pays(c, r, 0) && (r.Ok? ==> |r.state.callStack| < |c.callStack|)
  {
    hide FinishCall, PrepareSelfDestruct;
    var r := PrepareSelfDestruct(e, c);
    QuietKeeps(e, c, r);
    if r.Ok? {
      BequeathKeeps(e, r.state, r.value);
      FinishPays(e, Bequeath(r.state, r.value), [], Success);
    }
  }

  // EXP with a zero exponent and SSTORE before Constantinople are free.
  predicate MayBeFree(op: Opcode) { op.ExpOp? || op.SStoreOp? }

  lemma PlainPays(e: Env, op: Opcode, data: Bytes, c: Ctx)
    requires Disciplined(e, c) && |data| <= 32
    requires !EntersCall(op) && !EndsFrame(op)
    ensures var r := Exec(e, op, data, c);
      && Pays(c, r, if MayBeFree(op) then 0 else 1)
      && r.state.callStack == c.callStack
      && r.state.cur.code == c.cur.code
      && (MayBeFree(op) ==> r.state.cur.pc == c.cur.pc)
  {
    hide SStore, Log, Jump, JumpI, QuietOp, Pays;
    if op.SStoreOp? {
      SStorePays(e, c);
    } else if op.LogOp? {
      LogPays(e, c, op.topics);
    } else if op.JumpOp? || op.JumpIOp? {
      JumpsPay(e, c);
    } else {
      QuietPays(e, c, QuietOp(e, op, data, c), if op.ExpOp? then 0 else 1);
    }
  }

  lemma JumpsPay(e: Env, c: Ctx)
    requires Disciplined(e, c)
    ensures Pays(c, Jump(c), 1) && Pays(c, JumpI(c), 1)
    ensures Jump(c).state.callStack == c.callStack && Jump(c).state.cur.code == c.cur.code
    ensures JumpI(c).state.callStack == c.callStack && JumpI(c).state.cur.code == c.cur.code
  {
    hide Jump, JumpI;
  }

  lemma QuietPays(e: Env, c: Ctx, r: CtxOutcome<()>, cost: nat)
    requires Disciplined(e, c) && QuietCharges(c, r, cost)
    ensures Pays(c, r, cost) && r.state.callStack == c.callStack
    ensures r.state.cur.code == c.cur.code && r.state.cur.pc == c.cur.pc
  {
  }

  lemma SStorePays(e: Env, c: Ctx)
    requires Disciplined(e, c)
    ensures var r := SStore(e, c);
      Pays(c, r, 0) && r.state.callStack == c.callStack
      && r.state.cur.code == c.cur.code && r.state.cur.pc == c.cur.pc
  {
    hide SStoreGas;
  }

  lemma LogPays(e: Env, c: Ctx, num: nat)
    requires Disciplined(e, c)
    ensures var r := Log(e, c, num);
      Pays(c, r, 1) && r.state.callStack == c.callStack && r.state.cur.code == c.cur.code
  {
    hide LogRecord;
  }

  // ---------- a step ----------

  ghost function Remaining(c: Ctx): nat {
    if c.cur.pc < |c.cur.code| then |c.cur.code| - c.cur.pc else 0
  }

  // Less gas; or as much in fewer frames; or as much in the same frames with
  // less code ahead.
  ghost predicate Before(d: Ctx, c: Ctx) {
    || GasSum(d) < GasSum(c)
    || (GasSum(d) == GasSum(c)
        && (|d.callStack| < |c.callStack|
            || (|d.callStack| == |c.callStack| && Remaining(d) < Remaining(c))))
  }

  lemma {:induction false} UnwindPays(e: Env, c: Ctx, r: CtxOutcome<()>, bound: nat)
    requires Keeps(e, r) && r.Err?
    requires GasSum(r.state) <= bound
    ensures var u := Unwind(e, r);
      u.Ok? && u.state.status.Running? ==>
        GasSum(u.state) <= bound && |u.state.callStack| < |r.state.callStack|
    decreases |r.state.callStack|
  {
    hide FinishCall;
    FinishKeeps(e, r.state, [], Failure(r.error));
    FinishPays(e, r.state, [], Failure(r.error));
    var next := FinishCall(e, r.state, [], Failure(r.error));
    if next.Err? {
      UnwindPays(e, c, next, bound);
    }
  }

  lemma AdvanceKeepsGas(c: Ctx, skip: nat)
    ensures GasSum(AdvancePc(c, skip)) == GasSum(c)
  {
  }

  // The gas of the frames never rises in a step, except that a zero-value CALL
  // or CALLCODE may add its stipend.
  lemma StepGas(e: Env, c: Ctx)
    requires Disciplined(e, c)
    ensures var d := Step(e, c);
      d.status.Running? ==>
        GasSum(d) <= GasSum(c) + if ZeroValueCall(c) then GAS_CALL_STIPEND else 0
    ensures var d := Step(e, c);
      d.status.Running? && !ZeroValueCall(c) ==> Before(d, c)
  {
    hide Exec, Unwind;
    if Fetchable(c.cur) {
      var op := Fetch(c.cur);
      var r := Exec(e, op, PushedData(c.cur), c);
      var u := Unwind(e, r);
      ExecKeeps(e, op, PushedData(c.cur), c);
      ExecPays(e, op, PushedData(c.cur), c);
      var slack := if ZeroValueCall(c) then GAS_CALL_STIPEND else 0;
      if r.Err? {
        UnwindPays(e, c, r, GasSum(c) + slack);
      }
      AdvanceKeepsGas(u.state, PushWidth(op));
    }
  }

  lemma ExecPays(e: Env, op: Opcode, data: Bytes, c: Ctx)
    requires Disciplined(e, c) && |data| <= 32 && op == Fetch(c.cur)
    ensures var r := Exec(e, op, data, c);
      if EntersCall(op) then Pays(c, r, 1 - if ZeroValueCall(c) then GAS_CALL_STIPEND else 0)
      else if EndsFrame(op) then Pays(c, r, 0) && (r.Ok? ==> |r.state.callStack| < |c.callStack|)
      else
        && Pays(c, r, if MayBeFree(op) then 0 else 1)
        && r.state.callStack == c.callStack
        && r.state.cur.code == c.cur.code
        && (MayBeFree(op) ==> r.state.cur.pc == c.cur.pc)
  {
    hide EnterOp, EndOp;
    if EntersCall(op) {
      EnterOpPays(e, op, c);
    } else if EndsFrame(op) {
      EndOpPays(e, op, c);
    } else {
      PlainPays(e, op, data, c);
    }
  }

  // ---------- a run ----------

  // How many zero-value calls the first n steps make.
  ghost function FreeCalls(e: Env, c: Ctx, n: nat): nat
    decreases n
  {
    if n == 0 || !c.status.Running? then 0
    else (if ZeroValueCall(c) then 1 else 0) + FreeCalls(e, Step(e, c), n - 1)
  }

  // Over any number of steps the frames gain at most one stipend per
  // zero-value call.
  lemma {:induction false} RunGas(e: Env, c: Ctx, n: nat)
    requires Disciplined(e, c)
    ensures var d := Run(e, c, n);
      d.status.Running? ==> GasSum(d) <= GasSum(c) + GAS_CALL_STIPEND * FreeCalls(e, c, n)
    decreases n
  {
    hide Step;
    if n > 0 {
      StepGas(e, c);
      StepKeeps(e, c);
      if Step(e, c).status.Running? {
        RunGas(e, Step(e, c), n - 1);
      }
    }
  }

  ghost predicate NoFreeCalls(e: Env, c: Ctx) {
    forall n: nat :: var d := Run(e, c, n); d.status.Running? ==> !ZeroValueCall(d)
  }

  lemma NoFreeCallsAfterStep(e: Env, c: Ctx)
    requires c.status.Running? && NoFreeCalls(e, c)
    ensures !ZeroValueCall(c) && NoFreeCalls(e, Step(e, c))
  {
    hide Step, ZeroValueCall;
    assert Run(e, c, 0) == c;
    forall n: nat
      ensures var d := Run(e, Step(e, c), n); d.status.Running? ==> !ZeroValueCall(d)
    {
      assert Run(e, c, n + 1) == Run(e, Step(e, c), n);
    }
  }

  // Every run whose CALLs and CALLCODEs carry value ends.
  lemma {:induction false} RunEnds(e: Env, c: Ctx) returns (n: nat)
    requires Disciplined(e, c) && NoFreeCalls(e, c)
    ensures !Run(e, c, n).status.Running?
    decreases GasSum(c), |c.callStack|, Remaining(c)
  {
    hide Step, ZeroValueCall;
    var d := Step(e, c);
    NoFreeCallsAfterStep(e, c);
    if d.status.Running? {
      StepGas(e, c);
      StepKeeps(e, c);
      var m := RunEnds(e, d);
      n := m + 1;
    } else {
      n := 1;
      assert Run(e, c, 1) == Run(e, d, 0);
    }
  }

  // ---------- a transaction ----------

  // What the current frame has can be added to what its caller has.
  ghost predicate HandsBackFitting(c: Ctx) {
    |c.callStack| >= 2 ==> c.callStack[|c.callStack| - 1].gas + c.cur.gas < TWO_64
  }

  // The same at every frame that ends with a failing one.
  ghost predicate UnwindFits(e: Env, r: CtxOutcome<()>)
    decreases |r.state.callStack|
  {
    r.Err? && |r.state.callStack| >= 2 ==>
      HandsBackFitting(r.state) && UnwindFits(e, FinishCall(e, r.state, [], Failure(r.error)))
  }

  // What a call instruction takes along can be given back at once.
  ghost predicate EntryFits(e: Env, op: Opcode, c: Ctx) {
    var kind := if op.CallOp? then PlainCall else if op.CallCodeOp? then CallCode
                else if op.DelegateCallOp? then DelegateCall else StaticCall;
    var p := PrepareCall(e, c, kind);
    EntersCall(op) && !op.CreateOp? && !op.Create2Op? && p.Ok? ==> p.state.cur.gas + p.value.gas < TWO_64
  }

  // No addition of gas wraps in a step: a frame that ends hands back no more than
  // it has now, a call that needs no frame what it took along, and failing frames
  // what they have left.
  ghost predicate AddsFitting(e: Env, c: Ctx) {
    && HandsBackFitting(c)
    && (Fetchable(c.cur) ==>
          && EntryFits(e, Fetch(c.cur), c)
          && UnwindFits(e, Exec(e, Fetch(c.cur), PushedData(c.cur), c)))
  }

  lemma FittingSum(c: Ctx)
    requires GasSum(c) < TWO_64
    ensures HandsBackFitting(c)
  {
  }

  lemma {:induction false} FittingUnwind(e: Env, r: CtxOutcome<()>)
    requires Keeps(e, r) && (r.Err? ==> GasSum(r.state) < TWO_64)
    ensures UnwindFits(e, r)
    decreases |r.state.callStack|
  {
    hide FinishCall;
    if r.Err? && |r.state.callStack| >= 2 {
      FittingSum(r.state);
      FinishKeeps(e, r.state, [], Failure(r.error));
      FinishPays(e, r.state, [], Failure(r.error));
      FittingUnwind(e, FinishCall(e, r.state, [], Failure(r.error)));
    }
  }

  lemma FittingEntry(e: Env, op: Opcode, c: Ctx)
    requires op == Fetch(c.cur) && !ZeroValueCall(c)
    ensures EntryFits(e, op, c)
  {
    hide PrepareCall, Fetch;
  }

  lemma FittingStep(e: Env, c: Ctx)
    requires Disciplined(e, c) && !ZeroValueCall(c) && GasSum(c) < TWO_64
    ensures AddsFitting(e, c)
  {
    hide Exec, Fetch, Disciplined, GasSum, HandsBackFitting, EntryFits, UnwindFits;
    FittingSum(c);
    if Fetchable(c.cur) {
      var op := Fetch(c.cur);
      FittingEntry(e, op, c);
      ExecKeeps(e, op, PushedData(c.cur), c);
      ExecPays(e, op, PushedData(c.cur), c);
      FittingUnwind(e, Exec(e, op, PushedData(c.cur), c));
    }
  }

  lemma {:induction false} NoFreeCallsCounted(e: Env, c: Ctx, n: nat)
    requires NoFreeCalls(e, c)
    ensures FreeCalls(e, c, n) == 0
    decreases n
  {
    hide Step, ZeroValueCall, NoFreeCalls;
    if n > 0 && c.status.Running? {
      NoFreeCallsAfterStep(e, c);
      NoFreeCallsCounted(e, Step(e, c), n - 1);
    }
  }

  lemma StartGas(e: Env, tx: Tx, world: World)
    ensures var c := Start(e, tx, world);
      c.status.Running? ==> GasSum(c) <= Wrap64(tx.gas - GAS_TX)
  {
    hide TxEnd;
    StartKeeps(e, tx, world);
  }

  // The frames of a transaction never hold more gas than it was given and one
  // stipend for each zero-value call it made. Without such calls it ends, and no
  // addition of gas in any of its steps wraps.
  lemma TransactionGas(e: Env, tx: Tx, world: World)
    ensures forall n: nat :: var c := Execution(e, tx, world, n);
      c.status.Running? ==>
        GasSum(c) <= Wrap64(tx.gas - GAS_TX) + GAS_CALL_STIPEND * FreeCalls(e, Start(e, tx, world), n)
    ensures NoFreeCalls(e, Start(e, tx, world)) ==>
      exists n: nat :: !Execution(e, tx, world, n).status.Running?
    ensures NoFreeCalls(e, Start(e, tx, world)) ==>
      forall n: nat :: var c := Execution(e, tx, world, n); c.status.Running? ==> AddsFitting(e, c)
  {
    hide Start, Run, ZeroValueCall, FreeCalls, GasSum, AddsFitting, NoFreeCalls;
    var c := Start(e, tx, world);
    StartGas(e, tx, world);
    StartKeeps(e, tx, world);
    if c.status.Running? {
      forall n: nat
        ensures var d := Execution(e, tx, world, n);
          d.status.Running? ==>
            GasSum(d) <= Wrap64(tx.gas - GAS_TX) + GAS_CALL_STIPEND * FreeCalls(e, c, n)
      {
        RunGas(e, c, n);
      }
      if NoFreeCalls(e, c) {
        forall n: nat
          ensures var d := Execution(e, tx, world, n); d.status.Running? ==> AddsFitting(e, d)
        {
          RunGas(e, c, n);
          NoFreeCallsCounted(e, c, n);
          NoFreeCallAt(e, c, n);
          if Run(e, c, n).status.Running? {
            RunKeeps(e, c, n);
            FittingStep(e, Run(e, c, n));
          }
        }
      }
      if NoFreeCalls(e, c) {
        var n := RunEnds(e, c);
        assert !Execution(e, tx, world, n).status.Running?;
      }
    } else {
      forall n: nat
        ensures Execution(e, tx, world, n) == c
      {
        StoppedRun(e, c, n);
      }
      assert !Execution(e, tx, world, 0).status.Running?;
    }
  }

  lemma NoFreeCallAt(e: Env, c: Ctx, n: nat)
    requires NoFreeCalls(e, c)
    ensures var d := Run(e, c, n); d.status.Running? ==> !ZeroValueCall(d)
  {
  }

  lemma StoppedRun(e: Env, c: Ctx, n: nat)
    requires !c.status.Running?
    ensures Run(e, c, n) == c
  {
  }

  // ---------- what exactly a zero-value call adds ----------

  predicate KeepsGas(verdict: Verdict) { verdict.Success? || verdict.error.RevertedCall? }

  // The gas in the frames after a call was made with some gas that its caller
  // has handed over, less what a precompiled contract failed with.
  ghost predicate Holds(c: Ctx, r: CtxOutcome<()>, gas: int) {
    r.Ok? ==> GasSum(r.state) == GasSum(c) + gas
  }

  lemma ReturnGas(e: Env, c: Ctx, callType: CallType, data: Bytes, gas: U64, verdict: Verdict)
    requires callType.SubCall? && c.callStack != [] && c.cur.gas + gas < TWO_64
    ensures Holds(c, ReturnWithoutFrame(e, c, callType, data, gas, verdict), if KeepsGas(verdict) then gas else 0)
  {
    hide CallEnd;
    var r := CallEnd(c, callType.callSnapshot, callType.retOff, callType.retLen, data, gas, verdict);
    EndGas(c, callType.callSnapshot, callType.retOff, callType.retLen, data, gas, verdict);
    if r.Ok? {
      AdvanceKeepsGas(r.state, 0);
    }
  }

  lemma EndGas(c: Ctx, snapshot: Option<World>, retOff: U256, retLen: U256, data: Bytes, gas: U64, verdict: Verdict)
    requires c.cur.gas + gas < TWO_64
    ensures var r := CallEnd(c, snapshot, retOff, retLen, data, gas, verdict);
      r.Ok? ==> r.state.callStack == c.callStack
                && r.state.cur.gas == c.cur.gas + if KeepsGas(verdict) then gas else 0
  {
  }

  // The verdict of a call that comes back at once.
  function VerdictAtOnce(e: Env, precompile: Addr, input: Bytes): Verdict {
    if precompile in e.precompiled then e.precompiled[precompile](input).verdict else Success
  }

  lemma TargetGas(
    e: Env, c: Ctx, precompile: Addr, codeAt: Addr, callee: Addr, caller: Addr,
    input: Bytes, value: U256, gas: U64, callType: CallType, readOnly: bool
  )
    requires callType.SubCall? && c.callStack != [] && c.cur.gas + gas < TWO_64
    ensures Holds(c, CallTarget(e, c, precompile, codeAt, callee, caller, input, value, gas, callType, readOnly),
                  if KeepsGas(VerdictAtOnce(e, precompile, input)) then gas else 0)
  {
    hide ReturnWithoutFrame;
    if precompile in e.precompiled {
      var result := e.precompiled[precompile](input);
      ReturnGas(e, c, callType, result.data, gas, result.verdict);
    } else {
      PushedGas(c.callStack, c.cur);
    }
  }

  lemma CalledGas(
    e: Env, c: Ctx, callee: Addr, caller: Addr, input: Bytes, gas: U64, value: U256, callType: CallType
  )
    requires callType.SubCall? && c.callStack != [] && c.cur.gas + gas < TWO_64
    ensures Holds(c, Call_(e, c, callee, caller, input, gas, value, callType),
                  if KeepsGas(VerdictAtOnce(e, callee, input)) then gas else 0)
  {
    hide ReturnWithoutFrame, CallTarget;
    var d := c.(dirty := c.dirty + {caller, callee});
    ReturnGas(e, d, callType, [], gas, Success);
    var w := if c.world.Exist(callee) then c.world else c.world.CreateAccount(callee);
    var t := w.Transfer(caller, callee, value);
    if t.Some? {
      var d' := d.(world := t.value);
      ReturnGas(e, d', callType, [], gas, Success);
      TargetGas(e, d', callee, callee, callee, caller, input, value, gas, callType, false);
    }
  }

  // The fees of a call that transfers nothing: the base fee, the memory it
  // touches, and from Berlin on an address not touched before.
  function FreeCallFees(e: Env, c: Ctx, kind: CallKind): nat {
    var p := PopCallArgs(c.cur, kind, CallBaseFee(e));
    CallBaseFee(e)
    + if p.Ok? then
        p.value.memGas
        + (if e.From(Berlin) && p.value.addr !in c.access.addrs then
             GAS_COLD_ACCOUNT_ACCESS_COST_BERLIN - GAS_WARM_STORAGE_READ_COST_BERLIN
           else 0)
      else 0
  }

  lemma FreeCallPrepared(e: Env, c: Ctx, kind: CallKind)
    requires HasValue(kind) && c.cur.stack.top >= 3 && Below(c.cur, 3) == 0
    requires c.cur.gas + GAS_CALL_STIPEND < TWO_64
    ensures var r := PrepareCall(e, c, kind);
      r.Ok? ==>
        r.state.cur.gas + r.value.gas == c.cur.gas + GAS_CALL_STIPEND - FreeCallFees(e, c, kind)
  {
    hide PopCallArgs;
    var p := PopCallArgs(c.cur, kind, CallBaseFee(e));
    ArgsGas(c.cur, kind, CallBaseFee(e));
    if p.Ok? {
      FundedGas(e, c.(cur := p.state), kind, p.value);
    }
  }

  lemma ArgsGas(f: Frame, kind: CallKind, fee: nat)
    ensures var r := PopCallArgs(f, kind, fee); r.Ok? ==> r.state.gas == f.gas - fee
  {
  }

  lemma FundedGas(e: Env, c: Ctx, kind: CallKind, args: CallArgs)
    requires HasValue(kind) && args.value == 0 && c.cur.gas + GAS_CALL_STIPEND < TWO_64
    ensures var r := FundCall(e, c, kind, args);
      r.Ok? ==>
        r.state.cur.gas + r.value.gas
          == c.cur.gas + GAS_CALL_STIPEND - args.memGas
             - (if e.From(Berlin) && args.addr !in c.access.addrs then
                  GAS_COLD_ACCOUNT_ACCESS_COST_BERLIN - GAS_WARM_STORAGE_READ_COST_BERLIN
                else 0)
  {
  }

  // Exactly what a zero-value CALL or CALLCODE that completes does to the gas in
  // the frames: the stipend is added, its fees are taken, and what a precompiled
  // contract that failed for good was given is lost.
  lemma ZeroValueCallGas(e: Env, c: Ctx)
    requires Disciplined(e, c) && ZeroValueCall(c) && c.cur.gas + GAS_CALL_STIPEND < TWO_64
    ensures var op, d := Fetch(c.cur), Step(e, c);
      var kind := if op.CallOp? then PlainCall else CallCode;
      var p := PrepareCall(e, c, kind);
      EnterOp(e, op, c).Ok? ==>
        && p.Ok?
        && var precompile := if op.CallOp? then p.value.addr else c.cur.callee;
           GasSum(d) == GasSum(c) + GAS_CALL_STIPEND - FreeCallFees(e, c, kind)
                        - if KeepsGas(VerdictAtOnce(e, precompile, p.value.input)) then 0 else p.value.gas
  {
    hide PrepareCall, Call_, CallTarget, Fetch;
    var op := Fetch(c.cur);
    var kind := if op.CallOp? then PlainCall else CallCode;
    FreeCallPrepared(e, c, kind);
    EnteredStep(e, c);
    var p := PrepareCall(e, c, kind);
    if p.Ok? {
      var (d, q) := (p.state, p.value);
      var self, saved := d.cur.callee, SubCall(Some(d.world), q.retOff, q.retLen);
      assert self == c.cur.callee && d.callStack == c.callStack;
      if op.CallOp? {
        CalledGas(e, d, q.addr, self, q.input, q.gas, q.value, saved);
      } else {
        TargetGas(e, d, self, q.addr, self, self, q.input, q.value, q.gas, saved, false);
      }
    }
  }

  lemma EnteredStep(e: Env, c: Ctx)
    requires c.status.Running? && EntersCall(Fetch(c.cur))
    ensures EnterOp(e, Fetch(c.cur), c).Ok? ==> Step(e, c) == EnterOp(e, Fetch(c.cur), c).state
  {
    hide EnterOp, Fetch, Decode;
  }

  // ---------- the stipend of a zero-value call is free gas ----------

  // About to run a CALL with value zero and no input or output to a warm,
  // existing account without code.
  predicate IdleCall(e: Env, c: Ctx) {
    && e.From(Berlin)
    && Fetch(c.cur) == CallOp
    && c.cur.stack.top >= 7
    && (forall k | 3 <= k <= 7 :: Below(c.cur, k) == 0)
    && |c.callStack| < MAX_CALL_DEPTH
    && GAS_WARM_STORAGE_READ_COST_BERLIN <= c.cur.gas < TWO_64 - GAS_CALL_STIPEND
    && var a := ToAddr(Below(c.cur, 2));
       a in c.access.addrs && c.world.Exist(a) && c.world.GetCode(a) == [] && a !in e.precompiled
  }

  lemma EmptySlice(f: Frame)
    ensures var r := Slice(f, 0, 0); r.Ok? && r.state == f && r.value.0 == [] && r.value.1 == 0
  {
  }

  lemma IdleTail(f: Frame)
    requires f.stack.top >= 4 && forall k | 1 <= k <= 4 :: Below(f, k) == 0
    ensures var r := PopCallTail(f);
      && r.Ok? && r.state == Drop(f, 4)
      && r.value.0.0 == [] && r.value.0.1 == 0 && r.value.1 == (0, 0)
  {
    hide Slice;
    EmptySlice(Drop(f, 4));
    assert Below(Drop(f, 2), 1) == Below(f, 3) && Below(Drop(f, 2), 2) == Below(f, 4);
  }

  lemma IdleArgs(f: Frame, fee: nat)
    requires f.stack.top >= 7 && fee <= f.gas
    requires forall k | 3 <= k <= 7 :: Below(f, k) == 0
    ensures PopCallArgs(f, PlainCall, fee)
         == Ok(Drop(f.(gas := f.gas - fee), 7),
               CallArgs(Below(f, 1), ToAddr(Below(f, 2)), 0, [], 0, 0, 0))
  {
    hide PopCallTail;
    var g := f.(gas := f.gas - fee);
    forall k | 1 <= k <= 4
      ensures Below(Drop(g, 3), k) == 0
    {
      assert Below(Drop(g, 3), k) == Below(f, k + 3);
    }
    IdleTail(Drop(g, 3));
    assert Below(g, 3) == Below(f, 3) == 0;
  }

  lemma IdleFund(e: Env, c: Ctx, args: CallArgs)
    requires args.addr in c.access.addrs && args.value == 0 && args.memGas == 0
    requires e.From(Berlin) && c.cur.gas < TWO_64 - GAS_CALL_STIPEND
    ensures var r := FundCall(e, c, PlainCall, args);
      && r.Ok?
      && r.state == c.(cur := c.cur.(gas := r.state.cur.gas))
      && r.state.cur.gas + r.value.gas == c.cur.gas + GAS_CALL_STIPEND
      && r.value.addr == args.addr && r.value.value == 0
      && r.value.retOff == args.retOff && r.value.retLen == args.retLen
  {
    var r := CallSurcharges(e, c, PlainCall, 0, args.addr, 0);
    assert r.Ok? && r.state == c;
  }

  lemma IdleCallPrepared(e: Env, c: Ctx)
    requires IdleCall(e, c)
    ensures var r := PrepareCall(e, c, PlainCall);
      && r.Ok?
      && r.state == c.(cur := Drop(c.cur, 7).(gas := r.state.cur.gas))
      && r.state.cur.gas + r.value.gas == c.cur.gas - GAS_WARM_STORAGE_READ_COST_BERLIN + GAS_CALL_STIPEND
      && r.value.addr == ToAddr(Below(c.cur, 2)) && r.value.value == 0
      && r.value.retOff == 0 && r.value.retLen == 0
  {
    hide AskedCall, FundCall;
    IdleAsked(e, c);
    var p := AskedCall(e, c, PlainCall);
    IdleFund(e, p.state, p.value);
  }

  lemma IdleAsked(e: Env, c: Ctx)
    requires IdleCall(e, c)
    ensures AskedCall(e, c, PlainCall)
         == Ok(c.(cur := Drop(c.cur.(gas := c.cur.gas - GAS_WARM_STORAGE_READ_COST_BERLIN), 7)),
               CallArgs(Below(c.cur, 1), ToAddr(Below(c.cur, 2)), 0, [], 0, 0, 0))
  {
    hide PopCallArgs;
    IdleArgs(c.cur, CallBaseFee(e));
  }

  // The call's seven words have become a one, and the stipend less the charge for
  // a warm address has been added.
  ghost predicate CameBack(c: Ctx, d: Ctx) {
    var self, top := c.cur.callee, c.cur.stack.top;
    && d.status.Running? && d.callStack == c.callStack && d.access == c.access
    && top >= 7 && 0 <= d.cur.gas == c.cur.gas + GAS_CALL_STIPEND - GAS_WARM_STORAGE_READ_COST_BERLIN
    && d.cur == c.cur.(
         gas := d.cur.gas, pc := Wrap64(c.cur.pc + 1), lastReturned := [],
         stack := OperandStack.Words(c.cur.stack.slots[top - 7 := 1], top - 6))
    && (c.world.Exist(self) ==> d.world.Exist(self)) && d.world.GetCode(self) == c.world.GetCode(self)
  }

  // Such a call comes back at once and leaves the frame with 2200 more gas than
  // before.
  lemma IdleCallAddsGas(e: Env, c: Ctx)
    requires Disciplined(e, c) && IdleCall(e, c)
    ensures CameBack(c, Step(e, c))
    ensures GasSum(Step(e, c)) == GasSum(c) + GAS_CALL_STIPEND - GAS_WARM_STORAGE_READ_COST_BERLIN
  {
    hide PrepareCall, Call_, Fetch;
    IdleCallPrepared(e, c);
    var r := PrepareCall(e, c, PlainCall);
    IdleCallReturns(e, r.state, r.value);
    EnteredStep(e, c);
  }

  lemma IdleCallReturns(e: Env, c: Ctx, q: CallRequest)
    requires |c.callStack| < MAX_CALL_DEPTH && c.cur.stack.top < MAX_STACK_DEPTH
    requires c.world.Exist(q.addr) && c.world.GetCode(q.addr) == [] && q.addr !in e.precompiled
    requires q.value == 0 && q.retOff == 0 && q.retLen == 0 && c.cur.gas + q.gas < TWO_64
    ensures var r := Call_(e, c, q.addr, c.cur.callee, q.input, q.gas, q.value,
                           SubCall(Some(c.world), q.retOff, q.retLen));
      && r.Ok? && r.state.callStack == c.callStack && r.state.status == c.status && r.state.access == c.access
      && r.state.cur == c.cur.(
           gas := c.cur.gas + q.gas, pc := Wrap64(c.cur.pc + 1), lastReturned := [],
           stack := OperandStack.Words(c.cur.stack.slots[c.cur.stack.top := 1], c.cur.stack.top + 1))
      && (c.world.Exist(c.cur.callee) ==> r.state.world.Exist(c.cur.callee))
      && r.state.world.GetCode(c.cur.callee) == c.world.GetCode(c.cur.callee)
  {
    IdleTransfer(c.world, c.cur.callee, q.addr);
    EmptySlice(c.cur);
    assert CopyIn(c.cur.memory, 0, 0, []) == CallMemory.Done(c.cur.memory, 0) by {
      EmptyCopy(c.cur.memory);
    }
  }

  lemma EmptyCopy(m: Mem)
    ensures CopyIn(m, 0, 0, []) == CallMemory.Done(m, 0)
  {
    assert m.space[..0] + [] + m.space[0..] == m.space;
  }

  lemma IdleTransfer(w: World, from: Addr, to: Addr)
    ensures var t := w.Transfer(from, to, 0);
      && t.Some?
      && t.value.GetCode(to) == w.GetCode(to) && t.value.GetCode(from) == w.GetCode(from)
      && (w.Exist(from) ==> t.value.Exist(from))
  {
  }
}
