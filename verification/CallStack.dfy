// The shape of the call stack in every reachable state: where the transaction
// frame is, how deep the stack gets, and which contracts are warm.
module CallStack {
  import opened Common
  import opened Params
  import opened FlatWorld
  import opened Machine
  import opened Instructions
  import opened Interpreter

  // The i-th frame from the bottom; the one above the stored frames is current.
  ghost function FrameAt(c: Ctx, i: nat): Frame
    requires i <= |c.callStack|
  {
    if i == |c.callStack| then c.cur else c.callStack[i]
  }

  ghost predicate FrameInPlace(e: Env, c: Ctx, i: nat)
    requires i <= |c.callStack|
  {
    var f := FrameAt(c, i);
    && (f.callType.TxCall? <==> i == 1)
    && (e.From(Berlin) ==> f.callee in c.access.addrs)
  }

  // Frame 0 is the placeholder; frame 1 and only it belongs to the transaction.
  ghost predicate Disciplined(e: Env, c: Ctx) {
    && c.status.Running?
    && 1 <= |c.callStack| <= MAX_CALL_DEPTH
    && forall i: nat | 1 <= i <= |c.callStack| :: FrameInPlace(e, c, i)
  }

  // The assertions and unwraps of the source that no run may reach.
  ghost predicate Forbidden(why: Abort) {
    || why.NoFrameToPop? || why.FramesLeftAtEnd? || why.EndedTwice?
    || why.CreateWithoutFrame? || why.CalleeNotWarm?
  }

  ghost predicate Keeps(e: Env, r: CtxOutcome<()>) {
    match r
    case Ok(c, _) => Disciplined(e, c) || c.status.Finished?
    case Err(c, _) => Disciplined(e, c)
    case Panic(_, why) => !Forbidden(why)
  }

  // ---------- what each operation keeps ----------

  // Changes to the world, the counters and inessential parts of the current frame.
  ghost predicate SameFrames(c: Ctx, d: Ctx) {
    && d.callStack == c.callStack
    && d.status == c.status
    && d.cur.callType == c.cur.callType
    && d.cur.callee == c.cur.callee
    && c.access.addrs <= d.access.addrs
  }

  lemma SameFramesKeep(e: Env, c: Ctx, d: Ctx)
    requires Disciplined(e, c) && SameFrames(c, d)
    ensures Disciplined(e, d)
  {
    forall i: nat | 1 <= i <= |d.callStack|
      ensures FrameInPlace(e, d, i)
    {
      assert FrameInPlace(e, c, i);
    }
  }

  lemma PushKeeps(
    e: Env, c: Ctx, code: Bytes, input: Bytes, value: U256, callee: Addr, caller: Addr,
    callType: CallType, gas: U64, readOnly: bool
  )
    requires Disciplined(e, c) || (c.status.Running? && c.callStack == [])
    requires |c.callStack| < MAX_CALL_DEPTH
    requires callType.TxCall? <==> c.callStack == []
    requires e.From(Berlin) ==> callee in c.access.addrs
    ensures Disciplined(e, CallPush(c, code, input, value, callee, caller, callType, gas, readOnly))
  {
    var d := CallPush(c, code, input, value, callee, caller, callType, gas, readOnly);
    forall i: nat | 1 <= i <= |d.callStack|
      ensures FrameInPlace(e, d, i)
    {
      if i <= |c.callStack| {
        assert FrameInPlace(e, c, i);
        assert FrameAt(d, i) == FrameAt(c, i);
      }
    }
  }

  lemma FinishKeeps(e: Env, c: Ctx, data: Bytes, verdict: Verdict)
    requires Disciplined(e, c)
    ensures Keeps(e, FinishCall(e, c, data, verdict))
  {
    hide CallEnd, CreateEnd, TxEnd;
    var d := CallPop(c);
    var n := |c.callStack|;
    assert FrameInPlace(e, c, n);
    if n > 1 {
      forall i: nat | 1 <= i < n
        ensures FrameInPlace(e, d, i)
      {
        assert FrameInPlace(e, c, i);
        assert FrameAt(d, i) == FrameAt(c, i);
      }
      assert Disciplined(e, d);
      SameFramesKeep(e, d, FinishCall(e, c, data, verdict).state);
    }
  }

  lemma ReturnKeeps(e: Env, c: Ctx, callType: CallType, data: Bytes, gas: U64, verdict: Verdict)
    requires Disciplined(e, c) || (c.status.Running? && c.callStack == [])
    requires callType.TxCall? <==> c.callStack == []
    requires !callType.CreateCall?
    ensures Keeps(e, ReturnWithoutFrame(e, c, callType, data, gas, verdict))
  {
    hide CallEnd, TxEnd;
    if callType.SubCall? {
      SameFramesKeep(e, c, ReturnWithoutFrame(e, c, callType, data, gas, verdict).state);
    }
  }

  lemma TargetKeeps(
    e: Env, c: Ctx, precompile: Addr, codeAt: Addr, callee: Addr, caller: Addr,
    input: Bytes, value: U256, gas: U64, callType: CallType, readOnly: bool
  )
    requires Disciplined(e, c) || (c.status.Running? && c.callStack == [])
    requires |c.callStack| < MAX_CALL_DEPTH
    requires callType.TxCall? <==> c.callStack == []
    requires !callType.CreateCall?
    requires e.From(Berlin) ==> callee in c.access.addrs
    ensures Keeps(e, CallTarget(e, c, precompile, codeAt, callee, caller, input, value, gas, callType, readOnly))
  {
    hide ReturnWithoutFrame;
    if precompile in e.precompiled {
      var result := e.precompiled[precompile](input);
      ReturnKeeps(e, c, callType, result.data, gas, result.verdict);
    } else {
      PushKeeps(e, c, c.world.GetCode(codeAt), input, value, callee, caller, callType, gas, readOnly);
    }
  }

  lemma CallKeeps(
    e: Env, c: Ctx, callee: Addr, caller: Addr, input: Bytes, gas: U64, value: U256, callType: CallType
  )
    requires Disciplined(e, c) || (c.status.Running? && c.callStack == [])
    requires callType.TxCall? <==> c.callStack == []
    requires !callType.CreateCall?
    requires e.From(Berlin) ==> callee in c.access.addrs
    ensures var r := Call_(e, c, callee, caller, input, gas, value, callType);
      Keeps(e, r) || (r.Err? && c.callStack == [])
  {
    hide ReturnWithoutFrame, CallTarget;
    var d := c.(dirty := c.dirty + {caller, callee});
    if c.callStack != [] {
      SameFramesKeep(e, c, d);
    }
    if |c.callStack| < MAX_CALL_DEPTH && c.world.GetBalance(caller) >= value {
      ReturnKeeps(e, d, callType, [], gas, Success);
      var blank := !c.world.Exist(callee);
      var w := if blank then c.world.CreateAccount(callee) else c.world;
      var t := w.Transfer(caller, callee, value);
      if t.Some? {
        var d' := d.(world := t.value);
        if c.callStack != [] {
          SameFramesKeep(e, d, d');
        }
        ReturnKeeps(e, d', callType, [], gas, Success);
        TargetKeeps(e, d', callee, callee, callee, caller, input, value, gas, callType, false);
      }
    }
  }

  lemma CreateKeeps(
    e: Env, c: Ctx, a: Addr, caller: Addr, code: Bytes, value: U256, gas: U64, callType: CallType
  )
    requires Disciplined(e, c) || (c.status.Running? && c.callStack == [])
    requires |c.callStack| < MAX_CALL_DEPTH
    requires callType.TxCall? <==> c.callStack == []
    ensures var r := Create_(e, c, a, caller, code, value, gas, callType);
      Keeps(e, r) || (r.Err? && c.callStack == [])
  {
    var r := Create_(e, c, a, caller, code, value, gas, callType);
    if r.Ok? {
      var d := c.(world := r.state.world, dirty := r.state.dirty, access := r.state.access);
      if c.callStack != [] {
        SameFramesKeep(e, c, d);
      }
      PushKeeps(e, d, code, [], value, a, caller, callType, gas, false);
    } else if c.callStack != [] {
      SameFramesKeep(e, c, r.state);
    }
  }

  lemma QuietKeeps<T>(e: Env, c: Ctx, r: CtxOutcome<T>)
    requires Disciplined(e, c) && QuietCharges(c, r, 0)
    ensures Disciplined(e, r.state)
  {
    SameFramesKeep(e, c, r.state);
  }

  lemma CallBeginKeeps(e: Env, c: Ctx)
    requires Disciplined(e, c)
    ensures Keeps(e, CallBegin(e, c))
  {
    hide PrepareCall, Call_;
    var r := PrepareCall(e, c, PlainCall);
    PrepareCallKeeps(e, c, PlainCall);
    if r.Ok? {
      var (d, q) := (r.state, r.value);
      CallKeeps(e, d, q.addr, d.cur.callee, q.input, q.gas, q.value,
                SubCall(Some(d.world), q.retOff, q.retLen));
    }
  }

  lemma CallCodeBeginKeeps(e: Env, c: Ctx)
    requires Disciplined(e, c)
    ensures Keeps(e, CallCodeBegin(e, c))
  {
    hide PrepareCall, CallTarget;
    var r := PrepareCall(e, c, CallCode);
    PrepareCallKeeps(e, c, CallCode);
    if r.Ok? && |c.callStack| < MAX_CALL_DEPTH {
      var (d, q, self) := (r.state, r.value, r.state.cur.callee);
      TargetKeeps(e, d, self, q.addr, self, self, q.input, q.value, q.gas,
                  SubCall(Some(d.world), q.retOff, q.retLen), false);
    }
  }

  lemma DelegateCallBeginKeeps(e: Env, c: Ctx)
    requires Disciplined(e, c)
    ensures Keeps(e, DelegateCallBegin(e, c))
  {
    hide PrepareCall, CallTarget;
    var r := PrepareCall(e, c, DelegateCall);
    PrepareCallKeeps(e, c, DelegateCall);
    if r.Ok? && |c.callStack| < MAX_CALL_DEPTH {
      var (d, q, f) := (r.state, r.value, r.state.cur);
      TargetKeeps(e, d, f.callee, q.addr, f.callee, f.caller, q.input, f.value, q.gas,
                  SubCall(Some(d.world), q.retOff, q.retLen), false);
    }
  }

  lemma StaticCallBeginKeeps(e: Env, c: Ctx)
    requires Disciplined(e, c)
    ensures Keeps(e, StaticCallBegin(e, c))
  {
    hide PrepareCall, CallTarget;
    var r := PrepareCall(e, c, StaticCall);
    PrepareCallKeeps(e, c, StaticCall);
    if r.Ok? && |c.callStack| < MAX_CALL_DEPTH {
      var (d, q) := (r.state, r.value);
      TargetKeeps(e, d, q.addr, q.addr, q.addr, d.cur.callee, q.input, 0, q.gas,
                  SubCall(None, q.retOff, q.retLen), true);
    }
  }

  lemma PrepareCallKeeps(e: Env, c: Ctx, kind: CallKind)
    requires Disciplined(e, c)
    ensures var r := PrepareCall(e, c, kind);
      && Disciplined(e, r.state)
      && r.state.callStack == c.callStack
      && (r.Panic? ==> !Forbidden(r.why))
      && (e.From(Berlin) ==> r.state.cur.callee in r.state.access.addrs)
      && (r.Ok? && e.From(Berlin) ==> r.value.addr in r.state.access.addrs)
  {
    hide PrepareCall;
    var r := PrepareCall(e, c, kind);
    QuietKeeps(e, c, r);
    assert FrameInPlace(e, r.state, |r.state.callStack|);
  }

  lemma CreateBeginKeeps(e: Env, c: Ctx)
    requires Disciplined(e, c)
    ensures Keeps(e, CreateBegin(e, c))
  {
    hide PrepareCreate, Create_, Charge;
    var paid := Charge(c, GAS_CREATE);
    QuietKeeps(e, c, paid);
    var r := PrepareCreate(e, paid.state, false);
    QuietKeeps(e, paid.state, r);
    if |c.callStack| < MAX_CALL_DEPTH && r.Ok? {
      var (d, q, self) := (r.state, r.value, r.state.cur.callee);
      var a := e.createAddr(self, d.world.GetNonce(self));
      CreateKeeps(e, d, a, self, q.code, q.value, q.gas, CreateCall(d.world, a));
    }
  }

  lemma Create2BeginKeeps(e: Env, c: Ctx)
    requires Disciplined(e, c)
    ensures Keeps(e, Create2Begin(e, c))
  {
    hide PrepareCreate, Create_, Charge;
    var paid := Charge(c, GAS_CREATE2);
    QuietKeeps(e, c, paid);
    var r := PrepareCreate(e, paid.state, true);
    QuietKeeps(e, paid.state, r);
    if |c.callStack| < MAX_CALL_DEPTH && r.Ok? {
      var (d, q, self) := (r.state, r.value, r.state.cur.callee);
      var a := e.createAddr2(self, q.salt, q.code);
      CreateKeeps(e, d, a, self, q.code, q.value, q.gas, CreateCall(d.world, a));
    }
  }

  lemma ReturnOpsKeep(e: Env, c: Ctx)
    requires Disciplined(e, c)
    ensures Keeps(e, Return(e, c)) && Keeps(e, Revert(e, c))
  {
    hide ReturnData, FinishCall;
    var r := ReturnData(c);
    QuietKeeps(e, c, r);
    if r.Ok? {
      FinishKeeps(e, r.state, r.value, Success);
      FinishKeeps(e, r.state, r.value, Failure(RevertedCall));
    }
  }

  lemma SelfDestructKeeps(e: Env, c: Ctx)
    requires Disciplined(e, c)
    ensures Keeps(e, SelfDestruct(e, c))
  {
    hide PrepareSelfDestruct, FinishCall, Bequeath;
    var r := PrepareSelfDestruct(e, c);
    QuietKeeps(e, c, r);
    if r.Ok? {
      BequeathKeeps(e, r.state, r.value);
      FinishKeeps(e, Bequeath(r.state, r.value), [], Success);
    }
  }

  lemma BequeathKeeps(e: Env, c: Ctx, heir: Addr)
    requires Disciplined(e, c)
    ensures Disciplined(e, Bequeath(c, heir))
  {
    SameFramesKeep(e, c, Bequeath(c, heir));
  }

  lemma SStoreKeeps(e: Env, c: Ctx)
    requires Disciplined(e, c)
    ensures Keeps(e, SStore(e, c))
  {
    hide SStoreGas;
    assert FrameInPlace(e, c, |c.callStack|);
    SameFramesKeep(e, c, SStore(e, c).state);
  }

  lemma LogKeeps(e: Env, c: Ctx, num: nat)
    requires Disciplined(e, c)
    ensures Keeps(e, Log(e, c, num))
  {
    hide LogRecord;
    SameFramesKeep(e, c, Log(e, c, num).state);
  }

  lemma JumpsKeep(e: Env, c: Ctx)
    requires Disciplined(e, c)
    ensures Keeps(e, Jump(c)) && Keeps(e, JumpI(c))
  {
    hide Jump, JumpI;
    SameFramesKeep(e, c, Jump(c).state);
    SameFramesKeep(e, c, JumpI(c).state);
  }

  // Instructions that neither call nor end a frame.
  lemma PlainSameFrames(e: Env, op: Opcode, data: Bytes, c: Ctx)
    requires !EntersCall(op) && !EndsFrame(op) && |data| <= 32
    ensures SameFrames(c, Exec(e, op, data, c).state)
  {
    hide SStore, Log, Jump, JumpI, QuietOp, SameFrames;
    if op.SStoreOp? {
      SStoreSameFrames(e, c);
    } else if op.LogOp? {
      LogSameFrames(e, c, op.topics);
    } else if op.JumpOp? || op.JumpIOp? {
      JumpsSameFrames(c);
    } else {
      QuietSameFrames(c, QuietOp(e, op, data, c).state);
    }
  }

  lemma SStoreSameFrames(e: Env, c: Ctx)
    ensures SameFrames(c, SStore(e, c).state)
  {
    hide SStoreGas;
  }

  lemma LogSameFrames(e: Env, c: Ctx, num: nat)
    ensures SameFrames(c, Log(e, c, num).state)
  {
    hide LogRecord;
  }

  lemma JumpsSameFrames(c: Ctx)
    ensures SameFrames(c, Jump(c).state) && SameFrames(c, JumpI(c).state)
  {
    hide Jump, JumpI;
  }

  lemma QuietSameFrames(c: Ctx, d: Ctx)
    requires Quiet(c, d)
    ensures SameFrames(c, d)
  {
  }

  lemma EnterOpKeeps(e: Env, op: Opcode, c: Ctx)
    requires Disciplined(e, c) && EntersCall(op)
    ensures Keeps(e, EnterOp(e, op, c))
  {
    hide CallBegin, CallCodeBegin, DelegateCallBegin, StaticCallBegin, CreateBegin, Create2Begin, Keeps;
    match op {
      case CreateOp => CreateBeginKeeps(e, c);
      case CallOp => CallBeginKeeps(e, c);
      case CallCodeOp => CallCodeBeginKeeps(e, c);
      case DelegateCallOp => DelegateCallBeginKeeps(e, c);
      case Create2Op => Create2BeginKeeps(e, c);
      case StaticCallOp => StaticCallBeginKeeps(e, c);
    }
  }

  lemma EndOpKeeps(e: Env, op: Opcode, c: Ctx)
    requires Disciplined(e, c) && EndsFrame(op)
    ensures Keeps(e, EndOp(e, op, c))
  {
    hide FinishCall, Return, Revert, SelfDestruct, Keeps;
    match op {
      case Stop => FinishKeeps(e, c, [], Success);
      case ReturnOp => ReturnOpsKeep(e, c);
      case RevertOp => ReturnOpsKeep(e, c);
      case SelfDestructOp => SelfDestructKeeps(e, c);
    }
  }

  lemma ExecKeeps(e: Env, op: Opcode, data: Bytes, c: Ctx)
    requires Disciplined(e, c) && |data| <= 32
    ensures Keeps(e, Exec(e, op, data, c))
  {
    hide EnterOp, EndOp, SStore, Log, Jump, JumpI, QuietOp, Keeps;
    if EntersCall(op) {
      EnterOpKeeps(e, op, c);
    } else if EndsFrame(op) {
      EndOpKeeps(e, op, c);
    } else if op.SStoreOp? {
      SStoreKeeps(e, c);
    } else if op.LogOp? {
      LogKeeps(e, c, op.topics);
    } else if op.JumpOp? || op.JumpIOp? {
      JumpsKeep(e, c);
    } else {
      QuietOpKeeps(e, op, data, c);
    }
  }

  lemma QuietOpKeeps(e: Env, op: Opcode, data: Bytes, c: Ctx)
    requires Disciplined(e, c) && |data| <= 32
    ensures Keeps(e, QuietOp(e, op, data, c))
  {
    hide QuietOp;
    QuietKeeps(e, c, QuietOp(e, op, data, c));
  }

  lemma {:induction false} UnwindKeeps(e: Env, r: CtxOutcome<()>)
    requires Keeps(e, r)
    ensures Keeps(e, Unwind(e, r))
    decreases |r.state.callStack|
  {
    hide FinishCall;
    if r.Err? {
      FinishKeeps(e, r.state, [], Failure(r.error));
      UnwindKeeps(e, FinishCall(e, r.state, [], Failure(r.error)));
    }
  }

  lemma StepKeeps(e: Env, c: Ctx)
    requires Disciplined(e, c)
    ensures var d := Step(e, c);
      Disciplined(e, d) || d.status.Finished? || (d.status.Aborted? && !Forbidden(d.status.why))
  {
    hide Exec, Unwind;
    if Fetchable(c.cur) {
      var r := Exec(e, Fetch(c.cur), PushedData(c.cur), c);
      ExecKeeps(e, Fetch(c.cur), PushedData(c.cur), c);
      UnwindKeeps(e, r);
      var u := Unwind(e, r);
      if u.Ok? && Disciplined(e, u.state) {
        SameFramesKeep(e, u.state, AdvancePc(u.state, PushWidth(Fetch(c.cur))));
      }
    }
  }

  lemma {:induction false} RunKeeps(e: Env, c: Ctx, n: nat)
    requires Disciplined(e, c) || c.status.Finished? || (c.status.Aborted? && !Forbidden(c.status.why))
    ensures var d := Run(e, c, n);
      Disciplined(e, d) || d.status.Finished? || (d.status.Aborted? && !Forbidden(d.status.why))
    decreases n
  {
    hide Step;
    if n > 0 && c.status.Running? {
      StepKeeps(e, c);
      RunKeeps(e, Step(e, c), n - 1);
    }
  }

  lemma StartKeeps(e: Env, tx: Tx, world: World)
    ensures var c := Start(e, tx, world);
      Disciplined(e, c) || c.status.Finished? || (c.status.Aborted? && !Forbidden(c.status.why))
  {
    hide Call_, Create_;
    var c := NewContext(e, tx.gas, InitialAccess(e, tx.from, tx.to, tx.listed), world);
    var gas := Wrap64(tx.gas - GAS_TX);
    var nonce: int := world.GetNonce(tx.from);
    match tx.to {
      case Some(to) =>
        var w := world.SetNonce(tx.from, Wrap64(nonce + 1));
        CallKeeps(e, c.(world := w), to, tx.from, tx.input, gas, tx.value, TxCall(w, Sender(tx.from)));
      case None =>
        var a := e.createAddr(tx.from, world.GetNonce(tx.from));
        CreateKeeps(e, c, a, tx.from, tx.input, tx.value, gas, TxCall(world, Contract(a)));
    }
  }

  // In every state of every execution: while the transaction runs, the current
  // frame is the transaction's exactly when it is the only one above the
  // placeholder, the stack is at most 1024 deep, and from Berlin on every
  // running contract is warm; so no unwrap or assertion about frames fires.
  lemma CallStackDiscipline(e: Env, tx: Tx, world: World, n: nat)
    ensures var c := Execution(e, tx, world, n);
      && (c.status.Running? ==>
            && 1 <= |c.callStack| <= MAX_CALL_DEPTH
            && (c.cur.callType.TxCall? <==> |c.callStack| == 1)
            && (forall i: nat | 1 <= i < |c.callStack| :: c.callStack[i].callType.TxCall? <==> i == 1)
            && (e.From(Berlin) ==>
                  && c.cur.callee in c.access.addrs
                  && forall f <- c.callStack[1..] :: f.callee in c.access.addrs))
      && (c.status.Aborted? ==> !Forbidden(c.status.why))
  {
    hide Run, Start;
    StartKeeps(e, tx, world);
    RunKeeps(e, Start(e, tx, world), n);
    var c := Execution(e, tx, world, n);
    if c.status.Running? {
      assert FrameInPlace(e, c, |c.callStack|);
      forall i: nat | 1 <= i < |c.callStack|
        ensures c.callStack[i].callType.TxCall? <==> i == 1
        ensures e.From(Berlin) ==> c.callStack[i].callee in c.access.addrs
      {
        assert FrameInPlace(e, c, i);
      }
    }
  }
}
