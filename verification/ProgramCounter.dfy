// When every frame's program counter stays on an instruction of its code: always,
// except that a PUSH that fails for want of gas or room can make the caller skip
// into the middle of one of its instructions; and where the caller resumes after
// any failing instruction.
module ProgramCounter {
  import opened Common
  import opened Params
  import opened FlatWorld
  import opened Machine
  import opened Frames
  import opened Instructions
  import opened Interpreter
  import opened CallStack
  import opened PlainCode
  import Stepping

  ghost predicate OnInstruction(f: Frame) {
    f.pc >= |f.code| || IsStart(f.code, f.pc)
  }

  // A frame waiting for the call it made stands on the calling instruction.
  ghost predicate Waiting(f: Frame) {
    f.pc < |f.code| && IsStart(f.code, f.pc) && EntersCall(Decode(f.code[f.pc]))
  }

  ghost predicate PcsInPlace(c: Ctx) {
    && OnInstruction(c.cur)
    && forall i: nat | 1 <= i < |c.callStack| :: Waiting(c.callStack[i])
  }

  // The word that a frame waits for will fit its stack.
  ghost predicate HasRoom(f: Frame) { f.stack.top < MAX_STACK_DEPTH }

  ghost predicate Roomy(c: Ctx) {
    forall i: nat | 1 <= i < |c.callStack| :: HasRoom(c.callStack[i])
  }

  // The next pc of a fetched instruction is on an instruction or past the end.
  lemma NextInPlace(f: Frame, g: Frame)
    requires OnInstruction(f) && f.pc < |f.code| && Fetchable(f)
    requires g.code == f.code && g.pc == Wrap64(f.pc + PushWidth(Fetch(f)) + 1)
    ensures OnInstruction(g)
  {
    NextIsStart(f.code, f.pc);
  }

  lemma WaitingResumes(f: Frame, g: Frame)
    requires Waiting(f) && g.code == f.code && g.pc == Wrap64(f.pc + 1)
    ensures OnInstruction(g) && g.pc == f.pc + 1
  {
    NextIsStart(f.code, f.pc);
  }

  // A jump lands one below its destination; the loop then adds one.
  lemma JumpLands(f: Frame, g: Frame, dest: U256)
    requires ValidJumpDest(f.code, dest)
    requires g.code == f.code && g.pc == Wrap64(Wrap64(dest - 1) + 1)
    ensures g.pc == dest && OnInstruction(g)
  {
  }

  // ---------- what each kind of instruction does to the counters ----------

  lemma JumpPc(c: Ctx)
    ensures var r := Jump(c);
      r.Ok? ==> exists dest: U256 ::
        ValidJumpDest(c.cur.code, dest) && r.state.cur.pc == Wrap64(dest - 1)
    ensures var r := JumpI(c);
      r.Ok? ==> r.state.cur.pc == c.cur.pc || exists dest: U256 ::
        ValidJumpDest(c.cur.code, dest) && r.state.cur.pc == Wrap64(dest - 1)
  {
  }

  // Other instructions that neither call nor end a frame keep the counter.
  lemma PlainPc(e: Env, op: Opcode, data: Bytes, c: Ctx)
    requires !EntersCall(op) && !EndsFrame(op) && !op.JumpOp? && !op.JumpIOp? && |data| <= 32
    ensures var d := Exec(e, op, data, c).state;
      d.callStack == c.callStack && d.cur.pc == c.cur.pc && d.cur.code == c.cur.code
      && d.status == c.status
  {
    hide SStoreGas, LogRecord, QuietOp;
  }

  // The caller runs again, with the code and counter it had.
  ghost predicate CallerResumes(c: Ctx, r: CtxOutcome<()>)
    requires c.callStack != []
  {
    var n := |c.callStack| - 1;
    r.Ok? && r.state.status.Running? ==>
      && r.state.callStack == c.callStack[..n]
      && r.state.cur.pc == c.callStack[n].pc
      && r.state.cur.code == c.callStack[n].code
  }

  lemma FinishPc(e: Env, c: Ctx, data: Bytes, verdict: Verdict)
    requires c.callStack != []
    ensures CallerResumes(c, FinishCall(e, c, data, verdict))
  {
    hide CallEnd, CreateEnd, TxEnd;
  }

  lemma EndOpPc(e: Env, op: Opcode, c: Ctx)
    requires c.callStack != [] && EndsFrame(op)
    ensures CallerResumes(c, EndOp(e, op, c))
  {
    hide FinishCall, ReturnData, PrepareSelfDestruct, CallerResumes;
    match op {
      case Stop => FinishPc(e, c, [], Success);
      case ReturnOp => ReturnPc(e, c);
      case RevertOp => ReturnPc(e, c);
      case SelfDestructOp => SelfDestructPc(e, c);
    }
  }

  lemma ReturnPc(e: Env, c: Ctx)
    requires c.callStack != []
    ensures CallerResumes(c, Return(e, c)) && CallerResumes(c, Instructions.Revert(e, c))
  {
    hide FinishCall, ReturnData;
    var r := ReturnData(c);
    if r.Ok? {
      FinishPc(e, r.state, r.value, Success);
      FinishPc(e, r.state, r.value, Failure(RevertedCall));
    }
  }

  lemma SelfDestructPc(e: Env, c: Ctx)
    requires c.callStack != []
    ensures CallerResumes(c, SelfDestruct(e, c))
  {
    hide FinishCall, PrepareSelfDestruct;
    var r := PrepareSelfDestruct(e, c);
    if r.Ok? {
      FinishPc(e, Bequeath(r.state, r.value), [], Success);
    }
  }

  // A call instruction either entered a new frame at pc 0, leaving the caller
  // on the call, or came back at once with the caller past it; a failed one
  // leaves the stack alone.
  ghost predicate EntersOrReturns(c: Ctx, r: CtxOutcome<()>) {
    var d, n := r.state, |c.callStack|;
    && (r.Err? ==> d.callStack == c.callStack)
    && (r.Ok? ==>
      || (d.cur.pc == 0 && |d.callStack| == n + 1 && d.callStack[..n] == c.callStack
          && d.callStack[n].pc == c.cur.pc && d.callStack[n].code == c.cur.code
          && (HasRoom(c.cur) ==> HasRoom(d.callStack[n])))
      || (d.callStack == c.callStack && d.cur.pc == Wrap64(c.cur.pc + 1) && d.cur.code == c.cur.code))
  }

  lemma ReturnedPc(e: Env, c: Ctx, callType: CallType, data: Bytes, gas: U64, verdict: Verdict)
    requires callType.SubCall?
    ensures EntersOrReturns(c, ReturnWithoutFrame(e, c, callType, data, gas, verdict))
  {
    hide CallEnd;
  }

  lemma TargetPc(
    e: Env, c: Ctx, precompile: Addr, codeAt: Addr, callee: Addr, caller: Addr,
    input: Bytes, value: U256, gas: U64, callType: CallType, readOnly: bool
  )
    requires callType.SubCall?
    ensures EntersOrReturns(
      c, CallTarget(e, c, precompile, codeAt, callee, caller, input, value, gas, callType, readOnly))
  {
    hide ReturnWithoutFrame;
    if precompile in e.precompiled {
      var result := e.precompiled[precompile](input);
      ReturnedPc(e, c, callType, result.data, gas, result.verdict);
    }
  }

  lemma CallPc(
    e: Env, c: Ctx, callee: Addr, caller: Addr, input: Bytes, gas: U64, value: U256, callType: CallType
  )
    requires callType.SubCall?
    ensures EntersOrReturns(c, Call_(e, c, callee, caller, input, gas, value, callType))
  {
    hide ReturnWithoutFrame, CallTarget;
    var d := c.(dirty := c.dirty + {caller, callee});
    ReturnedPc(e, d, callType, [], gas, Success);
    var w := if c.world.Exist(callee) then c.world else c.world.CreateAccount(callee);
    var t := w.Transfer(caller, callee, value);
    if t.Some? {
      var d' := d.(world := t.value);
      ReturnedPc(e, d', callType, [], gas, Success);
      TargetPc(e, d', callee, callee, callee, caller, input, value, gas, callType, false);
    }
  }

  lemma CreatePc(
    e: Env, c: Ctx, a: Addr, caller: Addr, code: Bytes, value: U256, gas: U64, callType: CallType
  )
    ensures EntersOrReturns(c, Create_(e, c, a, caller, code, value, gas, callType))
  {
  }

  // The words a call instruction takes leave room for its result.
  lemma PrepareCallRoom(e: Env, c: Ctx, kind: CallKind)
    ensures var r := PrepareCall(e, c, kind); r.Ok? ==> HasRoom(r.state.cur)
  {
    hide PopCallArgs, FundCall;
    var p := PopCallArgs(c.cur, kind, CallBaseFee(e));
    CallArgsRoom(c.cur, kind, CallBaseFee(e));
    if p.Ok? {
      FundRoom(e, c.(cur := p.state), kind, p.value);
    }
  }

  lemma CallArgsRoom(f: Frame, kind: CallKind, fee: nat)
    ensures var r := PopCallArgs(f, kind, fee); r.Ok? ==> HasRoom(r.state)
  {
  }

  lemma FundRoom(e: Env, c: Ctx, kind: CallKind, args: CallArgs)
    ensures var r := FundCall(e, c, kind, args); r.Ok? ==> r.state.cur.stack == c.cur.stack
  {
  }

  lemma PrepareCreateRoom(e: Env, c: Ctx, salted: bool)
    ensures var r := PrepareCreate(e, c, salted); r.Ok? ==> HasRoom(r.state.cur)
  {
  }

  lemma EnterOpPc(e: Env, op: Opcode, c: Ctx)
    requires EntersCall(op)
    ensures EntersOrReturns(c, EnterOp(e, op, c))
    ensures var r, n := EnterOp(e, op, c), |c.callStack|;
      r.Ok? && |r.state.callStack| > n ==> HasRoom(r.state.callStack[n])
  {
    hide PrepareCall, PrepareCreate, Charge, Create_, Call_, CallTarget;
    if op.CreateOp? || op.Create2Op? {
      var d := Charge(c, if op.CreateOp? then GAS_CREATE else GAS_CREATE2).state;
      var r := PrepareCreate(e, d, op.Create2Op?);
      PrepareCreateRoom(e, d, op.Create2Op?);
      if r.Ok? {
        var self := r.state.cur.callee;
        var a := if op.CreateOp? then e.createAddr(self, r.state.world.GetNonce(self))
                 else e.createAddr2(self, r.value.salt, r.value.code);
        CreatePc(e, r.state, a, self, r.value.code, r.value.value, r.value.gas,
                 CreateCall(r.state.world, a));
      }
    } else {
      var kind := if op.CallOp? then PlainCall else if op.CallCodeOp? then CallCode
                  else if op.DelegateCallOp? then DelegateCall else StaticCall;
      var r := PrepareCall(e, c, kind);
      PrepareCallRoom(e, c, kind);
      if r.Ok? {
        var (d, q) := (r.state, r.value);
        var f, saved := d.cur, SubCall(Some(d.world), q.retOff, q.retLen);
        if op.CallOp? {
          CallPc(e, d, q.addr, f.callee, q.input, q.gas, q.value, saved);
        } else if op.CallCodeOp? {
          TargetPc(e, d, f.callee, q.addr, f.callee, f.callee, q.input, q.value, q.gas, saved, false);
        } else if op.DelegateCallOp? {
          TargetPc(e, d, f.callee, q.addr, f.callee, f.caller, q.input, f.value, q.gas, saved, false);
        } else {
          TargetPc(e, d, q.addr, q.addr, q.addr, f.callee, q.input, 0, q.gas,
                   SubCall(None, q.retOff, q.retLen), true);
        }
      }
    }
  }

  // ---------- a step that completes its instruction ----------

  // The instruction at the pc fails, so its frame ends inside it.
  ghost predicate FailsInside(e: Env, c: Ctx) {
    Fetchable(c.cur) && Exec(e, Fetch(c.cur), PushedData(c.cur), c).Err?
  }

  lemma CompletedStep(e: Env, c: Ctx)
    requires c.status.Running? && Fetchable(c.cur) && !FailsInside(e, c)
    ensures var op, d := Fetch(c.cur), Step(e, c);
      var r := Exec(e, op, PushedData(c.cur), c);
      d.status.Running? ==> r.Ok? && d == if EntersCall(op) then r.state else AdvancePc(r.state, PushWidth(op))
  {
    hide Exec, Fetch;
  }

  lemma CompletedPc(e: Env, c: Ctx)
    requires Disciplined(e, c) && PcsInPlace(c) && !FailsInside(e, c)
    ensures var d := Step(e, c);
      d.status.Running? ==> PcsInPlace(d)
  {
    hide EnterOp, EndOp, Jump, JumpI, IsStart, ValidJumpDest, Decode;
    if Fetchable(c.cur) {
      var op := Fetch(c.cur);
      var d := Step(e, c);
      if EntersCall(op) {
        EnteredInPlace(e, c);
      } else if EndsFrame(op) {
        EndedInPlace(e, c);
      } else if op.JumpOp? || op.JumpIOp? {
        JumpedInPlace(e, c);
      } else {
        PlainPc(e, op, PushedData(c.cur), c);
        PastEndStops(c.cur);
        PlainInPlace(e, c);
      }
    }
  }

  // Past the end of the code the machine sees STOP.
  lemma PastEndStops(f: Frame)
    ensures f.pc >= |f.code| ==> Fetch(f).Stop?
  {
  }

  lemma PlainInPlace(e: Env, c: Ctx)
    requires PcsInPlace(c) && Fetchable(c.cur) && c.cur.pc < |c.cur.code|
    requires var op := Fetch(c.cur); !EntersCall(op) && !EndsFrame(op) && !op.JumpOp? && !op.JumpIOp?
    requires c.status.Running? && !FailsInside(e, c)
    ensures Step(e, c).status.Running? ==> PcsInPlace(Step(e, c))
  {
    hide Step, Exec, Fetch, IsStart;
    CompletedStep(e, c);
    PlainPc(e, Fetch(c.cur), PushedData(c.cur), c);
    if Step(e, c).status.Running? {
      NextInPlace(c.cur, Step(e, c).cur);
    }
  }

  lemma JumpedInPlace(e: Env, c: Ctx)
    requires PcsInPlace(c) && Fetchable(c.cur)
    requires Fetch(c.cur).JumpOp? || Fetch(c.cur).JumpIOp?
    requires c.status.Running? && !FailsInside(e, c)
    ensures Step(e, c).status.Running? ==> PcsInPlace(Step(e, c))
  {
    hide Step, Exec, Jump, JumpI, Fetch, IsStart, ValidJumpDest;
    PastEndStops(c.cur);
    CompletedStep(e, c);
    ExecJumps(e, Fetch(c.cur), PushedData(c.cur), c);
    JumpPc(c);
    var d := Step(e, c);
    var r := if Fetch(c.cur).JumpOp? then Jump(c) else JumpI(c);
    if d.status.Running? {
      if r.state.cur.pc == c.cur.pc {
        NextInPlace(c.cur, d.cur);
      } else {
        var dest: U256 :| ValidJumpDest(c.cur.code, dest) && r.state.cur.pc == Wrap64(dest - 1);
        JumpLands(c.cur, d.cur, dest);
      }
    }
  }

  lemma ExecJumps(e: Env, op: Opcode, data: Bytes, c: Ctx)
    requires (op.JumpOp? || op.JumpIOp?) && |data| <= 32
    ensures Exec(e, op, data, c) == if op.JumpOp? then Jump(c) else JumpI(c)
  {
    hide Jump, JumpI;
  }

  lemma EndedInPlace(e: Env, c: Ctx)
    requires Disciplined(e, c) && PcsInPlace(c) && Fetchable(c.cur) && EndsFrame(Fetch(c.cur))
    requires !FailsInside(e, c)
    ensures Step(e, c).status.Running? ==> PcsInPlace(Step(e, c))
  {
    hide Step, Exec, EndOp, Fetch, Waiting, OnInstruction;
    var op := Fetch(c.cur);
    CompletedStep(e, c);
    ExecEnds(e, op, PushedData(c.cur), c);
    EndOpPc(e, op, c);
    EndOpKeeps(e, op, c);
    var d, n := Step(e, c), |c.callStack| - 1;
    if d.status.Running? {
      assert |d.callStack| == n >= 1;
      WaitingResumes(c.callStack[n], d.cur);
    }
  }

  lemma ExecEnds(e: Env, op: Opcode, data: Bytes, c: Ctx)
    requires EndsFrame(op) && |data| <= 32
    ensures Exec(e, op, data, c) == EndOp(e, op, c)
  {
    hide EndOp;
  }

  lemma EnteredInPlace(e: Env, c: Ctx)
    requires Disciplined(e, c) && PcsInPlace(c) && Fetchable(c.cur) && EntersCall(Fetch(c.cur))
    requires !FailsInside(e, c)
    ensures Step(e, c).status.Running? ==> PcsInPlace(Step(e, c))
  {
    hide EnterOp, IsStart, Decode;
    PastEndStops(c.cur);
    EnterOpPc(e, Fetch(c.cur), c);
    var d := Step(e, c);
    if d.status.Running? {
      assert Waiting(c.cur) by { hide Exec, Unwind; WaitingNow(c.cur); }
      StartOfCode(d.cur.code);
      if d.callStack == c.callStack {
        WaitingResumes(c.cur, d.cur);
      }
    }
  }

  lemma WaitingNow(f: Frame)
    requires OnInstruction(f) && EntersCall(Fetch(f))
    ensures Waiting(f)
  {
    PastEndStops(f);
  }

  lemma StartOfCode(code: Bytes)
    ensures IsStart(code, 0)
  {
  }

  // ---------- a step whose instruction fails ----------

  // One of the given frames runs again, with the code and counter it had.
  ghost predicate Resumes(frames: seq<Frame>, u: CtxOutcome<()>) {
    var m := |u.state.callStack|;
    u.Ok? && u.state.status.Running? ==>
      && m < |frames| && u.state.callStack == frames[..m]
      && u.state.cur.pc == frames[m].pc
      && u.state.cur.code == frames[m].code
  }

  // Ending failed frames, however many, leaves the frames below as they were.
  lemma {:induction false} UnwindPc(e: Env, r: CtxOutcome<()>, frames: seq<Frame>)
    requires r.Err? && |r.state.callStack| <= |frames|
    requires r.state.callStack == frames[..|r.state.callStack|]
    ensures Resumes(frames, Unwind(e, r))
    decreases |r.state.callStack|
  {
    hide FinishCall;
    var n := |r.state.callStack|;
    if n > 0 {
      var next := FinishCall(e, r.state, [], Failure(r.error));
      FinishPc(e, r.state, [], Failure(r.error));
      assert next.state.callStack == frames[..n][..n - 1] == frames[..n - 1];
      assert frames[..n][n - 1] == frames[n - 1];
      if next.Err? {
        UnwindPc(e, next, frames);
      }
    }
  }

  lemma EndOpStack(e: Env, op: Opcode, c: Ctx)
    requires c.callStack != [] && EndsFrame(op)
    ensures var d := EndOp(e, op, c).state;
      d.callStack == c.callStack || d.callStack == c.callStack[..|c.callStack| - 1]
  {
    hide FinishCall, ReturnData, PrepareSelfDestruct;
  }

  lemma FailingStack(e: Env, c: Ctx)
    requires c.callStack != [] && FailsInside(e, c)
    ensures var d := Exec(e, Fetch(c.cur), PushedData(c.cur), c).state;
      |d.callStack| <= |c.callStack| && d.callStack == c.callStack[..|d.callStack|]
  {
    hide EnterOp, EndOp, Jump, JumpI, Fetch;
    var op := Fetch(c.cur);
    if EntersCall(op) {
      EnterOpPc(e, op, c);
    } else if EndsFrame(op) {
      EndOpStack(e, op, c);
    } else if !op.JumpOp? && !op.JumpIOp? {
      PlainPc(e, op, PushedData(c.cur), c);
    }
  }

  // Where a step resumes whose instruction failed: some frame below runs again,
  // its counter advanced by the size of the failed instruction, which is none
  // for a call or creation.
  lemma FailedStepResumes(e: Env, c: Ctx)
    requires c.status.Running? && c.callStack != [] && FailsInside(e, c)
    ensures var op, d := Fetch(c.cur), Step(e, c);
      var m := |d.callStack|;
      d.status.Running? ==>
        && m < |c.callStack| && d.callStack == c.callStack[..m]
        && d.cur.code == c.callStack[m].code
        && d.cur.pc == if EntersCall(op) then c.callStack[m].pc
                       else Wrap64(c.callStack[m].pc + PushWidth(op) + 1)
  {
    hide Exec, Fetch, Unwind;
    FailingStack(e, c);
    UnwindPc(e, Exec(e, Fetch(c.cur), PushedData(c.cur), c), c.callStack);
  }

  // ---------- a failing PUSH ----------

  // A PUSH about to fail, for want of gas or room, in a frame whose caller would
  // then skip as many bytes too many, into the middle of one of its instructions.
  ghost predicate LosesPlace(c: Ctx) {
    var op, n := Fetch(c.cur), |c.callStack|;
    && Fetchable(c.cur) && op.PushOp?
    && (c.cur.gas < GAS_FASTEST || !HasRoom(c.cur))
    && n >= 2 && !OnInstruction(c.callStack[n - 1].(pc := Wrap64(c.callStack[n - 1].pc + op.width + 1)))
  }

  lemma PushFails(e: Env, c: Ctx)
    requires Fetchable(c.cur) && Fetch(c.cur).PushOp?
    ensures FailsInside(e, c) <==> c.cur.gas < GAS_FASTEST || !HasRoom(c.cur)
    ensures var r := Exec(e, Fetch(c.cur), PushedData(c.cur), c);
      && (r.Err? ==> !r.error.RevertedCall?) && r.state.status == c.status
      && r.state.callStack == c.callStack && r.state.cur.callType == c.cur.callType
  {
    hide Exec, Fetch, PushData;
    var op, data := Fetch(c.cur), PushedData(c.cur);
    Stepping.FrameExec(e, op, data, c);
    Stepping.FramePush(e, op.width, data, c.cur);
    PushDataFails(c.cur, data);
  }

  lemma PushDataFails(f: Frame, data: Bytes)
    requires |data| <= 32
    ensures var r := PushData(f, data);
      && !r.Panic? && (r.Err? <==> f.gas < GAS_FASTEST || !HasRoom(f))
      && (r.Err? ==> !r.error.RevertedCall?)
  {
  }

  // A failure other than a revert always gets back to a frame with room.
  lemma FailureReturns(e: Env, c: Ctx, error: ExecError)
    requires c.status.Running? && c.callStack != [] && !error.RevertedCall?
    requires HasRoom(c.callStack[|c.callStack| - 1])
    ensures var r := FinishCall(e, c, [], Failure(error));
      if c.cur.callType.TxCall? then !r.Err? && !(r.Ok? && r.state.status.Running?)
      else r.Ok? && r.state.status.Running?
  {
    hide TxEnd;
  }

  // So a failing PUSH goes back to its caller, or ends the transaction.
  lemma FailedPushStep(e: Env, c: Ctx)
    requires Disciplined(e, c) && Roomy(c) && FailsInside(e, c) && Fetch(c.cur).PushOp?
    ensures var d := Step(e, c);
      && (d.status.Running? <==> |c.callStack| >= 2)
      && (d.status.Running? ==> |d.callStack| == |c.callStack| - 1)
  {
    hide Exec, Fetch, FinishCall;
    PushFails(e, c);
    var r, n := Exec(e, Fetch(c.cur), PushedData(c.cur), c), |c.callStack|;
    assert FrameInPlace(e, c, n);
    if n >= 2 {
      assert HasRoom(c.callStack[n - 1]);
      FailureReturns(e, r.state, r.error);
    } else {
      TxFailureEnds(e, r.state, r.error);
    }
  }

  lemma TxFailureEnds(e: Env, c: Ctx, error: ExecError)
    requires c.callStack != [] && c.cur.callType.TxCall?
    ensures var r := FinishCall(e, c, [], Failure(error)); !r.Err? && !(r.Ok? && r.state.status.Running?)
  {
    hide TxEnd;
  }

  // ---------- one step ----------

  // After a failing PUSH all depends on where the caller resumes.
  lemma FailedPushPc(e: Env, c: Ctx)
    requires Disciplined(e, c) && PcsInPlace(c) && Roomy(c) && FailsInside(e, c) && Fetch(c.cur).PushOp?
    ensures var d := Step(e, c); d.status.Running? ==> (PcsInPlace(d) <==> !LosesPlace(c))
  {
    hide Step, FailsInside, IsStart, Fetch, Decode, Roomy, HasRoom, Waiting;
    FetchedToFail(e, c);
    FailedPushResumes(e, c);
    var d, n := Step(e, c), |c.callStack|;
    if d.status.Running? {
      assert forall i: nat | 1 <= i < n - 1 :: d.callStack[i] == c.callStack[i];
    }
  }

  lemma Underway(e: Env, c: Ctx)
    requires Disciplined(e, c)
    ensures c.status.Running? && c.callStack != []
  {
  }

  lemma FetchedToFail(e: Env, c: Ctx)
    requires FailsInside(e, c)
    ensures Fetchable(c.cur)
  {
    hide Exec, Fetch;
  }

  lemma FailedPushResumes(e: Env, c: Ctx)
    requires Disciplined(e, c) && Roomy(c) && FailsInside(e, c) && Fetch(c.cur).PushOp?
    ensures c.cur.gas < GAS_FASTEST || !HasRoom(c.cur)
    ensures var d, n := Step(e, c), |c.callStack|;
      d.status.Running? ==>
        && n >= 2 && d.callStack == c.callStack[..n - 1] && d.cur.code == c.callStack[n - 1].code
        && d.cur.pc == Wrap64(c.callStack[n - 1].pc + Fetch(c.cur).width + 1)
  {
    hide Step, FailsInside, Fetch, Fetchable, Roomy, HasRoom, Disciplined, Exec;
    Underway(e, c);
    FetchedToFail(e, c);
    FailedStepResumes(e, c);
    FailedPushStep(e, c);
    PushFails(e, c);
  }

  // After any other failing instruction the caller is past its call, or at it.
  lemma OtherFailedPc(e: Env, c: Ctx)
    requires Disciplined(e, c) && PcsInPlace(c) && FailsInside(e, c) && !Fetch(c.cur).PushOp?
    ensures var d := Step(e, c); d.status.Running? ==> PcsInPlace(d)
  {
    hide Step, FailsInside, IsStart, Fetch, Decode;
    FailedStepResumes(e, c);
    StepKeeps(e, c);
    var d := Step(e, c);
    if d.status.Running? {
      var m := |d.callStack|;
      assert Waiting(c.callStack[m]);
      assert forall i: nat | 1 <= i < m :: d.callStack[i] == c.callStack[i];
      if !EntersCall(Fetch(c.cur)) {
        WaitingResumes(c.callStack[m], d.cur);
      }
    }
  }

  // One iteration keeps the counters in place exactly when it does not lose one.
  lemma StepPc(e: Env, c: Ctx)
    requires Disciplined(e, c) && PcsInPlace(c) && Roomy(c)
    ensures var d := Step(e, c); d.status.Running? ==> (PcsInPlace(d) <==> !LosesPlace(c))
    ensures LosesPlace(c) ==> Step(e, c).status.Running?
  {
    hide Step, FailsInside, PcsInPlace, LosesPlace, Roomy, Fetch;
    if LosesPlace(c) {
      LosingGoesOn(e, c);
    }
    if !FailsInside(e, c) {
      CompletedPc(e, c);
    } else if Fetch(c.cur).PushOp? {
      FailedPushPc(e, c);
    } else {
      OtherFailedPc(e, c);
      LosingPushes(c);
    }
  }

  lemma LosingPushes(c: Ctx)
    ensures LosesPlace(c) ==> Fetch(c.cur).PushOp?
  {
  }

  lemma LosingGoesOn(e: Env, c: Ctx)
    requires Disciplined(e, c) && Roomy(c) && LosesPlace(c)
    ensures FailsInside(e, c) && Step(e, c).status.Running?
  {
    hide Step, FailsInside, Fetch, Roomy, OnInstruction;
    PushFails(e, c);
    FailedPushStep(e, c);
  }

  // Waiting frames keep room for the word they wait for.
  lemma StepRoomy(e: Env, c: Ctx)
    requires Disciplined(e, c) && Roomy(c)
    ensures Step(e, c).status.Running? ==> Roomy(Step(e, c))
  {
    hide Step, Exec, Fetch, FailsInside, HasRoom;
    if FailsInside(e, c) {
      FailedStepResumes(e, c);
    } else if Fetchable(c.cur) {
      CompletedStep(e, c);
      ExecRoomy(e, Fetch(c.cur), PushedData(c.cur), c);
    } else {
      TruncatedStops(e, c);
    }
  }

  lemma TruncatedStops(e: Env, c: Ctx)
    requires c.status.Running? && !Fetchable(c.cur)
    ensures !Step(e, c).status.Running?
  {
    hide Fetch;
  }

  lemma ExecRoomy(e: Env, op: Opcode, data: Bytes, c: Ctx)
    requires Roomy(c) && c.callStack != [] && |data| <= 32
    ensures var r := Exec(e, op, data, c); r.Ok? && r.state.status.Running? ==> Roomy(r.state)
  {
    hide Exec, EnterOp, EndOp, HasRoom;
    if EntersCall(op) {
      ExecEnters(e, op, data, c);
      EnterOpPc(e, op, c);
    } else if EndsFrame(op) {
      ExecEnds(e, op, data, c);
      EndOpPc(e, op, c);
    } else {
      PlainSameFrames(e, op, data, c);
    }
  }

  lemma ExecEnters(e: Env, op: Opcode, data: Bytes, c: Ctx)
    requires EntersCall(op) && |data| <= 32
    ensures Exec(e, op, data, c) == EnterOp(e, op, c)
  {
    hide EnterOp;
  }

  // ---------- a run ----------

  ghost predicate StaysInPlace(e: Env, c: Ctx, n: nat) {
    forall k: nat | k <= n :: var d := Run(e, c, k); d.status.Running? ==> PcsInPlace(d)
  }

  ghost predicate NeverLosesPlace(e: Env, c: Ctx, n: nat) {
    forall k: nat | k < n :: var d := Run(e, c, k); d.status.Running? ==> !LosesPlace(d)
  }

  lemma {:induction false} RunPc(e: Env, c: Ctx, n: nat)
    requires Disciplined(e, c) && PcsInPlace(c) && Roomy(c)
    ensures StaysInPlace(e, c, n) <==> NeverLosesPlace(e, c, n)
    decreases n
  {
    hide Step, PcsInPlace, LosesPlace, Roomy;
    assert Run(e, c, 0) == c;
    if n > 0 {
      StepPc(e, c);
      StepRoomy(e, c);
      StepKeeps(e, c);
      var d := Step(e, c);
      RunSplits(e, c, n);
      if !d.status.Running? {
        StoppedInPlace(e, d, n - 1);
      } else if PcsInPlace(d) {
        RunPc(e, d, n - 1);
      } else {
        assert Run(e, d, 0) == d;
      }
    }
  }

  // The first step apart.
  lemma RunSplits(e: Env, c: Ctx, n: nat)
    requires c.status.Running? && n > 0 && PcsInPlace(c)
    ensures StaysInPlace(e, c, n) <==> StaysInPlace(e, Step(e, c), n - 1)
    ensures NeverLosesPlace(e, c, n) <==> !LosesPlace(c) && NeverLosesPlace(e, Step(e, c), n - 1)
  {
    hide Step, PcsInPlace, LosesPlace;
    var d := Step(e, c);
    assert Run(e, c, 0) == c;
    forall k: nat ensures Run(e, c, k + 1) == Run(e, d, k) {
    }
    if StaysInPlace(e, c, n) {
      forall k: nat | k <= n - 1 ensures var s := Run(e, d, k); s.status.Running? ==> PcsInPlace(s) {
        assert Run(e, c, k + 1) == Run(e, d, k);
      }
    }
    if StaysInPlace(e, d, n - 1) {
      forall k: nat | k <= n ensures var s := Run(e, c, k); s.status.Running? ==> PcsInPlace(s) {
        assert k > 0 ==> Run(e, c, k) == Run(e, d, k - 1);
      }
    }
    NeverLosesSplits(e, c, n);
  }

  lemma NeverLosesSplits(e: Env, c: Ctx, n: nat)
    requires c.status.Running? && n > 0
    ensures NeverLosesPlace(e, c, n) <==> !LosesPlace(c) && NeverLosesPlace(e, Step(e, c), n - 1)
  {
    hide Step, LosesPlace;
    var d := Step(e, c);
    assert Run(e, c, 0) == c;
    if NeverLosesPlace(e, c, n) {
      forall k: nat | k < n - 1 ensures var s := Run(e, d, k); s.status.Running? ==> !LosesPlace(s) {
        assert Run(e, c, k + 1) == Run(e, d, k);
      }
    }
    if !LosesPlace(c) && NeverLosesPlace(e, d, n - 1) {
      forall k: nat | k < n ensures var s := Run(e, c, k); s.status.Running? ==> !LosesPlace(s) {
        assert k > 0 ==> Run(e, c, k) == Run(e, d, k - 1);
      }
    }
  }

  lemma StoppedInPlace(e: Env, c: Ctx, n: nat)
    requires !c.status.Running?
    ensures StaysInPlace(e, c, n) && NeverLosesPlace(e, c, n)
  {
  }

  lemma StartPc(e: Env, tx: Tx, world: World)
    ensures var c := Start(e, tx, world);
      c.status.Running? ==> PcsInPlace(c) && Roomy(c)
  {
    hide TxEnd;
    StartKeeps(e, tx, world);
    var c := Start(e, tx, world);
    if c.status.Running? {
      StartOfCode(c.cur.code);
    }
  }

  // In every execution: the counter of the running frame is on an instruction of
  // its code or past the end, and that of every waiting frame is on the call it
  // made, all along, exactly when no PUSH is about to fail, in a frame that was
  // called, whose caller would skip into the middle of one of its instructions.
  lemma CountersStayOnInstructions(e: Env, tx: Tx, world: World, n: nat)
    ensures StaysInPlace(e, Start(e, tx, world), n) <==> NeverLosesPlace(e, Start(e, tx, world), n)
    ensures Execution(e, tx, world, n) == Run(e, Start(e, tx, world), n)
  {
    hide Run, Start, PcsInPlace, Roomy;
    StartKeeps(e, tx, world);
    StartPc(e, tx, world);
    var c := Start(e, tx, world);
    if c.status.Running? {
      RunPc(e, c, n);
    } else {
      StoppedInPlace(e, c, n);
    }
  }

  // So an execution keeps every counter in place while each PUSH finds three gas
  // and room for its word, whatever other instructions fail.
  lemma OnlyPushLosesPlace(e: Env, tx: Tx, world: World, n: nat)
    requires forall k: nat | k < n ::
      var d := Execution(e, tx, world, k);
      d.status.Running? && Fetch(d.cur).PushOp? ==> d.cur.gas >= GAS_FASTEST && HasRoom(d.cur)
    ensures var d := Execution(e, tx, world, n);
      d.status.Running? ==> PcsInPlace(d)
  {
    hide Run, Start, PcsInPlace, Step, Fetch;
    CountersStayOnInstructions(e, tx, world, n);
    var c := Start(e, tx, world);
    forall k: nat | k < n ensures var d := Run(e, c, k); d.status.Running? ==> !LosesPlace(d) {
      assert Execution(e, tx, world, k) == Run(e, c, k);
    }
  }
}
