// A message-call transaction that ends reverted leaves the world as it was,
// but for the sender's nonce.
module Revert {
  import opened Common
  import opened Params
  import opened FlatWorld
  import opened Machine
  import opened Instructions
  import opened Interpreter
  import opened CallStack

  // While the transaction runs its frame holds the snapshot s; if it has ended
  // reverted the world is s.
  ghost predicate Anchored(e: Env, c: Ctx, s: World) {
    && (c.status.Running? ==>
          && Disciplined(e, c)
          && FrameAt(c, 1).callType.TxCall? && FrameAt(c, 1).callType.txSnapshot == s)
    && (c.status.Finished? && c.status.result.Reverted? ==> c.world == s)
  }

  ghost predicate Anchors(e: Env, r: CtxOutcome<()>, s: World) {
    Keeps(e, r) && (!r.Panic? ==> Anchored(e, r.state, s))
  }

  // The lowest frame of the transaction keeps its call type.
  lemma SameAnchor(e: Env, c: Ctx, d: Ctx, s: World)
    requires Anchored(e, c, s) && Disciplined(e, c)
    requires SameFrames(c, d)
    ensures Anchored(e, d, s) && Disciplined(e, d)
  {
    SameFramesKeep(e, c, d);
  }

  lemma FinishAnchors(e: Env, c: Ctx, data: Bytes, verdict: Verdict, s: World)
    requires Anchored(e, c, s) && Disciplined(e, c)
    ensures Anchors(e, FinishCall(e, c, data, verdict), s)
  {
    hide CallEnd, CreateEnd, TxEnd;
    FinishKeeps(e, c, data, verdict);
    assert FrameInPlace(e, c, |c.callStack|) && FrameInPlace(e, c, 1);
  }

  // Entering a call touches no frame below the new one.
  lemma EnterOpAnchors(e: Env, op: Opcode, c: Ctx, s: World)
    requires Anchored(e, c, s) && Disciplined(e, c) && EntersCall(op)
    ensures Anchors(e, EnterOp(e, op, c), s)
  {
    hide EnterOp;
    EnterOpKeeps(e, op, c);
    EnterOpStacks(e, op, c);
  }

  // The frames after entering a call: the same ones, or one more.
  ghost predicate Stacks(c: Ctx, d: Ctx) {
    && d.status == c.status
    && ((d.callStack == c.callStack && d.cur.callType == c.cur.callType)
        || (|d.callStack| == |c.callStack| + 1
            && d.callStack[..|c.callStack|] == c.callStack
            && d.callStack[|c.callStack|].callType == c.cur.callType))
  }

  lemma ReturnedStacks(e: Env, c: Ctx, callType: CallType, gas: U64)
    requires callType.SubCall?
    ensures Stacks(c, ReturnWithoutFrame(e, c, callType, [], gas, Success).state)
  {
    hide CallEnd;
  }

  lemma TargetStacks(
    e: Env, c: Ctx, precompile: Addr, codeAt: Addr, callee: Addr, caller: Addr,
    input: Bytes, value: U256, gas: U64, callType: CallType, readOnly: bool
  )
    requires callType.SubCall?
    ensures Stacks(c, CallTarget(e, c, precompile, codeAt, callee, caller, input, value, gas, callType, readOnly).state)
  {
    hide CallEnd;
  }

  lemma EnterOpStacks(e: Env, op: Opcode, c: Ctx)
    requires EntersCall(op)
    ensures Stacks(c, EnterOp(e, op, c).state)
  {
    hide PrepareCall, PrepareCreate, Charge, Create_, Call_, CallTarget;
    if op.CreateOp? || op.Create2Op? {
      var d := Charge(c, if op.CreateOp? then GAS_CREATE else GAS_CREATE2).state;
      var r := PrepareCreate(e, d, op.Create2Op?);
      if r.Ok? {
        var self := r.state.cur.callee;
        var a := if op.CreateOp? then e.createAddr(self, r.state.world.GetNonce(self))
                 else e.createAddr2(self, r.value.salt, r.value.code);
        CreateStacks(e, r.state, a, self, r.value.code, r.value.value, r.value.gas,
                     CreateCall(r.state.world, a));
      }
    } else {
      var kind := if op.CallOp? then PlainCall else if op.CallCodeOp? then CallCode
                  else if op.DelegateCallOp? then DelegateCall else StaticCall;
      var r := PrepareCall(e, c, kind);
      if r.Ok? {
        var (d, q) := (r.state, r.value);
        var f, saved := d.cur, SubCall(Some(d.world), q.retOff, q.retLen);
        if op.CallOp? {
          CallStacks(e, d, q.addr, f.callee, q.input, q.gas, q.value, saved);
        } else if op.CallCodeOp? {
          TargetStacks(e, d, f.callee, q.addr, f.callee, f.callee, q.input, q.value, q.gas, saved, false);
        } else if op.DelegateCallOp? {
          TargetStacks(e, d, f.callee, q.addr, f.callee, f.caller, q.input, f.value, q.gas, saved, false);
        } else {
          TargetStacks(e, d, q.addr, q.addr, q.addr, f.callee, q.input, 0, q.gas,
                       SubCall(None, q.retOff, q.retLen), true);
        }
      }
    }
  }

  lemma CallStacks(
    e: Env, c: Ctx, callee: Addr, caller: Addr, input: Bytes, gas: U64, value: U256, callType: CallType
  )
    requires callType.SubCall?
    ensures Stacks(c, Call_(e, c, callee, caller, input, gas, value, callType).state)
  {
    hide ReturnWithoutFrame, CallTarget;
    var d := c.(dirty := c.dirty + {caller, callee});
    ReturnedStacks(e, d, callType, gas);
    var w := if c.world.Exist(callee) then c.world else c.world.CreateAccount(callee);
    var t := w.Transfer(caller, callee, value);
    if t.Some? {
      ReturnedStacks(e, d.(world := t.value), callType, gas);
      TargetStacks(e, d.(world := t.value), callee, callee, callee, caller, input, value, gas, callType, false);
    }
  }

  lemma CreateStacks(
    e: Env, c: Ctx, a: Addr, caller: Addr, code: Bytes, value: U256, gas: U64, callType: CallType
  )
    ensures Stacks(c, Create_(e, c, a, caller, code, value, gas, callType).state)
  {
  }

  lemma EndOpAnchors(e: Env, op: Opcode, c: Ctx, s: World)
    requires Anchored(e, c, s) && Disciplined(e, c) && EndsFrame(op)
    ensures Anchors(e, EndOp(e, op, c), s)
  {
    hide FinishCall, Return, Instructions.Revert, SelfDestruct, Anchors;
    match op {
      case Stop => FinishAnchors(e, c, [], Success, s);
      case ReturnOp => ReturnAnchors(e, c, s);
      case RevertOp => ReturnAnchors(e, c, s);
      case SelfDestructOp => SelfDestructAnchors(e, c, s);
    }
  }

  lemma ReturnAnchors(e: Env, c: Ctx, s: World)
    requires Anchored(e, c, s) && Disciplined(e, c)
    ensures Anchors(e, Return(e, c), s) && Anchors(e, Instructions.Revert(e, c), s)
  {
    hide FinishCall, ReturnData, Anchored;
    ReturnOpsKeep(e, c);
    var r := ReturnData(c);
    SameAnchor(e, c, r.state, s);
    SameAnchor(e, c, c, s);
    if r.Ok? {
      FinishAnchors(e, r.state, r.value, Success, s);
      FinishAnchors(e, r.state, r.value, Failure(RevertedCall), s);
    }
  }

  lemma SelfDestructAnchors(e: Env, c: Ctx, s: World)
    requires Anchored(e, c, s) && Disciplined(e, c)
    ensures Anchors(e, SelfDestruct(e, c), s)
  {
    hide FinishCall, PrepareSelfDestruct, Anchored;
    SelfDestructKeeps(e, c);
    var r := PrepareSelfDestruct(e, c);
    SameAnchor(e, c, r.state, s);
    SameAnchor(e, c, c, s);
    if r.Ok? {
      SameAnchor(e, r.state, Bequeath(r.state, r.value), s);
      FinishAnchors(e, Bequeath(r.state, r.value), [], Success, s);
    }
  }

  lemma PlainAnchors(e: Env, op: Opcode, data: Bytes, c: Ctx, s: World)
    requires Anchored(e, c, s) && Disciplined(e, c) && |data| <= 32
    requires !EntersCall(op) && !EndsFrame(op)
    ensures Anchors(e, Exec(e, op, data, c), s)
  {
    hide Exec, Disciplined, SameFrames;
    ExecKeeps(e, op, data, c);
    PlainSameFrames(e, op, data, c);
    SameAnchor(e, c, Exec(e, op, data, c).state, s);
  }

  lemma {:induction false} UnwindAnchors(e: Env, r: CtxOutcome<()>, s: World)
    requires Anchors(e, r, s)
    ensures Anchors(e, Unwind(e, r), s)
    decreases |r.state.callStack|
  {
    hide FinishCall;
    if r.Err? {
      FinishAnchors(e, r.state, [], Failure(r.error), s);
      UnwindAnchors(e, FinishCall(e, r.state, [], Failure(r.error)), s);
    }
  }

  lemma StepAnchors(e: Env, c: Ctx, s: World)
    requires Anchored(e, c, s) && c.status.Running?
    ensures Anchored(e, Step(e, c), s)
  {
    hide Exec, Unwind;
    if Fetchable(c.cur) {
      var op := Fetch(c.cur);
      var r := Exec(e, op, PushedData(c.cur), c);
      ExecAnchors(e, op, PushedData(c.cur), c, s);
      UnwindAnchors(e, r, s);
      var u := Unwind(e, r);
      if u.Ok? && u.state.status.Running? {
        SameAnchor(e, u.state, AdvancePc(u.state, PushWidth(op)), s);
      }
    }
  }

  lemma ExecAnchors(e: Env, op: Opcode, data: Bytes, c: Ctx, s: World)
    requires Anchored(e, c, s) && Disciplined(e, c) && |data| <= 32
    ensures Anchors(e, Exec(e, op, data, c), s)
  {
    hide EnterOp, EndOp, Anchors;
    if EntersCall(op) {
      EnterOpAnchors(e, op, c, s);
    } else if EndsFrame(op) {
      EndOpAnchors(e, op, c, s);
    } else {
      PlainAnchors(e, op, data, c, s);
    }
  }

  lemma {:induction false} RunAnchors(e: Env, c: Ctx, n: nat, s: World)
    requires Anchored(e, c, s)
    ensures Anchored(e, Run(e, c, n), s)
    decreases n
  {
    hide Step;
    if n > 0 && c.status.Running? {
      StepAnchors(e, c, s);
      RunAnchors(e, Step(e, c), n - 1, s);
    }
  }

  lemma StartAnchors(e: Env, tx: Tx, world: World, to: Addr)
    requires tx.to == Some(to)
    ensures Anchored(e, Start(e, tx, world), world.SetNonce(tx.from, Wrap64(world.GetNonce(tx.from) + 1)))
  {
    hide TxEnd;
    StartKeeps(e, tx, world);
  }

  // Whatever a message call did before it ended reverted, the world is the one
  // it started from with the sender's nonce raised by one.
  lemma RevertedTxChangesOnlyNonce(e: Env, tx: Tx, world: World, n: nat)
    requires tx.to.Some?
    ensures var c := Execution(e, tx, world, n);
      c.status.Finished? && c.status.result.Reverted? ==>
        c.world == world.SetNonce(tx.from, Wrap64(world.GetNonce(tx.from) + 1))
  {
    hide Run, Start;
    StartAnchors(e, tx, world, tx.to.value);
    RunAnchors(e, Start(e, tx, world), n, world.SetNonce(tx.from, Wrap64(world.GetNonce(tx.from) + 1)));
  }
}
