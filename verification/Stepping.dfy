// Single steps of the machine for instructions that touch the current frame
// alone.
module Stepping {
  import opened Common
  import opened Params
  import opened Machine
  import opened Frames
  import opened Instructions
  import opened Interpreter
  import OperandStack

  // Instructions on the frame alone, the invalid ones included.
  predicate OnFrameOnly(op: Opcode) {
    && !EntersCall(op) && !EndsFrame(op)
    && !op.SStoreOp? && !op.LogOp? && !op.JumpOp? && !op.JumpIOp?
    && !op.BalanceOp? && !op.ExtCodeSizeOp? && !op.ExtCodeCopyOp? && !op.ExtCodeHashOp?
    && !op.BlockHashOp? && !op.SelfBalanceOp? && !op.SLoadOp?
  }

  lemma FrameExec(e: Env, op: Opcode, data: Bytes, c: Ctx)
    requires OnFrameOnly(op) && |data| <= 32
    ensures Exec(e, op, data, c) == OnFrame(c, FrameOp(e, op, data, c.cur))
  {
    hide FrameOp, EnterOp, EndOp, SStore, Log, Jump, JumpI, EntersCall, EndsFrame;
  }

  lemma FrameStep(e: Env, c: Ctx, g: Frame)
    requires c.status.Running? && Fetchable(c.cur) && OnFrameOnly(Fetch(c.cur))
    requires FrameOp(e, Fetch(c.cur), PushedData(c.cur), c.cur) == Ok(g, ())
    ensures Step(e, c) == c.(cur := g.(pc := Wrap64(g.pc + PushWidth(Fetch(c.cur)) + 1)))
  {
    hide FrameOp, Fetch, Exec;
    FrameExec(e, Fetch(c.cur), PushedData(c.cur), c);
  }

  lemma FrameLocal(e: Env, op: Opcode, data: Bytes, f: Frame)
    requires |data| <= 32
    ensures Local(f, FrameOp(e, op, data, f).state)
  {
    hide FrameOp;
  }

  function Words(f: Frame): seq<U256> { OperandStack.Contents(f.stack) }

  lemma Pushed(f: Frame, gas: nat, v: U256)
    requires f.gas >= gas && f.stack.top < MAX_STACK_DEPTH
    ensures var r := PushConst(f, gas, v);
      && r == Ok(r.state, ()) && Words(r.state) == Words(f) + [v]
      && r.state == f.(gas := f.gas - gas, stack := r.state.stack)
  {
  }

  lemma Popped(f: Frame)
    requires f.gas >= GAS_QUICK && f.stack.top >= 1
    ensures Pop(f) == Ok(Drop(f, 1).(gas := f.gas - GAS_QUICK), ())
    ensures Words(f) == Words(Pop(f).state) + [Below(f, 1)]
  {
  }

  lemma FramePush(e: Env, n: nat, data: Bytes, f: Frame)
    requires |data| <= 32
    ensures FrameOp(e, PushOp(n), data, f) == PushData(f, data)
  {
    hide PushData;
  }

  lemma FramePop(e: Env, f: Frame)
    ensures FrameOp(e, PopOp, [], f) == Pop(f)
  {
    hide Pop;
  }
}
