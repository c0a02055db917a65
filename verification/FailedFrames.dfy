// Where a caller resumes after a nested frame failed inside an instruction: the
// main loop advances the caller's counter by the failed instruction's size; and a
// transaction whose contract then runs on inside the data of a PUSH.
module FailedFrames {
  import opened Common
  import opened Params
  import opened FlatWorld
  import opened Machine
  import opened Interpreter
  import opened CallStack
  import opened ProgramCounter
  import opened PlainCode
  import opened Stepping
  import opened ShortRuns

  // However many frames end with the failing one, the frame that resumes goes on
  // at the instruction after its call if and only if the failing instruction was
  // neither a PUSH nor a call or creation: after a PUSH it skips that many bytes
  // more, and after a call or creation it runs its own call again.
  lemma CallerResumesAt(e: Env, c: Ctx)
    requires Disciplined(e, c) && PcsInPlace(c) && FailsInside(e, c)
    requires Step(e, c).status.Running?
    ensures var op, d := Fetch(c.cur), Step(e, c);
      && 1 <= |d.callStack| < |c.callStack|
      && var caller := c.callStack[|d.callStack|];
         && d.cur.code == caller.code
         && (d.cur.pc == caller.pc + 1 <==> !EntersCall(op) && !op.PushOp?)
         && (EntersCall(op) ==> d.cur.pc == caller.pc)
         && (op.PushOp? ==> d.cur.pc == Wrap64(caller.pc + op.width + 1))
  {
    hide Step, FailsInside, Fetch, Exec, Unwind, PcsInPlace;
    StepKeeps(e, c);
    FailedStepResumes(e, c);
    WaitingBelow(e, c, |Step(e, c).callStack|);
    FailingWidth(e, c);
    SkipsMore(c.callStack[|Step(e, c).callStack|].pc, PushWidth(Fetch(c.cur)));
  }

  lemma WaitingBelow(e: Env, c: Ctx, m: nat)
    requires Disciplined(e, c) && PcsInPlace(c) && 1 <= m < |c.callStack|
    ensures c.callStack[m].pc < TWO_64 - 1
  {
    assert Waiting(c.callStack[m]);
  }

  lemma FailingWidth(e: Env, c: Ctx)
    requires FailsInside(e, c)
    ensures var op := Fetch(c.cur); if op.PushOp? then 0 < op.width <= 32 && PushWidth(op) == op.width else PushWidth(op) == 0
  {
    hide Exec;
  }

  lemma SkipsMore(pc: nat, width: nat)
    requires pc < TWO_64 - 1 && width <= 32
    ensures Wrap64(pc + width + 1) == pc + 1 <==> width == 0
  {
  }

  // ---------- a transaction that loses its place ----------

  const LIBRARY: Addr := 0x1b

  // Delegate to the library without gas, then PUSH3.
  const CALLING_CODE: Bytes := [
    0x60, 0, 0x60, 0, 0x60, 0, 0x60, 0, 0x60, 0x1b, 0x60, 0, 0xf4, 0x62, 0, 0, 0]

  // PUSH1.
  const PUSHING_CODE: Bytes := [0x60, 0]

  lemma SixPushes()
    ensures PushesAt(CALLING_CODE, 0, [0, 0, 0, 0, LIBRARY, 0])
  {
    OnePush(CALLING_CODE, 10, 0, []);
    OnePush(CALLING_CODE, 8, LIBRARY, [0]);
    OnePush(CALLING_CODE, 6, 0, [LIBRARY, 0]);
    OnePush(CALLING_CODE, 4, 0, [0, LIBRARY, 0]);
    OnePush(CALLING_CODE, 2, 0, [0, 0, LIBRARY, 0]);
    OnePush(CALLING_CODE, 0, 0, [0, 0, 0, LIBRARY, 0]);
  }

  // The DELEGATECALL and the PUSH3 are instructions, the byte after that is not.
  lemma CallingStarts()
    ensures IsStart(CALLING_CODE, 12) && !IsStart(CALLING_CODE, 14)
  {
    hide IsStart;
    NextIsStart(CALLING_CODE, 0) by { StartOfCode(CALLING_CODE); }
    NextIsStart(CALLING_CODE, 2);
    NextIsStart(CALLING_CODE, 4);
    NextIsStart(CALLING_CODE, 6);
    NextIsStart(CALLING_CODE, 8);
    NextIsStart(CALLING_CODE, 10);
    NextIsStart(CALLING_CODE, 12);
    if IsStart(CALLING_CODE, 14) {
      StartsDoNotOverlap(CALLING_CODE, 13, 14);
    }
  }

  // The library is about to push without gas, and the contract's frame waits.
  ghost predicate AboutToFail(e: Env, c: Ctx) {
    && At(e, c, PUSHING_CODE, 0, [], 0) && c.cur.gas == 0 && |c.callStack| == 2
    && var f := c.callStack[1]; f.code == CALLING_CODE && f.pc == 12 && Words(f) == []
  }

  lemma PushingCodes()
    ensures Decode(0x60) == PushOp(1) && Decode(0xf4) == DelegateCallOp
  {
  }

  lemma FailingLosesPlace(e: Env, c: Ctx)
    requires AboutToFail(e, c)
    ensures PcsInPlace(c) && Roomy(c) && LosesPlace(c)
  {
    hide Decode, IsStart;
    CallingStarts();
    PushingCodes();
    StartOfCode(PUSHING_CODE);
  }

  // The contract goes on inside the data of its PUSH3.
  lemma FailingStep(e: Env, c: Ctx)
    requires AboutToFail(e, c)
    ensures c.status.Running?
    ensures var d := Step(e, c);
      d.status.Running? && d.cur.code == CALLING_CODE && d.cur.pc == 14 && !PcsInPlace(d)
  {
    hide Step, Decode, PcsInPlace, LosesPlace, Roomy, FailsInside;
    FailingLosesPlace(e, c);
    StepPc(e, c);
    LosingGoesOn(e, c);
    PushingCodes();
    FailedPushStep(e, c);
    FailedStepResumes(e, c);
  }

  ghost predicate Misplaced(d: Ctx) {
    d.status.Running? && d.cur.code == CALLING_CODE && d.cur.pc == 14 && !PcsInPlace(d)
  }

  // A message call without value to the contract, with the library in place.
  predicate MisplacingTx(e: Env, tx: Tx, world: World) {
    e.From(Homestead) && Messages(e, tx, world, CALLING_CODE) && world.GetCode(LIBRARY) == PUSHING_CODE
  }

  // Such a transaction gets to a state in which the contract runs on inside the
  // data of its PUSH3.
  lemma MisplacingTxLosesPlace(e: Env, tx: Tx, world: World)
    requires MisplacingTx(e, tx, world)
    ensures exists n: nat :: Misplaced(Execution(e, tx, world, n))
  {
    hide Run, Start, At, Step, Misplaced, CallWords, AboutToFail;
    MessageStarts(e, tx, world, CALLING_CODE);
    var c := Start(e, tx, world);
    SixPushes();
    var d := Pushes(e, c, CALLING_CODE, 0, [], 150000, [0, 0, 0, 0, LIBRARY, 0]);
    assert [] + [0, 0, 0, 0, LIBRARY, 0] == CallWords([], LIBRARY, 0) by { NoneKept(); }
    DelegateStep(e, d, CALLING_CODE, 12, [], LIBRARY, 0, 150000 - GAS_FASTEST * 6);
    var f := Step(e, d);
    AtCode(e, d, 12, CallWords([], LIBRARY, 0), 150000 - GAS_FASTEST * 6);
    DelegatedFails(e, d, f);
    FailedIsMisplaced(e, f);
    LeadsNowhere(e, Step(e, f));
    LeadsOn(e, f, Step(e, f));
    LeadsOn(e, d, Step(e, f));
    LeadsThrough(e, c, d, Step(e, f));
    var n: nat :| Run(e, c, n) == Step(e, f);
    assert Execution(e, tx, world, n) == Step(e, f);
  }

  lemma NoneKept()
    ensures [] + [0, 0, 0, 0, LIBRARY, 0] == CallWords([], LIBRARY, 0)
  {
  }

  lemma AtCode(e: Env, c: Ctx, pc: nat, words: seq<U256>, gas: int)
    requires At(e, c, CALLING_CODE, pc, words, gas)
    ensures c.cur.code == CALLING_CODE && c.cur.pc == pc
  {
  }

  lemma DelegatedFails(e: Env, c: Ctx, d: Ctx)
    requires c.cur.code == CALLING_CODE && c.cur.pc == 12 && |c.callStack| == 1
    requires At(e, d, PUSHING_CODE, 0, [], 0) && d.cur.gas == 0 && Delegated(c, d, [], 150000 - GAS_FASTEST * 6)
    ensures AboutToFail(e, d)
  {
    hide Disciplined;
  }

  lemma FailedIsMisplaced(e: Env, c: Ctx)
    requires AboutToFail(e, c)
    ensures c.status.Running? && Misplaced(Step(e, c))
  {
    hide Step, PcsInPlace, AboutToFail;
    FailingStep(e, c);
  }
}
