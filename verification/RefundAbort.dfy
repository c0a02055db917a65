// A transaction that aborts because the refund counter would go below zero. A
// contract clears a slot, calls a library that refills it and fails, and then
// refills the slot itself: the rollback gives the cleared slot back but not the
// refund that the library took.
module RefundAbort {
  import opened Common
  import opened Params
  import opened FlatWorld
  import opened Machine
  import opened Frames
  import opened Instructions
  import opened Interpreter
  import opened CallStack
  import opened SstoreMetering
  import opened Stepping
  import opened ShortRuns
  import SstoreRuns

  const LIBRARY: Addr := 0x1b

  // Push the word and the slot of the last instruction; clear slot 0; delegate
  // to the library with 30000 gas; POP; SSTORE.
  const CONTRACT_CODE: Bytes := [
    0x60, 1, 0x60, 0, 0x60, 0, 0x60, 0, 0x55,
    0x60, 0, 0x60, 0, 0x60, 0, 0x60, 0, 0x60, 0x1b, 0x61, 0x75, 0x30, 0xf4, 0x50, 0x55]

  // Write one to slot 0, then an invalid instruction.
  const LIBRARY_CODE: Bytes := [0x60, 1, 0x60, 0, 0x55, 0xfe]

  // ---------- states on the way ----------

  // How the refund counter stands to slot 0, which is not cleared yet, cleared,
  // or cleared while its refund has been taken.
  datatype Phase = Untouched | Covered | Uncovered

  ghost predicate InPhase(e: Env, c: Ctx, a: Addr, phase: Phase) {
    match phase
    case Untouched => c.refund == 0 && c.world.GetState(a, 0) == e.committed.GetState(a, 0) != 0
    case Covered => c.refund == ClearingRefund(e) && Cleared(e, c.world, (a, 0))
    case Uncovered => c.refund < ClearingRefund(e) && e.committed.GetState(a, 0) != 0
  }

  // What stays the same on the way.
  ghost predicate Setting(e: Env, c: Ctx, a: Addr) {
    && e.From(Istanbul) && a !in e.precompiled && c.cur.callee == a && a in c.access.addrs
  }

  // The library runs over a state in which the slot was cleared, and will come
  // back to the contract.
  ghost predicate InLibrary(e: Env, c: Ctx, a: Addr, back: World) {
    && c.cur.callType == SubCall(Some(back), 0, 0) && Cleared(e, back, (a, 0))
    && |c.callStack| >= 2
    && var f := c.callStack[|c.callStack| - 1];
       && f.callee == a && f.code == CONTRACT_CODE && f.pc == 22 && Words(f) == [1, 0]
       && f.gas >= 50000 && !f.readOnly
  }

  // ---------- single instructions ----------

  lemma Opcodes()
    ensures Decode(0x55) == SStoreOp && Decode(0x50) == PopOp && Decode(0xfe) == Invalid
  {
  }

  lemma TwoBytes()
    ensures WordFromBE([0x75, 0x30]) == 30000
  {
    assert [0x75, 0x30][..1] == [0x75];
    assert [0x75][..0] == [];
  }

  lemma SStoreStep(e: Env, c: Ctx)
    requires c.status.Running? && Fetch(c.cur) == SStoreOp && SStore(e, c).Ok?
    ensures Step(e, c) == AdvancePc(SStore(e, c).state, 0)
  {
    hide SStore, Fetch, Decode;
  }

  // SSTORE of the two words on top.
  lemma SStoreWrites(e: Env, c: Ctx, words: seq<U256>, key: U256, val: U256)
    requires !c.cur.readOnly && Words(c.cur) == words + [val, key]
    ensures c.cur.stack.top >= 2
    ensures SStore(e, c) == WriteSlot(e, c.(cur := Drop(c.cur, 2)), key, val)
    ensures Words(Drop(c.cur, 2)) == words
  {
    hide WriteSlot;
    assert Words(c.cur)[|words|] == val && Words(c.cur)[|words| + 1] == key;
    assert Words(Drop(c.cur, 2)) == Words(c.cur)[..|words|];
  }

  // A step whose SSTORE completes.
  lemma WriteStep(e: Env, c: Ctx, code: Bytes, pc: nat, words: seq<U256>, gas: int, val: U256, spent: nat)
    requires At(e, c, code, pc, words + [val, 0], gas) && pc < |code| < TWO_64 - 1 && code[pc] == 0x55
    requires var r := WriteSlot(e, c.(cur := Drop(c.cur, 2)), 0, val);
      && r.Ok? && r.state.cur == Drop(c.cur, 2).(gas := r.state.cur.gas)
      && r.state.cur.gas >= c.cur.gas - spent && r.state.status == c.status
    ensures var d, r := Step(e, c), WriteSlot(e, c.(cur := Drop(c.cur, 2)), 0, val).state;
      && At(e, d, code, pc + 1, words, gas - spent)
      && d == r.(cur := d.cur) && d.cur.callee == c.cur.callee && d.cur.callType == c.cur.callType
  {
    hide Decode, Step, Disciplined, WriteSlot;
    IsRunning(e, c);
    Opcodes();
    SStoreWrites(e, c, words, 0, val);
    SStoreStep(e, c);
    StepKeeps(e, c);
  }

  // ---------- the call ----------

  lemma CallStep(e: Env, c: Ctx, a: Addr)
    requires At(e, c, CONTRACT_CODE, 22, CallWords([1, 0], LIBRARY, 30000), 100000) && |c.callStack| == 1
    requires Setting(e, c, a) && InPhase(e, c, a, Covered) && c.world.GetCode(LIBRARY) == LIBRARY_CODE
    ensures c.status.Running?
    ensures var d := Step(e, c);
      && At(e, d, LIBRARY_CODE, 0, [], 30000)
      && Setting(e, d, a) && InPhase(e, d, a, Covered) && InLibrary(e, d, a, d.world)
  {
    hide Step, Disciplined, Cleared, CallWords;
    DelegateStep(e, c, CONTRACT_CODE, 22, [1, 0], LIBRARY, 30000, 100000);
  }

  // ---------- back in the contract ----------

  lemma InvalidStep(e: Env, c: Ctx)
    requires c.status.Running? && Fetch(c.cur) == Invalid && c.callStack != []
    requires FinishCall(e, c, [], Failure(InvalidOpcode)).Ok?
    ensures Step(e, c) == AdvancePc(FinishCall(e, c, [], Failure(InvalidOpcode)).state, 0)
  {
    hide Fetch, Exec, FinishCall, Decode;
    FrameExec(e, Invalid, [], c);
    InvalidFrame(e, c.cur);
  }

  lemma InvalidFrame(e: Env, f: Frame)
    ensures FrameOp(e, Invalid, [], f) == Err(f, InvalidOpcode)
  {
  }

  // The library fails: the slot is cleared again, the refund stays taken.
  lemma FailStep(e: Env, c: Ctx, a: Addr, back: World)
    requires At(e, c, LIBRARY_CODE, 5, [], 0) && Setting(e, c, a) && InLibrary(e, c, a, back)
    requires InPhase(e, c, a, Uncovered)
    ensures var d := Step(e, c);
      && At(e, d, CONTRACT_CODE, 23, [1, 0, 0], 50000) && Setting(e, d, a)
      && InPhase(e, d, a, Uncovered) && Cleared(e, d.world, (a, 0))
  {
    hide Step, Cleared, Decode, Disciplined, FinishCall;
    IsRunning(e, c);
    Opcodes();
    FailedCallBack(e, c, back, InvalidOpcode);
    InvalidStep(e, c);
    StepKeeps(e, c);
    assert Words(Step(e, c).cur) == [1, 0] + [0];
  }

  lemma PopStep(e: Env, c: Ctx, a: Addr)
    requires At(e, c, CONTRACT_CODE, 23, [1, 0, 0], 50000)
    ensures var d := Step(e, c);
      && At(e, d, CONTRACT_CODE, 24, [1, 0], 50000 - GAS_QUICK)
      && d == c.(cur := d.cur) && d.cur.callee == c.cur.callee
  {
    hide Step, Decode, Disciplined, Pop, FrameOp;
    IsRunning(e, c);
    Opcodes();
    Popped(c.cur);
    FramePop(e, c.cur);
    FrameStep(e, c, Pop(c.cur).state);
    StepKeeps(e, c);
    assert Words(Pop(c.cur).state) == [1, 0, 0][..2];
  }

  lemma LastStep(e: Env, c: Ctx, a: Addr)
    requires At(e, c, CONTRACT_CODE, 24, [1, 0], 50000 - GAS_QUICK) && Setting(e, c, a)
    requires InPhase(e, c, a, Uncovered) && Cleared(e, c.world, (a, 0))
    ensures c.status.Running? && Step(e, c).status == Aborted(RefundBelowZero)
  {
    hide Step, Cleared, Decode;
    Opcodes();
    assert Below(c.cur, 1) == Words(c.cur)[1] && Below(c.cur, 2) == Words(c.cur)[0];
    SstoreRuns.StepBelowZeroExactly(e, c);
  }

  // ---------- the transaction ----------

  ghost predicate Aborts(e: Env, c: Ctx) {
    exists n: nat :: Run(e, c, n).status == Aborted(RefundBelowZero)
  }

  lemma LeadingAborts(e: Env, c: Ctx, d: Ctx)
    requires Leads(e, c, d) && Aborts(e, d)
    ensures Aborts(e, c)
  {
    hide Run;
    var n: nat :| Run(e, d, n).status == Aborted(RefundBelowZero);
    var f := Run(e, d, n);
    assert Leads(e, d, f);
    LeadsThrough(e, c, d, f);
    var m: nat :| Run(e, c, m) == f;
  }

  lemma StepAborts(e: Env, c: Ctx)
    requires c.status.Running? && Aborts(e, Step(e, c))
    ensures Aborts(e, c)
  {
    hide Step;
    var n: nat :| Run(e, Step(e, c), n).status == Aborted(RefundBelowZero);
    assert Run(e, c, n + 1) == Run(e, Step(e, c), n);
  }

  lemma Stopped(e: Env, c: Ctx)
    requires c.status == Aborted(RefundBelowZero)
    ensures Aborts(e, c)
  {
    hide Step;
    assert Run(e, c, 0) == c;
  }

  lemma ReturnAborts(e: Env, c: Ctx, a: Addr)
    requires At(e, c, CONTRACT_CODE, 23, [1, 0, 0], 50000) && Setting(e, c, a)
    requires InPhase(e, c, a, Uncovered) && Cleared(e, c.world, (a, 0))
    ensures Aborts(e, c)
  {
    hide Step, At, Aborts, Cleared;
    AtRuns(e, c, CONTRACT_CODE, 23, [1, 0, 0], 50000);
    PopStep(e, c, a);
    var d := Step(e, c);
    LastStep(e, d, a);
    Stopped(e, Step(e, d));
    StepAborts(e, d);
    StepAborts(e, c);
  }

  lemma LibraryAborts(e: Env, c: Ctx, a: Addr)
    requires At(e, c, LIBRARY_CODE, 0, [], 30000)
    requires Setting(e, c, a) && InPhase(e, c, a, Covered) && InLibrary(e, c, a, c.world)
    ensures Aborts(e, c)
  {
    hide Step, At, Aborts, Leads, Cleared, WriteSlot;
    var d := Pushes(e, c, LIBRARY_CODE, 0, [], 30000, [1, 0]);
    assert [] + [1, 0] == [1, 0];
    RefillInLibrary(e, d, a, c.world);
    var f := Step(e, d);
    FailStep(e, f, a, c.world);
    ReturnAborts(e, Step(e, f), a);
    StepAborts(e, f);
    StepAborts(e, d);
    LeadingAborts(e, c, d);
  }

  lemma RefillInLibrary(e: Env, c: Ctx, a: Addr, back: World)
    requires At(e, c, LIBRARY_CODE, 4, [1, 0], 29994)
    requires Setting(e, c, a) && InPhase(e, c, a, Covered) && InLibrary(e, c, a, back)
    ensures c.status.Running?
    ensures var d := Step(e, c);
      && At(e, d, LIBRARY_CODE, 5, [], 0) && Setting(e, d, a) && InLibrary(e, d, a, back)
      && InPhase(e, d, a, Uncovered) && d.status.Running?
  {
    hide Step, Disciplined, Cleared, WriteSlot;
    IsRunning(e, c);
    SStoreWrites(e, c, [], 0, 1);
    RefillTakes(e, c.(cur := Drop(c.cur, 2)), 0, 1);
    WasCommitted(e, c.world, a);
    WriteStep(e, c, LIBRARY_CODE, 4, [], 29994, 1, 5000);
    IsRunning(e, Step(e, c));
  }

  lemma WasCommitted(e: Env, w: World, a: Addr)
    requires Cleared(e, w, (a, 0))
    ensures e.committed.GetState(a, 0) != 0
  {
  }

  lemma ClearedAborts(e: Env, c: Ctx, a: Addr)
    requires At(e, c, CONTRACT_CODE, 9, [1, 0], 130000) && |c.callStack| == 1
    requires Setting(e, c, a) && InPhase(e, c, a, Covered) && c.world.GetCode(LIBRARY) == LIBRARY_CODE
    ensures Aborts(e, c)
  {
    hide Step, At, Aborts, Leads, Cleared;
    var vals := [0, 0, 0, 0, LIBRARY];
    assert PushesAt(CONTRACT_CODE, 9, vals) by { FivePushes(); }
    var d := Pushes(e, c, CONTRACT_CODE, 9, [1, 0], 130000, vals);
    assert [1, 0] + vals == [1, 0, 0, 0, 0, 0, LIBRARY];
    LessGas(e, d, CONTRACT_CODE, 19, [1, 0] + vals, 130000 - GAS_FASTEST * 5);
    GasPushed(e, d);
    var f := Step(e, d);
    CallStep(e, f, a);
    LibraryAborts(e, Step(e, f), a);
    StepAborts(e, f);
    StepAborts(e, d);
    LeadingAborts(e, c, d);
  }

  lemma FivePushes()
    ensures PushesAt(CONTRACT_CODE, 9, [0, 0, 0, 0, LIBRARY])
  {
    OnePush(CONTRACT_CODE, 17, LIBRARY, []);
    OnePush(CONTRACT_CODE, 15, 0, [LIBRARY]);
    OnePush(CONTRACT_CODE, 13, 0, [0, LIBRARY]);
    OnePush(CONTRACT_CODE, 11, 0, [0, 0, LIBRARY]);
    OnePush(CONTRACT_CODE, 9, 0, [0, 0, 0, LIBRARY]);
  }

  lemma FourPushes()
    ensures PushesAt(CONTRACT_CODE, 0, [1, 0, 0, 0])
  {
    OnePush(CONTRACT_CODE, 6, 0, []);
    OnePush(CONTRACT_CODE, 4, 0, [0]);
    OnePush(CONTRACT_CODE, 2, 0, [0, 0]);
    OnePush(CONTRACT_CODE, 0, 1, [0, 0, 0]);
  }

  // The gas of the call.
  lemma GasPushed(e: Env, c: Ctx)
    requires At(e, c, CONTRACT_CODE, 19, [1, 0, 0, 0, 0, 0, LIBRARY], 120000)
    ensures c.status.Running?
    ensures var d := Step(e, c);
      && At(e, d, CONTRACT_CODE, 22, CallWords([1, 0], LIBRARY, 30000), 100000)
      && d == c.(cur := d.cur) && d.cur.callee == c.cur.callee
  {
    hide Step, At, Decode;
    AtRuns(e, c, CONTRACT_CODE, 19, [1, 0, 0, 0, 0, 0, LIBRARY], 120000);
    PushCodes();
    PushStep(e, c, CONTRACT_CODE, 19, [1, 0, 0, 0, 0, 0, LIBRARY], 120000, 2);
    assert CONTRACT_CODE[20..22] == [0x75, 0x30];
    TwoBytes();
    assert [1, 0, 0, 0, 0, 0, LIBRARY] + [30000] == CallWords([1, 0], LIBRARY, 30000);
    LessGas(e, Step(e, c), CONTRACT_CODE, 22, CallWords([1, 0], LIBRARY, 30000), 120000 - GAS_FASTEST);
  }

  lemma ContractAborts(e: Env, c: Ctx, a: Addr)
    requires At(e, c, CONTRACT_CODE, 0, [], 150000) && |c.callStack| == 1
    requires Setting(e, c, a) && InPhase(e, c, a, Untouched) && c.world.GetCode(LIBRARY) == LIBRARY_CODE
    ensures Aborts(e, c)
  {
    hide Step, At, Aborts, Leads, Cleared;
    FourPushes();
    var d := Pushes(e, c, CONTRACT_CODE, 0, [], 150000, [1, 0, 0, 0]);
    assert [] + [1, 0, 0, 0] == [1, 0] + [0, 0];
    ClearingStep(e, d, a);
    var f := Step(e, d);
    ClearedAborts(e, f, a);
    StepAborts(e, d);
    LeadingAborts(e, c, d);
  }

  lemma ClearingStep(e: Env, c: Ctx, a: Addr)
    requires At(e, c, CONTRACT_CODE, 8, [1, 0] + [0, 0], 150000 - GAS_FASTEST * 4) && |c.callStack| == 1
    requires Setting(e, c, a) && InPhase(e, c, a, Untouched) && c.world.GetCode(LIBRARY) == LIBRARY_CODE
    ensures c.status.Running?
    ensures var d := Step(e, c);
      && At(e, d, CONTRACT_CODE, 9, [1, 0], 130000) && |d.callStack| == 1
      && Setting(e, d, a) && InPhase(e, d, a, Covered) && d.world.GetCode(LIBRARY) == LIBRARY_CODE
  {
    hide Step, Disciplined, Cleared, WriteSlot;
    IsRunning(e, c);
    SStoreWrites(e, c, [1, 0], 0, 0);
    var b := c.(cur := Drop(c.cur, 2));
    ClearingGives(e, b, 0);
    WriteRest(e, b, 0, 0);
    WriteStep(e, c, CONTRACT_CODE, 8, [1, 0], 150000 - GAS_FASTEST * 4, 0, 10000);
  }

  lemma WriteRest(e: Env, c: Ctx, key: U256, val: U256)
    requires WriteSlot(e, c, key, val).Ok?
    ensures var d := WriteSlot(e, c, key, val).state;
      && d.status == c.status && d.callStack == c.callStack
      && forall a: Addr :: d.world.GetCode(a) == c.world.GetCode(a)
  {
  }

  // A message call without value to a contract with a slot to clear, and the
  // library in place.
  predicate RefillingTx(e: Env, tx: Tx, world: World) {
    && e.From(Istanbul) && Messages(e, tx, world, CONTRACT_CODE)
    && world.GetCode(LIBRARY) == LIBRARY_CODE
    && world.GetState(tx.to.value, 0) == e.committed.GetState(tx.to.value, 0) != 0
  }

  // Such a transaction aborts, although it is the library's write that was taken
  // back.
  lemma RefillingTxAborts(e: Env, tx: Tx, world: World)
    requires RefillingTx(e, tx, world)
    ensures exists n: nat :: Execution(e, tx, world, n).status == Aborted(RefundBelowZero)
  {
    hide Run, Start, At, InPhase;
    TxStarts(e, tx, world);
    ContractAborts(e, Start(e, tx, world), tx.to.value);
    var n: nat :| Run(e, Start(e, tx, world), n).status == Aborted(RefundBelowZero);
    assert Execution(e, tx, world, n).status == Aborted(RefundBelowZero);
  }

  lemma TxStarts(e: Env, tx: Tx, world: World)
    requires RefillingTx(e, tx, world)
    ensures var c, a := Start(e, tx, world), tx.to.value;
      && At(e, c, CONTRACT_CODE, 0, [], 150000) && |c.callStack| == 1
      && Setting(e, c, a) && InPhase(e, c, a, Untouched) && c.world.GetCode(LIBRARY) == LIBRARY_CODE
  {
    hide Start, At;
    MessageStarts(e, tx, world, CONTRACT_CODE);
  }
}
