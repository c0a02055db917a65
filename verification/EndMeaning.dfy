// What the end of a transaction leaves: its result, and the world by what its
// getters answer; and what becomes of the accounts that SELFDESTRUCT marked.
module EndMeaning {
  import opened Common
  import opened Params
  import opened FlatWorld
  import opened Machine
  import opened CallMemory
  import opened Frames
  import opened Instructions
  import opened Interpreter
  import opened CallStack
  import opened StackMeaning
  import opened MemoryMeaning
  import opened WorldMeaning
  import opened CallMeaning
  import opened CreateMeaning
  import opened ReturnMeaning
  import opened ProgramCounter

  // ---------- the last frame ----------

  // Deleted at the end: what SELFDESTRUCT marked, and from Spurious Dragon on what
  // was touched and is empty (EIP-161).
  predicate Gone(e: Env, w: World, touched: set<Addr>, destroyed: set<Addr>, a: Addr) {
    || a in destroyed
    || (e.From(SpuriousDragon) && a in touched
        && w.GetNonce(a) == 0 && w.GetBalance(a) == 0 && e.keccak(w.GetCode(a)) == e.keccak([]))
  }

  // The world after the deletions: what is gone does not exist and reads as
  // nothing, everything else reads as before.
  ghost predicate Swept(e: Env, v: World, w: World, touched: set<Addr>, destroyed: set<Addr>) {
    && w.logs == v.logs
    && (forall a: Addr :: w.Exist(a) <==> v.Exist(a) && !Gone(e, v, touched, destroyed, a))
    && (forall a: Addr :: w.At(a) == if Gone(e, v, touched, destroyed, a) then BLANK else v.At(a))
  }

  lemma SweepsExactly(e: Env, c: Ctx)
    ensures Swept(e, c.world, EndedWorld(e, c), c.dirty, c.destroyed)
  {
  }

  // The only frame above the placeholder ended with data, unused gas and a
  // verdict, in a world, with accounts touched and destroyed. A message call that
  // failed is undone; a creation is undone only when its code could not be stored,
  // and otherwise succeeds, even when its code failed.
  ghost predicate Ended(
    e: Env, c: Ctx, d: Ctx, data: seq<Byte>, unused: int, w: World, touched: set<Addr>, destroyed: set<Addr>,
    verdict: Verdict
  ) {
    && c.cur.callType.TxCall? && c.callStack != [] && d.status.Finished?
    && d.destroyed == {} && d.dirty == {}
    && var (result, aux) := (d.status.result, c.cur.callType.aux);
       && result.data == data && result.gas == unused
       && match aux
          case Sender(from) =>
            if verdict.Failure? then
              result.Reverted? && result.error == verdict.error && d.world == c.cur.callType.txSnapshot
            else
              result.Succeeded? && result.created == None && Swept(e, w, d.world, touched + {from}, destroyed)
          case Contract(a) =>
            if verdict.Success? && !Deposits(e, FrameBelow(c), data, verdict) then
              result.Reverted? && !result.error.RevertedCall? && d.world == c.cur.callType.txSnapshot
            else
              && result.Succeeded? && result.created == Some(a)
              && if verdict.Failure? then Swept(e, w, d.world, touched, destroyed)
                 else exists v: World :: CodeSet(w, v, a, data) && Swept(e, v, d.world, touched + {a}, destroyed)
  }

  lemma Ends(e: Env, c: Ctx, data: Bytes, verdict: Verdict)
    requires c.status.Running? && |c.callStack| == 1 && c.cur.callType.TxCall?
    ensures var r := FinishCall(e, c, data, verdict);
      r.Ok? && Ended(e, c, r.state, data, c.cur.gas, c.world, c.dirty, c.destroyed, verdict)
  {
    hide CreatePostProcessing, CodeSet, Deposits, CreatorGas, Swept, EndedWorld;
    var d, aux := CallPop(c), c.cur.callType.aux;
    match aux {
      case Sender(from) => SweepsExactly(e, d.(dirty := c.dirty + {from}));
      case Contract(a) =>
        DepositExactly(e, d, a, data, verdict);
        var s, stored := CreatePostProcessing(e, d, a, data, verdict).state, Deposits(e, d.cur, data, verdict);
        SweepsExactly(e, s);
        if stored {
          SetsCode(c.world, a, data);
          DepositSucceeds(e, d.cur, data, verdict);
          assert CodeSet(c.world, s.world, a, data) && Swept(e, s.world, EndedWorld(e, s), c.dirty + {a}, c.destroyed);
        }
    }
  }

  lemma DepositSucceeds(e: Env, f: Frame, data: seq<Byte>, verdict: Verdict)
    ensures Deposits(e, f, data, verdict) ==> verdict.Success?
  {
  }

  // ---------- instructions that end the transaction ----------

  lemma EndedAdvances(
    e: Env, c: Ctx, d: Ctx, data: seq<Byte>, unused: int, w: World, touched: set<Addr>, destroyed: set<Addr>,
    verdict: Verdict
  )
    requires Ended(e, c, d, data, unused, w, touched, destroyed, verdict)
    ensures Ended(e, c, AdvancePc(d, 0), data, unused, w, touched, destroyed, verdict)
  {
  }

  lemma EndedFrom(
    e: Env, c: Ctx, s: Ctx, d: Ctx, data: seq<Byte>, unused: int, w: World, touched: set<Addr>, destroyed: set<Addr>,
    verdict: Verdict
  )
    requires Ended(e, s, d, data, unused, w, touched, destroyed, verdict)
    requires s.callStack == c.callStack && s.cur.callType == c.cur.callType
    ensures Ended(e, c, d, data, unused, w, touched, destroyed, verdict)
  {
  }

  // The transaction's own frame runs.
  predicate Outermost(c: Ctx) { c.status.Running? && |c.callStack| == 1 && c.cur.callType.TxCall? }

  // STOP, also past the end of the code.
  lemma LastStop(e: Env, c: Ctx)
    requires Outermost(c) && (c.cur.pc >= |c.cur.code| || Runs(c, 0x00))
    ensures Completes(e, c)
    ensures Ended(e, c, Step(e, c), [], c.cur.gas, c.world, c.dirty, c.destroyed, Success)
  {
    hide FinishCall, Step, Completes, Ended, Decode, Fetchable, PushedData;
    EndDecodes(0x00);
    RunsEnd(e, c, Stop);
    Ends(e, c, [], Success);
    EndedAdvances(e, c, FinishCall(e, c, [], Success).state, [], c.cur.gas, c.world, c.dirty, c.destroyed, Success);
  }

  // RETURN and REVERT.
  lemma LastReturn(e: Env, c: Ctx, raw: Byte)
    requires Outermost(c) && Runs(c, raw) && (raw == 0xf3 || raw == 0xfd)
    ensures var (off: nat, len: nat) := if Height(c) >= 2 then (Word(c, 1), Word(c, 2)) else (0, 0);
      var fee, verdict := Fee(c.cur.memory, off + len), if raw == 0xf3 then Success else Failure(RevertedCall);
      && (Completes(e, c)
          <==> Height(c) >= 2 && off + len <= MAX_MEM_SIZE && c.cur.gas >= fee && (raw == 0xfd ==> e.From(Byzantium)))
      && (Completes(e, c) ==>
            Ended(e, c, Step(e, c), Shown(c.cur.memory, off, len), c.cur.gas - fee, c.world, c.dirty, c.destroyed, verdict))
  {
    hide FinishCall, Step, Completes, Ended, ReturnData, Fetchable, PushedData, Stored, Fee, Shown, Decode;
    EndDecodes(raw);
    FetchesRaw(c, raw);
    RunsEnd(e, c, Decode(raw));
    ReturnDataOutcome(c);
    var (off: nat, len: nat) := if Height(c) >= 2 then (Word(c, 1), Word(c, 2)) else (0, 0);
    var fee, verdict := Fee(c.cur.memory, off + len), if raw == 0xf3 then Success else Failure(RevertedCall);
    if Height(c) >= 2 {
      WordBelow(c, 1);
      WordBelow(c, 2);
    }
    var r := ReturnData(c);
    if r.Ok? {
      Ends(e, r.state, r.value, verdict);
      var g := FinishCall(e, r.state, r.value, verdict).state;
      EndedFrom(e, c, r.state, g, r.value, c.cur.gas - fee, c.world, c.dirty, c.destroyed, verdict);
      EndedAdvances(e, c, g, r.value, c.cur.gas - fee, c.world, c.dirty, c.destroyed, verdict);
    }
  }

  // SELFDESTRUCT.
  lemma LastSelfDestruct(e: Env, c: Ctx)
    requires Outermost(c) && Runs(c, 0xff)
    ensures var heir, self := ToAddr(Top(c)), c.cur.callee;
      && (Completes(e, c) <==> !c.cur.readOnly && Height(c) >= 1 && c.cur.gas >= DestructPrice(e, c, heir))
      && (Completes(e, c) ==>
            exists w: World :: Bequeathed(c.world, w, self, heir)
              && Ended(e, c, Step(e, c), [], c.cur.gas - DestructPrice(e, c, heir), w,
                       c.dirty + {self, heir}, c.destroyed + {self}, Success))
  {
    hide FinishCall, Step, Completes, Ended, PrepareSelfDestruct, Bequeath, Bequeathed, WithAccount;
    hide DestructPrice, DestructRefund;
    hide Fetchable, PushedData, Decode;
    EndDecodes(0xff);
    FetchesRaw(c, 0xff);
    RunsEnd(e, c, SelfDestructOp);
    DestructPrepared(e, c);
    if Height(c) >= 1 {
      WordBelow(c, 1);
    }
    var r := PrepareSelfDestruct(e, c);
    if r.Ok? {
      BequeathExactly(r.state, r.value);
      var s := Bequeath(r.state, r.value);
      if !c.cur.readOnly {
        Ends(e, s, [], Success);
        var g := FinishCall(e, s, [], Success).state;
        EndedFrom(e, c, s, g, [], s.cur.gas, s.world, s.dirty, s.destroyed, Success);
        EndedAdvances(e, c, g, [], s.cur.gas, s.world, s.dirty, s.destroyed, Success);
      }
    }
  }

  // An instruction that fails in the transaction's own frame: a message call ends
  // reverted, without data, with the world its snapshot; a creation ends as if it
  // had succeeded, with the world as the instruction left it.
  lemma LastFailure(e: Env, c: Ctx)
    requires Disciplined(e, c) && Outermost(c) && FailsInside(e, c) && !EndsFrame(Fetch(c.cur))
    ensures var d, aux := Step(e, c), c.cur.callType.aux;
      && d.status.Finished? && d.status.result.data == []
      && (aux.Sender? ==>
            && d.status.result.Reverted? && !d.status.result.error.RevertedCall?
            && d.world == c.cur.callType.txSnapshot)
      && (aux.Contract? ==>
            var s := Exec(e, Fetch(c.cur), PushedData(c.cur), c).state;
            && d.status.result.Succeeded? && d.status.result.created == Some(aux.contract)
            && Swept(e, s.world, d.world, s.dirty, s.destroyed))
  {
    hide Exec, Fetch, FinishCall, Swept;
    var r := Exec(e, Fetch(c.cur), PushedData(c.cur), c);
    PlainFailsForGood(e, Fetch(c.cur), PushedData(c.cur), c);
    FailsInPlace(e, c);
    Ends(e, r.state, [], Failure(r.error));
  }

  // ---------- transactions without a frame ----------

  // What a message call answers that starts no code.
  function AnsweredAtOnce(e: Env, tx: Tx, to: Addr): PrecompileResult {
    if to in e.precompiled then e.precompiled[to](tx.input) else PrecompileResult([], Success)
  }

  // A message call to a precompiled contract or an account without code ends at
  // once, with all its gas but 21000: undone but for the sender's nonce when it
  // fails, and otherwise with its value moved.
  lemma FramelessMessage(e: Env, tx: Tx, world: World)
    requires tx.to.Some? && (tx.to.value in e.precompiled || world.GetCode(tx.to.value) == [])
    requires tx.value <= world.GetBalance(tx.from)
    requires tx.from != tx.to.value ==> world.GetBalance(tx.to.value) + tx.value < TWO_256
    ensures var d, to, from, val := Start(e, tx, world), tx.to.value, tx.from, tx.value;
      var answer := AnsweredAtOnce(e, tx, to);
      && d.status.Finished? && d.status.result.data == answer.data && d.status.result.gas == Wrap64(tx.gas - 21000)
      && (answer.verdict.Failure? ==>
            && d.status.result.Reverted? && d.status.result.error == answer.verdict.error
            && Sent(world, d.world, from, to, 0))
      && (answer.verdict.Success? ==>
            && d.status.result.Succeeded? && d.status.result.created == None
            && exists w: World :: Sent(world, w, from, to, val) && Swept(e, w, d.world, {from, to}, {}))
  {
    hide Moves, Sent, InitialAccess, AddListed, Swept, EndedWorld, TxEnd;
    var to, from, val := tx.to.value, tx.from, tx.value;
    var raised := world.SetNonce(from, Wrap64(world.GetNonce(from) + 1));
    RaisedBalances(world, from, to);
    CallMoves(raised, from, to, val);
    NothingMoves(raised, from, to);
    RaisedThenMoved(world, raised, raised, from, to, 0);
    var c := NewContext(e, tx.gas, InitialAccess(e, from, tx.to, tx.listed), raised).(dirty := {} + {from, to});
    var made := if raised.Exist(to) then raised else raised.CreateAccount(to);
    var w := made.Transfer(from, to, val).value;
    RaisedThenMoved(world, raised, w, from, to, val);
    CodeKept(raised, w, from, to, val, to);
    var answer := AnsweredAtOnce(e, tx, to);
    var gas := Wrap64(tx.gas - 21000);
    EndsAtOnce(e, c, raised, from, to, answer.data, gas, answer.verdict);
    EndsAtOnce(e, c.(world := w), raised, from, to, answer.data, gas, answer.verdict);
  }

  // A message call whose sender cannot pay the value ends at once, with only the
  // sender's nonce raised.
  lemma UnpaidMessage(e: Env, tx: Tx, world: World)
    requires tx.to.Some? && tx.value > world.GetBalance(tx.from)
    ensures var d := Start(e, tx, world);
      && d.status.Finished? && d.status.result.Reverted? && d.status.result.data == []
      && d.status.result.gas == Wrap64(tx.gas - 21000) && Sent(world, d.world, tx.from, tx.to.value, 0)
  {
    hide InitialAccess, AddListed;
  }

  lemma RaisedBalances(w: World, from: Addr, to: Addr)
    ensures var raised := w.SetNonce(from, Wrap64(w.GetNonce(from) + 1));
      && raised.GetCode(to) == w.GetCode(to)
      && forall a: Addr :: raised.GetBalance(a) == w.GetBalance(a)
  {
  }

  lemma EndsAtOnce(e: Env, c: Ctx, snapshot: World, from: Addr, to: Addr, data: Bytes, gas: U64, verdict: Verdict)
    requires c.callStack == [] && c.status.Running? && c.dirty == {from, to} && c.destroyed == {}
    ensures var r := TxEnd(e, c, snapshot, Sender(from), data, gas, verdict);
      && r.Ok? && r.state.status.Finished?
      && (verdict.Failure? ==> r.state.status.result == Reverted(data, gas, verdict.error) && r.state.world == snapshot)
      && (verdict.Success? ==>
            r.state.status.result == Succeeded(data, gas, None) && Swept(e, c.world, r.state.world, {from, to}, {}))
  {
    hide Swept, EndedWorld, CreatePostProcessing;
    SweepsExactly(e, c.(dirty := c.dirty + {from}));
    assert c.dirty + {from} == {from, to};
  }

  // ---------- marked accounts ----------

  // The account stays marked while the transaction runs, and is gone when it succeeds.
  ghost predicate Marked(c: Ctx, a: Addr) {
    && (c.status.Running? ==> a in c.destroyed)
    && (c.status.Finished? && c.status.result.Succeeded? ==> !c.world.Exist(a))
  }

  lemma TxEndMarks(
    e: Env, c: Ctx, snapshot: World, aux: TxAux, data: Bytes, unused: U64, verdict: Verdict, a: Addr
  )
    requires a in c.destroyed && c.status.Running?
    ensures var r := TxEnd(e, c, snapshot, aux, data, unused, verdict); r.Ok? ==> Marked(r.state, a)
  {
    hide CreatePostProcessing, Emptied;
  }

  lemma FinishMarks(e: Env, c: Ctx, data: Bytes, verdict: Verdict, a: Addr)
    requires a in c.destroyed && c.status.Running?
    ensures var r := FinishCall(e, c, data, verdict); !r.Panic? ==> Marked(r.state, a)
  {
    hide CallEnd, CreateEnd, TxEnd;
    if c.callStack != [] && c.cur.callType.TxCall? {
      TxEndMarks(e, CallPop(c), c.cur.callType.txSnapshot, c.cur.callType.aux, data, c.cur.gas, verdict, a);
    }
  }

  lemma {:induction false} UnwindMarks(e: Env, r: CtxOutcome<()>, a: Addr)
    requires Keeps(e, r) && (!r.Panic? ==> Marked(r.state, a))
    ensures var u := Unwind(e, r); !u.Panic? ==> Marked(u.state, a)
    decreases |r.state.callStack| + 1, r.Err?
  {
    hide FinishCall;
    if r.Err? {
      FinishKeeps(e, r.state, [], Failure(r.error));
      FinishMarks(e, r.state, [], Failure(r.error), a);
      UnwindMarks(e, FinishCall(e, r.state, [], Failure(r.error)), a);
    }
  }

  // ---------- no instruction takes a mark away ----------

  ghost predicate SameMarks(c: Ctx, d: Ctx) { d.destroyed == c.destroyed && d.status == c.status }

  lemma TargetMarks(
    e: Env, c: Ctx, precompile: Addr, codeAt: Addr, callee: Addr, caller: Addr,
    input: Bytes, value: U256, gas: U64, callType: CallType, readOnly: bool
  )
    requires callType.SubCall?
    ensures SameMarks(c, CallTarget(e, c, precompile, codeAt, callee, caller, input, value, gas, callType, readOnly).state)
  {
    hide CallEnd;
  }

  lemma CallMarks(
    e: Env, c: Ctx, callee: Addr, caller: Addr, input: Bytes, gas: U64, value: U256, callType: CallType
  )
    requires callType.SubCall?
    ensures SameMarks(c, Call_(e, c, callee, caller, input, gas, value, callType).state)
  {
    hide CallEnd, CallTarget;
    var w := if c.world.Exist(callee) then c.world else c.world.CreateAccount(callee);
    var t := w.Transfer(caller, callee, value);
    if t.Some? {
      var d := c.(world := t.value, dirty := c.dirty + {caller, callee});
      TargetMarks(e, d, callee, callee, callee, caller, input, value, gas, callType, false);
    }
  }

  lemma CallOpMarks(e: Env, op: Opcode, c: Ctx)
    requires EntersCall(op) && !op.CreateOp? && !op.Create2Op?
    ensures SameMarks(c, EnterOp(e, op, c).state)
  {
    hide PrepareCall, Call_, CallTarget;
    var kind := if op.CallOp? then PlainCall else if op.CallCodeOp? then CallCode
                else if op.DelegateCallOp? then DelegateCall else StaticCall;
    var r := PrepareCall(e, c, kind);
    if r.Ok? {
      var (d, q) := (r.state, r.value);
      var f, saved := d.cur, SubCall(Some(d.world), q.retOff, q.retLen);
      if op.CallOp? {
        CallMarks(e, d, q.addr, f.callee, q.input, q.gas, q.value, saved);
      } else if op.CallCodeOp? {
        TargetMarks(e, d, f.callee, q.addr, f.callee, f.callee, q.input, q.value, q.gas, saved, false);
      } else if op.DelegateCallOp? {
        TargetMarks(e, d, f.callee, q.addr, f.callee, f.caller, q.input, f.value, q.gas, saved, false);
      } else {
        TargetMarks(e, d, q.addr, q.addr, q.addr, f.callee, q.input, 0, q.gas, SubCall(None, q.retOff, q.retLen), true);
      }
    }
  }

  lemma CreateOpMarks(e: Env, op: Opcode, c: Ctx)
    requires op.CreateOp? || op.Create2Op?
    ensures SameMarks(c, EnterOp(e, op, c).state)
  {
    hide PrepareCreate, Charge;
  }

  lemma ReturnMarks(e: Env, c: Ctx, a: Addr)
    requires Disciplined(e, c) && a in c.destroyed
    ensures var r := Return(e, c); !r.Panic? ==> Marked(r.state, a)
    ensures var r := Instructions.Revert(e, c); !r.Panic? ==> Marked(r.state, a)
  {
    hide FinishCall, ReturnData;
    var r := ReturnData(c);
    if r.Ok? {
      FinishMarks(e, r.state, r.value, Success, a);
      FinishMarks(e, r.state, r.value, Failure(RevertedCall), a);
    }
  }

  lemma EndOpMarks(e: Env, op: Opcode, c: Ctx, a: Addr)
    requires EndsFrame(op) && Disciplined(e, c) && a in c.destroyed
    ensures var r := EndOp(e, op, c); !r.Panic? ==> Marked(r.state, a)
  {
    hide FinishCall, Return, Instructions.Revert, SelfDestruct, Marked;
    match op {
      case Stop => FinishMarks(e, c, [], Success, a);
      case ReturnOp => ReturnMarks(e, c, a);
      case RevertOp => ReturnMarks(e, c, a);
      case SelfDestructOp => DestructMarks(e, c, a);
    }
  }

  // SELFDESTRUCT keeps the marks and marks the running contract.
  lemma DestructMarks(e: Env, c: Ctx, a: Addr)
    requires Disciplined(e, c)
    ensures var r := SelfDestruct(e, c);
      && (a in c.destroyed && !r.Panic? ==> Marked(r.state, a))
      && (r.Ok? && a == c.cur.callee ==> Marked(r.state, a))
  {
    hide FinishCall, PrepareSelfDestruct, Bequeath;
    var r := PrepareSelfDestruct(e, c);
    if r.Ok? {
      var s := Bequeath(r.state, r.value);
      BequeathExactly(r.state, r.value);
      if a in s.destroyed {
        FinishMarks(e, s, [], Success, a);
      }
    }
  }

  lemma LogMarks(e: Env, c: Ctx, n: nat)
    ensures SameMarks(c, Log(e, c, n).state)
  {
    hide LogRecord;
  }

  lemma SStoreMarks(e: Env, c: Ctx)
    ensures SameMarks(c, SStore(e, c).state)
  {
    hide SStoreGas;
  }

  lemma ExecMarks(e: Env, op: Opcode, data: Bytes, c: Ctx, a: Addr)
    requires Disciplined(e, c) && a in c.destroyed && |data| <= 32
    ensures var r := Exec(e, op, data, c); !r.Panic? ==> Marked(r.state, a)
  {
    hide EnterOp, EndOp, SStore, Log, Jump, JumpI, QuietOp;
    if op.CreateOp? || op.Create2Op? {
      CreateOpMarks(e, op, c);
    } else if EntersCall(op) {
      CallOpMarks(e, op, c);
    } else if EndsFrame(op) {
      EndOpMarks(e, op, c, a);
    } else if op.SStoreOp? {
      SStoreMarks(e, c);
    } else if op.LogOp? {
      LogMarks(e, c, op.topics);
    }
  }

  lemma StepMarks(e: Env, c: Ctx, a: Addr)
    requires Disciplined(e, c) && a in c.destroyed
    ensures Marked(Step(e, c), a)
  {
    hide Exec, Unwind, Fetch;
    if Fetchable(c.cur) {
      var op := Fetch(c.cur);
      ExecMarks(e, op, PushedData(c.cur), c, a);
      ExecKeeps(e, op, PushedData(c.cur), c);
      UnwindMarks(e, Exec(e, op, PushedData(c.cur), c), a);
    }
  }

  // A completed SELFDESTRUCT marks the running contract, in any frame.
  lemma SelfDestructMarks(e: Env, c: Ctx)
    requires Disciplined(e, c) && Runs(c, 0xff) && Completes(e, c)
    ensures Marked(Step(e, c), c.cur.callee)
  {
    hide SelfDestruct, Step, Completes, Decode, Fetchable, PushedData;
    EndDecodes(0xff);
    FetchesRaw(c, 0xff);
    RunsEnd(e, c, SelfDestructOp);
    DestructMarks(e, c, c.cur.callee);
  }

  lemma {:induction false} RunMarks(e: Env, c: Ctx, n: nat, a: Addr)
    requires c.status.Running? ==> Disciplined(e, c)
    requires Marked(c, a)
    ensures Marked(Run(e, c, n), a)
    decreases n
  {
    hide Step;
    if n > 0 && c.status.Running? {
      StepMarks(e, c, a);
      StepKeeps(e, c);
      RunMarks(e, Step(e, c), n - 1, a);
    }
  }

  lemma {:induction false} RunsOn(e: Env, c: Ctx, k: nat, n: nat)
    ensures Run(e, c, k + n) == Run(e, Run(e, c, k), n)
    decreases k
  {
    hide Step;
    if k > 0 && c.status.Running? {
      RunsOn(e, Step(e, c), k - 1, n);
    }
  }

  // In every execution: an account whose SELFDESTRUCT completed at some step is
  // gone when the transaction succeeds, and so even when the frame it ran in was
  // rolled back afterwards, as marks are not.
  lemma DestroyedIsGone(e: Env, tx: Tx, world: World, k: nat, n: nat)
    requires var c := Execution(e, tx, world, k); Runs(c, 0xff) && Completes(e, c)
    requires k < n
    ensures var a, d := Execution(e, tx, world, k).cur.callee, Execution(e, tx, world, n);
      && (d.status.Running? ==> a in d.destroyed)
      && (d.status.Finished? && d.status.result.Succeeded? ==> !d.world.Exist(a))
  {
    hide Start, Run, Step, Completes;
    var s := Start(e, tx, world);
    var c := Run(e, s, k);
    StartKeeps(e, tx, world);
    StoppedStays(e, s, k);
    RunKeeps(e, s, k);
    SelfDestructMarks(e, c);
    StepKeeps(e, c);
    OneThenMore(e, c, n - k);
    RunMarks(e, Step(e, c), n - k - 1, c.cur.callee);
    RunsOn(e, s, k, n - k);
    assert Execution(e, tx, world, n) == Run(e, c, n - k);
  }

  lemma StoppedStays(e: Env, c: Ctx, n: nat)
    requires Run(e, c, n).status.Running?
    ensures c.status.Running?
  {
  }

  lemma OneThenMore(e: Env, c: Ctx, n: nat)
    requires c.status.Running? && n > 0
    ensures Run(e, c, n) == Run(e, Step(e, c), n - 1)
  {
    hide Step;
  }
}
