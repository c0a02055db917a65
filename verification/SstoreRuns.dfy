// SSTORE metering and the refund counter over whole executions: the writes an
// execution makes form a run of writes as long as nothing is rolled back and no
// contract is created over stored slots.
module SstoreRuns {
  import opened Common
  import opened Params
  import opened FlatWorld
  import opened Machine
  import opened Frames
  import opened Instructions
  import opened Interpreter
  import opened CallStack
  import opened SstoreMetering
  import Balances

  // ---------- what leaves storage alone ----------

  ghost predicate SameStorage(v: World, w: World) {
    forall a: Addr, k: U256 :: v.GetState(a, k) == w.GetState(a, k)
  }

  // The outcome of an operation that writes no storage and takes no refund back,
  // unless it failed or ended the transaction.
  ghost predicate Spares<T>(c: Ctx, r: CtxOutcome<T>) {
    && (r.Ok? && r.state.status.Running? ==> Follows(c, r.state))
    && (r.Panic? ==> !r.why.RefundBelowZero?)
  }

  lemma FollowsOnward(c: Ctx, d: Ctx, f: Ctx)
    requires Follows(c, d) && Follows(d, f)
    ensures Follows(c, f)
  {
  }

  lemma QuietSpares<T>(c: Ctx, r: CtxOutcome<T>, cost: nat)
    requires QuietCharges(c, r, cost)
    ensures Spares(c, r) && Follows(c, r.state)
  {
  }

  lemma AccountChanges(w: World, a: Addr, balance: U256, nonce: U64, code: Bytes)
    ensures SameStorage(w, w.SetBalance(a, balance)) && SameStorage(w, w.SetNonce(a, nonce))
    ensures SameStorage(w, w.SetCode(a, code))
    ensures (forall k: U256 :: w.GetState(a, k) == 0) ==> SameStorage(w, w.CreateAccount(a))
  {
  }

  lemma TransferSpares(w: World, from: Addr, to: Addr, val: U256)
    ensures w.Transfer(from, to, val).Some? ==> SameStorage(w, w.Transfer(from, to, val).value)
  {
  }

  // ---------- returns ----------

  lemma CallEndSpares(
    c: Ctx, snapshot: Option<World>, retOff: U256, retLen: U256, data: Bytes, unused: U64, verdict: Verdict
  )
    requires verdict.Failure? && snapshot.Some? ==> SameStorage(c.world, snapshot.value)
    ensures Spares(c, CallEnd(c, snapshot, retOff, retLen, data, unused, verdict))
  {
    hide CallEnd;
  }

  lemma FinishSpares(e: Env, c: Ctx, data: Bytes)
    ensures Spares(c, FinishCall(e, c, data, Success))
  {
    hide CallEnd, CreateEnd, TxEnd;
    if c.callStack != [] && c.cur.callType.CreateCall? {
      var d := CallPop(c);
      var a := c.cur.callType.contractAddr;
      AccountChanges(d.world, a, 0, 0, data);
    }
  }

  lemma ReturnSpares(e: Env, c: Ctx, callType: CallType, data: Bytes, gas: U64, verdict: Verdict)
    requires callType.SubCall? && callType.callSnapshot.Some? ==> SameStorage(c.world, callType.callSnapshot.value)
    ensures Spares(c, ReturnWithoutFrame(e, c, callType, data, gas, verdict))
  {
    hide CallEnd, TxEnd;
    if callType.SubCall? {
      CallEndSpares(c, callType.callSnapshot, callType.retOff, callType.retLen, data, gas, verdict);
    }
  }

  // ---------- calls and creations ----------

  lemma TargetSpares(
    e: Env, c: Ctx, precompile: Addr, codeAt: Addr, callee: Addr, caller: Addr,
    input: Bytes, value: U256, gas: U64, callType: CallType, readOnly: bool
  )
    requires callType.SubCall? && callType.callSnapshot.Some? ==> SameStorage(c.world, callType.callSnapshot.value)
    ensures Spares(c, CallTarget(e, c, precompile, codeAt, callee, caller, input, value, gas, callType, readOnly))
  {
    hide ReturnWithoutFrame;
    if precompile in e.precompiled {
      var result := e.precompiled[precompile](input);
      ReturnSpares(e, c, callType, result.data, gas, result.verdict);
    }
  }

  lemma CallSpares(
    e: Env, c: Ctx, callee: Addr, caller: Addr, input: Bytes, gas: U64, value: U256, callType: CallType
  )
    requires callType.SubCall? && callType.callSnapshot.Some? ==> SameStorage(c.world, callType.callSnapshot.value)
    ensures Spares(c, Call_(e, c, callee, caller, input, gas, value, callType))
  {
    hide ReturnWithoutFrame, CallTarget, SameStorage;
    var d := c.(dirty := c.dirty + {caller, callee});
    ReturnSpares(e, d, callType, [], gas, Success);
    var w := if c.world.Exist(callee) then c.world else c.world.CreateAccount(callee);
    CallWorld(c.world, callee, caller, value);
    var t := w.Transfer(caller, callee, value);
    if t.Some? {
      var d' := d.(world := t.value);
      if callType.SubCall? && callType.callSnapshot.Some? {
        SameStorageBack(c.world, t.value, callType.callSnapshot.value);
      }
      SameStorageFollows(c, d');
      ReturnSpares(e, d', callType, [], gas, Success);
      TargetSpares(e, d', callee, callee, callee, caller, input, value, gas, callType, false);
      CallOnward(e, c, d', callee, caller, input, gas, value, callType);
    }
    SparesOnward(c, d, ReturnWithoutFrame(e, d, callType, [], gas, Success));
  }

  lemma CallWorld(w: World, callee: Addr, caller: Addr, value: U256)
    ensures var v := if w.Exist(callee) then w else w.CreateAccount(callee);
      v.Transfer(caller, callee, value).Some? ==> SameStorage(w, v.Transfer(caller, callee, value).value)
  {
    var v := if w.Exist(callee) then w else w.CreateAccount(callee);
    assert SameStorage(w, v);
    TransferSpares(v, caller, callee, value);
  }

  lemma SameStorageBack(v: World, w: World, u: World)
    requires SameStorage(v, w) && SameStorage(v, u)
    ensures SameStorage(w, u)
  {
  }

  lemma SameStorageFollows(c: Ctx, d: Ctx)
    requires SameStorage(c.world, d.world) && d.refund == c.refund && c.access.slots <= d.access.slots
    ensures Follows(c, d)
  {
  }

  lemma SparesOnward<T>(c: Ctx, d: Ctx, r: CtxOutcome<T>)
    requires Follows(c, d) && Spares(d, r)
    ensures Spares(c, r)
  {
  }

  lemma CallOnward(
    e: Env, c: Ctx, d: Ctx, callee: Addr, caller: Addr, input: Bytes, gas: U64, value: U256, callType: CallType
  )
    requires Follows(c, d)
    requires Spares(d, ReturnWithoutFrame(e, d, callType, [], gas, Success))
    requires Spares(d, CallTarget(e, d, callee, callee, callee, caller, input, value, gas, callType, false))
    ensures Spares(c, ReturnWithoutFrame(e, d, callType, [], gas, Success))
    ensures Spares(c, CallTarget(e, d, callee, callee, callee, caller, input, value, gas, callType, false))
  {
    hide ReturnWithoutFrame, CallTarget;
  }

  // A creation at an address without stored slots.
  lemma CreateSpares(
    e: Env, c: Ctx, a: Addr, caller: Addr, code: Bytes, value: U256, gas: U64, callType: CallType
  )
    ensures var r := Create_(e, c, a, caller, code, value, gas, callType);
      && (r.Panic? ==> !r.why.RefundBelowZero?)
      && (r.Ok? ==> r.state.cur.callee == a && |r.state.callStack| == |c.callStack| + 1)
      && ((forall k: U256 :: c.world.GetState(a, k) == 0) ==> Spares(c, r))
  {
    hide SameStorage;
    CreationStorage(e, c.world, a, caller, value);
    var r := Create_(e, c, a, caller, code, value, gas, callType);
    if r.Ok? && forall k: U256 :: c.world.GetState(a, k) == 0 {
      SameStorageFollows(c, r.state);
    }
  }

  lemma CreationStorage(e: Env, w: World, a: Addr, caller: Addr, value: U256)
    ensures w.GetNonce(caller) + 1 < TWO_64 && (forall k: U256 :: w.GetState(a, k) == 0) ==>
      var t := Endow(e, w.SetNonce(caller, w.GetNonce(caller) + 1), a, caller, value);
      t.Some? ==> SameStorage(w, t.value)
  {
    if w.GetNonce(caller) + 1 < TWO_64 && forall k: U256 :: w.GetState(a, k) == 0 {
      var w0 := w.SetNonce(caller, w.GetNonce(caller) + 1);
      assert SameStorage(w, w0);
      var w1 := w0.CreateAccount(a);
      assert SameStorage(w0, w1);
      var w2 := if e.From(SpuriousDragon) then w1.SetNonce(a, 1) else w1;
      assert SameStorage(w1, w2);
      TransferSpares(w2, caller, a, value);
    }
  }

  // A creation instruction whose new frame runs at an address with stored slots.
  ghost predicate CreatesOverSlots(e: Env, c: Ctx)
    requires c.status.Running?
  {
    var op, d := Fetch(c.cur), Step(e, c);
    && (op.CreateOp? || op.Create2Op?) && |d.callStack| > |c.callStack|
    && exists k: U256 :: c.world.GetState(d.cur.callee, k) != 0
  }

  lemma CreateBeginSpares(e: Env, c: Ctx)
    ensures var r := CreateBegin(e, c);
      && (r.Panic? ==> !r.why.RefundBelowZero?)
      && (r.Ok? ==> |r.state.callStack| == |c.callStack| + 1)
      && (r.Ok? && (forall k: U256 :: c.world.GetState(r.state.cur.callee, k) == 0) ==> Spares(c, r))
  {
    hide PrepareCreate, Create_, Charge, Follows;
    var paid := Charge(c, GAS_CREATE);
    QuietSpares(c, paid, GAS_CREATE);
    var r := PrepareCreate(e, paid.state, false);
    QuietSpares(paid.state, r, 0);
    FollowsOnward(c, paid.state, r.state);
    if r.Ok? {
      var (d, q, self) := (r.state, r.value, r.state.cur.callee);
      var a := e.createAddr(self, d.world.GetNonce(self));
      CreateSpares(e, d, a, self, q.code, q.value, q.gas, CreateCall(d.world, a));
      if Spares(d, Create_(e, d, a, self, q.code, q.value, q.gas, CreateCall(d.world, a))) {
        SparesOnward(c, d, Create_(e, d, a, self, q.code, q.value, q.gas, CreateCall(d.world, a)));
      }
    }
  }

  lemma Create2BeginSpares(e: Env, c: Ctx)
    ensures var r := Create2Begin(e, c);
      && (r.Panic? ==> !r.why.RefundBelowZero?)
      && (r.Ok? ==> |r.state.callStack| == |c.callStack| + 1)
      && (r.Ok? && (forall k: U256 :: c.world.GetState(r.state.cur.callee, k) == 0) ==> Spares(c, r))
  {
    hide PrepareCreate, Create_, Charge, Follows;
    var paid := Charge(c, GAS_CREATE2);
    QuietSpares(c, paid, GAS_CREATE2);
    var r := PrepareCreate(e, paid.state, true);
    QuietSpares(paid.state, r, 0);
    FollowsOnward(c, paid.state, r.state);
    if r.Ok? {
      var (d, q, self) := (r.state, r.value, r.state.cur.callee);
      var a := e.createAddr2(self, q.salt, q.code);
      CreateSpares(e, d, a, self, q.code, q.value, q.gas, CreateCall(d.world, a));
      if Spares(d, Create_(e, d, a, self, q.code, q.value, q.gas, CreateCall(d.world, a))) {
        SparesOnward(c, d, Create_(e, d, a, self, q.code, q.value, q.gas, CreateCall(d.world, a)));
      }
    }
  }

  lemma CallOpSpares(e: Env, op: Opcode, c: Ctx)
    requires EntersCall(op) && !op.CreateOp? && !op.Create2Op?
    ensures Spares(c, EnterOp(e, op, c))
  {
    hide PrepareCall, Call_, CallTarget, Follows;
    var kind := if op.CallOp? then PlainCall else if op.CallCodeOp? then CallCode
                else if op.DelegateCallOp? then DelegateCall else StaticCall;
    var r := PrepareCall(e, c, kind);
    QuietSpares(c, r, 0);
    if r.Ok? {
      var (d, q) := (r.state, r.value);
      var f, saved := d.cur, SubCall(Some(d.world), q.retOff, q.retLen);
      if op.CallOp? {
        CallSpares(e, d, q.addr, f.callee, q.input, q.gas, q.value, saved);
        SparesOnward(c, d, Call_(e, d, q.addr, f.callee, q.input, q.gas, q.value, saved));
      } else if op.CallCodeOp? {
        TargetSpares(e, d, f.callee, q.addr, f.callee, f.callee, q.input, q.value, q.gas, saved, false);
        SparesOnward(c, d, CallTarget(e, d, f.callee, q.addr, f.callee, f.callee, q.input, q.value, q.gas, saved, false));
      } else if op.DelegateCallOp? {
        TargetSpares(e, d, f.callee, q.addr, f.callee, f.caller, q.input, f.value, q.gas, saved, false);
        SparesOnward(c, d, CallTarget(e, d, f.callee, q.addr, f.callee, f.caller, q.input, f.value, q.gas, saved, false));
      } else {
        var none := SubCall(None, q.retOff, q.retLen);
        TargetSpares(e, d, q.addr, q.addr, q.addr, f.callee, q.input, 0, q.gas, none, true);
        SparesOnward(c, d, CallTarget(e, d, q.addr, q.addr, q.addr, f.callee, q.input, 0, q.gas, none, true));
      }
    }
  }

  // ---------- ends of a frame ----------

  lemma EndOpSpares(e: Env, op: Opcode, c: Ctx)
    requires EndsFrame(op) && !op.RevertOp?
    ensures Spares(c, EndOp(e, op, c))
  {
    hide FinishCall, ReturnData, PrepareSelfDestruct, Follows, Bequeath;
    match op {
      case Stop => FinishSpares(e, c, []);
      case ReturnOp =>
        var r := ReturnData(c);
        QuietSpares(c, r, 0);
        if r.Ok? {
          FinishSpares(e, r.state, r.value);
          SparesOnward(c, r.state, FinishCall(e, r.state, r.value, Success));
        }
      case SelfDestructOp =>
        var r := PrepareSelfDestruct(e, c);
        QuietSpares(c, r, 0);
        if r.Ok? {
          var d := Bequeath(r.state, r.value);
          BequeathSpares(r.state, r.value);
          FollowsOnward(c, r.state, d);
          FinishSpares(e, d, []);
          SparesOnward(c, d, FinishCall(e, d, [], Success));
        }
    }
  }

  lemma BequeathSpares(c: Ctx, heir: Addr)
    ensures Follows(c, Bequeath(c, heir))
  {
    var self := c.cur.callee;
    var given := c.world.AddBalance(heir, c.world.GetBalance(self)).GetOr(c.world);
    assert SameStorage(c.world, given);
    assert SameStorage(given, given.SetBalance(self, 0));
  }

  // ---------- one instruction ----------

  lemma PlainSpares(e: Env, op: Opcode, data: Bytes, c: Ctx)
    requires !EntersCall(op) && !EndsFrame(op) && !op.SStoreOp? && |data| <= 32
    ensures Spares(c, Exec(e, op, data, c))
  {
    hide Log, Jump, JumpI, QuietOp;
    if op.LogOp? {
      LogSpares(e, c, op.topics);
    }
  }

  lemma LogSpares(e: Env, c: Ctx, num: nat)
    ensures Spares(c, Log(e, c, num))
  {
    hide LogRecord;
  }

  lemma EnterOpSpares(e: Env, op: Opcode, c: Ctx)
    requires EntersCall(op)
    ensures var r := EnterOp(e, op, c);
      && (r.Panic? ==> !r.why.RefundBelowZero?)
      && (r.Ok? && (op.CreateOp? || op.Create2Op?) ==> |r.state.callStack| == |c.callStack| + 1)
      && (r.Ok? && (op.CreateOp? || op.Create2Op? ==> forall k: U256 :: c.world.GetState(r.state.cur.callee, k) == 0) ==>
            Spares(c, r))
  {
    hide CreateBegin, Create2Begin, CallBegin, CallCodeBegin, DelegateCallBegin, StaticCallBegin, Spares;
    if op.CreateOp? {
      CreateBeginSpares(e, c);
    } else if op.Create2Op? {
      Create2BeginSpares(e, c);
    } else {
      CallOpSpares(e, op, c);
      SparesPanic(c, EnterOp(e, op, c));
    }
  }

  lemma SparesPanic<T>(c: Ctx, r: CtxOutcome<T>)
    requires Spares(c, r)
    ensures r.Panic? ==> !r.why.RefundBelowZero?
  {
  }

  // ---------- when exactly a step aborts for the refund counter ----------

  lemma FinishNeverBelow(e: Env, c: Ctx, data: Bytes, verdict: Verdict)
    ensures var r := FinishCall(e, c, data, verdict); r.Panic? ==> !r.why.RefundBelowZero?
  {
    hide CallEnd, CreateEnd, TxEnd;
  }

  lemma {:induction false} UnwindNeverBelow(e: Env, r: CtxOutcome<()>)
    requires r.Panic? ==> !r.why.RefundBelowZero?
    ensures var u := Unwind(e, r); u.Panic? ==> !u.why.RefundBelowZero?
    decreases |r.state.callStack| + 1, r.Err?
  {
    hide FinishCall;
    if r.Err? && r.state.callStack != [] {
      FinishNeverBelow(e, r.state, [], Failure(r.error));
      UnwindNeverBelow(e, FinishCall(e, r.state, [], Failure(r.error)));
    }
  }

  lemma EndOpNeverBelow(e: Env, op: Opcode, c: Ctx)
    requires EndsFrame(op)
    ensures var r := EndOp(e, op, c); r.Panic? ==> !r.why.RefundBelowZero?
  {
    hide FinishCall, ReturnData, PrepareSelfDestruct, Follows;
    if op.RevertOp? {
      var r := ReturnData(c);
      if r.Ok? {
        FinishNeverBelow(e, r.state, r.value, Failure(RevertedCall));
      }
    } else {
      EndOpSpares(e, op, c);
    }
  }

  lemma OnlySStoreGoesBelow(e: Env, op: Opcode, data: Bytes, c: Ctx)
    requires !op.SStoreOp? && |data| <= 32
    ensures var r := Exec(e, op, data, c); r.Panic? ==> !r.why.RefundBelowZero?
  {
    hide EnterOp, EndOp, Log, Jump, JumpI, QuietOp, Follows;
    if EntersCall(op) {
      EnterOpSpares(e, op, c);
    } else if EndsFrame(op) {
      EndOpNeverBelow(e, op, c);
    } else {
      PlainSpares(e, op, data, c);
    }
  }

  // About to run an SSTORE that refills a cleared slot while the refund counter
  // holds less than one clearing refund, and that nothing stops before.
  predicate RefillsUncovered(e: Env, c: Ctx) {
    && e.From(Istanbul) && Fetch(c.cur).SStoreOp? && !c.cur.readOnly && c.cur.stack.top >= 2
    && Cleared(e, c.world, (c.cur.callee, Below(c.cur, 1))) && Below(c.cur, 2) != 0
    && c.refund < ClearingRefund(e)
    && c.cur.gas > GAS_SSTORE_SENTRY_ISTANBUL
    && (e.From(Berlin) ==>
          c.cur.callee in c.access.addrs || (c.cur.callee, Below(c.cur, 1)) in c.access.slots)
  }

  // One iteration aborts because the refund counter would go below zero exactly
  // when it is about to refill a cleared slot that the counter does not cover.
  lemma StepBelowZeroExactly(e: Env, c: Ctx)
    requires Disciplined(e, c)
    ensures var d := Step(e, c);
      d.status.Aborted? && d.status.why.RefundBelowZero? <==> RefillsUncovered(e, c)
  {
    hide Exec, Unwind, Fetch, Cleared;
    SStoreFetchable(c.cur);
    if Fetchable(c.cur) {
      var op := Fetch(c.cur);
      var r := Exec(e, op, PushedData(c.cur), c);
      if op.SStoreOp? {
        SStoreBelowZero(e, c);
      } else {
        OnlySStoreGoesBelow(e, op, PushedData(c.cur), c);
      }
      if !r.Panic? || !r.why.RefundBelowZero? {
        UnwindNeverBelow(e, r);
      }
      ExecKeeps(e, op, PushedData(c.cur), c);
      UnwindKeeps(e, r);
    }
  }

  lemma SStoreFetchable(f: Frame)
    ensures Fetch(f).SStoreOp? ==> Fetchable(f)
  {
    hide Decode;
  }

  lemma SStoreBelowZero(e: Env, c: Ctx)
    requires Fetch(c.cur).SStoreOp?
    ensures var r := Exec(e, Fetch(c.cur), [], c);
      r.Panic? && r.why.RefundBelowZero? <==> RefillsUncovered(e, c)
  {
    hide WriteSlot, Fetch, Cleared;
    if c.cur.stack.top >= 2 {
      var d := c.(cur := Drop(c.cur, 2));
      if e.From(Istanbul) {
        RefundPanicsExactly(e, d, Below(c.cur, 1), Below(c.cur, 2));
      } else {
        LegacyNeverPanics(e, d, Below(c.cur, 1), Below(c.cur, 2));
      }
    }
  }

  // ---------- the writes of a run ----------

  // The write of a step that completes an SSTORE.
  function WriteOf(e: Env, c: Ctx): seq<Write> {
    if Fetch(c.cur).SStoreOp? && c.cur.stack.top >= 2 && SStore(e, c).Ok? then
      [Write(c.(cur := Drop(c.cur, 2)), Below(c.cur, 1), Below(c.cur, 2), SStore(e, c).state)]
    else []
  }

  function Writes(e: Env, c: Ctx, n: nat): seq<Write>
    decreases n
  {
    if n == 0 || !c.status.Running? then [] else WriteOf(e, c) + Writes(e, Step(e, c), n - 1)
  }

  // A run of writes that c continues.
  ghost predicate TracedTo(e: Env, ws: seq<Write>, c: Ctx) {
    Trace(e, ws) && if ws == [] then Unchanged(e, c) else Follows(ws[|ws| - 1].after, c)
  }

  // The step ends the execution, or it creates nothing over stored slots, and what
  // it may roll back leaves the storage as it was; a failing SSTORE must not have
  // taken refund before it failed.
  ghost predicate Undisturbed(e: Env, c: Ctx)
    requires c.status.Running?
  {
    var d := Step(e, c);
    d.status.Running? ==>
      && !CreatesOverSlots(e, c)
      && (Balances.RollsBack(e, c) ==>
            SameStorage(c.world, d.world) && (Fetch(c.cur).SStoreOp? ==> c.refund <= d.refund))
  }

  lemma TracedOnward(e: Env, ws: seq<Write>, c: Ctx, d: Ctx)
    requires TracedTo(e, ws, c) && Follows(c, d)
    ensures TracedTo(e, ws, d)
  {
    hide Completed;
  }

  lemma TracedWrite(e: Env, ws: seq<Write>, w: Write)
    requires TracedTo(e, ws, w.before) && Completed(e, w)
    ensures TracedTo(e, ws + [w], w.after)
  {
    hide Completed;
    var more := ws + [w];
    forall i | 0 < i < |more| ensures Follows(more[i - 1].after, more[i].before) {
      if i < |ws| {
        assert Follows(ws[i - 1].after, ws[i].before);
      }
    }
  }

  // ---------- steps that fail or revert ----------

  // However it ends, an instruction other than SSTORE takes no refund back and
  // forgets no slot that was touched.
  ghost predicate Grows(c: Ctx, d: Ctx) {
    c.refund <= d.refund && c.access.slots <= d.access.slots
  }

  lemma FinishGrows(e: Env, c: Ctx, data: Bytes, verdict: Verdict)
    ensures Grows(c, FinishCall(e, c, data, verdict).state)
  {
    hide CallEnd, CreateEnd;
  }

  lemma {:induction false} UnwindGrows(e: Env, r: CtxOutcome<()>)
    ensures Grows(r.state, Unwind(e, r).state)
    decreases |r.state.callStack| + 1, r.Err?
  {
    hide FinishCall;
    if r.Err? && r.state.callStack != [] {
      FinishGrows(e, r.state, [], Failure(r.error));
      UnwindGrows(e, FinishCall(e, r.state, [], Failure(r.error)));
    }
  }

  lemma TargetGrows(
    e: Env, c: Ctx, precompile: Addr, codeAt: Addr, callee: Addr, caller: Addr,
    input: Bytes, value: U256, gas: U64, callType: CallType, readOnly: bool
  )
    requires callType.SubCall?
    ensures Grows(c, CallTarget(e, c, precompile, codeAt, callee, caller, input, value, gas, callType, readOnly).state)
  {
    hide CallEnd;
  }

  lemma CallGrows(
    e: Env, c: Ctx, callee: Addr, caller: Addr, input: Bytes, gas: U64, value: U256, callType: CallType
  )
    requires callType.SubCall?
    ensures Grows(c, Call_(e, c, callee, caller, input, gas, value, callType).state)
  {
    hide CallEnd, CallTarget;
    var w := if c.world.Exist(callee) then c.world else c.world.CreateAccount(callee);
    var t := w.Transfer(caller, callee, value);
    if t.Some? {
      var d := c.(world := t.value, dirty := c.dirty + {caller, callee});
      TargetGrows(e, d, callee, callee, callee, caller, input, value, gas, callType, false);
    }
  }

  lemma CreationGrows(
    e: Env, c: Ctx, a: Addr, caller: Addr, code: Bytes, value: U256, gas: U64, callType: CallType
  )
    ensures Grows(c, Create_(e, c, a, caller, code, value, gas, callType).state)
  {
  }

  lemma QuietGrows<T>(c: Ctx, r: CtxOutcome<T>, cost: nat)
    requires QuietCharges(c, r, cost)
    ensures Grows(c, r.state)
  {
  }

  lemma CreateOpGrows(e: Env, c: Ctx, salted: bool)
    ensures Grows(c, (if salted then Create2Begin(e, c) else CreateBegin(e, c)).state)
  {
    hide PrepareCreate, Create_, Charge;
    var paid := Charge(c, if salted then GAS_CREATE2 else GAS_CREATE);
    QuietGrows(c, paid, if salted then GAS_CREATE2 else GAS_CREATE);
    var r := PrepareCreate(e, paid.state, salted);
    QuietGrows(paid.state, r, 0);
    if r.Ok? {
      var (d, q, self) := (r.state, r.value, r.state.cur.callee);
      var a := if salted then e.createAddr2(self, q.salt, q.code) else e.createAddr(self, d.world.GetNonce(self));
      CreationGrows(e, d, a, self, q.code, q.value, q.gas, CreateCall(d.world, a));
    }
  }

  lemma CallOpGrows(e: Env, op: Opcode, c: Ctx)
    requires EntersCall(op) && !op.CreateOp? && !op.Create2Op?
    ensures Grows(c, EnterOp(e, op, c).state)
  {
    hide PrepareCall, Call_, CallTarget;
    var kind := if op.CallOp? then PlainCall else if op.CallCodeOp? then CallCode
                else if op.DelegateCallOp? then DelegateCall else StaticCall;
    var r := PrepareCall(e, c, kind);
    QuietGrows(c, r, 0);
    if r.Ok? {
      var (d, q) := (r.state, r.value);
      var f, saved := d.cur, SubCall(Some(d.world), q.retOff, q.retLen);
      if op.CallOp? {
        CallGrows(e, d, q.addr, f.callee, q.input, q.gas, q.value, saved);
      } else if op.CallCodeOp? {
        TargetGrows(e, d, f.callee, q.addr, f.callee, f.callee, q.input, q.value, q.gas, saved, false);
      } else if op.DelegateCallOp? {
        TargetGrows(e, d, f.callee, q.addr, f.callee, f.caller, q.input, f.value, q.gas, saved, false);
      } else {
        TargetGrows(e, d, q.addr, q.addr, q.addr, f.callee, q.input, 0, q.gas, SubCall(None, q.retOff, q.retLen), true);
      }
    }
  }

  lemma ReturnGrows(e: Env, c: Ctx)
    ensures Grows(c, Return(e, c).state) && Grows(c, Revert(e, c).state)
  {
    hide FinishCall, ReturnData;
    var r := ReturnData(c);
    QuietGrows(c, r, 0);
    if r.Ok? {
      FinishGrows(e, r.state, r.value, Success);
      FinishGrows(e, r.state, r.value, Failure(RevertedCall));
    }
  }

  lemma SelfDestructGrows(e: Env, c: Ctx)
    ensures Grows(c, SelfDestruct(e, c).state)
  {
    hide FinishCall, PrepareSelfDestruct;
    var r := PrepareSelfDestruct(e, c);
    QuietGrows(c, r, 0);
    if r.Ok? {
      FinishGrows(e, Bequeath(r.state, r.value), [], Success);
    }
  }

  lemma EndOpGrows(e: Env, op: Opcode, c: Ctx)
    requires EndsFrame(op)
    ensures Grows(c, EndOp(e, op, c).state)
  {
    hide FinishCall, Return, Revert, SelfDestruct, Grows;
    match op {
      case Stop => FinishGrows(e, c, [], Success);
      case ReturnOp => ReturnGrows(e, c);
      case RevertOp => ReturnGrows(e, c);
      case SelfDestructOp => SelfDestructGrows(e, c);
    }
  }

  lemma LogGrows(e: Env, c: Ctx, num: nat)
    ensures Grows(c, Log(e, c, num).state)
  {
    hide LogRecord;
  }

  lemma ExecGrows(e: Env, op: Opcode, data: Bytes, c: Ctx)
    requires !op.SStoreOp? && |data| <= 32
    ensures Grows(c, Exec(e, op, data, c).state)
  {
    hide CreateBegin, Create2Begin, CallBegin, CallCodeBegin, DelegateCallBegin, StaticCallBegin;
    hide EndOp, Log, Jump, JumpI, QuietOp;
    if op.CreateOp? || op.Create2Op? {
      CreateOpGrows(e, c, op.Create2Op?);
    } else if EntersCall(op) {
      CallOpGrows(e, op, c);
    } else if EndsFrame(op) {
      EndOpGrows(e, op, c);
    } else if op.LogOp? {
      LogGrows(e, c, op.topics);
    }
  }

  lemma StepGrows(e: Env, c: Ctx)
    requires c.status.Running? && !Fetch(c.cur).SStoreOp?
    ensures Grows(c, Step(e, c))
  {
    hide Exec, Unwind, Fetch;
    if Fetchable(c.cur) {
      var op := Fetch(c.cur);
      ExecGrows(e, op, PushedData(c.cur), c);
      UnwindGrows(e, Exec(e, op, PushedData(c.cur), c));
    }
  }

  // A failing SSTORE forgets no slot either.
  lemma FailedWriteGrows(e: Env, c: Ctx)
    requires c.status.Running? && Fetch(c.cur).SStoreOp?
    ensures c.access.slots <= Step(e, c).access.slots
  {
    hide SStoreGas, Unwind, Fetch;
    SStoreFetchable(c.cur);
    UnwindGrows(e, SStore(e, c));
  }

  // What an undisturbed step that rolls back leaves alone.
  lemma RolledBackSpares(e: Env, c: Ctx)
    requires c.status.Running? && Undisturbed(e, c) && Balances.RollsBack(e, c)
    ensures var d := Step(e, c); d.status.Running? ==> Follows(c, d)
  {
    hide Step, Fetch, Balances.RollsBack;
    if Fetch(c.cur).SStoreOp? {
      FailedWriteGrows(e, c);
    } else {
      StepGrows(e, c);
    }
  }

  // ---------- the steps between two writes ----------

  // What an undisturbed step other than an SSTORE leaves alone.
  lemma StepSpares(e: Env, c: Ctx)
    requires Disciplined(e, c) && Undisturbed(e, c) && !Fetch(c.cur).SStoreOp?
    ensures var d := Step(e, c); d.status.Running? ==> Follows(c, d)
  {
    hide EnterOp, EndOp, Follows, Unwind, Fetch, Decode;
    if Balances.RollsBack(e, c) {
      RolledBackSpares(e, c);
    } else if Fetchable(c.cur) {
      var op := Fetch(c.cur);
      var r := Exec(e, op, PushedData(c.cur), c);
      InstructionSpares(e, c);
      if r.Ok? && r.state.status.Running? && Follows(c, r.state) {
        AdvanceFollows(c, r.state, PushWidth(op));
      }
    }
  }

  lemma AdvanceFollows(c: Ctx, d: Ctx, skip: nat)
    requires Follows(c, d)
    ensures Follows(c, AdvancePc(d, skip))
  {
  }

  lemma InstructionSpares(e: Env, c: Ctx)
    requires c.status.Running? && Fetchable(c.cur) && Undisturbed(e, c) && !Fetch(c.cur).SStoreOp?
    requires !Balances.RollsBack(e, c)
    ensures var r := Exec(e, Fetch(c.cur), PushedData(c.cur), c);
      r.Ok? && r.state.status.Running? ==> Follows(c, r.state)
  {
    hide EnterOp, EndOp, Follows, Unwind, Fetch, Decode, QuietOp, Log, Jump, JumpI;
    var op := Fetch(c.cur);
    if EntersCall(op) {
      EnterOpSpares(e, op, c);
    } else if EndsFrame(op) {
      EndOpSpares(e, op, c);
    } else {
      PlainSpares(e, op, PushedData(c.cur), c);
    }
  }

  lemma StepTraces(e: Env, c: Ctx, ws: seq<Write>)
    requires e.From(Istanbul) && Disciplined(e, c) && Undisturbed(e, c) && TracedTo(e, ws, c)
    ensures Trace(e, ws + WriteOf(e, c))
    ensures var d := Step(e, c);
      && (d.status.Running? ==> TracedTo(e, ws + WriteOf(e, c), d))
      && (d.status.Aborted? ==> !d.status.why.RefundBelowZero?)
  {
    hide Step, Follows, Completed, SStore, Undisturbed, Fetch;
    var d := Step(e, c);
    StepBelowZeroExactly(e, c);
    TracedIsCovered(e, c, ws);
    if Fetch(c.cur).SStoreOp? {
      SStoreTraces(e, c, ws);
    } else {
      StepSpares(e, c);
      assert ws + [] == ws;
      if d.status.Running? {
        TracedOnward(e, ws, c, d);
      }
    }
  }

  lemma SStoreTraces(e: Env, c: Ctx, ws: seq<Write>)
    requires e.From(Istanbul) && Disciplined(e, c) && Undisturbed(e, c) && TracedTo(e, ws, c)
    requires Fetch(c.cur).SStoreOp?
    ensures Trace(e, ws + WriteOf(e, c))
    ensures var d := Step(e, c); d.status.Running? ==> TracedTo(e, ws + WriteOf(e, c), d)
  {
    hide Step, Exec, Follows, WriteSlot, Fetch, TracedTo, Trace, Balances.RollsBack;
    SStoreFetchable(c.cur);
    SStoreOutcome(e, c);
    TracedIsTrace(e, ws, c);
    assert ws + [] == ws;
    var r := SStore(e, c);
    if r.Ok? {
      var d := c.(cur := Drop(c.cur, 2));
      var w := Write(d, Below(c.cur, 1), Below(c.cur, 2), r.state);
      DropFollows(c);
      TracedOnward(e, ws, c, d);
      assert r.value == ();
      TracedWrite(e, ws, w);
      SelfFollows(r.state);
      AdvanceFollows(r.state, r.state, 0);
      TracedOnward(e, ws + [w], r.state, AdvancePc(r.state, 0));
      TracedIsTrace(e, ws + [w], r.state);
    } else if r.Err? {
      RolledBackSpares(e, c);
      if Step(e, c).status.Running? {
        TracedOnward(e, ws, c, Step(e, c));
      }
    }
  }

  // How a step with an SSTORE goes on.
  lemma SStoreOutcome(e: Env, c: Ctx)
    requires c.status.Running? && Fetch(c.cur).SStoreOp?
    ensures var r, d := SStore(e, c), Step(e, c);
      && (r.Ok? ==>
            && c.cur.stack.top >= 2 && d == AdvancePc(r.state, 0) && r.state.status.Running?
            && WriteSlot(e, c.(cur := Drop(c.cur, 2)), Below(c.cur, 1), Below(c.cur, 2)) == r)
      && (r.Err? ==> Balances.RollsBack(e, c))
      && (r.Panic? ==> !d.status.Running?)
  {
    hide SStoreGas, Fetch, Unwind;
    SStoreFetchable(c.cur);
  }

  lemma TracedIsTrace(e: Env, ws: seq<Write>, c: Ctx)
    requires TracedTo(e, ws, c)
    ensures Trace(e, ws)
  {
  }

  lemma SelfFollows(c: Ctx)
    ensures Follows(c, c)
  {
  }

  lemma DropFollows(c: Ctx)
    requires c.cur.stack.top >= 2
    ensures Follows(c, c.(cur := Drop(c.cur, 2)))
  {
  }

  // What continues a run of writes refills no slot that the counter does not cover.
  lemma TracedIsCovered(e: Env, c: Ctx, ws: seq<Write>)
    requires TracedTo(e, ws, c)
    ensures !RefillsUncovered(e, c)
  {
    hide Trace, Follows, Fetch, Cleared, Unchanged;
    if RefillsUncovered(e, c) {
      var d, key, val := c.(cur := Drop(c.cur, 2)), Below(c.cur, 1), Below(c.cur, 2);
      DropFollows(c);
      TracedOnward(e, ws, c, d);
      RefundNeverBelowZero(e, ws, d, key, val);
      RefundPanicsExactly(e, d, key, val);
    }
  }

  ghost predicate UndisturbedFor(e: Env, c: Ctx, n: nat) {
    forall k: nat | k < n :: var d := Run(e, c, k); d.status.Running? ==> Undisturbed(e, d)
  }

  lemma UndisturbedAfter(e: Env, c: Ctx, n: nat)
    requires c.status.Running? && n > 0 && UndisturbedFor(e, c, n)
    ensures Undisturbed(e, c) && UndisturbedFor(e, Step(e, c), n - 1)
  {
    hide Step, Undisturbed;
    assert Run(e, c, 0) == c;
    forall k: nat | k < n - 1 ensures var d := Run(e, Step(e, c), k); d.status.Running? ==> Undisturbed(e, d) {
      assert Run(e, c, k + 1) == Run(e, Step(e, c), k);
    }
  }

  lemma {:induction false} RunTraces(e: Env, c: Ctx, n: nat, ws: seq<Write>)
    requires e.From(Istanbul) && Disciplined(e, c) && TracedTo(e, ws, c) && UndisturbedFor(e, c, n)
    ensures Trace(e, ws + Writes(e, c, n))
    ensures var d := Run(e, c, n);
      && (d.status.Running? ==> TracedTo(e, ws + Writes(e, c, n), d))
      && (d.status.Aborted? ==> !d.status.why.RefundBelowZero?)
    decreases n
  {
    hide Step, Undisturbed, TracedTo, Trace, WriteOf, UndisturbedFor;
    TracedIsTrace(e, ws, c);
    assert ws + [] == ws;
    if n > 0 {
      UndisturbedAfter(e, c, n);
      StepTraces(e, c, ws);
      StepKeeps(e, c);
      var d, more := Step(e, c), ws + WriteOf(e, c);
      assert ws + Writes(e, c, n) == more + Writes(e, d, n - 1);
      if d.status.Running? {
        RunTraces(e, d, n - 1, more);
      } else {
        assert Writes(e, d, n - 1) == [] && more + [] == more && Run(e, d, n - 1) == d;
      }
    }
  }

  // ---------- a transaction ----------

  // The world is the committed one as far as storage goes, and a creation starts
  // at an address without stored slots.
  ghost predicate StartsClean(e: Env, tx: Tx, world: World) {
    && SameStorage(e.committed, world)
    && (tx.to.None? ==> forall k: U256 :: world.GetState(e.createAddr(tx.from, world.GetNonce(tx.from)), k) == 0)
  }

  lemma StartUnchanged(e: Env, tx: Tx, world: World)
    requires StartsClean(e, tx, world)
    ensures var c := Start(e, tx, world);
      && (c.status.Running? ==> Unchanged(e, c))
      && (c.status.Aborted? ==> !c.status.why.RefundBelowZero?)
  {
    hide Call_, Create_, Follows;
    var c := NewContext(e, tx.gas, InitialAccess(e, tx.from, tx.to, tx.listed), world);
    var gas := Wrap64(tx.gas - GAS_TX);
    StartKeeps(e, tx, world);
    match tx.to {
      case Some(to) =>
        var d := c.(world := world.SetNonce(tx.from, Wrap64(world.GetNonce(tx.from) + 1)));
        AccountChanges(world, tx.from, 0, Wrap64(world.GetNonce(tx.from) + 1), []);
        SameStorageFollows(c, d);
        var r := Call_(e, d, to, tx.from, tx.input, gas, tx.value, TxCall(d.world, Sender(tx.from)));
        CallSpares(e, d, to, tx.from, tx.input, gas, tx.value, TxCall(d.world, Sender(tx.from)));
        CallKeeps(e, d, to, tx.from, tx.input, gas, tx.value, TxCall(d.world, Sender(tx.from)));
        SparesOnward(c, d, r);
        StartFollows(e, c, r);
      case None =>
        var a := e.createAddr(tx.from, world.GetNonce(tx.from));
        CreateSpares(e, c, a, tx.from, tx.input, tx.value, gas, TxCall(world, Contract(a)));
        CreateKeeps(e, c, a, tx.from, tx.input, tx.value, gas, TxCall(world, Contract(a)));
        StartFollows(e, c, Create_(e, c, a, tx.from, tx.input, tx.value, gas, TxCall(world, Contract(a))));
    }
  }

  lemma StartFollows(e: Env, c: Ctx, r: CtxOutcome<()>)
    requires SameStorage(e.committed, c.world) && Spares(c, r)
    ensures r.Ok? && r.state.status.Running? ==> Unchanged(e, r.state)
  {
  }

  // For any undisturbed prefix of an execution that starts from the committed
  // storage: its writes cost, net of what they refund, what NetMetering says; the
  // refund counter covers every slot that is cleared now; and it never went below
  // zero, whatever else ran between the writes.
  lemma ExecutionMetering(e: Env, tx: Tx, world: World, n: nat)
    requires e.From(Istanbul) && StartsClean(e, tx, world)
    requires UndisturbedFor(e, Start(e, tx, world), n)
    ensures var ws, d := Writes(e, Start(e, tx, world), n), Execution(e, tx, world, n);
      && Trace(e, ws)
      && (ws != [] ==>
            Spent(ws) - Gains(ws)
              == Base(e) * |ws| + ColdGas(e, ws) + PhiSum(e, ws[|ws| - 1].after.world, Slots(ws)))
      && (d.status.Running? ==>
            && (ws != [] ==> PhiSum(e, d.world, Slots(ws)) == PhiSum(e, ws[|ws| - 1].after.world, Slots(ws)))
            && d.refund >= ClearingRefund(e) * |ClearedSlots(e, d.world, Slots(ws))|)
      && (d.status.Aborted? ==> !d.status.why.RefundBelowZero?)
  {
    hide Start, Run, Trace, StartsClean, UndisturbedFor, TracedTo;
    StartKeeps(e, tx, world);
    StartUnchanged(e, tx, world);
    var c := Start(e, tx, world);
    if c.status.Running? {
      NothingTraced(e, c);
      RunTraces(e, c, n, []);
      var ws, d := Writes(e, c, n), Run(e, c, n);
      assert [] + ws == ws;
      if ws != [] {
        NetMetering(e, ws);
      }
      if d.status.Running? {
        TracedCovers(e, ws, d);
      }
    } else {
      StoppedWrites(e, c, n);
    }
  }

  lemma NothingTraced(e: Env, c: Ctx)
    requires Unchanged(e, c)
    ensures TracedTo(e, [], c)
  {
  }

  lemma StoppedWrites(e: Env, c: Ctx, n: nat)
    requires !c.status.Running?
    ensures Writes(e, c, n) == [] && Run(e, c, n) == c && Trace(e, [])
  {
  }

  lemma TracedCovers(e: Env, ws: seq<Write>, d: Ctx)
    requires e.From(Istanbul) && TracedTo(e, ws, d)
    ensures ws != [] ==> PhiSum(e, d.world, Slots(ws)) == PhiSum(e, ws[|ws| - 1].after.world, Slots(ws))
    ensures d.refund >= ClearingRefund(e) * |ClearedSlots(e, d.world, Slots(ws))|
  {
    hide Completed;
    if ws == [] {
      assert ClearedSlots(e, d.world, Slots(ws)) == {};
    } else {
      var last := ws[|ws| - 1].after;
      RefundCoversCleared(e, ws);
      assert ClearedSlots(e, d.world, Slots(ws)) == ClearedSlots(e, last.world, Slots(ws));
      PhiSumAgree(e, last.world, d.world, Slots(ws));
    }
  }
}
