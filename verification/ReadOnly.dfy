// STATICCALL takes no snapshot. It needs none: until its frame is popped, no
// balance, nonce, code, storage value or log changes.
module ReadOnly {
  import opened Common
  import opened Params
  import opened FlatWorld
  import opened Machine
  import opened Instructions
  import opened Interpreter
  import opened CallStack

  lemma SameTransitive(u: World, v: World, w: World)
    requires SameValues(u, v) && SameValues(v, w)
    ensures SameValues(u, w)
  {
    forall a: Addr
      ensures SameAccount(u.At(a), w.At(a))
    {
      assert SameAccount(u.At(a), v.At(a)) && SameAccount(v.At(a), w.At(a));
    }
  }

  ghost predicate Harmless(f: Frame, w: World) {
    && f.readOnly
    && f.callType.SubCall?
    && (f.callType.callSnapshot.Some? ==> SameValues(f.callType.callSnapshot.value, w))
  }

  // All frames from base up are read-only and hold no snapshot that differs from w.
  ghost predicate Guarded(c: Ctx, base: nat, w: World) {
    && 1 <= base <= |c.callStack|
    && SameValues(c.world, w)
    && forall i: nat | base <= i <= |c.callStack| :: Harmless(FrameAt(c, i), w)
  }

  // The same after an operation that may have popped frames; once a frame
  // below base is popped too, nothing is claimed.
  ghost predicate StillGuarded(d: Ctx, base: nat, w: World) {
    if |d.callStack| >= base then Guarded(d, base, w)
    else |d.callStack| + 1 == base ==> SameValues(d.world, w)
  }

  lemma SameGuarded(c: Ctx, d: Ctx, base: nat, w: World)
    requires Guarded(c, base, w)
    requires d.callStack == c.callStack && SameValues(d.world, w)
    requires d.cur.callType == c.cur.callType && d.cur.readOnly == c.cur.readOnly
    ensures Guarded(d, base, w)
  {
    forall i: nat | base <= i <= |d.callStack|
      ensures Harmless(FrameAt(d, i), w)
    {
      assert Harmless(FrameAt(c, i), w);
    }
  }

  lemma TopHarmless(c: Ctx, base: nat, w: World)
    requires Guarded(c, base, w)
    ensures Harmless(c.cur, w) && SameValues(c.world, w)
  {
    assert FrameAt(c, |c.callStack|) == c.cur;
  }

  lemma QuietGuarded<T>(c: Ctx, r: CtxOutcome<T>, base: nat, w: World)
    requires Guarded(c, base, w) && QuietCharges(c, r, 0)
    ensures Guarded(r.state, base, w) && r.state.cur.readOnly
  {
    TopHarmless(c, base, w);
    SameGuarded(c, r.state, base, w);
  }

  lemma PushGuarded(
    c: Ctx, code: Bytes, input: Bytes, value: U256, callee: Addr, caller: Addr,
    callType: CallType, gas: U64, readOnly: bool, base: nat, w: World
  )
    requires Guarded(c, base, w) && callType.SubCall?
    requires callType.callSnapshot.Some? ==> SameValues(callType.callSnapshot.value, w)
    ensures Guarded(CallPush(c, code, input, value, callee, caller, callType, gas, readOnly), base, w)
  {
    TopHarmless(c, base, w);
    var d := CallPush(c, code, input, value, callee, caller, callType, gas, readOnly);
    forall i: nat | base <= i <= |d.callStack|
      ensures Harmless(FrameAt(d, i), w)
    {
      if i <= |c.callStack| {
        assert FrameAt(d, i) == FrameAt(c, i);
      }
    }
  }

  lemma FinishGuarded(e: Env, c: Ctx, data: Bytes, verdict: Verdict, base: nat, w: World)
    requires Guarded(c, base, w)
    ensures StillGuarded(FinishCall(e, c, data, verdict).state, base, w)
  {
    hide CallEnd, SameValues;
    var d := CallPop(c);
    TopHarmless(c, base, w);
    var after := FinishCall(e, c, data, verdict).state;
    if |d.callStack| >= base {
      forall i: nat | base <= i <= |d.callStack|
        ensures Harmless(FrameAt(d, i), w)
      {
        assert FrameAt(d, i) == FrameAt(c, i);
      }
      SameGuarded(d, after, base, w);
    }
  }

  lemma ReturnGuarded(
    e: Env, c: Ctx, callType: CallType, data: Bytes, gas: U64, verdict: Verdict, base: nat, w: World
  )
    requires Guarded(c, base, w) && callType.SubCall?
    requires callType.callSnapshot.Some? ==> SameValues(callType.callSnapshot.value, w)
    ensures Guarded(ReturnWithoutFrame(e, c, callType, data, gas, verdict).state, base, w)
  {
    hide CallEnd, SameValues;
    TopHarmless(c, base, w);
    SameGuarded(c, ReturnWithoutFrame(e, c, callType, data, gas, verdict).state, base, w);
  }

  lemma TargetGuarded(
    e: Env, c: Ctx, precompile: Addr, codeAt: Addr, callee: Addr, caller: Addr,
    input: Bytes, value: U256, gas: U64, callType: CallType, readOnly: bool, base: nat, w: World
  )
    requires Guarded(c, base, w) && callType.SubCall?
    requires callType.callSnapshot.Some? ==> SameValues(callType.callSnapshot.value, w)
    ensures Guarded(
      CallTarget(e, c, precompile, codeAt, callee, caller, input, value, gas, callType, readOnly).state, base, w)
  {
    hide ReturnWithoutFrame;
    if precompile in e.precompiled {
      var result := e.precompiled[precompile](input);
      ReturnGuarded(e, c, callType, result.data, gas, result.verdict, base, w);
    } else {
      PushGuarded(c, c.world.GetCode(codeAt), input, value, callee, caller, callType, gas, readOnly, base, w);
    }
  }

  // A transfer of nothing, after creating the recipient if it did not exist.
  lemma ZeroTransfer(w: World, from: Addr, to: Addr)
    ensures w.Transfer(from, to, 0).Some? && SameValues(w.Transfer(from, to, 0).value, w)
    ensures !w.Exist(to) ==> SameValues(w.CreateAccount(to), w)
  {
  }

  lemma CallGuarded(
    e: Env, c: Ctx, callee: Addr, caller: Addr, input: Bytes, gas: U64, callType: CallType,
    base: nat, w: World
  )
    requires Guarded(c, base, w) && callType.SubCall?
    requires callType.callSnapshot.Some? ==> SameValues(callType.callSnapshot.value, w)
    ensures Guarded(Call_(e, c, callee, caller, input, gas, 0, callType).state, base, w)
  {
    hide ReturnWithoutFrame, CallTarget, SameValues;
    var d := c.(dirty := c.dirty + {caller, callee});
    SameGuarded(c, d, base, w);
    ReturnGuarded(e, d, callType, [], gas, Success, base, w);
    var w1 := if c.world.Exist(callee) then c.world else c.world.CreateAccount(callee);
    ZeroTransfer(c.world, caller, callee);
    ZeroTransfer(w1, caller, callee);
    var w2 := w1.Transfer(caller, callee, 0).value;
    if !c.world.Exist(callee) {
      SameTransitive(w2, w1, c.world);
    }
    SameTransitive(w2, c.world, w);
    var d' := d.(world := w2);
    SameGuarded(d, d', base, w);
    ReturnGuarded(e, d', callType, [], gas, Success, base, w);
    TargetGuarded(e, d', callee, callee, callee, caller, input, 0, gas, callType, false, base, w);
  }

  lemma EnterOpGuarded(e: Env, op: Opcode, c: Ctx, base: nat, w: World)
    requires Guarded(c, base, w) && EntersCall(op)
    ensures Guarded(EnterOp(e, op, c).state, base, w)
  {
    hide PrepareCall, Call_, CallTarget, Charge, SameValues, Guarded;
    TopHarmless(c, base, w);
    var kind := if op.CallOp? then PlainCall else if op.CallCodeOp? then CallCode
                else if op.DelegateCallOp? then DelegateCall else StaticCall;
    var r := PrepareCall(e, c, kind);
    QuietGuarded(c, r, base, w);
    QuietGuarded(c, Charge(c, GAS_CREATE), base, w);
    if r.Ok? {
      var (d, q) := (r.state, r.value);
      TopHarmless(d, base, w);
      var f, saved := d.cur, SubCall(Some(d.world), q.retOff, q.retLen);
      if op.CallOp? {
        CallGuarded(e, d, q.addr, f.callee, q.input, q.gas, saved, base, w);
      } else if op.CallCodeOp? {
        TargetGuarded(e, d, f.callee, q.addr, f.callee, f.callee, q.input, q.value, q.gas, saved, false, base, w);
      } else if op.DelegateCallOp? {
        TargetGuarded(e, d, f.callee, q.addr, f.callee, f.caller, q.input, f.value, q.gas, saved, false, base, w);
      } else if op.StaticCallOp? {
        TargetGuarded(e, d, q.addr, q.addr, q.addr, f.callee, q.input, 0, q.gas,
                      SubCall(None, q.retOff, q.retLen), true, base, w);
      }
    }
  }

  lemma EndOpGuarded(e: Env, op: Opcode, c: Ctx, base: nat, w: World)
    requires Guarded(c, base, w) && EndsFrame(op)
    ensures StillGuarded(EndOp(e, op, c).state, base, w)
  {
    hide FinishCall, ReturnData, SameValues;
    TopHarmless(c, base, w);
    if op.Stop? {
      FinishGuarded(e, c, [], Success, base, w);
    } else if op.ReturnOp? || op.RevertOp? {
      var r := ReturnData(c);
      QuietGuarded(c, r, base, w);
      if r.Ok? {
        FinishGuarded(e, r.state, r.value, Success, base, w);
        FinishGuarded(e, r.state, r.value, Failure(RevertedCall), base, w);
      }
    }
  }

  lemma ExecGuarded(e: Env, op: Opcode, data: Bytes, c: Ctx, base: nat, w: World)
    requires Guarded(c, base, w) && |data| <= 32
    ensures StillGuarded(Exec(e, op, data, c).state, base, w)
  {
    hide EnterOp, EndOp, Jump, JumpI, QuietOp, SameValues;
    TopHarmless(c, base, w);
    if EntersCall(op) {
      EnterOpGuarded(e, op, c, base, w);
    } else if EndsFrame(op) {
      EndOpGuarded(e, op, c, base, w);
    } else {
      SameGuarded(c, Exec(e, op, data, c).state, base, w);
    }
  }

  lemma {:induction false} UnwindGuarded(e: Env, r: CtxOutcome<()>, base: nat, w: World)
    requires StillGuarded(r.state, base, w) && (!r.Err? || |r.state.callStack| >= base) && base >= 1
    ensures StillGuarded(Unwind(e, r).state, base, w)
    decreases |r.state.callStack|
  {
    hide FinishCall, SameValues;
    if r.Err? {
      FinishGuarded(e, r.state, [], Failure(r.error), base, w);
      var next := FinishCall(e, r.state, [], Failure(r.error));
      if next.Err? && |next.state.callStack| < base {
        if next.state.callStack != [] {
          UnwindBelow(e, next);
        }
      } else {
        UnwindGuarded(e, next, base, w);
      }
    }
  }

  // Unwinding an error removes at least one frame, unless it aborts.
  lemma {:induction false} UnwindBelow(e: Env, r: CtxOutcome<()>)
    requires r.Err? && r.state.callStack != []
    ensures |Unwind(e, r).state.callStack| < |r.state.callStack|
    decreases |r.state.callStack|
  {
    hide FinishCall;
    var next := FinishCall(e, r.state, [], Failure(r.error));
    if next.Err? && next.state.callStack != [] {
      UnwindBelow(e, next);
    }
  }

  lemma StepGuarded(e: Env, c: Ctx, base: nat, w: World)
    requires c.status.Running? && Guarded(c, base, w)
    ensures StillGuarded(Step(e, c), base, w) || Step(e, c).status.Aborted?
  {
    hide Exec, Unwind, SameValues;
    if Fetchable(c.cur) {
      var op := Fetch(c.cur);
      var r := Exec(e, op, PushedData(c.cur), c);
      ExecGuarded(e, op, PushedData(c.cur), c, base, w);
      if r.Err? && |r.state.callStack| < base {
        UnwindBelowBase(e, r, base, w);
      } else {
        UnwindGuarded(e, r, base, w);
      }
      var u := Unwind(e, r);
      if u.Ok? && |u.state.callStack| >= base {
        SameGuarded(u.state, AdvancePc(u.state, PushWidth(op)), base, w);
      }
    }
  }

  lemma UnwindBelowBase(e: Env, r: CtxOutcome<()>, base: nat, w: World)
    requires r.Err? && |r.state.callStack| < base
    ensures Unwind(e, r).Panic? || StillGuarded(Unwind(e, r).state, base, w)
  {
    hide FinishCall, SameValues;
    if r.state.callStack != [] {
      UnwindBelow(e, r);
    }
  }

  lemma {:induction false} RunGuarded(e: Env, c: Ctx, n: nat, base: nat, w: World)
    requires Guarded(c, base, w)
    requires forall k: nat | k < n :: |Run(e, c, k).callStack| >= base
    ensures var d := Run(e, c, n); StillGuarded(d, base, w) || d.status.Aborted?
    decreases n
  {
    hide Step, SameValues;
    if n > 0 && c.status.Running? {
      StepGuarded(e, c, base, w);
      var d := Step(e, c);
      if n > 1 && d.status.Running? {
        assert Run(e, c, 1) == Run(e, d, 0) == d;
        forall k: nat | k < n - 1
          ensures |Run(e, d, k).callStack| >= base
        {
          assert Run(e, c, k + 1) == Run(e, d, k);
        }
        RunGuarded(e, d, n - 1, base, w);
      }
    }
  }

  // From the state in which STATICCALL has pushed its frame, for any number of
  // steps during which that frame is not popped, and also when the last of them
  // pops it: every balance, nonce, code, storage value and the logs are what
  // they were, whatever calls, errors and rollbacks happened in between.
  lemma StaticCallChangesNothing(e: Env, c: Ctx, n: nat)
    requires Disciplined(e, c) && Fetchable(c.cur) && Fetch(c.cur).StaticCallOp?
    requires |Step(e, c).callStack| == |c.callStack| + 1
    requires forall k: nat | k < n :: |Run(e, Step(e, c), k).callStack| > |c.callStack|
    ensures var d := Run(e, Step(e, c), n);
      |d.callStack| >= |c.callStack| && !d.status.Aborted? ==> SameValues(d.world, c.world)
  {
    hide Step, SameValues;
    var d := Step(e, c);
    StaticFramePushed(e, c);
    RunGuarded(e, d, n, |d.callStack|, d.world);
  }

  lemma StaticFramePushed(e: Env, c: Ctx)
    requires Disciplined(e, c) && Fetchable(c.cur) && Fetch(c.cur).StaticCallOp?
    requires |Step(e, c).callStack| == |c.callStack| + 1
    ensures var d := Step(e, c);
      d.world == c.world && SameValues(d.world, d.world) && Guarded(d, |d.callStack|, d.world)
  {
    hide PrepareCall, Unwind, ReturnWithoutFrame;
    var op := Fetch(c.cur);
    var r := Exec(e, op, [], c);
    var p := PrepareCall(e, c, StaticCall);
    if r.Err? {
      StaticCallKeepsFrames(e, c);
      UnwindShrinks(e, r);
    } else if p.Ok? && p.value.addr in e.precompiled {
      StaticCallKeepsFrames(e, c);
    }
  }

  lemma StaticCallKeepsFrames(e: Env, c: Ctx)
    ensures var r := StaticCallBegin(e, c);
      !r.Ok? ==> r.state.callStack == c.callStack
    ensures var p := PrepareCall(e, c, StaticCall);
      p.Ok? && p.value.addr in e.precompiled ==> StaticCallBegin(e, c).state.callStack == c.callStack
  {
    hide PrepareCall, CallEnd;
  }

  lemma UnwindShrinks(e: Env, r: CtxOutcome<()>)
    ensures |Unwind(e, r).state.callStack| <= |r.state.callStack|
  {
    hide FinishCall;
    if r.Err? && r.state.callStack != [] {
      UnwindBelow(e, r);
    }
  }
}
