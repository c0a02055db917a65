// What the end of a frame leaves its caller or creator with: after STOP, RETURN,
// REVERT and SELFDESTRUCT, and after an instruction that fails.
module ReturnMeaning {
  import opened Common
  import opened Params
  import opened FlatWorld
  import opened Machine
  import opened CallMemory
  import opened Frames
  import opened Instructions
  import opened Interpreter
  import opened CallStack
  import opened Stepping
  import opened StackMeaning
  import opened MemoryMeaning
  import opened WorldMeaning
  import opened CallMeaning
  import opened ProgramCounter
  import Revert

  // The frame below the running one.
  function FrameBelow(c: Ctx): Frame
    requires c.callStack != []
  {
    c.callStack[|c.callStack| - 1]
  }

  // ---------- back to a caller ----------

  // The running frame, made by a call, ended with data, unused gas and a verdict
  // in a world: its caller takes them back and goes on behind the call, a failure
  // putting the call's snapshot back.
  ghost predicate BackToCaller(c: Ctx, d: Ctx, data: seq<Byte>, unused: int, w: World, verdict: Verdict, skip: nat) {
    && c.cur.callType.SubCall? && c.callStack != []
    && var (n, f, kind) := (|c.callStack| - 1, FrameBelow(c), c.cur.callType);
       && d.callStack == c.callStack[..n]
       && TakesBack(f, d.cur, kind.retOff, kind.retLen, data, unused, verdict) && d.cur.pc == Wrap64(f.pc + skip)
       && d.world == if verdict.Failure? && kind.callSnapshot.Some? then kind.callSnapshot.value else w
  }

  // The place for the data fits memory, and the stack has room.
  predicate CallerCanTake(c: Ctx, verdict: Verdict) {
    && c.cur.callType.SubCall? && c.callStack != []
    && (KeepsGas(verdict) ==> c.cur.callType.retOff + c.cur.callType.retLen <= MAX_MEM_SIZE)
    && FrameBelow(c).stack.top < MAX_STACK_DEPTH
  }

  lemma FinishesCall(e: Env, c: Ctx, data: Bytes, verdict: Verdict)
    requires c.cur.callType.SubCall? && c.callStack != []
    ensures var r := FinishCall(e, c, data, verdict);
      && (r.Ok? <==> CallerCanTake(c, verdict))
      && (r.Ok? ==> BackToCaller(c, r.state, data, c.cur.gas, c.world, verdict, 0))
      && (r.Ok? ==> Apart(c, r.state) && r.state.dirty == c.dirty)
  {
    hide TakeBack, Stored;
    var kind := c.cur.callType;
    TakeBackExactly(FrameBelow(c), kind.retOff, kind.retLen, data, c.cur.gas, verdict);
  }

  // What the end of a frame leaves alone.
  ghost predicate Apart(c: Ctx, d: Ctx) {
    d.refund == c.refund && d.access == c.access && d.destroyed == c.destroyed && d.status == c.status
  }

  // ---------- back to a creator ----------

  // The code a creation answered is stored for 200 gas a byte, which the creator
  // pays: below the size limit of EIP-170, without the first byte 0xef reserved
  // by EIP-3541.
  predicate Deposits(e: Env, f: Frame, data: seq<Byte>, verdict: Verdict) {
    && verdict.Success?
    && (e.From(SpuriousDragon) ==> |data| <= 24576)
    && (e.From(London) && |data| >= 1 ==> data[0] != 0xef)
    && 200 * |data| < TWO_64 && 200 * |data| <= f.gas
  }

  // What the creator keeps of its own gas: a failure other than a revert takes it.
  function CreatorGas(e: Env, f: Frame, data: seq<Byte>, verdict: Verdict): int {
    if verdict.Failure? then (if verdict.error.RevertedCall? then f.gas else 0)
    else if Deposits(e, f, data, verdict) then f.gas - 200 * |data| else f.gas
  }

  // The code of one account set, by what the getters answer.
  ghost predicate CodeSet(v: World, w: World, a: Addr, code: seq<Byte>) {
    && w.logs == v.logs
    && (forall b: Addr :: w.GetCode(b) == if b == a then code else v.GetCode(b))
    && (forall b: Addr :: w.GetBalance(b) == v.GetBalance(b) && w.GetNonce(b) == v.GetNonce(b))
    && (forall b: Addr, k: U256 :: w.GetState(b, k) == v.GetState(b, k))
  }

  // The running frame, made by a creation, ended: the creator gets the address,
  // or zero when the code could not be stored, all the unused gas and no data, and
  // goes on behind the creation.
  ghost predicate BackToCreator(
    e: Env, c: Ctx, d: Ctx, data: seq<Byte>, unused: int, w: World, verdict: Verdict, skip: nat
  ) {
    && c.cur.callType.CreateCall? && c.callStack != []
    && var (n, f, a) := (|c.callStack| - 1, FrameBelow(c), c.cur.callType.contractAddr);
       var stored := Deposits(e, f, data, verdict);
       && d.callStack == c.callStack[..n]
       && Words(d.cur) == Words(f) + [if verdict.Failure? || stored then a else 0]
       && d.cur.gas == Wrap64(CreatorGas(e, f, data, verdict) + unused) && d.cur.lastReturned == []
       && d.cur == f.(stack := d.cur.stack, gas := d.cur.gas, lastReturned := [], pc := Wrap64(f.pc + skip))
       && (if verdict.Failure? then d.world == c.cur.callType.createSnapshot
           else if stored then CodeSet(w, d.world, a, data) else d.world == w)
  }

  lemma DepositExactly(e: Env, c: Ctx, a: Addr, data: Bytes, verdict: Verdict)
    ensures var r, stored := CreatePostProcessing(e, c, a, data, verdict), Deposits(e, c.cur, data, verdict);
      && (r.Ok? <==> verdict.Failure? || stored) && (r.Err? ==> !r.error.RevertedCall?) && !r.Panic?
      && r.state == c.(cur := c.cur.(gas := CreatorGas(e, c.cur, data, verdict)),
                       world := if stored then c.world.SetCode(a, data) else c.world,
                       dirty := if stored then c.dirty + {a} else c.dirty)
  {
    assert |data| * GAS_CREATE_DATA == 200 * |data|;
  }

  lemma SetsCode(w: World, a: Addr, code: Bytes)
    ensures CodeSet(w, w.SetCode(a, code), a, code)
  {
  }

  lemma FinishesCreation(e: Env, c: Ctx, data: Bytes, verdict: Verdict)
    requires c.cur.callType.CreateCall? && c.callStack != []
    ensures var r := FinishCall(e, c, data, verdict);
      && (r.Ok? <==> FrameBelow(c).stack.top < MAX_STACK_DEPTH)
      && (r.Ok? ==> BackToCreator(e, c, r.state, data, c.cur.gas, c.world, verdict, 0) && Apart(c, r.state))
      && (r.Ok? ==>
            r.state.dirty
            == c.dirty + if Deposits(e, FrameBelow(c), data, verdict) then {c.cur.callType.contractAddr} else {})
  {
    hide CreatePostProcessing, CodeSet, Deposits, CreatorGas;
    var (a, d) := (c.cur.callType.contractAddr, CallPop(c));
    var start := if verdict.Failure? then d.(world := c.cur.callType.createSnapshot) else d;
    DepositExactly(e, start, a, data, verdict);
    SetsCode(c.world, a, data);
    assert c.dirty + {} == c.dirty;
  }

  // ---------- STOP, RETURN and REVERT ----------

  // The running frame ended and the one below goes on.
  ghost predicate Back(e: Env, c: Ctx, d: Ctx, data: seq<Byte>, unused: int, w: World, verdict: Verdict, skip: nat) {
    if c.cur.callType.CreateCall? then BackToCreator(e, c, d, data, unused, w, verdict, skip)
    else BackToCaller(c, d, data, unused, w, verdict, skip)
  }

  predicate CanTake(c: Ctx, verdict: Verdict) {
    if c.cur.callType.CreateCall? then c.callStack != [] && FrameBelow(c).stack.top < MAX_STACK_DEPTH
    else CallerCanTake(c, verdict)
  }

  lemma Finishes(e: Env, c: Ctx, data: Bytes, verdict: Verdict)
    requires c.callStack != [] && !c.cur.callType.TxCall?
    ensures var r := FinishCall(e, c, data, verdict);
      && (r.Ok? <==> CanTake(c, verdict))
      && (r.Ok? ==> Back(e, c, r.state, data, c.cur.gas, c.world, verdict, 0) && Apart(c, r.state))
  {
    hide FinishCall, BackToCaller, BackToCreator, CallerCanTake;
    if c.cur.callType.CreateCall? {
      FinishesCreation(e, c, data, verdict);
    } else {
      FinishesCall(e, c, data, verdict);
    }
  }

  lemma BackBehind(
    e: Env, c: Ctx, d: Ctx, data: seq<Byte>, unused: int, w: World, verdict: Verdict, skip: nat
  )
    requires Back(e, c, d, data, unused, w, verdict, 0)
    ensures Back(e, c, AdvancePc(d, skip), data, unused, w, verdict, skip + 1)
  {
  }

  lemma EndDecodes(raw: Byte)
    ensures raw == 0x00 ==> Decode(raw) == Stop
    ensures raw == 0xf3 ==> Decode(raw) == ReturnOp
    ensures raw == 0xfd ==> Decode(raw) == RevertOp
    ensures raw == 0xff ==> Decode(raw) == SelfDestructOp
  {
  }

  // An instruction that ends the frame.
  lemma RunsEnd(e: Env, c: Ctx, op: Opcode)
    requires c.status.Running? && Fetch(c.cur) == op && EndsFrame(op)
    ensures var r := EndOp(e, op, c);
      (Completes(e, c) <==> r.Ok?) && (r.Ok? ==> Step(e, c) == AdvancePc(r.state, 0))
  {
    hide EndOp, Fetch, Step;
    EndsPlainly(c, op);
    ExecEnds(e, op, [], c);
    if Completes(e, c) {
      hide Exec;
      CompletedAdvances(e, c);
    }
  }

  lemma EndsPlainly(c: Ctx, op: Opcode)
    requires Fetch(c.cur) == op && EndsFrame(op)
    ensures Fetchable(c.cur) && PushedData(c.cur) == [] && PushWidth(op) == 0 && !EntersCall(op)
  {
    hide Fetch;
  }

  // STOP, also past the end of the code, ends a called frame without data.
  lemma StopInstruction(e: Env, c: Ctx)
    requires c.status.Running? && (c.cur.pc >= |c.cur.code| || Runs(c, 0x00))
    requires c.callStack != [] && !c.cur.callType.TxCall?
    ensures Completes(e, c) <==> CanTake(c, Success)
    ensures Completes(e, c) ==>
      Back(e, c, Step(e, c), [], c.cur.gas, c.world, Success, 1) && Apart(c, Step(e, c))
  {
    hide FinishCall, Step, Completes, Back, CanTake, Decode, Fetchable, PushedData;
    EndDecodes(0x00);
    RunsEnd(e, c, Stop);
    Finishes(e, c, [], Success);
    var r := FinishCall(e, c, [], Success);
    if r.Ok? {
      BackBehind(e, c, r.state, [], c.cur.gas, c.world, Success, 0);
    }
  }

  lemma ReturnDataOutcome(c: Ctx)
    ensures var r := ReturnData(c);
      var (off: nat, len: nat) := if c.cur.stack.top >= 2 then (Below(c.cur, 1), Below(c.cur, 2)) else (0, 0);
      var fee := Fee(c.cur.memory, off + len);
      && (r.Ok? <==> c.cur.stack.top >= 2 && off + len <= MAX_MEM_SIZE && c.cur.gas >= fee)
      && (r.Ok? ==>
            && r.value == Shown(c.cur.memory, off, len)
            && r.state == c.(cur := r.state.cur) && r.state.cur.gas == c.cur.gas - fee
            && r.state.cur == c.cur.(stack := r.state.cur.stack, memory := r.state.cur.memory, gas := r.state.cur.gas))
  {
    hide Slice, Stored, Fee, Shown, QuietCharges, Charges, Local;
    var (off: nat, len: nat) := if c.cur.stack.top >= 2 then (Below(c.cur, 1), Below(c.cur, 2)) else (0, 0);
    FeeNonNegative(c.cur.memory, off + len);
    if c.cur.stack.top >= 2 {
      SliceLeaves(Drop(c.cur, 2), off, len);
      SliceShows(Drop(c.cur, 2), off, len);
    }
  }

  lemma BackFrom(
    e: Env, c: Ctx, s: Ctx, d: Ctx, data: seq<Byte>, unused: int, w: World, verdict: Verdict, skip: nat
  )
    requires Back(e, s, d, data, unused, w, verdict, skip)
    requires s.callStack == c.callStack && s.cur.callType == c.cur.callType
    ensures Back(e, c, d, data, unused, w, verdict, skip)
  {
  }

  // RETURN and, from Byzantium on, REVERT end a called frame with the bytes of
  // their slice; REVERT is a failure that keeps the gas and the data.
  lemma ReturnInstruction(e: Env, c: Ctx, raw: Byte)
    requires Runs(c, raw) && (raw == 0xf3 || raw == 0xfd)
    requires c.callStack != [] && !c.cur.callType.TxCall?
    ensures var (off: nat, len: nat) := if Height(c) >= 2 then (Word(c, 1), Word(c, 2)) else (0, 0);
      var fee, verdict := Fee(c.cur.memory, off + len), if raw == 0xf3 then Success else Failure(RevertedCall);
      && (Completes(e, c)
          <==> Height(c) >= 2 && off + len <= MAX_MEM_SIZE && c.cur.gas >= fee
               && (raw == 0xfd ==> e.From(Byzantium)) && CanTake(c, verdict))
      && (Completes(e, c) ==>
            && Back(e, c, Step(e, c), Shown(c.cur.memory, off, len), c.cur.gas - fee, c.world, verdict, 1)
            && Apart(c, Step(e, c)))
  {
    hide FinishCall, Step, Completes, Back, ReturnData, Fetchable, PushedData, Stored, Fee, Shown, Decode;
    EndDecodes(raw);
    FetchesRaw(c, raw);
    RunsEnd(e, c, Decode(raw));
    ReturnDataOutcome(c);
    var (off: nat, len: nat) := if Height(c) >= 2 then (Word(c, 1), Word(c, 2)) else (0, 0);
    var fee, verdict := Fee(c.cur.memory, off + len), if raw == 0xf3 then Success else Failure(RevertedCall);
    if Height(c) >= 2 {
      WordBelow(c, 1);
      WordBelow(c, 2);
    }
    var r := ReturnData(c);
    if r.Ok? {
      Finishes(e, r.state, r.value, verdict);
      var g := FinishCall(e, r.state, r.value, verdict);
      if g.Ok? {
        BackFrom(e, c, r.state, g.state, r.value, c.cur.gas - fee, c.world, verdict, 0);
        BackBehind(e, c, g.state, r.value, c.cur.gas - fee, c.world, verdict, 0);
      }
    }
  }

  // ---------- SELFDESTRUCT ----------

  // The whole balance went to the heir, unless it would not fit there; the account
  // is left with nothing either way. Nothing else a reader can see is different.
  ghost predicate Bequeathed(v: World, w: World, self: Addr, heir: Addr) {
    && w.logs == v.logs
    && (forall a: Addr :: w.GetNonce(a) == v.GetNonce(a) && w.GetCode(a) == v.GetCode(a))
    && (forall a: Addr, k: U256 :: w.GetState(a, k) == v.GetState(a, k))
    && (forall a: Addr ::
          w.GetBalance(a)
            == if a == self then 0
               else if a == heir && v.GetBalance(heir) + v.GetBalance(self) < TWO_256 then
                 v.GetBalance(heir) + v.GetBalance(self)
               else v.GetBalance(a))
  }

  lemma BequeathExactly(c: Ctx, heir: Addr)
    ensures var d := Bequeath(c, heir);
      && Bequeathed(c.world, d.world, c.cur.callee, heir)
      && d == c.(world := d.world, destroyed := c.destroyed + {c.cur.callee}, dirty := c.dirty + {c.cur.callee, heir})
  {
  }

  // From Tangerine Whistle on 5000, and 25000 more when the balance goes to an
  // account that does not exist, or from Spurious Dragon on is empty; from Berlin
  // on 2600 for an heir that is not in the access list.
  function DestructPrice(e: Env, c: Ctx, heir: Addr): nat {
    var self := c.cur.callee;
    var revives := if e.From(SpuriousDragon) then e.IsEmpty(c.world, heir) && c.world.GetBalance(self) != 0
                   else !c.world.Exist(heir);
    (if e.From(Berlin) && heir !in c.access.addrs then 2600 else 0)
    + (if e.From(TangerineWhistle) then 5000 + (if revives then 25000 else 0) else 0)
  }

  function DestructRefund(e: Env, c: Ctx): nat {
    if e.From(TangerineWhistle) && !e.From(London) && c.cur.callee !in c.destroyed then 24000 else 0
  }

  lemma ChargesPaid(e: Env, c: Ctx, heir: Addr)
    ensures var r, revives := SelfDestructCharges(e, c, heir), BringsToLife(e, c.world, c.cur.callee, heir);
      var due := 5000 + if revives then 25000 else 0;
      && (r.Ok? <==> c.cur.gas >= due)
      && (r.Ok? ==>
            && r.state.refund == c.refund + (if !e.From(London) && c.cur.callee !in c.destroyed then 24000 else 0)
            && r.state == c.(cur := r.state.cur, refund := r.state.refund)
            && r.state.cur == c.cur.(gas := r.state.cur.gas) && r.state.cur.gas == c.cur.gas - due)
  {
    hide BringsToLife, QuietCharges;
  }

  lemma HeirWarmed(e: Env, c: Ctx, heir: Addr)
    ensures var r := if e.From(Berlin) then WarmAddress(c, heir, 2600) else Ok(c, ());
      var due := if e.From(Berlin) && heir !in c.access.addrs then 2600 else 0;
      && (r.Ok? <==> c.cur.gas >= due)
      && (r.Ok? ==>
            && r.state == c.(cur := r.state.cur, access := WithAccount(e, c.access, heir))
            && r.state.cur == c.cur.(gas := r.state.cur.gas) && r.state.cur.gas == c.cur.gas - due)
  {
    hide QuietCharges;
    AlreadyListed(c.access, heir);
  }

  lemma DestructPrepared(e: Env, c: Ctx)
    ensures var r := PrepareSelfDestruct(e, c);
      var heir := if c.cur.stack.top >= 1 then ToAddr(Below(c.cur, 1)) else 0;
      && (r.Ok? <==> c.cur.stack.top >= 1 && c.cur.gas >= DestructPrice(e, c, heir))
      && (r.Ok? ==>
            && r.value == heir && r.state.refund == c.refund + DestructRefund(e, c)
            && r.state == c.(cur := r.state.cur, access := WithAccount(e, c.access, heir), refund := r.state.refund)
            && r.state.cur == Drop(c.cur, 1).(gas := r.state.cur.gas)
            && r.state.cur.gas == c.cur.gas - DestructPrice(e, c, heir))
  {
    hide WarmAddress, SelfDestructCharges, WithAccount, QuietCharges;
    if c.cur.stack.top >= 1 {
      var heir, d := ToAddr(Below(c.cur, 1)), c.(cur := Drop(c.cur, 1));
      HeirWarmed(e, d, heir);
      var r := if e.From(Berlin) then WarmAddress(d, heir, 2600) else Ok(d, ());
      if r.Ok? {
        ChargesPaid(e, r.state, heir);
      }
    }
  }

  // SELFDESTRUCT, never in a read-only frame, ends a called frame without data
  // after the balance went to the heir, and marks the contract as destroyed.
  lemma SelfDestructInstruction(e: Env, c: Ctx)
    requires Runs(c, 0xff) && c.callStack != [] && !c.cur.callType.TxCall?
    ensures var heir := ToAddr(Top(c));
      && (Completes(e, c)
          <==> !c.cur.readOnly && Height(c) >= 1 && c.cur.gas >= DestructPrice(e, c, heir) && CanTake(c, Success))
      && (Completes(e, c) ==>
            var d, self := Step(e, c), c.cur.callee;
            && (exists w: World :: Bequeathed(c.world, w, self, heir)
                  && Back(e, c, d, [], c.cur.gas - DestructPrice(e, c, heir), w, Success, 1))
            && d.destroyed == c.destroyed + {self} && d.refund == c.refund + DestructRefund(e, c)
            && d.access == WithAccount(e, c.access, heir) && d.status == c.status)
  {
    hide FinishCall, Step, Completes, Back, CanTake, PrepareSelfDestruct, Bequeath, Bequeathed, WithAccount;
    hide DestructPrice, DestructRefund;
    hide Fetchable, PushedData, Decode;
    EndDecodes(0xff);
    FetchesRaw(c, 0xff);
    RunsEnd(e, c, SelfDestructOp);
    DestructPrepared(e, c);
    if Height(c) >= 1 {
      WordBelow(c, 1);
    }
    var r := PrepareSelfDestruct(e, c);
    if r.Ok? {
      BequeathExactly(r.state, r.value);
      var s := Bequeath(r.state, r.value);
      CanTakeSame(c, s, Success);
      Finishes(e, s, [], Success);
      var g := FinishCall(e, s, [], Success);
      if g.Ok? {
        BackFrom(e, c, s, g.state, [], s.cur.gas, s.world, Success, 0);
        BackBehind(e, c, g.state, [], s.cur.gas, s.world, Success, 0);
      }
    }
  }

  lemma CanTakeSame(c: Ctx, s: Ctx, verdict: Verdict)
    requires s.callStack == c.callStack && s.cur.callType == c.cur.callType
    ensures CanTake(s, verdict) == CanTake(c, verdict)
  {
  }

  // ---------- failures ----------

  // No instruction fails with the verdict of REVERT.
  lemma JumpsFailForGood(c: Ctx)
    ensures (Jump(c).Err? ==> !Jump(c).error.RevertedCall?) && (JumpI(c).Err? ==> !JumpI(c).error.RevertedCall?)
  {
  }

  lemma LogFailsForGood(e: Env, c: Ctx, n: nat)
    ensures Log(e, c, n).Err? ==> !Log(e, c, n).error.RevertedCall?
  {
    hide LogRecord;
  }

  lemma SStoreFailsForGood(e: Env, c: Ctx)
    ensures SStore(e, c).Err? ==> !SStore(e, c).error.RevertedCall?
  {
    hide SStoreGas;
  }

  lemma ReturnFailsForGood(e: Env, c: Ctx, callType: CallType, data: Bytes, gas: U64, verdict: Verdict)
    ensures var r := ReturnWithoutFrame(e, c, callType, data, gas, verdict); r.Err? ==> !r.error.RevertedCall?
  {
    hide TxEnd, CopyIn;
  }

  lemma TargetFailsForGood(
    e: Env, c: Ctx, precompile: Addr, codeAt: Addr, callee: Addr, caller: Addr,
    input: Bytes, value: U256, gas: U64, callType: CallType, readOnly: bool
  )
    ensures var r := CallTarget(e, c, precompile, codeAt, callee, caller, input, value, gas, callType, readOnly);
      r.Err? ==> !r.error.RevertedCall?
  {
    hide ReturnWithoutFrame;
    if precompile in e.precompiled {
      var result := e.precompiled[precompile](input);
      ReturnFailsForGood(e, c, callType, result.data, gas, result.verdict);
    }
  }

  lemma CallFailsForGood(
    e: Env, c: Ctx, callee: Addr, caller: Addr, input: Bytes, gas: U64, value: U256, callType: CallType
  )
    ensures var r := Call_(e, c, callee, caller, input, gas, value, callType); r.Err? ==> !r.error.RevertedCall?
  {
    hide ReturnWithoutFrame, CallTarget;
    var d := c.(dirty := c.dirty + {caller, callee});
    ReturnFailsForGood(e, d, callType, [], gas, Success);
    var w := if c.world.Exist(callee) then c.world else c.world.CreateAccount(callee);
    var t := w.Transfer(caller, callee, value);
    if t.Some? {
      ReturnFailsForGood(e, d.(world := t.value), callType, [], gas, Success);
      TargetFailsForGood(e, d.(world := t.value), callee, callee, callee, caller, input, value, gas, callType, false);
    }
  }

  lemma CallOpFailsForGood(e: Env, op: Opcode, c: Ctx)
    requires EntersCall(op) && !op.CreateOp? && !op.Create2Op?
    ensures var r := EnterOp(e, op, c); r.Err? ==> !r.error.RevertedCall?
  {
    hide PrepareCall, Call_, CallTarget;
    var kind := if op.CallOp? then PlainCall else if op.CallCodeOp? then CallCode
                else if op.DelegateCallOp? then DelegateCall else StaticCall;
    var r := PrepareCall(e, c, kind);
    if r.Ok? {
      var (d, q) := (r.state, r.value);
      var f, saved := d.cur, SubCall(Some(d.world), q.retOff, q.retLen);
      if op.CallOp? {
        CallFailsForGood(e, d, q.addr, f.callee, q.input, q.gas, q.value, saved);
      } else if op.CallCodeOp? {
        TargetFailsForGood(e, d, f.callee, q.addr, f.callee, f.callee, q.input, q.value, q.gas, saved, false);
      } else if op.DelegateCallOp? {
        TargetFailsForGood(e, d, f.callee, q.addr, f.callee, f.caller, q.input, f.value, q.gas, saved, false);
      } else {
        TargetFailsForGood(e, d, q.addr, q.addr, q.addr, f.callee, q.input, 0, q.gas,
                           SubCall(None, q.retOff, q.retLen), true);
      }
    }
  }

  lemma CreateOpFailsForGood(e: Env, op: Opcode, c: Ctx)
    requires op.CreateOp? || op.Create2Op?
    ensures var r := EnterOp(e, op, c); r.Err? ==> !r.error.RevertedCall?
  {
    hide PrepareCreate, Charge;
  }

  lemma PlainFailsForGood(e: Env, op: Opcode, data: Bytes, c: Ctx)
    requires !EndsFrame(op) && |data| <= 32
    ensures var r := Exec(e, op, data, c); r.Err? ==> !r.error.RevertedCall?
  {
    hide EnterOp, SStore, Log, Jump, JumpI, QuietOp;
    if op.CreateOp? || op.Create2Op? {
      CreateOpFailsForGood(e, op, c);
    } else if EntersCall(op) {
      CallOpFailsForGood(e, op, c);
    } else if op.SStoreOp? {
      SStoreFailsForGood(e, c);
    } else if op.LogOp? {
      LogFailsForGood(e, c, op.topics);
    } else if op.JumpOp? || op.JumpIOp? {
      JumpsFailForGood(c);
    }
  }

  // An instruction that fails in a frame made by a call: the caller gets zero, no
  // data and no gas, its memory is as it was, and the world is the call's snapshot
  // when it has one. The caller goes on behind its call by the size of the failed
  // instruction, or at its call again after a call or creation.
  lemma FailedInstruction(e: Env, c: Ctx)
    requires Disciplined(e, c) && FailsInside(e, c) && !EndsFrame(Fetch(c.cur)) && c.cur.callType.SubCall?
    requires HasRoom(FrameBelow(c))
    ensures var d, op := Step(e, c), Fetch(c.cur);
      && d.status.Running?
      && BackToCaller(c, d, [], 0, d.world, Failure(OutOfGas), if EntersCall(op) then 0 else 1 + PushWidth(op))
  {
    hide Exec, Fetch, FinishCall, BackToCaller, CallerCanTake;
    var op := Fetch(c.cur);
    var r := Exec(e, op, PushedData(c.cur), c);
    PlainFailsForGood(e, op, PushedData(c.cur), c);
    FailsInPlace(e, c);
    FinishesCall(e, r.state, [], Failure(r.error));
    var g := FinishCall(e, r.state, [], Failure(r.error));
    assert g.Ok? by { TakesFailure(c, r.state, r.error); }
    FailureBack(c, r.state, g.state, r.error);
    BackToCallerBehind(c, g.state, if EntersCall(op) then 0 else 1 + PushWidth(op));
  }

  lemma TakesFailure(c: Ctx, s: Ctx, error: ExecError)
    requires c.callStack != [] && c.cur.callType.SubCall? && HasRoom(FrameBelow(c)) && !error.RevertedCall?
    requires s.callStack == c.callStack && s.cur.callType == c.cur.callType
    ensures CallerCanTake(s, Failure(error))
  {
  }

  // All failures for good are alike to the caller.
  lemma FailureBack(c: Ctx, s: Ctx, d: Ctx, error: ExecError)
    requires BackToCaller(s, d, [], s.cur.gas, s.world, Failure(error), 0) && !error.RevertedCall?
    requires s.callStack == c.callStack && s.cur.callType == c.cur.callType
    ensures BackToCaller(c, d, [], 0, d.world, Failure(OutOfGas), 0)
  {
  }

  lemma BackToCallerBehind(c: Ctx, d: Ctx, skip: nat)
    requires BackToCaller(c, d, [], 0, d.world, Failure(OutOfGas), 0)
    ensures BackToCaller(c, d.(cur := d.cur.(pc := Wrap64(d.cur.pc + skip))), [], 0, d.world, Failure(OutOfGas), skip)
  {
  }

  // An instruction that fails in a frame made by a creation: the creator loses all
  // its own gas and gets what is left in the failed frame, with the address of the
  // contract all the same, and the world is that before the creation.
  lemma FailedCreation(e: Env, c: Ctx)
    requires Disciplined(e, c) && FailsInside(e, c) && !EndsFrame(Fetch(c.cur)) && c.cur.callType.CreateCall?
    requires HasRoom(FrameBelow(c))
    ensures var d, op := Step(e, c), Fetch(c.cur);
      && d.status.Running? && d.world == c.cur.callType.createSnapshot
      && BackToCreator(e, c, d, [], d.cur.gas, c.world, Failure(OutOfGas), if EntersCall(op) then 0 else 1 + PushWidth(op))
  {
    hide Exec, Fetch, FinishCall, BackToCreator;
    var op := Fetch(c.cur);
    var r := Exec(e, op, PushedData(c.cur), c);
    PlainFailsForGood(e, op, PushedData(c.cur), c);
    FailsInPlace(e, c);
    FinishesCreation(e, r.state, [], Failure(r.error));
    var g := FinishCall(e, r.state, [], Failure(r.error));
    BackToCreatorBehind(e, c, r.state, g.state, r.error, if EntersCall(op) then 0 else 1 + PushWidth(op));
  }

  lemma BackToCreatorBehind(e: Env, c: Ctx, s: Ctx, d: Ctx, error: ExecError, skip: nat)
    requires BackToCreator(e, s, d, [], s.cur.gas, s.world, Failure(error), 0) && !error.RevertedCall?
    requires s.callStack == c.callStack && s.cur.callType == c.cur.callType
    ensures d.world == c.cur.callType.createSnapshot
    ensures BackToCreator(
      e, c, d.(cur := d.cur.(pc := Wrap64(d.cur.pc + skip))), [], d.cur.gas, c.world, Failure(OutOfGas), skip)
    ensures skip == 0 ==> d.(cur := d.cur.(pc := Wrap64(d.cur.pc + skip))) == d
  {
  }

  lemma FailsInPlace(e: Env, c: Ctx)
    requires c.callStack != [] && FailsInside(e, c) && !EndsFrame(Fetch(c.cur))
    ensures var s := Exec(e, Fetch(c.cur), PushedData(c.cur), c).state;
      s.callStack == c.callStack && s.cur.callType == c.cur.callType && s.status == c.status
  {
    hide EnterOp, Fetch, Revert.Stacks;
    var op := Fetch(c.cur);
    if EntersCall(op) {
      EnterOpPc(e, op, c);
      Revert.EnterOpStacks(e, op, c);
      StacksIn(c, EnterOp(e, op, c).state);
    } else {
      PlainSameFrames(e, op, PushedData(c.cur), c);
    }
  }

  lemma StacksIn(c: Ctx, d: Ctx)
    requires Revert.Stacks(c, d) && d.callStack == c.callStack
    ensures d.cur.callType == c.cur.callType && d.status == c.status
  {
  }

  // ---------- rollbacks ----------

  // A call that kept a snapshot and whose frame ended with a failure or a revert:
  // every slot, balance, nonce and code reads as it did when the call was made,
  // whatever was written in between.
  lemma RollbackRestores(
    e: Env, c: Ctx, entered: Ctx, last: Ctx, after: Ctx, raw: Byte, data: seq<Byte>, unused: int, w: World,
    verdict: Verdict, skip: nat
  )
    requires IsCall(raw) && raw != 0xfa && Enters(e, c, entered, raw)
    requires last.cur.callType == entered.cur.callType && verdict.Failure?
    requires BackToCaller(last, after, data, unused, w, verdict, skip)
    ensures after.world == c.world
    ensures forall a: Addr, k: U256 :: after.world.GetState(a, k) == c.world.GetState(a, k)
  {
  }
}
