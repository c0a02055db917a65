// The interpreter as the source runs it (src/core/exec.rs): one object whose
// fields every instruction updates, driven by a loop. Each method is tied to
// the step machine.
module Exec {
  import opened Common
  import opened Params
  import opened FlatWorld
  import opened Machine
  import opened CallMemory
  import opened Frames
  import opened Instructions
  import opened Interpreter
  import AccessTable
  import PlainCode

  class TxExecContext {
    const env: Env
    const accessList: AccessTable.AccessTable
    var callStack: seq<Frame>
    var curCall: Frame
    var state: World
    var refund: nat
    var destroyed: set<Addr>
    var dirty: set<Addr>
    var status: Status

    ghost predicate Valid() reads this, accessList { accessList.Valid() }

    ghost function Model(): Ctx
      requires Valid()
      reads this, accessList
    {
      Ctx(callStack, curCall, state, refund, accessList.Model(), destroyed, dirty, status)
    }

    // The object is in the state an operation of the step machine leads to, and
    // reports what it reports.
    ghost predicate Did<T>(o: CtxOutcome<T>, r: Flow<T>)
      reads this, accessList
    {
      Valid() && Model() == o.state && r == FlowOf(o)
    }

    // A context before anything ran: the current frame is the placeholder.
    constructor (e: Env, tx: Tx, world: World)
      ensures Valid() && fresh(accessList) && env == e
      ensures Model() == NewContext(e, tx.gas, InitialAccess(e, tx.from, tx.to, tx.listed), world)
    {
      env := e;
      accessList := new AccessTable.AccessTable.Empty();
      callStack := [];
      curCall := NewFrame([], [], 0, 0, 0, SubCall(None, 0, 0), tx.gas, false);
      state, refund, destroyed, dirty, status := world, 0, {}, {}, Running;
      new;
      accessList.AddInitial(e, tx.from, tx.to, tx.listed);
    }

    // Starts the transaction: its nonce, its value, and its first frame.
    method Start(tx: Tx)
      requires Valid() && Model() == NewContext(env, tx.gas, InitialAccess(env, tx.from, tx.to, tx.listed), state)
      modifies this, accessList
      ensures Valid() && Model() == Interpreter.Start(env, tx, old(state))
    {
      hide Instructions.Call_, Instructions.Create_, AccessTable.AllSlots, AccessTable.Indexed;
      var gas := Wrap64(tx.gas - GAS_TX);
      var nonce := state.GetNonce(tx.from);
      var r;
      match tx.to {
        case Some(to) =>
          state := state.SetNonce(tx.from, Wrap64(nonce as int + 1));
          r := Call_(to, tx.from, tx.input, gas, tx.value, TxCall(state, Sender(tx.from)));
        case None =>
          var a := env.createAddr(tx.from, nonce);
          r := Create_(a, tx.from, tx.input, tx.value, gas, TxCall(state, Contract(a)));
      }
      match r {
        case Go(_) =>
        case Fail(error) => status := Finished(Reverted([], gas, error));
        case Crash(why) => status := Aborted(why);
      }
    }

    // An operation on the current frame alone.
    method OnCall<T>(o: FrameOutcome<T>) returns (r: Flow<T>)
      requires Valid()
      modifies this
      ensures Did(OnFrame(old(Model()), o), r)
    {
      curCall := o.state;
      r := FlowOf(o);
    }

    method UseGas(gas: nat) returns (r: Flow<()>)
      requires Valid()
      modifies this
      ensures Did(Charge(old(Model()), gas), r)
    {
      r := OnCall(Frames.UseGas(curCall, gas));
    }

    method WarmUp(a: Addr, gas: nat) returns (r: Flow<()>)
      requires Valid()
      modifies this, accessList
      ensures Did(WarmAddress(old(Model()), a, gas), r)
    {
      if !accessList.ContainsAddr(a) {
        var _ := accessList.AddAddr(a);
        r := UseGas(gas);
      } else {
        r := Go(());
      }
    }

    method PayAccess(a: Addr, flat: nat) returns (r: Flow<()>)
      requires Valid()
      modifies this, accessList
      ensures Did(AccountAccess(env, old(Model()), a, flat), r)
    {
      if env.From(Berlin) {
        var _ :- UseGas(GAS_WARM_STORAGE_READ_COST_BERLIN);
        r := WarmUp(a, GAS_COLD_ACCOUNT_ACCESS_COST_BERLIN - GAS_WARM_STORAGE_READ_COST_BERLIN);
      } else {
        r := UseGas(flat);
      }
    }

    // ---------- reading accounts and storage ----------

    method Balance() returns (r: Flow<()>)
      requires Valid()
      modifies this, accessList
      ensures Did(Instructions.Balance(env, old(Model())), r)
    {
      var word :- OnCall(Consume1(curCall));
      var flat := if env.From(Istanbul) then GAS_BALANCE_ISTANBUL
                  else if env.From(TangerineWhistle) then GAS_BALANCE_TANGERINE
                  else GAS_BALANCE_FRONTIER;
      var _ :- PayAccess(ToAddr(word), flat);
      r := OnCall(Push(curCall, state.GetBalance(ToAddr(word))));
    }

    method ExtCodeSize() returns (r: Flow<()>)
      requires Valid()
      modifies this, accessList
      ensures Did(Instructions.ExtCodeSize(env, old(Model())), r)
    {
      var word :- OnCall(Consume1(curCall));
      var flat := if env.From(TangerineWhistle) then GAS_EXT_CODE_SIZE_TANGERINE else GAS_EXT_CODE_SIZE_FRONTIER;
      var _ :- PayAccess(ToAddr(word), flat);
      r := OnCall(Push(curCall, |state.GetCode(ToAddr(word))|));
    }

    method ExtCodeCopy() returns (r: Flow<()>)
      requires Valid()
      modifies this, accessList
      ensures Did(Instructions.ExtCodeCopy(env, old(Model())), r)
    {
      hide CopyCode, Consume4;
      var args :- OnCall(Consume4(curCall));
      var (word, memOff, codeOff, len) := args;
      var flat := if env.From(TangerineWhistle) then GAS_EXT_BASE_TANGERINE else GAS_EXT_BASE_FRONTIER;
      var _ :- PayAccess(ToAddr(word), flat);
      r := OnCall(CopyCode(curCall, state.GetCode(ToAddr(word)), memOff, codeOff, len));
    }

    method ExtCodeHash() returns (r: Flow<()>)
      requires Valid()
      modifies this, accessList
      ensures Did(Instructions.ExtCodeHash(env, old(Model())), r)
    {
      if !env.From(Constantinople) {
        return Fail(InvalidOpcode);
      }
      var word :- OnCall(Consume1(curCall));
      var flat := if env.From(Istanbul) then GAS_EXT_CODE_HASH_ISTANBUL else GAS_EXT_CODE_HASH_CONSTANTINOPLE;
      var _ :- PayAccess(ToAddr(word), flat);
      r := OnCall(Push(curCall, env.keccak(state.GetCode(ToAddr(word)))));
    }

    method SLoad() returns (r: Flow<()>)
      requires Valid()
      modifies this, accessList
      ensures Did(Instructions.SLoad(env, old(Model())), r)
    {
      hide Consume1, Push;
      var key :- OnCall(Consume1(curCall));
      var gas;
      if env.From(Berlin) {
        var (_, slotExists) := accessList.Contains(curCall.callee, key);
        if !slotExists {
          var _, _ := accessList.AddSlot(curCall.callee, key);
          gas := GAS_COLD_SLOAD_COST_BERLIN;
        } else {
          gas := GAS_WARM_STORAGE_READ_COST_BERLIN;
        }
      } else if env.From(Istanbul) {
        gas := GAS_SLOAD_ISTANBUL;
      } else if env.From(TangerineWhistle) {
        gas := GAS_SLOAD_TANGERINE;
      } else {
        gas := GAS_SLOAD_FRONTIER;
      }
      var _ :- UseGas(gas);
      r := OnCall(Push(curCall, state.GetState(curCall.callee, key)));
    }

    // The other instructions that leave the world and the frames alone.
    method QuietOp(op: Opcode, data: Bytes) returns (r: Flow<()>)
      requires Valid() && |data| <= 32
      modifies this, accessList
      ensures Did(Interpreter.QuietOp(env, op, data, old(Model())), r)
    {
      hide Instructions.Balance, Instructions.ExtCodeSize, Instructions.ExtCodeCopy, Instructions.ExtCodeHash;
      hide Instructions.SLoad, Instructions.BlockHash, Instructions.SelfBalance, FrameOp;
      hide QuietCharges, AccessTable.AllSlots, AccessTable.Indexed;
      if op.BalanceOp? {
        r := Balance();
      } else if op.ExtCodeSizeOp? {
        r := ExtCodeSize();
      } else if op.ExtCodeCopyOp? {
        r := ExtCodeCopy();
      } else if op.ExtCodeHashOp? {
        r := ExtCodeHash();
      } else if op.BlockHashOp? {
        r := BlockHash();
      } else if op.SelfBalanceOp? {
        r := SelfBalance();
      } else if op.SLoadOp? {
        r := SLoad();
      } else {
        r := OnCall(FrameOp(env, op, data, curCall));
      }
    }

    method BlockHash() returns (r: Flow<()>)
      requires Valid()
      modifies this
      ensures Did(Instructions.BlockHash(env, old(Model())), r)
    {
      var _ :- UseGas(GAS_EXT);
      var number :- OnCall(Consume1(curCall));
      var upper := Wrap64(env.number);
      var lower := if upper >= 256 then upper - 256 else 0;
      var hash := if number < TWO_64 && lower <= number < upper then env.blockHash(number) else 0;
      r := OnCall(Push(curCall, hash));
    }

    method SelfBalance() returns (r: Flow<()>)
      requires Valid()
      modifies this
      ensures Did(Instructions.SelfBalance(env, old(Model())), r)
    {
      if !env.From(Istanbul) {
        return Fail(InvalidOpcode);
      }
      r := OnCall(PushConst(curCall, GAS_FAST, state.GetBalance(curCall.callee)));
    }

    // ---------- jumps ----------

    method JumpTo(dest: U256) returns (r: Flow<()>)
      requires Valid()
      modifies this
      ensures Did(Instructions.JumpTo(old(Model()), dest), r)
    {
      if !PlainCode.ValidJumpDest(curCall.code, dest) {
        return Fail(InvalidJump);
      }
      curCall := curCall.(pc := Wrap64(dest - 1));
      r := Go(());
    }

    method Jump() returns (r: Flow<()>)
      requires Valid()
      modifies this
      ensures Did(Instructions.Jump(old(Model())), r)
    {
      var _ :- UseGas(GAS_MID);
      var dest :- OnCall(Consume1(curCall));
      r := JumpTo(dest);
    }

    method JumpI() returns (r: Flow<()>)
      requires Valid()
      modifies this
      ensures Did(Instructions.JumpI(old(Model())), r)
    {
      var _ :- UseGas(GAS_SLOW);
      var args :- OnCall(Consume2(curCall));
      if args.1 == 0 {
        return Go(());
      }
      r := JumpTo(args.0);
    }

    // ---------- storage ----------

    method AddRefund(gas: nat)
      requires Valid()
      modifies this`refund
      ensures Valid() && Model() == Instructions.AddRefund(old(Model()), gas)
    {
      refund := refund + gas;
    }

    method SubRefund(gas: nat) returns (r: Flow<()>)
      requires Valid()
      modifies this`refund
      ensures Did(Instructions.SubRefund(old(Model()), gas), r)
    {
      if gas > refund {
        return Crash(RefundBelowZero);
      }
      refund := refund - gas;
      r := Go(());
    }

    method CleanWrite(orig: U256, val: U256, clearing: nat, set_: nat, reset: nat) returns (r: Flow<()>)
      requires Valid()
      modifies this
      ensures Did(Instructions.CleanWrite(old(Model()), orig, val, clearing, set_, reset), r)
    {
      if orig == 0 {
        r := UseGas(set_);
      } else {
        if val == 0 {
          AddRefund(clearing);
        }
        r := UseGas(reset);
      }
    }

    method DirtyWrite(
      orig: U256, cur: U256, val: U256, clearing: nat, unset: nat, restore: nat, gas: nat
    ) returns (r: Flow<()>)
      requires Valid()
      modifies this
      ensures Did(Instructions.DirtyWrite(old(Model()), orig, cur, val, clearing, unset, restore, gas), r)
    {
      if orig != 0 {
        if cur == 0 {
          var _ :- SubRefund(clearing);
        } else if val == 0 {
          AddRefund(clearing);
        }
      }
      if orig == val {
        AddRefund(if orig == 0 then unset else restore);
      }
      r := UseGas(gas);
    }

    method SStoreIstanbulGas(key: U256, val: U256) returns (r: Flow<()>)
      requires Valid()
      modifies this
      ensures Did(Instructions.SStoreIstanbulGas(env, old(Model()), key, val), r)
    {
      hide Instructions.CleanWrite, Instructions.DirtyWrite;
      if curCall.gas <= GAS_SSTORE_SENTRY_ISTANBUL {
        return Fail(OutOfGas);
      }
      var cur := state.GetState(curCall.callee, key);
      if cur == val {
        r := UseGas(GAS_SLOAD_ISTANBUL);
        return;
      }
      var orig := env.committed.GetState(curCall.callee, key);
      if orig == cur {
        r := CleanWrite(orig, val, GAS_SSTORE_REFUND_ISTANBUL, GAS_SSTORE_SET_ISTANBUL, GAS_SSTORE_RESET_ISTANBUL);
      } else {
        r := DirtyWrite(orig, cur, val,
                        GAS_SSTORE_REFUND_ISTANBUL,
                        GAS_SSTORE_SET_ISTANBUL - GAS_SLOAD_ISTANBUL,
                        GAS_SSTORE_RESET_ISTANBUL - GAS_SLOAD_ISTANBUL,
                        GAS_SLOAD_ISTANBUL);
      }
    }

    method SStoreBerlinLondonGas(key: U256, val: U256, clearing: nat) returns (r: Flow<()>)
      requires Valid()
      modifies this, accessList
      ensures Did(Instructions.SStoreBerlinLondonGas(env, old(Model()), key, val, clearing), r)
    {
      hide Instructions.CleanWrite, Instructions.DirtyWrite;
      if curCall.gas <= GAS_SSTORE_SENTRY_ISTANBUL {
        return Fail(OutOfGas);
      }
      var a := curCall.callee;
      var (addrExists, slotExists) := accessList.Contains(a, key);
      var cost := 0;
      if !slotExists {
        if !addrExists {
          return Crash(CalleeNotWarm);
        }
        cost := GAS_COLD_SLOAD_COST_BERLIN;
        var _, _ := accessList.AddSlot(a, key);
      }
      var cur := state.GetState(a, key);
      if cur == val {
        r := UseGas(cost + GAS_WARM_STORAGE_READ_COST_BERLIN);
        return;
      }
      var orig := env.committed.GetState(a, key);
      if orig == cur {
        r := CleanWrite(orig, val, clearing,
                        cost + GAS_SSTORE_SET_ISTANBUL,
                        cost + (GAS_SSTORE_RESET_ISTANBUL - GAS_COLD_SLOAD_COST_BERLIN));
      } else {
        r := DirtyWrite(orig, cur, val, clearing,
                        GAS_SSTORE_SET_ISTANBUL - GAS_WARM_STORAGE_READ_COST_BERLIN,
                        GAS_SSTORE_RESET_ISTANBUL - GAS_COLD_SLOAD_COST_BERLIN - GAS_WARM_STORAGE_READ_COST_BERLIN,
                        cost + GAS_WARM_STORAGE_READ_COST_BERLIN);
      }
    }

    method SStoreGas(key: U256, val: U256) returns (r: Flow<()>)
      requires Valid()
      modifies this, accessList
      ensures Did(Instructions.SStoreGas(env, old(Model()), key, val), r)
    {
      hide Instructions.SStoreBerlinLondonGas, Instructions.SStoreIstanbulGas;
      if env.From(Berlin) {
        r := SStoreBerlinLondonGas(key, val, ClearingRefund(env));
      } else if env.From(Istanbul) {
        r := SStoreIstanbulGas(key, val);
      } else if env.From(Constantinople) {
        var cur := state.GetState(curCall.callee, key);
        var gas;
        if cur == 0 && val != 0 {
          gas := GAS_SSTORE_SET;
        } else if cur != 0 && val == 0 {
          AddRefund(GAS_SSTORE_REFUND);
          gas := GAS_SSTORE_CLEAR;
        } else {
          gas := GAS_SSTORE_RESET;
        }
        r := UseGas(gas);
      } else {
        r := Go(());
      }
    }

    method SStore() returns (r: Flow<()>)
      requires Valid()
      modifies this, accessList
      ensures Did(Instructions.SStore(env, old(Model())), r)
    {
      hide Consume2, Instructions.SStoreGas;
      if curCall.readOnly {
        return Fail(WriteProtection);
      }
      var args :- OnCall(Consume2(curCall));
      var _ :- SStoreGas(args.0, args.1);
      state := state.SetState(curCall.callee, args.0, args.1);
      dirty := dirty + {curCall.callee};
      r := Go(());
    }

    method Log(num: nat) returns (r: Flow<()>)
      requires Valid()
      modifies this
      ensures Did(Instructions.Log(env, old(Model()), num), r)
    {
      hide Consume2, CheckedMul, ConsumeMany, Slice;
      if curCall.readOnly {
        return Fail(WriteProtection);
      }
      var item :- LogRecord(num);
      state := state.AddLog(item.0);
      r := UseGas(item.1);
    }

    method LogRecord(num: nat) returns (r: Flow<(LogItem, nat)>)
      requires Valid()
      modifies this
      ensures Did(Instructions.LogRecord(env, old(Model()), num), r)
    {
      hide Consume2, CheckedMul, ConsumeMany, Slice;
      var _ :- UseGas(GAS_LOG);
      var _ :- UseGas(num * GAS_LOG_TOPIC);
      var args :- OnCall(Consume2(curCall));
      if args.1 >= TWO_64 {
        return Fail(MemoryExhausted);
      }
      var gas :- OnCall(CheckedMul(curCall, args.1, GAS_LOG_DATA));
      var _ :- UseGas(gas);
      var topics :- OnCall(ConsumeMany(curCall, num));
      var data :- OnCall(Slice(curCall, args.0, args.1));
      r := Go((LogItem(curCall.callee, topics, data.0, env.number), data.1));
    }

    // ---------- entering and leaving frames ----------

    method AdvancePc(skip: nat)
      requires Valid()
      modifies this`curCall
      ensures Valid() && Model() == Instructions.AdvancePc(old(Model()), skip)
    {
      curCall := curCall.(pc := Wrap64(curCall.pc + skip + 1));
    }

    method CallPush(
      code: Bytes, input: Bytes, value: U256, callee: Addr, caller: Addr,
      callType: CallType, gas: U64, readOnly: bool
    )
      requires Valid()
      modifies this`callStack, this`curCall
      ensures Valid()
      ensures Model()
           == Instructions.CallPush(old(Model()), code, input, value, callee, caller, callType, gas, readOnly)
    {
      var frame := NewFrame(code, input, value, callee, caller, callType, gas, curCall.readOnly || readOnly);
      var oldCall := curCall;
      curCall := frame;
      callStack := callStack + [oldCall];
    }

    method CallPop() returns (frame: Frame)
      requires Valid() && callStack != []
      modifies this`callStack, this`curCall
      ensures Valid() && frame == old(curCall) && Model() == Instructions.CallPop(old(Model()))
    {
      frame := curCall;
      curCall := callStack[|callStack| - 1];
      callStack := callStack[..|callStack| - 1];
    }

    method CallEnd(
      snapshot: Option<World>, retOff: U256, retLen: U256, data: Bytes, unusedGas: U64, ret: Verdict
    ) returns (r: Flow<()>)
      requires Valid()
      modifies this
      ensures Did(Instructions.CallEnd(old(Model()), snapshot, retOff, retLen, data, unusedGas, ret), r)
    {
      hide TakeBack, Resumed;
      if ret.Failure? && snapshot.Some? {
        state := snapshot.value;
      }
      r := OnCall(TakeBack(curCall, retOff, retLen, data, unusedGas, ret));
    }

    method CreatePostProcessing(a: Addr, data: Bytes, ret: Verdict) returns (r: Flow<()>)
      requires Valid()
      modifies this
      ensures Did(Instructions.CreatePostProcessing(env, old(Model()), a, data, ret), r)
    {
      if ret.Failure? {
        if !ret.error.RevertedCall? {
          curCall := curCall.(gas := 0);
        }
      } else {
        if env.From(SpuriousDragon) && |data| > MAX_CODE_SIZE {
          return Fail(MaxCodeSizeExceeded);
        }
        if env.From(London) && |data| >= 1 && data[0] == 0xef {
          return Fail(InvalidCode);
        }
        var gas :- OnCall(CheckedMul(curCall, |data|, GAS_CREATE_DATA));
        if curCall.gas < gas {
          return Fail(CodeStoreOutOfGas);
        }
        curCall := curCall.(gas := curCall.gas - gas);
        state := state.SetCode(a, data);
        dirty := dirty + {a};
      }
      r := Go(());
    }

    method CreateEnd(snapshot: World, a: Addr, data: Bytes, unusedGas: U64, ret: Verdict) returns (r: Flow<()>)
      requires Valid()
      modifies this
      ensures Did(Instructions.CreateEnd(env, old(Model()), snapshot, a, data, unusedGas, ret), r)
    {
      hide Instructions.CreatePostProcessing, TakeBackCreated, Resumed;
      hide AccessTable.AllSlots, AccessTable.Indexed, Quiet, QuietCharges, Local, Charges;
      if ret.Failure? {
        state := snapshot;
      }
      var post := CreatePostProcessing(a, data, ret);
      r := OnCall(TakeBackCreated(curCall, unusedGas,
        if post.Go? then a else 0, if post.Fail? && post.error.RevertedCall? then data else []));
    }

    method TxEnd(snapshot: World, aux: TxAux, data: Bytes, unusedGas: U64, ret: Verdict) returns (r: Flow<()>)
      requires Valid()
      modifies this
      ensures Did(Instructions.TxEnd(env, old(Model()), snapshot, aux, data, unusedGas, ret), r)
    {
      hide Instructions.CreatePostProcessing, Emptied;
      if callStack != [] {
        return Crash(FramesLeftAtEnd);
      }
      var verdict, created := ret, None;
      match aux {
        case Contract(a) =>
          var post := CreatePostProcessing(a, data, ret);
          verdict, created := if post.Fail? then Failure(post.error) else Success, Some(a);
        case Sender(a) =>
          dirty := dirty + {a};
      }
      if !status.Running? {
        return Crash(EndedTwice);
      }
      if env.From(SpuriousDragon) {
        DeleteEmpty();
      } else {
        NothingEmptied(Model());
      }
      dirty := {};
      DeleteDestroyed();
      destroyed := {};
      match verdict {
        case Failure(error) =>
          state := snapshot;
          status := Finished(Reverted(data, unusedGas, error));
        case Success =>
          status := Finished(Succeeded(data, unusedGas, created));
      }
      r := Go(());
    }

    lemma NothingEmptied(c: Ctx)
      requires !env.From(SpuriousDragon)
      ensures c.world.DeleteAccounts(Emptied(env, c.world, c.dirty)) == c.world
    {
    }

    // Deletes the touched accounts that are empty, one at a time in any order.
    method DeleteEmpty()
      requires Valid() && env.From(SpuriousDragon)
      modifies this`state
      ensures Valid()
      ensures state == old(state).DeleteAccounts(Emptied(env, old(state), dirty))
    {
      var rest := dirty;
      while rest != {}
        invariant rest <= dirty
        invariant state == old(state).DeleteAccounts(Emptied(env, old(state), dirty - rest))
        decreases |rest|
      {
        var a :| a in rest;
        assert a !in Emptied(env, old(state), dirty - rest);
        assert state.At(a) == old(state).At(a);
        if env.IsEmpty(state, a) {
          state := state.DeleteAccounts({a});
        }
        rest := rest - {a};
      }
      assert dirty - rest == dirty;
    }

    method DeleteDestroyed()
      requires Valid()
      modifies this`state
      ensures Valid() && state == old(state).DeleteAccounts(destroyed)
    {
      var rest := destroyed;
      while rest != {}
        invariant rest <= destroyed
        invariant state == old(state).DeleteAccounts(destroyed - rest)
        decreases |rest|
      {
        var a :| a in rest;
        state := state.DeleteAccounts({a});
        rest := rest - {a};
      }
    }

    method FinishCall(data: Bytes, ret: Verdict) returns (r: Flow<()>)
      requires Valid()
      modifies this
      ensures Did(Instructions.FinishCall(env, old(Model()), data, ret), r)
    {
      hide Instructions.CallEnd, Instructions.CreateEnd, Instructions.TxEnd;
      if callStack == [] {
        return Crash(NoFrameToPop);
      }
      var frame := CallPop();
      match frame.callType {
        case TxCall(snapshot, aux) =>
          r := TxEnd(snapshot, aux, data, frame.gas, ret);
        case CreateCall(snapshot, a) =>
          r := CreateEnd(snapshot, a, data, frame.gas, ret);
        case SubCall(snapshot, retOff, retLen) =>
          r := CallEnd(snapshot, retOff, retLen, data, frame.gas, ret);
      }
    }

    method ReturnWithoutFrame(callType: CallType, data: Bytes, gas: U64, ret: Verdict) returns (r: Flow<()>)
      requires Valid()
      modifies this
      ensures Did(Instructions.ReturnWithoutFrame(env, old(Model()), callType, data, gas, ret), r)
    {
      hide Instructions.CallEnd, Instructions.TxEnd;
      match callType {
        case TxCall(snapshot, aux) =>
          r := TxEnd(snapshot, aux, data, gas, ret);
        case SubCall(snapshot, retOff, retLen) =>
          r := CallEnd(snapshot, retOff, retLen, data, gas, ret);
          if !r.Crash? {
            AdvancePc(0);
          }
        case CreateCall(_, _) =>
          r := Crash(CreateWithoutFrame);
      }
    }

    // ---------- calls ----------

    method CallTarget(
      precompile: Addr, codeAt: Addr, callee: Addr, caller: Addr,
      input: Bytes, value: U256, gas: U64, callType: CallType, readOnly: bool
    ) returns (r: Flow<()>)
      requires Valid()
      modifies this
      ensures Did(Instructions.CallTarget(
        env, old(Model()), precompile, codeAt, callee, caller, input, value, gas, callType, readOnly), r)
    {
      hide Instructions.ReturnWithoutFrame;
      if precompile in env.precompiled {
        var result := env.precompiled[precompile](input);
        r := ReturnWithoutFrame(callType, result.data, gas, result.verdict);
      } else {
        CallPush(state.GetCode(codeAt), input, value, callee, caller, callType, gas, readOnly);
        r := Go(());
      }
    }

    method Call_(
      callee: Addr, caller: Addr, input: Bytes, gas: U64, value: U256, callType: CallType
    ) returns (r: Flow<()>)
      requires Valid()
      modifies this
      ensures Did(Instructions.Call_(env, old(Model()), callee, caller, input, gas, value, callType), r)
    {
      hide Instructions.ReturnWithoutFrame, Instructions.CallTarget;
      if |callStack| == MAX_CALL_DEPTH {
        return Fail(Depth);
      }
      if state.GetBalance(caller) < value {
        return Fail(InsufficientBalance);
      }
      dirty := dirty + {caller, callee};
      var w := state;
      if !state.Exist(callee) {
        if callee !in env.precompiled && env.From(SpuriousDragon) && value == 0 {
          r := ReturnWithoutFrame(callType, [], gas, Success);
          return;
        }
        w := state.CreateAccount(callee);
      }
      var transferred := w.Transfer(caller, callee, value);
      if transferred.None? {
        return Crash(TransferFailed);
      }
      state := transferred.value;
      if callee !in env.precompiled && state.GetCode(callee) == [] {
        r := ReturnWithoutFrame(callType, [], gas, Success);
      } else {
        r := CallTarget(callee, callee, callee, caller, input, value, gas, callType, false);
      }
    }

    method PayIf(due: bool, gas: nat) returns (r: Flow<()>)
      requires Valid()
      modifies this
      ensures Did(ChargeIf(old(Model()), due, gas), r)
    {
      if due {
        r := UseGas(gas);
      } else {
        r := Go(());
      }
    }

    method CallSurcharges(kind: CallKind, val: U256, addr: Addr, memGas: nat) returns (r: Flow<()>)
      requires Valid()
      modifies this, accessList
      ensures Did(Instructions.CallSurcharges(env, old(Model()), kind, val, addr, memGas), r)
    {
      hide WarmAddress, ChargeIf, Charge;
      hide AccessTable.AllSlots, AccessTable.Indexed, Quiet, QuietCharges, Local, Charges;
      if env.From(Berlin) {
        var _ :- WarmUp(addr, GAS_COLD_ACCOUNT_ACCESS_COST_BERLIN - GAS_WARM_STORAGE_READ_COST_BERLIN);
      }
      var revives := kind.PlainCall? && val != 0 && env.From(SpuriousDragon) && env.IsEmpty(state, addr);
      var _ :- PayIf(revives, GAS_CALL_NEW_ACCOUNT);
      var _ :- PayIf(HasValue(kind) && val != 0, GAS_CALL_VALUE_TRANS);
      r := UseGas(memGas);
    }

    method UseGasCall(kind: CallKind, val: U256, addr: Addr, asked: U256, memGas: nat) returns (r: Flow<U64>)
      requires Valid()
      modifies this, accessList
      ensures Did(Instructions.UseGasCall(env, old(Model()), kind, val, addr, asked, memGas), r)
    {
      hide Instructions.CallSurcharges;
      hide AccessTable.AllSlots, AccessTable.Indexed, Quiet, QuietCharges, Local, Charges;
      hide Instructions.GasCallCommon;
      var _ :- CallSurcharges(kind, val, addr, memGas);
      var quota :- GasCallCommon(asked);
      var _ :- UseGas(quota);
      r := Go(quota);
    }

    method GasCallCommon(asked: U256) returns (r: Flow<U64>)
      requires Valid()
      modifies this
      ensures Did(Instructions.GasCallCommon(env, old(Model()), asked), r)
    {
      var most := curCall.gas - curCall.gas / 64;
      if env.From(TangerineWhistle) && (asked >= TWO_64 || most < asked) {
        r := Go(most);
      } else if asked >= TWO_64 {
        r := Fail(GasIntOverflow);
      } else {
        r := Go(asked);
      }
    }

    method PrepareCall(kind: CallKind) returns (r: Flow<CallRequest>)
      requires Valid()
      modifies this, accessList
      ensures Did(Instructions.PrepareCall(env, old(Model()), kind), r)
    {
      hide PopCallArgs, Instructions.UseGasCall;
      hide AccessTable.AllSlots, AccessTable.Indexed, Quiet, QuietCharges, Local, Charges;
      var args :- OnCall(PopCallArgs(curCall, kind, CallBaseFee(env)));
      if kind.PlainCall? && curCall.readOnly && args.value != 0 {
        return Fail(WriteProtection);
      }
      var quota :- UseGasCall(kind, args.value, args.addr, args.asked, args.memGas);
      var gas := Wrap64(quota + Stipend(kind, args.value));
      r := Go(CallRequest(gas, args.addr, args.value, args.input, args.retOff, args.retLen));
    }

    method CallBegin() returns (r: Flow<()>)
      requires Valid()
      modifies this, accessList
      ensures Did(Instructions.CallBegin(env, old(Model())), r)
    {
      hide Instructions.PrepareCall, Instructions.Call_;
      var q :- PrepareCall(PlainCall);
      var snapshot := state;
      r := Call_(q.addr, curCall.callee, q.input, q.gas, q.value, SubCall(Some(snapshot), q.retOff, q.retLen));
    }

    method DelegateCallBegin() returns (r: Flow<()>)
      requires Valid()
      modifies this, accessList
      ensures Did(Instructions.DelegateCallBegin(env, old(Model())), r)
    {
      hide Instructions.PrepareCall, Instructions.CallTarget;
      if !env.From(Homestead) {
        return Fail(InvalidOpcode);
      }
      if |callStack| == MAX_CALL_DEPTH {
        return Fail(Depth);
      }
      var q :- PrepareCall(DelegateCall);
      var f := curCall;
      r := CallTarget(f.callee, q.addr, f.callee, f.caller, q.input, f.value, q.gas,
                      SubCall(Some(state), q.retOff, q.retLen), false);
    }

    method CallCodeBegin() returns (r: Flow<()>)
      requires Valid()
      modifies this, accessList
      ensures Did(Instructions.CallCodeBegin(env, old(Model())), r)
    {
      hide Instructions.PrepareCall, Instructions.CallTarget;
      if |callStack| == MAX_CALL_DEPTH {
        return Fail(Depth);
      }
      var q :- PrepareCall(CallCode);
      var self := curCall.callee;
      if state.GetBalance(self) < q.value {
        return Fail(InsufficientBalance);
      }
      r := CallTarget(self, q.addr, self, self, q.input, q.value, q.gas,
                      SubCall(Some(state), q.retOff, q.retLen), false);
    }

    method StaticCallBegin() returns (r: Flow<()>)
      requires Valid()
      modifies this, accessList
      ensures Did(Instructions.StaticCallBegin(env, old(Model())), r)
    {
      hide Instructions.PrepareCall, Instructions.CallTarget;
      if !env.From(Byzantium) {
        return Fail(InvalidOpcode);
      }
      if |callStack| == MAX_CALL_DEPTH {
        return Fail(Depth);
      }
      var q :- PrepareCall(StaticCall);
      r := CallTarget(q.addr, q.addr, q.addr, curCall.callee, q.input, 0, q.gas,
                      SubCall(None, q.retOff, q.retLen), true);
    }

    // ---------- creations ----------

    method Create_(
      a: Addr, caller: Addr, code: Bytes, value: U256, gas: U64, callType: CallType
    ) returns (r: Flow<()>)
      requires Valid()
      modifies this, accessList
      ensures Did(Instructions.Create_(env, old(Model()), a, caller, code, value, gas, callType), r)
    {
      hide Endow, Instructions.CallPush, AccessTable.AllSlots, AccessTable.Indexed, Quiet, QuietCharges, Local, Charges;
      if state.GetBalance(caller) < value {
        return Fail(InsufficientBalance);
      }
      var oldCode, oldNonce := state.GetCode(a), state.GetNonce(a);
      var nonce: int := state.GetNonce(caller) + 1;
      if nonce >= TWO_64 {
        return Fail(NonceIntOverflow);
      }
      state := state.SetNonce(caller, nonce);
      if env.From(Berlin) {
        var _ := accessList.AddAddr(a);
      }
      var hash := env.keccak(oldCode);
      if oldNonce != 0 || (hash != 0 && hash != env.keccak([])) {
        return Fail(ContractAddrCollision);
      }
      var transferred := Endow(env, state, a, caller, value);
      if transferred.None? {
        return Crash(TransferFailed);
      }
      state := transferred.value;
      dirty := dirty + {a, caller};
      CallPush(code, [], value, a, caller, callType, gas, false);
      r := Go(());
    }

    method PrepareCreate(salted: bool) returns (r: Flow<CreateRequest>)
      requires Valid()
      modifies this
      ensures Did(Instructions.PrepareCreate(env, old(Model()), salted), r)
    {
      hide Instructions.CreateArgs, Instructions.HashingFee, Instructions.HandOver, Slice;
      hide AccessTable.AllSlots, AccessTable.Indexed, Quiet, QuietCharges, Local, Charges;
      var args :- CreateArgs(salted);
      var (value, off, len, salt) := args;
      var input :- OnCall(Slice(curCall, off, len));
      var _ :- UseGas(input.1);
      if salted {
        var _ :- HashingFee(len);
      }
      var quota :- HandOver(salted || env.From(TangerineWhistle));
      r := Go(CreateRequest(value, input.0, salt, quota));
    }

    method HandOver(keepsSome: bool) returns (r: Flow<U64>)
      requires Valid()
      modifies this
      ensures Did(Instructions.HandOver(old(Model()), keepsSome), r)
    {
      hide Charge;
      var quota := curCall.gas;
      if keepsSome {
        quota := quota - quota / 64;
      }
      var _ :- UseGas(quota);
      r := Go(quota);
    }

    method CreateArgs(salted: bool) returns (r: Flow<(U256, U256, U256, U256)>)
      requires Valid()
      modifies this
      ensures Did(Instructions.CreateArgs(old(Model()), salted), r)
    {
      hide Consume3, Consume4;
      hide AccessTable.AllSlots, AccessTable.Indexed, Quiet, QuietCharges, Local, Charges;
      if salted {
        r := OnCall(Consume4(curCall));
      } else {
        var args :- OnCall(Consume3(curCall));
        r := Go((args.0, args.1, args.2, 0));
      }
    }

    method HashingFee(len: U64) returns (r: Flow<()>)
      requires Valid()
      modifies this
      ensures Did(Instructions.HashingFee(old(Model()), len), r)
    {
      hide CheckedMul, Charges, QuietCharges;
      var gas :- OnCall(CheckedMul(curCall, ToWordSize(len), GAS_SHA3_WORD));
      r := UseGas(gas);
    }

    method CreateBegin() returns (r: Flow<()>)
      requires Valid()
      modifies this, accessList
      ensures Did(Instructions.CreateBegin(env, old(Model())), r)
    {
      hide Instructions.PrepareCreate, Instructions.Create_;
      var _ :- UseGas(GAS_CREATE);
      if curCall.readOnly {
        return Fail(WriteProtection);
      }
      if |callStack| == MAX_CALL_DEPTH {
        return Fail(Depth);
      }
      var q :- PrepareCreate(false);
      var caller := curCall.callee;
      var a := env.createAddr(caller, state.GetNonce(caller));
      r := Create_(a, caller, q.code, q.value, q.gas, CreateCall(state, a));
    }

    method Create2Begin() returns (r: Flow<()>)
      requires Valid()
      modifies this, accessList
      ensures Did(Instructions.Create2Begin(env, old(Model())), r)
    {
      hide Instructions.PrepareCreate, Instructions.Create_;
      if !env.From(Constantinople) {
        return Fail(InvalidOpcode);
      }
      if curCall.readOnly {
        return Fail(WriteProtection);
      }
      if |callStack| == MAX_CALL_DEPTH {
        return Fail(Depth);
      }
      var _ :- UseGas(GAS_CREATE2);
      var q :- PrepareCreate(true);
      var caller := curCall.callee;
      var a := env.createAddr2(caller, q.salt, q.code);
      r := Create_(a, caller, q.code, q.value, q.gas, CreateCall(state, a));
    }

    // ---------- ends of a frame ----------

    method ReturnData() returns (r: Flow<Bytes>)
      requires Valid()
      modifies this
      ensures Did(Instructions.ReturnData(old(Model())), r)
    {
      hide Consume2, Slice;
      var args :- OnCall(Consume2(curCall));
      var data :- OnCall(Slice(curCall, args.0, args.1));
      var _ :- UseGas(data.1);
      r := Go(data.0);
    }

    method Return() returns (r: Flow<()>)
      requires Valid()
      modifies this
      ensures Did(Instructions.Return(env, old(Model())), r)
    {
      hide Instructions.ReturnData, Instructions.FinishCall;
      var data :- ReturnData();
      r := FinishCall(data, Success);
    }

    method Revert() returns (r: Flow<()>)
      requires Valid()
      modifies this
      ensures Did(Instructions.Revert(env, old(Model())), r)
    {
      hide Instructions.ReturnData, Instructions.FinishCall;
      if !env.From(Byzantium) {
        return Fail(InvalidOpcode);
      }
      var data :- ReturnData();
      r := FinishCall(data, Failure(RevertedCall));
    }

    method PrepareSelfDestruct() returns (r: Flow<Addr>)
      requires Valid()
      modifies this, accessList
      ensures Did(Instructions.PrepareSelfDestruct(env, old(Model())), r)
    {
      hide Consume1, WarmAddress, Charge, ChargeIf, BringsToLife;
      hide AccessTable.AllSlots, AccessTable.Indexed, Quiet, QuietCharges, Local, Charges;
      var word :- OnCall(Consume1(curCall));
      var heir := ToAddr(word);
      if env.From(Berlin) {
        var _ :- WarmUp(heir, GAS_COLD_ACCOUNT_ACCESS_COST_BERLIN);
      }
      if env.From(TangerineWhistle) {
        var _ :- UseGas(GAS_SELF_DESTRUCT);
        var _ :- PayIf(BringsToLife(env, state, curCall.callee, heir), GAS_CREATE_BY_SELF_DESTRUCT);
        if !env.From(London) && curCall.callee !in destroyed {
          AddRefund(GAS_SELF_DESTRUCT_REFUND);
        }
      }
      r := Go(heir);
    }

    method SelfDestruct() returns (r: Flow<()>)
      requires Valid()
      modifies this, accessList
      ensures Did(Instructions.SelfDestruct(env, old(Model())), r)
    {
      hide Instructions.PrepareSelfDestruct, Instructions.FinishCall;
      if curCall.readOnly {
        return Fail(WriteProtection);
      }
      var heir :- PrepareSelfDestruct();
      var self := curCall.callee;
      var grown := state.AddBalance(heir, state.GetBalance(self));
      if grown.Some? {
        state := grown.value;
      }
      state := state.SetBalance(self, 0);
      destroyed := destroyed + {self};
      dirty := dirty + {self, heir};
      r := FinishCall([], Success);
    }

    // ---------- the main loop ----------

    method EnterOp(op: Opcode) returns (r: Flow<()>)
      requires Valid() && EntersCall(op)
      modifies this, accessList
      ensures Did(Interpreter.EnterOp(env, op, old(Model())), r)
    {
      hide Instructions.CallBegin, Instructions.CallCodeBegin, Instructions.DelegateCallBegin;
      hide Instructions.StaticCallBegin, Instructions.CreateBegin, Instructions.Create2Begin;
      match op {
        case CreateOp => r := CreateBegin();
        case CallOp => r := CallBegin();
        case CallCodeOp => r := CallCodeBegin();
        case DelegateCallOp => r := DelegateCallBegin();
        case Create2Op => r := Create2Begin();
        case StaticCallOp => r := StaticCallBegin();
      }
    }

    method EndOp(op: Opcode) returns (r: Flow<()>)
      requires Valid() && EndsFrame(op)
      modifies this, accessList
      ensures Did(Interpreter.EndOp(env, op, old(Model())), r)
    {
      hide Instructions.FinishCall, Instructions.Return, Instructions.Revert, Instructions.SelfDestruct;
      match op {
        case Stop => r := FinishCall([], Success);
        case ReturnOp => r := Return();
        case RevertOp => r := Revert();
        case SelfDestructOp => r := SelfDestruct();
      }
    }

    method Execute(op: Opcode, data: Bytes) returns (r: Flow<()>)
      requires Valid() && |data| <= 32
      modifies this, accessList
      ensures Did(Interpreter.Exec(env, op, data, old(Model())), r)
    {
      hide Interpreter.EnterOp, Interpreter.EndOp, Interpreter.QuietOp, Instructions.SStore;
      hide Instructions.Log, Instructions.Jump, Instructions.JumpI;
      if EntersCall(op) {
        r := EnterOp(op);
      } else if EndsFrame(op) {
        r := EndOp(op);
      } else if op.SStoreOp? {
        r := SStore();
      } else if op.LogOp? {
        r := Log(op.topics);
      } else if op.JumpOp? {
        r := Jump();
      } else if op.JumpIOp? {
        r := JumpI();
      } else {
        r := QuietOp(op, data);
      }
    }

    // Ends failed frames until one ends well.
    method Unwind(succ: Flow<()>, ghost o: CtxOutcome<()>) returns (r: Flow<()>)
      requires Did(o, succ)
      modifies this
      ensures Did(Interpreter.Unwind(env, o), r)
    {
      hide Instructions.FinishCall;
      r := succ;
      ghost var at := o;
      while r.Fail?
        invariant Did(at, r)
        invariant Interpreter.Unwind(env, at) == Interpreter.Unwind(env, o)
        decreases |callStack| + 1, r.Fail?
      {
        ghost var c := Model();
        r := FinishCall([], Failure(r.error));
        at := Instructions.FinishCall(env, c, [], Failure(at.error));
      }
    }

    // One iteration of the main loop.
    method Iterate()
      requires Valid() && status.Running?
      modifies this, accessList
      ensures Valid() && Model() == Step(env, old(Model()))
    {
      hide Interpreter.Exec, Interpreter.Unwind;
      ghost var c := Model();
      if !Fetchable(curCall) {
        status := Aborted(TruncatedPush);
        return;
      }
      var op, data := Fetch(curCall), PushedData(curCall);
      var succ := Execute(op, data);
      var r := Unwind(succ, Interpreter.Exec(env, op, data, c));
      if r.Crash? {
        status := Aborted(r.why);
      } else if !EntersCall(op) {
        AdvancePc(PushWidth(op));
      }
    }

    // Runs the transaction to its end, whenever it has one.
    method Run()
      requires Valid() && Ends(env, Model())
      modifies this, accessList
      ensures Valid() && !status.Running?
      ensures exists n: nat :: Model() == Interpreter.Run(env, old(Model()), n)
    {
      hide Step;
      ghost var start := Model();
      ghost var last: nat :| !Interpreter.Run(env, start, last).status.Running?;
      ghost var n: nat := 0;
      RunOfZero(env, start);
      while status.Running?
        invariant Valid() && Model() == Interpreter.Run(env, start, n)
        decreases status.Running?, last - n
      {
        if n >= last {
          StaysStopped(env, start, last, n);
        }
        RunOneMore(env, start, n);
        Iterate();
        n := n + 1;
      }
    }
  }

  // After some number of steps the transaction has ended.
  ghost predicate Ends(e: Env, c: Ctx) {
    exists n: nat :: !Interpreter.Run(e, c, n).status.Running?
  }

  // Executes a transaction that ends from a world.
  method Execute(e: Env, tx: Tx, world: World) returns (status: Status, after: World)
    requires Ends(e, Interpreter.Start(e, tx, world))
    ensures !status.Running?
    ensures exists n: nat ::
      var c := Execution(e, tx, world, n); c.status == status && c.world == after
  {
    hide Interpreter.Start, Interpreter.Run, Ends;
    var ctx := new TxExecContext(e, tx, world);
    ctx.Start(tx);
    ghost var started := ctx.Model();
    ctx.Run();
    status, after := ctx.status, ctx.state;
    ghost var n: nat :| ctx.Model() == Interpreter.Run(e, started, n);
    assert Execution(e, tx, world, n) == ctx.Model();
  }

  lemma {:induction false} StaysStopped(e: Env, c: Ctx, m: nat, n: nat)
    requires m <= n && !Interpreter.Run(e, c, m).status.Running?
    ensures Interpreter.Run(e, c, n) == Interpreter.Run(e, c, m)
    decreases m
  {
    hide Step;
    if m > 0 && c.status.Running? {
      StaysStopped(e, Step(e, c), m - 1, n - 1);
    }
  }

  lemma RunOfZero(e: Env, c: Ctx)
    ensures Interpreter.Run(e, c, 0) == c
  {
  }

  lemma {:induction false} RunOneMore(e: Env, c: Ctx, n: nat)
    requires Interpreter.Run(e, c, n).status.Running?
    ensures Interpreter.Run(e, c, n + 1) == Step(e, Interpreter.Run(e, c, n))
    decreases n
  {
    hide Step;
    if n > 0 && c.status.Running? {
      RunOneMore(e, Step(e, c), n - 1);
    } else {
      assert Interpreter.Run(e, Step(e, c), 0) == Step(e, c);
    }
  }
}
