// Instructions that read or change more than the current frame
// (src/core/exec.rs): the access list, storage, logs and nested calls.
module Instructions {
  import opened Common
  import opened Params
  import opened FlatWorld
  import opened Machine
  import opened CallMemory
  import opened Frames
  import OperandStack
  import PlainCode

  // Nothing outside the current frame, the access list and the refund counter
  // differs; the frame keeps all but its pc, stack, memory and gas.
  ghost predicate Quiet(c: Ctx, d: Ctx) {
    && d == c.(cur := d.cur, access := d.access, refund := d.refund)
    && Local(c.cur.(pc := d.cur.pc), d.cur)
    && c.access.addrs <= d.access.addrs && c.access.slots <= d.access.slots
  }

  // A quiet operation that charges at least cost when it completes, keeps the
  // pc, takes no refund back, fails for good when it fails, and aborts for no
  // reason but those named.
  ghost predicate QuietCharges<T>(c: Ctx, r: CtxOutcome<T>, cost: nat) {
    && Quiet(c, r.state)
    && r.state.cur.pc == c.cur.pc && c.refund <= r.state.refund
    && (r.Ok? ==> r.state.cur.gas + cost <= c.cur.gas)
    && (r.Err? ==> !r.error.RevertedCall?)
    && (r.Panic? ==> r.why == OffsetOverflow || r.why == StackOutOfBounds)
  }

  // ---------- gas and the access list ----------

  function Charge(c: Ctx, gas: nat): (r: CtxOutcome<()>)
    ensures QuietCharges(c, r, gas)
    ensures r.state.access == c.access && r.state.refund == c.refund
    ensures r.Ok? ==> r.state == c.(cur := c.cur.(gas := c.cur.gas - gas))
    ensures r.Ok? <==> gas <= c.cur.gas
    ensures !r.Panic?
  {
    OnFrame(c, UseGas(c.cur, gas))
  }

  // Charges once more for an address not touched before (EIP-2929).
  function WarmAddress(c: Ctx, a: Addr, gas: nat): (r: CtxOutcome<()>)
    ensures QuietCharges(c, r, 0)
    ensures r.Ok? ==> a in r.state.access.addrs
  {
    if a in c.access.addrs then Ok(c, ())
    else Charge(c.(access := c.access.AddAddr(a)), gas)
  }

  // The charge for looking at an account: warm and cold from Berlin on, flat before.
  function AccountAccess(e: Env, c: Ctx, a: Addr, flat: nat): (r: CtxOutcome<()>)
    ensures QuietCharges(c, r, Min(flat, GAS_WARM_STORAGE_READ_COST_BERLIN))
  {
    if e.From(Berlin) then
      var (c, _) :- Charge(c, GAS_WARM_STORAGE_READ_COST_BERLIN);
      WarmAddress(c, a, GAS_COLD_ACCOUNT_ACCESS_COST_BERLIN - GAS_WARM_STORAGE_READ_COST_BERLIN)
    else
      Charge(c, flat)
  }

  // ---------- reading accounts and the block ----------

  function Balance(e: Env, c: Ctx): (r: CtxOutcome<()>)
    ensures QuietCharges(c, r, GAS_BALANCE_FRONTIER)
  {
    var (c, word) :- OnFrame(c, Consume1(c.cur));
    var flat :=
      if e.From(Istanbul) then GAS_BALANCE_ISTANBUL
      else if e.From(TangerineWhistle) then GAS_BALANCE_TANGERINE
      else GAS_BALANCE_FRONTIER;
    var (c, _) :- AccountAccess(e, c, ToAddr(word), flat);
    OnFrame(c, Push(c.cur, c.world.GetBalance(ToAddr(word))))
  }

  function ExtCodeSize(e: Env, c: Ctx): (r: CtxOutcome<()>)
    ensures QuietCharges(c, r, GAS_EXT_CODE_SIZE_FRONTIER)
  {
    hide Consume1, AccountAccess, Push;
    var (c, word) :- OnFrame(c, Consume1(c.cur));
    var flat := if e.From(TangerineWhistle) then GAS_EXT_CODE_SIZE_TANGERINE else GAS_EXT_CODE_SIZE_FRONTIER;
    var (c, _) :- AccountAccess(e, c, ToAddr(word), flat);
    OnFrame(c, Push(c.cur, |c.world.GetCode(ToAddr(word))|))
  }

  function ExtCodeCopy(e: Env, c: Ctx): (r: CtxOutcome<()>)
    ensures QuietCharges(c, r, GAS_EXT_BASE_FRONTIER)
  {
    hide Consume4, AccountAccess, CopyCode;
    var (c, args) :- OnFrame(c, Consume4(c.cur));
    var (word, memOff, codeOff, len) := args;
    var flat := if e.From(TangerineWhistle) then GAS_EXT_BASE_TANGERINE else GAS_EXT_BASE_FRONTIER;
    var (c, _) :- AccountAccess(e, c, ToAddr(word), flat);
    OnFrame(c, CopyCode(c.cur, c.world.GetCode(ToAddr(word)), memOff, codeOff, len))
  }

  // Copies another account's code to memory, for both fees.
  function CopyCode(f: Frame, code: Bytes, memOff: U256, codeOff: U256, len: U256): (r: FrameOutcome<()>)
    ensures Charges(f, r, 0)
  {
    var (f, fee) :- StoreSlice(f, memOff, len, GetData(code, Saturate64(codeOff), len));
    var (f, _) :- UseGas(f, fee);
    PayWords(f, ToWordSize(len), GAS_COPY_WORD)
  }

  function ExtCodeHash(e: Env, c: Ctx): (r: CtxOutcome<()>)
    ensures QuietCharges(c, r, GAS_WARM_STORAGE_READ_COST_BERLIN)
  {
    if !e.From(Constantinople) then Err(c, InvalidOpcode)
    else
      var (c, word) :- OnFrame(c, Consume1(c.cur));
      var flat := if e.From(Istanbul) then GAS_EXT_CODE_HASH_ISTANBUL else GAS_EXT_CODE_HASH_CONSTANTINOPLE;
      var (c, _) :- AccountAccess(e, c, ToAddr(word), flat);
      OnFrame(c, Push(c.cur, e.keccak(c.world.GetCode(ToAddr(word)))))
  }

  function BlockHash(e: Env, c: Ctx): (r: CtxOutcome<()>)
    ensures QuietCharges(c, r, GAS_EXT)
  {
    var (c, _) :- Charge(c, GAS_EXT);
    var (c, number) :- OnFrame(c, Consume1(c.cur));
    var upper := Wrap64(e.number);
    var lower := if upper >= 256 then upper - 256 else 0;
    var hash := if number < TWO_64 && lower <= number < upper then e.blockHash(number) else 0;
    OnFrame(c, Push(c.cur, hash))
  }

  function SelfBalance(e: Env, c: Ctx): (r: CtxOutcome<()>)
    ensures QuietCharges(c, r, GAS_FAST)
  {
    if !e.From(Istanbul) then Err(c, InvalidOpcode)
    else OnFrame(c, PushConst(c.cur, GAS_FAST, c.world.GetBalance(c.cur.callee)))
  }

  function SLoad(e: Env, c: Ctx): (r: CtxOutcome<()>)
    ensures QuietCharges(c, r, GAS_SLOAD_FRONTIER)
  {
    var (c, key) :- OnFrame(c, Consume1(c.cur));
    var cold := (c.cur.callee, key) !in c.access.slots;
    var gas :=
      if e.From(Berlin) then (if cold then GAS_COLD_SLOAD_COST_BERLIN else GAS_WARM_STORAGE_READ_COST_BERLIN)
      else if e.From(Istanbul) then GAS_SLOAD_ISTANBUL
      else if e.From(TangerineWhistle) then GAS_SLOAD_TANGERINE
      else GAS_SLOAD_FRONTIER;
    var c := if e.From(Berlin) && cold then c.(access := c.access.AddSlot(c.cur.callee, key)) else c;
    var (c, _) :- Charge(c, gas);
    OnFrame(c, Push(c.cur, c.world.GetState(c.cur.callee, key)))
  }

  // ---------- jumps: the main loop adds one to the pc afterwards ----------

  function JumpTo(c: Ctx, dest: U256): CtxOutcome<()> {
    if !PlainCode.ValidJumpDest(c.cur.code, dest) then Err(c, InvalidJump)
    else Ok(c.(cur := c.cur.(pc := Wrap64(dest - 1))), ())
  }

  function Jump(c: Ctx): (r: CtxOutcome<()>)
    ensures r.state.refund == c.refund
    ensures Quiet(c, r.state) && (r.Ok? ==> r.state.cur.gas + GAS_MID <= c.cur.gas) && !r.Panic?
  {
    var (c, _) :- Charge(c, GAS_MID);
    var (c, dest) :- OnFrame(c, Consume1(c.cur));
    JumpTo(c, dest)
  }

  function JumpI(c: Ctx): (r: CtxOutcome<()>)
    ensures r.state.refund == c.refund
    ensures Quiet(c, r.state) && (r.Ok? ==> r.state.cur.gas + GAS_SLOW <= c.cur.gas) && !r.Panic?
  {
    var (c, _) :- Charge(c, GAS_SLOW);
    var (c, args) :- OnFrame(c, Consume2(c.cur));
    if args.1 == 0 then Ok(c, ()) else JumpTo(c, args.0)
  }

  // ---------- storage ----------

  function AddRefund(c: Ctx, gas: nat): Ctx { c.(refund := c.refund + gas) }

  function SubRefund(c: Ctx, gas: nat): CtxOutcome<()> {
    if gas > c.refund then Panic(c, RefundBelowZero) else Ok(c.(refund := c.refund - gas), ())
  }

  ghost predicate SStoreGasEffect(c: Ctx, r: CtxOutcome<()>, cost: nat) {
    && Quiet(c, r.state)
    && r.state.cur == c.cur.(gas := r.state.cur.gas)
    && (r.Ok? ==> r.state.cur.gas + cost <= c.cur.gas)
    && (r.Err? ==> !r.error.RevertedCall?)
    && (r.Panic? ==> r.why == RefundBelowZero || (r.why == CalleeNotWarm && c.cur.callee !in c.access.addrs))
  }

  // A slot still at its committed value: set it, clear it or change it.
  function CleanWrite(
    c: Ctx, orig: U256, val: U256, clearing: nat, set_: nat, reset: nat
  ): (r: CtxOutcome<()>)
    ensures SStoreGasEffect(c, r, Min(set_, reset)) && !r.Panic?
  {
    if orig == 0 then Charge(c, set_)
    else Charge(if val == 0 then AddRefund(c, clearing) else c, reset)
  }

  // A slot already changed in this transaction: leaving or reaching zero moves
  // the clearing refund, and reaching the committed value returns what the
  // first change cost above a warm read.
  function DirtyRefund(
    c: Ctx, orig: U256, cur: U256, val: U256, clearing: nat, unset: nat, restore: nat
  ): (r: CtxOutcome<()>)
    ensures r.state == c.(refund := r.state.refund) && !r.Err?
    ensures r.Panic? ==> r.why == RefundBelowZero
  {
    var (c, _) :-
      if orig != 0 && cur == 0 then SubRefund(c, clearing)
      else if orig != 0 && val == 0 then Ok(AddRefund(c, clearing), ())
      else Ok(c, ());
    Ok(if orig != val then c else AddRefund(c, if orig == 0 then unset else restore), ())
  }

  function DirtyWrite(
    c: Ctx, orig: U256, cur: U256, val: U256, clearing: nat, unset: nat, restore: nat, gas: nat
  ): (r: CtxOutcome<()>)
    ensures SStoreGasEffect(c, r, gas) && (r.Panic? ==> r.why == RefundBelowZero)
  {
    var (c, _) :- DirtyRefund(c, orig, cur, val, clearing, unset, restore);
    Charge(c, gas)
  }

  // EIP-2200.
  function SStoreIstanbulGas(e: Env, c: Ctx, key: U256, val: U256): (r: CtxOutcome<()>)
    ensures SStoreGasEffect(c, r, GAS_SLOAD_ISTANBUL) && (r.Panic? ==> r.why == RefundBelowZero)
  {
    if c.cur.gas <= GAS_SSTORE_SENTRY_ISTANBUL then Err(c, OutOfGas)
    else
      var cur := c.world.GetState(c.cur.callee, key);
      var orig := e.committed.GetState(c.cur.callee, key);
      if cur == val then Charge(c, GAS_SLOAD_ISTANBUL)
      else if orig == cur then
        CleanWrite(c, orig, val,
                   GAS_SSTORE_REFUND_ISTANBUL, GAS_SSTORE_SET_ISTANBUL, GAS_SSTORE_RESET_ISTANBUL)
      else
        DirtyWrite(c, orig, cur, val,
                   GAS_SSTORE_REFUND_ISTANBUL,
                   GAS_SSTORE_SET_ISTANBUL - GAS_SLOAD_ISTANBUL,
                   GAS_SSTORE_RESET_ISTANBUL - GAS_SLOAD_ISTANBUL,
                   GAS_SLOAD_ISTANBUL)
  }

  // The surcharge for a slot not touched before, which becomes touched.
  function WarmSlot(c: Ctx, key: U256): (r: CtxOutcome<nat>)
    ensures r.Ok? ==> r.state == c.(access := r.state.access) && c.access.addrs <= r.state.access.addrs
    ensures r.Ok? ==> c.access.slots <= r.state.access.slots
    ensures !r.Ok? ==> r == Panic(c, CalleeNotWarm) && c.cur.callee !in c.access.addrs
  {
    var a := c.cur.callee;
    if (a, key) in c.access.slots then Ok(c, 0)
    else if a !in c.access.addrs then Panic(c, CalleeNotWarm)
    else Ok(c.(access := c.access.AddSlot(a, key)), GAS_COLD_SLOAD_COST_BERLIN)
  }

  // EIP-2929 and EIP-3529: as above with warm and cold slots.
  function SStoreBerlinLondonGas(
    e: Env, c: Ctx, key: U256, val: U256, clearing: nat
  ): (r: CtxOutcome<()>)
    ensures SStoreGasEffect(c, r, GAS_WARM_STORAGE_READ_COST_BERLIN)
  {
    if c.cur.gas <= GAS_SSTORE_SENTRY_ISTANBUL then Err(c, OutOfGas)
    else
      var (c, cost) :- WarmSlot(c, key);
      var cur := c.world.GetState(c.cur.callee, key);
      var orig := e.committed.GetState(c.cur.callee, key);
      var warm := cost + GAS_WARM_STORAGE_READ_COST_BERLIN;
      if cur == val then Charge(c, warm)
      else if orig == cur then
        CleanWrite(c, orig, val, clearing,
                   cost + GAS_SSTORE_SET_ISTANBUL,
                   cost + (GAS_SSTORE_RESET_ISTANBUL - GAS_COLD_SLOAD_COST_BERLIN))
      else
        DirtyWrite(c, orig, cur, val, clearing,
                   GAS_SSTORE_SET_ISTANBUL - GAS_WARM_STORAGE_READ_COST_BERLIN,
                   GAS_SSTORE_RESET_ISTANBUL - GAS_COLD_SLOAD_COST_BERLIN - GAS_WARM_STORAGE_READ_COST_BERLIN,
                   warm)
  }

  // From Constantinople (EIP-1283 removed) to Istanbul; earlier forks charge nothing.
  function SStoreLegacyGas(e: Env, c: Ctx, key: U256, val: U256): (r: CtxOutcome<()>)
    ensures SStoreGasEffect(c, r, 0) && !r.Panic?
  {
    if !e.From(Constantinople) then Ok(c, ())
    else
      var cur := c.world.GetState(c.cur.callee, key);
      if cur == 0 && val != 0 then Charge(c, GAS_SSTORE_SET)
      else if cur != 0 && val == 0 then Charge(AddRefund(c, GAS_SSTORE_REFUND), GAS_SSTORE_CLEAR)
      else Charge(c, GAS_SSTORE_RESET)
  }

  function ClearingRefund(e: Env): nat {
    if e.From(London) then GAS_SSTORE_REFUND_LONDON else GAS_SSTORE_REFUND_ISTANBUL
  }

  function SStoreGas(e: Env, c: Ctx, key: U256, val: U256): (r: CtxOutcome<()>)
    ensures SStoreGasEffect(c, r, 0)
    ensures r.Panic? && r.why.CalleeNotWarm? ==> e.From(Berlin)
  {
    if e.From(Berlin) then SStoreBerlinLondonGas(e, c, key, val, ClearingRefund(e))
    else if e.From(Istanbul) then SStoreIstanbulGas(e, c, key, val)
    else SStoreLegacyGas(e, c, key, val)
  }

  // The write of a completed SSTORE, after its gas is settled.
  function StoreSlot(c: Ctx, key: U256, val: U256): Ctx {
    var a := c.cur.callee;
    c.(world := c.world.SetState(a, key, val), dirty := c.dirty + {a})
  }

  function WriteSlot(e: Env, c: Ctx, key: U256, val: U256): CtxOutcome<()> {
    var (c, _) :- SStoreGas(e, c, key, val);
    Ok(StoreSlot(c, key, val), ())
  }

  function SStore(e: Env, c: Ctx): CtxOutcome<()> {
    if c.cur.readOnly then Err(c, WriteProtection)
    else
      var (c, args) :- OnFrame(c, Consume2(c.cur));
      WriteSlot(e, c, args.0, args.1)
  }

  // ---------- logs ----------

  // The charges of LOGn, and the record it will append.
  function LogRecord(e: Env, c: Ctx, num: nat): (r: CtxOutcome<(LogItem, nat)>)
    ensures QuietCharges(c, r, GAS_LOG)
  {
    hide LogCharges, ConsumeMany, Slice;
    var (c, args) :- LogCharges(c, num);
    var (c, topics) :- OnFrame(c, ConsumeMany(c.cur, num));
    var (c, data) :- OnFrame(c, Slice(c.cur, args.0, args.1));
    Ok(c, (LogItem(c.cur.callee, topics, data.0, e.number), data.1))
  }

  // The charges for the record, its topics and its bytes, whose offset and number
  // come from the stack.
  function LogCharges(c: Ctx, num: nat): (r: CtxOutcome<(U256, U64)>)
    ensures QuietCharges(c, r, GAS_LOG)
  {
    var (c, _) :- Charge(c, GAS_LOG);
    var (c, _) :- Charge(c, num * GAS_LOG_TOPIC);
    var (c, args) :- OnFrame(c, Consume2(c.cur));
    if args.1 >= TWO_64 then Err(c, MemoryExhausted)
    else
      var (c, gas) :- OnFrame(c, CheckedMul(c.cur, args.1, GAS_LOG_DATA));
      var (c, _) :- Charge(c, gas);
      Ok(c, args)
  }

  function Log(e: Env, c: Ctx, num: nat): CtxOutcome<()> {
    if c.cur.readOnly then Err(c, WriteProtection)
    else
      var (c, item) :- LogRecord(e, c, num);
      Charge(c.(world := c.world.AddLog(item.0)), item.1)
  }

  // ---------- entering and leaving frames ----------

  function AdvancePc(c: Ctx, skip: nat): Ctx {
    c.(cur := c.cur.(pc := Wrap64(c.cur.pc + skip + 1)))
  }

  function NewFrame(
    code: Bytes, input: Bytes, value: U256, callee: Addr, caller: Addr,
    callType: CallType, gas: U64, readOnly: bool
  ): Frame {
    Frame(0, CallMemory.EMPTY, OperandStack.Empty(), code, callee, caller, callType, input, value, [], gas, readOnly)
  }

  function CallPush(
    c: Ctx, code: Bytes, input: Bytes, value: U256, callee: Addr, caller: Addr,
    callType: CallType, gas: U64, readOnly: bool
  ): Ctx {
    c.(
      callStack := c.callStack + [c.cur],
      cur := NewFrame(code, input, value, callee, caller, callType, gas, c.cur.readOnly || readOnly))
  }

  function CallPop(c: Ctx): Ctx
    requires c.callStack != []
  {
    var n := |c.callStack| - 1;
    c.(callStack := c.callStack[..n], cur := c.callStack[n])
  }

  // A frame that got back control keeps all but its stack, memory, gas and
  // returned data.
  ghost predicate Resumed(f: Frame, g: Frame) {
    g == f.(stack := g.stack, memory := g.memory, gas := g.gas, lastReturned := g.lastReturned)
  }

  // Returns a nested call's result to the current frame.
  function CallEnd(
    c: Ctx, snapshot: Option<World>, retOff: U256, retLen: U256,
    data: Bytes, unused: U64, verdict: Verdict
  ): (r: CtxOutcome<()>)
    ensures r.state == c.(world := RolledBack(c.world, snapshot, verdict), cur := r.state.cur)
    ensures Resumed(c.cur, r.state.cur) && r.state.cur.gas <= c.cur.gas + unused
    ensures r.Panic? ==> r.why == OffsetOverflow
  {
    hide TakeBack;
    OnFrame(
      c.(world := RolledBack(c.world, snapshot, verdict)),
      TakeBack(c.cur, retOff, retLen, data, unused, verdict))
  }

  // What a nested call gives back: data and gas unless it failed for good, and
  // whether it succeeded.
  function TakeBack(
    f: Frame, retOff: U256, retLen: U256, data: Bytes, unused: U64, verdict: Verdict
  ): (r: FrameOutcome<()>)
    ensures Resumed(f, r.state) && r.state.gas <= f.gas + unused
    ensures r.Panic? ==> r.why == OffsetOverflow
  {
    var keepsGas := verdict.Success? || verdict.error.RevertedCall?;
    var (f, _) :- if keepsGas then FromMemory(f, CopyIn(f.memory, retOff, retLen, data)) else Ok(f, 0);
    var f := f.(gas := Wrap64(f.gas + if keepsGas then unused else 0));
    var (f, _) :- Push(f, if verdict.Failure? then 0 else 1);
    Ok(f.(lastReturned := data), ())
  }

  function RolledBack(w: World, snapshot: Option<World>, verdict: Verdict): World {
    if verdict.Failure? && snapshot.Some? then snapshot.value else w
  }

  // Stores the code a creation returned. A failed creation that did not revert
  // takes the gas of the frame it returns to.
  function CreatePostProcessing(
    e: Env, c: Ctx, a: Addr, data: Bytes, verdict: Verdict
  ): (r: CtxOutcome<()>)
    ensures r.state == c.(world := r.state.world, dirty := r.state.dirty, cur := c.cur.(gas := r.state.cur.gas))
    ensures r.state.cur.gas <= c.cur.gas && !r.Panic?
    ensures r.state.world == if verdict.Success? && r.Ok? then c.world.SetCode(a, data) else c.world
    ensures c.dirty <= r.state.dirty
  {
    match verdict
    case Failure(error) =>
      if error.RevertedCall? then Ok(c, ()) else Ok(c.(cur := c.cur.(gas := 0)), ())
    case Success =>
      if e.From(SpuriousDragon) && |data| > MAX_CODE_SIZE then Err(c, MaxCodeSizeExceeded)
      else if e.From(London) && |data| >= 1 && data[0] == 0xef then Err(c, InvalidCode)
      else
        var (c, gas) :- OnFrame(c, CheckedMul(c.cur, |data|, GAS_CREATE_DATA));
        if c.cur.gas < gas then Err(c, CodeStoreOutOfGas)
        else
          var c := c.(cur := c.cur.(gas := c.cur.gas - gas));
          Ok(c.(world := c.world.SetCode(a, data), dirty := c.dirty + {a}), ())
  }

  function CreateEnd(
    e: Env, c: Ctx, snapshot: World, a: Addr, data: Bytes, unused: U64, verdict: Verdict
  ): (r: CtxOutcome<()>)
    ensures r.state == c.(world := r.state.world, dirty := r.state.dirty, cur := r.state.cur)
    ensures Resumed(c.cur, r.state.cur) && r.state.cur.gas <= c.cur.gas + unused && !r.Panic?
    ensures verdict.Failure? ==> r.state.world == snapshot
    ensures verdict.Success? ==> r.state.world == c.world || r.state.world == c.world.SetCode(a, data)
  {
    hide CreatePostProcessing, TakeBackCreated;
    var c := if verdict.Failure? then c.(world := snapshot) else c;
    var r := CreatePostProcessing(e, c, a, data, verdict);
    var word, last := if r.Ok? then a else 0, if r.Err? && r.error.RevertedCall? then data else [];
    OnFrame(r.state, TakeBackCreated(r.state.cur, unused, word, last))
  }

  // The creator's frame after a creation: gas, the address or zero, return data.
  function TakeBackCreated(f: Frame, unused: U64, word: U256, last: Bytes): (r: FrameOutcome<()>)
    ensures Resumed(f, r.state) && r.state.gas <= f.gas + unused && !r.Panic?
  {
    var (f, _) :- Push(f.(gas := Wrap64(f.gas + unused)), word);
    Ok(f.(lastReturned := last), ())
  }

  // Ends the transaction: deletes touched empty accounts and destroyed ones,
  // then keeps or rolls back the world.
  function TxEnd(
    e: Env, c: Ctx, snapshot: World, aux: TxAux, data: Bytes, unused: U64, verdict: Verdict
  ): (r: CtxOutcome<()>)
    ensures r.state.callStack == c.callStack && !r.Err?
    ensures r.Panic? <==> c.callStack != [] || !c.status.Running?
    ensures r.Panic? ==> r.why == if c.callStack != [] then FramesLeftAtEnd else EndedTwice
    ensures r.Ok? ==> r.state.status.Finished?
    ensures r.Ok? && r.state.status.result.Reverted? ==> r.state.world == snapshot
  {
    hide CreatePostProcessing;
    if c.callStack != [] then Panic(c, FramesLeftAtEnd)
    else
      var (c, verdict, created) := match aux
        case Contract(a) =>
          var r := CreatePostProcessing(e, c, a, data, verdict);
          (r.state, if r.Err? then Failure(r.error) else Success, Some(a))
        case Sender(a) => (c.(dirty := c.dirty + {a}), verdict, None);
      if !c.status.Running? then Panic(c, EndedTwice)
      else
        var swept := EndedWorld(e, c);
        Ok(c.(
            dirty := {},
            destroyed := {},
            world := if verdict.Failure? then snapshot else swept,
            status := Finished(
              if verdict.Failure? then Reverted(data, unused, verdict.error)
              else Succeeded(data, unused, created))), ())
  }

  // From Spurious Dragon on (EIP-158) touched accounts that are empty go too.
  function EndedWorld(e: Env, c: Ctx): World {
    c.world.DeleteAccounts(Emptied(e, c.world, c.dirty)).DeleteAccounts(c.destroyed)
  }

  function Emptied(e: Env, w: World, touched: set<Addr>): set<Addr> {
    if e.From(SpuriousDragon) then set a | a in touched && e.IsEmpty(w, a) else {}
  }

  function FinishCall(e: Env, c: Ctx, data: Bytes, verdict: Verdict): (r: CtxOutcome<()>)
    ensures c.callStack != [] ==> r.state.callStack == c.callStack[..|c.callStack| - 1]
    ensures c.callStack == [] ==> r == Panic(c, NoFrameToPop)
    ensures r.Panic? && r.why == NoFrameToPop ==> c.callStack == []
  {
    hide CallEnd, CreateEnd, TxEnd;
    if c.callStack == [] then Panic(c, NoFrameToPop)
    else
      var d := CallPop(c);
      match c.cur.callType
      case TxCall(snapshot, aux) => TxEnd(e, d, snapshot, aux, data, c.cur.gas, verdict)
      case CreateCall(snapshot, a) => CreateEnd(e, d, snapshot, a, data, c.cur.gas, verdict)
      case SubCall(snapshot, retOff, retLen) => CallEnd(d, snapshot, retOff, retLen, data, c.cur.gas, verdict)
  }

  // A call that needs no frame of its own returns to the current one at once.
  function ReturnWithoutFrame(
    e: Env, c: Ctx, callType: CallType, data: Bytes, gas: U64, verdict: Verdict
  ): CtxOutcome<()> {
    match callType
    case TxCall(snapshot, aux) => TxEnd(e, c, snapshot, aux, data, gas, verdict)
    case SubCall(snapshot, retOff, retLen) =>
      (match CallEnd(c, snapshot, retOff, retLen, data, gas, verdict)
       case Ok(d, v) => Ok(AdvancePc(d, 0), v)
       case Err(d, error) => Err(AdvancePc(d, 0), error)
       case Panic(d, why) => Panic(d, why))
    case CreateCall(_, _) => Panic(c, CreateWithoutFrame)
  }

  // ---------- calls ----------

  // Runs a precompiled contract at a, or else goes on with the code of another account.
  function CallTarget(
    e: Env, c: Ctx, precompile: Addr, codeAt: Addr, callee: Addr, caller: Addr,
    input: Bytes, value: U256, gas: U64, callType: CallType, readOnly: bool
  ): CtxOutcome<()> {
    if precompile in e.precompiled then
      var result := e.precompiled[precompile](input);
      ReturnWithoutFrame(e, c, callType, result.data, gas, result.verdict)
    else
      Ok(CallPush(c, c.world.GetCode(codeAt), input, value, callee, caller, callType, gas, readOnly), ())
  }

  function Call_(
    e: Env, c: Ctx, callee: Addr, caller: Addr, input: Bytes, gas: U64, value: U256, callType: CallType
  ): CtxOutcome<()> {
    if |c.callStack| == MAX_CALL_DEPTH then Err(c, Depth)
    else if c.world.GetBalance(caller) < value then Err(c, InsufficientBalance)
    else
      var c := c.(dirty := c.dirty + {caller, callee});
      var blank := !c.world.Exist(callee);
      if blank && callee !in e.precompiled && e.From(SpuriousDragon) && value == 0 then
        ReturnWithoutFrame(e, c, callType, [], gas, Success)
      else
        var w := if blank then c.world.CreateAccount(callee) else c.world;
        match w.Transfer(caller, callee, value)
        case None => Panic(c, TransferFailed)
        case Some(w) =>
          var c := c.(world := w);
          if callee !in e.precompiled && w.GetCode(callee) == [] then
            ReturnWithoutFrame(e, c, callType, [], gas, Success)
          else
            CallTarget(e, c, callee, callee, callee, caller, input, value, gas, callType, false)
  }

  // What a call instruction asks for after it has been paid for.
  datatype CallRequest = CallRequest(
    gas: U64, addr: Addr, value: U256, input: Bytes, retOff: U256, retLen: U256)

  // The gas a call may take along: all but one 64th from Tangerine Whistle on (EIP-150).
  function GasCallCommon(e: Env, c: Ctx, asked: U256): (r: CtxOutcome<U64>)
    ensures QuietCharges(c, r, 0)
    ensures r.Ok? ==> r.state == c
  {
    var most := c.cur.gas - c.cur.gas / 64;
    if e.From(TangerineWhistle) && (asked >= TWO_64 || most < asked) then Ok(c, most)
    else if asked >= TWO_64 then Err(c, GasIntOverflow)
    else Ok(c, asked)
  }

  datatype CallKind = PlainCall | CallCode | DelegateCall | StaticCall

  function ChargeIf(c: Ctx, due: bool, gas: nat): (r: CtxOutcome<()>)
    ensures QuietCharges(c, r, 0)
  {
    if due then Charge(c, gas) else Ok(c, ())
  }

  // The surcharges before a call: a cold address, a transferred value, an
  // account that the transfer brings to life, and memory.
  function CallSurcharges(
    e: Env, c: Ctx, kind: CallKind, val: U256, addr: Addr, memGas: nat
  ): (r: CtxOutcome<()>)
    ensures QuietCharges(c, r, 0)
    ensures r.Ok? && e.From(Berlin) ==> addr in r.state.access.addrs
  {
    var (c, _) :-
      if e.From(Berlin) then
        WarmAddress(c, addr, GAS_COLD_ACCOUNT_ACCESS_COST_BERLIN - GAS_WARM_STORAGE_READ_COST_BERLIN)
      else Ok(c, ());
    var revives := kind.PlainCall? && val != 0 && e.From(SpuriousDragon) && e.IsEmpty(c.world, addr);
    var (c, _) :- ChargeIf(c, revives, GAS_CALL_NEW_ACCOUNT);
    var (c, _) :- ChargeIf(c, HasValue(kind) && val != 0, GAS_CALL_VALUE_TRANS);
    Charge(c, memGas)
  }

  // The charges before a call and the gas handed to it, which leaves the frame.
  function UseGasCall(
    e: Env, c: Ctx, kind: CallKind, val: U256, addr: Addr, asked: U256, memGas: nat
  ): (r: CtxOutcome<U64>)
    ensures QuietCharges(c, r, 0)
    ensures r.Ok? ==> r.state.cur.gas + r.value <= c.cur.gas
    ensures r.Ok? && e.From(Berlin) ==> addr in r.state.access.addrs
  {
    var (c, _) :- CallSurcharges(e, c, kind, val, addr, memGas);
    var (c, quota) :- GasCallCommon(e, c, asked);
    var (c, _) :- Charge(c, quota);
    Ok(c, quota)
  }

  function CallBaseFee(e: Env): nat {
    if e.From(Berlin) then GAS_WARM_STORAGE_READ_COST_BERLIN
    else if e.From(TangerineWhistle) then GAS_CALL_TANGERINE
    else GAS_CALL_FRONTIER
  }

  datatype CallArgs = CallArgs(
    asked: U256, addr: Addr, value: U256, input: Bytes, memGas: nat, retOff: U256, retLen: U256)

  // Gas, address, and the value for the kinds that take one.
  function PopCallHead(f: Frame, kind: CallKind): (r: FrameOutcome<(U256, U256, U256)>)
    ensures Charges(f, r, 0)
    ensures r.Ok? && HasValue(kind) ==> f.stack.top >= 3 && r.value.2 == Below(f, 3)
  {
    if HasValue(kind) then Consume3(f)
    else
      var (f, two) :- Consume2(f);
      Ok(f, (two.0, two.1, 0))
  }

  // The input slice and the place for the returned data.
  function PopCallTail(f: Frame): (r: FrameOutcome<((Bytes, nat), (U256, U256))>)
    ensures Charges(f, r, 0)
  {
    var (f, inArgs) :- Consume2(f);
    var (f, retArgs) :- Consume2(f);
    var (f, input) :- Slice(f, inArgs.0, inArgs.1);
    Ok(f, (input, retArgs))
  }

  // Charges the base fee and pops the arguments of a call instruction.
  function PopCallArgs(f: Frame, kind: CallKind, fee: nat): (r: FrameOutcome<CallArgs>)
    ensures Charges(f, r, fee)
    ensures r.Ok? && HasValue(kind) ==> f.stack.top >= 3 && r.value.value == Below(f, 3)
  {
    var (f, _) :- UseGas(f, fee);
    var (f, head) :- PopCallHead(f, kind);
    var (f, tail) :- PopCallTail(f);
    Ok(f, CallArgs(head.0, ToAddr(head.1), head.2, tail.0.0, tail.0.1, tail.1.0, tail.1.1))
  }

  // A plain call or CALLCODE with zero value gets the stipend on top of the
  // gas it paid for.
  function FundCall(e: Env, c: Ctx, kind: CallKind, args: CallArgs): (r: CtxOutcome<CallRequest>)
    ensures QuietCharges(c, r, 0)
    ensures r.Ok? ==> r.state.cur.gas + r.value.gas <= c.cur.gas + Stipend(kind, args.value)
    ensures r.Ok? && e.From(Berlin) ==> r.value.addr in r.state.access.addrs
    ensures r.Ok? ==> r.value.value == args.value
  {
    hide UseGasCall;
    var (c, quota) :- UseGasCall(e, c, kind, args.value, args.addr, args.asked, args.memGas);
    Ok(c, CallRequest(
        Wrap64(quota + Stipend(kind, args.value)),
        args.addr, args.value, args.input, args.retOff, args.retLen))
  }

  function Stipend(kind: CallKind, val: U256): nat {
    if HasValue(kind) && val == 0 then GAS_CALL_STIPEND else 0
  }

  // The arguments of a call instruction, after its base fee.
  function AskedCall(e: Env, c: Ctx, kind: CallKind): (r: CtxOutcome<CallArgs>)
    ensures QuietCharges(c, r, CallBaseFee(e))
    ensures r.Ok? && HasValue(kind) ==> c.cur.stack.top >= 3 && r.value.value == Below(c.cur, 3)
  {
    hide PopCallArgs, Below;
    OnFrame(c, PopCallArgs(c.cur, kind, CallBaseFee(e)))
  }

  // Everything a call instruction does before its target is chosen.
  function PrepareCall(e: Env, c: Ctx, kind: CallKind): (r: CtxOutcome<CallRequest>)
    ensures QuietCharges(c, r, 0)
    ensures r.Ok? ==>
      r.state.cur.gas + r.value.gas + CallBaseFee(e) <= c.cur.gas + Stipend(kind, r.value.value)
    ensures r.Ok? && e.From(Berlin) ==> r.value.addr in r.state.access.addrs
    ensures r.Ok? && kind.PlainCall? && c.cur.readOnly ==> r.value.value == 0
    ensures r.Ok? && HasValue(kind) ==> c.cur.stack.top >= 3 && r.value.value == Below(c.cur, 3)
  {
    var (c, args) :- AskedCall(e, c, kind);
    if kind.PlainCall? && c.cur.readOnly && args.value != 0 then Err(c, WriteProtection)
    else FundCall(e, c, kind, args)
  }

  predicate HasValue(kind: CallKind) { kind.PlainCall? || kind.CallCode? }

  function CallBegin(e: Env, c: Ctx): CtxOutcome<()> {
    var (c, q) :- PrepareCall(e, c, PlainCall);
    Call_(e, c, q.addr, c.cur.callee, q.input, q.gas, q.value, SubCall(Some(c.world), q.retOff, q.retLen))
  }

  function DelegateCallBegin(e: Env, c: Ctx): CtxOutcome<()> {
    if !e.From(Homestead) then Err(c, InvalidOpcode)
    else if |c.callStack| == MAX_CALL_DEPTH then Err(c, Depth)
    else
      var (c, q) :- PrepareCall(e, c, DelegateCall);
      var f := c.cur;
      CallTarget(e, c, f.callee, q.addr, f.callee, f.caller, q.input, f.value, q.gas,
                 SubCall(Some(c.world), q.retOff, q.retLen), false)
  }

  function CallCodeBegin(e: Env, c: Ctx): CtxOutcome<()> {
    if |c.callStack| == MAX_CALL_DEPTH then Err(c, Depth)
    else
      var (c, q) :- PrepareCall(e, c, CallCode);
      var self := c.cur.callee;
      if c.world.GetBalance(self) < q.value then Err(c, InsufficientBalance)
      else
        CallTarget(e, c, self, q.addr, self, self, q.input, q.value, q.gas,
                   SubCall(Some(c.world), q.retOff, q.retLen), false)
  }

  function StaticCallBegin(e: Env, c: Ctx): CtxOutcome<()> {
    if !e.From(Byzantium) then Err(c, InvalidOpcode)
    else if |c.callStack| == MAX_CALL_DEPTH then Err(c, Depth)
    else
      var (c, q) :- PrepareCall(e, c, StaticCall);
      CallTarget(e, c, q.addr, q.addr, q.addr, c.cur.callee, q.input, 0, q.gas,
                 SubCall(None, q.retOff, q.retLen), true)
  }

  // ---------- creations ----------

  function Create_(
    e: Env, c: Ctx, a: Addr, caller: Addr, code: Bytes, value: U256, gas: U64, callType: CallType
  ): CtxOutcome<()> {
    if c.world.GetBalance(caller) < value then Err(c, InsufficientBalance)
    else if c.world.GetNonce(caller) + 1 >= TWO_64 then Err(c, NonceIntOverflow)
    else
      var oldCode, oldNonce := c.world.GetCode(a), c.world.GetNonce(a);
      var c := c.(world := c.world.SetNonce(caller, c.world.GetNonce(caller) + 1));
      var c := if e.From(Berlin) then c.(access := c.access.AddAddr(a)) else c;
      var hash := e.keccak(oldCode);
      if oldNonce != 0 || (hash != 0 && hash != e.keccak([])) then Err(c, ContractAddrCollision)
      else
        match Endow(e, c.world, a, caller, value)
        case None => Panic(c, TransferFailed)
        case Some(w) =>
          var c := c.(world := w, dirty := c.dirty + {a, caller});
          Ok(CallPush(c, code, [], value, a, caller, callType, gas, false), ())
  }

  // A new account with the value transferred to it.
  function Endow(e: Env, w: World, a: Addr, caller: Addr, value: U256): Option<World> {
    var w := w.CreateAccount(a);
    var w := if e.From(SpuriousDragon) then w.SetNonce(a, 1) else w;
    w.Transfer(caller, a, value)
  }

  // What a creation instruction asks for after it has been paid for.
  datatype CreateRequest = CreateRequest(value: U256, code: Bytes, salt: U256, gas: U64)

  // Value, offset and length, and for CREATE2 the salt.
  function CreateArgs(c: Ctx, salted: bool): (r: CtxOutcome<(U256, U256, U256, U256)>)
    ensures QuietCharges(c, r, 0)
  {
    if salted then OnFrame(c, Consume4(c.cur))
    else
      var (c, args) :- OnFrame(c, Consume3(c.cur));
      Ok(c, (args.0, args.1, args.2, 0))
  }

  function HashingFee(c: Ctx, len: U64): (r: CtxOutcome<()>)
    ensures QuietCharges(c, r, 0)
  {
    var (c, gas) :- OnFrame(c, CheckedMul(c.cur, ToWordSize(len), GAS_SHA3_WORD));
    Charge(c, gas)
  }

  // The rest of CREATE and CREATE2 before the new frame: arguments, fees, and
  // the gas handed over.
  function PrepareCreate(e: Env, c: Ctx, salted: bool): (r: CtxOutcome<CreateRequest>)
    ensures QuietCharges(c, r, 0)
    ensures r.Ok? ==> r.state.cur.gas + r.value.gas <= c.cur.gas
  {
    hide CreateArgs, CreateInput, HandOver;
    var (c, args) :- CreateArgs(c, salted);
    var (c, input) :- CreateInput(c, args.1, args.2, salted);
    var (c, quota) :- HandOver(c, salted || e.From(TangerineWhistle));
    Ok(c, CreateRequest(args.0, input, args.3, quota))
  }

  // Charges for the code of a new contract and reads it from memory.
  function CreateInput(c: Ctx, off: U256, len: U256, salted: bool): (r: CtxOutcome<Bytes>)
    ensures QuietCharges(c, r, 0)
  {
    hide HashingFee, Slice, Charge;
    var (c, input) :- OnFrame(c, Slice(c.cur, off, len));
    var (c, _) :- Charge(c, input.1);
    var (c, _) :- if salted then HashingFee(c, len) else Ok(c, ());
    Ok(c, input.0)
  }

  // The gas a creation takes along; the frame always has it.
  function HandOver(c: Ctx, keepsSome: bool): (r: CtxOutcome<U64>)
    ensures QuietCharges(c, r, 0)
    ensures r.Ok? ==> r.state.cur.gas + r.value <= c.cur.gas
  {
    var gas := c.cur.gas;
    var quota := if keepsSome then gas - gas / 64 else gas;
    Ok(Charge(c, quota).state, quota)
  }

  function CreateBegin(e: Env, c: Ctx): CtxOutcome<()> {
    var (c, _) :- Charge(c, GAS_CREATE);
    if c.cur.readOnly then Err(c, WriteProtection)
    else if |c.callStack| == MAX_CALL_DEPTH then Err(c, Depth)
    else
      var (c, q) :- PrepareCreate(e, c, false);
      var caller := c.cur.callee;
      var a := e.createAddr(caller, c.world.GetNonce(caller));
      Create_(e, c, a, caller, q.code, q.value, q.gas, CreateCall(c.world, a))
  }

  function Create2Begin(e: Env, c: Ctx): CtxOutcome<()> {
    if !e.From(Constantinople) then Err(c, InvalidOpcode)
    else if c.cur.readOnly then Err(c, WriteProtection)
    else if |c.callStack| == MAX_CALL_DEPTH then Err(c, Depth)
    else
      var (c, _) :- Charge(c, GAS_CREATE2);
      var (c, q) :- PrepareCreate(e, c, true);
      var caller := c.cur.callee;
      var a := e.createAddr2(caller, q.salt, q.code);
      Create_(e, c, a, caller, q.code, q.value, q.gas, CreateCall(c.world, a))
  }

  // ---------- ends of a frame ----------

  // The data a RETURN or REVERT hands back, paid for.
  function ReturnData(c: Ctx): (r: CtxOutcome<Bytes>)
    ensures QuietCharges(c, r, 0)
  {
    var (c, args) :- OnFrame(c, Consume2(c.cur));
    var (c, data) :- OnFrame(c, Slice(c.cur, args.0, args.1));
    var (c, _) :- Charge(c, data.1);
    Ok(c, data.0)
  }

  function Return(e: Env, c: Ctx): CtxOutcome<()> {
    var (c, data) :- ReturnData(c);
    FinishCall(e, c, data, Success)
  }

  function Revert(e: Env, c: Ctx): CtxOutcome<()> {
    if !e.From(Byzantium) then Err(c, InvalidOpcode)
    else
      var (c, data) :- ReturnData(c);
      FinishCall(e, c, data, Failure(RevertedCall))
  }

  predicate BringsToLife(e: Env, w: World, self: Addr, heir: Addr) {
    if e.From(SpuriousDragon) then e.IsEmpty(w, heir) && w.GetBalance(self) != 0 else !w.Exist(heir)
  }

  // The charges of SELFDESTRUCT, and its beneficiary.
  function PrepareSelfDestruct(e: Env, c: Ctx): (r: CtxOutcome<Addr>)
    ensures QuietCharges(c, r, 0)
  {
    var (c, word) :- OnFrame(c, Consume1(c.cur));
    var heir := ToAddr(word);
    var (c, _) :-
      if e.From(Berlin) then WarmAddress(c, heir, GAS_COLD_ACCOUNT_ACCESS_COST_BERLIN) else Ok(c, ());
    var (c, _) :- if e.From(TangerineWhistle) then SelfDestructCharges(e, c, heir) else Ok(c, ());
    Ok(c, heir)
  }

  // The charges from Tangerine Whistle on (EIP-150), and the refund before London.
  function SelfDestructCharges(e: Env, c: Ctx, heir: Addr): (r: CtxOutcome<()>)
    ensures QuietCharges(c, r, GAS_SELF_DESTRUCT)
  {
    var (c, _) :- Charge(c, GAS_SELF_DESTRUCT);
    var (c, _) :- ChargeIf(c, BringsToLife(e, c.world, c.cur.callee, heir), GAS_CREATE_BY_SELF_DESTRUCT);
    var refunds := !e.From(London) && c.cur.callee !in c.destroyed;
    Ok(if refunds then AddRefund(c, GAS_SELF_DESTRUCT_REFUND) else c, ())
  }

  // Moves the whole balance to the heir and empties the account; when both are
  // the same account the balance is gone.
  function Bequeath(c: Ctx, heir: Addr): Ctx {
    var self := c.cur.callee;
    var w := c.world.AddBalance(heir, c.world.GetBalance(self)).GetOr(c.world);
    c.(
      world := w.SetBalance(self, 0),
      destroyed := c.destroyed + {self},
      dirty := c.dirty + {self, heir})
  }

  function SelfDestruct(e: Env, c: Ctx): CtxOutcome<()> {
    if c.cur.readOnly then Err(c, WriteProtection)
    else
      var (c, heir) :- PrepareSelfDestruct(e, c);
      FinishCall(e, Bequeath(c, heir), [], Success)
  }
}
