// The world operations of an execution as a run over a tree of states: whatever
// the interpreter writes, snapshots and rolls back on the flat store, a tree of
// versioned states given the same operations answers every getter alike.
module WorldTrace {
  import opened Common
  import opened Params
  import opened FlatWorld
  import opened Machine
  import opened Frames
  import opened Instructions
  import opened Interpreter
  import opened CallStack
  import MemState
  import StateTree

  // ---------- operations and where the snapshots are ----------

  // The operations so far, on the states held by position; how many states there
  // are; and where the snapshots that frames hold are, oldest first. State 0 is
  // the one the interpreter works on.
  datatype Trace = Trace(ops: seq<StateTree.Op>, size: nat, at: seq<nat>) {
    function Note(w: StateTree.Write): Trace { this.(ops := ops + [StateTree.WriteTo(0, w)]) }

    function Snap(): Trace { Trace(ops + [StateTree.TakeSnapshot(0)], size + 1, at + [size]) }

    // The newest snapshot is no longer held.
    function Forget(): Trace { if at == [] then this else this.(at := at[..|at| - 1]) }

    // Back to the newest snapshot, which is then no longer held.
    function Back(): Trace {
      if at == [] then this else Forget().(ops := ops + [StateTree.RollBack(0, at[|at| - 1])])
    }
  }

  // The snapshot a frame holds, if any.
  function Snaps(callType: CallType): seq<World> {
    match callType
    case TxCall(s, _) => [s]
    case CreateCall(s, _) => [s]
    case SubCall(s, _, _) => if s.Some? then [s.value] else []
  }

  // The snapshots of the stored frames above the placeholder, oldest first.
  function HeldBelow(frames: seq<Frame>): seq<World> {
    if |frames| <= 1 then []
    else HeldBelow(frames[..|frames| - 1]) + Snaps(frames[|frames| - 1].callType)
  }

  // The snapshots of all frames above the placeholder.
  function Held(c: Ctx): seq<World> {
    if c.callStack == [] then [] else HeldBelow(c.callStack) + Snaps(c.cur.callType)
  }

  // ---------- the operations of one step ----------

  // When a call comes back: to the snapshot it was made with, or on with the
  // world as it is.
  function LeaveTrace(t: Trace, callType: CallType, verdict: Verdict): Trace {
    if Snaps(callType) == [] then t else if verdict.Failure? then t.Back() else t.Forget()
  }

  function FinishTrace(e: Env, c: Ctx, t: Trace, data: Bytes, verdict: Verdict): Trace {
    if c.callStack == [] then t
    else
      var left := LeaveTrace(t, c.cur.callType, verdict);
      if c.cur.callType.CreateCall? && verdict.Success? then
        var a := c.cur.callType.contractAddr;
        if CreatePostProcessing(e, CallPop(c), a, data, verdict).Ok? then left.Note(StateTree.CodeOf(a, data))
        else left
      else left
  }

  function TransferTrace(w: World, t: Trace, from: Addr, to: Addr, val: U256): Trace {
    match w.SubBalance(from, val)
    case None => t
    case Some(v) =>
      var paid := t.Note(StateTree.BalanceOf(from, w.GetBalance(from) - val));
      if v.GetBalance(to) + val >= TWO_256 then paid
      else paid.Note(StateTree.BalanceOf(to, v.GetBalance(to) + val))
  }

  function TargetTrace(e: Env, t: Trace, precompile: Addr, input: Bytes, callType: CallType): Trace {
    if precompile in e.precompiled then LeaveTrace(t, callType, e.precompiled[precompile](input).verdict) else t
  }

  // The operations of a call, whose snapshot is already taken.
  function CallTrace(
    e: Env, c: Ctx, t: Trace, callee: Addr, caller: Addr, input: Bytes, value: U256, callType: CallType
  ): Trace {
    if |c.callStack| == MAX_CALL_DEPTH || c.world.GetBalance(caller) < value then
      LeaveTrace(t, callType, Success)
    else
      var blank := !c.world.Exist(callee);
      if blank && callee !in e.precompiled && e.From(SpuriousDragon) && value == 0 then
        LeaveTrace(t, callType, Success)
      else
        var created := if blank then t.Note(StateTree.Create(callee)) else t;
        var w := if blank then c.world.CreateAccount(callee) else c.world;
        var moved := TransferTrace(w, created, caller, callee, value);
        match w.Transfer(caller, callee, value)
        case None => moved
        case Some(v) =>
          if callee !in e.precompiled && v.GetCode(callee) == [] then LeaveTrace(moved, callType, Success)
          else TargetTrace(e, moved, callee, input, callType)
  }

  // The operations of a creation, whose snapshot is already taken.
  function CreationTrace(e: Env, c: Ctx, t: Trace, a: Addr, caller: Addr, value: U256, callType: CallType): Trace {
    if c.world.GetBalance(caller) < value || c.world.GetNonce(caller) + 1 >= TWO_64 then
      LeaveTrace(t, callType, Success)
    else
      var raised := t.Note(StateTree.NonceOf(caller, c.world.GetNonce(caller) + 1));
      var w := c.world.SetNonce(caller, c.world.GetNonce(caller) + 1);
      var hash := e.keccak(c.world.GetCode(a));
      if c.world.GetNonce(a) != 0 || (hash != 0 && hash != e.keccak([])) then
        LeaveTrace(raised, callType, Success)
      else
        var created := raised.Note(StateTree.Create(a));
        var w := w.CreateAccount(a);
        var numbered := if e.From(SpuriousDragon) then created.Note(StateTree.NonceOf(a, 1)) else created;
        var w := if e.From(SpuriousDragon) then w.SetNonce(a, 1) else w;
        TransferTrace(w, numbered, caller, a, value)
  }

  function CreateOpTrace(e: Env, c: Ctx, t: Trace, salted: bool): Trace {
    var allowed := if salted then e.From(Constantinople) && !c.cur.readOnly && |c.callStack| != MAX_CALL_DEPTH
                   else !c.cur.readOnly && |c.callStack| != MAX_CALL_DEPTH;
    var paid := Charge(c, if salted then GAS_CREATE2 else GAS_CREATE);
    var r := PrepareCreate(e, paid.state, salted);
    if !allowed || !paid.Ok? || !r.Ok? then t
    else
      var (d, q, self) := (r.state, r.value, r.state.cur.callee);
      var a := if salted then e.createAddr2(self, q.salt, q.code) else e.createAddr(self, d.world.GetNonce(self));
      CreationTrace(e, d, t.Snap(), a, self, q.value, CreateCall(d.world, a))
  }

  function CallOpTrace(e: Env, op: Opcode, c: Ctx, t: Trace): Trace
    requires EntersCall(op) && !op.CreateOp? && !op.Create2Op?
  {
    var kind := if op.CallOp? then PlainCall else if op.CallCodeOp? then CallCode
                else if op.DelegateCallOp? then DelegateCall else StaticCall;
    var allowed :=
      && (op.DelegateCallOp? ==> e.From(Homestead))
      && (op.StaticCallOp? ==> e.From(Byzantium))
      && (!op.CallOp? ==> |c.callStack| != MAX_CALL_DEPTH);
    var r := PrepareCall(e, c, kind);
    if !allowed || !r.Ok? then t
    else
      var (d, q, f) := (r.state, r.value, r.state.cur);
      var saved := SubCall(Some(d.world), q.retOff, q.retLen);
      if op.CallOp? then CallTrace(e, d, t.Snap(), q.addr, f.callee, q.input, q.value, saved)
      else if op.CallCodeOp? then
        if d.world.GetBalance(f.callee) < q.value then LeaveTrace(t.Snap(), saved, Success)
        else TargetTrace(e, t.Snap(), f.callee, q.input, saved)
      else if op.DelegateCallOp? then TargetTrace(e, t.Snap(), f.callee, q.input, saved)
      else TargetTrace(e, t, q.addr, q.input, SubCall(None, q.retOff, q.retLen))
  }

  function BequeathTrace(c: Ctx, t: Trace, heir: Addr): Trace {
    var self := c.cur.callee;
    var sum := c.world.GetBalance(heir) + c.world.GetBalance(self);
    var given := if sum >= TWO_256 then t else t.Note(StateTree.BalanceOf(heir, sum));
    given.Note(StateTree.BalanceOf(self, 0))
  }

  function EndOpTrace(e: Env, op: Opcode, c: Ctx, t: Trace): Trace
    requires EndsFrame(op)
  {
    if op.Stop? then FinishTrace(e, c, t, [], Success)
    else if op.SelfDestructOp? then
      var r := PrepareSelfDestruct(e, c);
      if c.cur.readOnly || !r.Ok? then t
      else FinishTrace(e, Bequeath(r.state, r.value), BequeathTrace(r.state, t, r.value), [], Success)
    else
      var r := ReturnData(c);
      if (op.RevertOp? && !e.From(Byzantium)) || !r.Ok? then t
      else FinishTrace(e, r.state, t, r.value, if op.RevertOp? then Failure(RevertedCall) else Success)
  }

  function ExecTrace(e: Env, op: Opcode, c: Ctx, t: Trace): Trace {
    if op.CreateOp? || op.Create2Op? then CreateOpTrace(e, c, t, op.Create2Op?)
    else if EntersCall(op) then CallOpTrace(e, op, c, t)
    else if EndsFrame(op) then EndOpTrace(e, op, c, t)
    else if op.SStoreOp? && c.cur.stack.top >= 2 && SStore(e, c).Ok? then
      t.Note(StateTree.StateOf(c.cur.callee, Below(c.cur, 1), Below(c.cur, 2)))
    else t
  }

  // The operations of the frames that end with a failed one.
  function UnwindTrace(e: Env, r: CtxOutcome<()>, t: Trace): Trace
    decreases |r.state.callStack| + 1, r.Err?
  {
    if r.Err? && r.state.callStack != [] then
      UnwindTrace(e, FinishCall(e, r.state, [], Failure(r.error)),
                  FinishTrace(e, r.state, t, [], Failure(r.error)))
    else t
  }

  function StepTrace(e: Env, c: Ctx, t: Trace): Trace {
    if !Fetchable(c.cur) then t
    else
      var op := Fetch(c.cur);
      UnwindTrace(e, Exec(e, op, PushedData(c.cur), c), ExecTrace(e, op, c, t))
  }

  function RunTrace(e: Env, c: Ctx, n: nat, t: Trace): Trace
    decreases n
  {
    if n == 0 || !c.status.Running? then t else RunTrace(e, Step(e, c), n - 1, StepTrace(e, c, t))
  }

  // The operations before the first frame runs.
  function StartTrace(e: Env, tx: Tx, world: World): Trace {
    var t := Trace([], 1, []);
    var c := NewContext(e, tx.gas, InitialAccess(e, tx.from, tx.to, tx.listed), world);
    var nonce := world.GetNonce(tx.from);
    match tx.to
    case Some(to) =>
      var w := world.SetNonce(tx.from, Wrap64(nonce + 1));
      CallTrace(e, c.(world := w), t.Note(StateTree.NonceOf(tx.from, Wrap64(nonce + 1))).Snap(),
                to, tx.from, tx.input, tx.value, TxCall(w, Sender(tx.from)))
    case None =>
      var a := e.createAddr(tx.from, nonce);
      CreationTrace(e, c, t.Snap(), a, tx.from, tx.value, TxCall(world, Contract(a)))
  }

  // The operations of the first n steps of an execution.
  function ExecutionTrace(e: Env, tx: Tx, world: World, n: nat): Trace {
    RunTrace(e, Start(e, tx, world), n, StartTrace(e, tx, world))
  }

  // ---------- a run that stands for a state ----------

  // Nothing is deleted, and accounts are created only while they hold no slot.
  ghost predicate Clean(source: World, ops: seq<StateTree.Op>) {
    && (forall op <- ops :: !StateTree.Deletes(op))
    && (forall k: nat | k < |ops| :: StateTree.CreatesSlotless(StateTree.RunFlat(source, ops[..k]), ops[k]))
  }

  // The flat stores of the run hold the accounts of a world and of snapshots.
  ghost predicate Holds(stores: seq<World>, t: Trace, w: World, held: seq<World>) {
    && |stores| == t.size && t.size > 0 && stores[0].accounts == w.accounts
    && |t.at| == |held|
    && (forall i | 0 <= i < |held| :: 0 < t.at[i] < t.size && stores[t.at[i]].accounts == held[i].accounts)
    && (forall i, j | 0 <= i < j < |held| :: t.at[i] < t.at[j])
  }

  ghost predicate Mirrors(source: World, t: Trace, w: World, held: seq<World>) {
    Clean(source, t.ops) && Holds(StateTree.RunFlat(source, t.ops), t, w, held)
  }

  lemma CleanMore(source: World, ops: seq<StateTree.Op>, op: StateTree.Op)
    requires Clean(source, ops) && !StateTree.Deletes(op)
    requires StateTree.CreatesSlotless(StateTree.RunFlat(source, ops), op)
    ensures Clean(source, ops + [op])
    ensures StateTree.RunFlat(source, ops + [op]) == StateTree.StepFlat(StateTree.RunFlat(source, ops), op)
  {
    hide StateTree.StepFlat, StateTree.CreatesSlotless;
    var more := ops + [op];
    assert more[..|ops|] == ops;
    forall k: nat | k < |more| ensures StateTree.CreatesSlotless(StateTree.RunFlat(source, more[..k]), more[k]) {
      if k < |ops| {
        assert more[..k] == ops[..k];
      }
    }
  }

  // The same world again, by its accounts.
  lemma MirrorsSame(source: World, t: Trace, v: World, w: World, held: seq<World>)
    requires Mirrors(source, t, v, held) && v.accounts == w.accounts
    ensures Mirrors(source, t, w, held)
  {
  }

  lemma Noted(source: World, t: Trace, w: World, held: seq<World>, wr: StateTree.Write)
    requires Mirrors(source, t, w, held) && !wr.Delete?
    requires wr.Create? ==> w.At(wr.addr).storage == map[]
    ensures Mirrors(source, t.Note(wr), StateTree.WriteFlat(w, wr), held)
  {
    hide Clean;
    var stores := StateTree.RunFlat(source, t.ops);
    CleanMore(source, t.ops, StateTree.WriteTo(0, wr));
    SameWrite(stores[0], w, wr);
  }

  lemma SameWrite(v: World, w: World, wr: StateTree.Write)
    requires v.accounts == w.accounts
    ensures StateTree.WriteFlat(v, wr).accounts == StateTree.WriteFlat(w, wr).accounts
    ensures forall a: Addr :: v.At(a) == w.At(a)
  {
  }

  lemma Snapped(source: World, t: Trace, w: World, held: seq<World>)
    requires Mirrors(source, t, w, held)
    ensures Mirrors(source, t.Snap(), w, held + [w])
  {
    hide Clean;
    CleanMore(source, t.ops, StateTree.TakeSnapshot(0));
  }

  lemma Forgot(source: World, t: Trace, w: World, held: seq<World>, s: World)
    requires Mirrors(source, t, w, held + [s])
    ensures Mirrors(source, t.Forget(), w, held)
  {
    hide Clean;
    assert forall i | 0 <= i < |held| :: (held + [s])[i] == held[i];
  }

  lemma WentBack(source: World, t: Trace, w: World, held: seq<World>, s: World)
    requires Mirrors(source, t, w, held + [s])
    ensures Mirrors(source, t.Back(), s, held)
  {
    hide Clean;
    var last := t.at[|held|];
    assert (held + [s])[|held|] == s && forall i | 0 <= i < |held| :: (held + [s])[i] == held[i];
    CleanMore(source, t.ops, StateTree.RollBack(0, last));
  }

  // ---------- what each operation of the machine leaves ----------

  ghost predicate MirrorsAt(source: World, t: Trace, c: Ctx) { Mirrors(source, t, c.world, Held(c)) }

  // While the execution goes on, the run stands for the state it goes on in.
  ghost predicate Stands(source: World, t: Trace, r: CtxOutcome<()>) {
    !r.Panic? && r.state.status.Running? ==> MirrorsAt(source, t, r.state)
  }

  // Changes that leave the snapshots and the accounts.
  lemma StandsSame(source: World, t: Trace, c: Ctx, d: Ctx)
    requires MirrorsAt(source, t, c) && d.world.accounts == c.world.accounts
    requires d.callStack == c.callStack && d.cur.callType == c.cur.callType
    ensures MirrorsAt(source, t, d)
  {
    hide Mirrors;
    MirrorsSame(source, t, c.world, d.world, Held(c));
  }

  lemma PushedHeld(c: Ctx, code: Bytes, input: Bytes, value: U256, callee: Addr, caller: Addr,
                   callType: CallType, gas: U64, readOnly: bool)
    ensures Held(CallPush(c, code, input, value, callee, caller, callType, gas, readOnly)) == Held(c) + Snaps(callType)
  {
    var d := CallPush(c, code, input, value, callee, caller, callType, gas, readOnly);
    assert d.callStack[..|c.callStack|] == c.callStack;
  }

  lemma PoppedHeld(c: Ctx)
    requires |c.callStack| >= 2
    ensures Held(c) == Held(CallPop(c)) + Snaps(c.cur.callType)
  {
  }

  // The world a call comes back to.
  function LeftWorld(w: World, callType: CallType, verdict: Verdict): World {
    if verdict.Failure? && Snaps(callType) != [] then Snaps(callType)[0] else w
  }

  lemma Leaves(source: World, t: Trace, w: World, held: seq<World>, callType: CallType, verdict: Verdict)
    requires Mirrors(source, t, w, held + Snaps(callType))
    ensures Mirrors(source, LeaveTrace(t, callType, verdict), LeftWorld(w, callType, verdict), held)
  {
    hide Mirrors;
    if Snaps(callType) == [] {
      assert held + [] == held;
    } else {
      var s := Snaps(callType)[0];
      assert Snaps(callType) == [s];
      if verdict.Failure? {
        WentBack(source, t, w, held, s);
      } else {
        Forgot(source, t, w, held, s);
      }
    }
  }

  lemma Transferred(source: World, t: Trace, w: World, held: seq<World>, from: Addr, to: Addr, val: U256)
    requires Mirrors(source, t, w, held)
    ensures w.Transfer(from, to, val).Some? ==>
      Mirrors(source, TransferTrace(w, t, from, to, val), w.Transfer(from, to, val).value, held)
  {
    hide Mirrors;
    if w.SubBalance(from, val).Some? {
      var wr := StateTree.BalanceOf(from, w.GetBalance(from) - val);
      Noted(source, t, w, held, wr);
      var v := w.SubBalance(from, val).value;
      if v.GetBalance(to) + val < TWO_256 {
        Noted(source, t.Note(wr), v, held, StateTree.BalanceOf(to, v.GetBalance(to) + val));
      }
    }
  }

  // ---------- returns ----------

  lemma CallEndWorld(
    c: Ctx, callType: CallType, data: Bytes, unused: U64, verdict: Verdict
  )
    requires callType.SubCall?
    ensures var d := CallEnd(c, callType.callSnapshot, callType.retOff, callType.retLen, data, unused, verdict).state;
      && d.world == LeftWorld(c.world, callType, verdict)
      && d.callStack == c.callStack && d.cur.callType == c.cur.callType && d.status == c.status
  {
    hide CallEnd;
  }

  lemma CreateEndWorld(e: Env, c: Ctx, snapshot: World, a: Addr, data: Bytes, unused: U64, verdict: Verdict)
    ensures var d := CreateEnd(e, c, snapshot, a, data, unused, verdict).state;
      && d.world == (if verdict.Failure? then snapshot
                     else if CreatePostProcessing(e, c, a, data, verdict).Ok? then c.world.SetCode(a, data)
                     else c.world)
      && d.callStack == c.callStack && d.cur.callType == c.cur.callType && d.status == c.status
  {
    hide CreatePostProcessing, TakeBackCreated;
  }

  lemma FinishStands(source: World, e: Env, c: Ctx, t: Trace, data: Bytes, verdict: Verdict)
    requires Disciplined(e, c) && MirrorsAt(source, t, c)
    ensures Stands(source, FinishTrace(e, c, t, data, verdict), FinishCall(e, c, data, verdict))
  {
    hide CallEnd, CreateEnd, TxEnd, Mirrors, LeaveTrace, CreatePostProcessing;
    assert FrameInPlace(e, c, |c.callStack|);
    var kind := c.cur.callType;
    if !kind.TxCall? {
      var d := CallPop(c);
      PoppedHeld(c);
      Leaves(source, t, c.world, Held(d), kind, verdict);
      if kind.SubCall? {
        CallEndWorld(d, kind, data, c.cur.gas, verdict);
      } else {
        var a := kind.contractAddr;
        CreateEndWorld(e, d, kind.createSnapshot, a, data, c.cur.gas, verdict);
        if verdict.Success? && CreatePostProcessing(e, d, a, data, verdict).Ok? {
          Noted(source, LeaveTrace(t, kind, verdict), c.world, Held(d), StateTree.CodeOf(a, data));
        }
      }
    }
  }

  lemma ReturnStands(
    source: World, e: Env, c: Ctx, t: Trace, callType: CallType, data: Bytes, gas: U64, verdict: Verdict
  )
    requires Mirrors(source, t, c.world, Held(c) + Snaps(callType)) && !callType.CreateCall?
    ensures Stands(source, LeaveTrace(t, callType, verdict), ReturnWithoutFrame(e, c, callType, data, gas, verdict))
  {
    hide CallEnd, TxEnd, Mirrors, LeaveTrace;
    Leaves(source, t, c.world, Held(c), callType, verdict);
    if callType.SubCall? {
      CallEndWorld(c, callType, data, gas, verdict);
    }
  }

  // ---------- calls and creations ----------

  lemma TargetStands(
    source: World, e: Env, c: Ctx, t: Trace, precompile: Addr, codeAt: Addr, callee: Addr, caller: Addr,
    input: Bytes, value: U256, gas: U64, callType: CallType, readOnly: bool
  )
    requires Mirrors(source, t, c.world, Held(c) + Snaps(callType)) && !callType.CreateCall?
    ensures Stands(source, TargetTrace(e, t, precompile, input, callType),
                   CallTarget(e, c, precompile, codeAt, callee, caller, input, value, gas, callType, readOnly))
  {
    hide ReturnWithoutFrame, Mirrors, LeaveTrace, Held;
    if precompile in e.precompiled {
      var result := e.precompiled[precompile](input);
      ReturnStands(source, e, c, t, callType, result.data, gas, result.verdict);
    } else {
      PushedHeld(c, c.world.GetCode(codeAt), input, value, callee, caller, callType, gas, readOnly);
    }
  }

  lemma CallStands(
    source: World, e: Env, c: Ctx, t: Trace, callee: Addr, caller: Addr, input: Bytes, gas: U64, value: U256,
    callType: CallType
  )
    requires Mirrors(source, t, c.world, Held(c) + Snaps(callType)) && !callType.CreateCall?
    ensures Stands(source, CallTrace(e, c, t, callee, caller, input, value, callType),
                   Call_(e, c, callee, caller, input, gas, value, callType))
  {
    hide ReturnWithoutFrame, CallTarget, Mirrors, LeaveTrace, TargetTrace, TransferTrace;
    var held := Held(c) + Snaps(callType);
    Leaves(source, t, c.world, Held(c), callType, Success);
    if |c.callStack| != MAX_CALL_DEPTH && c.world.GetBalance(caller) >= value {
      var d := c.(dirty := c.dirty + {caller, callee});
      ReturnStands(source, e, d, t, callType, [], gas, Success);
      var blank := !c.world.Exist(callee);
      var w := if blank then c.world.CreateAccount(callee) else c.world;
      var created := if blank then t.Note(StateTree.Create(callee)) else t;
      if blank {
        Noted(source, t, c.world, held, StateTree.Create(callee));
      }
      Transferred(source, created, w, held, caller, callee, value);
      var moved, sent := TransferTrace(w, created, caller, callee, value), w.Transfer(caller, callee, value);
      if sent.Some? {
        var d' := d.(world := sent.value);
        ReturnStands(source, e, d', moved, callType, [], gas, Success);
        TargetStands(source, e, d', moved, callee, callee, callee, caller, input, value, gas, callType, false);
      }
    }
  }

  lemma CreationStands(
    source: World, e: Env, c: Ctx, t: Trace, a: Addr, caller: Addr, code: Bytes, value: U256, gas: U64,
    callType: CallType
  )
    requires Mirrors(source, t, c.world, Held(c) + Snaps(callType)) && !callType.SubCall?
    requires Create_(e, c, a, caller, code, value, gas, callType).Ok? ==> c.world.At(a).storage == map[]
    ensures Stands(source, CreationTrace(e, c, t, a, caller, value, callType),
                   Create_(e, c, a, caller, code, value, gas, callType))
  {
    hide Mirrors, LeaveTrace, TransferTrace;
    var held := Held(c) + Snaps(callType);
    Leaves(source, t, c.world, Held(c), callType, Success);
    if c.world.GetBalance(caller) >= value && c.world.GetNonce(caller) + 1 < TWO_64 {
      var nonce := StateTree.NonceOf(caller, c.world.GetNonce(caller) + 1);
      var w := c.world.SetNonce(caller, c.world.GetNonce(caller) + 1);
      Noted(source, t, c.world, held, nonce);
      Leaves(source, t.Note(nonce), w, Held(c), callType, Success);
      var r := Create_(e, c, a, caller, code, value, gas, callType);
      if r.Ok? {
        EndowedMirrors(source, e, t.Note(nonce), w, held, a, caller, value);
        var d := c.(world := r.state.world, dirty := r.state.dirty, access := r.state.access);
        PushedHeld(d, code, [], value, a, caller, callType, gas, false);
      }
    }
  }

  lemma EndowedMirrors(
    source: World, e: Env, t: Trace, w: World, held: seq<World>, a: Addr, caller: Addr, value: U256
  )
    requires Mirrors(source, t, w, held) && w.At(a).storage == map[] && Endow(e, w, a, caller, value).Some?
    ensures var created := t.Note(StateTree.Create(a));
      var numbered := if e.From(SpuriousDragon) then created.Note(StateTree.NonceOf(a, 1)) else created;
      var v := if e.From(SpuriousDragon) then w.CreateAccount(a).SetNonce(a, 1) else w.CreateAccount(a);
      Mirrors(source, TransferTrace(v, numbered, caller, a, value), Endow(e, w, a, caller, value).value, held)
  {
    hide Mirrors, TransferTrace;
    var created := t.Note(StateTree.Create(a));
    Noted(source, t, w, held, StateTree.Create(a));
    if e.From(SpuriousDragon) {
      Noted(source, created, w.CreateAccount(a), held, StateTree.NonceOf(a, 1));
      Transferred(source, created.Note(StateTree.NonceOf(a, 1)), w.CreateAccount(a).SetNonce(a, 1), held, caller, a, value);
    } else {
      Transferred(source, created, w.CreateAccount(a), held, caller, a, value);
    }
  }

  // ---------- one instruction ----------

  lemma QuietStands<T>(source: World, c: Ctx, t: Trace, r: CtxOutcome<T>)
    requires MirrorsAt(source, t, c) && Quiet(c, r.state)
    ensures MirrorsAt(source, t, r.state) && r.state.world == c.world
  {
    StandsSame(source, t, c, r.state);
  }

  lemma CreateOpStands(source: World, e: Env, c: Ctx, t: Trace, salted: bool)
    requires MirrorsAt(source, t, c)
    requires var r := if salted then Create2Begin(e, c) else CreateBegin(e, c);
      r.Ok? ==> c.world.At(r.state.cur.callee).storage == map[]
    ensures Stands(source, CreateOpTrace(e, c, t, salted), if salted then Create2Begin(e, c) else CreateBegin(e, c))
  {
    hide PrepareCreate, Charge, Create_, CreationTrace, MirrorsAt, Mirrors;
    var paid := Charge(c, if salted then GAS_CREATE2 else GAS_CREATE);
    var r := PrepareCreate(e, paid.state, salted);
    QuietStands(source, c, t, paid);
    QuietStands(source, paid.state, t, r);
    if paid.Ok? && r.Ok? {
      var (d, q, self) := (r.state, r.value, r.state.cur.callee);
      var a := if salted then e.createAddr2(self, q.salt, q.code) else e.createAddr(self, d.world.GetNonce(self));
      SnappedAt(source, t, d);
      CreatedCallee(e, d, a, self, q.code, q.value, q.gas, CreateCall(d.world, a));
      if Create_(e, d, a, self, q.code, q.value, q.gas, CreateCall(d.world, a)).Ok? ==> d.world.At(a).storage == map[] {
        CreationStands(source, e, d, t.Snap(), a, self, q.code, q.value, q.gas, CreateCall(d.world, a));
      }
    }
  }

  lemma SnappedAt(source: World, t: Trace, c: Ctx)
    requires MirrorsAt(source, t, c)
    ensures Mirrors(source, t.Snap(), c.world, Held(c) + [c.world])
  {
    hide Mirrors;
    Snapped(source, t, c.world, Held(c));
  }

  lemma CreatedCallee(
    e: Env, c: Ctx, a: Addr, caller: Addr, code: Bytes, value: U256, gas: U64, callType: CallType
  )
    ensures var r := Create_(e, c, a, caller, code, value, gas, callType); r.Ok? ==> r.state.cur.callee == a
  {
  }

  lemma CallOpStands(source: World, e: Env, op: Opcode, c: Ctx, t: Trace)
    requires EntersCall(op) && !op.CreateOp? && !op.Create2Op? && MirrorsAt(source, t, c)
    ensures Stands(source, CallOpTrace(e, op, c, t), EnterOp(e, op, c))
  {
    hide PrepareCall, Call_, CallTarget, CallTrace, TargetTrace, LeaveTrace, Mirrors;
    var kind := if op.CallOp? then PlainCall else if op.CallCodeOp? then CallCode
                else if op.DelegateCallOp? then DelegateCall else StaticCall;
    var r := PrepareCall(e, c, kind);
    QuietStands(source, c, t, r);
    if r.Ok? {
      var (d, q) := (r.state, r.value);
      var f, saved := d.cur, SubCall(Some(d.world), q.retOff, q.retLen);
      SnappedAt(source, t, d);
      if op.CallOp? {
        CallStands(source, e, d, t.Snap(), q.addr, f.callee, q.input, q.gas, q.value, saved);
      } else if op.CallCodeOp? {
        Leaves(source, t.Snap(), d.world, Held(d), saved, Success);
        TargetStands(source, e, d, t.Snap(), f.callee, q.addr, f.callee, f.callee, q.input, q.value, q.gas, saved, false);
      } else if op.DelegateCallOp? {
        TargetStands(source, e, d, t.Snap(), f.callee, q.addr, f.callee, f.caller, q.input, f.value, q.gas, saved, false);
      } else {
        var none := SubCall(None, q.retOff, q.retLen);
        NoneHeld(source, t, d);
        TargetStands(source, e, d, t, q.addr, q.addr, q.addr, f.callee, q.input, 0, q.gas, none, true);
      }
    }
  }

  lemma NoneHeld(source: World, t: Trace, c: Ctx)
    requires MirrorsAt(source, t, c)
    ensures Mirrors(source, t, c.world, Held(c) + [])
  {
    hide Mirrors;
    assert Held(c) + [] == Held(c);
  }

  lemma BequeathStands(source: World, c: Ctx, t: Trace, heir: Addr)
    requires MirrorsAt(source, t, c)
    ensures MirrorsAt(source, BequeathTrace(c, t, heir), Bequeath(c, heir))
  {
    hide Mirrors;
    var self := c.cur.callee;
    var sum := c.world.GetBalance(heir) + c.world.GetBalance(self);
    var given := if sum >= TWO_256 then t else t.Note(StateTree.BalanceOf(heir, sum));
    var w := c.world.AddBalance(heir, c.world.GetBalance(self)).GetOr(c.world);
    if sum < TWO_256 {
      Noted(source, t, c.world, Held(c), StateTree.BalanceOf(heir, sum));
    }
    Noted(source, given, w, Held(c), StateTree.BalanceOf(self, 0));
  }

  lemma SelfDestructStands(source: World, e: Env, c: Ctx, t: Trace)
    requires Disciplined(e, c) && MirrorsAt(source, t, c)
    ensures Stands(source, EndOpTrace(e, SelfDestructOp, c, t), SelfDestruct(e, c))
  {
    hide FinishCall, FinishTrace, PrepareSelfDestruct, Bequeath, BequeathTrace, MirrorsAt;
    var r := PrepareSelfDestruct(e, c);
    QuietStands(source, c, t, r);
    QuietKeeps(e, c, r);
    if r.Ok? {
      BequeathKeeps(e, r.state, r.value);
      BequeathStands(source, r.state, t, r.value);
      FinishStands(source, e, Bequeath(r.state, r.value), BequeathTrace(r.state, t, r.value), [], Success);
    }
  }

  lemma ReturnOpsStand(source: World, e: Env, c: Ctx, t: Trace)
    requires Disciplined(e, c) && MirrorsAt(source, t, c)
    ensures Stands(source, EndOpTrace(e, ReturnOp, c, t), Return(e, c))
    ensures Stands(source, EndOpTrace(e, RevertOp, c, t), Revert(e, c))
  {
    hide FinishCall, FinishTrace, ReturnData, MirrorsAt;
    var r := ReturnData(c);
    QuietStands(source, c, t, r);
    QuietKeeps(e, c, r);
    if r.Ok? {
      FinishStands(source, e, r.state, t, r.value, Success);
      FinishStands(source, e, r.state, t, r.value, Failure(RevertedCall));
    }
  }

  lemma EndOpStands(source: World, e: Env, op: Opcode, c: Ctx, t: Trace)
    requires EndsFrame(op) && Disciplined(e, c) && MirrorsAt(source, t, c)
    ensures Stands(source, EndOpTrace(e, op, c, t), EndOp(e, op, c))
  {
    hide FinishCall, FinishTrace, Return, Revert, SelfDestruct, Bequeath, BequeathTrace, Stands, MirrorsAt;
    match op {
      case Stop => FinishStands(source, e, c, t, [], Success);
      case ReturnOp => ReturnOpsStand(source, e, c, t);
      case RevertOp => ReturnOpsStand(source, e, c, t);
      case SelfDestructOp => SelfDestructStands(source, e, c, t);
    }
  }

  lemma SStoreStands(source: World, e: Env, c: Ctx, t: Trace)
    requires MirrorsAt(source, t, c)
    ensures var r := SStore(e, c);
      if r.Ok? then
        c.cur.stack.top >= 2
        && MirrorsAt(source, t.Note(StateTree.StateOf(c.cur.callee, Below(c.cur, 1), Below(c.cur, 2))), r.state)
      else MirrorsAt(source, t, r.state)
  {
    hide SStoreGas, Mirrors;
    var r := SStore(e, c);
    if r.Ok? {
      Noted(source, t, c.world, Held(c), StateTree.StateOf(c.cur.callee, Below(c.cur, 1), Below(c.cur, 2)));
    } else {
      StandsSame(source, t, c, r.state);
    }
  }

  lemma LogStands(source: World, e: Env, c: Ctx, t: Trace, num: nat)
    requires MirrorsAt(source, t, c)
    ensures MirrorsAt(source, t, Log(e, c, num).state)
  {
    hide LogRecord, Mirrors;
    StandsSame(source, t, c, Log(e, c, num).state);
  }

  lemma OtherStands(source: World, e: Env, op: Opcode, data: Bytes, c: Ctx, t: Trace)
    requires !EntersCall(op) && !EndsFrame(op) && !op.SStoreOp? && |data| <= 32
    requires MirrorsAt(source, t, c)
    ensures MirrorsAt(source, t, Exec(e, op, data, c).state)
  {
    hide Log, Jump, JumpI, QuietOp, MirrorsAt;
    if op.LogOp? {
      LogStands(source, e, c, t, op.topics);
    } else if op.JumpOp? {
      QuietStands(source, c, t, Jump(c));
    } else if op.JumpIOp? {
      QuietStands(source, c, t, JumpI(c));
    } else {
      QuietStands(source, c, t, QuietOp(e, op, data, c));
    }
  }

  // A creation instruction that enters a frame does so at an account that holds
  // no slot.
  ghost predicate CreatesSlotlessly(e: Env, op: Opcode, c: Ctx) {
    (op.CreateOp? || op.Create2Op?) && EnterOp(e, op, c).Ok? ==>
      c.world.At(EnterOp(e, op, c).state.cur.callee).storage == map[]
  }

  lemma ExecStands(source: World, e: Env, op: Opcode, data: Bytes, c: Ctx, t: Trace)
    requires Disciplined(e, c) && MirrorsAt(source, t, c) && |data| <= 32
    requires CreatesSlotlessly(e, op, c)
    ensures Stands(source, ExecTrace(e, op, c, t), Exec(e, op, data, c))
  {
    hide CreateBegin, Create2Begin, CallBegin, CallCodeBegin, DelegateCallBegin, StaticCallBegin;
    hide EndOp, SStore, QuietOp, Log, Jump, JumpI, CreateOpTrace, CallOpTrace, EndOpTrace, MirrorsAt;
    if op.CreateOp? || op.Create2Op? {
      CreateOpStands(source, e, c, t, op.Create2Op?);
    } else if EntersCall(op) {
      CallOpStands(source, e, op, c, t);
    } else if EndsFrame(op) {
      EndOpStands(source, e, op, c, t);
    } else if op.SStoreOp? {
      SStoreStands(source, e, c, t);
    } else {
      OtherStands(source, e, op, data, c, t);
    }
  }

  // ---------- steps and runs ----------

  lemma {:induction false} UnwindStands(source: World, e: Env, r: CtxOutcome<()>, t: Trace)
    requires Keeps(e, r) && Stands(source, t, r)
    ensures Stands(source, UnwindTrace(e, r, t), Unwind(e, r))
    decreases |r.state.callStack| + 1, r.Err?
  {
    hide FinishCall, FinishTrace, MirrorsAt;
    if r.Err? {
      FinishKeeps(e, r.state, [], Failure(r.error));
      FinishStands(source, e, r.state, t, [], Failure(r.error));
      UnwindStands(source, e, FinishCall(e, r.state, [], Failure(r.error)),
                   FinishTrace(e, r.state, t, [], Failure(r.error)));
    }
  }

  lemma StepStands(source: World, e: Env, c: Ctx, t: Trace)
    requires Disciplined(e, c) && MirrorsAt(source, t, c)
    requires Fetchable(c.cur) ==> CreatesSlotlessly(e, Fetch(c.cur), c)
    ensures var d := Step(e, c); d.status.Running? ==> MirrorsAt(source, StepTrace(e, c, t), d)
  {
    hide Exec, Unwind, Fetch, ExecTrace, UnwindTrace, Mirrors, CreatesSlotlessly;
    if Fetchable(c.cur) {
      var op := Fetch(c.cur);
      ExecKeeps(e, op, PushedData(c.cur), c);
      ExecStands(source, e, op, PushedData(c.cur), c, t);
      UnwindStands(source, e, Exec(e, op, PushedData(c.cur), c), ExecTrace(e, op, c, t));
    }
  }

  ghost predicate SlotlessFor(e: Env, c: Ctx, n: nat) {
    forall k: nat | k < n ::
      var d := Run(e, c, k);
      d.status.Running? && Fetchable(d.cur) ==> CreatesSlotlessly(e, Fetch(d.cur), d)
  }

  lemma SlotlessAfter(e: Env, c: Ctx, n: nat)
    requires c.status.Running? && n > 0 && SlotlessFor(e, c, n)
    ensures Fetchable(c.cur) ==> CreatesSlotlessly(e, Fetch(c.cur), c)
    ensures SlotlessFor(e, Step(e, c), n - 1)
  {
    hide Step, Fetch, Fetchable, CreatesSlotlessly;
    assert Run(e, c, 0) == c;
    forall k: nat | k < n - 1
      ensures var d := Run(e, Step(e, c), k);
        d.status.Running? && Fetchable(d.cur) ==> CreatesSlotlessly(e, Fetch(d.cur), d)
    {
      assert Run(e, c, k + 1) == Run(e, Step(e, c), k);
    }
  }

  lemma {:induction false} RunStands(source: World, e: Env, c: Ctx, n: nat, t: Trace)
    requires Disciplined(e, c) && MirrorsAt(source, t, c) && SlotlessFor(e, c, n)
    ensures var d := Run(e, c, n); d.status.Running? ==> MirrorsAt(source, RunTrace(e, c, n, t), d)
    decreases n
  {
    hide Step, StepTrace, MirrorsAt, SlotlessFor, CreatesSlotlessly;
    if n > 0 {
      SlotlessAfter(e, c, n);
      StepStands(source, e, c, t);
      StepKeeps(e, c);
      if Step(e, c).status.Running? {
        RunStands(source, e, Step(e, c), n - 1, StepTrace(e, c, t));
      }
    }
  }

  // ---------- whole executions ----------

  lemma NothingDone(world: World)
    ensures Mirrors(world, Trace([], 1, []), world, [])
  {
    assert StateTree.RunFlat(world, []) == [world];
  }

  // A creation transaction starts at an account that holds no slot.
  ghost predicate StartsSlotlessly(e: Env, tx: Tx, world: World) {
    tx.to.None? ==> world.At(e.createAddr(tx.from, world.GetNonce(tx.from))).storage == map[]
  }

  lemma StartStands(e: Env, tx: Tx, world: World)
    requires StartsSlotlessly(e, tx, world)
    ensures var c := Start(e, tx, world); c.status.Running? ==> MirrorsAt(world, StartTrace(e, tx, world), c)
  {
    hide Call_, Create_, CallTrace, CreationTrace, Mirrors;
    var t := Trace([], 1, []);
    var c := NewContext(e, tx.gas, InitialAccess(e, tx.from, tx.to, tx.listed), world);
    var gas := Wrap64(tx.gas - GAS_TX);
    var nonce: int := world.GetNonce(tx.from);
    NothingDone(world);
    match tx.to {
      case Some(to) =>
        var w := world.SetNonce(tx.from, Wrap64(nonce + 1));
        var raised := t.Note(StateTree.NonceOf(tx.from, Wrap64(nonce + 1)));
        Noted(world, t, world, [], StateTree.NonceOf(tx.from, Wrap64(nonce + 1)));
        Snapped(world, raised, w, []);
        CallStands(world, e, c.(world := w), raised.Snap(), to, tx.from, tx.input, gas, tx.value, TxCall(w, Sender(tx.from)));
      case None =>
        var a := e.createAddr(tx.from, nonce);
        Snapped(world, t, world, []);
        CreationStands(world, e, c, t.Snap(), a, tx.from, tx.input, tx.value, gas, TxCall(world, Contract(a)));
    }
  }

  // The trees' answers: state 0 answers every getter as the world the interpreter
  // works on, and each held snapshot's state as that snapshot.
  ghost predicate Answers(pool: seq<StateTree.Inner>, t: Trace, w: World, held: seq<World>) {
    && |pool| == t.size > 0 && |t.at| == |held|
    && StateTree.Agrees(pool[0].rev, w)
    && forall i | 0 <= i < |held| :: t.at[i] < |pool| && StateTree.Agrees(pool[t.at[i]].rev, held[i])
  }

  lemma SameAnswers(r: MemState.Rev, v: World, w: World)
    requires StateTree.Agrees(r, v) && v.accounts == w.accounts
    ensures StateTree.Agrees(r, w)
  {
    hide MemState.Get;
    forall a: Addr, f: MemState.Field ensures MemState.Get(r, a, f) == MemState.Read(w, a, f) {
      assert MemState.Get(r, a, f) == MemState.Read(v, a, f);
      assert v.At(a) == w.At(a);
    }
  }

  lemma MirrorsAnswer(source: World, t: Trace, w: World, held: seq<World>)
    requires Mirrors(source, t, w, held)
    ensures Answers(StateTree.RunTree(source, t.ops), t, w, held)
  {
    hide StateTree.Agrees, StateTree.RunTree, StateTree.RunFlat;
    StateTree.TreeAgrees(source, t.ops);
    var pool, stores := StateTree.RunTree(source, t.ops), StateTree.RunFlat(source, t.ops);
    SameAnswers(pool[0].rev, stores[0], w);
    forall i | 0 <= i < |held| ensures StateTree.Agrees(pool[t.at[i]].rev, held[i]) {
      SameAnswers(pool[t.at[i]].rev, stores[t.at[i]], held[i]);
    }
  }

  // While an execution runs, the writes, creations, snapshots and rollbacks it
  // has made are a run without deletions that creates accounts only while they
  // hold no slot, provided that its contracts were created at such accounts; and
  // the tree of states that takes the same operations answers every getter as the
  // flat world does, and in every snapshot as that snapshot does.
  lemma TreeAnswersAlong(e: Env, tx: Tx, world: World, n: nat)
    requires StartsSlotlessly(e, tx, world) && SlotlessFor(e, Start(e, tx, world), n)
    ensures var c, t := Execution(e, tx, world, n), ExecutionTrace(e, tx, world, n);
      c.status.Running? ==>
        Clean(world, t.ops) && Answers(StateTree.RunTree(world, t.ops), t, c.world, Held(c))
  {
    hide Start, Run, RunTrace, StartTrace, SlotlessFor, Answers, Clean, Held, Holds;
    StartKeeps(e, tx, world);
    StartStands(e, tx, world);
    var c := Start(e, tx, world);
    if c.status.Running? {
      RunStands(world, e, c, n, StartTrace(e, tx, world));
      var d, t := Run(e, c, n), RunTrace(e, c, n, StartTrace(e, tx, world));
      if d.status.Running? {
        MirrorsAnswer(world, t, d.world, Held(d));
      }
    } else {
      StoppedRun(e, c, n);
    }
  }

  lemma StoppedRun(e: Env, c: Ctx, n: nat)
    requires !c.status.Running?
    ensures Run(e, c, n) == c
  {
  }
}
