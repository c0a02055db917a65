// Conservation of balances: no instruction creates wei, so no transfer the
// interpreter unwraps can fail.
module Balances {
  import opened Common
  import opened Params
  import opened FlatWorld
  import opened Machine
  import opened Frames
  import opened Instructions
  import opened Interpreter
  import opened CallStack

  // ---------- the sum of all balances ----------

  ghost function Sum(m: map<Addr, Account>): nat
    decreases |m|
  {
    if m == map[] then 0
    else
      var a :| a in m;
      m[a].balance + Sum(m - {a})
  }

  ghost function Total(w: World): nat { Sum(w.accounts) }

  lemma {:induction false} SumWithout(m: map<Addr, Account>, a: Addr)
    requires a in m
    ensures Sum(m) == m[a].balance + Sum(m - {a})
    decreases |m|
  {
    var b :| b in m && Sum(m) == m[b].balance + Sum(m - {b});
    if a != b {
      SumWithout(m - {b}, a);
      SumWithout(m - {a}, b);
      assert (m - {a}) - {b} == (m - {b}) - {a};
    }
  }

  lemma TotalPut(w: World, a: Addr, acc: Account)
    ensures Total(w.Put(a, acc)) == Total(w) - w.GetBalance(a) + acc.balance
  {
    var m := w.accounts;
    SumWithout(m[a := acc], a);
    assert m[a := acc] - {a} == m - {a};
    if a in m {
      SumWithout(m, a);
    } else {
      assert m - {a} == m;
    }
  }

  lemma BalanceWithinTotal(w: World, a: Addr)
    ensures w.GetBalance(a) <= Total(w)
  {
    if w.Exist(a) {
      SumWithout(w.accounts, a);
    }
  }

  // While the total fits a word a transfer succeeds exactly when the sender can
  // pay, and keeps the total; from and to may be the same account.
  lemma TransferConserves(w: World, from: Addr, to: Addr, val: U256)
    requires Total(w) < TWO_256
    ensures w.Transfer(from, to, val).Some? <==> val <= w.GetBalance(from)
    ensures w.Transfer(from, to, val).Some? ==> Total(w.Transfer(from, to, val).value) == Total(w)
  {
    if val <= w.GetBalance(from) {
      var w1 := w.SetBalance(from, w.GetBalance(from) - val);
      TotalPut(w, from, w.At(from).(balance := w.GetBalance(from) - val));
      BalanceWithinTotal(w1, to);
      TotalPut(w1, to, w1.At(to).(balance := (w1.GetBalance(to) + val) % TWO_256));
    }
  }

  lemma {:induction false} DeletionLowers(w: World, gone: set<Addr>)
    ensures Total(w.DeleteAccounts(gone)) <= Total(w)
    decreases |gone|
  {
    if gone == {} {
      assert w.accounts - gone == w.accounts;
    } else {
      var a :| a in gone;
      var w1 := w.DeleteAccounts({a});
      DeletionLowers(w1, gone - {a});
      assert (w.accounts - {a}) - (gone - {a}) == w.accounts - gone;
      if a in w.accounts {
        SumWithout(w.accounts, a);
      } else {
        assert w.accounts - {a} == w.accounts;
      }
    }
  }

  // ---------- what a run keeps ----------

  ghost function SnapshotOf(t: CallType): Option<World> {
    match t
    case TxCall(w, _) => Some(w)
    case SubCall(w, _, _) => w
    case CreateCall(w, _) => Some(w)
  }

  ghost predicate HoldsAtMost(t: CallType, most: nat) {
    SnapshotOf(t).Some? ==> Total(SnapshotOf(t).value) <= most
  }

  // Neither the world nor any held snapshot has more than most, which fits a word.
  ghost predicate Solvent(c: Ctx, most: nat) {
    && most < TWO_256
    && Total(c.world) <= most
    && forall i: nat | 1 <= i <= |c.callStack| :: HoldsAtMost(FrameAt(c, i).callType, most)
  }

  // The operation keeps solvency, fails no transfer, and when it completes
  // keeps the total exactly if asked to.
  ghost predicate Conserves(c: Ctx, r: CtxOutcome<()>, most: nat, exactly: bool) {
    match r
    case Ok(d, _) =>
      && Solvent(d, most)
      && (exactly && d.status.Running? ==> Total(d.world) == Total(c.world))
    case Err(d, _) => Solvent(d, most)
    case Panic(_, why) => !why.TransferFailed?
  }

  lemma SameSolvent(c: Ctx, d: Ctx, most: nat)
    requires Solvent(c, most)
    requires d.callStack == c.callStack && d.cur.callType == c.cur.callType
    requires Total(d.world) <= most
    ensures Solvent(d, most)
  {
    forall i: nat | 1 <= i <= |d.callStack|
      ensures HoldsAtMost(FrameAt(d, i).callType, most)
    {
      assert HoldsAtMost(FrameAt(c, i).callType, most);
    }
  }

  lemma QuietSolvent<T>(c: Ctx, r: CtxOutcome<T>, most: nat)
    requires Solvent(c, most) && QuietCharges(c, r, 0)
    ensures Solvent(r.state, most) && r.state.world == c.world
  {
    SameSolvent(c, r.state, most);
  }

  lemma PushSolvent(
    c: Ctx, code: Bytes, input: Bytes, value: U256, callee: Addr, caller: Addr,
    callType: CallType, gas: U64, readOnly: bool, most: nat
  )
    requires Solvent(c, most) && HoldsAtMost(callType, most)
    ensures Solvent(CallPush(c, code, input, value, callee, caller, callType, gas, readOnly), most)
  {
    var d := CallPush(c, code, input, value, callee, caller, callType, gas, readOnly);
    forall i: nat | 1 <= i <= |d.callStack|
      ensures HoldsAtMost(FrameAt(d, i).callType, most)
    {
      if i <= |c.callStack| {
        assert FrameAt(d, i) == FrameAt(c, i);
      }
    }
  }

  lemma CreateEndSolvent(
    e: Env, c: Ctx, snapshot: World, a: Addr, data: Bytes, unused: U64, verdict: Verdict, most: nat
  )
    requires Solvent(c, most) && Total(snapshot) <= most
    ensures Conserves(c, CreateEnd(e, c, snapshot, a, data, unused, verdict), most, verdict.Success?)
  {
    hide CreateEnd;
    TotalPut(c.world, a, c.world.At(a).(code := data));
    SameSolvent(c, CreateEnd(e, c, snapshot, a, data, unused, verdict).state, most);
  }

  lemma CallEndSolvent(
    c: Ctx, snapshot: Option<World>, retOff: U256, retLen: U256,
    data: Bytes, unused: U64, verdict: Verdict, most: nat
  )
    requires Solvent(c, most) && (snapshot.Some? ==> Total(snapshot.value) <= most)
    ensures Conserves(c, CallEnd(c, snapshot, retOff, retLen, data, unused, verdict), most, verdict.Success?)
  {
    hide CallEnd;
    SameSolvent(c, CallEnd(c, snapshot, retOff, retLen, data, unused, verdict).state, most);
  }

  lemma TxEndSolvent(
    e: Env, c: Ctx, snapshot: World, aux: TxAux, data: Bytes, unused: U64, verdict: Verdict, most: nat
  )
    requires c.callStack == [] && Total(c.world) <= most < TWO_256 && Total(snapshot) <= most
    ensures Conserves(c, TxEnd(e, c, snapshot, aux, data, unused, verdict), most, true)
  {
    hide CreatePostProcessing, Emptied;
    var d := match aux
      case Contract(a) => CreatePostProcessing(e, c, a, data, verdict).state
      case Sender(a) => c.(dirty := c.dirty + {a});
    if aux.Contract? {
      TotalPut(c.world, aux.contract, c.world.At(aux.contract).(code := data));
    }
    var w1 := d.world.DeleteAccounts(Emptied(e, d.world, d.dirty));
    DeletionLowers(d.world, Emptied(e, d.world, d.dirty));
    DeletionLowers(w1, d.destroyed);
  }

  lemma FinishSolvent(e: Env, c: Ctx, data: Bytes, verdict: Verdict, most: nat)
    requires Disciplined(e, c) && Solvent(c, most)
    ensures Conserves(c, FinishCall(e, c, data, verdict), most, verdict.Success?)
  {
    hide CallEnd, CreateEnd, TxEnd;
    var d := CallPop(c);
    var n := |c.callStack|;
    assert FrameInPlace(e, c, n) && HoldsAtMost(FrameAt(c, n).callType, most);
    forall i: nat | 1 <= i < n
      ensures HoldsAtMost(FrameAt(d, i).callType, most)
    {
      assert FrameAt(d, i) == FrameAt(c, i);
    }
    match c.cur.callType {
      case TxCall(snapshot, aux) =>
        TxEndSolvent(e, d, snapshot, aux, data, c.cur.gas, verdict, most);
      case CreateCall(snapshot, a) =>
        CreateEndSolvent(e, d, snapshot, a, data, c.cur.gas, verdict, most);
      case SubCall(snapshot, retOff, retLen) =>
        CallEndSolvent(d, snapshot, retOff, retLen, data, c.cur.gas, verdict, most);
    }
  }

  // A call that returns at once keeps the total even when it is rolled back,
  // as its snapshot holds as much as the world.
  lemma ReturnSolvent(
    e: Env, c: Ctx, callType: CallType, data: Bytes, gas: U64, verdict: Verdict, most: nat
  )
    requires Solvent(c, most) && HoldsAtMost(callType, most)
    requires callType.TxCall? ==> c.callStack == []
    requires callType.SubCall? && callType.callSnapshot.Some? ==>
      Total(callType.callSnapshot.value) == Total(c.world)
    ensures Conserves(c, ReturnWithoutFrame(e, c, callType, data, gas, verdict), most, true)
  {
    hide CallEnd, TxEnd;
    match callType {
      case TxCall(snapshot, aux) =>
        TxEndSolvent(e, c, snapshot, aux, data, gas, verdict, most);
      case SubCall(snapshot, retOff, retLen) =>
        CallEndSolvent(c, snapshot, retOff, retLen, data, gas, verdict, most);
        var d := ReturnWithoutFrame(e, c, callType, data, gas, verdict).state;
        SameSolvent(c, d, most);
      case CreateCall(_, _) =>
    }
  }

  lemma TargetSolvent(
    e: Env, c: Ctx, precompile: Addr, codeAt: Addr, callee: Addr, caller: Addr,
    input: Bytes, value: U256, gas: U64, callType: CallType, readOnly: bool, most: nat
  )
    requires Solvent(c, most) && HoldsAtMost(callType, most)
    requires callType.TxCall? ==> c.callStack == []
    requires callType.SubCall? && callType.callSnapshot.Some? ==>
      Total(callType.callSnapshot.value) == Total(c.world)
    ensures Conserves(c, CallTarget(e, c, precompile, codeAt, callee, caller, input, value, gas, callType, readOnly),
                      most, true)
  {
    hide ReturnWithoutFrame;
    if precompile in e.precompiled {
      var result := e.precompiled[precompile](input);
      ReturnSolvent(e, c, callType, result.data, gas, result.verdict, most);
    } else {
      PushSolvent(c, c.world.GetCode(codeAt), input, value, callee, caller, callType, gas, readOnly, most);
    }
  }

  lemma CallSolvent(
    e: Env, c: Ctx, callee: Addr, caller: Addr, input: Bytes, gas: U64, value: U256,
    callType: CallType, most: nat
  )
    requires Solvent(c, most) && HoldsAtMost(callType, most)
    requires callType.TxCall? ==> c.callStack == []
    requires callType.SubCall? && callType.callSnapshot.Some? ==>
      Total(callType.callSnapshot.value) == Total(c.world)
    ensures Conserves(c, Call_(e, c, callee, caller, input, gas, value, callType), most, true)
  {
    hide ReturnWithoutFrame, CallTarget;
    var d := c.(dirty := c.dirty + {caller, callee});
    SameSolvent(c, d, most);
    ReturnSolvent(e, d, callType, [], gas, Success, most);
    if c.world.GetBalance(caller) >= value {
      var w := if c.world.Exist(callee) then c.world else c.world.CreateAccount(callee);
      TotalPut(c.world, callee, BLANK.(balance := c.world.GetBalance(callee)));
      TransferConserves(w, caller, callee, value);
      var d' := d.(world := w.Transfer(caller, callee, value).value);
      SameSolvent(d, d', most);
      ReturnSolvent(e, d', callType, [], gas, Success, most);
      TargetSolvent(e, d', callee, callee, callee, caller, input, value, gas, callType, false, most);
    }
  }

  // The world in which a creation transfers its value.
  lemma CreationWorld(e: Env, w: World, a: Addr, caller: Addr, nonce: U64)
    ensures var w1 := w.SetNonce(caller, nonce).CreateAccount(a);
      && Total(w1) == Total(w) && Total(w1.SetNonce(a, 1)) == Total(w)
      && Total(w.SetNonce(caller, nonce)) == Total(w)
      && w1.GetBalance(caller) == w.GetBalance(caller)
      && w1.SetNonce(a, 1).GetBalance(caller) == w.GetBalance(caller)
  {
    var w0 := w.SetNonce(caller, nonce);
    TotalPut(w, caller, w.At(caller).(nonce := nonce));
    TotalPut(w0, a, BLANK.(balance := w0.GetBalance(a)));
    var w1 := w0.CreateAccount(a);
    TotalPut(w1, a, w1.At(a).(nonce := 1));
  }

  lemma CreateSolvent(
    e: Env, c: Ctx, a: Addr, caller: Addr, code: Bytes, value: U256, gas: U64, callType: CallType, most: nat
  )
    requires Solvent(c, most) && HoldsAtMost(callType, most)
    ensures Conserves(c, Create_(e, c, a, caller, code, value, gas, callType), most, true)
  {
    hide Solvent, Total;
    assert Total(c.world) <= most < TWO_256 by { SolventBound(c, most); }
    if c.world.GetBalance(caller) >= value && c.world.GetNonce(caller) + 1 < TWO_64 {
      var nonce := c.world.GetNonce(caller) + 1;
      CreationWorld(e, c.world, a, caller, nonce);
      var w0 := c.world.SetNonce(caller, nonce);
      var access := if e.From(Berlin) then c.access.AddAddr(a) else c.access;
      var c1 := c.(world := w0, access := access);
      SameSolvent(c, c1, most);
      var w1 := w0.CreateAccount(a);
      var w := if e.From(SpuriousDragon) then w1.SetNonce(a, 1) else w1;
      TransferConserves(w, caller, a, value);
      var c2 := c1.(world := w.Transfer(caller, a, value).value, dirty := c.dirty + {a, caller});
      SameSolvent(c1, c2, most);
      PushSolvent(c2, code, [], value, a, caller, callType, gas, false, most);
    }
  }

  lemma SolventBound(c: Ctx, most: nat)
    requires Solvent(c, most)
    ensures Total(c.world) <= most < TWO_256
  {
  }

  lemma EnterOpSolvent(e: Env, op: Opcode, c: Ctx, most: nat)
    requires Solvent(c, most) && EntersCall(op)
    ensures Conserves(c, EnterOp(e, op, c), most, true)
  {
    hide CallBegin, CallCodeBegin, DelegateCallBegin, StaticCallBegin, CreateBegin, Create2Begin;
    match op {
      case CreateOp => CreateBeginSolvent(e, c, most);
      case CallOp => CallBeginSolvent(e, c, most);
      case CallCodeOp => CallCodeBeginSolvent(e, c, most);
      case DelegateCallOp => DelegateCallBeginSolvent(e, c, most);
      case Create2Op => Create2BeginSolvent(e, c, most);
      case StaticCallOp => StaticCallBeginSolvent(e, c, most);
    }
  }

  lemma CallBeginSolvent(e: Env, c: Ctx, most: nat)
    requires Solvent(c, most)
    ensures Conserves(c, CallBegin(e, c), most, true)
  {
    hide PrepareCall, Call_;
    var r := PrepareCall(e, c, PlainCall);
    QuietSolvent(c, r, most);
    if r.Ok? {
      var (d, q) := (r.state, r.value);
      CallSolvent(e, d, q.addr, d.cur.callee, q.input, q.gas, q.value,
                  SubCall(Some(d.world), q.retOff, q.retLen), most);
    }
  }

  lemma CallCodeBeginSolvent(e: Env, c: Ctx, most: nat)
    requires Solvent(c, most)
    ensures Conserves(c, CallCodeBegin(e, c), most, true)
  {
    hide PrepareCall, CallTarget;
    var r := PrepareCall(e, c, CallCode);
    QuietSolvent(c, r, most);
    if r.Ok? {
      var (d, q, self) := (r.state, r.value, r.state.cur.callee);
      TargetSolvent(e, d, self, q.addr, self, self, q.input, q.value, q.gas,
                    SubCall(Some(d.world), q.retOff, q.retLen), false, most);
    }
  }

  lemma DelegateCallBeginSolvent(e: Env, c: Ctx, most: nat)
    requires Solvent(c, most)
    ensures Conserves(c, DelegateCallBegin(e, c), most, true)
  {
    hide PrepareCall, CallTarget;
    var r := PrepareCall(e, c, DelegateCall);
    QuietSolvent(c, r, most);
    if r.Ok? {
      var (d, q, f) := (r.state, r.value, r.state.cur);
      TargetSolvent(e, d, f.callee, q.addr, f.callee, f.caller, q.input, f.value, q.gas,
                    SubCall(Some(d.world), q.retOff, q.retLen), false, most);
    }
  }

  lemma StaticCallBeginSolvent(e: Env, c: Ctx, most: nat)
    requires Solvent(c, most)
    ensures Conserves(c, StaticCallBegin(e, c), most, true)
  {
    hide PrepareCall, CallTarget;
    var r := PrepareCall(e, c, StaticCall);
    QuietSolvent(c, r, most);
    if r.Ok? {
      var (d, q) := (r.state, r.value);
      TargetSolvent(e, d, q.addr, q.addr, q.addr, d.cur.callee, q.input, 0, q.gas,
                    SubCall(None, q.retOff, q.retLen), true, most);
    }
  }

  lemma CreateBeginSolvent(e: Env, c: Ctx, most: nat)
    requires Solvent(c, most)
    ensures Conserves(c, CreateBegin(e, c), most, true)
  {
    hide PrepareCreate, Create_, Charge;
    var paid := Charge(c, GAS_CREATE);
    QuietSolvent(c, paid, most);
    var r := PrepareCreate(e, paid.state, false);
    QuietSolvent(paid.state, r, most);
    if r.Ok? {
      var (d, q, self) := (r.state, r.value, r.state.cur.callee);
      var a := e.createAddr(self, d.world.GetNonce(self));
      CreateSolvent(e, d, a, self, q.code, q.value, q.gas, CreateCall(d.world, a), most);
    }
  }

  lemma Create2BeginSolvent(e: Env, c: Ctx, most: nat)
    requires Solvent(c, most)
    ensures Conserves(c, Create2Begin(e, c), most, true)
  {
    hide PrepareCreate, Create_, Charge;
    var paid := Charge(c, GAS_CREATE2);
    QuietSolvent(c, paid, most);
    var r := PrepareCreate(e, paid.state, true);
    QuietSolvent(paid.state, r, most);
    if r.Ok? {
      var (d, q, self) := (r.state, r.value, r.state.cur.callee);
      var a := e.createAddr2(self, q.salt, q.code);
      CreateSolvent(e, d, a, self, q.code, q.value, q.gas, CreateCall(d.world, a), most);
    }
  }

  // SELFDESTRUCT moves the whole balance, or burns it when the heir is the
  // account itself.
  lemma BequeathTotal(c: Ctx, heir: Addr)
    requires Total(c.world) < TWO_256
    ensures Total(Bequeath(c, heir).world)
         == Total(c.world) - if heir == c.cur.callee then c.world.GetBalance(heir) else 0
  {
    var self, w := c.cur.callee, c.world;
    var balance := w.GetBalance(self);
    BalanceWithinTotal(w, self);
    if w.GetBalance(heir) + balance < TWO_256 {
      TotalPut(w, heir, w.At(heir).(balance := w.GetBalance(heir) + balance));
      var w1 := w.SetBalance(heir, w.GetBalance(heir) + balance);
      TotalPut(w1, self, w1.At(self).(balance := 0));
    } else {
      TotalPut(w, self, w.At(self).(balance := 0));
      if heir != self {
        TwoBalances(w, heir, self);
      }
    }
  }

  lemma TwoBalances(w: World, a: Addr, b: Addr)
    requires a != b
    ensures w.GetBalance(a) + w.GetBalance(b) <= Total(w)
  {
    if w.Exist(a) {
      SumWithout(w.accounts, a);
      BalanceWithinTotal(w.DeleteAccounts({a}), b);
    } else {
      BalanceWithinTotal(w, b);
    }
  }

  // The instruction about to run destroys its account in favour of itself.
  predicate Burns(c: Ctx) {
    Fetch(c.cur).SelfDestructOp? && c.cur.stack.top >= 1 && ToAddr(Below(c.cur, 1)) == c.cur.callee
  }

  lemma SelfDestructSolvent(e: Env, c: Ctx, most: nat)
    requires Disciplined(e, c) && Solvent(c, most)
    ensures Conserves(c, SelfDestruct(e, c), most,
                      !(c.cur.stack.top >= 1 && ToAddr(Below(c.cur, 1)) == c.cur.callee))
  {
    hide PrepareSelfDestruct, FinishCall, Bequeath;
    var r := PrepareSelfDestruct(e, c);
    QuietKeeps(e, c, r);
    QuietSolvent(c, r, most);
    if r.Ok? {
      HeirIsTop(e, c);
      var d := Bequeath(r.state, r.value);
      BequeathTotal(r.state, r.value);
      BequeathKeeps(e, r.state, r.value);
      BequeathFrames(r.state, r.value);
      SameSolvent(r.state, d, most);
      FinishSolvent(e, d, [], Success, most);
    }
  }

  lemma BequeathFrames(c: Ctx, heir: Addr)
    ensures Bequeath(c, heir).callStack == c.callStack && Bequeath(c, heir).cur == c.cur
  {
  }

  lemma HeirIsTop(e: Env, c: Ctx)
    ensures var r := PrepareSelfDestruct(e, c);
      r.Ok? ==> c.cur.stack.top >= 1 && r.value == ToAddr(Below(c.cur, 1))
  {
  }

  lemma EndOpSolvent(e: Env, op: Opcode, c: Ctx, most: nat)
    requires Disciplined(e, c) && Solvent(c, most) && EndsFrame(op) && op == Fetch(c.cur)
    ensures Conserves(c, EndOp(e, op, c), most, !op.RevertOp? && !Burns(c))
  {
    hide FinishCall, ReturnData, SelfDestruct;
    match op {
      case Stop =>
        FinishSolvent(e, c, [], Success, most);
      case ReturnOp =>
        var r := ReturnData(c);
        QuietKeeps(e, c, r);
        QuietSolvent(c, r, most);
        if r.Ok? { FinishSolvent(e, r.state, r.value, Success, most); }
      case RevertOp =>
        var r := ReturnData(c);
        QuietKeeps(e, c, r);
        QuietSolvent(c, r, most);
        if r.Ok? { FinishSolvent(e, r.state, r.value, Failure(RevertedCall), most); }
      case SelfDestructOp =>
        SelfDestructSolvent(e, c, most);
    }
  }

  lemma SStoreSolvent(e: Env, c: Ctx, most: nat)
    requires Solvent(c, most)
    ensures Conserves(c, SStore(e, c), most, true)
  {
    hide SStoreGas, Solvent, Total;
    SolventBound(c, most);
    var r := SStore(e, c);
    if r.Ok? {
      var a := r.state.cur.callee;
      forall s: map<U256, U256> {
        TotalPut(c.world, a, c.world.At(a).(storage := s));
      }
    }
    SameSolvent(c, r.state, most);
  }

  lemma PlainSolvent(e: Env, op: Opcode, data: Bytes, c: Ctx, most: nat)
    requires Solvent(c, most) && |data| <= 32
    requires !EntersCall(op) && !EndsFrame(op)
    ensures Conserves(c, Exec(e, op, data, c), most, true)
  {
    hide SStore, Log, Jump, JumpI, QuietOp, Solvent;
    if op.SStoreOp? {
      SStoreSolvent(e, c, most);
    } else if op.LogOp? {
      LogSolvent(e, c, op.topics, most);
    } else if op.JumpOp? || op.JumpIOp? {
      JumpsSolvent(c, most);
    } else {
      QuietSolvent(c, QuietOp(e, op, data, c), most);
    }
  }

  lemma LogSolvent(e: Env, c: Ctx, num: nat, most: nat)
    requires Solvent(c, most)
    ensures Conserves(c, Log(e, c, num), most, true)
  {
    hide LogRecord;
    SameSolvent(c, Log(e, c, num).state, most);
  }

  lemma JumpsSolvent(c: Ctx, most: nat)
    requires Solvent(c, most)
    ensures Conserves(c, Jump(c), most, true) && Conserves(c, JumpI(c), most, true)
  {
    hide Jump, JumpI;
    SameSolvent(c, Jump(c).state, most);
    SameSolvent(c, JumpI(c).state, most);
  }

  lemma ExecSolvent(e: Env, op: Opcode, data: Bytes, c: Ctx, most: nat)
    requires Disciplined(e, c) && Solvent(c, most) && |data| <= 32 && op == Fetch(c.cur)
    ensures Conserves(c, Exec(e, op, data, c), most, !op.RevertOp? && !Burns(c))
  {
    hide EnterOp, EndOp;
    if EntersCall(op) {
      EnterOpSolvent(e, op, c, most);
    } else if EndsFrame(op) {
      EndOpSolvent(e, op, c, most);
    } else {
      PlainSolvent(e, op, data, c, most);
    }
  }

  lemma {:induction false} UnwindSolvent(e: Env, r: CtxOutcome<()>, most: nat)
    requires Keeps(e, r) && r.Err? && Solvent(r.state, most)
    ensures var u := Unwind(e, r);
      if u.Ok? then Solvent(u.state, most) else u.Panic? && !u.why.TransferFailed?
    decreases |r.state.callStack|
  {
    hide FinishCall;
    FinishKeeps(e, r.state, [], Failure(r.error));
    FinishSolvent(e, r.state, [], Failure(r.error), most);
    var next := FinishCall(e, r.state, [], Failure(r.error));
    if next.Err? {
      UnwindSolvent(e, next, most);
    }
  }

  // The instruction at the pc fails or reverts, so frames are rolled back.
  ghost predicate RollsBack(e: Env, c: Ctx) {
    Fetchable(c.cur) && (Fetch(c.cur).RevertOp? || Exec(e, Fetch(c.cur), PushedData(c.cur), c).Err?)
  }

  // A step keeps solvency and never fails a transfer; the total stays exactly
  // the same unless the step ends the transaction, rolls back, or burns.
  lemma StepConserves(e: Env, c: Ctx, most: nat)
    requires Disciplined(e, c) && Solvent(c, most)
    ensures var d := Step(e, c);
      && (d.status.Aborted? ==> !d.status.why.TransferFailed?)
      && (!d.status.Aborted? ==> Solvent(d, most))
      && (d.status.Running? && !RollsBack(e, c) && !Burns(c) ==> Total(d.world) == Total(c.world))
  {
    hide Exec, Unwind;
    if Fetchable(c.cur) {
      var op := Fetch(c.cur);
      var r := Exec(e, op, PushedData(c.cur), c);
      ExecKeeps(e, op, PushedData(c.cur), c);
      ExecSolvent(e, op, PushedData(c.cur), c, most);
      UnwindKeeps(e, r);
      if r.Err? {
        UnwindSolvent(e, r, most);
      }
      var u := Unwind(e, r);
      if u.Ok? {
        SameSolvent(u.state, AdvancePc(u.state, PushWidth(op)), most);
      }
    }
  }

  lemma {:induction false} RunConserves(e: Env, c: Ctx, n: nat, most: nat)
    requires Disciplined(e, c) && Solvent(c, most)
    ensures var d := Run(e, c, n);
      && (d.status.Aborted? ==> !d.status.why.TransferFailed?)
      && (!d.status.Aborted? ==> Solvent(d, most))
    decreases n
  {
    hide Step;
    if n > 0 {
      StepConserves(e, c, most);
      StepKeeps(e, c);
      if Step(e, c).status.Running? {
        RunConserves(e, Step(e, c), n - 1, most);
      }
    }
  }

  lemma StartConserves(e: Env, tx: Tx, world: World, most: nat)
    requires Total(world) <= most < TWO_256
    ensures var c := Start(e, tx, world);
      && (c.status.Aborted? ==> !c.status.why.TransferFailed?)
      && (!c.status.Aborted? ==> Solvent(c, most))
  {
    hide Call_, Create_;
    var c := NewContext(e, tx.gas, InitialAccess(e, tx.from, tx.to, tx.listed), world);
    var gas := Wrap64(tx.gas - GAS_TX);
    var nonce: int := world.GetNonce(tx.from);
    match tx.to {
      case Some(to) =>
        var w := world.SetNonce(tx.from, Wrap64(nonce + 1));
        TotalPut(world, tx.from, world.At(tx.from).(nonce := Wrap64(nonce + 1)));
        CallSolvent(e, c.(world := w), to, tx.from, tx.input, gas, tx.value,
                    TxCall(w, Sender(tx.from)), most);
        CallKeeps(e, c.(world := w), to, tx.from, tx.input, gas, tx.value, TxCall(w, Sender(tx.from)));
        var r := Call_(e, c.(world := w), to, tx.from, tx.input, gas, tx.value, TxCall(w, Sender(tx.from)));
        if r.Err? {
          SameSolvent(r.state, Start(e, tx, world), most);
        }
      case None =>
        var a := e.createAddr(tx.from, world.GetNonce(tx.from));
        CreateSolvent(e, c, a, tx.from, tx.input, tx.value, gas, TxCall(world, Contract(a)), most);
        CreateKeeps(e, c, a, tx.from, tx.input, tx.value, gas, TxCall(world, Contract(a)));
        var r := Create_(e, c, a, tx.from, tx.input, tx.value, gas, TxCall(world, Contract(a)));
        if r.Err? {
          SameSolvent(r.state, Start(e, tx, world), most);
        }
    }
  }

  // In every state of every execution of a world whose balances sum to less
  // than 2^256: the sum never exceeds its start, in the world and in every
  // snapshot a frame could roll back to, and no unwrapped transfer fails.
  lemma BalancesNeverGrow(e: Env, tx: Tx, world: World, n: nat)
    requires Total(world) < TWO_256
    ensures var c := Execution(e, tx, world, n);
      && (c.status.Aborted? ==> !c.status.why.TransferFailed?)
      && (!c.status.Aborted? ==>
            && Total(c.world) <= Total(world)
            && forall i: nat | 1 <= i <= |c.callStack| ::
                 HoldsAtMost(FrameAt(c, i).callType, Total(world)))
  {
    hide Run, Start;
    StartKeeps(e, tx, world);
    StartConserves(e, tx, world, Total(world));
    var c := Start(e, tx, world);
    if c.status.Running? {
      RunConserves(e, c, n, Total(world));
    } else {
      RunStopped(e, c, n);
    }
  }

  lemma RunStopped(e: Env, c: Ctx, n: nat)
    requires !c.status.Running?
    ensures Run(e, c, n) == c
  {
  }
}
