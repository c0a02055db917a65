// What the call instructions do, by the words on the caller's stack: the frame
// each kind starts, what it costs and hands over, and what a call that needs no
// frame gives back.
module CallMeaning {
  import opened Common
  import opened Params
  import opened FlatWorld
  import opened Machine
  import opened CallMemory
  import opened Frames
  import opened Instructions
  import opened Interpreter
  import opened Stepping
  import opened StackMeaning
  import opened MemoryMeaning
  import opened WorldMeaning

  // ---------- what is asked for ----------

  // CALL, CALLCODE, DELEGATECALL and STATICCALL.
  predicate IsCall(raw: Byte) { raw == 0xf1 || raw == 0xf2 || raw == 0xf4 || raw == 0xfa }

  // Only the first two take a value.
  predicate TakesValue(raw: Byte) { raw == 0xf1 || raw == 0xf2 }

  function Arity(raw: Byte): nat { if TakesValue(raw) then 7 else 6 }

  datatype Asked = Asked(
    gas: U256, to: Addr, value: U256, inOff: U256, inLen: U256, retOff: U256, retLen: U256)

  // From the top of the stack: gas, address, value if any, where the input is,
  // and where the returned data goes.
  function AskedBy(c: Ctx, raw: Byte): Asked {
    if Height(c) < Arity(raw) then Asked(0, 0, 0, 0, 0, 0, 0)
    else if TakesValue(raw) then
      Asked(Word(c, 1), Word(c, 2) % TWO_160, Word(c, 3), Word(c, 4), Word(c, 5), Word(c, 6), Word(c, 7))
    else
      Asked(Word(c, 1), Word(c, 2) % TWO_160, 0, Word(c, 3), Word(c, 4), Word(c, 5), Word(c, 6))
  }

  // ---------- what it costs ----------

  // The fees of a call before it hands over gas: the base fee by fork, a cold
  // address, a new account that a value goes to, the value, and the memory that
  // holds the input.
  function CallFees(e: Env, c: Ctx, raw: Byte): int {
    var q := AskedBy(c, raw);
    (if e.From(Berlin) then (if q.to in c.access.addrs then 100 else 2600)
     else if e.From(TangerineWhistle) then 700 else 40)
    + (if raw == 0xf1 && q.value != 0 && e.From(SpuriousDragon) && e.IsEmpty(c.world, q.to) then 25000 else 0)
    + (if TakesValue(raw) && q.value != 0 then 9000 else 0)
    + Fee(c.cur.memory, q.inOff + q.inLen)
  }

  function GasLeft(e: Env, c: Ctx, raw: Byte): int { c.cur.gas - CallFees(e, c, raw) }

  // What it hands over: what is asked for, from Tangerine Whistle on at most all
  // but one 64th of what is left (EIP-150).
  function HandedOver(e: Env, c: Ctx, raw: Byte): int {
    var asked, left := AskedBy(c, raw).gas, GasLeft(e, c, raw);
    var most := left - left / 64;
    if e.From(TangerineWhistle) && most < asked then most else asked
  }

  // The callee gets 2300 more when a CALL or CALLCODE carries no value.
  function GasReceived(e: Env, c: Ctx, raw: Byte): U64 {
    Wrap64(HandedOver(e, c, raw) + if TakesValue(raw) && AskedBy(c, raw).value == 0 then 2300 else 0)
  }

  // The words are there, the input fits memory, the gas suffices, and a CALL in a
  // read-only frame carries no value.
  predicate Affordable(e: Env, c: Ctx, raw: Byte) {
    var q := AskedBy(c, raw);
    && Height(c) >= Arity(raw) && q.inOff + q.inLen <= MAX_MEM_SIZE
    && GasLeft(e, c, raw) >= 0 && HandedOver(e, c, raw) <= GasLeft(e, c, raw)
    && (raw == 0xf1 && c.cur.readOnly ==> q.value == 0)
  }

  // The calling frame once it has paid, with its words gone and its memory grown.
  ghost predicate Waits(e: Env, c: Ctx, f: Frame, raw: Byte) {
    var q := AskedBy(c, raw);
    && Height(c) >= Arity(raw) && Words(f) == Words(c.cur)[..Height(c) - Arity(raw)]
    && f.gas == GasLeft(e, c, raw) - HandedOver(e, c, raw)
    && Stored(c.cur.memory, f.memory, q.inOff + q.inLen, 0, [])
    && f == c.cur.(stack := f.stack, gas := f.gas, memory := f.memory)
  }

  function InputOf(c: Ctx, raw: Byte): seq<Byte> {
    var q := AskedBy(c, raw);
    Shown(c.cur.memory, q.inOff, q.inLen)
  }

  // ---------- preparing a call ----------

  function KindOf(raw: Byte): CallKind {
    if raw == 0xf1 then PlainCall else if raw == 0xf2 then CallCode else if raw == 0xf4 then DelegateCall else StaticCall
  }

  lemma TailOutcome(f: Frame)
    ensures var r := PopCallTail(f);
      var (off: U256, len: U256) := if f.stack.top >= 4 then (Below(f, 1), Below(f, 2)) else (0, 0);
      && (r.Ok? <==> f.stack.top >= 4 && off + len <= MAX_MEM_SIZE)
      && (r.Ok? ==>
            && r.state == Drop(f, 4).(memory := r.state.memory)
            && Stored(f.memory, r.state.memory, off + len, 0, [])
            && r.value == ((Shown(f.memory, off, len), Fee(f.memory, off + len)), (Below(f, 3), Below(f, 4))))
  {
    hide Slice, Stored, Fee, Shown, Charges, Local;
    if f.stack.top >= 4 {
      var (off, len) := (Below(f, 1), Below(f, 2));
      SliceLeaves(Drop(f, 4), off, len);
      SliceShows(Drop(f, 4), off, len);
      assert Below(Drop(f, 2), 1) == Below(f, 3) && Below(Drop(f, 2), 2) == Below(f, 4);
    }
  }

  lemma AskedWords(c: Ctx, raw: Byte)
    requires IsCall(raw) && Height(c) >= Arity(raw)
    ensures var q, f := AskedBy(c, raw), c.cur;
      && f.stack.top >= Arity(raw) && q.gas == Below(f, 1) && q.to == ToAddr(Below(f, 2))
      && q.value == (if TakesValue(raw) then Below(f, 3) else 0)
      && q.inOff == Below(f, Arity(raw) - 3) && q.inLen == Below(f, Arity(raw) - 2)
      && q.retOff == Below(f, Arity(raw) - 1) && q.retLen == Below(f, Arity(raw))
  {
  }

  lemma ArgsOutcome(c: Ctx, raw: Byte, fee: nat)
    requires IsCall(raw)
    ensures var q, r := AskedBy(c, raw), PopCallArgs(c.cur, KindOf(raw), fee);
      && (r.Ok? <==> Height(c) >= Arity(raw) && q.inOff + q.inLen <= MAX_MEM_SIZE && c.cur.gas >= fee)
      && (r.Ok? ==>
            && r.state == Drop(c.cur, Arity(raw)).(gas := c.cur.gas - fee, memory := r.state.memory)
            && Stored(c.cur.memory, r.state.memory, q.inOff + q.inLen, 0, [])
            && r.value == CallArgs(q.gas, q.to, q.value, Shown(c.cur.memory, q.inOff, q.inLen),
                                   Fee(c.cur.memory, q.inOff + q.inLen), q.retOff, q.retLen))
  {
    hide PopCallTail, Stored, Fee, Shown, Charges, Local, AskedBy;
    var f, head := c.cur, Arity(raw) - 4;
    if f.stack.top >= head && f.gas >= fee {
      var g := Drop(f.(gas := f.gas - fee), head);
      TailOutcome(g);
      if f.stack.top >= Arity(raw) {
        AskedWords(c, raw);
        forall k | 1 <= k <= 4 ensures Below(g, k) == Below(f, k + head) {
        }
      }
    }
  }

  // The surcharges after the base fee.
  function Surcharges(e: Env, c: Ctx, raw: Byte, val: U256, to: Addr, memory: nat): nat {
    (if e.From(Berlin) && to !in c.access.addrs then 2500 else 0)
    + (if raw == 0xf1 && val != 0 && e.From(SpuriousDragon) && e.IsEmpty(c.world, to) then 25000 else 0)
    + (if TakesValue(raw) && val != 0 then 9000 else 0)
    + memory
  }

  lemma SurchargesPaid(e: Env, c: Ctx, raw: Byte, val: U256, to: Addr, memory: nat)
    requires IsCall(raw)
    ensures var r, due := CallSurcharges(e, c, KindOf(raw), val, to, memory), Surcharges(e, c, raw, val, to, memory);
      && (r.Ok? <==> c.cur.gas >= due) && !r.Panic?
      && (r.Ok? ==> r.state == c.(access := WithAccount(e, c.access, to), cur := r.state.cur)
                    && r.state.cur == c.cur.(gas := r.state.cur.gas) && r.state.cur.gas == c.cur.gas - due)
  {
    hide QuietCharges, Charge;
    AlreadyListed(c.access, to);
  }

  lemma AlreadyListed(access: AccessList, a: Addr)
    ensures a in access.addrs ==> access.(addrs := access.addrs + {a}) == access
    ensures access.AddAddr(a) == access.(addrs := access.addrs + {a})
  {
    if a in access.addrs {
      assert access.addrs + {a} == access.addrs;
    }
  }

  lemma FundOutcome(e: Env, c: Ctx, raw: Byte, args: CallArgs)
    requires IsCall(raw)
    ensures var r, due := FundCall(e, c, KindOf(raw), args), Surcharges(e, c, raw, args.value, args.addr, args.memGas);
      var left := c.cur.gas - due;
      var quota := if e.From(TangerineWhistle) && left - left / 64 < args.asked then left - left / 64 else args.asked;
      && (r.Ok? <==> left >= 0 && quota <= left) && !r.Panic?
      && (r.Ok? ==>
            && r.state == c.(access := WithAccount(e, c.access, args.addr), cur := r.state.cur)
            && r.state.cur == c.cur.(gas := r.state.cur.gas) && r.state.cur.gas == left - quota
            && r.value == CallRequest(Wrap64(quota + if TakesValue(raw) && args.value == 0 then 2300 else 0),
                                      args.addr, args.value, args.input, args.retOff, args.retLen))
  {
    hide CallSurcharges, Surcharges, WithAccount, QuietCharges;
    SurchargesPaid(e, c, raw, args.value, args.addr, args.memGas);
  }

  lemma BaseFee(e: Env, c: Ctx, raw: Byte)
    requires IsCall(raw)
    ensures var q := AskedBy(c, raw);
      CallFees(e, c, raw)
        == CallBaseFee(e) + Surcharges(e, c, raw, q.value, q.to, 0) + Fee(c.cur.memory, q.inOff + q.inLen)
    ensures CallFees(e, c, raw) >= CallBaseFee(e)
  {
    hide Fee, AskedBy;
    FeeNonNegative(c.cur.memory, AskedBy(c, raw).inOff + AskedBy(c, raw).inLen);
  }

  // Everything before the target of the call is chosen.
  lemma Prepared(e: Env, c: Ctx, raw: Byte)
    requires IsCall(raw)
    ensures var q, r := AskedBy(c, raw), PrepareCall(e, c, KindOf(raw));
      && (r.Ok? <==> Affordable(e, c, raw))
      && (r.Ok? ==>
            && r.state == c.(access := WithAccount(e, c.access, q.to), cur := r.state.cur)
            && Waits(e, c, r.state.cur, raw)
            && r.value == CallRequest(GasReceived(e, c, raw), q.to, q.value, InputOf(c, raw), q.retOff, q.retLen))
  {
    hide PopCallArgs, FundCall, CallBaseFee, Stored, Fee, Shown, AskedBy, Surcharges, WithAccount, CallFees;
    hide QuietCharges, Charges, Local;
    ArgsOutcome(c, raw, CallBaseFee(e));
    BaseFee(e, c, raw);
    var p, q := PopCallArgs(c.cur, KindOf(raw), CallBaseFee(e)), AskedBy(c, raw);
    if p.Ok? {
      var d := c.(cur := p.state);
      FundOutcome(e, d, raw, p.value);
      SurchargesSame(e, c, d, raw, q.value, q.to, Fee(c.cur.memory, q.inOff + q.inLen));
      DroppedWords(c, Arity(raw), p.state);
    }
  }

  lemma SurchargesSame(e: Env, c: Ctx, d: Ctx, raw: Byte, val: U256, to: Addr, memory: int)
    requires c.access == d.access && c.world == d.world && memory >= 0
    ensures Surcharges(e, d, raw, val, to, memory) == Surcharges(e, c, raw, val, to, 0) + memory
  {
  }

  lemma DroppedWords(c: Ctx, n: nat, f: Frame)
    requires c.cur.stack.top >= n && f.stack == Drop(c.cur, n).stack
    ensures Words(f) == Words(c.cur)[..Height(c) - n]
  {
  }

  // ---------- the frame a call starts ----------

  // Value moved between two accounts, and nothing else a reader can see.
  ghost predicate Moves(v: World, w: World, from: Addr, to: Addr, val: nat) {
    && w.logs == v.logs
    && (forall a: Addr :: w.GetNonce(a) == v.GetNonce(a) && w.GetCode(a) == v.GetCode(a))
    && (forall a: Addr, k: U256 :: w.GetState(a, k) == v.GetState(a, k))
    && (forall a: Addr ::
          w.GetBalance(a) == v.GetBalance(a) - (if a == from then val else 0) + (if a == to then val else 0))
  }

  lemma TransferMoves(w: World, from: Addr, to: Addr, val: U256)
    ensures var t := w.Transfer(from, to, val);
      && (t.Some? <==> val <= w.GetBalance(from) && (from != to ==> w.GetBalance(to) + val < TWO_256))
      && (t.Some? ==> Moves(w, t.value, from, to, val))
  {
  }

  // What a call still needs: its fork, depth left, and a balance for its value.
  predicate Allowed(e: Env, c: Ctx, raw: Byte) {
    var q, self := AskedBy(c, raw), c.cur.callee;
    && Affordable(e, c, raw) && |c.callStack| != 1024
    && (raw == 0xf4 ==> e.From(Homestead)) && (raw == 0xfa ==> e.From(Byzantium))
    && (TakesValue(raw) ==> q.value <= c.world.GetBalance(self))
    && (raw == 0xf1 && q.to != self ==> c.world.GetBalance(q.to) + q.value < TWO_256)
  }

  // Where a precompiled contract is looked for: CALLCODE and DELEGATECALL look at
  // the running contract's own address.
  function LookedFor(c: Ctx, raw: Byte): Addr {
    if raw == 0xf2 || raw == 0xf4 then c.cur.callee else AskedBy(c, raw).to
  }

  // A CALL to an account without code needs no frame, nor does a precompiled contract.
  predicate NeedsFrame(e: Env, c: Ctx, raw: Byte) {
    LookedFor(c, raw) !in e.precompiled && (raw == 0xf1 ==> c.world.GetCode(AskedBy(c, raw).to) != [])
  }

  // A frame that has not run yet.
  ghost predicate IsNew(
    f: Frame, code: Bytes, input: seq<Byte>, callee: Addr, caller: Addr, value: U256, gas: U64, readOnly: bool
  ) {
    && f.pc == 0 && Words(f) == [] && f.memory.space == [] && f.lastReturned == []
    && f.code == code && f.input == input && f.callee == callee && f.caller == caller && f.value == value
    && f.gas == gas && f.readOnly == readOnly
  }

  // The frame runs the code of the asked account on the bytes the caller's memory
  // shows, for that account or, after CALLCODE and DELEGATECALL, for the running
  // one; DELEGATECALL passes caller and value on.
  ghost predicate CalledFrame(e: Env, c: Ctx, f: Frame, raw: Byte) {
    var q, self := AskedBy(c, raw), c.cur.callee;
    && IsNew(f, c.world.GetCode(q.to), InputOf(c, raw),
             if raw == 0xf1 || raw == 0xfa then q.to else self,
             if raw == 0xf4 then c.cur.caller else self,
             if raw == 0xf4 then c.cur.value else if raw == 0xfa then 0 else q.value,
             GasReceived(e, c, raw), c.cur.readOnly || raw == 0xfa)
    && f.callType == SubCall(if raw == 0xfa then None else Some(c.world), q.retOff, q.retLen)
  }

  // The state after a call that started a frame.
  ghost predicate Enters(e: Env, c: Ctx, d: Ctx, raw: Byte) {
    var q, self, n := AskedBy(c, raw), c.cur.callee, |c.callStack|;
    && |d.callStack| == n + 1 && d.callStack[..n] == c.callStack && Waits(e, c, d.callStack[n], raw)
    && CalledFrame(e, c, d.cur, raw)
    && Moves(c.world, d.world, self, q.to, if raw == 0xf1 then q.value else 0)
    && d == c.(callStack := d.callStack, cur := d.cur, world := d.world, access := WithAccount(e, c.access, q.to),
               dirty := c.dirty + if raw == 0xf1 then {self, q.to} else {})
  }

  function CallCodeOf(raw: Byte): Opcode {
    if raw == 0xf1 then CallOp else if raw == 0xf2 then CallCodeOp else if raw == 0xf4 then DelegateCallOp else StaticCallOp
  }

  lemma CallDecodes(raw: Byte)
    requires IsCall(raw)
    ensures Decode(raw) == CallCodeOf(raw)
  {
  }

  // The instruction's own part of the step.
  function CallOutcome(e: Env, c: Ctx, raw: Byte): CtxOutcome<()> {
    if raw == 0xf1 then CallBegin(e, c) else if raw == 0xf2 then CallCodeBegin(e, c)
    else if raw == 0xf4 then DelegateCallBegin(e, c) else StaticCallBegin(e, c)
  }

  lemma CallDispatch(e: Env, c: Ctx, raw: Byte)
    requires IsCall(raw)
    ensures Exec(e, CallCodeOf(raw), [], c) == CallOutcome(e, c, raw) && EntersCall(CallCodeOf(raw))
  {
    hide CallBegin, CallCodeBegin, DelegateCallBegin, StaticCallBegin;
  }

  lemma RunsCall(e: Env, c: Ctx, raw: Byte)
    requires Runs(c, raw) && IsCall(raw)
    ensures var r := CallOutcome(e, c, raw);
      (Completes(e, c) <==> r.Ok?) && (r.Ok? ==> Step(e, c) == r.state)
  {
    hide Decode, Exec, CallOutcome, Fetch;
    CallDecodes(raw);
    CallDispatch(e, c, raw);
    FetchesRaw(c, raw);
  }

  lemma NewFrames(
    c: Ctx, code: Bytes, input: Bytes, value: U256, callee: Addr, caller: Addr, callType: CallType, gas: U64, readOnly: bool
  )
    ensures var d, n := CallPush(c, code, input, value, callee, caller, callType, gas, readOnly), |c.callStack|;
      && d == c.(callStack := d.callStack, cur := d.cur)
      && |d.callStack| == n + 1 && d.callStack[..n] == c.callStack && d.callStack[n] == c.cur
      && IsNew(d.cur, code, input, callee, caller, value, gas, c.cur.readOnly || readOnly) && d.cur.callType == callType
  {
  }

  lemma OthersEnter(e: Env, c: Ctx, raw: Byte)
    requires raw == 0xf2 || raw == 0xf4 || raw == 0xfa
    requires NeedsFrame(e, c, raw)
    ensures var r := CallOutcome(e, c, raw);
      (r.Ok? <==> Allowed(e, c, raw)) && (r.Ok? ==> Enters(e, c, r.state, raw))
  {
    hide PrepareCall, CallPush, Affordable, Waits, AskedBy, InputOf, GasReceived, WithAccount, IsNew;
    Prepared(e, c, raw);
    var r, q := PrepareCall(e, c, KindOf(raw)), AskedBy(c, raw);
    if r.Ok? {
      WaitsSame(e, c, r.state.cur, raw);
      var (d, f) := (r.state, CalledAs(c, raw));
      NewFrames(d, d.world.GetCode(q.to), r.value.input, f.2, f.0, f.1,
                SubCall(if raw == 0xfa then None else Some(d.world), q.retOff, q.retLen), r.value.gas, raw == 0xfa);
      assert c.dirty + {} == c.dirty;
    }
  }

  // Callee, caller and value of the new frame, by kind.
  function CalledAs(c: Ctx, raw: Byte): (Addr, Addr, U256) {
    var q, self := AskedBy(c, raw), c.cur.callee;
    (if raw == 0xf1 || raw == 0xfa then q.to else self,
     if raw == 0xf4 then c.cur.caller else self,
     if raw == 0xf4 then c.cur.value else if raw == 0xfa then 0 else q.value)
  }

  lemma WaitsSame(e: Env, c: Ctx, f: Frame, raw: Byte)
    requires Waits(e, c, f, raw)
    ensures f.callee == c.cur.callee && f.caller == c.cur.caller && f.value == c.cur.value && f.readOnly == c.cur.readOnly
    ensures f.callType == c.cur.callType && f.lastReturned == c.cur.lastReturned && f.pc == c.cur.pc
    ensures f.stack.top < MAX_STACK_DEPTH
  {
  }

  lemma CallEnters(e: Env, c: Ctx)
    requires NeedsFrame(e, c, 0xf1)
    ensures var r := CallOutcome(e, c, 0xf1);
      (r.Ok? <==> Allowed(e, c, 0xf1)) && (r.Ok? ==> Enters(e, c, r.state, 0xf1))
  {
    hide PrepareCall, CallPush, Affordable, Waits, AskedBy, InputOf, GasReceived, WithAccount, IsNew, Moves;
    hide ReturnWithoutFrame;
    Prepared(e, c, 0xf1);
    var r, q := PrepareCall(e, c, PlainCall), AskedBy(c, 0xf1);
    if r.Ok? {
      WaitsSame(e, c, r.state.cur, 0xf1);
      var d, self := r.state, c.cur.callee;
      TransferMoves(c.world, self, q.to, q.value);
      var t := c.world.Transfer(self, q.to, q.value);
      CodeMeansExists(c.world, q.to);
      if t.Some? {
        CodeKept(c.world, t.value, self, q.to, q.value, q.to);
        NewFrames(d.(world := t.value, dirty := c.dirty + {self, q.to}), c.world.GetCode(q.to), r.value.input, q.value,
                  q.to, self, SubCall(Some(c.world), q.retOff, q.retLen), r.value.gas, false);
      }
    }
  }

  lemma CodeMeansExists(w: World, a: Addr)
    ensures w.GetCode(a) != [] ==> w.Exist(a)
  {
  }

  lemma CodeKept(v: World, w: World, from: Addr, to: Addr, val: nat, a: Addr)
    requires Moves(v, w, from, to, val)
    ensures w.GetCode(a) == v.GetCode(a)
  {
  }

  // Each kind of call that needs a frame: when it completes, and the frame it
  // starts, by the words on the caller's stack.
  lemma CallInstruction(e: Env, c: Ctx, raw: Byte)
    requires Runs(c, raw) && IsCall(raw) && NeedsFrame(e, c, raw)
    ensures Completes(e, c) <==> Allowed(e, c, raw)
    ensures Completes(e, c) ==> Enters(e, c, Step(e, c), raw)
  {
    hide CallOutcome, Step, Completes, Allowed, Enters, NeedsFrame;
    RunsCall(e, c, raw);
    if raw == 0xf1 {
      CallEnters(e, c);
    } else {
      OthersEnter(e, c, raw);
    }
  }

  // ---------- what a call gives back ----------

  predicate KeepsGas(verdict: Verdict) { verdict.Success? || verdict.error.RevertedCall? }

  // The calling frame got one for a success and zero for a failure, and the data;
  // unless the call failed for good also the unused gas and, at the place it asked
  // for, as much of the data as that holds.
  ghost predicate TakesBack(
    f: Frame, g: Frame, retOff: U256, retLen: U256, data: seq<Byte>, unused: int, verdict: Verdict
  ) {
    && Words(g) == Words(f) + [if verdict.Success? then 1 else 0]
    && g.lastReturned == data
    && g.gas == Wrap64(f.gas + if KeepsGas(verdict) then unused else 0)
    && (if KeepsGas(verdict) then Stored(f.memory, g.memory, retOff + retLen, retOff, data[..Min(retLen, |data|)])
        else g.memory == f.memory)
    && g == f.(stack := g.stack, gas := g.gas, memory := g.memory, lastReturned := g.lastReturned, pc := g.pc)
  }

  lemma TakeBackExactly(
    f: Frame, retOff: U256, retLen: U256, data: Bytes, unused: U64, verdict: Verdict
  )
    ensures var r := TakeBack(f, retOff, retLen, data, unused, verdict);
      && (r.Ok? <==> (KeepsGas(verdict) ==> retOff + retLen <= MAX_MEM_SIZE) && f.stack.top < MAX_STACK_DEPTH)
      && (r.Ok? ==> TakesBack(f, r.state, retOff, retLen, data, unused, verdict) && r.state.pc == f.pc)
  {
    hide CopyIn, Stored;
    CopyExactly(f.memory, retOff, retLen, data);
  }

  // What a call without a frame answers: a precompiled contract's result, or an
  // empty success for an account without code.
  function AtOnce(e: Env, c: Ctx, raw: Byte): PrecompileResult {
    if LookedFor(c, raw) in e.precompiled then e.precompiled[LookedFor(c, raw)](CutInput(c, raw))
    else PrecompileResult([], Success)
  }

  // The input as a byte string whose length fits a machine word.
  function CutInput(c: Ctx, raw: Byte): Bytes {
    if |InputOf(c, raw)| < TWO_64 then InputOf(c, raw) else []
  }

  // The state after a call that came back at once.
  ghost predicate ComesBack(e: Env, c: Ctx, d: Ctx, raw: Byte) {
    var q, self, result := AskedBy(c, raw), c.cur.callee, AtOnce(e, c, raw);
    && (exists f: Frame :: Waits(e, c, f, raw)
          && TakesBack(f, d.cur, q.retOff, q.retLen, result.data, GasReceived(e, c, raw), result.verdict))
    && d.cur.pc == Wrap64(c.cur.pc + 1)
    && (if result.verdict.Failure? && raw != 0xfa then d.world == c.world
        else Moves(c.world, d.world, self, q.to, if raw == 0xf1 then q.value else 0))
    && d == c.(cur := d.cur, world := d.world, access := WithAccount(e, c.access, q.to),
               dirty := c.dirty + if raw == 0xf1 then {self, q.to} else {})
  }

  // The returned data finds its place.
  predicate ReturnFits(e: Env, c: Ctx, raw: Byte) {
    var q := AskedBy(c, raw);
    KeepsGas(AtOnce(e, c, raw).verdict) ==> q.retOff + q.retLen <= MAX_MEM_SIZE
  }

  lemma ReturnExactly(e: Env, c: Ctx, callType: CallType, data: Bytes, gas: U64, verdict: Verdict)
    requires callType.SubCall? && HasSlot(c.cur)
    ensures var r := ReturnWithoutFrame(e, c, callType, data, gas, verdict);
      && (r.Ok? <==> (KeepsGas(verdict) ==> callType.retOff + callType.retLen <= MAX_MEM_SIZE))
      && (r.Ok? ==>
            && TakesBack(c.cur, r.state.cur, callType.retOff, callType.retLen, data, gas, verdict)
            && r.state.cur.pc == Wrap64(c.cur.pc + 1)
            && r.state == c.(cur := r.state.cur, world := RolledBack(c.world, callType.callSnapshot, verdict)))
  {
    hide TakeBack, Stored;
    TakeBackExactly(c.cur, callType.retOff, callType.retLen, data, gas, verdict);
  }

  predicate HasSlot(f: Frame) { f.stack.top < MAX_STACK_DEPTH }

  lemma InputFits(e: Env, c: Ctx, raw: Byte)
    requires Affordable(e, c, raw)
    ensures CutInput(c, raw) == InputOf(c, raw)
  {
  }

  lemma OthersComeBack(e: Env, c: Ctx, raw: Byte)
    requires raw == 0xf2 || raw == 0xf4 || raw == 0xfa
    requires !NeedsFrame(e, c, raw)
    ensures var r := CallOutcome(e, c, raw);
      (r.Ok? <==> Allowed(e, c, raw) && ReturnFits(e, c, raw)) && (r.Ok? ==> ComesBack(e, c, r.state, raw))
  {
    hide PrepareCall, ReturnWithoutFrame, Affordable, Waits, AskedBy, InputOf, GasReceived, WithAccount;
    hide TakesBack, CutInput;
    Prepared(e, c, raw);
    var r, q := PrepareCall(e, c, KindOf(raw)), AskedBy(c, raw);
    if r.Ok? {
      WaitsSame(e, c, r.state.cur, raw);
      InputFits(e, c, raw);
      var saved := SubCall(if raw == 0xfa then None else Some(c.world), q.retOff, q.retLen);
      var result := AtOnce(e, c, raw);
      ReturnExactly(e, r.state, saved, result.data, r.value.gas, result.verdict);
      assert c.dirty + {} == c.dirty;
    }
  }

  lemma MovesOnward(u: World, v: World, w: World, from: Addr, to: Addr, val: nat)
    requires Moves(u, v, from, to, 0) && Moves(v, w, from, to, val)
    ensures Moves(u, w, from, to, val)
  {
  }

  lemma BlankCreated(w: World, a: Addr, from: Addr)
    requires !w.Exist(a)
    ensures Moves(w, w.CreateAccount(a), from, a, 0)
  {
  }

  // The world after the value of a call was moved, to an account made for it if
  // there was none.
  lemma CallMoves(w: World, self: Addr, to: Addr, val: U256)
    ensures var v := if w.Exist(to) then w else w.CreateAccount(to);
      var t := v.Transfer(self, to, val);
      && (t.Some? <==> val <= w.GetBalance(self) && (self != to ==> w.GetBalance(to) + val < TWO_256))
      && (t.Some? ==> Moves(w, t.value, self, to, val))
  {
    hide Moves;
    var v := if w.Exist(to) then w else w.CreateAccount(to);
    TransferMoves(v, self, to, val);
    SameBalances(w, to);
    if !w.Exist(to) {
      BlankCreated(w, to, self);
      if v.Transfer(self, to, val).Some? {
        MovesOnward(w, v, v.Transfer(self, to, val).value, self, to, val);
      }
    }
  }

  lemma SameBalances(w: World, a: Addr)
    ensures forall b: Addr :: w.CreateAccount(a).GetBalance(b) == w.GetBalance(b)
  {
  }

  lemma CallComesBack(e: Env, c: Ctx)
    requires !NeedsFrame(e, c, 0xf1)
    ensures var r := CallOutcome(e, c, 0xf1);
      && (r.Ok? <==> Allowed(e, c, 0xf1) && ReturnFits(e, c, 0xf1))
      && (r.Ok? ==> ComesBack(e, c, r.state, 0xf1))
  {
    hide PrepareCall, ReturnWithoutFrame, Affordable, Waits, AskedBy, InputOf, GasReceived, WithAccount;
    hide TakesBack, CutInput, Moves;
    Prepared(e, c, 0xf1);
    var r, q := PrepareCall(e, c, PlainCall), AskedBy(c, 0xf1);
    if r.Ok? {
      WaitsSame(e, c, r.state.cur, 0xf1);
      InputFits(e, c, 0xf1);
      var d, self, saved := r.state, c.cur.callee, SubCall(Some(c.world), q.retOff, q.retLen);
      var result, touched := AtOnce(e, c, 0xf1), c.dirty + {self, q.to};
      CallMoves(c.world, self, q.to, q.value);
      NothingMoves(c.world, self, q.to);
      ReturnExactly(e, d.(dirty := touched), saved, result.data, r.value.gas, result.verdict);
      var v := if c.world.Exist(q.to) then c.world else c.world.CreateAccount(q.to);
      var t := v.Transfer(self, q.to, q.value);
      if t.Some? {
        CodeKept(c.world, t.value, self, q.to, q.value, q.to);
        ReturnExactly(e, d.(dirty := touched, world := t.value), saved, result.data, r.value.gas, result.verdict);
      }
    }
  }

  lemma NothingMoves(w: World, from: Addr, to: Addr)
    ensures Moves(w, w, from, to, 0)
  {
  }

  // A call that needs no frame: when it completes, and what its caller is left
  // with.
  lemma FramelessCallInstruction(e: Env, c: Ctx, raw: Byte)
    requires Runs(c, raw) && IsCall(raw) && !NeedsFrame(e, c, raw)
    ensures Completes(e, c) <==> Allowed(e, c, raw) && ReturnFits(e, c, raw)
    ensures Completes(e, c) ==> ComesBack(e, c, Step(e, c), raw)
  {
    hide CallOutcome, Step, Completes, Allowed, ComesBack, NeedsFrame, ReturnFits;
    RunsCall(e, c, raw);
    if raw == 0xf1 {
      CallComesBack(e, c);
    } else {
      OthersComeBack(e, c, raw);
    }
  }
}
