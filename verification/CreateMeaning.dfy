// What CREATE and CREATE2 do, by the words on the creator's stack, and what the
// first frame of a transaction is.
module CreateMeaning {
  import opened Common
  import opened Params
  import opened FlatWorld
  import opened Machine
  import opened CallMemory
  import opened Frames
  import opened Instructions
  import opened Interpreter
  import opened Stepping
  import opened StackMeaning
  import opened MemoryMeaning
  import opened WorldMeaning
  import opened CallMeaning

  predicate IsCreate(raw: Byte) { raw == 0xf0 || raw == 0xf5 }

  function CreateArity(raw: Byte): nat { if raw == 0xf0 then 3 else 4 }

  // From the top of the stack: the value, where the code is, and for CREATE2 the salt.
  datatype Wanted = Wanted(value: U256, off: U256, len: U256, salt: U256)

  function WantedBy(c: Ctx, raw: Byte): Wanted {
    if Height(c) < CreateArity(raw) then Wanted(0, 0, 0, 0)
    else Wanted(Word(c, 1), Word(c, 2), Word(c, 3), if raw == 0xf5 then Word(c, 4) else 0)
  }

  function InitCode(c: Ctx, raw: Byte): seq<Byte> {
    var q := WantedBy(c, raw);
    Shown(c.cur.memory, q.off, q.len)
  }

  // 32000, the memory that holds the code, and for CREATE2 its hashing.
  function CreateFees(c: Ctx, raw: Byte): int {
    var q := WantedBy(c, raw);
    32000 + Fee(c.cur.memory, q.off + q.len) + if raw == 0xf5 then 6 * Words32(q.len) else 0
  }

  function CreateGasLeft(c: Ctx, raw: Byte): int { c.cur.gas - CreateFees(c, raw) }

  // All that is left, but for one 64th from Tangerine Whistle on.
  function CreateGas(e: Env, c: Ctx, raw: Byte): int {
    var left := CreateGasLeft(c, raw);
    if raw == 0xf5 || e.From(TangerineWhistle) then left - left / 64 else left
  }

  predicate CreateAffordable(c: Ctx, raw: Byte) {
    var q := WantedBy(c, raw);
    Height(c) >= CreateArity(raw) && q.off + q.len <= MAX_MEM_SIZE && CreateGasLeft(c, raw) >= 0
  }

  // The creator's frame once it has paid.
  ghost predicate CreatorWaits(e: Env, c: Ctx, f: Frame, raw: Byte) {
    var q := WantedBy(c, raw);
    && Height(c) >= CreateArity(raw) && Words(f) == Words(c.cur)[..Height(c) - CreateArity(raw)]
    && f.gas == CreateGasLeft(c, raw) - CreateGas(e, c, raw)
    && Stored(c.cur.memory, f.memory, q.off + q.len, 0, [])
    && f == c.cur.(stack := f.stack, gas := f.gas, memory := f.memory)
  }

  // ---------- preparing a creation ----------

  lemma CreateArgsOutcome(c: Ctx, raw: Byte)
    requires IsCreate(raw)
    ensures var r, q := CreateArgs(c, raw == 0xf5), WantedBy(c, raw);
      && (r.Ok? <==> Height(c) >= CreateArity(raw))
      && (r.Ok? ==>
            r.state == c.(cur := Drop(c.cur, CreateArity(raw))) && r.value == (q.value, q.off, q.len, q.salt))
  {
  }

  lemma HashingPaid(c: Ctx, len: nat)
    requires len <= MAX_MEM_SIZE
    ensures var r := HashingFee(c, len);
      && (r.Ok? <==> c.cur.gas >= 6 * Words32(len))
      && (r.Ok? ==> r.state == c.(cur := r.state.cur) && r.state.cur == c.cur.(gas := r.state.cur.gas)
                    && r.state.cur.gas == c.cur.gas - 6 * Words32(len))
  {
    assert ToWordSize(len) == Words32(len);
  }

  lemma HandedQuota(c: Ctx, keepsSome: bool)
    ensures var r, quota := HandOver(c, keepsSome), if keepsSome then c.cur.gas - c.cur.gas / 64 else c.cur.gas;
      && r.Ok? && r.value == quota
      && r.state == c.(cur := r.state.cur) && r.state.cur == c.cur.(gas := r.state.cur.gas)
      && r.state.cur.gas == c.cur.gas - quota
  {
  }

  // The rest of a creation after its base price is paid.
  lemma CreatePrepared(e: Env, c: Ctx, raw: Byte)
    requires IsCreate(raw) && c.cur.gas >= 32000
    ensures var r, q := PrepareCreate(e, c.(cur := c.cur.(gas := c.cur.gas - 32000)), raw == 0xf5), WantedBy(c, raw);
      && (r.Ok? <==> CreateAffordable(c, raw))
      && (r.Ok? ==>
            && r.state == c.(cur := r.state.cur) && CreatorWaits(e, c, r.state.cur, raw)
            && r.value.value == q.value && r.value.code == InitCode(c, raw) && r.value.salt == q.salt
            && r.value.gas == CreateGas(e, c, raw))
  {
    hide CreateArgs, HashingFee, HandOver, Slice, Charge, WantedBy, Stored, Fee, Shown, Words32, QuietCharges;
    hide Charges, Local;
    var d, q := c.(cur := c.cur.(gas := c.cur.gas - 32000)), WantedBy(c, raw);
    CreateArgsOutcome(d, raw);
    WantedSame(c, d, raw);
    FeeNonNegative(c.cur.memory, q.off + q.len);
    if Height(c) >= CreateArity(raw) {
      var g := Drop(d.cur, CreateArity(raw));
      SliceLeaves(g, q.off, q.len);
      SliceShows(g, q.off, q.len);
      DroppedWords(c, CreateArity(raw), g);
      if q.off + q.len <= MAX_MEM_SIZE {
        CreatePaid(e, c, raw, Slice(g, q.off, q.len).state, Fee(c.cur.memory, q.off + q.len));
      }
    }
  }

  lemma WantedSame(c: Ctx, d: Ctx, raw: Byte)
    requires d.cur.stack == c.cur.stack
    ensures WantedBy(d, raw) == WantedBy(c, raw) && Height(d) == Height(c)
  {
  }

  // The charges after the code was read.
  lemma CreatePaid(e: Env, c: Ctx, raw: Byte, f: Frame, fee: nat)
    requires IsCreate(raw) && WantedBy(c, raw).len <= MAX_MEM_SIZE
    ensures var len, salted, d := WantedBy(c, raw).len, raw == 0xf5, c.(cur := f);
      var due := fee + if salted then 6 * Words32(len) else 0;
      var keepsSome := salted || e.From(TangerineWhistle);
      var p := Charge(d, fee);
      && (p.Ok? ==> p.state == c.(cur := f.(gas := f.gas - fee)))
      && (p.Ok? <==> f.gas >= fee)
      && (p.Ok? ==>
            var h := if salted then HashingFee(p.state, len) else Ok(p.state, ());
            && (h.Ok? <==> f.gas >= due)
            && (h.Ok? ==>
                  && h.state == c.(cur := h.state.cur) && h.state.cur == f.(gas := h.state.cur.gas)
                  && h.state.cur.gas == f.gas - due
                  && var r, left := HandOver(h.state, keepsSome), f.gas - due;
                     && r.Ok? && r.value == (if keepsSome then left - left / 64 else left)
                     && r.state == c.(cur := r.state.cur) && r.state.cur == f.(gas := r.state.cur.gas)
                     && r.state.cur.gas == left - r.value))
  {
    hide HashingFee, HandOver, Words32;
    var len, d := WantedBy(c, raw).len, c.(cur := f);
    var p := Charge(d, fee);
    if p.Ok? {
      HashingPaid(p.state, len);
      var h := if raw == 0xf5 then HashingFee(p.state, len) else Ok(p.state, ());
      HandedQuota(h.state, raw == 0xf5 || e.From(TangerineWhistle));
    }
  }

  // ---------- the frame a creation starts ----------

  // The world once an account was made at an address, by what its getters answer:
  // the creator's nonce is one higher, the new account has no code and no storage,
  // from Spurious Dragon on the nonce one (EIP-161), and what it held before with
  // the value that came from the creator.
  ghost predicate Creates(e: Env, v: World, w: World, creator: Addr, a: Addr, val: nat) {
    && w.logs == v.logs && w.Exist(a)
    && (forall b: Addr :: w.GetCode(b) == if b == a then [] else v.GetCode(b))
    && (forall b: Addr, k: U256 :: w.GetState(b, k) == if b == a then 0 else v.GetState(b, k))
    && (forall b: Addr :: w.GetNonce(b) as int
          == if b == a then (if e.From(SpuriousDragon) then 1 else 0)
             else v.GetNonce(b) + if b == creator then 1 else 0)
    && (forall b: Addr ::
          w.GetBalance(b) == v.GetBalance(b) - (if b == creator then val else 0) + (if b == a then val else 0))
  }

  lemma EndowsExactly(e: Env, v: World, creator: Addr, a: Addr, val: U256)
    requires v.GetNonce(creator) + 1 < TWO_64
    ensures var t := Endow(e, v.SetNonce(creator, v.GetNonce(creator) + 1), a, creator, val);
      && (t.Some? <==> val <= v.GetBalance(creator) && (creator != a ==> v.GetBalance(a) + val < TWO_256))
      && (t.Some? ==> Creates(e, v, t.value, creator, a, val))
  {
    hide Moves;
    var raised := v.SetNonce(creator, v.GetNonce(creator) + 1);
    var made := if e.From(SpuriousDragon) then raised.CreateAccount(a).SetNonce(a, 1) else raised.CreateAccount(a);
    MadeAccount(e, v, creator, a);
    TransferMoves(made, creator, a, val);
    TransferKeepsAccounts(made, creator, a, val);
    if made.Transfer(creator, a, val).Some? {
      MadeThenMoved(e, v, made, made.Transfer(creator, a, val).value, creator, a, val);
    }
  }

  lemma MadeAccount(e: Env, v: World, creator: Addr, a: Addr)
    requires v.GetNonce(creator) + 1 < TWO_64
    ensures var raised := v.SetNonce(creator, v.GetNonce(creator) + 1);
      var made := if e.From(SpuriousDragon) then raised.CreateAccount(a).SetNonce(a, 1) else raised.CreateAccount(a);
      Creates(e, v, made, creator, a, 0)
  {
  }

  lemma TransferKeepsAccounts(w: World, from: Addr, to: Addr, val: U256)
    ensures var t := w.Transfer(from, to, val);
      t.Some? ==> forall a: Addr :: w.Exist(a) ==> t.value.Exist(a)
  {
  }

  lemma MadeThenMoved(e: Env, v: World, made: World, w: World, creator: Addr, a: Addr, val: nat)
    requires Creates(e, v, made, creator, a, 0) && Moves(made, w, creator, a, val) && w.Exist(a)
    ensures Creates(e, v, w, creator, a, val)
  {
  }

  // The address of the new contract: from the creator's nonce, or from salt and code.
  function NewAddress(e: Env, c: Ctx, raw: Byte): Addr {
    if raw == 0xf5 then e.createAddr2(c.cur.callee, WantedBy(c, raw).salt, InitCode(c, raw))
    else e.createAddr(c.cur.callee, c.world.GetNonce(c.cur.callee))
  }

  // Nothing is in the way of a creation: a nonce that can rise, a balance for the
  // value, and no contract at the address yet.
  predicate Creatable(e: Env, w: World, creator: Addr, a: Addr, val: nat) {
    && val <= w.GetBalance(creator) && w.GetNonce(creator) + 1 < TWO_64
    && w.GetNonce(a) == 0 && (e.keccak(w.GetCode(a)) == 0 || e.keccak(w.GetCode(a)) == e.keccak([]))
    && (creator != a ==> w.GetBalance(a) + val < TWO_256)
  }

  predicate CreateAllowed(e: Env, c: Ctx, raw: Byte) {
    && CreateAffordable(c, raw) && !c.cur.readOnly && |c.callStack| != 1024
    && (raw == 0xf5 ==> e.From(Constantinople))
    && Creatable(e, c.world, c.cur.callee, NewAddress(e, c, raw), WantedBy(c, raw).value)
  }

  // The state after a creation that started a frame: it runs the bytes the
  // creator's memory shows, without input, at the new address for the creator.
  ghost predicate CreateEnters(e: Env, c: Ctx, d: Ctx, raw: Byte) {
    var q, self, a, n := WantedBy(c, raw), c.cur.callee, NewAddress(e, c, raw), |c.callStack|;
    && |d.callStack| == n + 1 && d.callStack[..n] == c.callStack && CreatorWaits(e, c, d.callStack[n], raw)
    && IsNewGas(d.cur, InitCode(c, raw), a, self, q.value, CreateGas(e, c, raw))
    && d.cur.callType == CreateCall(c.world, a)
    && Creates(e, c.world, d.world, self, a, q.value)
    && d == c.(callStack := d.callStack, cur := d.cur, world := d.world, access := WithAccount(e, c.access, a),
               dirty := c.dirty + {self, a})
  }

  // A new frame of a creation.
  ghost predicate IsNewGas(f: Frame, code: seq<Byte>, callee: Addr, caller: Addr, value: U256, gas: int) {
    && f.code == code && f.gas == gas
    && IsNew(f, f.code, [], callee, caller, value, f.gas, false)
  }

  lemma CreationOutcome(
    e: Env, c: Ctx, a: Addr, caller: Addr, code: Bytes, value: U256, gas: U64, callType: CallType
  )
    ensures var r, n := Create_(e, c, a, caller, code, value, gas, callType), |c.callStack|;
      && (r.Ok? <==> Creatable(e, c.world, caller, a, value))
      && (r.Ok? ==>
            && Creates(e, c.world, r.state.world, caller, a, value)
            && |r.state.callStack| == n + 1 && r.state.callStack[..n] == c.callStack && r.state.callStack[n] == c.cur
            && IsNew(r.state.cur, code, [], a, caller, value, gas, c.cur.readOnly) && r.state.cur.callType == callType
            && r.state == c.(callStack := r.state.callStack, cur := r.state.cur, world := r.state.world,
                             access := WithAccount(e, c.access, a), dirty := c.dirty + {a, caller}))
  {
    hide Endow, Creates, CallPush, IsNew;
    if c.world.GetNonce(caller) + 1 < TWO_64 {
      EndowsExactly(e, c.world, caller, a, value);
      var t := Endow(e, c.world.SetNonce(caller, c.world.GetNonce(caller) + 1), a, caller, value);
      if t.Some? {
        NewFrames(c.(world := t.value, access := WithAccount(e, c.access, a), dirty := c.dirty + {a, caller}),
                  code, [], value, a, caller, callType, gas, false);
      }
    }
  }

  function CreateCode(raw: Byte): Opcode { if raw == 0xf0 then CreateOp else Create2Op }

  lemma CreateDecodes(raw: Byte)
    requires IsCreate(raw)
    ensures Decode(raw) == CreateCode(raw)
  {
  }

  function CreateOutcome(e: Env, c: Ctx, raw: Byte): CtxOutcome<()> {
    if raw == 0xf0 then CreateBegin(e, c) else Create2Begin(e, c)
  }

  lemma CreateDispatch(e: Env, c: Ctx, raw: Byte)
    requires IsCreate(raw)
    ensures Exec(e, CreateCode(raw), [], c) == CreateOutcome(e, c, raw) && EntersCall(CreateCode(raw))
  {
    hide CreateBegin, Create2Begin;
  }

  lemma RunsCreate(e: Env, c: Ctx, raw: Byte)
    requires Runs(c, raw) && IsCreate(raw)
    ensures var r := CreateOutcome(e, c, raw);
      (Completes(e, c) <==> r.Ok?) && (r.Ok? ==> Step(e, c) == r.state)
  {
    hide Decode, Exec, CreateOutcome, Fetch;
    CreateDecodes(raw);
    CreateDispatch(e, c, raw);
    FetchesRaw(c, raw);
  }

  lemma CreatorSame(e: Env, c: Ctx, f: Frame, raw: Byte)
    requires CreatorWaits(e, c, f, raw)
    ensures f.callee == c.cur.callee && f.readOnly == c.cur.readOnly
  {
  }

  lemma CreateOpOutcome(e: Env, c: Ctx, raw: Byte)
    requires IsCreate(raw)
    ensures var r := CreateOutcome(e, c, raw);
      (r.Ok? <==> CreateAllowed(e, c, raw)) && (r.Ok? ==> CreateEnters(e, c, r.state, raw))
  {
    hide PrepareCreate, Create_, CreateAffordable, CreatorWaits, WantedBy, InitCode, CreateGas, WithAccount;
    hide Creates, Creatable, QuietCharges;
    if c.cur.gas >= 32000 {
      CreatePrepared(e, c, raw);
      var d := c.(cur := c.cur.(gas := c.cur.gas - 32000));
      assert Charge(c, 32000).state == d;
      var p := PrepareCreate(e, d, raw == 0xf5);
      if p.Ok? {
        CreatorSame(e, c, p.state.cur, raw);
        var a, q := NewAddress(e, c, raw), p.value;
        CreationOutcome(e, p.state, a, c.cur.callee, q.code, q.value, q.gas, CreateCall(c.world, a));
        assert c.dirty + {a, c.cur.callee} == c.dirty + {c.cur.callee, a};
      }
    } else {
      TooPoor(c, raw);
    }
  }

  lemma TooPoor(c: Ctx, raw: Byte)
    requires c.cur.gas < 32000
    ensures !CreateAffordable(c, raw)
  {
    hide Fee, Words32;
    FeeNonNegative(c.cur.memory, WantedBy(c, raw).off + WantedBy(c, raw).len);
  }

  // CREATE and CREATE2: when they complete, and the frame they start.
  lemma CreateInstruction(e: Env, c: Ctx, raw: Byte)
    requires Runs(c, raw) && IsCreate(raw)
    ensures Completes(e, c) <==> CreateAllowed(e, c, raw)
    ensures Completes(e, c) ==> CreateEnters(e, c, Step(e, c), raw)
  {
    hide CreateOutcome, Step, Completes, CreateAllowed, CreateEnters;
    RunsCreate(e, c, raw);
    CreateOpOutcome(e, c, raw);
  }

  // ---------- the first frame of a transaction ----------

  // The access list at the start: the sender, the target, the precompiled
  // contracts and what the transaction lists, from any position on (EIP-2929,
  // EIP-2930).
  ghost predicate ListedFrom(access: AccessList, before: AccessList, listed: seq<(Addr, seq<U256>)>) {
    && (forall a: Addr :: a in access.addrs <==> a in before.addrs || exists t <- listed :: t.0 == a)
    && (forall a: Addr, k: U256 ::
          (a, k) in access.slots <==> (a, k) in before.slots || exists t <- listed :: t.0 == a && k in t.1)
  }

  lemma {:induction false} AddsListed(before: AccessList, listed: seq<(Addr, seq<U256>)>)
    ensures ListedFrom(AddListed(before, listed), before, listed)
    decreases |listed|
  {
    if listed != [] {
      var t, rest := listed[0], listed[1..];
      var next := AccessList(before.addrs + {t.0}, before.slots + Pairs(t.0, t.1));
      AddsListed(next, rest);
      assert listed == [t] + rest;
      ListedOneMore(AddListed(next, rest), before, next, t, rest);
    }
  }

  lemma ListedOneMore(
    access: AccessList, before: AccessList, next: AccessList, t: (Addr, seq<U256>), rest: seq<(Addr, seq<U256>)>
  )
    requires ListedFrom(access, next, rest)
    requires next == AccessList(before.addrs + {t.0}, before.slots + Pairs(t.0, t.1))
    ensures ListedFrom(access, before, [t] + rest)
  {
    var all := [t] + rest;
    assert t in all && forall s <- rest :: s in all;
    assert forall s <- all :: s == t || s in rest;
    forall a: Addr ensures a in access.addrs <==> a in before.addrs || exists s <- all :: s.0 == a {
      if a == t.0 { assert t in all; }
    }
    forall a: Addr, k: U256
      ensures (a, k) in access.slots <==> (a, k) in before.slots || exists s <- all :: s.0 == a && k in s.1
    {
      assert (a, k) in next.slots <==> (a, k) in before.slots || (a == t.0 && k in t.1);
    }
  }

  // The state a transaction starts in, frame and world apart.
  ghost predicate Fresh(e: Env, tx: Tx, c: Ctx) {
    && |c.callStack| == 1 && c.refund == 0 && c.destroyed == {} && c.status.Running?
    && ListedFrom(c.access,
                  AccessList({tx.from} + (if tx.to.Some? then {tx.to.value} else {}) + e.precompiled.Keys, {}), tx.listed)
  }

  // The world once a message call has raised the sender's nonce and moved its value.
  ghost predicate Sent(v: World, w: World, from: Addr, to: Addr, val: nat) {
    && w.logs == v.logs
    && (forall a: Addr :: w.GetCode(a) == v.GetCode(a))
    && (forall a: Addr, k: U256 :: w.GetState(a, k) == v.GetState(a, k))
    && (forall a: Addr :: w.GetNonce(a) == if a == from then Wrap64(v.GetNonce(a) + 1) else v.GetNonce(a))
    && (forall a: Addr ::
          w.GetBalance(a) == v.GetBalance(a) - (if a == from then val else 0) + (if a == to then val else 0))
  }

  lemma RaisedThenMoved(v: World, raised: World, w: World, from: Addr, to: Addr, val: nat)
    requires raised == v.SetNonce(from, Wrap64(v.GetNonce(from) + 1)) && Moves(raised, w, from, to, val)
    ensures Sent(v, w, from, to, val)
  {
  }

  // A message call to an account with code starts its code on the transaction's
  // data, for the sender, with its value and its gas but 21000; unless the sender
  // cannot pay.
  lemma MessageCallStarts(e: Env, tx: Tx, world: World)
    requires tx.to.Some? && tx.to.value !in e.precompiled && world.GetCode(tx.to.value) != []
    ensures var c, to, from, val := Start(e, tx, world), tx.to.value, tx.from, tx.value;
      && (c.status.Running?
          <==> val <= world.GetBalance(from) && (from != to ==> world.GetBalance(to) + val < TWO_256))
      && (c.status.Running? ==>
            && Fresh(e, tx, c) && Sent(world, c.world, from, to, val) && c.dirty == {from, to}
            && IsNew(c.cur, world.GetCode(to), tx.input, to, from, val, Wrap64(tx.gas - 21000), false))
  {
    hide Moves, Sent, ReturnWithoutFrame, InitialAccess, AddListed, IsNew, CallPush;
    var to, from, val := tx.to.value, tx.from, tx.value;
    var raised := world.SetNonce(from, Wrap64(world.GetNonce(from) + 1));
    InitiallyListed(e, tx);
    TransferMoves(raised, from, to, val);
    RaisedReads(world, from, to);
    var t := raised.Transfer(from, to, val);
    if t.Some? {
      RaisedThenMoved(world, raised, t.value, from, to, val);
      CodeKept(raised, t.value, from, to, val, to);
      var c := NewContext(e, tx.gas, InitialAccess(e, from, tx.to, tx.listed), world)
        .(world := t.value, dirty := {} + {from, to});
      NewFrames(c, world.GetCode(to), tx.input, val, to, from, TxCall(raised, Sender(from)), Wrap64(tx.gas - 21000), false);
    }
  }

  lemma RaisedReads(w: World, from: Addr, to: Addr)
    ensures var raised := w.SetNonce(from, Wrap64(w.GetNonce(from) + 1));
      && raised.GetCode(to) == w.GetCode(to) && raised.GetBalance(from) == w.GetBalance(from)
      && raised.GetBalance(to) == w.GetBalance(to) && (w.GetCode(to) != [] ==> raised.Exist(to))
  {
  }

  lemma InitiallyListed(e: Env, tx: Tx)
    ensures ListedFrom(
      InitialAccess(e, tx.from, tx.to, tx.listed),
      AccessList({tx.from} + (if tx.to.Some? then {tx.to.value} else {}) + e.precompiled.Keys, {}), tx.listed)
  {
    hide ListedFrom, AddListed;
    AddsListed(AccessList({tx.from} + (if tx.to.Some? then {tx.to.value} else {}) + e.precompiled.Keys, {}), tx.listed);
  }

  // A creation starts the transaction's data as code at the new address.
  lemma CreationStarts(e: Env, tx: Tx, world: World)
    requires tx.to.None?
    ensures var c, from, val := Start(e, tx, world), tx.from, tx.value;
      var a := e.createAddr(from, world.GetNonce(from));
      && (c.status.Running? <==> Creatable(e, world, from, a, val))
      && (c.status.Running? ==>
            && |c.callStack| == 1 && c.refund == 0 && c.destroyed == {} && c.dirty == {from, a}
            && Creates(e, world, c.world, from, a, val)
            && c.access == WithAccount(e, InitialAccess(e, from, None, tx.listed), a)
            && IsNew(c.cur, tx.input, [], a, from, val, Wrap64(tx.gas - 21000), false))
  {
    hide Create_, InitialAccess, IsNew, Creates, Creatable, WithAccount;
    var a := e.createAddr(tx.from, world.GetNonce(tx.from));
    var c := NewContext(e, tx.gas, InitialAccess(e, tx.from, tx.to, tx.listed), world);
    CreationOutcome(e, c, a, tx.from, tx.input, tx.value, Wrap64(tx.gas - 21000), TxCall(world, Contract(a)));
    assert {} + {a, tx.from} == {tx.from, a};
  }
}
