// What the instructions answer that look at the world or the block, and what
// SSTORE and LOG change.
module WorldMeaning {
  import opened Common
  import opened Params
  import opened FlatWorld
  import opened Machine
  import opened CallMemory
  import opened Frames
  import opened Instructions
  import opened Interpreter
  import opened Stepping
  import opened StackMeaning
  import opened MemoryMeaning
  import Arith

  // ---------- from the instruction to its step ----------

  predicate IsWorld(raw: Byte) {
    raw == 0x31 || raw == 0x3b || raw == 0x3c || raw == 0x3f || raw == 0x40 || raw == 0x47 || raw == 0x54
  }

  function WorldOutcome(e: Env, c: Ctx, raw: Byte): CtxOutcome<()> {
    match raw
    case 0x31 => Balance(e, c)
    case 0x3b => ExtCodeSize(e, c)
    case 0x3c => ExtCodeCopy(e, c)
    case 0x3f => ExtCodeHash(e, c)
    case 0x40 => BlockHash(e, c)
    case 0x47 => SelfBalance(e, c)
    case _ => SLoad(e, c)
  }

  function WorldCode(raw: Byte): Opcode {
    match raw
    case 0x31 => BalanceOp
    case 0x3b => ExtCodeSizeOp
    case 0x3c => ExtCodeCopyOp
    case 0x3f => ExtCodeHashOp
    case 0x40 => BlockHashOp
    case 0x47 => SelfBalanceOp
    case _ => SLoadOp
  }

  lemma WorldDecodes(raw: Byte)
    requires IsWorld(raw)
    ensures Decode(raw) == WorldCode(raw)
  {
  }

  lemma WorldDispatch(e: Env, raw: Byte, c: Ctx)
    requires IsWorld(raw)
    ensures Exec(e, WorldCode(raw), [], c) == WorldOutcome(e, c, raw)
    ensures !EntersCall(WorldCode(raw)) && !WorldCode(raw).PushOp?
  {
    hide Balance, ExtCodeSize, ExtCodeCopy, ExtCodeHash, BlockHash, SelfBalance, SLoad, FrameOp;
  }

  lemma FetchesRaw(c: Ctx, raw: Byte)
    requires Runs(c, raw) && !Decode(raw).PushOp?
    ensures Fetch(c.cur) == Decode(raw) && Fetchable(c.cur) && PushedData(c.cur) == []
  {
    hide Decode;
  }

  // The step of an instruction that completes without entering a frame.
  lemma CompletedAdvances(e: Env, c: Ctx)
    requires c.status.Running? && Completes(e, c) && !EntersCall(Fetch(c.cur))
    ensures Step(e, c) == AdvancePc(Exec(e, Fetch(c.cur), PushedData(c.cur), c).state, PushWidth(Fetch(c.cur)))
  {
    hide Exec, Fetch;
  }

  lemma RunsWorld(e: Env, c: Ctx, raw: Byte)
    requires Runs(c, raw) && IsWorld(raw)
    ensures var r := WorldOutcome(e, c, raw);
      (Completes(e, c) <==> r.Ok?) && (r.Ok? ==> Step(e, c) == AdvancePc(r.state, 0))
  {
    hide Decode, Exec, WorldOutcome, WorldCode, Step, Fetch;
    WorldDecodes(raw);
    WorldDispatch(e, raw, c);
    FetchesRaw(c, raw);
    if Completes(e, c) {
      CompletedAdvances(e, c);
    }
  }

  // The step took n words off the stack, put others there, charged some gas, went
  // on, and left an access list; nothing else is different.
  ghost predicate Looks(c: Ctx, d: Ctx, n: nat, vs: seq<U256>, gas: nat, access: AccessList) {
    && Height(c) >= n && Words(d.cur) == Words(c.cur)[..Height(c) - n] + vs
    && d.cur.gas == c.cur.gas - gas
    && d == c.(
         access := access,
         cur := c.cur.(stack := d.cur.stack, gas := d.cur.gas, pc := Wrap64(c.cur.pc + 1)))
  }

  // ---------- accounts ----------

  // The price of looking at an account: from Berlin on by whether it is in the
  // access list (EIP-2929), where it then is.
  function AccountPrice(e: Env, c: Ctx, a: Addr, flat: nat): nat {
    if !e.From(Berlin) then flat else if a in c.access.addrs then 100 else 2600
  }

  function WithAccount(e: Env, access: AccessList, a: Addr): AccessList {
    if e.From(Berlin) then access.(addrs := access.addrs + {a}) else access
  }

  lemma AccountLooked(e: Env, c: Ctx, a: Addr, flat: nat)
    ensures var r, price := AccountAccess(e, c, a, flat), AccountPrice(e, c, a, flat);
      && (r.Ok? <==> c.cur.gas >= price)
      && (r.Ok? ==> r == Ok(c.(access := WithAccount(e, c.access, a), cur := c.cur.(gas := c.cur.gas - price)), ()))
  {
    if a in c.access.addrs {
      assert c.access.addrs + {a} == c.access.addrs;
    }
  }

  // Before Berlin: what BALANCE, EXTCODESIZE, EXTCODECOPY and EXTCODEHASH cost.
  function FlatPrice(e: Env, raw: Byte): nat {
    if raw == 0x31 then (if e.From(Istanbul) then 700 else if e.From(TangerineWhistle) then 400 else 20)
    else if raw == 0x3f then (if e.From(Istanbul) then 700 else 400)
    else if e.From(TangerineWhistle) then 700 else 20
  }

  // What they answer: the balance of the account in the world, the length of its
  // code, or the hash of its code.
  function AccountWord(e: Env, w: World, raw: Byte, a: Addr): U256 {
    if raw == 0x31 then w.GetBalance(a) else if raw == 0x3b then |w.GetCode(a)| else e.keccak(w.GetCode(a))
  }

  // The access to the account, and then the word in the place of its address.
  function LookedUp(e: Env, c: Ctx, a: Addr, flat: nat, v: U256): CtxOutcome<()>
    requires c.cur.stack.top >= 1
  {
    var (c, _) :- AccountAccess(e, c.(cur := Drop(c.cur, 1)), a, flat);
    OnFrame(c, Push(c.cur, v))
  }

  lemma AccountLooksUp(e: Env, c: Ctx, raw: Byte)
    requires raw == 0x31 || raw == 0x3b || raw == 0x3f
    ensures var r, there := WorldOutcome(e, c, raw), raw == 0x3f ==> e.From(Constantinople);
      if c.cur.stack.top >= 1 && there then
        var a := ToAddr(Below(c.cur, 1));
        r == LookedUp(e, c, a, FlatPrice(e, raw), AccountWord(e, c.world, raw, a))
      else !r.Ok?
  {
    hide AccountAccess, Push;
    if c.cur.stack.top >= 1 {
      var a := ToAddr(Below(c.cur, 1));
      var d := c.(cur := Drop(c.cur, 1));
      assert AccountAccess(e, d, a, FlatPrice(e, raw)).state.world == c.world;
    }
  }

  lemma AccountOutcome(e: Env, c: Ctx, raw: Byte)
    requires raw == 0x31 || raw == 0x3b || raw == 0x3f
    ensures var r, a := WorldOutcome(e, c, raw), if c.cur.stack.top >= 1 then ToAddr(Below(c.cur, 1)) else 0;
      var price, v := AccountPrice(e, c, a, FlatPrice(e, raw)), AccountWord(e, c.world, raw, a);
      && (r.Ok? <==>
            c.cur.stack.top >= 1 && c.cur.gas >= price && (raw == 0x3f ==> e.From(Constantinople)))
      && (r.Ok? ==>
            && c.cur.gas >= price
            && r == Ok(c.(access := WithAccount(e, c.access, a),
                          cur := c.cur.(gas := c.cur.gas - price, stack := r.state.cur.stack)), ())
            && Words(r.state.cur) == Words(c.cur)[..Height(c) - 1] + [v])
  {
    hide AccountAccess, AccountPrice, WithAccount, Push, WorldOutcome, FlatPrice, AccountWord;
    AccountLooksUp(e, c, raw);
    if c.cur.stack.top >= 1 {
      var a := ToAddr(Below(c.cur, 1));
      var price, v := AccountPrice(e, c, a, FlatPrice(e, raw)), AccountWord(e, c.world, raw, a);
      var d := c.(cur := Drop(c.cur, 1));
      AccountLooked(e, d, a, FlatPrice(e, raw));
      AccountPriceSame(e, c, d, a, FlatPrice(e, raw));
      if c.cur.gas >= price {
        Repushed(c.cur.(gas := c.cur.gas - price), 1, v);
        assert Drop(c.cur.(gas := c.cur.gas - price), 1) == d.cur.(gas := c.cur.gas - price);
      }
    }
  }

  lemma AccountPriceSame(e: Env, c: Ctx, d: Ctx, a: Addr, flat: nat)
    requires c.access == d.access
    ensures AccountPrice(e, c, a, flat) == AccountPrice(e, d, a, flat)
  {
  }

  // BALANCE, EXTCODESIZE and EXTCODEHASH answer what the running world holds.
  lemma AccountInstruction(e: Env, c: Ctx, raw: Byte)
    requires Runs(c, raw) && (raw == 0x31 || raw == 0x3b || raw == 0x3f)
    ensures var a := ToAddr(Top(c));
      var price := AccountPrice(e, c, a, FlatPrice(e, raw));
      && (Completes(e, c) <==> Height(c) >= 1 && c.cur.gas >= price && (raw == 0x3f ==> e.From(Constantinople)))
      && (Completes(e, c) ==>
            Looks(c, Step(e, c), 1, [AccountWord(e, c.world, raw, a)], price, WithAccount(e, c.access, a)))
  {
    hide Step, Completes, WorldOutcome, AccountPrice, WithAccount, AccountWord, FlatPrice;
    RunsWorld(e, c, raw);
    AccountOutcome(e, c, raw);
    if Height(c) >= 1 {
      WordBelow(c, 1);
    }
  }

  // SELFBALANCE answers the balance of the running contract in the running world.
  lemma SelfBalanceInstruction(e: Env, c: Ctx)
    requires Runs(c, 0x47)
    ensures Completes(e, c) <==> e.From(Istanbul) && Height(c) < 1024 && c.cur.gas >= 5
    ensures Completes(e, c) ==> Replaces(c, Step(e, c), 0, [c.world.GetBalance(c.cur.callee)], 5, 0)
  {
    hide Step, Completes, PushConst;
    RunsWorld(e, c, 0x47);
    Pushable(c.cur, 5, c.world.GetBalance(c.cur.callee));
  }

  lemma Pushable(f: Frame, gas: nat, v: U256)
    ensures Yields(f, PushConst(f, gas, v), f.stack.top < MAX_STACK_DEPTH && f.gas >= gas, 0, [v], gas)
  {
  }

  // BLOCKHASH answers one of the 256 blocks before the current one, else zero.
  lemma BlockHashInstruction(e: Env, c: Ctx)
    requires Runs(c, 0x40)
    ensures Completes(e, c) <==> Height(c) >= 1 && c.cur.gas >= 20
    ensures Completes(e, c) ==>
      var n, now := Word(c, 1), e.number % TWO_64;
      Replaces(c, Step(e, c), 1, [if n < now <= n + 256 then e.blockHash(n) else 0], 20, 0)
  {
    hide Step, Completes, WorldOutcome;
    RunsWorld(e, c, 0x40);
    BlockHashOutcome(e, c);
    if Height(c) >= 1 {
      WordBelow(c, 1);
    }
  }

  lemma BlockHashOutcome(e: Env, c: Ctx)
    ensures var r := WorldOutcome(e, c, 0x40);
      var n, now := if c.cur.stack.top >= 1 then Below(c.cur, 1) else 0, e.number % TWO_64;
      && (r.Ok? <==> c.cur.stack.top >= 1 && c.cur.gas >= 20)
      && (r.Ok? ==>
            && r == Ok(c.(cur := c.cur.(gas := c.cur.gas - 20, stack := r.state.cur.stack)), ())
            && Words(r.state.cur)
               == Words(c.cur)[..Height(c) - 1] + [if n < now <= n + 256 then e.blockHash(n) else 0])
  {
    if c.cur.stack.top >= 1 && c.cur.gas >= 20 {
      var n, now := Below(c.cur, 1), e.number % TWO_64;
      Repushed(c.cur.(gas := c.cur.gas - 20), 1, if n < now <= n + 256 then e.blockHash(n) else 0);
    }
  }

  // ---------- storage ----------

  function SlotPrice(e: Env, c: Ctx, key: U256): nat {
    if e.From(Berlin) then (if (c.cur.callee, key) in c.access.slots then 100 else 2100)
    else if e.From(Istanbul) then 800
    else if e.From(TangerineWhistle) then 200
    else 50
  }

  function WithSlot(e: Env, c: Ctx, key: U256): AccessList {
    if e.From(Berlin) && (c.cur.callee, key) !in c.access.slots then
      AccessList(c.access.addrs + {c.cur.callee}, c.access.slots + {(c.cur.callee, key)})
    else c.access
  }

  // The slot is looked at, and its word is in the place of the key.
  function SlotLookedUp(e: Env, c: Ctx, key: U256): CtxOutcome<()>
    requires c.cur.stack.top >= 1
  {
    var (d, _) :- Charge(c.(access := WithSlot(e, c, key), cur := Drop(c.cur, 1)), SlotPrice(e, c, key));
    OnFrame(d, Push(d.cur, c.world.GetState(c.cur.callee, key)))
  }

  lemma SLoadLooksUp(e: Env, c: Ctx)
    requires c.cur.stack.top >= 1
    ensures var r, s := SLoad(e, c), SlotLookedUp(e, c, Below(c.cur, 1));
      (r.Ok? <==> s.Ok?) && (r.Ok? ==> r == s)
  {
    hide Push, Charge;
  }

  lemma SLoadOutcome(e: Env, c: Ctx)
    requires c.cur.stack.top >= 1
    ensures var r, key := SLoad(e, c), Below(c.cur, 1);
      var price := SlotPrice(e, c, key);
      && (r.Ok? <==> c.cur.gas >= price)
      && (r.Ok? ==>
            && r == Ok(c.(access := WithSlot(e, c, key),
                          cur := c.cur.(gas := c.cur.gas - price, stack := r.state.cur.stack)), ())
            && Words(r.state.cur) == Words(c.cur)[..Height(c) - 1] + [c.world.GetState(c.cur.callee, key)])
  {
    hide Push, SLoad, SlotPrice, WithSlot;
    SLoadLooksUp(e, c);
    var key := Below(c.cur, 1);
    var price := SlotPrice(e, c, key);
    if c.cur.gas >= price {
      Repushed(c.cur.(gas := c.cur.gas - price), 1, c.world.GetState(c.cur.callee, key));
    }
  }

  // SLOAD puts in the place of the key the word the running world holds in that
  // slot of the running contract, and changes no storage.
  lemma SLoadInstruction(e: Env, c: Ctx)
    requires Runs(c, 0x54)
    ensures Completes(e, c) <==> Height(c) >= 1 && c.cur.gas >= SlotPrice(e, c, Top(c))
    ensures Completes(e, c) ==>
      var key := Word(c, 1);
      Looks(c, Step(e, c), 1, [c.world.GetState(c.cur.callee, key)], SlotPrice(e, c, key), WithSlot(e, c, key))
  {
    hide Step, Completes, SlotPrice, WithSlot;
    RunsWorld(e, c, 0x54);
    if Height(c) >= 1 {
      WordBelow(c, 1);
      SLoadOutcome(e, c);
    }
  }

  lemma StoreDecodes()
    ensures Decode(0x55) == SStoreOp
  {
  }

  lemma RunsSStore(e: Env, c: Ctx)
    requires Runs(c, 0x55)
    ensures var r := SStore(e, c);
      (Completes(e, c) <==> r.Ok?) && (r.Ok? ==> Step(e, c) == AdvancePc(r.state, 0))
  {
    hide Decode, SStore, Step, Fetch;
    StoreDecodes();
    FetchesRaw(c, 0x55);
    assert Exec(e, SStoreOp, [], c) == SStore(e, c);
    if Completes(e, c) {
      hide Exec;
      CompletedAdvances(e, c);
    }
  }

  // The price of writing a slot that held was when the transaction began, holds
  // now and is to hold val: nothing before Constantinople, by what it holds and is
  // to hold until Istanbul, then by EIP-2200, with the cold surcharge of EIP-2929.
  function StorePrice(e: Env, cold: bool, was: U256, now: U256, val: U256): nat {
    if !e.From(Constantinople) then 0
    else if !e.From(Istanbul) then (if now == 0 && val != 0 then 20000 else 5000)
    else
      var again := if e.From(Berlin) then 100 else 800;
      var first := if was == 0 then 20000 else if e.From(Berlin) then 2900 else 5000;
      (if e.From(Berlin) && cold then 2100 else 0) + if now == val || now != was then again else first
  }

  // The refund for clearing a slot (EIP-3529 from London on).
  function ClearRefund(e: Env): nat { if e.From(London) then 4800 else 15000 }

  // From Istanbul on, a slot that was not zero brings the refund when it is
  // cleared, and takes it back when it is refilled; and a slot that gets its first
  // value back returns what its first change cost above another one.
  function StoreRefund(e: Env, was: U256, now: U256, val: U256): int {
    if !e.From(Constantinople) || now == val then 0
    else if !e.From(Istanbul) then (if now != 0 && val == 0 then 15000 else 0)
    else
      var cleared := if was != 0 && val == 0 then ClearRefund(e) else 0;
      var refilled := if was != 0 && now == 0 then ClearRefund(e) else 0;
      var restored :=
        if val != was then 0
        else if e.From(Berlin) then (if was == 0 then 19900 else 2800)
        else if was == 0 then 19200 else 4200;
      cleared - refilled + restored
  }

  // The slot's word at the start of the transaction, and now.
  function WordWas(e: Env, c: Ctx, key: U256): U256 { e.committed.GetState(c.cur.callee, key) }

  function WordNow(c: Ctx, key: U256): U256 { c.world.GetState(c.cur.callee, key) }

  predicate Cold(c: Ctx, key: U256) { (c.cur.callee, key) !in c.access.slots }

  // The frame can pay and has more than the stipend of EIP-2200 left; no refund
  // is taken back that was not there, and the contract is in the access list.
  predicate CanStore(e: Env, c: Ctx, key: U256, val: U256) {
    var (was, now) := (WordWas(e, c, key), WordNow(c, key));
    && c.cur.gas >= StorePrice(e, Cold(c, key), was, now, val)
    && (e.From(Istanbul) ==> c.cur.gas > 2300)
    && (e.From(Istanbul) && was != 0 && now == 0 && val != 0 ==> c.refund >= ClearRefund(e))
    && (e.From(Berlin) && Cold(c, key) ==> c.cur.callee in c.access.addrs)
  }

  lemma LegacyStorePrices(e: Env, c: Ctx, key: U256, val: U256)
    requires !e.From(Istanbul)
    ensures StorePrices(e, c, key, val)
  {
  }

  lemma IstanbulStorePrices(e: Env, c: Ctx, key: U256, val: U256)
    requires e.From(Istanbul) && !e.From(Berlin)
    ensures StorePrices(e, c, key, val)
  {
  }

  lemma BerlinStorePrices(e: Env, c: Ctx, key: U256, val: U256)
    requires e.From(Berlin)
    ensures StorePrices(e, c, key, val)
  {
  }

  // The charges of a write are those prices.
  ghost predicate StorePrices(e: Env, c: Ctx, key: U256, val: U256) {
    var r := SStoreGas(e, c, key, val);
    var (cold, was, now) := (Cold(c, key), WordWas(e, c, key), WordNow(c, key));
    && (r.Ok? <==> CanStore(e, c, key, val))
    && (r.Ok? ==>
          && c.refund + StoreRefund(e, was, now, val) >= 0 && c.cur.gas >= StorePrice(e, cold, was, now, val)
          && r.state == c.(
               refund := c.refund + StoreRefund(e, was, now, val), access := WithSlot(e, c, key),
               cur := c.cur.(gas := c.cur.gas - StorePrice(e, cold, was, now, val))))
  }

  // SSTORE, never in a read-only frame, takes key and value off the stack, puts
  // the value in that slot of the running contract, leaves every other slot,
  // balance, nonce, code and log, touches the contract, and is charged and refunded
  // by those prices.
  lemma SStoreInstruction(e: Env, c: Ctx)
    requires Runs(c, 0x55)
    ensures Completes(e, c) ==> Height(c) >= 2
    ensures Height(c) >= 2 ==>
      var d, key, val := Step(e, c), Word(c, 1), Word(c, 2);
      var (cold, was, now) := (Cold(c, key), WordWas(e, c, key), WordNow(c, key));
      && (Completes(e, c) <==> !c.cur.readOnly && CanStore(e, c, key, val))
      && (Completes(e, c) ==>
            && Writes(c, d, key, val) && d.access == WithSlot(e, c, key)
            && d.refund == c.refund + StoreRefund(e, was, now, val)
            && d.cur.gas == c.cur.gas - StorePrice(e, cold, was, now, val))
  {
    hide Step, Completes, StorePrice, StoreRefund, WithSlot, CanStore;
    RunsSStore(e, c);
    StackShort(e, c);
    if Height(c) >= 2 {
      WordBelow(c, 1);
      WordBelow(c, 2);
      StoreOutcome(e, c);
    }
  }

  lemma StackShort(e: Env, c: Ctx)
    ensures SStore(e, c).Ok? ==> c.cur.stack.top >= 2
  {
    hide WriteSlot;
  }

  // Two words are gone and the slot is written; nothing else in the world differs.
  ghost predicate Writes(c: Ctx, d: Ctx, key: U256, val: U256) {
    && Height(c) >= 2 && Words(d.cur) == Words(c.cur)[..Height(c) - 2]
    && (forall a: Addr, k: U256 ::
          d.world.GetState(a, k) == if a == c.cur.callee && k == key then val else c.world.GetState(a, k))
    && SameRest(c.world, d.world) && d.dirty == c.dirty + {c.cur.callee}
    && d == c.(
         world := d.world, dirty := d.dirty, refund := d.refund, access := d.access,
         cur := c.cur.(stack := d.cur.stack, gas := d.cur.gas, pc := Wrap64(c.cur.pc + 1)))
  }

  lemma StoreOutcome(e: Env, c: Ctx)
    requires c.cur.stack.top >= 2
    ensures var r, key, val := SStore(e, c), Below(c.cur, 1), Below(c.cur, 2);
      var (cold, was, now) := (Cold(c, key), WordWas(e, c, key), WordNow(c, key));
      && (r.Ok? <==> !c.cur.readOnly && CanStore(e, c, key, val))
      && (r.Ok? ==>
            && Writes(c, AdvancePc(r.state, 0), key, val) && r.state.access == WithSlot(e, c, key)
            && r.state.refund == c.refund + StoreRefund(e, was, now, val)
            && r.state.cur.gas == c.cur.gas - StorePrice(e, cold, was, now, val))
  {
    hide StorePrice, StoreRefund, WithSlot, CanStore, SStoreGas;
    var key, val := Below(c.cur, 1), Below(c.cur, 2);
    var d := c.(cur := Drop(c.cur, 2));
    StorePricesHold(e, d, key, val);
    CanStoreSame(e, c, d, key, val);
    assert Words(Drop(c.cur, 2)) == Words(c.cur)[..Height(c) - 2];
  }

  lemma StorePricesHold(e: Env, c: Ctx, key: U256, val: U256)
    ensures StorePrices(e, c, key, val)
  {
    hide StorePrices;
    if e.From(Berlin) {
      BerlinStorePrices(e, c, key, val);
    } else if e.From(Istanbul) {
      IstanbulStorePrices(e, c, key, val);
    } else {
      LegacyStorePrices(e, c, key, val);
    }
  }

  lemma CanStoreSame(e: Env, c: Ctx, d: Ctx, key: U256, val: U256)
    requires d == c.(cur := d.cur) && d.cur.gas == c.cur.gas && d.cur.callee == c.cur.callee
    ensures CanStore(e, c, key, val) <==> CanStore(e, d, key, val)
    ensures WithSlot(e, c, key) == WithSlot(e, d, key)
  {
    hide StorePrice;
  }

  // Balances, nonces, codes and logs.
  ghost predicate SameRest(v: World, w: World) {
    && v.logs == w.logs
    && forall a: Addr ::
         v.GetBalance(a) == w.GetBalance(a) && v.GetNonce(a) == w.GetNonce(a) && v.GetCode(a) == w.GetCode(a)
  }

  // Reading back what was written: after a completed SSTORE, an SLOAD by a frame
  // of the same contract pushes the value written to its key, and for every other
  // slot what was there before, as long as no slot has changed in between.
  lemma WriteThenRead(e: Env, c: Ctx, d: Ctx, later: Ctx, after: Ctx)
    requires Runs(c, 0x55) && Completes(e, c) && d == Step(e, c) && Height(c) >= 2
    requires Runs(later, 0x54) && Completes(e, later) && after == Step(e, later) && Height(later) >= 1
    requires forall a: Addr, k: U256 :: later.world.GetState(a, k) == d.world.GetState(a, k)
    ensures Top(after)
         == if later.cur.callee == c.cur.callee && Word(later, 1) == Word(c, 1) then Word(c, 2)
            else c.world.GetState(later.cur.callee, Word(later, 1))
  {
    hide Step, Completes, SlotPrice, WithSlot;
    SStoreInstruction(e, c);
    SLoadInstruction(e, later);
  }

  // ---------- EXTCODECOPY ----------

  lemma CopyCodeLeaves(f: Frame, code: Bytes, to: U256, off: U256, len: U256)
    ensures var r, price := CopyCode(f, code, to, off, len), 3 * Words32(len) + Fee(f.memory, to + len);
      && (r.Ok? <==> to + len <= MAX_MEM_SIZE && f.gas >= price)
      && (r.Ok? ==>
            && r == Ok(f.(gas := f.gas - price, memory := r.state.memory), ())
            && Stored(f.memory, r.state.memory, to + len, to, Excerpt(code, off, len)))
  {
    hide StoreSlice, Stored, Fee, Excerpt, GetData, PayWords, ToWordSize;
    FeeNonNegative(f.memory, to + len);
    DataShows(code, off, len);
    StoreLeaves(f, to, len, GetData(code, Saturate64(off), len));
    if to + len <= MAX_MEM_SIZE {
      PaysCopy(len);
      assert GetData(code, Saturate64(off), len)[..len] == GetData(code, Saturate64(off), len);
    }
  }

  lemma ExtCodeCopyOutcome(e: Env, c: Ctx)
    requires c.cur.stack.top >= 4
    ensures var r, a := ExtCodeCopy(e, c), ToAddr(Below(c.cur, 1));
      var (to: nat, off: nat, len: nat) := (Below(c.cur, 2), Below(c.cur, 3), Below(c.cur, 4));
      var price := AccountPrice(e, c, a, FlatPrice(e, 0x3c)) + 3 * Words32(len) + Fee(c.cur.memory, to + len);
      && (r.Ok? <==> to + len <= MAX_MEM_SIZE && c.cur.gas >= price)
      && (r.Ok? ==>
            && r == Ok(c.(access := WithAccount(e, c.access, a), cur := r.state.cur), ())
            && r.state.cur == Drop(c.cur, 4).(gas := r.state.cur.gas, memory := r.state.cur.memory)
            && r.state.cur.gas == c.cur.gas - price
            && Stored(c.cur.memory, r.state.cur.memory, to + len, to, Excerpt(c.world.GetCode(a), off, len)))
  {
    hide AccountAccess, AccountPrice, WithAccount, CopyCode, Stored, Fee, Excerpt, Words32;
    var a := ToAddr(Below(c.cur, 1));
    var (to: nat, off: nat, len: nat) := (Below(c.cur, 2), Below(c.cur, 3), Below(c.cur, 4));
    var d := c.(cur := Drop(c.cur, 4));
    AccountLooked(e, d, a, FlatPrice(e, 0x3c));
    AccountPriceSame(e, c, d, a, FlatPrice(e, 0x3c));
    FeeNonNegative(c.cur.memory, to + len);
    var r := AccountAccess(e, d, a, FlatPrice(e, 0x3c));
    if r.Ok? {
      CopyCodeLeaves(r.state.cur, c.world.GetCode(a), to, off, len);
    }
  }

  // EXTCODECOPY puts bytes of an account's code in memory, zeros past their end.
  lemma ExtCodeCopyInstruction(e: Env, c: Ctx)
    requires Runs(c, 0x3c)
    ensures Completes(e, c) ==> Height(c) >= 4
    ensures Height(c) >= 4 ==>
      var a := ToAddr(Word(c, 1));
      var (to: nat, off: nat, len: nat) := (Word(c, 2), Word(c, 3), Word(c, 4));
      var price := AccountPrice(e, c, a, FlatPrice(e, 0x3c)) + 3 * Words32(len) + Fee(c.cur.memory, to + len);
      && (Completes(e, c) <==> to + len <= MAX_MEM_SIZE && c.cur.gas >= price)
      && (Completes(e, c) ==>
            && Step(e, c).access == WithAccount(e, c.access, a)
            && Stores(c.(access := WithAccount(e, c.access, a)), Step(e, c), 4, [], price, to + len, to,
                      Excerpt(c.world.GetCode(a), off, len)))
  {
    hide Step, Completes, WorldOutcome, AccountPrice, WithAccount, Stores, Fee, Excerpt, Words32, FlatPrice;
    RunsWorld(e, c, 0x3c);
    CodeCopyIs(e, c);
    if Height(c) >= 4 {
      CodeCopyStores(e, c);
    }
  }

  lemma CodeCopyStores(e: Env, c: Ctx)
    requires Height(c) >= 4
    ensures var r, a := ExtCodeCopy(e, c), ToAddr(Word(c, 1));
      var (to: nat, off: nat, len: nat) := (Word(c, 2), Word(c, 3), Word(c, 4));
      var price := AccountPrice(e, c, a, FlatPrice(e, 0x3c)) + 3 * Words32(len) + Fee(c.cur.memory, to + len);
      && (r.Ok? <==> to + len <= MAX_MEM_SIZE && c.cur.gas >= price)
      && (r.Ok? ==>
            && r.state.access == WithAccount(e, c.access, a)
            && Stores(c.(access := WithAccount(e, c.access, a)), AdvancePc(r.state, 0), 4, [], price, to + len, to,
                      Excerpt(c.world.GetCode(a), off, len)))
  {
    hide ExtCodeCopy, AccountPrice, WithAccount, Stored, Fee, Excerpt, Words32, FlatPrice;
    WordBelow(c, 1);
    WordBelow(c, 2);
    WordBelow(c, 3);
    WordBelow(c, 4);
    ExtCodeCopyOutcome(e, c);
    assert Words(Drop(c.cur, 4)) == Words(c.cur)[..Height(c) - 4] + [];
  }

  lemma CodeCopyIs(e: Env, c: Ctx)
    ensures WorldOutcome(e, c, 0x3c) == ExtCodeCopy(e, c) && (ExtCodeCopy(e, c).Ok? ==> c.cur.stack.top >= 4)
  {
  }

  // ---------- logs ----------

  lemma LogDecodes(raw: Byte)
    requires 0xa0 <= raw <= 0xa4
    ensures Decode(raw) == LogOp(raw - 0xa0)
  {
  }

  lemma RunsLog(e: Env, c: Ctx, raw: Byte)
    requires Runs(c, raw) && 0xa0 <= raw <= 0xa4
    ensures var r := Log(e, c, raw - 0xa0);
      (Completes(e, c) <==> r.Ok?) && (r.Ok? ==> Step(e, c) == AdvancePc(r.state, 0))
  {
    hide Decode, Log, Step, Fetch;
    LogDecodes(raw);
    FetchesRaw(c, raw);
    assert Exec(e, LogOp(raw - 0xa0), [], c) == Log(e, c, raw - 0xa0);
    if Completes(e, c) {
      hide Exec;
      CompletedAdvances(e, c);
    }
  }

  // The top words of a stack, the top one first.
  function TopWords(f: Frame, n: nat): (ws: seq<U256>)
    requires n <= f.stack.top
    ensures |ws| == n && forall i | 0 <= i < n :: ws[i] == Below(f, i + 1)
  {
    if n == 0 then [] else TopWords(f, n - 1) + [Below(f, n)]
  }

  lemma {:induction false} ConsumesMany(f: Frame, n: nat)
    ensures var r := ConsumeMany(f, n);
      && (r.Ok? <==> n <= f.stack.top) && !r.Panic?
      && (n <= f.stack.top ==> r == Ok(Drop(f, n), TopWords(f, n)))
    decreases n
  {
    if n > 0 && f.stack.top >= 1 {
      ConsumesMany(Drop(f, 1), n - 1);
      if n <= f.stack.top {
        var ws := [Below(f, 1)] + TopWords(Drop(f, 1), n - 1);
        assert |ws| == n && forall i | 0 <= i < n :: ws[i] == Below(f, i + 1);
        assert ws == TopWords(f, n);
      }
    }
  }

  lemma LogPaid(c: Ctx, n: nat)
    ensures var r := LogCharges(c, n);
      var (off: U256, len: U256) := if c.cur.stack.top >= 2 then (Below(c.cur, 1), Below(c.cur, 2)) else (0, 0);
      var price := 375 + 375 * n + 8 * len;
      && (r.Ok? <==> c.cur.stack.top >= 2 && 8 * len < TWO_64 && c.cur.gas >= price)
      && (r.Ok? ==>
            && r.value == (off, len)
            && r.state == c.(cur := r.state.cur)
            && r.state.cur == Drop(c.cur, 2).(gas := r.state.cur.gas) && r.state.cur.gas == c.cur.gas - price)
  {
    assert n * GAS_LOG_TOPIC == 375 * n;
    Arith.MulMono(0, n, 375);
  }

  lemma LogOutcome(e: Env, c: Ctx, n: nat)
    requires n <= 4
    ensures var r := LogRecord(e, c, n);
      var (off: nat, len: nat) := if c.cur.stack.top >= 2 then (Below(c.cur, 1), Below(c.cur, 2)) else (0, 0);
      var price := 375 + 375 * n + 8 * len;
      && (r.Ok? <==> c.cur.stack.top >= n + 2 && off + len <= MAX_MEM_SIZE && c.cur.gas >= price)
      && (r.Ok? ==>
            && r.state == c.(cur := r.state.cur) && r.state.cur.gas == c.cur.gas - price
            && r.state.cur == Drop(c.cur, n + 2).(gas := r.state.cur.gas, memory := r.state.cur.memory)
            && Stored(c.cur.memory, r.state.cur.memory, off + len, 0, [])
            && r.value.1 == Fee(c.cur.memory, off + len)
            && r.value.0 == LogItem(c.cur.callee, TopWords(Drop(c.cur, 2), n), Shown(c.cur.memory, off, len), e.number))
  {
    hide LogCharges, Slice, Stored, Fee, Shown, ConsumeMany, TopWords;
    LogPaid(c, n);
    var r := LogCharges(c, n);
    if r.Ok? {
      var (g, off: nat, len: nat) := (r.state.cur, Below(c.cur, 1), Below(c.cur, 2));
      ConsumesMany(g, n);
      if n <= g.stack.top {
        SliceLeaves(Drop(g, n), off, len);
        SliceShows(Drop(g, n), off, len);
        TopWordsSame(g, Drop(c.cur, 2), n);
      }
    }
  }

  lemma TopWordsSame(f: Frame, g: Frame, n: nat)
    requires n <= f.stack.top && f.stack == g.stack
    ensures TopWords(f, n) == TopWords(g, n)
  {
  }

  // One more record, of the running contract and block.
  ghost predicate Records(e: Env, c: Ctx, d: Ctx, topics: seq<U256>, data: Bytes) {
    && d.world.accounts == c.world.accounts
    && d.world.logs == c.world.logs + [LogItem(c.cur.callee, topics, data, e.number)]
  }

  // The words below the two top ones, the higher one first.
  function Topics(c: Ctx, n: nat): (ws: seq<U256>)
    requires Height(c) >= n + 2
    ensures |ws| == n && forall i | 0 <= i < n :: ws[i] == Words(c.cur)[Height(c) - 3 - i]
  {
    if n == 0 then [] else Topics(c, n - 1) + [Words(c.cur)[Height(c) - 2 - n]]
  }

  lemma TopicsAre(c: Ctx, n: nat)
    requires c.cur.stack.top >= n + 2
    ensures TopWords(Drop(c.cur, 2), n) == Topics(c, n)
  {
    var ws, ts := TopWords(Drop(c.cur, 2), n), Topics(c, n);
    assert forall i | 0 <= i < n :: ws[i] == ts[i];
  }

  // A completed LOG of n topics, never in a read-only frame, appends one record
  // with the topics from the stack and the bytes of the slice; no account is
  // different.
  lemma LogInstruction(e: Env, c: Ctx, raw: Byte)
    requires Runs(c, raw) && 0xa0 <= raw <= 0xa4
    ensures var n := raw - 0xa0;
      var (off: nat, len: nat) := if Height(c) >= 2 then (Word(c, 1), Word(c, 2)) else (0, 0);
      var price := 375 + 375 * n + 8 * len + Fee(c.cur.memory, off + len);
      && (Completes(e, c)
          <==> !c.cur.readOnly && Height(c) >= n + 2 && off + len <= MAX_MEM_SIZE && c.cur.gas >= price)
      && (Completes(e, c) ==>
            && Records(e, c, Step(e, c), Topics(c, n), Shown(c.cur.memory, off, len))
            && Stores(c.(world := Step(e, c).world), Step(e, c), n + 2, [], price, off + len, 0, []))
  {
    hide Step, Completes, LogRecord, Stored, Fee, Shown, TopWords, Topics;
    var n := raw - 0xa0;
    RunsLog(e, c, raw);
    LogOutcome(e, c, n);
    var (off: nat, len: nat) := if Height(c) >= 2 then (Word(c, 1), Word(c, 2)) else (0, 0);
    FeeNonNegative(c.cur.memory, off + len);
    if Height(c) >= 2 {
      WordBelow(c, 1);
      WordBelow(c, 2);
    }
    if Height(c) >= n + 2 {
      TopicsAre(c, n);
      assert Words(Drop(c.cur, n + 2)) == Words(c.cur)[..Height(c) - (n + 2)] + [];
    }
  }
}
