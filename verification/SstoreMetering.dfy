// Net gas metering of SSTORE: what a run of writes costs depends on how many
// there are and on where each slot starts and ends, not on the path between.
module SstoreMetering {
  import opened Common
  import opened Params
  import opened FlatWorld
  import opened Machine
  import opened Instructions
  import OperandStack

  // A completed SSTORE: the state before and after its gas and write.
  datatype Write = Write(before: Ctx, key: U256, val: U256, after: Ctx) {
    function Slot(): (Addr, U256) { (before.cur.callee, key) }

    function Charged(): int { before.cur.gas - after.cur.gas }

    predicate Cold() { Slot() !in before.access.slots }
  }

  ghost predicate Completed(e: Env, w: Write) {
    WriteSlot(e, w.before, w.key, w.val) == Ok(w.after, ())
  }

  // Between two writes anything may run that writes no storage, takes no refund
  // back and rolls nothing back.
  ghost predicate Follows(d: Ctx, c: Ctx) {
    && (forall a: Addr, k: U256 :: c.world.GetState(a, k) == d.world.GetState(a, k))
    && d.refund <= c.refund
    && d.access.slots <= c.access.slots
  }

  // Every slot holds its committed value.
  ghost predicate Unchanged(e: Env, c: Ctx) {
    forall a: Addr, k: U256 :: c.world.GetState(a, k) == e.committed.GetState(a, k)
  }

  ghost predicate Trace(e: Env, ws: seq<Write>) {
    && (forall i | 0 <= i < |ws| :: Completed(e, ws[i]))
    && (forall i | 0 < i < |ws| :: Follows(ws[i - 1].after, ws[i].before))
    && (ws != [] ==> Unchanged(e, ws[0].before))
  }

  // ---------- the metered quantities ----------

  function Base(e: Env): nat {
    if e.From(Berlin) then GAS_WARM_STORAGE_READ_COST_BERLIN else GAS_SLOAD_ISTANBUL
  }

  function Reset(e: Env): nat {
    if e.From(Berlin) then GAS_SSTORE_RESET_ISTANBUL - GAS_COLD_SLOAD_COST_BERLIN
    else GAS_SSTORE_RESET_ISTANBUL
  }

  // What a slot costs above one base charge per write, by its committed and
  // its present value alone: set is due when it was empty, change when it was
  // not, less the clearing refund if it is empty now.
  function Phi(orig: U256, now: U256, set_: nat, change: nat, clearing: nat): int {
    if now == orig then 0
    else if orig == 0 then set_
    else change - (if now == 0 then clearing else 0)
  }

  function ForkPhi(e: Env, orig: U256, now: U256): int {
    Phi(orig, now, GAS_SSTORE_SET_ISTANBUL - Base(e), Reset(e) - Base(e), ClearingRefund(e))
  }

  // The charges in numbers, as EIP-2200, EIP-2929 and EIP-3529 give them.
  lemma MeteringConstants(e: Env, orig: U256, now: U256)
    requires e.From(Istanbul)
    ensures !e.From(Berlin) ==>
      && Base(e) == 800
      && ForkPhi(e, orig, now)
         == if now == orig then 0 else if orig == 0 then 19200 else if now == 0 then 4200 - 15000 else 4200
    ensures e.From(Berlin) ==>
      && Base(e) == 100 && GAS_COLD_SLOAD_COST_BERLIN == 2100
      && ForkPhi(e, orig, now)
         == if now == orig then 0 else if orig == 0 then 19900
            else if now == 0 then 2800 - (if e.From(London) then 4800 else 15000) else 2800
  {
  }

  function SlotPhi(e: Env, w: World, s: (Addr, U256)): int {
    ForkPhi(e, e.committed.GetState(s.0, s.1), w.GetState(s.0, s.1))
  }

  ghost function PhiSum(e: Env, w: World, slots: set<(Addr, U256)>): int {
    if slots == {} then 0
    else
      var s :| s in slots;
      SlotPhi(e, w, s) + PhiSum(e, w, slots - {s})
  }

  function Slots(ws: seq<Write>): set<(Addr, U256)> {
    set w | w in ws :: w.Slot()
  }

  function Spent(ws: seq<Write>): int {
    if ws == [] then 0 else Spent(ws[..|ws| - 1]) + ws[|ws| - 1].Charged()
  }

  // What the writes themselves add to the refund counter.
  function Gains(ws: seq<Write>): int {
    if ws == [] then 0
    else Gains(ws[..|ws| - 1]) + (ws[|ws| - 1].after.refund - ws[|ws| - 1].before.refund)
  }

  // The cold surcharges, from Berlin on.
  function ColdGas(e: Env, ws: seq<Write>): nat {
    if ws == [] || !e.From(Berlin) then 0
    else ColdGas(e, ws[..|ws| - 1]) + if ws[|ws| - 1].Cold() then GAS_COLD_SLOAD_COST_BERLIN else 0
  }

  // ---------- one write ----------

  function Net(c: Ctx, d: Ctx): int { (c.cur.gas - d.cur.gas) - (d.refund - c.refund) }

  lemma CleanMetered(c: Ctx, orig: U256, val: U256, clearing: nat, gas: nat, set_: nat, change: nat)
    requires val != orig
    ensures var r := CleanWrite(c, orig, val, clearing, gas + set_, gas + change);
      r.Ok? ==> Net(c, r.state) == gas + Phi(orig, val, set_, change, clearing)
  {
  }

  lemma DirtyMetered(
    c: Ctx, orig: U256, cur: U256, val: U256, clearing: nat, set_: nat, change: nat, gas: nat
  )
    requires cur != orig && val != cur
    ensures var r := DirtyWrite(c, orig, cur, val, clearing, set_, change, gas);
      r.Ok? ==>
        Net(c, r.state) == gas + Phi(orig, val, set_, change, clearing) - Phi(orig, cur, set_, change, clearing)
  {
  }

  lemma IstanbulMetered(e: Env, c: Ctx, key: U256, val: U256)
    requires e.From(Istanbul) && !e.From(Berlin)
    ensures var r := SStoreIstanbulGas(e, c, key, val);
      var orig, cur := e.committed.GetState(c.cur.callee, key), c.world.GetState(c.cur.callee, key);
      r.Ok? ==> Net(c, r.state) == Base(e) + ForkPhi(e, orig, val) - ForkPhi(e, orig, cur)
  {
    hide CleanWrite, DirtyWrite, Phi;
    var orig, cur := e.committed.GetState(c.cur.callee, key), c.world.GetState(c.cur.callee, key);
    PhiAtOrigin(e, orig);
    if cur != val {
      if orig == cur {
        CleanMetered(c, orig, val, ClearingRefund(e), Base(e),
                     GAS_SSTORE_SET_ISTANBUL - Base(e), Reset(e) - Base(e));
      } else {
        DirtyMetered(c, orig, cur, val, ClearingRefund(e),
                     GAS_SSTORE_SET_ISTANBUL - Base(e), Reset(e) - Base(e), Base(e));
      }
    }
  }

  lemma PhiAtOrigin(e: Env, orig: U256)
    ensures ForkPhi(e, orig, orig) == 0
  {
  }

  lemma BerlinMetered(e: Env, c: Ctx, key: U256, val: U256)
    requires e.From(Berlin)
    ensures var r := SStoreBerlinLondonGas(e, c, key, val, ClearingRefund(e));
      var orig, cur := e.committed.GetState(c.cur.callee, key), c.world.GetState(c.cur.callee, key);
      r.Ok? ==>
        Net(c, r.state) == Base(e) + ForkPhi(e, orig, val) - ForkPhi(e, orig, cur)
          + if (c.cur.callee, key) in c.access.slots then 0 else GAS_COLD_SLOAD_COST_BERLIN
  {
    hide CleanWrite, DirtyWrite, Phi;
    var orig, cur := e.committed.GetState(c.cur.callee, key), c.world.GetState(c.cur.callee, key);
    PhiAtOrigin(e, orig);
    var t := WarmSlot(c, key);
    if t.Ok? && cur != val {
      if orig == cur {
        CleanMetered(t.state, orig, val, ClearingRefund(e), t.value + Base(e),
                     GAS_SSTORE_SET_ISTANBUL - Base(e), Reset(e) - Base(e));
      } else {
        DirtyMetered(t.state, orig, cur, val, ClearingRefund(e),
                     GAS_SSTORE_SET_ISTANBUL - Base(e), Reset(e) - Base(e), t.value + Base(e));
      }
    }
  }

  // The charge less the refund of one write is the base, the cold surcharge
  // and the change of phi at its slot.
  lemma WriteMetered(e: Env, w: Write)
    requires e.From(Istanbul) && Completed(e, w)
    ensures var orig := e.committed.GetState(w.before.cur.callee, w.key);
      var cur := w.before.world.GetState(w.before.cur.callee, w.key);
      w.Charged() - (w.after.refund - w.before.refund)
        == Base(e) + (if e.From(Berlin) && w.Cold() then GAS_COLD_SLOAD_COST_BERLIN else 0)
           + ForkPhi(e, orig, w.val) - ForkPhi(e, orig, cur)
  {
    hide SStoreBerlinLondonGas, SStoreIstanbulGas, ForkPhi;
    if e.From(Berlin) {
      BerlinMetered(e, w.before, w.key, w.val);
    } else {
      IstanbulMetered(e, w.before, w.key, w.val);
    }
  }

  lemma WriteEffect(e: Env, w: Write)
    requires Completed(e, w)
    ensures w.after.world == w.before.world.SetState(w.before.cur.callee, w.key, w.val)
    ensures w.before.access.slots <= w.after.access.slots
    ensures e.From(Berlin) ==> w.Slot() in w.after.access.slots
  {
  }

  // ---------- sums over slots ----------

  lemma {:induction false} PhiSumWithout(e: Env, w: World, slots: set<(Addr, U256)>, s: (Addr, U256))
    requires s in slots
    ensures PhiSum(e, w, slots) == SlotPhi(e, w, s) + PhiSum(e, w, slots - {s})
    decreases |slots|
  {
    var t :| t in slots && PhiSum(e, w, slots) == SlotPhi(e, w, t) + PhiSum(e, w, slots - {t});
    if s != t {
      PhiSumWithout(e, w, slots - {t}, s);
      PhiSumWithout(e, w, slots - {s}, t);
      assert (slots - {s}) - {t} == (slots - {t}) - {s};
    }
  }

  ghost predicate Agree(v: World, w: World, slots: set<(Addr, U256)>) {
    forall s <- slots :: v.GetState(s.0, s.1) == w.GetState(s.0, s.1)
  }

  lemma {:induction false} PhiSumAgree(e: Env, v: World, w: World, slots: set<(Addr, U256)>)
    requires Agree(v, w, slots)
    ensures PhiSum(e, v, slots) == PhiSum(e, w, slots)
    decreases |slots|
  {
    if slots != {} {
      var s :| s in slots;
      PhiSumAgree(e, v, w, slots - {s});
      PhiSumWithout(e, v, slots, s);
      PhiSumWithout(e, w, slots, s);
    }
  }

  // Writing one slot changes only that slot's share.
  lemma PhiSumWrite(e: Env, v: World, slots: set<(Addr, U256)>, s: (Addr, U256), val: U256)
    requires s !in slots ==> SlotPhi(e, v, s) == 0
    ensures PhiSum(e, v.SetState(s.0, s.1, val), slots + {s})
         == PhiSum(e, v, slots) - SlotPhi(e, v, s) + ForkPhi(e, e.committed.GetState(s.0, s.1), val)
  {
    var w := v.SetState(s.0, s.1, val);
    PhiSumWithout(e, w, slots + {s}, s);
    assert (slots + {s}) - {s} == slots - {s};
    PhiSumAgree(e, v, w, slots - {s});
    if s in slots {
      PhiSumWithout(e, v, slots, s);
    } else {
      assert slots - {s} == slots;
    }
  }

  // ---------- a run of writes ----------

  lemma PrefixTrace(e: Env, ws: seq<Write>)
    requires Trace(e, ws) && ws != []
    ensures Trace(e, ws[..|ws| - 1])
    ensures Slots(ws) == Slots(ws[..|ws| - 1]) + {ws[|ws| - 1].Slot()}
  {
    hide Completed, Follows, Unchanged;
    assert ws == ws[..|ws| - 1] + [ws[|ws| - 1]];
  }

  // Slots not written so far hold their committed values.
  lemma {:induction false} UntouchedSlots(e: Env, ws: seq<Write>, s: (Addr, U256))
    requires Trace(e, ws) && ws != [] && s !in Slots(ws)
    ensures ws[|ws| - 1].after.world.GetState(s.0, s.1) == e.committed.GetState(s.0, s.1)
  {
    var w := ws[|ws| - 1];
    PrefixTrace(e, ws);
    WriteEffect(e, w);
    if |ws| > 1 {
      UntouchedSlots(e, ws[..|ws| - 1], s);
      assert Follows(ws[|ws| - 2].after, w.before);
    }
  }

  // Over any run of completed writes from an unchanged world, the gas they charge
  // less the refund they gain is one base charge per write, the cold surcharges,
  // and phi of each written slot's committed and final values.
  lemma {:induction false} NetMetering(e: Env, ws: seq<Write>)
    requires e.From(Istanbul) && Trace(e, ws) && ws != []
    ensures var last := ws[|ws| - 1].after;
      Spent(ws) - Gains(ws)
        == Base(e) * |ws| + ColdGas(e, ws) + PhiSum(e, last.world, Slots(ws))
    decreases |ws|
  {
    var w, n := ws[|ws| - 1], |ws| - 1;
    var prefix, s := ws[..n], ws[n].Slot();
    hide Completed, ForkPhi, Unchanged, Follows, Base;
    PrefixTrace(e, ws);
    WriteMetered(e, w);
    WriteEffect(e, w);
    if n == 0 {
      UnchangedPhi(e, w.before, s);
    } else {
      NetMetering(e, prefix);
      SumBetween(e, ws);
    }
    PhiSumWrite(e, w.before.world, Slots(prefix), s, w.val);
    OneMore(Base(e), n);
  }

  lemma OneMore(b: nat, n: nat)
    ensures b * (n + 1) == b * n + b
  {
  }

  // Before its last write a run's sum is what it was after the one before.
  lemma SumBetween(e: Env, ws: seq<Write>)
    requires Trace(e, ws) && |ws| > 1
    ensures var w, prev, prefix := ws[|ws| - 1], ws[|ws| - 2], ws[..|ws| - 1];
      && PhiSum(e, w.before.world, Slots(prefix)) == PhiSum(e, prev.after.world, Slots(prefix))
      && (w.Slot() !in Slots(prefix) ==> SlotPhi(e, w.before.world, w.Slot()) == 0)
  {
    hide Completed, ForkPhi, Unchanged;
    var w, prev, prefix := ws[|ws| - 1], ws[|ws| - 2], ws[..|ws| - 1];
    PrefixTrace(e, ws);
    assert Follows(prev.after, w.before);
    PhiSumAgree(e, prev.after.world, w.before.world, Slots(prefix));
    if w.Slot() !in Slots(prefix) {
      UntouchedSlots(e, prefix, w.Slot());
      UnchangedSlotPhi(e, w.before.world, w.Slot());
    }
  }

  lemma UnchangedPhi(e: Env, c: Ctx, s: (Addr, U256))
    requires Unchanged(e, c)
    ensures SlotPhi(e, c.world, s) == 0
  {
  }

  lemma UnchangedSlotPhi(e: Env, w: World, s: (Addr, U256))
    requires w.GetState(s.0, s.1) == e.committed.GetState(s.0, s.1)
    ensures SlotPhi(e, w, s) == 0
  {
  }

  // A slot is charged as cold at most once.
  lemma {:induction false} ColdOnce(e: Env, ws: seq<Write>, i: nat, j: nat)
    requires e.From(Berlin) && Trace(e, ws) && i < j < |ws| && ws[i].Slot() == ws[j].Slot()
    ensures !ws[j].Cold()
  {
    SlotsGrow(e, ws, i, j);
    WriteEffect(e, ws[i]);
  }

  lemma {:induction false} SlotsGrow(e: Env, ws: seq<Write>, i: nat, j: nat)
    requires Trace(e, ws) && i < j < |ws|
    ensures ws[i].after.access.slots <= ws[j].before.access.slots
    decreases j
  {
    hide Completed;
    assert Follows(ws[j - 1].after, ws[j].before);
    if i < j - 1 {
      SlotsGrow(e, ws, i, j - 1);
      WriteEffect(e, ws[j - 1]);
    }
  }

  // ---------- the refund counter ----------

  predicate Cleared(e: Env, w: World, s: (Addr, U256)) {
    e.committed.GetState(s.0, s.1) != 0 && w.GetState(s.0, s.1) == 0
  }

  function ClearedSlots(e: Env, w: World, slots: set<(Addr, U256)>): set<(Addr, U256)> {
    set s | s in slots && Cleared(e, w, s)
  }

  // A write to a slot outside the counted ones starts from its committed value.
  lemma WriteRefund(e: Env, w: Write)
    requires e.From(Istanbul) && Completed(e, w)
    ensures var s := w.Slot();
      w.after.refund >= w.before.refund
        + (if Cleared(e, w.after.world, s) && !Cleared(e, w.before.world, s) then ClearingRefund(e) else 0)
        - (if Cleared(e, w.before.world, s) && !Cleared(e, w.after.world, s) then ClearingRefund(e) else 0)
  {
    WriteEffect(e, w);
  }

  // The refund counter covers one clearing refund for every slot that is
  // cleared now and was not empty at the start.
  lemma {:induction false} RefundCoversCleared(e: Env, ws: seq<Write>)
    requires e.From(Istanbul) && Trace(e, ws) && ws != []
    ensures var last := ws[|ws| - 1].after;
      last.refund >= ClearingRefund(e) * |ClearedSlots(e, last.world, Slots(ws))|
    decreases |ws|
  {
    var w, n := ws[|ws| - 1], |ws| - 1;
    var prefix, s := ws[..n], ws[n].Slot();
    var before := ClearedSlots(e, w.before.world, Slots(prefix));
    hide Completed, Unchanged, Follows, Cleared;
    PrefixTrace(e, ws);
    WriteRefund(e, w);
    WriteEffect(e, w);
    assert w.before.refund >= ClearingRefund(e) * |before| by {
      if n > 0 {
        RefundCoversCleared(e, prefix);
        ClearedBetween(e, ws);
      } else {
        assert before == {};
      }
    }
    assert Cleared(e, w.before.world, s) ==> s in before by {
      if Cleared(e, w.before.world, s) {
        ClearedIsWritten(e, ws);
      }
    }
    ClearedAfterWrite(e, w.before.world, Slots(prefix), s, w.val);
    RefundStep(ClearingRefund(e), before, s, Cleared(e, w.after.world, s), w.before.refund, w.after.refund);
  }

  lemma RefundStep(r: nat, before: set<(Addr, U256)>, s: (Addr, U256), cleared: bool, old_: nat, new_: nat)
    requires old_ >= r * |before|
    requires new_ >= old_ + (if cleared && s !in before then r else 0) - (if s in before && !cleared then r else 0)
    ensures new_ >= r * |if cleared then before + {s} else before - {s}|
  {
    var after := if cleared then before + {s} else before - {s};
    var n := |before|;
    assert |after| == if cleared == (s in before) then n else if cleared then n + 1 else n - 1 by {
      if cleared == (s in before) {
        assert after == before;
      }
    }
    assert r * (n + 1) == r * n + r && r * (n - 1) == r * n - r;
  }

  lemma ClearedBetween(e: Env, ws: seq<Write>)
    requires Trace(e, ws) && |ws| > 1
    ensures var w, prev, prefix := ws[|ws| - 1], ws[|ws| - 2], ws[..|ws| - 1];
      && w.before.refund >= prev.after.refund
      && ClearedSlots(e, w.before.world, Slots(prefix)) == ClearedSlots(e, prev.after.world, Slots(prefix))
  {
    hide Completed, Unchanged;
    assert Follows(ws[|ws| - 2].after, ws[|ws| - 1].before);
  }

  // Only a slot written before can be found cleared.
  lemma ClearedIsWritten(e: Env, ws: seq<Write>)
    requires Trace(e, ws) && ws != []
    requires Cleared(e, ws[|ws| - 1].before.world, ws[|ws| - 1].Slot())
    ensures ws[|ws| - 1].Slot() in Slots(ws[..|ws| - 1])
  {
    hide Completed;
    var n, s := |ws| - 1, ws[|ws| - 1].Slot();
    PrefixTrace(e, ws);
    if n > 0 {
      assert Follows(ws[n - 1].after, ws[n].before);
      if s !in Slots(ws[..n]) {
        UntouchedSlots(e, ws[..n], s);
      }
    }
  }

  lemma ClearedAfterWrite(e: Env, v: World, slots: set<(Addr, U256)>, s: (Addr, U256), val: U256)
    ensures ClearedSlots(e, v.SetState(s.0, s.1, val), slots + {s})
         == if Cleared(e, v.SetState(s.0, s.1, val), s) then ClearedSlots(e, v, slots) + {s}
            else ClearedSlots(e, v, slots) - {s}
  {
  }

  // So no write that continues such a run takes the counter below zero.
  lemma RefundNeverBelowZero(e: Env, ws: seq<Write>, c: Ctx, key: U256, val: U256)
    requires e.From(Istanbul) && Trace(e, ws)
    requires if ws == [] then Unchanged(e, c) else Follows(ws[|ws| - 1].after, c)
    ensures var r := WriteSlot(e, c, key, val); !(r.Panic? && r.why.RefundBelowZero?)
  {
    var s := (c.cur.callee, key);
    RefundPanicsExactly(e, c, key, val);
    if Cleared(e, c.world, s) {
      hide WriteSlot, Completed;
      var last := ws[|ws| - 1].after;
      RefundCoversCleared(e, ws);
      if s !in Slots(ws) {
        UntouchedSlots(e, ws, s);
      }
      OneCleared(e, last.world, Slots(ws), s);
    }
  }

  // Exactly when a write takes the refund counter below zero, which aborts: it
  // refills a cleared slot while the counter holds less than one clearing refund,
  // and no check before that ends it.
  lemma RefundPanicsExactly(e: Env, c: Ctx, key: U256, val: U256)
    requires e.From(Istanbul)
    ensures var r, s := WriteSlot(e, c, key, val), (c.cur.callee, key);
      (r.Panic? && r.why.RefundBelowZero?) <==>
        && Cleared(e, c.world, s) && val != 0
        && c.refund < ClearingRefund(e)
        && c.cur.gas > GAS_SSTORE_SENTRY_ISTANBUL
        && (e.From(Berlin) ==> c.cur.callee in c.access.addrs || s in c.access.slots)
  {
  }

  // Before Istanbul no write takes refund back.
  lemma LegacyNeverPanics(e: Env, c: Ctx, key: U256, val: U256)
    requires !e.From(Istanbul)
    ensures !WriteSlot(e, c, key, val).Panic?
  {
  }

  lemma OneCleared(e: Env, w: World, slots: set<(Addr, U256)>, s: (Addr, U256))
    requires s in slots && Cleared(e, w, s)
    ensures ClearingRefund(e) * |ClearedSlots(e, w, slots)| >= ClearingRefund(e)
  {
    assert s in ClearedSlots(e, w, slots);
  }

  // Rolling a write back restores the slot but not the counter, so the condition
  // that nothing is rolled back cannot be dropped: clear a slot, refill it in a
  // nested call of the same contract that then fails, and refill it again.
  lemma RollbackBreaksRefund(e: Env, c: Ctx, key: U256, val: U256, code: Bytes, gas: U64)
    requires e.From(Istanbul) && c.refund == 0 && val != 0
    requires c.cur.callee in c.access.addrs && c.cur.gas >= 20000 && gas >= 10000
    requires c.cur.stack.top < MAX_STACK_DEPTH
    requires c.world.GetState(c.cur.callee, key) == e.committed.GetState(c.cur.callee, key) != 0
    ensures var cleared := WriteSlot(e, c, key, 0);
      && cleared.Ok?
      && var nested := CallPush(cleared.state, code, [], 0, c.cur.callee, c.cur.callee,
                                SubCall(Some(cleared.state.world), 0, 0), gas, false);
         var refilled := WriteSlot(e, nested, key, val);
         && refilled.Ok?
         && var back := FinishCall(e, refilled.state, [], Failure(OutOfGas));
            && back.Ok? && back.state.world == cleared.state.world && back.state.refund < ClearingRefund(e)
            && var again := WriteSlot(e, back.state, key, val);
               again.Panic? && again.why.RefundBelowZero?
  {
    hide WriteSlot, FinishCall, Cleared;
    var cleared := WriteSlot(e, c, key, 0);
    ClearingGives(e, c, key);
    var nested := CallPush(cleared.state, code, [], 0, c.cur.callee, c.cur.callee,
                           SubCall(Some(cleared.state.world), 0, 0), gas, false);
    RefillTakes(e, nested, key, val);
    var refilled := WriteSlot(e, nested, key, val);
    FailedCallBack(e, refilled.state, cleared.state.world, OutOfGas);
    assert refilled.state.callStack == nested.callStack;
    RefundPanicsExactly(e, FinishCall(e, refilled.state, [], Failure(OutOfGas)).state, key, val);
  }

  // A nested call that failed for good puts its snapshot back, and its caller
  // with a zero on the stack; the refund counter stays.
  lemma FailedCallBack(e: Env, c: Ctx, snapshot: World, error: ExecError)
    requires c.callStack != [] && c.cur.callType == SubCall(Some(snapshot), 0, 0) && !error.RevertedCall?
    requires c.callStack[|c.callStack| - 1].stack.top < MAX_STACK_DEPTH
    ensures var r, f := FinishCall(e, c, [], Failure(error)), c.callStack[|c.callStack| - 1];
      && r.Ok? && r.state.world == snapshot && r.state.refund == c.refund && r.state.access == c.access
      && r.state.callStack == c.callStack[..|c.callStack| - 1] && r.state.status == c.status
      && r.state.cur == f.(
           lastReturned := [],
           stack := OperandStack.Words(f.stack.slots[f.stack.top := 0], f.stack.top + 1))
  {
  }

  lemma ClearingGives(e: Env, c: Ctx, key: U256)
    requires e.From(Istanbul) && c.cur.callee in c.access.addrs && c.cur.gas >= 20000
    requires c.world.GetState(c.cur.callee, key) == e.committed.GetState(c.cur.callee, key) != 0
    ensures var r := WriteSlot(e, c, key, 0);
      && r.Ok? && r.state.refund == c.refund + ClearingRefund(e)
      && r.state.cur == c.cur.(gas := r.state.cur.gas) && r.state.cur.gas >= c.cur.gas - 10000
      && c.access.addrs <= r.state.access.addrs
      && Cleared(e, r.state.world, (c.cur.callee, key))
  {
  }

  lemma RefillTakes(e: Env, c: Ctx, key: U256, val: U256)
    requires e.From(Istanbul) && c.cur.callee in c.access.addrs && c.cur.gas >= 10000 && val != 0
    requires Cleared(e, c.world, (c.cur.callee, key)) && c.refund == ClearingRefund(e)
    ensures var r := WriteSlot(e, c, key, val);
      && r.Ok? && r.state.refund < ClearingRefund(e)
      && r.state.cur == c.cur.(gas := r.state.cur.gas) && r.state.cur.gas >= c.cur.gas - 5000
      && r.state.callStack == c.callStack && c.access.addrs <= r.state.access.addrs
      && r.state.status == c.status
  {
  }
}
