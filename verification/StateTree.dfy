// Trees of live states (MemStateAuto, src/state.rs) run beside flat stores
// (tools/src/dummy.rs): when they agree.
module StateTree {
  import opened Common
  import opened FlatWorld
  import opened MemState

  // ---------- the state the interpreter works on ----------

  // A shared revision, or one that is being written.
  datatype Inner = Const(rev: Rev) | Mutable(rev: Rev)

  function Fork(r: Rev): Rev { Rev(Internal(r), EMPTY_DELTA) }

  // The revision that writes go to: a shared one gets a fresh one on top.
  function Writable(i: Inner): Rev {
    match i
    case Const(r) => Fork(r)
    case Mutable(r) => r
  }

  function Squash(r: Rev, back: Option<nat>): Rev {
    if r.parent.External? then r else Consolidate(r, back)
  }

  class MemStateAuto {
    var inner: Inner

    constructor (world: World)
      ensures inner == Const(Rev(External(world), EMPTY_DELTA))
    {
      inner := Const(Rev(External(world), EMPTY_DELTA));
    }

    constructor FromShared(rev: Rev)
      ensures inner == Const(rev)
    {
      inner := Const(rev);
    }

    // The five getters: deletions first, then the walk.
    method Lookup(a: Addr, f: Field) returns (v: Value)
      ensures v == Get(inner.rev, a, f)
    {
      if a in inner.rev.delta.deleted {
        return Read(EMPTY_WORLD, a, f);
      }
      v := RevWalk(inner.rev, a, f);
    }

    method ConvertMut()
      modifies this
      ensures inner == Mutable(Writable(old(inner)))
    {
      if inner.Const? {
        inner := Mutable(Fork(inner.rev));
      }
    }

    method GetAccount(a: Addr) returns (acc: AccountDelta)
      requires inner.Mutable?
      modifies this
      ensures acc == old(inner.rev.delta).At(a)
      ensures inner == Mutable(Put(old(inner.rev), a, acc))
    {
      var r := inner.rev;
      if a !in r.delta.accounts {
        inner := Mutable(Put(r, a, NO_CHANGE));
      }
      acc := inner.rev.delta.accounts[a];
      assert r.delta.accounts[a := acc] == inner.rev.delta.accounts;
    }

    method SetState(a: Addr, key: U256, val: U256)
      modifies this
      ensures inner == Mutable(MemState.SetState(Writable(old(inner)), a, key, val))
    {
      ConvertMut();
      var acc := GetAccount(a);
      inner := Mutable(Put(inner.rev, a, acc.(state := acc.state[key := val])));
    }

    method SetBalance(a: Addr, balance: U256)
      modifies this
      ensures inner == Mutable(MemState.SetBalance(Writable(old(inner)), a, balance))
    {
      ConvertMut();
      var acc := GetAccount(a);
      inner := Mutable(Put(inner.rev, a, acc.(balance := Some(balance))));
    }

    method SetCode(a: Addr, code: Bytes)
      modifies this
      ensures inner == Mutable(MemState.SetCode(Writable(old(inner)), a, code))
    {
      ConvertMut();
      var acc := GetAccount(a);
      inner := Mutable(Put(inner.rev, a, acc.(code := Some(code))));
    }

    method SetNonce(a: Addr, nonce: U64)
      modifies this
      ensures inner == Mutable(MemState.SetNonce(Writable(old(inner)), a, nonce))
    {
      ConvertMut();
      var acc := GetAccount(a);
      inner := Mutable(Put(inner.rev, a, acc.(nonce := Some(nonce))));
    }

    method CreateAccount(a: Addr)
      modifies this
      ensures inner == Mutable(MemState.CreateAccount(Writable(old(inner)), a))
    {
      ConvertMut();
      var before := Lookup(a, Balance);
      inner := Mutable(Put(inner.rev, a, AccountDelta(map[], Some(0), Some(0), Some([]))));
      if before.word != 0 {
        var acc := inner.rev.delta.accounts[a];
        inner := Mutable(Put(inner.rev, a, acc.(balance := Some(before.word))));
      }
      var r := inner.rev;
      inner := Mutable(r.(delta := r.delta.(deleted := r.delta.deleted - {a})));
    }

    method DeleteAccount(a: Addr)
      modifies this
      ensures inner == Mutable(MemState.DeleteAccount(Writable(old(inner)), a))
    {
      ConvertMut();
      var r := inner.rev;
      inner := Mutable(r.(delta := r.delta.(deleted := r.delta.deleted + {a})));
      r := inner.rev;
      inner := Mutable(r.(delta := r.delta.(accounts := r.delta.accounts - {a})));
    }

    method AddLog(item: LogItem)
      modifies this
      ensures inner == Mutable(MemState.AddLog(Writable(old(inner)), item))
    {
      ConvertMut();
      var r := inner.rev;
      inner := Mutable(r.(delta := r.delta.(logs := r.delta.logs + [item])));
    }

    method ToShared() returns (rev: Rev)
      modifies this
      ensures inner == Const(old(inner.rev)) && rev == old(inner.rev)
    {
      inner := Const(inner.rev);
      rev := inner.rev;
    }

    // The copy shares the revision; this state is no longer written in place.
    method Snapshot() returns (copy: MemStateAuto)
      modifies this
      ensures fresh(copy) && copy.inner == inner == Const(old(inner.rev))
    {
      var rev := ToShared();
      copy := new MemStateAuto.FromShared(rev);
    }

    // A pointer swap.
    method Rollback(state: MemStateAuto)
      modifies this, state
      ensures inner == old(state.inner) && state.inner == old(inner)
    {
      inner, state.inner := state.inner, inner;
    }
  }

  // Squashing a shared state, skipped when it already sits on its source.
  method SquashShared(r: Rev, back: Option<nat>) returns (s: Rev)
    ensures s == Squash(r, back)
  {
    if r.parent.External? {
      return r;
    }
    s := ConsolidateRev(r, back);
  }

  // ---------- one write at a time ----------

  datatype Write =
    | StateOf(addr: Addr, key: U256, val: U256)
    | BalanceOf(addr: Addr, balance: U256)
    | CodeOf(addr: Addr, code: Bytes)
    | NonceOf(addr: Addr, nonce: U64)
    | Create(addr: Addr)
    | Delete(addr: Addr)

  function ApplyWrite(r: Rev, w: Write): Rev {
    match w
    case StateOf(a, key, val) => MemState.SetState(r, a, key, val)
    case BalanceOf(a, balance) => MemState.SetBalance(r, a, balance)
    case CodeOf(a, code) => MemState.SetCode(r, a, code)
    case NonceOf(a, nonce) => MemState.SetNonce(r, a, nonce)
    case Create(a) => MemState.CreateAccount(r, a)
    case Delete(a) => MemState.DeleteAccount(r, a)
  }

  function WriteFlat(v: World, w: Write): World {
    match w
    case StateOf(a, key, val) => v.SetState(a, key, val)
    case BalanceOf(a, balance) => v.SetBalance(a, balance)
    case CodeOf(a, code) => v.SetCode(a, code)
    case NonceOf(a, nonce) => v.SetNonce(a, nonce)
    case Create(a) => v.CreateAccount(a)
    case Delete(a) => v.DeleteAccounts({a})
  }

  // Every getter of the revision answers as the flat store does.
  ghost predicate Agrees(r: Rev, w: World) {
    forall a: Addr, f: Field :: Get(r, a, f) == Read(w, a, f)
  }

  // A plain write to a revision keeps agreement exactly when the revision does
  // not list the account as deleted: a setter does not bring it back.
  lemma SetterAgreesExactly(r: Rev, w: World, wr: Write)
    requires Agrees(r, w) && !wr.Create? && !wr.Delete?
    ensures Agrees(ApplyWrite(r, wr), WriteFlat(w, wr)) <==> wr.addr !in r.delta.deleted
  {
    hide WalkSource, Find, FindIn, Read;
    var r', w' := ApplyWrite(r, wr), WriteFlat(w, wr);
    if wr.addr in r.delta.deleted {
      ReadAfter(w, wr, wr.addr, Exists);
      ReadEmpty(wr.addr, Exists);
      assert Get(r', wr.addr, Exists) != Read(w', wr.addr, Exists);
    } else {
      forall a: Addr, f: Field ensures Get(r', a, f) == Read(w', a, f) {
        assert Get(r, a, f) == Read(w, a, f);
        SetterGet(r, wr, a, f);
        ReadAfter(w, wr, a, f);
      }
    }
  }

  // What a plain write says of the field it sets.
  function Said(wr: Write, a: Addr, f: Field): Option<Value> {
    if wr.addr != a then None
    else if f.Exists? then Some(Flag(true))
    else if wr.StateOf? && f == Slot(wr.key) then Some(Word(wr.val))
    else if wr.BalanceOf? && f.Balance? then Some(Word(wr.balance))
    else if wr.CodeOf? && f.Code? then Some(Bytecode(wr.code))
    else if wr.NonceOf? && f.Nonce? then Some(Word(wr.nonce))
    else None
  }

  lemma SetterGet(r: Rev, wr: Write, a: Addr, f: Field)
    requires !wr.Create? && !wr.Delete?
    requires wr.addr !in r.delta.deleted
    ensures Get(ApplyWrite(r, wr), a, f) == Said(wr, a, f).GetOr(Get(r, a, f))
  {
    hide WalkSource, Read, Said;
    var r' := ApplyWrite(r, wr);
    SetterFind(r, wr, a, f);
    assert r'.parent == r.parent && r'.delta.deleted == r.delta.deleted;
    if a in r.delta.deleted {
      assert Said(wr, a, f) == None by { NothingSaid(wr, a, f); }
    } else {
      GetFound(r, a, f);
      GetFound(r', a, f);
    }
  }

  lemma NothingSaid(wr: Write, a: Addr, f: Field)
    requires wr.addr != a
    ensures Said(wr, a, f) == None
  {
  }

  lemma SetterFind(r: Rev, wr: Write, a: Addr, f: Field)
    requires !wr.Create? && !wr.Delete?
    ensures Find(ApplyWrite(r, wr).delta, a, f) == OrElse(Said(wr, a, f), Find(r.delta, a, f))
  {
    if a != wr.addr {
      assert Find(ApplyWrite(r, wr).delta, a, f) == Find(r.delta, a, f);
    }
  }

  lemma ReadAfter(w: World, wr: Write, a: Addr, f: Field)
    requires !wr.Create? && !wr.Delete?
    ensures Read(WriteFlat(w, wr), a, f) == Said(wr, a, f).GetOr(Read(w, a, f))
  {
  }

  lemma ReadEmpty(a: Addr, f: Field)
    ensures Read(EMPTY_WORLD, a, f)
         == match f case Code => Bytecode([]) case Exists => Flag(false) case _ => Word(0)
  {
  }

  lemma GetForked(s: Source, a: Addr, f: Field)
    ensures Get(Rev(s, EMPTY_DELTA), a, f) == WalkSource(s, a, f)
  {
    hide Read, FindIn;
    FindEmpty(a, f);
    GetFound(Rev(s, EMPTY_DELTA), a, f);
  }

  lemma FindEmpty(a: Addr, f: Field)
    ensures a !in EMPTY_DELTA.deleted && Find(EMPTY_DELTA, a, f) == None
  {
  }

  // Creating an account keeps agreement exactly when the revisions below the
  // written one read no storage for it: its old storage is not cleared there.
  lemma CreateAgreesExactly(r: Rev, w: World, a: Addr)
    requires Agrees(r, w)
    ensures Agrees(MemState.CreateAccount(r, a), w.CreateAccount(a))
       <==> forall key: U256 :: WalkSource(r.parent, a, Slot(key)) == Word(0)
  {
    var r', w' := MemState.CreateAccount(r, a), w.CreateAccount(a);
    forall key: U256
      ensures Get(r', a, Slot(key)) == WalkSource(r.parent, a, Slot(key))
      ensures Read(w', a, Slot(key)) == Word(0)
    {
    }
    assert Get(r, a, Balance) == Read(w, a, Balance);
    if forall key: U256 :: WalkSource(r.parent, a, Slot(key)) == Word(0) {
      forall b: Addr, f: Field ensures Get(r', b, f) == Read(w', b, f) {
        assert Get(r, b, f) == Read(w, b, f);
      }
    } else {
      var key: U256 :| WalkSource(r.parent, a, Slot(key)) != Word(0);
      assert Get(r', a, Slot(key)) != Read(w', a, Slot(key));
    }
  }

  // Deleting an account always keeps agreement...
  lemma DeleteAgrees(r: Rev, w: World, a: Addr)
    requires Agrees(r, w)
    ensures Agrees(MemState.DeleteAccount(r, a), w.DeleteAccounts({a}))
  {
    var r', w' := MemState.DeleteAccount(r, a), w.DeleteAccounts({a});
    forall b: Addr, f: Field ensures Get(r', b, f) == Read(w', b, f) {
      assert Get(r, b, f) == Read(w, b, f);
      if a != b {
        assert Find(r'.delta, b, f) == Find(r.delta, b, f);
      }
    }
  }

  // ...until a revision is put on top: that forgets the deletions, so it keeps
  // agreement exactly when no deleted account exists below.
  lemma ForkAgreesExactly(r: Rev, w: World)
    requires Agrees(r, w)
    ensures Agrees(Fork(r), w) <==> forall a: Addr | a in r.delta.deleted :: Walk(r, a, Exists) == Flag(false)
  {
    hide Get, Walk, Read;
    forall a: Addr, f: Field ensures Get(Fork(r), a, f) == Walk(r, a, f) {
      GetForked(Internal(r), a, f);
    }
    if Agrees(Fork(r), w) {
      forall a: Addr | a in r.delta.deleted ensures Walk(r, a, Exists) == Flag(false) {
        assert Get(Fork(r), a, Exists) == Read(w, a, Exists) == Get(r, a, Exists);
        GetDeleted(r, a, Exists);
        ReadEmpty(a, Exists);
      }
    } else {
      var a: Addr, f: Field :| Get(Fork(r), a, f) != Read(w, a, f);
      assert Get(r, a, f) == Read(w, a, f);
      ForgottenReads(r, a, f);
    }
  }

  // Where an account reads otherwise once deletions are forgotten, it exists.
  lemma ForgottenReads(r: Rev, a: Addr, f: Field)
    ensures a !in r.delta.deleted ==> Get(r, a, f) == Walk(r, a, f)
    ensures Walk(r, a, Exists) == Flag(false) ==> Walk(r, a, f) == Read(EMPTY_WORLD, a, f)
    ensures a in r.delta.deleted && Walk(r, a, Exists) == Flag(false) ==> Get(r, a, f) == Walk(r, a, f)
  {
    if Walk(r, a, Exists) == Flag(false) {
      AbsentReads(Internal(r), a, f);
    }
  }

  lemma {:induction false} AbsentReads(s: Source, a: Addr, f: Field)
    requires WalkSource(s, a, Exists) == Flag(false)
    ensures WalkSource(s, a, f) == Read(EMPTY_WORLD, a, f)
  {
    match s
    case External(_) =>
    case Internal(p) => AbsentReads(p.parent, a, f);
  }

  // A deletion that no longer holds: for any account the source knows, deleting
  // it and then putting a revision on top brings it back.
  lemma DeletionForgotten(w: World, a: Addr)
    requires w.Exist(a)
    ensures var r := MemState.DeleteAccount(Rev(External(w), EMPTY_DELTA), a);
      Get(r, a, Exists) == Flag(false) && Get(Fork(r), a, Exists) == Flag(true)
  {
    var r := MemState.DeleteAccount(Rev(External(w), EMPTY_DELTA), a);
    GetForked(Internal(r), a, Exists);
    GetForked(External(w), a, Exists);
    assert Find(r.delta, a, Exists) == None;
  }

  // ---------- whole runs ----------

  // What a user of a tree of states does to those it holds, by position. A shared
  // state stands as a Const; a state given up by a rollback stays listed.
  datatype Op =
    | WriteTo(i: nat, write: Write)
    | TakeSnapshot(i: nat)
    | RollBack(i: nat, to: nat)
    | MakeShared(i: nat)
    | SquashBack(i: nat, back: Option<nat>)

  function StepTree(pool: seq<Inner>, op: Op): seq<Inner> {
    if op.i >= |pool| then pool
    else
      match op
      case WriteTo(i, w) => pool[i := Mutable(ApplyWrite(Writable(pool[i]), w))]
      case TakeSnapshot(i) => pool[i := Const(pool[i].rev)] + [Const(pool[i].rev)]
      case RollBack(i, to) => if to < |pool| then pool[i := pool[to]][to := pool[i]] else pool
      case MakeShared(i) => pool[i := Const(pool[i].rev)] + [Const(pool[i].rev)]
      case SquashBack(i, back) => if pool[i].Const? then pool[i := Const(Squash(pool[i].rev, back))] else pool
  }

  // The same on flat stores, which copy themselves for a snapshot.
  function StepFlat(stores: seq<World>, op: Op): seq<World> {
    if op.i >= |stores| then stores
    else
      match op
      case WriteTo(i, w) => stores[i := WriteFlat(stores[i], w)]
      case TakeSnapshot(i) => stores + [stores[i]]
      case RollBack(i, to) => if to < |stores| then stores[i := stores[to]][to := stores[i]] else stores
      case MakeShared(i) => stores + [stores[i]]
      case SquashBack(i, back) => stores
  }

  // Starting from one state over a source, and from a copy of that source.
  function RunTree(source: World, ops: seq<Op>): seq<Inner> {
    if ops == [] then [Const(Rev(External(source), EMPTY_DELTA))]
    else StepTree(RunTree(source, ops[..|ops| - 1]), ops[|ops| - 1])
  }

  function RunFlat(source: World, ops: seq<Op>): seq<World> {
    if ops == [] then [source]
    else StepFlat(RunFlat(source, ops[..|ops| - 1]), ops[|ops| - 1])
  }

  ghost predicate AllAgree(pool: seq<Inner>, stores: seq<World>) {
    && |pool| == |stores|
    && forall i | 0 <= i < |pool| :: Agrees(pool[i].rev, stores[i])
  }

  // A write to a shared state forgets which accounts it deleted.
  ghost predicate Forgets(i: Inner, a: Addr) { i.Const? && a in i.rev.delta.deleted }

  // A write keeps agreement when the deletions it makes the state forget are of
  // accounts that do not exist below, its own account apart.
  ghost predicate HarmlessWrite(i: Inner, wr: Write) {
    && (forall b: Addr :: b != wr.addr && Forgets(i, b) ==> Walk(i.rev, b, Exists) == Flag(false))
    && HarmlessToOwn(i, wr)
  }

  // Of its own account, what the write does not set must read as absent below
  // when its deletion is forgotten. A setter must not find the account deleted in
  // the revision it writes, nor a creation storage under that revision.
  ghost predicate HarmlessToOwn(i: Inner, wr: Write) {
    var a := wr.addr;
    match wr
    case Delete(_) => true
    case Create(_) =>
      && (Forgets(i, a) ==> Walk(i.rev, a, Balance) == Word(0))
      && BlankBelow(Writable(i).parent, a)
    case _ =>
      && a !in Writable(i).delta.deleted
      && (Forgets(i, a) ==> forall f: Field :: Said(wr, a, f) == None ==> Walk(i.rev, a, f) == Read(EMPTY_WORLD, a, f))
  }

  ghost predicate BlankBelow(s: Source, a: Addr) {
    forall key: U256 :: WalkSource(s, a, Slot(key)) == Word(0)
  }

  // Consolidating a state that sits on another revision keeps agreement when no
  // getter depends on a deletion that is merged away.
  ghost predicate HarmlessSquash(r: Rev, back: Option<nat>) {
    r.parent.External? || forall a: Addr, f: Field :: Outlasts(r, back, a, f)
  }

  ghost predicate Harmless(pool: seq<Inner>, op: Op) {
    op.i < |pool| ==>
      && (op.WriteTo? ==> HarmlessWrite(pool[op.i], op.write))
      && (op.SquashBack? && pool[op.i].Const? ==> HarmlessSquash(pool[op.i].rev, op.back))
  }

  // Any run over any source: every live state answers every getter as its flat
  // store does, all along, exactly when every write and consolidation in it is
  // harmless.
  lemma TreeAgreesExactly(source: World, ops: seq<Op>)
    ensures (forall t: nat | t <= |ops| :: AllAgree(RunTree(source, ops[..t]), RunFlat(source, ops[..t])))
       <==> (forall t: nat | t < |ops| :: Harmless(RunTree(source, ops[..t]), ops[t]))
  {
    hide AllAgree, Harmless, RunTree, RunFlat, StepTree, StepFlat;
    if forall t: nat | t < |ops| :: Harmless(RunTree(source, ops[..t]), ops[t]) {
      forall t: nat | t <= |ops| ensures AllAgree(RunTree(source, ops[..t]), RunFlat(source, ops[..t])) {
        AgreesSoFar(source, ops, t);
      }
    }
    if forall t: nat | t <= |ops| :: AllAgree(RunTree(source, ops[..t]), RunFlat(source, ops[..t])) {
      forall t: nat | t < |ops| ensures Harmless(RunTree(source, ops[..t]), ops[t]) {
        RunOneMore(source, ops, t);
        assert AllAgree(RunTree(source, ops[..t + 1]), RunFlat(source, ops[..t + 1]));
        StepAgreesExactly(RunTree(source, ops[..t]), RunFlat(source, ops[..t]), ops[t]);
      }
    }
  }

  lemma RunOneMore(source: World, ops: seq<Op>, t: nat)
    requires t < |ops|
    ensures RunTree(source, ops[..t + 1]) == StepTree(RunTree(source, ops[..t]), ops[t])
    ensures RunFlat(source, ops[..t + 1]) == StepFlat(RunFlat(source, ops[..t]), ops[t])
  {
    hide StepTree, StepFlat;
    assert ops[..t + 1][..t] == ops[..t];
  }

  lemma RunOfNone(source: World)
    ensures AllAgree(RunTree(source, []), RunFlat(source, []))
    ensures RunTree(source, []) == [Const(Rev(External(source), EMPTY_DELTA))] && RunFlat(source, []) == [source]
  {
    forall a: Addr, f: Field
      ensures Get(Rev(External(source), EMPTY_DELTA), a, f) == Read(source, a, f)
    {
      GetForked(External(source), a, f);
    }
  }

  lemma {:induction false} AgreesSoFar(source: World, ops: seq<Op>, t: nat)
    requires t <= |ops|
    requires forall k: nat | k < t :: Harmless(RunTree(source, ops[..k]), ops[k])
    ensures AllAgree(RunTree(source, ops[..t]), RunFlat(source, ops[..t]))
    decreases t
  {
    hide AllAgree, Harmless, RunTree, RunFlat, StepTree, StepFlat;
    if t == 0 {
      RunOfNone(source);
      assert ops[..0] == [];
    } else {
      AgreesSoFar(source, ops, t - 1);
      RunOneMore(source, ops, t - 1);
      StepAgreesExactly(RunTree(source, ops[..t - 1]), RunFlat(source, ops[..t - 1]), ops[t - 1]);
    }
  }

  // ---------- one step of a run ----------

  lemma StepAgreesExactly(pool: seq<Inner>, stores: seq<World>, op: Op)
    requires AllAgree(pool, stores)
    ensures AllAgree(StepTree(pool, op), StepFlat(stores, op)) <==> Harmless(pool, op)
  {
    hide Agrees, ApplyWrite, WriteFlat, Writable, Squash, HarmlessWrite, HarmlessSquash;
    if op.i < |pool| {
      var here, flat := pool[op.i], stores[op.i];
      assert Agrees(here.rev, flat);
      var pool', stores' := StepTree(pool, op), StepFlat(stores, op);
      assert AllAgree(pool', stores') ==> Agrees(pool'[op.i].rev, stores'[op.i]);
      if op.WriteTo? {
        WriteAgreesExactly(here, flat, op.write);
      } else if op.SquashBack? && here.Const? {
        SquashAgreesExactly(here.rev, op.back, flat);
      }
    }
  }

  // Consolidation of an agreeing state: exactly when it outlasts it everywhere.
  lemma SquashAgreesExactly(r: Rev, back: Option<nat>, w: World)
    requires Agrees(r, w)
    ensures Agrees(Squash(r, back), w) <==> HarmlessSquash(r, back)
  {
    hide Get, Read, Consolidate, Outlasts;
    if r.parent.Internal? {
      forall a: Addr, f: Field
        ensures Get(Consolidate(r, back), a, f) == Read(w, a, f) <==> Outlasts(r, back, a, f)
      {
        ConsolidationExactly(r, back, a, f);
        assert Get(r, a, f) == Read(w, a, f);
      }
      if Agrees(Squash(r, back), w) {
        forall a: Addr, f: Field ensures Outlasts(r, back, a, f) {
          assert Get(Squash(r, back), a, f) == Read(w, a, f);
        }
      }
    }
  }

  // Every getter for one address.
  ghost predicate AgreesAt(r: Rev, w: World, a: Addr) {
    forall f: Field :: Get(r, a, f) == Read(w, a, f)
  }

  lemma AgreesEverywhere(r: Rev, w: World)
    ensures Agrees(r, w) <==> forall a: Addr :: AgreesAt(r, w, a)
  {
    hide Get, Read;
    if forall a: Addr :: AgreesAt(r, w, a) {
      forall a: Addr, f: Field ensures Get(r, a, f) == Read(w, a, f) {
        assert AgreesAt(r, w, a);
      }
    }
  }

  // A write to an agreeing state: exactly when it is harmless.
  lemma WriteAgreesExactly(i: Inner, w: World, wr: Write)
    requires Agrees(i.rev, w)
    ensures Agrees(ApplyWrite(Writable(i), wr), WriteFlat(w, wr)) <==> HarmlessWrite(i, wr)
  {
    hide Agrees, AgreesAt, Walk, ApplyWrite, WriteFlat, Writable, HarmlessToOwn, Forgets;
    var r', w' := ApplyWrite(Writable(i), wr), WriteFlat(w, wr);
    AgreesEverywhere(r', w');
    OwnAgreesExactly(i, w, wr);
    forall b: Addr | b != wr.addr
      ensures AgreesAt(r', w', b) <==> (Forgets(i, b) ==> Walk(i.rev, b, Exists) == Flag(false))
    {
      OthersAgreeExactly(i, w, wr, b);
    }
  }

  // What the revision that is written answers before the write.
  lemma WritableGet(i: Inner, a: Addr, f: Field)
    ensures Get(Writable(i), a, f) == if Forgets(i, a) then Walk(i.rev, a, f) else Get(i.rev, a, f)
    ensures Forgets(i, a) ==> Get(i.rev, a, f) == Read(EMPTY_WORLD, a, f) && a !in Writable(i).delta.deleted
  {
    hide Walk, Read;
    if i.Const? {
      GetForked(Internal(i.rev), a, f);
      ForgottenReads(i.rev, a, f);
    }
  }

  lemma OthersAgreeExactly(i: Inner, w: World, wr: Write, b: Addr)
    requires Agrees(i.rev, w) && b != wr.addr
    ensures AgreesAt(ApplyWrite(Writable(i), wr), WriteFlat(w, wr), b)
       <==> (Forgets(i, b) ==> Walk(i.rev, b, Exists) == Flag(false))
  {
    hide Get, Walk, Read, ApplyWrite, WriteFlat, Writable;
    var r', w' := ApplyWrite(Writable(i), wr), WriteFlat(w, wr);
    forall f: Field
      ensures Get(r', b, f) == if Forgets(i, b) then Walk(i.rev, b, f) else Get(i.rev, b, f)
      ensures Read(w', b, f) == Get(i.rev, b, f)
      ensures Forgets(i, b) ==> Get(i.rev, b, f) == Read(EMPTY_WORLD, b, f)
    {
      WriteElsewhere(Writable(i), w, wr, b, f);
      WritableGet(i, b, f);
    }
    ReadEmpty(b, Exists);
    if Forgets(i, b) && Walk(i.rev, b, Exists) == Flag(false) {
      forall f: Field ensures Get(r', b, f) == Read(w', b, f) {
        ForgottenReads(i.rev, b, f);
      }
    }
    if Forgets(i, b) && Walk(i.rev, b, Exists) != Flag(false) {
      assert Get(r', b, Exists) != Read(w', b, Exists);
    }
  }

  // A write leaves other accounts as they are.
  lemma WriteElsewhere(r: Rev, w: World, wr: Write, b: Addr, f: Field)
    requires b != wr.addr
    ensures Get(ApplyWrite(r, wr), b, f) == Get(r, b, f)
    ensures Read(WriteFlat(w, wr), b, f) == Read(w, b, f)
  {
    hide WalkSource, FindIn;
    var r' := ApplyWrite(r, wr);
    assert r'.parent == r.parent && Find(r'.delta, b, f) == Find(r.delta, b, f);
    assert b in r'.delta.deleted <==> b in r.delta.deleted;
    assert WriteFlat(w, wr).At(b) == w.At(b);
  }

  lemma OwnAgreesExactly(i: Inner, w: World, wr: Write)
    requires Agrees(i.rev, w)
    ensures AgreesAt(ApplyWrite(Writable(i), wr), WriteFlat(w, wr), wr.addr)
       <==> HarmlessToOwn(i, wr)
  {
    hide Agrees;
    match wr {
      case Delete(_) => OwnDelete(i, w, wr);
      case Create(_) => OwnCreate(i, w, wr);
      case _ => OwnSetter(i, w, wr);
    }
  }

  lemma OwnDelete(i: Inner, w: World, wr: Write)
    requires wr.Delete?
    ensures AgreesAt(ApplyWrite(Writable(i), wr), WriteFlat(w, wr), wr.addr)
  {
    hide Walk;
  }

  lemma OwnCreate(i: Inner, w: World, wr: Write)
    requires Agrees(i.rev, w) && wr.Create?
    ensures AgreesAt(ApplyWrite(Writable(i), wr), WriteFlat(w, wr), wr.addr)
       <==> HarmlessToOwn(i, wr)
  {
    hide Get, Walk, WalkSource, Read, ApplyWrite, WriteFlat, Writable;
    var a := wr.addr;
    var r', w' := ApplyWrite(Writable(i), wr), WriteFlat(w, wr);
    assert Get(i.rev, a, Balance) == Read(w, a, Balance);
    WritableGet(i, a, Balance);
    ReadEmpty(a, Balance);
    forall f: Field
      ensures Get(r', a, f) == Read(w', a, f)
         <==> match f
              case Balance => Get(Writable(i), a, Balance) == Read(w, a, Balance)
              case Slot(key) => WalkSource(Writable(i).parent, a, f) == Word(0)
              case _ => true
    {
      CreatedReads(Writable(i), w, a, f);
      CreateIs(Writable(i), w, wr);
    }
    if forall f: Field :: Get(r', a, f) == Read(w', a, f) {
      assert Get(r', a, Balance) == Read(w', a, Balance);
      forall key: U256 ensures WalkSource(Writable(i).parent, a, Slot(key)) == Word(0) {
        assert Get(r', a, Slot(key)) == Read(w', a, Slot(key));
      }
    }
  }

  lemma CreateIs(r: Rev, w: World, wr: Write)
    requires wr.Create?
    ensures ApplyWrite(r, wr) == MemState.CreateAccount(r, wr.addr) && WriteFlat(w, wr) == w.CreateAccount(wr.addr)
  {
  }

  // A created account on both sides: balances are kept, the slots below show.
  lemma CreatedReads(r: Rev, w: World, a: Addr, f: Field)
    ensures Get(MemState.CreateAccount(r, a), a, f) == Read(w.CreateAccount(a), a, f)
       <==> match f
            case Balance => Get(r, a, Balance) == Read(w, a, Balance)
            case Slot(key) => WalkSource(r.parent, a, f) == Word(0)
            case _ => true
  {
  }

  lemma OwnSetter(i: Inner, w: World, wr: Write)
    requires Agrees(i.rev, w) && !wr.Create? && !wr.Delete?
    ensures AgreesAt(ApplyWrite(Writable(i), wr), WriteFlat(w, wr), wr.addr)
       <==> HarmlessToOwn(i, wr)
  {
    hide Get, Walk, WalkSource, Read, ApplyWrite, WriteFlat, Writable, Said;
    var a := wr.addr;
    var r, r', w' := Writable(i), ApplyWrite(Writable(i), wr), WriteFlat(w, wr);
    SaidExists(wr);
    if a in r.delta.deleted {
      StaysDeleted(r, wr, Exists);
      ReadAfter(w, wr, a, Exists);
      ReadEmpty(a, Exists);
      assert Get(r', a, Exists) != Read(w', a, Exists);
    } else {
      forall f: Field
        ensures Get(r', a, f) == Read(w', a, f)
           <==> Said(wr, a, f).Some? || (Forgets(i, a) ==> Walk(i.rev, a, f) == Read(EMPTY_WORLD, a, f))
      {
        SetterGet(r, wr, a, f);
        ReadAfter(w, wr, a, f);
        WritableGet(i, a, f);
        assert Get(i.rev, a, f) == Read(w, a, f);
      }
      if forall f: Field :: Get(r', a, f) == Read(w', a, f) {
        forall f: Field | Said(wr, a, f) == None && Forgets(i, a)
          ensures Walk(i.rev, a, f) == Read(EMPTY_WORLD, a, f)
        {
          assert Get(r', a, f) == Read(w', a, f);
        }
      }
    }
  }

  lemma SaidExists(wr: Write)
    ensures Said(wr, wr.addr, Exists) == Some(Flag(true))
  {
  }

  lemma StaysDeleted(r: Rev, wr: Write, f: Field)
    requires !wr.Create? && !wr.Delete? && wr.addr in r.delta.deleted
    ensures Get(ApplyWrite(r, wr), wr.addr, f) == Read(EMPTY_WORLD, wr.addr, f)
  {
  }

  // ---------- runs that delete nothing ----------

  predicate Deletes(op: Op) { op.WriteTo? && op.write.Delete? }

  // Nothing is deleted anywhere in the chain.
  ghost predicate Kept(r: Rev) {
    r.delta.deleted == {} && (r.parent.Internal? ==> Kept(r.parent.rev))
  }

  ghost predicate AllKept(pool: seq<Inner>) {
    forall i | 0 <= i < |pool| :: Kept(pool[i].rev)
  }

  // A creation finds no storage below the revision it writes to.
  ghost predicate CreatesOnBlank(pool: seq<Inner>, op: Op) {
    op.WriteTo? && op.i < |pool| && op.write.Create? ==>
      BlankBelow(Writable(pool[op.i]).parent, op.write.addr)
  }

  // Where nothing is deleted, all that counts is what creations find.
  lemma KeptHarmless(pool: seq<Inner>, op: Op)
    requires AllKept(pool) && !Deletes(op)
    ensures Harmless(pool, op) <==> CreatesOnBlank(pool, op)
  {
    hide Walk, WalkSource, Read, Said, Merged, BlankBelow;
    if op.i < |pool| {
      var here := pool[op.i];
      assert Kept(here.rev);
      if op.SquashBack? {
        MergedKeeps(here.rev, op.back);
        forall a: Addr, f: Field ensures Outlasts(here.rev, op.back, a, f) {
          NoneCut(Merged(here.rev, op.back), a);
        }
      }
    }
  }

  lemma NoneCut(ds: seq<Delta>, a: Addr)
    requires forall d <- ds :: d.deleted == {}
    ensures Cut(ds, a) == 0
  {
    assert forall j | 0 <= j < |ds| :: ds[j].deleted == {};
  }

  lemma {:induction false} RunKeeps(source: World, ops: seq<Op>, t: nat)
    requires t <= |ops| && forall op <- ops :: !Deletes(op)
    ensures AllKept(RunTree(source, ops[..t]))
    decreases t
  {
    hide AllKept, RunTree, RunFlat, StepTree, StepFlat, AllAgree;
    if t == 0 {
      RunOfNone(source);
      StartKept(source);
      assert ops[..0] == [];
    } else {
      RunKeeps(source, ops, t - 1);
      RunOneMore(source, ops, t - 1);
      StepKeepsAll(RunTree(source, ops[..t - 1]), ops[t - 1]);
    }
  }

  lemma StartKept(source: World)
    ensures AllKept([Const(Rev(External(source), EMPTY_DELTA))])
  {
  }

  lemma StepKeepsAll(pool: seq<Inner>, op: Op)
    requires AllKept(pool) && !Deletes(op)
    ensures AllKept(StepTree(pool, op))
  {
    hide Kept, ApplyWrite, Writable, Squash;
    if op.i < |pool| {
      var here := pool[op.i];
      assert Kept(here.rev);
      if op.WriteTo? {
        WriteKeeps(here, op.write);
      } else if op.SquashBack? {
        SquashKeeps(here.rev, op.back);
      }
    }
  }

  lemma WriteKeeps(i: Inner, w: Write)
    requires Kept(i.rev) && !w.Delete?
    ensures Kept(Writable(i)) && Kept(ApplyWrite(Writable(i), w))
  {
  }

  lemma SquashKeeps(r: Rev, back: Option<nat>)
    requires Kept(r)
    ensures Kept(Squash(r, back))
  {
    hide ApplyAll, Merged, Oldest;
    MergedKeeps(r, back);
    ApplyAllKeeps(Merged(r, back));
  }

  lemma {:induction false} MergedKeeps(r: Rev, back: Option<nat>)
    requires Kept(r)
    ensures forall d <- Merged(r, back) :: d.deleted == {}
    ensures Oldest(r, back).parent.Internal? ==> Kept(Oldest(r, back).parent.rev)
  {
    if r.parent.Internal? && (back.None? || back.value > 0) {
      MergedKeeps(r.parent.rev, if back.Some? then Some(back.value - 1) else None);
    }
  }

  lemma {:induction false} ApplyAllKeeps(ds: seq<Delta>)
    requires forall d <- ds :: d.deleted == {}
    ensures ApplyAll(ds).deleted == {}
  {
    hide OverlayAll;
    if ds != [] {
      ApplyAllKeeps(ds[..|ds| - 1]);
    }
  }

  // ---------- creating accounts that hold no storage at the time ----------

  // When a store holds no slot of an account, no delta of the chain does.
  ghost predicate Slotless(r: Rev, a: Addr) {
    r.delta.At(a).state == map[] && SlotlessSource(r.parent, a)
  }

  ghost predicate SlotlessSource(s: Source, a: Addr) {
    match s
    case Internal(p) => Slotless(p, a)
    case External(w) => w.At(a).storage == map[]
  }

  ghost predicate Traces(r: Rev, w: World) {
    forall a: Addr | w.At(a).storage == map[] :: Slotless(r, a)
  }

  ghost predicate AllTrace(pool: seq<Inner>, stores: seq<World>) {
    && |pool| == |stores|
    && forall i | 0 <= i < |pool| :: Traces(pool[i].rev, stores[i])
  }

  // A creation happens when its account holds no slot in the flat store.
  predicate CreatesSlotless(stores: seq<World>, op: Op) {
    op.WriteTo? && op.i < |stores| && op.write.Create? ==>
      stores[op.i].At(op.write.addr).storage == map[]
  }

  // Any run without deletions that creates accounts only while they hold no
  // slot, whatever is written to them before or after: every live state answers
  // every getter as the flat store run beside it.
  lemma TreeAgrees(source: World, ops: seq<Op>)
    requires forall op <- ops :: !Deletes(op)
    requires forall t: nat | t < |ops| :: CreatesSlotless(RunFlat(source, ops[..t]), ops[t])
    ensures AllAgree(RunTree(source, ops), RunFlat(source, ops))
  {
    hide AllAgree, CreatesOnBlank, Harmless, RunTree, RunFlat, CreatesSlotless, AllTrace, AllKept;
    forall t: nat | t < |ops| ensures Harmless(RunTree(source, ops[..t]), ops[t]) {
      RunTraces(source, ops, t);
      SlotlessBelow(RunTree(source, ops[..t]), RunFlat(source, ops[..t]), ops[t]);
      RunKeeps(source, ops, t);
      KeptHarmless(RunTree(source, ops[..t]), ops[t]);
    }
    AgreesSoFar(source, ops, |ops|);
    assert ops[..|ops|] == ops;
  }

  lemma {:induction false} RunTraces(source: World, ops: seq<Op>, t: nat)
    requires t <= |ops| && forall op <- ops :: !Deletes(op)
    requires forall k: nat | k < |ops| :: CreatesSlotless(RunFlat(source, ops[..k]), ops[k])
    ensures AllTrace(RunTree(source, ops[..t]), RunFlat(source, ops[..t]))
    decreases t
  {
    hide RunTree, RunFlat, StepTree, StepFlat, CreatesSlotless;
    hide AllTrace, AllAgree;
    if t == 0 {
      RunOfNone(source);
      StartTraces(source);
      assert ops[..0] == [];
    } else {
      RunTraces(source, ops, t - 1);
      RunOneMore(source, ops, t - 1);
      StepTraces(RunTree(source, ops[..t - 1]), RunFlat(source, ops[..t - 1]), ops[t - 1]);
    }
  }

  lemma StartTraces(source: World)
    ensures AllTrace([Const(Rev(External(source), EMPTY_DELTA))], [source])
  {
    var r := Rev(External(source), EMPTY_DELTA);
    forall a: Addr | source.At(a).storage == map[] ensures Slotless(r, a) {
      assert r.delta.At(a).state == map[] && SlotlessSource(r.parent, a);
    }
  }

  lemma StepTraces(pool: seq<Inner>, stores: seq<World>, op: Op)
    requires AllTrace(pool, stores) && !Deletes(op) && CreatesSlotless(stores, op)
    ensures AllTrace(StepTree(pool, op), StepFlat(stores, op))
  {
    hide Traces, ApplyWrite, WriteFlat, Writable, Squash;
    if op.i < |pool| {
      var here, flat := pool[op.i], stores[op.i];
      assert Traces(here.rev, flat);
      if op.WriteTo? {
        WriteTraces(here, flat, op.write);
      } else if op.SquashBack? {
        SquashTraces(here.rev, op.back, flat);
      }
    }
  }

  lemma WriteTraces(i: Inner, w: World, wr: Write)
    requires Traces(i.rev, w) && !wr.Delete?
    requires wr.Create? ==> w.At(wr.addr).storage == map[]
    ensures Traces(ApplyWrite(Writable(i), wr), WriteFlat(w, wr))
  {
    forall a: Addr | WriteFlat(w, wr).At(a).storage == map[] ensures Slotless(ApplyWrite(Writable(i), wr), a) {
      assert w.At(a).storage == map[];
      assert Slotless(i.rev, a);
    }
  }

  lemma SquashTraces(r: Rev, back: Option<nat>, w: World)
    requires Traces(r, w)
    ensures Traces(Squash(r, back), w)
  {
    hide ApplyAll, Merged, Oldest;
    forall a: Addr | w.At(a).storage == map[] ensures Slotless(Squash(r, back), a) {
      MergedSlotless(r, back, a);
      ApplyAllSlotless(Merged(r, back), a);
    }
  }

  lemma {:induction false} MergedSlotless(r: Rev, back: Option<nat>, a: Addr)
    requires Slotless(r, a)
    ensures forall d <- Merged(r, back) :: d.At(a).state == map[]
    ensures SlotlessSource(Oldest(r, back).parent, a)
  {
    if r.parent.Internal? && (back.None? || back.value > 0) {
      MergedSlotless(r.parent.rev, if back.Some? then Some(back.value - 1) else None, a);
    }
  }

  lemma {:induction false} ApplyAllSlotless(ds: seq<Delta>, a: Addr)
    requires forall d <- ds :: d.At(a).state == map[]
    ensures ApplyAll(ds).At(a).state == map[]
  {
    if ds != [] {
      hide Apply;
      var prefix, last := ds[..|ds| - 1], ds[|ds| - 1];
      ApplyAllSlotless(prefix, a);
      ApplyAt(ApplyAll(prefix), last, a);
    }
  }

  lemma SlotlessBelow(pool: seq<Inner>, stores: seq<World>, op: Op)
    requires AllTrace(pool, stores) && CreatesSlotless(stores, op)
    ensures CreatesOnBlank(pool, op)
  {
    hide WalkSource;
    if op.WriteTo? && op.i < |pool| && op.write.Create? {
      var a := op.write.addr;
      assert Traces(pool[op.i].rev, stores[op.i]) && Slotless(pool[op.i].rev, a);
      forall key: U256 ensures WalkSource(Writable(pool[op.i]).parent, a, Slot(key)) == Word(0) {
        NoStorageBelow(Writable(pool[op.i]).parent, a, key);
      }
    }
  }

  lemma {:induction false} NoStorageBelow(s: Source, a: Addr, key: U256)
    requires SlotlessSource(s, a)
    ensures WalkSource(s, a, Slot(key)) == Word(0)
  {
    match s
    case External(_) =>
    case Internal(p) =>
      NoStorageBelow(p.parent, a, key);
      assert Find(p.delta, a, Slot(key)) == None;
  }
}
