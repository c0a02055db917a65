// The flat world state (tools/src/dummy.rs): one map from addresses to
// accounts. The interpreter also appends logs to it.
module FlatWorld {
  import opened Common

  datatype Account = Account(storage: map<U256, U256>, balance: U256, nonce: U64, code: Bytes)

  const BLANK: Account := Account(map[], 0, 0, [])

  datatype LogItem = LogItem(contract: Addr, topics: seq<U256>, data: Bytes, blockNumber: U256)

  datatype World = World(accounts: map<Addr, Account>, logs: seq<LogItem>) {
    // The account at a, or the one a first write would start from.
    function At(a: Addr): Account {
      if a in accounts then accounts[a] else BLANK
    }

    function GetState(a: Addr, key: U256): U256 {
      var s := At(a).storage;
      if key in s then s[key] else 0
    }

    function GetBalance(a: Addr): U256 { At(a).balance }

    function GetCode(a: Addr): Bytes { At(a).code }

    function GetNonce(a: Addr): U64 { At(a).nonce }

    predicate Exist(a: Addr) { a in accounts }

    function Put(a: Addr, acc: Account): World { this.(accounts := accounts[a := acc]) }

    function SetState(a: Addr, key: U256, val: U256): World {
      Put(a, At(a).(storage := At(a).storage[key := val]))
    }

    function SetBalance(a: Addr, balance: U256): World { Put(a, At(a).(balance := balance)) }

    function SetCode(a: Addr, code: Bytes): World { Put(a, At(a).(code := code)) }

    function SetNonce(a: Addr, nonce: U64): World { Put(a, At(a).(nonce := nonce)) }

    // A fresh account that keeps only the old balance.
    function CreateAccount(a: Addr): World { Put(a, BLANK.(balance := GetBalance(a))) }

    function DeleteAccounts(gone: set<Addr>): World { this.(accounts := accounts - gone) }

    function AddLog(item: LogItem): World { this.(logs := logs + [item]) }

    // Adds val to the balance of a, or None when it would overflow.
    function AddBalance(a: Addr, val: U256): Option<World> {
      if GetBalance(a) + val >= TWO_256 then None else Some(SetBalance(a, GetBalance(a) + val))
    }

    function SubBalance(a: Addr, val: U256): Option<World> {
      if GetBalance(a) < val then None else Some(SetBalance(a, GetBalance(a) - val))
    }

    function Transfer(from: Addr, to: Addr, val: U256): Option<World> {
      match SubBalance(from, val)
      case None => None
      case Some(w) => w.AddBalance(to, val)
    }
  }

  const EMPTY_WORLD: World := World(map[], [])

  // ---------- what the getters see ----------

  // Two worlds that no reader of balances, nonces, code, storage or logs can
  // tell apart; they may differ in which blank accounts exist.
  ghost predicate SameValues(v: World, w: World) {
    && v.logs == w.logs
    && (forall a: Addr :: SameAccount(v.At(a), w.At(a)))
  }

  ghost predicate SameAccount(x: Account, y: Account) {
    && x.balance == y.balance && x.nonce == y.nonce && x.code == y.code
    && forall k: U256 :: Slot(x, k) == Slot(y, k)
  }

  function Slot(x: Account, key: U256): U256 {
    if key in x.storage then x.storage[key] else 0
  }

  // ---------- the store as the source keeps it ----------

  class DummyStateStore {
    var accounts: map<Addr, Account>

    // The store as a world; the store itself keeps no logs.
    ghost function Model(): World reads this { World(accounts, []) }

    constructor ()
      ensures Model() == EMPTY_WORLD
    {
      accounts := map[];
    }

    method GetAccount(a: Addr) returns (acc: Account)
      modifies this
      ensures acc == old(Model()).At(a)
      ensures Model() == old(Model()).Put(a, acc)
    {
      if a !in accounts {
        accounts := accounts[a := BLANK];
      }
      acc := accounts[a];
      assert accounts == accounts[a := acc];
    }

    method SetState(a: Addr, key: U256, val: U256)
      modifies this
      ensures Model() == old(Model()).SetState(a, key, val)
    {
      var acc := GetAccount(a);
      accounts := accounts[a := acc.(storage := acc.storage[key := val])];
    }

    method SetBalance(a: Addr, balance: U256)
      modifies this
      ensures Model() == old(Model()).SetBalance(a, balance)
    {
      var acc := GetAccount(a);
      accounts := accounts[a := acc.(balance := balance)];
    }

    method SetCode(a: Addr, code: Bytes)
      modifies this
      ensures Model() == old(Model()).SetCode(a, code)
    {
      var acc := GetAccount(a);
      accounts := accounts[a := acc.(code := code)];
    }

    method SetNonce(a: Addr, nonce: U64)
      modifies this
      ensures Model() == old(Model()).SetNonce(a, nonce)
    {
      var acc := GetAccount(a);
      accounts := accounts[a := acc.(nonce := nonce)];
    }

    method CreateAccount(a: Addr)
      modifies this
      ensures Model() == old(Model()).CreateAccount(a)
    {
      var oldBalance := if a in accounts then accounts[a].balance else 0;
      accounts := accounts[a := BLANK];
      if oldBalance != 0 {
        accounts := accounts[a := accounts[a].(balance := oldBalance)];
      }
    }

    method DeleteAccount(a: Addr)
      modifies this
      ensures Model() == old(Model()).DeleteAccounts({a})
    {
      accounts := accounts - {a};
    }

    method Snapshot() returns (copy: DummyStateStore)
      ensures fresh(copy) && copy.Model() == Model()
    {
      copy := new DummyStateStore();
      copy.accounts := accounts;
    }

    // Takes over the content of a snapshot.
    method Rollback(state: DummyStateStore)
      modifies this, state
      ensures Model() == old(state.Model())
    {
      accounts, state.accounts := state.accounts, accounts;
    }
  }
}
