// The persistent world state (tools/src/merkle.rs): accounts in a Merkle trie by
// address, each with a storage trie of its own. A trie is a map reached by its
// root; new ones are written beside the old ones and never replace them.
module MerkleStore {
  import opened Common
  import opened FlatWorld
  import opened MemState

  const LEN_BYTES: nat := 8
  const ADDR_BYTES: nat := 20

  // ---------- the encoding of an account ----------

  datatype AccountState = AccountState(rootHash: U256, balance: U256, nonce: U64, code: Bytes)

  function Encode(acc: AccountState): seq<Byte> {
    ToBE(acc.rootHash, WORD_BYTES) + ToBE(acc.balance, WORD_BYTES) + ToLE(acc.nonce, LEN_BYTES)
    + ToLE(|acc.code|, LEN_BYTES) + acc.code
  }

  const HEADER: nat := 2 * WORD_BYTES + 2 * LEN_BYTES

  // Reads the fields in order; None when the bytes run out. What follows the code
  // is not looked at.
  function Decode(raw: seq<Byte>): Option<AccountState> {
    if |raw| < HEADER then None
    else
      var rest := raw[HEADER..];
      var len := FromLE(raw[2 * WORD_BYTES + LEN_BYTES..HEADER]);
      if |rest| < len then None
      else
        HeaderFits(raw);
        Some(AccountState(
               FromBE(raw[..WORD_BYTES]), FromBE(raw[WORD_BYTES..2 * WORD_BYTES]),
               FromLE(raw[2 * WORD_BYTES..2 * WORD_BYTES + LEN_BYTES]), rest[..len]))
  }

  lemma HeaderFits(raw: seq<Byte>)
    requires |raw| >= HEADER
    ensures FromBE(raw[..WORD_BYTES]) < TWO_256 && FromBE(raw[WORD_BYTES..2 * WORD_BYTES]) < TWO_256
    ensures FromLE(raw[2 * WORD_BYTES..2 * WORD_BYTES + LEN_BYTES]) < TWO_64
    ensures FromLE(raw[2 * WORD_BYTES + LEN_BYTES..HEADER]) < TWO_64
  {
    hide FromBE, FromLE;
    Pow256Words();
    FromBEBound(raw[..WORD_BYTES]);
    FromBEBound(raw[WORD_BYTES..2 * WORD_BYTES]);
    FromLEBound(raw[2 * WORD_BYTES..2 * WORD_BYTES + LEN_BYTES]);
    FromLEBound(raw[2 * WORD_BYTES + LEN_BYTES..HEADER]);
  }

  // Bytes decode to an account exactly when they start with its encoding.
  lemma DecodeExactly(raw: seq<Byte>, acc: AccountState)
    ensures Decode(raw) == Some(acc) <==> Encode(acc) <= raw
  {
    hide Encode, Decode;
    if Encode(acc) <= raw {
      StartsDecode(raw, acc);
    }
    if Decode(raw) == Some(acc) {
      DecodesStart(raw, acc);
    }
  }

  ghost predicate Fields(raw: seq<Byte>, root: seq<Byte>, balance: seq<Byte>, nonce: seq<Byte>, len: seq<Byte>) {
    var w, n := WORD_BYTES, LEN_BYTES;
    && |raw| >= HEADER
    && raw[..w] == root && raw[w..2 * w] == balance
    && raw[2 * w..2 * w + n] == nonce && raw[2 * w + n..HEADER] == len
  }

  lemma EncodeFields(acc: AccountState)
    ensures var e := Encode(acc);
      && Fields(e, ToBE(acc.rootHash, WORD_BYTES), ToBE(acc.balance, WORD_BYTES),
                ToLE(acc.nonce, LEN_BYTES), ToLE(|acc.code|, LEN_BYTES))
      && |e| == HEADER + |acc.code| && e[HEADER..] == acc.code
  {
    hide ToBE, ToLE;
  }

  lemma StartsDecode(raw: seq<Byte>, acc: AccountState)
    requires Encode(acc) <= raw
    ensures Decode(raw) == Some(acc)
  {
    hide ToBE, ToLE, FromBE, FromLE, Encode;
    Pow256Words();
    EncodeFields(acc);
    var e := Encode(acc);
    BERoundTrip(acc.rootHash, WORD_BYTES);
    BERoundTrip(acc.balance, WORD_BYTES);
    LERoundTrip(acc.nonce, LEN_BYTES);
    LERoundTrip(|acc.code|, LEN_BYTES);
    assert Fields(raw, e[..WORD_BYTES], e[WORD_BYTES..2 * WORD_BYTES],
                  e[2 * WORD_BYTES..2 * WORD_BYTES + LEN_BYTES], e[2 * WORD_BYTES + LEN_BYTES..HEADER]);
    assert raw[HEADER..][..|acc.code|] == raw[HEADER..|e|] == e[HEADER..];
  }

  lemma DecodesStart(raw: seq<Byte>, acc: AccountState)
    requires Decode(raw) == Some(acc)
    ensures Encode(acc) <= raw
  {
    hide ToBE, ToLE, FromBE, FromLE;
    var w, n := WORD_BYTES, LEN_BYTES;
    var root, balance, nonce, len := raw[..w], raw[w..2 * w], raw[2 * w..2 * w + n], raw[2 * w + n..HEADER];
    FromBERoundTrip(root);
    FromBERoundTrip(balance);
    FromLERoundTrip(nonce);
    FromLERoundTrip(len);
    assert Encode(acc) == root + balance + nonce + len + raw[HEADER..][..|acc.code|];
    assert root + balance + nonce + len == raw[..HEADER];
  }

  lemma EncodeDecodes(acc: AccountState)
    ensures Decode(Encode(acc)) == Some(acc)
  {
    hide Encode, Decode;
    DecodeExactly(Encode(acc), acc);
  }

  method EncodeInto(acc: AccountState) returns (buff: seq<Byte>)
    ensures buff == Encode(acc)
  {
    buff := [];
    buff := buff + ToBE(acc.rootHash, WORD_BYTES);
    buff := buff + ToBE(acc.balance, WORD_BYTES);
    buff := buff + ToLE(acc.nonce, LEN_BYTES);
    buff := buff + ToLE(|acc.code|, LEN_BYTES);
    buff := buff + acc.code;
  }

  // Takes n bytes off the front; the rest is untouched when there are too few.
  method TakeBytes(raw: seq<Byte>, n: nat) returns (taken: Option<seq<Byte>>, rest: seq<Byte>)
    ensures |raw| < n ==> taken == None && rest == raw
    ensures |raw| >= n ==> taken == Some(raw[..n]) && rest == raw[n..]
  {
    if |raw| < n {
      return None, raw;
    }
    return Some(raw[..n]), raw[n..];
  }

  method DecodeFrom(raw: seq<Byte>) returns (acc: Option<AccountState>)
    ensures acc == Decode(raw)
  {
    hide FromBE, FromLE;
    if |raw| >= HEADER {
      HeaderFits(raw);
    }
    var root, rest := TakeBytes(raw, WORD_BYTES);
    if root.None? {
      return None;
    }
    var balance;
    balance, rest := TakeBytes(rest, WORD_BYTES);
    if balance.None? {
      return None;
    }
    var nonce;
    nonce, rest := TakeBytes(rest, LEN_BYTES);
    if nonce.None? {
      return None;
    }
    var len;
    len, rest := TakeBytes(rest, LEN_BYTES);
    if len.None? {
      return None;
    }
    assert balance.value == raw[WORD_BYTES..2 * WORD_BYTES];
    assert nonce.value == raw[2 * WORD_BYTES..2 * WORD_BYTES + LEN_BYTES];
    assert len.value == raw[2 * WORD_BYTES + LEN_BYTES..HEADER] && rest == raw[HEADER..];
    var code;
    code, rest := TakeBytes(rest, FromLE(len.value));
    if code.None? {
      return None;
    }
    acc := Some(AccountState(FromBE(root.value), FromBE(balance.value), FromLE(nonce.value), code.value));
  }

  // ---------- tries ----------

  // A trie stands for what it maps; a store for the tries that can be reached.
  type Trie = map<seq<Byte>, seq<Byte>>
  type Tries = map<U256, Trie>

  // The root function tells the tries at hand apart, and none has root zero.
  ghost predicate CollisionFree(h: Trie -> U256, domain: iset<Trie>) {
    && map[] in domain
    && (forall t: Trie | t in domain :: h(t) != 0)
    && (forall s: Trie, t: Trie | s in domain && t in domain && h(s) == h(t) :: s == t)
  }

  ghost predicate Keyed(h: Trie -> U256, domain: iset<Trie>, tries: Tries) {
    forall r <- tries :: tries[r] in domain && h(tries[r]) == r
  }

  ghost predicate Holds(h: Trie -> U256, tries: Tries, t: Trie) {
    h(t) in tries && tries[h(t)] == t
  }

  ghost predicate Extends(tries: Tries, more: Tries) {
    forall r <- tries :: r in more && more[r] == tries[r]
  }

  function AddrKey(a: Addr): seq<Byte> { ToBE(a, ADDR_BYTES) }

  function PrefixKey(a: Addr, key: U256): seq<Byte> { ToBE(a, ADDR_BYTES) + ToBE(key, WORD_BYTES) }

  lemma AddrKeyDistinct(a: Addr, b: Addr)
    ensures AddrKey(a) == AddrKey(b) ==> a == b
  {
    hide ToBE, FromBE;
    AddrFits();
    BERoundTrip(a, ADDR_BYTES);
    BERoundTrip(b, ADDR_BYTES);
  }

  lemma PrefixKeyDistinct(a: Addr, key: U256, key': U256)
    ensures PrefixKey(a, key) == PrefixKey(a, key') ==> key == key'
  {
    hide ToBE, FromBE;
    Pow256Words();
    assert PrefixKey(a, key)[ADDR_BYTES..] == ToBE(key, WORD_BYTES);
    assert PrefixKey(a, key')[ADDR_BYTES..] == ToBE(key', WORD_BYTES);
    BERoundTrip(key, WORD_BYTES);
    BERoundTrip(key', WORD_BYTES);
  }

  lemma AddrFits()
    ensures Pow256(ADDR_BYTES) == TWO_160
  {
    Pow256Words();
    var n, m := 8, 4;
    Pow256Add(n, n);
    Pow256Add(2 * n, m);
    assert Pow256(m) == 0x1_0000_0000;
  }

  // ---------- reading at a root ----------

  // The root zero stands for no root at all; nothing is found there.
  function AccountAt(tries: Tries, root: U256, a: Addr): Option<AccountState> {
    if root in tries && AddrKey(a) in tries[root] then Decode(tries[root][AddrKey(a)]) else None
  }

  // A stored value is always one word.
  function StoredWord(s: seq<Byte>): U256 {
    if |s| <= WORD_BYTES then WordFromBE(s) else 0
  }

  function StorageAt(tries: Tries, root: U256, a: Addr): Trie {
    match AccountAt(tries, root, a)
    case Some(acc) => if acc.rootHash in tries then tries[acc.rootHash] else map[]
    case None => map[]
  }

  function SlotAt(storage: Trie, a: Addr, key: U256): U256 {
    if PrefixKey(a, key) in storage then StoredWord(storage[PrefixKey(a, key)]) else 0
  }

  // What the five getters of a reader at a root answer.
  function MerkleRead(tries: Tries, root: U256, a: Addr, f: Field): (v: Value)
    ensures Fits(v, f)
  {
    match AccountAt(tries, root, a)
    case None => Read(EMPTY_WORLD, a, f)
    case Some(acc) =>
      match f
      case Balance => Word(acc.balance)
      case Nonce => Word(acc.nonce)
      case Code => Bytecode(acc.code)
      case Slot(key) => Word(SlotAt(StorageAt(tries, root, a), a, key))
      case Exists => Flag(true)
  }

  // Every account stored at the root decodes, and its storage is there.
  ghost predicate AccountTrie(tries: Tries, root: U256) {
    root in tries ==> forall k <- tries[root] :: SoundAccount(tries, tries[root][k])
  }

  ghost predicate SoundAccount(tries: Tries, raw: seq<Byte>) {
    Decode(raw).Some? && Decode(raw).value.rootHash in tries
  }

  // ---------- committing a delta ----------

  function StorageAfter(old_: Trie, a: Addr, state: map<U256, U256>): Trie {
    old_ + Slots(a, state)
  }

  function Slots(a: Addr, state: map<U256, U256>): Trie {
    PrefixKeysDistinct(a);
    map key | key in state :: PrefixKey(a, key) := ToBE(state[key], WORD_BYTES)
  }

  lemma PrefixKeysDistinct(a: Addr)
    ensures forall key: U256, key': U256 :: PrefixKey(a, key) == PrefixKey(a, key') ==> key == key'
  {
    forall key: U256, key': U256 ensures PrefixKey(a, key) == PrefixKey(a, key') ==> key == key' {
      PrefixKeyDistinct(a, key, key');
    }
  }

  // The account written for a delta: what the delta leaves open is read at
  // a reader's root.
  function AccountAfter(h: Trie -> U256, tries: Tries, root: U256, a: Addr, d: AccountDelta): AccountState {
    AccountState(
      h(StorageAfter(StorageAt(tries, root, a), a, d.state)),
      d.balance.GetOr(MerkleRead(tries, root, a, Balance).word),
      d.nonce.GetOr(NonceAt(tries, root, a)),
      d.code.GetOr(MerkleRead(tries, root, a, Code).code))
  }

  function NonceAt(tries: Tries, root: U256, a: Addr): U64 {
    match AccountAt(tries, root, a)
    case Some(acc) => acc.nonce
    case None => 0
  }

  // The accounts at one root, overlaid with those of a delta, for which a reader
  // at some root is asked.
  function AccountsAfter(h: Trie -> U256, tries: Tries, root: U256, at: U256, d: Delta): Trie {
    (if root in tries then tries[root] else map[]) + Accounts(h, tries, at, d)
  }

  function Accounts(h: Trie -> U256, tries: Tries, root: U256, d: Delta): Trie {
    AddrKeysDistinct();
    map a | a in d.accounts :: AddrKey(a) := Encode(AccountAfter(h, tries, root, a, d.accounts[a]))
  }

  lemma AddrKeysDistinct()
    ensures forall a: Addr, b: Addr :: AddrKey(a) == AddrKey(b) ==> a == b
  {
    forall a: Addr, b: Addr ensures AddrKey(a) == AddrKey(b) ==> a == b {
      AddrKeyDistinct(a, b);
    }
  }

  // The store after a commit has been written: nothing is lost, and the new
  // account trie and the storage tries it names are there.
  ghost predicate Committed(
    h: Trie -> U256, tries: Tries, root: U256, at: U256, d: Delta, after: Tries, newRoot: U256
  ) {
    && Extends(tries, after)
    && newRoot == h(AccountsAfter(h, tries, root, at, d))
    && Holds(h, after, AccountsAfter(h, tries, root, at, d))
    && forall a <- d.accounts :: Holds(h, after, StorageAfter(StorageAt(tries, at, a), a, d.accounts[a].state))
  }

  // Reading at the new root is the delta over reading at the old one, where the
  // accounts of the delta are those the reader has.
  lemma CommitReads(
    h: Trie -> U256, tries: Tries, root: U256, at: U256, d: Delta, after: Tries, newRoot: U256, a: Addr, f: Field
  )
    requires AccountTrie(tries, root) && AccountTrie(tries, at)
    requires Committed(h, tries, root, at, d, after, newRoot)
    ensures MerkleRead(after, newRoot, a, f)
         == Find(d, a, f).GetOr(MerkleRead(tries, if a in d.accounts then at else root, a, f))
  {
    hide MerkleRead, Committed, Find, AccountTrie;
    if a in d.accounts {
      ListedReads(h, tries, root, at, d, after, newRoot, a, f);
    } else {
      UnlistedReads(h, tries, root, at, d, after, newRoot, a, f);
      NotFound(d, a, f);
    }
  }

  lemma NotFound(d: Delta, a: Addr, f: Field)
    requires a !in d.accounts
    ensures Find(d, a, f) == None
  {
  }

  // An account of the delta.
  lemma ListedReads(
    h: Trie -> U256, tries: Tries, root: U256, at: U256, d: Delta, after: Tries, newRoot: U256, a: Addr, f: Field
  )
    requires Committed(h, tries, root, at, d, after, newRoot) && a in d.accounts
    ensures MerkleRead(after, newRoot, a, f) == Find(d, a, f).GetOr(MerkleRead(tries, at, a, f))
  {
    hide AccountAt, StorageAt, SlotAt, StorageAfter, Committed;
    var acc := d.accounts[a];
    ListedAccount(h, tries, root, at, d, after, newRoot, a);
    if f.Slot? {
      SlotAfter(StorageAt(tries, at, a), a, acc.state, f.key);
      SlotsOfNone(tries, at, a, f.key);
    }
  }

  lemma ListedAccount(
    h: Trie -> U256, tries: Tries, root: U256, at: U256, d: Delta, after: Tries, newRoot: U256, a: Addr
  )
    requires Committed(h, tries, root, at, d, after, newRoot) && a in d.accounts
    ensures AccountAt(after, newRoot, a) == Some(AccountAfter(h, tries, at, a, d.accounts[a]))
    ensures StorageAt(after, newRoot, a) == StorageAfter(StorageAt(tries, at, a), a, d.accounts[a].state)
  {
    hide Encode, Decode, AddrKey, StorageAfter;
    var was, acc := StorageAt(tries, at, a), d.accounts[a];
    hide StorageAt, AccountsAfter;
    AccountsFound(h, tries, root, at, d, a);
    assert Holds(h, after, StorageAfter(was, a, acc.state));
    EncodeDecodes(AccountAfter(h, tries, at, a, acc));
    FoundStorage(after, newRoot, a);
  }

  lemma FoundStorage(tries: Tries, root: U256, a: Addr)
    requires AccountAt(tries, root, a).Some?
    ensures var r := AccountAt(tries, root, a).value.rootHash;
      StorageAt(tries, root, a) == if r in tries then tries[r] else map[]
  {
  }

  lemma SlotsOfNone(tries: Tries, root: U256, a: Addr, key: U256)
    ensures AccountAt(tries, root, a).None? ==> SlotAt(StorageAt(tries, root, a), a, key) == 0
  {
    hide AddrKey, PrefixKey, Decode;
  }

  // Any other account.
  lemma UnlistedReads(
    h: Trie -> U256, tries: Tries, root: U256, at: U256, d: Delta, after: Tries, newRoot: U256, a: Addr, f: Field
  )
    requires AccountTrie(tries, root)
    requires Committed(h, tries, root, at, d, after, newRoot) && a !in d.accounts
    ensures MerkleRead(after, newRoot, a, f) == MerkleRead(tries, root, a, f)
  {
    hide Encode, Decode, Slots, AddrKey, PrefixKey, AccountTrie, StoredWord, StorageAfter, AccountAfter;
    AccountsFound(h, tries, root, at, d, a);
    StorageKept(tries, root, after, a);
  }

  // Which account bytes are found at the new root.
  lemma AccountsFound(h: Trie -> U256, tries: Tries, root: U256, at: U256, d: Delta, a: Addr)
    ensures var t := AccountsAfter(h, tries, root, at, d);
      if a in d.accounts then
        AddrKey(a) in t && t[AddrKey(a)] == Encode(AccountAfter(h, tries, at, a, d.accounts[a]))
      else
        (AddrKey(a) in t <==> root in tries && AddrKey(a) in tries[root])
        && (AddrKey(a) in t ==> t[AddrKey(a)] == tries[root][AddrKey(a)])
  {
    hide Encode, AccountAfter, AddrKey;
    AddrKeysDistinct();
  }

  lemma SlotAfter(storage: Trie, a: Addr, state: map<U256, U256>, key: U256)
    ensures SlotAt(StorageAfter(storage, a, state), a, key)
         == if key in state then state[key] else SlotAt(storage, a, key)
  {
    hide PrefixKey, ToBE, FromBE;
    PrefixKeysDistinct(a);
    if key in state {
      Pow256Words();
      BERoundTrip(state[key], WORD_BYTES);
      assert PrefixKey(a, key) in Slots(a, state);
    } else {
      assert PrefixKey(a, key) !in Slots(a, state);
    }
  }

  lemma StorageKept(tries: Tries, root: U256, after: Tries, a: Addr)
    requires AccountTrie(tries, root) && Extends(tries, after)
    ensures AccountAt(tries, root, a).Some? ==>
      var r := AccountAt(tries, root, a).value.rootHash; r in tries && r in after && after[r] == tries[r]
  {
    hide Decode;
    if AccountAt(tries, root, a).Some? {
      assert SoundAccount(tries, tries[root][AddrKey(a)]);
    }
  }

  // The accounts stored at the new root are sound again.
  lemma CommitSound(h: Trie -> U256, tries: Tries, root: U256, at: U256, d: Delta, after: Tries, newRoot: U256)
    requires AccountTrie(tries, root)
    requires Committed(h, tries, root, at, d, after, newRoot)
    ensures AccountTrie(after, newRoot)
  {
    hide Encode, Decode, AddrKey;
    var t := AccountsAfter(h, tries, root, at, d);
    forall k <- t ensures SoundAccount(after, t[k]) {
      AddrKeysDistinct();
      if k in Accounts(h, tries, at, d) {
        var a: Addr :| a in d.accounts && k == AddrKey(a);
        EncodeDecodes(AccountAfter(h, tries, at, a, d.accounts[a]));
        assert Holds(h, after, StorageAfter(StorageAt(tries, at, a), a, d.accounts[a].state));
      } else {
        assert SoundAccount(tries, tries[root][k]);
      }
    }
  }

  // A commit changes nothing at any older root.
  lemma OldRootsKept(tries: Tries, after: Tries, root: U256, a: Addr, f: Field)
    requires Extends(tries, after) && root in tries && AccountTrie(tries, root)
    ensures MerkleRead(after, root, a, f) == MerkleRead(tries, root, a, f)
    ensures AccountTrie(after, root)
  {
    hide Decode, AddrKey, PrefixKey, StoredWord;
    StorageKept(tries, root, after, a);
    forall k <- tries[root] ensures SoundAccount(after, tries[root][k]) {
      assert SoundAccount(tries, tries[root][k]);
    }
  }

  // ---------- block after block ----------

  function FlatAfter(w: World, d: Delta): World {
    World(map a | a in w.accounts.Keys + d.accounts.Keys :: AccountOver(w.At(a), d.At(a)), w.logs)
  }

  function AccountOver(acc: Account, d: AccountDelta): Account {
    Account(acc.storage + d.state, d.balance.GetOr(acc.balance), d.nonce.GetOr(acc.nonce), d.code.GetOr(acc.code))
  }

  lemma FlatReads(w: World, d: Delta, a: Addr, f: Field)
    ensures Read(FlatAfter(w, d), a, f) == Find(d, a, f).GetOr(Read(w, a, f))
  {
    assert BLANK.storage + map[] == BLANK.storage;
    if a in w.accounts && a !in d.accounts {
      assert w.accounts[a].storage + map[] == w.accounts[a].storage;
    }
  }

  function FlatAfterAll(w: World, ds: seq<Delta>): World {
    if ds == [] then w else FlatAfter(FlatAfterAll(w, ds[..|ds| - 1]), ds[|ds| - 1])
  }

  // A store answers at a root as the flat one does.
  ghost predicate Mirrors(tries: Tries, root: U256, w: World) {
    AccountTrie(tries, root) && forall a: Addr, f: Field :: MerkleRead(tries, root, a, f) == Read(w, a, f)
  }

  // Commits one upon the other, each written before the next: the store stays
  // the mirror of a flat one that takes the same deltas.
  lemma {:induction false} ChainMirrors(h: Trie -> U256, stores: seq<Tries>, roots: seq<U256>, ds: seq<Delta>, w: World)
    requires |stores| == |roots| == |ds| + 1
    requires forall i | 0 <= i < |ds| :: Committed(h, stores[i], roots[i], roots[i], ds[i], stores[i + 1], roots[i + 1])
    requires Mirrors(stores[0], roots[0], w)
    ensures Mirrors(stores[|ds|], roots[|ds|], FlatAfterAll(w, ds))
    decreases |ds|
  {
    if ds != [] {
      var n := |ds| - 1;
      ChainMirrors(h, stores[..n + 1], roots[..n + 1], ds[..n], w);
      CommitMirrors(h, stores[n], roots[n], ds[n], stores[n + 1], roots[n + 1], FlatAfterAll(w, ds[..n]));
    }
  }

  lemma CommitMirrors(h: Trie -> U256, tries: Tries, root: U256, d: Delta, after: Tries, newRoot: U256, w: World)
    requires Mirrors(tries, root, w) && Committed(h, tries, root, root, d, after, newRoot)
    ensures Mirrors(after, newRoot, FlatAfter(w, d))
  {
    hide MerkleRead, Read, Find, Committed, FlatAfter;
    CommitSound(h, tries, root, root, d, after, newRoot);
    forall a: Addr, f: Field ensures MerkleRead(after, newRoot, a, f) == Read(FlatAfter(w, d), a, f) {
      CommitReads(h, tries, root, root, d, after, newRoot, a, f);
      FlatReads(w, d, a, f);
    }
  }

  // What a consolidated state answers is what is read back at the new root once
  // its delta is committed, for every account the delta does not delete...
  lemma StateReadBack(h: Trie -> U256, tries: Tries, root: U256, r: Rev, after: Tries, newRoot: U256, a: Addr, f: Field)
    requires r.parent.External? && a !in r.delta.deleted
    requires Mirrors(tries, root, r.parent.world)
    requires Committed(h, tries, root, root, r.delta, after, newRoot)
    ensures MerkleRead(after, newRoot, a, f) == Get(r, a, f)
  {
    hide MerkleRead, Read, Find, Committed;
    CommitReads(h, tries, root, root, r.delta, after, newRoot, a, f);
    GetFound(r, a, f);
  }

  // ...but a commit does not look at deletions, so a deleted account is read back
  // as deleted exactly when the delta lists no changes to it and the source did
  // not have it.
  lemma DeletionsIgnored(h: Trie -> U256, tries: Tries, root: U256, r: Rev, after: Tries, newRoot: U256, a: Addr)
    requires r.parent.External? && a in r.delta.deleted
    requires Mirrors(tries, root, r.parent.world)
    requires Committed(h, tries, root, root, r.delta, after, newRoot)
    ensures (forall f: Field :: MerkleRead(after, newRoot, a, f) == Get(r, a, f))
       <==> a !in r.delta.accounts && !r.parent.world.Exist(a)
  {
    hide MerkleRead, Committed;
    var w := r.parent.world;
    forall f: Field
      ensures MerkleRead(after, newRoot, a, f) == Find(r.delta, a, f).GetOr(Read(w, a, f))
      ensures Get(r, a, f) == Read(EMPTY_WORLD, a, f)
    {
      CommitReads(h, tries, root, root, r.delta, after, newRoot, a, f);
      GetDeleted(r, a, f);
    }
    if a in r.delta.accounts || w.Exist(a) {
      assert MerkleRead(after, newRoot, a, Exists) != Get(r, a, Exists);
    }
  }

  lemma EmptyMirrors(tries: Tries)
    requires 0 !in tries
    ensures Mirrors(tries, 0, EMPTY_WORLD)
  {
  }

  // From an empty store on: after any chain of commits the last root reads as the
  // flat store that started empty and took the same deltas.
  lemma ChainFromEmpty(h: Trie -> U256, stores: seq<Tries>, roots: seq<U256>, ds: seq<Delta>)
    requires |stores| == |roots| == |ds| + 1
    requires 0 !in stores[0] && roots[0] == 0
    requires forall i | 0 <= i < |ds| :: Committed(h, stores[i], roots[i], roots[i], ds[i], stores[i + 1], roots[i + 1])
    ensures Mirrors(stores[|ds|], roots[|ds|], FlatAfterAll(EMPTY_WORLD, ds))
  {
    hide Mirrors, Committed;
    EmptyMirrors(stores[0]);
    ChainMirrors(h, stores, roots, ds, EMPTY_WORLD);
  }

  ghost predicate StoragesHeld(h: Trie -> U256, tries: Tries, pending: Tries, root: U256, accounts: map<Addr, AccountDelta>) {
    forall a <- accounts :: Holds(h, pending, StorageAfter(StorageAt(tries, root, a), a, accounts[a].state))
  }

  lemma NoStorages(h: Trie -> U256, tries: Tries, pending: Tries, root: U256)
    ensures StoragesHeld(h, tries, pending, root, map[]) && Extends(pending, pending)
  {
  }

  lemma ExtendsOnward(tries: Tries, more: Tries, most: Tries)
    requires Extends(tries, more) && Extends(more, most)
    ensures Extends(tries, most)
  {
  }

  lemma StoragesKept(h: Trie -> U256, tries: Tries, pending: Tries, more: Tries, root: U256, accounts: map<Addr, AccountDelta>)
    requires StoragesHeld(h, tries, pending, root, accounts) && Extends(pending, more)
    ensures StoragesHeld(h, tries, more, root, accounts)
  {
    hide StorageAfter, StorageAt;
  }

  lemma StoragesMore(h: Trie -> U256, tries: Tries, pending: Tries, more: Tries, root: U256,
                     accounts: map<Addr, AccountDelta>, a: Addr, acc: AccountDelta)
    requires StoragesHeld(h, tries, pending, root, accounts) && Extends(pending, more)
    requires Holds(h, more, StorageAfter(StorageAt(tries, root, a), a, acc.state))
    ensures StoragesHeld(h, tries, more, root, accounts[a := acc])
  {
    hide StorageAfter, StorageAt;
  }

  lemma CommitDone(
    h: Trie -> U256, domain: iset<Trie>, tries: Tries, pending: Tries, root: U256, at: U256, d: Delta, newRoot: U256
  )
    requires CollisionFree(h, domain) && Keyed(h, domain, tries) && Keyed(h, domain, pending)
    requires newRoot == h(AccountsAfter(h, tries, root, at, d)) && Holds(h, pending, AccountsAfter(h, tries, root, at, d))
    requires StoragesHeld(h, tries, pending, at, d.accounts)
    ensures Committed(h, tries, root, at, d, tries + pending, newRoot)
  {
    hide AccountsAfter, StorageAfter, StorageAt, CollisionFree, Keyed;
    PendingExtends(h, domain, tries, pending);
  }

  // ---------- the store as the source keeps it ----------

  class MerkleDB {
    const rootOf: Trie -> U256
    ghost const domain: iset<Trie>
    // What has been written, and what waits in the write batch.
    var tries: Tries
    var pending: Tries

    ghost predicate Valid() reads this {
      && CollisionFree(rootOf, domain)
      && Keyed(rootOf, domain, tries) && Keyed(rootOf, domain, pending)
      && Holds(rootOf, tries, map[])
    }

    // An empty store; the root of the empty trie is always known.
    constructor (rootOf: Trie -> U256, ghost domain: iset<Trie>)
      requires CollisionFree(rootOf, domain)
      ensures Valid() && this.rootOf == rootOf && this.domain == domain
      ensures tries == map[rootOf(map[]) := map[]] && pending == map[]
    {
      this.rootOf, this.domain := rootOf, domain;
      tries, pending := map[rootOf(map[]) := map[]], map[];
    }

    // The five getters of a reader. Asking whether an account exists aborts at an
    // unknown root.
    method ReadAt(root: U256, a: Addr, f: Field) returns (v: Value)
      requires f.Exists? ==> root in tries
      requires AccountTrie(tries, root)
      ensures v == MerkleRead(tries, root, a, f)
    {
      hide AddrKey, PrefixKey, Decode, StoredWord;
      var acc := GetAccount(a, root);
      StorageKept(tries, root, tries, a);
      if acc.None? {
        return Read(EMPTY_WORLD, a, f);
      }
      match f {
        case Balance => v := Word(acc.value.balance);
        case Nonce => v := Word(acc.value.nonce);
        case Code => v := Bytecode(acc.value.code);
        case Exists => v := Flag(true);
        case Slot(key) =>
          var storage := tries[acc.value.rootHash];
          var p := PrefixKey(a, key);
          v := Word(if p in storage then StoredWord(storage[p]) else 0);
      }
    }

    // An unknown root reads as nothing stored.
    method GetAccount(a: Addr, root: U256) returns (acc: Option<AccountState>)
      ensures acc == AccountAt(tries, root, a)
    {
      if root !in tries || AddrKey(a) !in tries[root] {
        return None;
      }
      acc := DecodeFrom(tries[root][AddrKey(a)]);
    }

    // Opening a trie for writing takes a root that has been written; the root
    // zero of a new account opens an empty one.
    method InsertSlots(a: Addr, oldRoot: U256, state: map<U256, U256>) returns (newRoot: U256)
      requires Valid() && (oldRoot == 0 || oldRoot in tries)
      requires StorageAfter(if oldRoot == 0 then map[] else tries[oldRoot], a, state) in domain
      modifies this`pending
      ensures Valid() && Extends(old(pending), pending)
      ensures newRoot == rootOf(StorageAfter(if oldRoot == 0 then map[] else tries[oldRoot], a, state))
      ensures Holds(rootOf, pending, StorageAfter(if oldRoot == 0 then map[] else tries[oldRoot], a, state))
    {
      var was: Trie := if oldRoot == 0 then map[] else tries[oldRoot];
      var trie := InsertAll(was, a, state);
      newRoot := WriteTrie(trie);
    }

    // Inserts every slot, in any order.
    method InsertAll(was: Trie, a: Addr, state: map<U256, U256>) returns (trie: Trie)
      ensures trie == StorageAfter(was, a, state)
    {
      hide PrefixKey, ToBE, StorageAfter;
      trie := was;
      var rest := state.Keys;
      ghost var done: map<U256, U256> := map[];
      NoSlots(was, a);
      while rest != {}
        invariant rest <= state.Keys && done.Keys == state.Keys - rest
        invariant forall k <- done :: done[k] == state[k]
        invariant trie == StorageAfter(was, a, done)
        decreases |rest|
      {
        var key :| key in rest;
        SlotsOneMore(was, a, done, key, state[key]);
        trie := trie[PrefixKey(a, key) := ToBE(state[key], WORD_BYTES)];
        done := done[key := state[key]];
        rest := rest - {key};
      }
      assert done == state;
    }

    // Closing a trie puts it in the write batch under its root.
    method WriteTrie(t: Trie) returns (root: U256)
      requires Valid() && t in domain
      modifies this`pending
      ensures Valid() && Extends(old(pending), pending)
      ensures root == rootOf(t) && Holds(rootOf, pending, t)
    {
      root := rootOf(t);
      pending := pending[root := t];
    }

    // Writes the delta's storage tries, then the account trie over the one at the
    // given root, whatever order the accounts come in. What the delta leaves open
    // is asked of a reader, which may be at another root.
    method Commit(root: Option<U256>, d: Delta, at: U256) returns (newRoot: U256)
      requires Valid()
      requires root.Some? ==> root.value in tries && AccountTrie(tries, root.value)
      requires at != 0 ==> AccountTrie(tries, at)
      requires AccountsAfter(rootOf, tries, root.GetOr(0), at, d) in domain
      requires forall a <- d.accounts :: StorageAfter(StorageAt(tries, at, a), a, d.accounts[a].state) in domain
      modifies this`pending
      ensures Valid() && Extends(old(pending), pending)
      ensures Committed(rootOf, tries, root.GetOr(0), at, d, tries + pending, newRoot)
    {
      hide AccountsAfter, StorageAfter, StorageAt, AccountTrie, CollisionFree, Keyed, Holds, Extends;
      NoRootZero(rootOf, domain, tries, at);
      var trie := OpenAccounts(root);
      trie := InsertAccounts(trie, root.GetOr(0), at, d);
      ghost var before := pending;
      newRoot := WriteTrie(trie);
      ExtendsOnward(old(pending), before, pending);
      StoragesKept(rootOf, tries, before, pending, at, d.accounts);
      CommitDone(rootOf, domain, tries, pending, root.GetOr(0), at, d, newRoot);
    }

    // Each account of the delta, in any order.
    method InsertAccounts(was: Trie, ghost root: U256, at: U256, d: Delta) returns (trie: Trie)
      requires Valid() && AccountTrie(tries, at)
      requires was == if root in tries then tries[root] else map[]
      requires forall a <- d.accounts :: StorageAfter(StorageAt(tries, at, a), a, d.accounts[a].state) in domain
      modifies this`pending
      ensures Valid() && Extends(old(pending), pending)
      ensures trie == AccountsAfter(rootOf, tries, root, at, d)
      ensures StoragesHeld(rootOf, tries, pending, at, d.accounts)
    {
      hide *;
      trie := was;
      var rest := d.accounts.Keys;
      ghost var done := d.(accounts := map[]);
      NoAccounts(rootOf, tries, root, at, done);
      NoStorages(rootOf, tries, pending, at);
      while rest != {}
        invariant rest <= d.accounts.Keys && done.accounts.Keys == d.accounts.Keys - rest
        invariant done == d.(accounts := done.accounts) && forall a <- done.accounts :: done.accounts[a] == d.accounts[a]
        invariant Valid() && Extends(old(pending), pending)
        invariant trie == AccountsAfter(rootOf, tries, root, at, done)
        invariant StoragesHeld(rootOf, tries, pending, at, done.accounts)
        decreases |rest|
      {
        var a :| a in rest;
        ghost var before := pending;
        var acc := CommitAccount(at, a, d.accounts[a]);
        ExtendsOnward(old(pending), before, pending);
        StoragesMore(rootOf, tries, before, pending, at, done.accounts, a, d.accounts[a]);
        AccountsOneMore(rootOf, tries, root, at, done, a, d.accounts[a]);
        var bytes := EncodeInto(acc);
        trie := trie[AddrKey(a) := bytes];
        done := done.(accounts := done.accounts[a := d.accounts[a]]);
        rest := rest - {a};
      }
      assert done.accounts == d.accounts;
    }

    // The account trie to write to.
    method OpenAccounts(root: Option<U256>) returns (t: Trie)
      requires Valid() && (root.Some? ==> root.value in tries)
      ensures t == if root.GetOr(0) in tries then tries[root.GetOr(0)] else map[]
    {
      t := if root.Some? then tries[root.value] else map[];
    }

    // One account: what the delta leaves open is read, and its storage written.
    method CommitAccount(root: U256, a: Addr, d: AccountDelta) returns (acc: AccountState)
      requires Valid() && AccountTrie(tries, root)
      requires StorageAfter(StorageAt(tries, root, a), a, d.state) in domain
      modifies this`pending
      ensures Valid() && Extends(old(pending), pending)
      ensures acc == AccountAfter(rootOf, tries, root, a, d)
      ensures Holds(rootOf, pending, StorageAfter(StorageAt(tries, root, a), a, d.state))
    {
      hide AddrKey, Decode;
      var was := GetAccount(a, root);
      StorageKept(tries, root, tries, a);
      assert was.Some? ==> was.value.rootHash != 0;
      var storage := InsertSlots(a, if was.Some? then was.value.rootHash else 0, d.state);
      acc := AccountState(
        storage,
        d.balance.GetOr(if was.Some? then was.value.balance else 0),
        d.nonce.GetOr(if was.Some? then was.value.nonce else 0),
        d.code.GetOr(if was.Some? then was.value.code else []));
    }

    method CommitWriteBatch()
      requires Valid()
      modifies this
      ensures Valid() && tries == old(tries + pending) && pending == map[]
    {
      tries := tries + pending;
      pending := map[];
    }
  }

  lemma NoSlots(was: Trie, a: Addr)
    ensures StorageAfter(was, a, map[]) == was
  {
    assert Slots(a, map[]) == map[];
  }

  lemma NoAccounts(h: Trie -> U256, tries: Tries, root: U256, at: U256, d: Delta)
    requires d.accounts == map[]
    ensures AccountsAfter(h, tries, root, at, d) == if root in tries then tries[root] else map[]
  {
    assert Accounts(h, tries, at, d) == map[];
  }

  lemma NoRootZero(h: Trie -> U256, domain: iset<Trie>, tries: Tries, root: U256)
    requires CollisionFree(h, domain) && Keyed(h, domain, tries)
    requires root != 0 ==> AccountTrie(tries, root)
    ensures 0 !in tries && AccountTrie(tries, root)
  {
  }

  // Pending tries are new, or those already written under their roots.
  lemma PendingExtends(h: Trie -> U256, domain: iset<Trie>, tries: Tries, pending: Tries)
    requires CollisionFree(h, domain) && Keyed(h, domain, tries) && Keyed(h, domain, pending)
    ensures Extends(tries, tries + pending) && Keyed(h, domain, tries + pending)
    ensures forall t: Trie :: Holds(h, pending, t) ==> Holds(h, tries + pending, t)
  {
  }

  lemma SlotsOneMore(was: Trie, a: Addr, done: map<U256, U256>, key: U256, val: U256)
    ensures StorageAfter(was, a, done[key := val])
         == StorageAfter(was, a, done)[PrefixKey(a, key) := ToBE(val, WORD_BYTES)]
  {
    hide PrefixKey, ToBE, Slots;
    SlotsPut(a, done, key, val);
    var s, p, v := Slots(a, done), PrefixKey(a, key), ToBE(val, WORD_BYTES);
    assert was + s[p := v] == (was + s)[p := v];
  }

  lemma SlotsPut(a: Addr, done: map<U256, U256>, key: U256, val: U256)
    ensures Slots(a, done[key := val]) == Slots(a, done)[PrefixKey(a, key) := ToBE(val, WORD_BYTES)]
  {
    hide PrefixKey, ToBE, Slots;
    var done' := done[key := val];
    var s, s' := Slots(a, done)[PrefixKey(a, key) := ToBE(val, WORD_BYTES)], Slots(a, done');
    SlotsHas(a, done', key);
    forall p | p in s ensures p in s' && s'[p] == s[p] {
      if p != PrefixKey(a, key) {
        var k := SlotsFrom(a, done, p);
        SlotsHas(a, done, k);
        SlotsHas(a, done', k);
      }
    }
    forall p | p in s' ensures p in s {
      var k := SlotsFrom(a, done', p);
      if k != key {
        SlotsHas(a, done, k);
      }
    }
  }

  lemma SlotsHas(a: Addr, state: map<U256, U256>, key: U256)
    requires key in state
    ensures PrefixKey(a, key) in Slots(a, state) && Slots(a, state)[PrefixKey(a, key)] == ToBE(state[key], WORD_BYTES)
  {
    hide PrefixKey, ToBE;
    PrefixKeysDistinct(a);
  }

  lemma SlotsFrom(a: Addr, state: map<U256, U256>, p: seq<Byte>) returns (key: U256)
    requires p in Slots(a, state)
    ensures key in state && p == PrefixKey(a, key)
  {
    hide PrefixKey, ToBE;
    key :| key in state && p == PrefixKey(a, key);
  }

  lemma AccountsOneMore(
    h: Trie -> U256, tries: Tries, root: U256, at: U256, d: Delta, a: Addr, acc: AccountDelta
  )
    ensures AccountsAfter(h, tries, root, at, d.(accounts := d.accounts[a := acc]))
         == AccountsAfter(h, tries, root, at, d)[AddrKey(a) := Encode(AccountAfter(h, tries, at, a, acc))]
  {
    hide AddrKey, Encode, AccountAfter, Accounts;
    AccountsPut(h, tries, at, d, a, acc);
    var was, s := if root in tries then tries[root] else map[], Accounts(h, tries, at, d);
    var p, v := AddrKey(a), Encode(AccountAfter(h, tries, at, a, acc));
    assert was + s[p := v] == (was + s)[p := v];
  }

  lemma AccountsPut(h: Trie -> U256, tries: Tries, root: U256, d: Delta, a: Addr, acc: AccountDelta)
    ensures Accounts(h, tries, root, d.(accounts := d.accounts[a := acc]))
         == Accounts(h, tries, root, d)[AddrKey(a) := Encode(AccountAfter(h, tries, root, a, acc))]
  {
    hide AddrKey, Encode, AccountAfter, Accounts;
    var d' := d.(accounts := d.accounts[a := acc]);
    var s := Accounts(h, tries, root, d)[AddrKey(a) := Encode(AccountAfter(h, tries, root, a, acc))];
    var s' := Accounts(h, tries, root, d');
    AccountsHas(h, tries, root, d', a);
    forall p | p in s ensures p in s' && s'[p] == s[p] {
      if p != AddrKey(a) {
        var b := AccountsFrom(h, tries, root, d, p);
        AccountsHas(h, tries, root, d, b);
        AccountsHas(h, tries, root, d', b);
      }
    }
    forall p | p in s' ensures p in s {
      var b := AccountsFrom(h, tries, root, d', p);
      if b != a {
        AccountsHas(h, tries, root, d, b);
      }
    }
  }

  lemma AccountsHas(h: Trie -> U256, tries: Tries, root: U256, d: Delta, a: Addr)
    requires a in d.accounts
    ensures var s := Accounts(h, tries, root, d);
      AddrKey(a) in s && s[AddrKey(a)] == Encode(AccountAfter(h, tries, root, a, d.accounts[a]))
  {
    hide AddrKey, Encode, AccountAfter;
    AddrKeysDistinct();
  }

  lemma AccountsFrom(h: Trie -> U256, tries: Tries, root: U256, d: Delta, p: seq<Byte>) returns (a: Addr)
    requires p in Accounts(h, tries, root, d)
    ensures a in d.accounts && p == AddrKey(a)
  {
    hide AddrKey, Encode, AccountAfter;
    a :| a in d.accounts && p == AddrKey(a);
  }
}
