// The versioned world state (src/state.rs): a chain of deltas over an external
// source. Snapshots and rollbacks move pointers; consolidation squashes the chain.
module MemState {
  import opened Common
  import opened FlatWorld

  // Changes to one account; None means no change.
  datatype AccountDelta = AccountDelta(
    state: map<U256, U256>, balance: Option<U256>, nonce: Option<U64>, code: Option<Bytes>)

  const NO_CHANGE: AccountDelta := AccountDelta(map[], None, None, None)

  datatype Delta = Delta(accounts: map<Addr, AccountDelta>, logs: seq<LogItem>, deleted: set<Addr>) {
    function At(a: Addr): AccountDelta { if a in accounts then accounts[a] else NO_CHANGE }
  }

  const EMPTY_DELTA: Delta := Delta(map[], [], {})

  datatype Source = Internal(rev: Rev) | External(world: World)

  // A revision: a delta over another revision or over the external source. A
  // shared revision is never changed again, so it is a value.
  datatype Rev = Rev(parent: Source, delta: Delta)

  // ---------- reading ----------

  // What a getter asks for, and what it answers.
  datatype Field = Balance | Nonce | Code | Slot(key: U256) | Exists
  datatype Value = Word(word: U256) | Bytecode(code: Bytes) | Flag(flag: bool)

  predicate Fits(v: Value, f: Field) {
    match f
    case Code => v.Bytecode?
    case Exists => v.Flag?
    case _ => v.Word?
  }

  function Read(w: World, a: Addr, f: Field): (v: Value)
    ensures Fits(v, f)
  {
    match f
    case Balance => Word(w.GetBalance(a))
    case Nonce => Word(w.GetNonce(a))
    case Code => Bytecode(w.GetCode(a))
    case Slot(key) => Word(w.GetState(a, key))
    case Exists => Flag(w.Exist(a))
  }

  // What one delta says about a field of an account it lists.
  function FindIn(acc: AccountDelta, f: Field): (v: Option<Value>)
    ensures v.Some? ==> Fits(v.value, f)
  {
    match f
    case Balance => if acc.balance.Some? then Some(Word(acc.balance.value)) else None
    case Nonce => if acc.nonce.Some? then Some(Word(acc.nonce.value)) else None
    case Code => if acc.code.Some? then Some(Bytecode(acc.code.value)) else None
    case Slot(key) => if key in acc.state then Some(Word(acc.state[key])) else None
    case Exists => Some(Flag(true))
  }

  function Find(d: Delta, a: Addr, f: Field): (v: Option<Value>)
    ensures v.Some? ==> Fits(v.value, f)
  {
    if a in d.accounts then FindIn(d.accounts[a], f) else None
  }

  // The newest revision that records the field answers, else the external source.
  function Walk(r: Rev, a: Addr, f: Field): (v: Value)
    ensures Fits(v, f)
  {
    match Find(r.delta, a, f)
    case Some(v) => v
    case None => WalkSource(r.parent, a, f)
  }

  function WalkSource(s: Source, a: Addr, f: Field): (v: Value)
    ensures Fits(v, f)
  {
    match s
    case Internal(p) => Walk(p, a, f)
    case External(w) => Read(w, a, f)
  }

  // Every getter: the deletions of the newest revision alone are consulted.
  function Get(r: Rev, a: Addr, f: Field): (v: Value)
    ensures Fits(v, f)
  {
    if a in r.delta.deleted then Read(EMPTY_WORLD, a, f) else Walk(r, a, f)
  }

  // The loop behind the getters.
  method RevWalk(r: Rev, a: Addr, f: Field) returns (v: Value)
    ensures v == Walk(r, a, f)
  {
    var s := r;
    while true
      invariant Walk(s, a, f) == Walk(r, a, f)
      decreases s
    {
      var found := Find(s.delta, a, f);
      if found.Some? {
        return found.value;
      }
      match s.parent {
        case Internal(p) => s := p;
        case External(w) => return Read(w, a, f);
      }
    }
  }

  // ---------- writing to the newest revision ----------

  function Put(r: Rev, a: Addr, acc: AccountDelta): Rev {
    r.(delta := r.delta.(accounts := r.delta.accounts[a := acc]))
  }

  function SetState(r: Rev, a: Addr, key: U256, val: U256): Rev {
    Put(r, a, r.delta.At(a).(state := r.delta.At(a).state[key := val]))
  }

  function SetBalance(r: Rev, a: Addr, balance: U256): Rev {
    Put(r, a, r.delta.At(a).(balance := Some(balance)))
  }

  function SetNonce(r: Rev, a: Addr, nonce: U64): Rev {
    Put(r, a, r.delta.At(a).(nonce := Some(nonce)))
  }

  function SetCode(r: Rev, a: Addr, code: Bytes): Rev {
    Put(r, a, r.delta.At(a).(code := Some(code)))
  }

  // Keeps the old balance; storage is not cleared in older revisions.
  function CreateAccount(r: Rev, a: Addr): Rev {
    var created := Put(r, a, AccountDelta(map[], Some(Get(r, a, Balance).word), Some(0), Some([])));
    created.(delta := created.delta.(deleted := created.delta.deleted - {a}))
  }

  function DeleteAccount(r: Rev, a: Addr): Rev {
    r.(delta := r.delta.(deleted := r.delta.deleted + {a}, accounts := r.delta.accounts - {a}))
  }

  function AddLog(r: Rev, item: LogItem): Rev {
    r.(delta := r.delta.(logs := r.delta.logs + [item]))
  }

  // ---------- consolidation ----------

  function Depth(r: Rev): nat {
    match r.parent
    case Internal(p) => Depth(p) + 1
    case External(_) => 0
  }

  // A revision as many steps back as asked and as the chain allows; None asks
  // for the whole chain.
  function Oldest(r: Rev, back: Option<nat>): Rev {
    if r.parent.Internal? && (back.None? || back.value > 0) then
      Oldest(r.parent.rev, if back.Some? then Some(back.value - 1) else None)
    else r
  }

  // The deltas from that revision up to r, oldest first.
  function Merged(r: Rev, back: Option<nat>): (ds: seq<Delta>)
    ensures ds != [] && ds[|ds| - 1] == r.delta
  {
    if r.parent.Internal? && (back.None? || back.value > 0) then
      Merged(r.parent.rev, if back.Some? then Some(back.value - 1) else None) + [r.delta]
    else [r.delta]
  }

  function OrElse<T>(newer: Option<T>, older: Option<T>): Option<T> {
    if newer.Some? then newer else older
  }

  // A newer delta of an account over an older one.
  function Overlay(older: AccountDelta, newer: AccountDelta): AccountDelta {
    AccountDelta(
      older.state + newer.state,
      OrElse(newer.balance, older.balance),
      OrElse(newer.nonce, older.nonce),
      OrElse(newer.code, older.code))
  }

  // The delta d applied after acc: its accounts revive deleted ones, then its
  // own deletions remove accounts.
  function Apply(acc: Delta, d: Delta): Delta {
    var deleted := (acc.deleted - d.accounts.Keys) + d.deleted;
    Delta(OverlayAll(acc.accounts, d) - deleted, acc.logs + d.logs, deleted)
  }

  function OverlayAll(older: map<Addr, AccountDelta>, d: Delta): map<Addr, AccountDelta> {
    map a | a in older.Keys + d.accounts.Keys ::
      if a in d.accounts then Overlay(if a in older then older[a] else NO_CHANGE, d.accounts[a]) else older[a]
  }

  function ApplyAll(ds: seq<Delta>): Delta {
    if ds == [] then EMPTY_DELTA else Apply(ApplyAll(ds[..|ds| - 1]), ds[|ds| - 1])
  }

  function Consolidate(r: Rev, back: Option<nat>): Rev {
    Rev(Oldest(r, back).parent, ApplyAll(Merged(r, back)))
  }

  method DepthOf(r: Rev) returns (d: nat)
    ensures d == Depth(r)
  {
    d := 0;
    var s := r;
    while s.parent.Internal?
      invariant d + Depth(s) == Depth(r)
      decreases s
    {
      s := s.parent.rev;
      d := d + 1;
    }
  }

  method ConsolidateRev(r: Rev, back: Option<nat>) returns (c: Rev)
    ensures c == Consolidate(r, back)
  {
    var revs := CollectRevs(r, back);
    ghost var ds := Merged(r, back);
    hide *;
    var acc := EMPTY_DELTA;
    var k := |revs|;
    ApplyNone();
    while k > 0
      invariant 0 <= k <= |revs|
      invariant acc == ApplyAll(ds[..|revs| - k])
    {
      k := k - 1;
      ApplyNext(ds, |revs| - k);
      acc := ApplyInPlace(acc, revs[k].delta);
    }
    assert ds[..|revs|] == ds;
    c := Rev(revs[|revs| - 1].parent, acc);
    ConsolidateIs(r, back);
  }

  lemma ApplyNone()
    ensures ApplyAll([]) == EMPTY_DELTA
  {
  }

  lemma ApplyNext(ds: seq<Delta>, n: nat)
    requires 0 < n <= |ds|
    ensures ApplyAll(ds[..n]) == Apply(ApplyAll(ds[..n - 1]), ds[n - 1])
  {
    hide Apply;
    assert ds[..n][..n - 1] == ds[..n - 1];
  }

  // The loop that collects the revisions to merge, newest first.
  method CollectRevs(r: Rev, back: Option<nat>) returns (revs: seq<Rev>)
    ensures |revs| == |Merged(r, back)|
    ensures forall j | 0 <= j < |revs| :: revs[j].delta == Merged(r, back)[|revs| - 1 - j]
    ensures revs[|revs| - 1] == Oldest(r, back)
  {
    hide Collecting;
    revs := [r];
    var limit := back.GetOr(1);
    var inc := if back.Some? then 1 else 0;
    var s, i := r, 0;
    CollectingStarts(r, back);
    while i < limit && s.parent.Internal?
      invariant i <= limit && (back.None? ==> i == 0)
      invariant Collecting(r, back, i, revs, s)
      decreases s
    {
      CollectingGoesOn(r, back, i, revs, s);
      revs := revs + [s.parent.rev];
      s := s.parent.rev;
      i := i + inc;
    }
    CollectingEnds(r, back, i, revs, s);
  }

  // The invariant of that loop: the collected revisions and what is left from
  // s make up the deltas to merge.
  ghost predicate Collecting(r: Rev, back: Option<nat>, i: nat, revs: seq<Rev>, s: Rev) {
    var here, all := Merged(s, Left(back, i)), Merged(r, back);
    && revs != [] && revs[|revs| - 1] == s
    && Oldest(s, Left(back, i)) == Oldest(r, back)
    && |revs| - 1 + |here| == |all|
    && all[..|here|] == here
    && forall j | 0 <= j < |revs| :: revs[j].delta == all[|all| - 1 - j]
  }

  lemma CollectingStarts(r: Rev, back: Option<nat>)
    ensures Collecting(r, back, 0, [r], r)
  {
    assert Left(back, 0) == back;
  }

  lemma CollectingGoesOn(r: Rev, back: Option<nat>, i: nat, revs: seq<Rev>, s: Rev)
    requires Collecting(r, back, i, revs, s)
    requires s.parent.Internal? && i < back.GetOr(1)
    ensures Collecting(r, back, if back.Some? then i + 1 else i, revs + [s.parent.rev], s.parent.rev)
  {
    var p, next := s.parent.rev, if back.Some? then i + 1 else i;
    var here, below, all := Merged(s, Left(back, i)), Merged(p, Left(back, next)), Merged(r, back);
    assert here == below + [s.delta];
    OneMore(all, below, s.delta, revs, p);
  }

  lemma OneMore(all: seq<Delta>, below: seq<Delta>, d: Delta, revs: seq<Rev>, p: Rev)
    requires below != [] && below[|below| - 1] == p.delta
    requires revs != [] && |revs| + |below| == |all| && all[..|below| + 1] == below + [d]
    requires forall j | 0 <= j < |revs| :: revs[j].delta == all[|all| - 1 - j]
    ensures all[..|below|] == below
    ensures forall j | 0 <= j <= |revs| :: (revs + [p])[j].delta == all[|all| - 1 - j]
  {
    var n := |below|;
    assert all[..n] == all[..n + 1][..n] == (below + [d])[..n] == below;
    assert all[n - 1] == all[..n][n - 1] == p.delta;
  }

  lemma CollectingEnds(r: Rev, back: Option<nat>, i: nat, revs: seq<Rev>, s: Rev)
    requires Collecting(r, back, i, revs, s)
    requires s.parent.External? || (back.Some? && i >= back.value)
    ensures |revs| == |Merged(r, back)|
    ensures forall j | 0 <= j < |revs| :: revs[j].delta == Merged(r, back)[|revs| - 1 - j]
    ensures revs[|revs| - 1] == Oldest(r, back)
  {
    assert Merged(s, Left(back, i)) == [s.delta];
  }

  // How far back is still to go after i steps, as the loop counts them.
  function Left(back: Option<nat>, i: nat): Option<nat> {
    match back
    case None => None
    case Some(n) => Some(if i <= n then n - i else 0)
  }

  // One round of the merging loop.
  method ApplyInPlace(acc: Delta, d: Delta) returns (r: Delta)
    ensures r == Apply(acc, d)
  {
    var accounts, deleted := OverlayInPlace(acc, d);
    deleted := deleted + d.deleted;
    r := Delta(accounts - deleted, acc.logs + d.logs, deleted);
  }

  // The accounts of a newer delta laid over older ones, account by account in
  // any order; each revives a deleted account.
  method OverlayInPlace(acc: Delta, d: Delta) returns (accounts: map<Addr, AccountDelta>, deleted: set<Addr>)
    ensures accounts == OverlayAll(acc.accounts, d)
    ensures deleted == acc.deleted - d.accounts.Keys
  {
    hide Overlay, OverlayAll;
    accounts, deleted := acc.accounts, acc.deleted;
    var rest := d.accounts.Keys;
    while rest != {}
      invariant rest <= d.accounts.Keys
      invariant deleted == acc.deleted - (d.accounts.Keys - rest)
      invariant Overlaid(acc.accounts, d, rest, accounts)
      decreases |rest|
    {
      var a :| a in rest;
      deleted := deleted - {a};
      var older := if a in accounts then accounts[a] else NO_CHANGE;
      accounts := accounts[a := Overlay(older, d.accounts[a])];
      rest := rest - {a};
    }
    OverlaidAll(acc.accounts, d, accounts);
  }

  // The accounts when those in rest are still to be overlaid.
  ghost predicate Overlaid(older: map<Addr, AccountDelta>, d: Delta, rest: set<Addr>, now: map<Addr, AccountDelta>) {
    && now.Keys == older.Keys + (d.accounts.Keys - rest)
    && (forall a <- now | a in rest || a !in d.accounts :: now[a] == older[a])
    && (forall a <- now | a !in rest && a in d.accounts ::
          now[a] == Overlay(if a in older then older[a] else NO_CHANGE, d.accounts[a]))
  }

  lemma OverlaidAll(older: map<Addr, AccountDelta>, d: Delta, now: map<Addr, AccountDelta>)
    requires Overlaid(older, d, {}, now)
    ensures now == OverlayAll(older, d)
  {
    hide Overlay;
  }

  // ---------- what consolidation computes ----------

  function LogsOf(ds: seq<Delta>): seq<LogItem> {
    if ds == [] then [] else LogsOf(ds[..|ds| - 1]) + ds[|ds| - 1].logs
  }

  // All revisions' changes to one account, oldest first, one over the other.
  function OverlayOf(ds: seq<Delta>, a: Addr): AccountDelta {
    if ds == [] then NO_CHANGE
    else Overlay(OverlayOf(ds[..|ds| - 1], a), ds[|ds| - 1].At(a))
  }

  ghost predicate Touched(ds: seq<Delta>, a: Addr) {
    exists d <- ds :: a in d.accounts
  }

  lemma OverlayNoChange(acc: AccountDelta)
    ensures Overlay(acc, NO_CHANGE) == acc && Overlay(NO_CHANGE, acc) == acc
  {
    assert acc.state + map[] == acc.state && map[] + acc.state == acc.state;
  }

  lemma {:induction false} UntouchedOverlay(ds: seq<Delta>, a: Addr)
    requires !Touched(ds, a)
    ensures OverlayOf(ds, a) == NO_CHANGE
  {
    OverlayNoChange(NO_CHANGE);
    if ds != [] {
      var prefix, last := ds[..|ds| - 1], ds[|ds| - 1];
      assert ds == prefix + [last];
      assert last in ds && forall d <- prefix :: d in ds;
      UntouchedOverlay(prefix, a);
    }
  }

  // Exactly what consolidation computes: split the revisions at the newest
  // deletion of an account, which ends the older part, or take them all as newer
  // when none deletes it. The merged delta says what the newer part says.
  lemma {:induction false} MergedExactly(older: seq<Delta>, newer: seq<Delta>, a: Addr)
    requires older != [] ==> a in older[|older| - 1].deleted
    requires forall d <- newer :: a !in d.deleted
    ensures SaysExactly(ApplyAll(older + newer), a, newer, older != [])
    decreases |newer|
  {
    hide Overlay, Apply, SaysExactly;
    if newer == [] {
      assert older + newer == older;
      if older != [] {
        ApplyAt(ApplyAll(older[..|older| - 1]), older[|older| - 1], a);
      }
      NothingSaid(ApplyAll(older), a, older != []);
    } else {
      var n := |newer| - 1;
      var before, last := newer[..n], newer[n];
      assert newer == before + [last];
      MergedExactly(older, before, a);
      SaysOneMore(ApplyAll(older + before), a, before, last, older != []);
      ApplyLast(older + before, last);
      assert (older + before) + [last] == older + newer;
    }
  }

  lemma ApplyLast(ds: seq<Delta>, d: Delta)
    ensures ApplyAll(ds + [d]) == Apply(ApplyAll(ds), d)
  {
    hide Apply;
    assert (ds + [d])[..|ds|] == ds;
  }

  // What a merged delta says of one account: the overlay of the revisions newer
  // than its newest deletion, or that it is deleted when none of them lists it.
  ghost predicate SaysExactly(m: Delta, a: Addr, newer: seq<Delta>, wasDeleted: bool) {
    && (a in m.accounts <==> Touched(newer, a))
    && (a in m.accounts ==> m.accounts[a] == OverlayOf(newer, a))
    && (a in m.deleted <==> wasDeleted && !Touched(newer, a))
  }

  lemma NothingSaid(m: Delta, a: Addr, wasDeleted: bool)
    requires a !in m.accounts && (a in m.deleted <==> wasDeleted)
    ensures SaysExactly(m, a, [], wasDeleted)
  {
  }

  lemma SaysOneMore(m: Delta, a: Addr, newer: seq<Delta>, d: Delta, wasDeleted: bool)
    requires SaysExactly(m, a, newer, wasDeleted)
    requires a !in d.deleted
    ensures SaysExactly(Apply(m, d), a, newer + [d], wasDeleted)
  {
    hide Overlay, Apply, Touched;
    ApplyAt(m, d, a);
    TouchedMore(newer, d, a);
    assert (newer + [d])[..|newer|] == newer;
    if !Touched(newer, a) {
      UntouchedOverlay(newer, a);
    }
  }

  // One account in one round of merging.
  lemma ApplyAt(acc: Delta, d: Delta, a: Addr)
    ensures var m := Apply(acc, d);
      && (a in m.deleted <==> a in d.deleted || (a in acc.deleted && a !in d.accounts))
      && (a in m.accounts <==> a !in m.deleted && (a in acc.accounts || a in d.accounts))
      && (a in m.accounts ==> m.accounts[a] == Overlay(acc.At(a), d.At(a)))
  {
    hide Overlay;
    OverlayNoChange(acc.At(a));
  }

  lemma TouchedMore(ds: seq<Delta>, d: Delta, a: Addr)
    ensures Touched(ds + [d], a) <==> Touched(ds, a) || a in d.accounts
  {
    assert d in ds + [d] && forall x <- ds :: x in ds + [d];
  }

  // No account is both listed and deleted; logs are joined oldest first.
  lemma {:induction false} MergedLogs(ds: seq<Delta>)
    ensures ApplyAll(ds).logs == LogsOf(ds)
    ensures ApplyAll(ds).accounts.Keys !! ApplyAll(ds).deleted
  {
    if ds != [] {
      MergedLogs(ds[..|ds| - 1]);
    }
  }

  lemma {:induction false} ConsolidatedDepth(r: Rev, back: Option<nat>)
    ensures Depth(Consolidate(r, back))
         == match back case None => 0 case Some(k) => Depth(r) - Min(k, Depth(r))
  {
    OldestDepth(r, back);
  }

  lemma {:induction false} OldestDepth(r: Rev, back: Option<nat>)
    ensures Depth(Oldest(r, back))
         == match back case None => 0 case Some(k) => Depth(r) - Min(k, Depth(r))
  {
    if r.parent.Internal? && (back.None? || back.value > 0) {
      OldestDepth(r.parent.rev, if back.Some? then Some(back.value - 1) else None);
    }
  }

  // The newest of the deltas that records a field.
  function FindNewest(ds: seq<Delta>, a: Addr, f: Field): Option<Value> {
    if ds == [] then None
    else OrElse(Find(ds[|ds| - 1], a, f), FindNewest(ds[..|ds| - 1], a, f))
  }

  lemma {:induction false} WalkMerged(r: Rev, back: Option<nat>, a: Addr, f: Field)
    ensures Walk(r, a, f)
         == FindNewest(Merged(r, back), a, f).GetOr(WalkSource(Oldest(r, back).parent, a, f))
  {
    hide Find, Read;
    var ds := Merged(r, back);
    FindNewestLast(ds, a, f);
    if r.parent.Internal? && (back.None? || back.value > 0) {
      var rest := if back.Some? then Some(back.value - 1) else None;
      WalkMerged(r.parent.rev, rest, a, f);
      assert ds[..|ds| - 1] == Merged(r.parent.rev, rest);
    } else {
      assert ds[..|ds| - 1] == [];
    }
  }

  lemma FindNewestLast(ds: seq<Delta>, a: Addr, f: Field)
    requires ds != []
    ensures FindNewest(ds, a, f) == OrElse(Find(ds[|ds| - 1], a, f), FindNewest(ds[..|ds| - 1], a, f))
  {
  }

  lemma FindOverlay(older: AccountDelta, newer: AccountDelta, f: Field)
    requires !f.Exists?
    ensures FindIn(Overlay(older, newer), f) == OrElse(FindIn(newer, f), FindIn(older, f))
  {
  }

  // In the overlay of some deltas a field is what the newest of them says.
  lemma {:induction false} FindInOverlay(ds: seq<Delta>, a: Addr, f: Field)
    ensures !f.Exists? ==> FindIn(OverlayOf(ds, a), f) == FindNewest(ds, a, f)
    ensures f.Exists? ==> FindNewest(ds, a, f) == if Touched(ds, a) then Some(Flag(true)) else None
  {
    if ds != [] {
      var prefix, last := ds[..|ds| - 1], ds[|ds| - 1];
      assert ds == prefix + [last];
      FindInOverlay(prefix, a, f);
      TouchedMore(prefix, last, a);
      if !f.Exists? {
        FindOverlay(OverlayOf(prefix, a), last.At(a), f);
      }
    }
  }

  // How many of the deltas, from the oldest up to the newest that deletes the
  // address; none when nothing deletes it.
  function Cut(ds: seq<Delta>, a: Addr): (k: nat)
    ensures k <= |ds| && (k > 0 ==> a in ds[k - 1].deleted)
    ensures forall j | k <= j < |ds| :: a !in ds[j].deleted
  {
    if ds == [] then 0
    else if a in ds[|ds| - 1].deleted then |ds|
    else Cut(ds[..|ds| - 1], a)
  }

  // What consolidation leaves as it was: a field that no merged revision deletes,
  // or only the newest one, or that a revision after the newest deletion records;
  // or else one for which what lies under those revisions reads as what will lie
  // there, the deleted account when none of them lists it.
  ghost predicate Outlasts(r: Rev, back: Option<nat>, a: Addr, f: Field) {
    var ds := Merged(r, back);
    var k, bottom := Cut(ds, a), WalkSource(Oldest(r, back).parent, a, f);
    || k == 0 || k == |ds|
    || FindNewest(ds[k..], a, f).Some?
    || FindNewest(ds[..k], a, f).GetOr(bottom)
       == if Touched(ds[k..], a) then bottom else Read(EMPTY_WORLD, a, f)
  }

  // Exactly when consolidation, however far back, keeps the answer of a getter.
  lemma ConsolidationExactly(r: Rev, back: Option<nat>, a: Addr, f: Field)
    ensures Get(Consolidate(r, back), a, f) == Get(r, a, f) <==> Outlasts(r, back, a, f)
  {
    hide Get, Consolidate, Merged, WalkSource, Read, FindNewest, Touched, Cut, Outlasts;
    GetBefore(r, back, a, f);
    GetAfter(r, back, a, f);
    OutlastsIs(r, back, a, f);
    assert Merged(r, back)[..0] == [];
    NothingFound(a, f);
  }

  lemma NothingFound(a: Addr, f: Field)
    ensures FindNewest([], a, f) == None
  {
  }

  // What the consolidated revision answers, by the revisions up to the newest
  // deletion, those after it, and what lies below them all.
  lemma GetAfter(r: Rev, back: Option<nat>, a: Addr, f: Field)
    ensures var ds := Merged(r, back);
      var k := Cut(ds, a);
      && (FindNewest(ds[k..], a, f).Some? ==> Touched(ds[k..], a))
      && (k == |ds| ==> !Touched(ds[k..], a))
      && Get(Consolidate(r, back), a, f)
         == if k > 0 && !Touched(ds[k..], a) then Read(EMPTY_WORLD, a, f)
            else FindNewest(ds[k..], a, f).GetOr(WalkSource(Oldest(r, back).parent, a, f))
  {
    hide Get, Consolidate, Merged, ApplyAll, WalkSource, Read, FindNewest, Cut, SaysExactly;
    var ds := Merged(r, back);
    var k := Cut(ds, a);
    assert ds == ds[..k] + ds[k..];
    ConsolidateIs(r, back);
    NewerKeep(ds, a);
    MergedExactly(ds[..k], ds[k..], a);
    MergedGets(Oldest(r, back).parent, ApplyAll(ds), ds[..k], ds[k..], a, f);
    NewestOfBoth([], ds[k..], a, f);
  }

  // What the revision answers, by the same parts.
  lemma GetBefore(r: Rev, back: Option<nat>, a: Addr, f: Field)
    ensures var ds := Merged(r, back);
      var k := Cut(ds, a);
      Get(r, a, f)
        == if k == |ds| then Read(EMPTY_WORLD, a, f)
           else FindNewest(ds[k..], a, f).GetOr(
             FindNewest(ds[..k], a, f).GetOr(WalkSource(Oldest(r, back).parent, a, f)))
  {
    hide Get, Consolidate, WalkSource, Walk, Read, FindNewest, Cut;
    var ds := Merged(r, back);
    var k := Cut(ds, a);
    if k == |ds| {
      GetDeleted(r, a, f);
    } else {
      GetFound(r, a, f);
      WalkMerged(r, back, a, f);
      assert ds == ds[..k] + ds[k..];
      NewestOfBoth(ds[..k], ds[k..], a, f);
    }
  }

  lemma OutlastsIs(r: Rev, back: Option<nat>, a: Addr, f: Field)
    ensures var ds := Merged(r, back);
      var k, bottom := Cut(ds, a), WalkSource(Oldest(r, back).parent, a, f);
      Outlasts(r, back, a, f) <==>
        || k == 0 || k == |ds|
        || FindNewest(ds[k..], a, f).Some?
        || FindNewest(ds[..k], a, f).GetOr(bottom)
           == if Touched(ds[k..], a) then bottom else Read(EMPTY_WORLD, a, f)
  {
  }

  lemma NewerKeep(ds: seq<Delta>, a: Addr)
    ensures var k := Cut(ds, a);
      && (ds[..k] != [] ==> a in ds[..k][k - 1].deleted)
      && (forall d <- ds[k..] :: a !in d.deleted)
  {
  }

  // What the consolidated revision answers.
  lemma MergedGets(bottom: Source, m: Delta, older: seq<Delta>, newer: seq<Delta>, a: Addr, f: Field)
    requires SaysExactly(m, a, newer, older != [])
    ensures Get(Rev(bottom, m), a, f)
         == if older != [] && !Touched(newer, a) then Read(EMPTY_WORLD, a, f)
            else FindNewest(newer, a, f).GetOr(WalkSource(bottom, a, f))
  {
    hide Overlay, Read;
    FindInOverlay(newer, a, f);
    if !Touched(newer, a) {
      UntouchedOverlay(newer, a);
    }
  }

  lemma {:induction false} NewestOfBoth(older: seq<Delta>, newer: seq<Delta>, a: Addr, f: Field)
    ensures FindNewest(older + newer, a, f) == OrElse(FindNewest(newer, a, f), FindNewest(older, a, f))
    ensures FindNewest(newer, a, f).Some? ==> Touched(newer, a)
    decreases |newer|
  {
    hide Find, Touched;
    if newer == [] {
      assert older + newer == older;
    } else {
      var n := |newer| - 1;
      assert newer == newer[..n] + [newer[n]];
      assert (older + newer)[..|older| + n] == older + newer[..n];
      NewestOfBoth(older, newer[..n], a, f);
      TouchedMore(newer[..n], newer[n], a);
      FoundListed(newer[n], a, f);
    }
  }

  lemma FoundListed(d: Delta, a: Addr, f: Field)
    ensures Find(d, a, f).Some? ==> a in d.accounts
  {
  }

  ghost predicate DeletedBelow(ds: seq<Delta>, a: Addr) {
    exists j | 0 <= j < |ds| - 1 :: a in ds[j].deleted
  }

  // So it changes no getter for an address that is not deleted in a merged
  // revision below the newest.
  lemma ConsolidationKeepsGetters(r: Rev, back: Option<nat>, a: Addr, f: Field)
    requires !DeletedBelow(Merged(r, back), a)
    ensures Get(Consolidate(r, back), a, f) == Get(r, a, f)
  {
    hide Get, Consolidate, Merged, WalkSource, Read, FindNewest;
    ConsolidationExactly(r, back, a, f);
    var ds := Merged(r, back);
    var k := Cut(ds, a);
    assert k == 0 || k == |ds|;
  }

  lemma ConsolidateIs(r: Rev, back: Option<nat>)
    ensures Consolidate(r, back) == Rev(Oldest(r, back).parent, ApplyAll(Merged(r, back)))
  {
  }

  lemma GetDeleted(r: Rev, a: Addr, f: Field)
    requires a in r.delta.deleted
    ensures Get(r, a, f) == Read(EMPTY_WORLD, a, f)
  {
  }

  lemma GetFound(r: Rev, a: Addr, f: Field)
    requires a !in r.delta.deleted
    ensures Get(r, a, f) == Walk(r, a, f) == Find(r.delta, a, f).GetOr(WalkSource(r.parent, a, f))
  {
    hide Read, Find;
  }
}
