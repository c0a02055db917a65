// The block tree (src/chain.rs): blocks linked to the base by their parents are
// attached, the others wait as orphans until their parent arrives.
module BlockTree {
  import opened Common

  datatype Block = Block(number: U256, parent: U256, hash: U256)

  type Blocks = map<U256, Block>

  // ---------- what attached means ----------

  // h leads to the base in at most n parent links within the known blocks.
  ghost predicate Reaches(all: Blocks, base: U256, h: U256, n: nat)
    decreases n
  {
    h in all && (h == base || (n > 0 && Reaches(all, base, all[h].parent, n - 1)))
  }

  ghost predicate Reachable(all: Blocks, base: U256, h: U256) {
    exists n: nat :: Reaches(all, base, h, n)
  }

  ghost predicate ByHash(blocks: Blocks) {
    forall h <- blocks :: blocks[h].hash == h
  }

  // A block with a hash already known is not taken again.
  function Adding(all: Blocks, b: Block): Blocks {
    if b.hash in all then all else all[b.hash := b]
  }

  function AddingAll(all: Blocks, bs: seq<Block>): Blocks
    decreases |bs|
  {
    if bs == [] then all else AddingAll(Adding(all, bs[0]), bs[1..])
  }

  // The attached blocks are exactly those that lead to the base; the orphans are
  // the rest.
  ghost predicate Settled(base: Block, attached: Blocks, orphans: Blocks) {
    && ByHash(attached) && ByHash(orphans) && attached.Keys !! orphans.Keys
    && base.hash in attached && attached[base.hash] == base
    && forall h: U256 :: h in attached <==> Reachable(attached + orphans, base.hash, h)
  }

  // Every attached block leads to the base, and no orphan's parent is attached.
  ghost predicate Closed(base: Block, attached: Blocks, orphans: Blocks) {
    && ByHash(attached) && ByHash(orphans) && attached.Keys !! orphans.Keys
    && base.hash in attached && attached[base.hash] == base
    && (forall h <- attached :: Reachable(attached + orphans, base.hash, h))
    && (forall o <- orphans :: orphans[o].parent !in attached)
  }

  lemma ClosedIsSettled(base: Block, attached: Blocks, orphans: Blocks)
    ensures Closed(base, attached, orphans) <==> Settled(base, attached, orphans)
  {
    var all := attached + orphans;
    if Closed(base, attached, orphans) {
      forall h: U256 | Reachable(all, base.hash, h) ensures h in attached {
        var n: nat :| Reaches(all, base.hash, h, n);
        ReachesOnlyAttached(base, attached, orphans, h, n);
      }
    }
    if Settled(base, attached, orphans) {
      forall o <- orphans ensures orphans[o].parent !in attached {
        if orphans[o].parent in attached {
          OneLink(all, base.hash, o);
        }
      }
    }
  }

  lemma {:induction false} ReachesOnlyAttached(base: Block, attached: Blocks, orphans: Blocks, h: U256, n: nat)
    requires Closed(base, attached, orphans)
    requires Reaches(attached + orphans, base.hash, h, n)
    ensures h in attached
    decreases n
  {
    if h != base.hash {
      ReachesOnlyAttached(base, attached, orphans, (attached + orphans)[h].parent, n - 1);
    }
  }

  // The way to the base from an attached block passes attached blocks only.
  lemma {:induction false} ReachesWithin(base: Block, attached: Blocks, orphans: Blocks, h: U256, n: nat)
    requires Closed(base, attached, orphans)
    requires h in attached && Reaches(attached + orphans, base.hash, h, n)
    ensures Reaches(attached, base.hash, h, n)
    decreases n
  {
    if h != base.hash {
      var p := attached[h].parent;
      assert (attached + orphans)[h] == attached[h];
      ReachesOnlyAttached(base, attached, orphans, p, n - 1);
      ReachesWithin(base, attached, orphans, p, n - 1);
    }
  }

  lemma SettledParts(base: Block, attached: Blocks, orphans: Blocks)
    requires Settled(base, attached, orphans)
    ensures attached.Keys !! orphans.Keys
  {
  }

  lemma OneLink(all: Blocks, base: U256, h: U256)
    requires h in all && Reachable(all, base, all[h].parent)
    ensures Reachable(all, base, h)
  {
    var n: nat :| Reaches(all, base, all[h].parent, n);
    assert Reaches(all, base, h, n + 1);
  }

  // More known blocks keep every way to the base.
  lemma {:induction false} ReachesMore(all: Blocks, more: Blocks, base: U256, h: U256, n: nat)
    requires Reaches(all, base, h, n)
    requires forall k <- all :: k in more && more[k] == all[k]
    ensures Reaches(more, base, h, n)
    decreases n
  {
    if h != base {
      ReachesMore(all, more, base, all[h].parent, n - 1);
    }
  }

  lemma ReachableMore(all: Blocks, more: Blocks, base: U256, h: U256)
    requires Reachable(all, base, h)
    requires forall k <- all :: k in more && more[k] == all[k]
    ensures Reachable(more, base, h)
  {
    var n: nat :| Reaches(all, base, h, n);
    ReachesMore(all, more, base, h, n);
  }

  // The known blocks alone decide which are attached.
  lemma SettledOnce(base: Block, attached: Blocks, orphans: Blocks, attached': Blocks, orphans': Blocks)
    requires Settled(base, attached, orphans) && Settled(base, attached', orphans')
    requires attached + orphans == attached' + orphans'
    ensures attached == attached' && orphans == orphans'
  {
    var all := attached + orphans;
    forall h: U256 ensures h in attached <==> h in attached' {
      assert h in attached <==> Reachable(all, base.hash, h);
    }
    forall h <- attached ensures attached[h] == attached'[h] {
      assert all[h] == attached[h] && (attached' + orphans')[h] == attached'[h];
    }
    forall h: U256 ensures h in orphans <==> h in orphans' {
      assert h in all <==> h in attached || h in orphans;
    }
    forall h <- orphans ensures orphans[h] == orphans'[h] {
      assert all[h] == orphans[h] && (attached' + orphans')[h] == orphans'[h];
    }
  }

  lemma {:induction false} AddingAllGives(all: Blocks, bs: seq<Block>)
    requires ByHash(all)
    ensures ByHash(AddingAll(all, bs))
    ensures forall h: U256 :: h in AddingAll(all, bs) <==> h in all || exists b <- bs :: b.hash == h
    ensures forall h <- all :: AddingAll(all, bs)[h] == all[h]
    ensures forall h <- AddingAll(all, bs) | h !in all :: AddingAll(all, bs)[h] in bs
    decreases |bs|
  {
    if bs != [] {
      AddingAllGives(Adding(all, bs[0]), bs[1..]);
      assert bs == [bs[0]] + bs[1..];
      forall h: U256 ensures h in AddingAll(all, bs) <==> h in all || exists b <- bs :: b.hash == h {
        if b :| b in bs && b.hash == h {
          assert b == bs[0] || b in bs[1..];
        }
      }
    }
  }

  // Blocks with distinct hashes may be added in any order, and more than once:
  // the same blocks are known in the end, and so the same ones attached.
  lemma AnyOrder(base: Block, bs: seq<Block>, cs: seq<Block>,
                 attached: Blocks, orphans: Blocks, attached': Blocks, orphans': Blocks)
    requires forall b :: b in bs <==> b in cs
    requires forall b <- bs, c <- bs :: b.hash == c.hash ==> b == c
    requires Settled(base, attached, orphans) && attached + orphans == AddingAll(map[base.hash := base], bs)
    requires Settled(base, attached', orphans') && attached' + orphans' == AddingAll(map[base.hash := base], cs)
    ensures attached == attached' && orphans == orphans'
  {
    hide Settled, AddingAll;
    SameKnown(map[base.hash := base], bs, cs);
    SettledOnce(base, attached, orphans, attached', orphans');
  }

  lemma SameKnown(start: Blocks, bs: seq<Block>, cs: seq<Block>)
    requires ByHash(start)
    requires forall b :: b in bs <==> b in cs
    requires forall b <- bs, c <- bs :: b.hash == c.hash ==> b == c
    ensures AddingAll(start, bs) == AddingAll(start, cs)
  {
    hide AddingAll;
    var all, all' := AddingAll(start, bs), AddingAll(start, cs);
    AddingAllGives(start, bs);
    AddingAllGives(start, cs);
    forall h: U256 ensures h in all <==> h in all' {
    }
    forall h <- all ensures all[h] == all'[h] {
      if h !in start {
        assert all[h] in bs && all'[h] in bs;
      }
    }
  }

  lemma AddedOne(attached: Blocks, orphans: Blocks, attached': Blocks, orphans': Blocks, b: Block)
    requires attached.Keys !! orphans.Keys && attached'.Keys !! orphans'.Keys
    requires b.hash !in attached + orphans && attached' + orphans' == (attached + orphans)[b.hash := b]
    ensures |attached'| + |orphans'| == |attached| + |orphans| + 1
  {
    CountAll(attached, orphans);
    CountAll(attached', orphans');
    OneMore(attached + orphans, b);
  }

  lemma CountAll(attached: Blocks, orphans: Blocks)
    requires attached.Keys !! orphans.Keys
    ensures |attached + orphans| == |attached| + |orphans|
  {
    assert (attached + orphans).Keys == attached.Keys + orphans.Keys;
    assert |(attached + orphans).Keys| == |attached.Keys| + |orphans.Keys|;
  }

  lemma OneMore(all: Blocks, b: Block)
    requires b.hash !in all
    ensures |all[b.hash := b]| == |all| + 1
  {
    assert all[b.hash := b].Keys == all.Keys + {b.hash};
    assert |all[b.hash := b].Keys| == |all.Keys| + 1;
  }

  // ---------- the tree as the source keeps it ----------

  // The waiting lists hold each orphan once, under its parent.
  ghost predicate Waiting(orphans: Blocks, orphanOn: map<U256, seq<U256>>) {
    && (forall p <- orphanOn :: Lists(orphans, p, orphanOn[p]))
    && (forall o <- orphans :: orphans[o].parent in orphanOn && o in orphanOn[orphans[o].parent])
  }

  ghost predicate Lists(orphans: Blocks, p: U256, list: seq<U256>) {
    && (forall o <- list :: o in orphans && orphans[o].parent == p)
    && (forall i, j | 0 <= i < j < |list| :: list[i] != list[j])
  }

  lemma WaitsToo(orphans: Blocks, orphanOn: map<U256, seq<U256>>, block: Block)
    requires Waiting(orphans, orphanOn) && block.hash !in orphans
    ensures var p := block.parent;
      Waiting(orphans[block.hash := block],
              orphanOn[p := (if p in orphanOn then orphanOn[p] else []) + [block.hash]])
  {
    var p, orphans' := block.parent, orphans[block.hash := block];
    var before := if p in orphanOn then orphanOn[p] else [];
    var orphanOn' := orphanOn[p := before + [block.hash]];
    forall q <- orphanOn' ensures Lists(orphans', q, orphanOn'[q]) {
      assert q in orphanOn ==> Lists(orphans, q, orphanOn[q]);
    }
    forall o <- orphans' ensures orphans'[o].parent in orphanOn' && o in orphanOn'[orphans'[o].parent] {
      if o == block.hash {
        assert orphanOn'[p][|before|] == o;
      } else if orphans[o].parent == p {
        assert o in before;
      }
    }
  }

  // As Closed, but orphans may still wait for blocks in the queue.
  ghost predicate Pending(base: Block, attached: Blocks, orphans: Blocks, queue: seq<U256>) {
    && ByHash(attached) && ByHash(orphans) && attached.Keys !! orphans.Keys
    && base.hash in attached && attached[base.hash] == base
    && (forall h <- attached :: Reachable(attached + orphans, base.hash, h))
    && (forall u <- queue :: u in attached)
    && (forall o <- orphans :: orphans[o].parent in attached ==> orphans[o].parent in queue)
  }

  // ---------- one step of attaching ----------

  lemma OrphanStep(base: Block, attached: Blocks, orphans: Blocks, block: Block)
    requires Closed(base, attached, orphans)
    requires block.hash !in attached + orphans && block.parent !in attached
    ensures Closed(base, attached, orphans[block.hash := block])
    ensures attached + orphans[block.hash := block] == (attached + orphans)[block.hash := block]
  {
    var known := (attached + orphans)[block.hash := block];
    assert attached + orphans[block.hash := block] == known;
    forall h <- attached ensures Reachable(known, base.hash, h) {
      ReachableMore(attached + orphans, known, base.hash, h);
    }
  }

  lemma AttachStep(base: Block, attached: Blocks, orphans: Blocks, block: Block)
    requires Closed(base, attached, orphans)
    requires block.hash !in attached + orphans && block.parent in attached
    ensures Pending(base, attached[block.hash := block], orphans, [block.hash])
    ensures attached[block.hash := block] + orphans == (attached + orphans)[block.hash := block]
  {
    hide Reachable;
    var known := (attached + orphans)[block.hash := block];
    assert attached[block.hash := block] + orphans == known;
    forall h <- attached ensures Reachable(known, base.hash, h) {
      ReachableMore(attached + orphans, known, base.hash, h);
    }
    OneLink(known, base.hash, block.hash);
  }

  lemma MoveStep(base: Block, attached: Blocks, orphans: Blocks, u: U256, q: seq<U256>, o: U256)
    requires Pending(base, attached, orphans, [u] + q)
    requires o in orphans && orphans[o].parent == u
    ensures Pending(base, attached[o := orphans[o]], orphans - {o}, [u] + (q + [o]))
    ensures attached[o := orphans[o]] + (orphans - {o}) == attached + orphans
  {
    hide Reachable;
    var known := attached + orphans;
    var attached', orphans', q' := attached[o := orphans[o]], orphans - {o}, [u] + (q + [o]);
    assert attached' + orphans' == known;
    assert u in [u] + q;
    OneLink(known, base.hash, o);
    assert forall v :: v in q' <==> v in [u] + q || v == o;
  }

  lemma WaitsLess(orphans: Blocks, orphanOn: map<U256, seq<U256>>, u: U256, list: seq<U256>)
    requires list != [] && Waiting(orphans, orphanOn[u := list])
    ensures list[0] in orphans && orphans[list[0]].parent == u
    ensures Waiting(orphans - {list[0]}, orphanOn[u := list[1..]])
  {
    var before, after, o := orphanOn[u := list], orphanOn[u := list[1..]], list[0];
    assert list == [o] + list[1..];
    assert Lists(orphans, u, before[u]);
    forall p <- after ensures Lists(orphans - {o}, p, after[p]) {
      assert Lists(orphans, p, before[p]);
    }
    forall x <- orphans - {o} ensures orphans[x].parent in after && x in after[orphans[x].parent] {
      assert x in before[orphans[x].parent];
    }
  }

  lemma NoneWaiting(base: Block, attached: Blocks, orphans: Blocks, orphanOn: map<U256, seq<U256>>, u: U256, q: seq<U256>)
    requires Pending(base, attached, orphans, [u] + q)
    requires u !in orphanOn && (Waiting(orphans, orphanOn) || Waiting(orphans, orphanOn[u := []]))
    ensures Pending(base, attached, orphans, q) && Waiting(orphans, orphanOn)
  {
    hide Reachable;
    assert forall o <- orphans :: orphans[o].parent != u;
    assert forall v <- q :: v in [u] + q;
    if Waiting(orphans, orphanOn[u := []]) {
      var more := orphanOn[u := []];
      assert forall p <- orphanOn :: p in more && more[p] == orphanOn[p];
    }
  }

  lemma NonePending(base: Block, attached: Blocks, orphans: Blocks)
    requires Pending(base, attached, orphans, [])
    ensures Settled(base, attached, orphans)
  {
    hide Reachable;
    assert Closed(base, attached, orphans);
    ClosedIsSettled(base, attached, orphans);
  }

  class Chain {
    const base: Block
    var attached: Blocks
    var orphans: Blocks
    var orphanOn: map<U256, seq<U256>>

    ghost predicate Valid() reads this {
      Settled(base, attached, orphans) && Waiting(orphans, orphanOn)
    }

    ghost function All(): Blocks reads this { attached + orphans }

    constructor (base: Block)
      ensures Valid() && this.base == base && All() == map[base.hash := base]
    {
      this.base := base;
      attached := map[base.hash := base];
      orphans := map[];
      orphanOn := map[];
      new;
      assert Reaches(attached + orphans, base.hash, base.hash, 0);
      ClosedIsSettled(base, attached, orphans);
    }

    // A block with a known hash changes nothing and yields the known block; a new
    // one is added. With Valid() this says which blocks end up attached.
    method AddBlock(block: Block) returns (r: Block)
      requires Valid()
      modifies this
      ensures Valid()
      ensures All() == Adding(old(All()), block)
      ensures r == if block.hash in old(All()) then old(All())[block.hash] else block
      ensures |attached| + |orphans| == |old(attached)| + |old(orphans)| + if block.hash in old(All()) then 0 else 1
    {
      var h := block.hash;
      hide Settled, Waiting;
      SettledParts(base, attached, orphans);
      if h in attached {
        return attached[h];
      }
      if h in orphans {
        return orphans[h];
      }
      if block.parent !in attached {
        AddOrphan(block);
      } else {
        AttachBlock(block);
      }
      SettledParts(base, attached, orphans);
      AddedOne(old(attached), old(orphans), attached, orphans, block);
      r := block;
    }

    method AddOrphan(block: Block)
      requires Valid()
      requires block.hash !in All() && block.parent !in attached
      modifies this
      ensures Valid() && All() == old(All())[block.hash := block]
    {
      hide Settled, Waiting, Closed;
      ClosedIsSettled(base, attached, orphans);
      OrphanStep(base, attached, orphans, block);
      WaitsToo(orphans, orphanOn, block);
      var p := block.parent;
      orphanOn := orphanOn[p := (if p in orphanOn then orphanOn[p] else []) + [block.hash]];
      orphans := orphans[block.hash := block];
      ClosedIsSettled(base, attached, orphans);
    }

    // Attaches the block, then all orphans that waited for it, theirs, and so on.
    method AttachBlock(block: Block)
      requires Valid()
      requires block.hash !in All() && block.parent in attached
      modifies this
      ensures Valid() && All() == old(All())[block.hash := block]
    {
      hide Settled, Waiting, Closed, Pending;
      ClosedIsSettled(base, attached, orphans);
      AttachStep(base, attached, orphans, block);
      attached := attached[block.hash := block];
      Drain([block.hash]);
    }

    // The worklist: clears the waiting lists of freshly attached blocks.
    method Drain(queue: seq<U256>)
      requires Pending(base, attached, orphans, queue) && Waiting(orphans, orphanOn)
      modifies this
      ensures Valid() && All() == old(All())
    {
      hide Settled, Waiting, Pending;
      var q := queue;
      while q != []
        invariant All() == old(All())
        invariant Pending(base, attached, orphans, q) && Waiting(orphans, orphanOn)
        decreases |orphanOn|, |q|
      {
        var u, rest := q[0], q[1..];
        assert q == [u] + rest;
        if u in orphanOn {
          q := AttachWaiting(u, rest);
        } else {
          NoneWaiting(base, attached, orphans, orphanOn, u, rest);
          q := rest;
        }
      }
      NonePending(base, attached, orphans);
    }

    // Takes the list of orphans waiting for u and attaches each.
    method AttachWaiting(u: U256, queue: seq<U256>) returns (q: seq<U256>)
      requires Pending(base, attached, orphans, [u] + queue) && Waiting(orphans, orphanOn)
      requires u in orphanOn
      modifies this
      ensures All() == old(All())
      ensures Pending(base, attached, orphans, q) && Waiting(orphans, orphanOn)
      ensures orphanOn == old(orphanOn) - {u}
      ensures |orphanOn| < |old(orphanOn)|
    {
      hide Waiting, Pending;
      var waiting := orphanOn[u];
      orphanOn := orphanOn - {u};
      q := queue;
      var i := 0;
      assert waiting[0..] == waiting && orphanOn[u := waiting] == old(orphanOn);
      while i < |waiting|
        invariant 0 <= i <= |waiting|
        invariant All() == old(All())
        invariant orphanOn == old(orphanOn) - {u}
        invariant Pending(base, attached, orphans, [u] + q)
        invariant Waiting(orphans, orphanOn[u := waiting[i..]])
      {
        var o := waiting[i];
        WaitsLess(orphans, orphanOn, u, waiting[i..]);
        assert waiting[i..][1..] == waiting[i + 1..];
        MoveStep(base, attached, orphans, u, q, o);
        attached, orphans := attached[o := orphans[o]], orphans - {o};
        q := q + [o];
        i := i + 1;
      }
      assert waiting[i..] == [];
      NoneWaiting(base, attached, orphans, orphanOn, u, q);
      assert |old(orphanOn)| == |orphanOn| + 1 by {
        assert old(orphanOn).Keys == orphanOn.Keys + {u};
      }
    }

    predicate IsAttached(h: U256) reads this { h in attached }

    // Attached blocks first, then orphans.
    function GetBlock(h: U256): (b: Option<Block>)
      requires Valid()
      reads this
      ensures b == if h in All() then Some(All()[h]) else None
    {
      if h in attached then Some(attached[h]) else if h in orphans then Some(orphans[h]) else None
    }

    method RemoveOrphans()
      requires Valid()
      modifies this
      ensures Valid() && attached == old(attached) && orphans == map[]
    {
      ClosedIsSettled(base, attached, orphans);
      forall h <- attached ensures Reachable(attached, base.hash, h) {
        assert Reachable(All(), base.hash, h);
        var n: nat :| Reaches(All(), base.hash, h, n);
        ReachesWithin(base, attached, orphans, h, n);
      }
      orphans := map[];
      orphanOn := map[];
      assert attached + orphans == attached;
      ClosedIsSettled(base, attached, orphans);
    }

    // Adding a list of blocks one after the other.
    method AddBlocks(blocks: seq<Block>)
      requires Valid()
      modifies this
      ensures Valid() && All() == AddingAll(old(All()), blocks)
    {
      var i := 0;
      while i < |blocks|
        invariant 0 <= i <= |blocks|
        invariant Valid() && AddingAll(All(), blocks[i..]) == AddingAll(old(All()), blocks)
      {
        var _ := AddBlock(blocks[i]);
        i := i + 1;
      }
    }
  }
}
