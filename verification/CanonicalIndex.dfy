// The canonical index (examples/demo.rs): the path from the genesis block to the
// tail, kept as an array by height and persisted entry by entry.
module CanonicalIndex {
  import opened Common
  import opened BlockTree

  // ---------- paths ----------

  // The block and its ancestors are known and numbered down to zero. No hash is
  // zero: looking one up that is would abort.
  ghost predicate Path(known: Blocks, b: Block)
    decreases b.number
  {
    && b.hash != 0 && b.hash in known && known[b.hash] == b
    && (b.number > 0 ==>
          b.parent in known && known[b.parent].hash == b.parent
          && known[b.parent].number == b.number - 1 && Path(known, known[b.parent]))
  }

  ghost function Ancestor(known: Blocks, b: Block, height: nat): (r: Block)
    requires Path(known, b) && height <= b.number
    ensures r.number == height && Path(known, r)
    decreases b.number
  {
    if b.number == height then b else Ancestor(known, known[b.parent], height)
  }

  // The array holds known blocks by height, each the parent of the next.
  ghost predicate Linked(known: Blocks, indexed: seq<Option<Block>>) {
    && (forall i | 0 <= i < |indexed| :: indexed[i].Some? && indexed[i].value.number == i && Path(known, indexed[i].value))
    && (forall i | 0 < i < |indexed| :: indexed[i].value.parent == indexed[i - 1].value.hash)
  }

  // The array is the ancestor path of the tail.
  ghost predicate IsPathOf(known: Blocks, indexed: seq<Option<Block>>, tail: Block)
    requires Path(known, tail)
  {
    && |indexed| == tail.number + 1
    && forall i | 0 <= i < |indexed| :: indexed[i] == Some(Ancestor(known, tail, i))
  }

  // What a linked array holds below one of its blocks are that block's ancestors.
  lemma {:induction false} LinkedBelow(known: Blocks, indexed: seq<Option<Block>>, top: nat, i: nat)
    requires Linked(known, indexed) && i <= top < |indexed|
    ensures indexed[i] == Some(Ancestor(known, indexed[top].value, i))
    decreases top
  {
    if i < top {
      assert known[indexed[top].value.parent] == indexed[top - 1].value;
      LinkedBelow(known, indexed, top - 1, i);
    }
  }

  // An ancestor's ancestors are the block's.
  lemma {:induction false} AncestorOfAncestor(known: Blocks, b: Block, top: nat, i: nat)
    requires Path(known, b) && i <= top <= b.number
    ensures Ancestor(known, Ancestor(known, b, top), i) == Ancestor(known, b, i)
    decreases b.number
  {
    if top < b.number {
      AncestorOfAncestor(known, known[b.parent], top, i);
    }
  }

  lemma AncestorParent(known: Blocks, b: Block, i: nat)
    requires Path(known, b) && 0 < i <= b.number
    ensures Ancestor(known, b, i).parent == Ancestor(known, b, i - 1).hash
    ensures Ancestor(known, b, i).parent in known
    ensures known[Ancestor(known, b, i).parent] == Ancestor(known, b, i - 1)
  {
    AncestorOfAncestor(known, b, i, i - 1);
  }

  lemma PathIsLinked(known: Blocks, indexed: seq<Option<Block>>, tail: Block)
    requires Path(known, tail) && IsPathOf(known, indexed, tail)
    ensures Linked(known, indexed)
  {
    forall i | 0 < i < |indexed| ensures indexed[i].value.parent == indexed[i - 1].value.hash {
      AncestorParent(known, tail, i);
    }
  }

  // ---------- the persisted keys ----------

  const LEN_BYTES: nat := 8

  // Key 0 holds the length, key i + 1 the hash of entry i.
  ghost predicate Stored(db: map<nat, Bytes>, indexed: seq<Option<Block>>) {
    && |indexed| < TWO_64
    && 0 in db && db[0] == ToLE(|indexed|, LEN_BYTES)
    && forall i | 0 <= i < |indexed| :: indexed[i].Some? && HasKey(db, i, indexed[i].value)
  }

  predicate HasKey(db: map<nat, Bytes>, i: nat, b: Block) {
    i + 1 in db && db[i + 1] == ToBE(b.hash, WORD_BYTES)
  }

  // While the walk is at entry i: the entries above are written, to the array and
  // to the batch of keys; the others are still those of the old array.
  ghost predicate Walked(known: Blocks, tail: Block, was: seq<Option<Block>>,
                         indexed: seq<Option<Block>>, batch: map<nat, Bytes>, i: int)
    requires Path(known, tail) && -1 <= i <= tail.number
  {
    && |indexed| == tail.number + 1
    && (forall j | i < j < |indexed| :: indexed[j] == Some(Ancestor(known, tail, j)))
    && (forall j | 0 <= j <= i :: indexed[j] == if j < |was| then was[j] else None)
    && 0 in batch && batch[0] == ToLE(|indexed|, LEN_BYTES)
    && (forall j | i < j < |indexed| :: HasKey(batch, j, indexed[j].value))
    && (forall k <- batch :: k == 0 || k > i + 1)
  }

  lemma WalkStarts(known: Blocks, tail: Block, was: seq<Option<Block>>, indexed: seq<Option<Block>>, batch: map<nat, Bytes>)
    requires Path(known, tail)
    requires |indexed| == tail.number + 1 && batch == map[0 := ToLE(|indexed|, LEN_BYTES)]
    requires forall j | 0 <= j < |indexed| :: indexed[j] == if j < |was| then was[j] else None
    ensures Walked(known, tail, was, indexed, batch, tail.number)
  {
  }

  lemma WalkOneMore(known: Blocks, tail: Block, was: seq<Option<Block>>, indexed: seq<Option<Block>>,
                    batch: map<nat, Bytes>, i: nat)
    requires Path(known, tail) && i <= tail.number
    requires Walked(known, tail, was, indexed, batch, i)
    ensures var here := Ancestor(known, tail, i);
      && |indexed| > i
      && Walked(known, tail, was, indexed[i := Some(here)], batch[i + 1 := ToBE(here.hash, WORD_BYTES)], i - 1)
  {
    hide ToLE, ToBE, Ancestor, Path;
    var here := Ancestor(known, tail, i);
    var indexed', batch' := indexed[i := Some(here)], batch[i + 1 := ToBE(here.hash, WORD_BYTES)];
    assert forall j | i < j < |indexed| :: HasKey(batch', j, indexed[j].value);
    assert forall k <- batch' :: k == 0 || k > i;
  }

  // The walk may stop at an entry that is already right.
  lemma StopsRight(known: Blocks, tail: Block, was: seq<Option<Block>>, indexed: seq<Option<Block>>,
                   batch: map<nat, Bytes>, db: map<nat, Bytes>, i: int)
    requires Path(known, tail) && tail.number + 1 < TWO_64 && -1 <= i <= tail.number
    requires Linked(known, was) && Stored(db, was)
    requires Walked(known, tail, was, indexed, batch, i)
    requires i >= 0 ==> indexed[i].Some? && indexed[i].value.hash == Ancestor(known, tail, i).hash
    ensures IsPathOf(known, indexed, tail) && Stored(db + batch, indexed)
  {
    forall j | 0 <= j <= i ensures indexed[j] == Some(Ancestor(known, tail, j)) {
      assert Path(known, was[i].value);
      LinkedBelow(known, was, i, j);
      AncestorOfAncestor(known, tail, i, j);
    }
    forall j | 0 <= j < |indexed| ensures HasKey(db + batch, j, indexed[j].value) {
      if j <= i {
        assert j + 1 !in batch && HasKey(db, j, was[j].value);
      } else {
        assert HasKey(batch, j, indexed[j].value);
      }
    }
  }

  class DemoChainState {
    const base: Block
    var known: Blocks
    var indexed: seq<Option<Block>>
    var batch: map<nat, Bytes>
    var db: map<nat, Bytes>

    ghost predicate Valid() reads this {
      && Linked(known, indexed) && Stored(db, indexed) && batch == map[]
      && indexed != [] && indexed[0] == Some(base)
    }

    // Looking up zero aborts; an unknown block is not found.
    method GetBlockByHash(hash: U256) returns (b: Option<Block>)
      requires hash != 0
      ensures b == if hash in known then Some(known[hash]) else None
    {
      b := if hash in known then Some(known[hash]) else None;
    }

    method GetKnown(hash: U256) returns (b: Block)
      requires hash != 0 && hash in known
      ensures b == known[hash]
    {
      var found := GetBlockByHash(hash);
      b := found.value;
    }

    method PutIndex(key: nat, val: Bytes)
      modifies this`batch
      ensures batch == old(batch)[key := val]
    {
      batch := batch[key := val];
    }

    method CommitWriteBatch()
      modifies this`batch, this`db
      ensures db == old(db + batch) && batch == map[]
    {
      db := db + batch;
      batch := map[];
    }

    // Walks from the new tail towards the genesis block and stops at the first
    // entry that is already right; yet every entry is right in the end, and the
    // persisted keys with them.
    method SetCanonicalTail(tail: Block)
      requires Valid() && Path(known, tail) && tail.number + 1 < TWO_64
      requires Ancestor(known, tail, 0) == base
      modifies this`indexed, this`batch, this`db
      ensures Valid()
      ensures IsPathOf(known, indexed, tail)
    {
      hide Walked, Linked, Stored, IsPathOf;
      var n := tail.number + 1;
      ghost var was := indexed;
      indexed := if n <= |indexed| then indexed[..n] else indexed + seq(n - |indexed|, _ => None);
      PutIndex(0, ToLE(n, LEN_BYTES));
      var next := tail;
      var i: int := n - 1;
      WalkStarts(known, tail, was, indexed, batch);
      while i >= 0
        invariant -1 <= i < n && |indexed| == n
        invariant i >= 0 ==> next == Ancestor(known, tail, i)
        invariant Walked(known, tail, was, indexed, batch, i) && db == old(db)
      {
        var hash := next.hash;
        if indexed[i].Some? && indexed[i].value.hash == hash {
          break;
        }
        WalkOneMore(known, tail, was, indexed, batch, i);
        PutIndex(i + 1, ToBE(hash, WORD_BYTES));
        var block := GetBlockByHash(hash);
        indexed := indexed[i := block];
        i := i - 1;
        if next.number == 0 {
          break;
        }
        AncestorParent(known, tail, next.number);
        next := GetKnown(next.parent);
      }
      StopsRight(known, tail, was, indexed, batch, db, i);
      PathIsLinked(known, indexed, tail);
      CommitWriteBatch();
    }

    // Reading the index back when the node starts.
    method Reload()
      requires Valid()
      modifies this`indexed
      ensures indexed == old(indexed)
    {
      ghost var was := indexed;
      Pow256Words();
      LERoundTrip(|was|, LEN_BYTES);
      var len := FromLE(db[0]);
      indexed := [Some(base)];
      var i := 1;
      while i < len
        invariant 1 <= i <= |was| && indexed == was[..i]
      {
        var block := None;
        BERoundTrip(was[i].value.hash, WORD_BYTES);
        assert HasKey(db, i, was[i].value);
        if i + 1 in db {
          block := GetBlockByHash(FromBE(db[i + 1]));
        }
        indexed := indexed + [block];
        i := i + 1;
      }
      assert was[..i] == was;
    }
  }
}
