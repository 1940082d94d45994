/** Full-block operation: extending, reorganising and setting the canonical chain. */
module BlockChain {
  import opened Wrappers
  import opened ChainStore
  import opened ForkChoice

  /** The chains of `a` and `b` meet: `b` is rooted and both end in the same genesis. */
  ghost predicate SameTree(s: Store, a: Block, b: Block)
    requires Rooted(s, a.hash)
  {
    Rooted(s, b.hash) && Ancestry(s, a.hash)[0] == Ancestry(s, b.hash)[0]
  }

  /** `b` is a block of the chain that ends in `a`. */
  ghost predicate OnChain(s: Store, a: Block, b: Block)
    requires Rooted(s, a.hash)
  {
    b.number in Ancestry(s, a.hash) && Ancestry(s, a.hash)[b.number] == b.hash
  }

  /** The block whose ancestry is canonical when a reorganisation hands over to its caller: the
      parent of the new head, or the new head itself when it already was canonical. */
  ghost function NewBase(s: Store, oldHead: Block, newHead: Block): Hash
    requires Rooted(s, oldHead.hash)
  {
    if OnChain(s, oldHead, newHead) then newHead.hash else newHead.parent
  }

  /** `chain` is the stretch from `top` down to just above `bottom`. */
  ghost predicate Walked(s: Store, top: Block, chain: seq<Block>, bottom: Block) {
    Segment(s, chain, bottom) && Top(chain, bottom) == top
  }

  /** Walk the old chain, which is longer, down to the given number, gathering its blocks and
      transactions. */
  method DropTo(s: Store, head: Block, number: nat) returns (b: Block, chain: seq<Block>, txs: seq<Hash>)
    requires WellFormed(s) && Known(s, head) && Rooted(s, head.hash) && number < head.number
    ensures Walked(s, head, chain, b) && b.number == number && Rooted(s, b.hash)
    ensures Elems(txs) == TxsOf(chain)
  {
    b, chain, txs := head, [], [];
    while b.number != number
      invariant Walked(s, head, chain, b) && Rooted(s, b.hash) && b.number >= number
      invariant Elems(txs) == TxsOf(chain)
      decreases b.number
    {
      var next := GetBlock(s, b.parent, b.number - 1);
      SegmentStep(s, chain, b, next.value);
      ElemsConcat(txs, b.txs);
      chain, txs, b := chain + [b], txs + b.txs, next.value;
    }
  }

  /** Walk the new chain down to the given number, stashing its blocks; None when a block is
      missing on the way. */
  method StashTo(s: Store, head: Block, number: nat) returns (b: Option<Block>, chain: seq<Block>)
    requires WellFormed(s) && Known(s, head) && number <= head.number
    ensures b.None? ==> !Rooted(s, head.hash)
    ensures b.Some? ==> Walked(s, head, chain, b.value) && b.value.number == number
    ensures b.Some? ==> (Rooted(s, b.value.hash) <==> Rooted(s, head.hash))
  {
    b, chain := Some(head), [];
    while b.Some? && b.value.number != number
      invariant b.None? ==> !Rooted(s, head.hash)
      invariant b.Some? ==> Walked(s, head, chain, b.value) && b.value.number >= number
      invariant b.Some? ==> (Rooted(s, b.value.hash) <==> Rooted(s, head.hash))
      decreases if b.Some? then b.value.number + 1 else 0
    {
      var next := GetBlock(s, b.value.parent, b.value.number - 1);
      if next.Some? {
        SegmentStep(s, chain, b.value, next.value);
      }
      chain, b := chain + [b.value], next;
    }
  }

  /** Two different blocks at the same number share a tree exactly when their parents do. */
  lemma SameTreeStep(s: Store, o: Block, n: Block)
    requires WellFormed(s) && Known(s, o) && Known(s, n) && Rooted(s, o.hash) && o.number == n.number && o.hash != n.hash
    ensures var p, q := GetBlock(s, o.parent, o.number - 1), GetBlock(s, n.parent, n.number - 1);
      if p.Some? && q.Some? then Rooted(s, p.value.hash) && (SameTree(s, o, n) <==> SameTree(s, p.value, q.value))
      else !SameTree(s, o, n)
  {
  }

  /** From two blocks at the same number, walk both chains down to the block they share. */
  method MeetDown(s: Store, oldHead: Block, newHead: Block)
    returns (common: Option<Block>, oldChain: seq<Block>, newChain: seq<Block>, txs: seq<Hash>)
    requires WellFormed(s) && Known(s, oldHead) && Known(s, newHead) && Rooted(s, oldHead.hash)
    requires oldHead.number == newHead.number
    ensures common.Some? <==> SameTree(s, oldHead, newHead)
    ensures common.Some? ==> Walked(s, oldHead, oldChain, common.value) && Walked(s, newHead, newChain, common.value)
    ensures common.Some? ==> |oldChain| == |newChain| && Rooted(s, common.value.hash)
    ensures common.Some? && oldChain != [] ==> oldChain[|oldChain| - 1].hash != newChain[|newChain| - 1].hash
    ensures common.Some? ==> (newChain == [] <==> oldHead.hash == newHead.hash)
    ensures Elems(txs) == TxsOf(oldChain)
  {
    var o, n := oldHead, newHead;
    oldChain, newChain, txs := [], [], [];
    while o.hash != n.hash
      invariant o.number == n.number && Rooted(s, o.hash)
      invariant Walked(s, oldHead, oldChain, o) && Walked(s, newHead, newChain, n) && |oldChain| == |newChain|
      invariant SameTree(s, o, n) <==> SameTree(s, oldHead, newHead)
      invariant oldChain != [] ==> oldChain[|oldChain| - 1].hash != newChain[|newChain| - 1].hash
      invariant oldChain != [] ==> oldHead.hash != newHead.hash
      invariant Elems(txs) == TxsOf(oldChain)
      decreases o.number
    {
      var nextOld, nextNew := GetBlock(s, o.parent, o.number - 1), GetBlock(s, n.parent, n.number - 1);
      SameTreeStep(s, o, n);
      if nextOld.None? || nextNew.None? {
        return None, oldChain, newChain, txs;
      }
      SegmentStep(s, oldChain, o, nextOld.value);
      SegmentStep(s, newChain, n, nextNew.value);
      ElemsConcat(txs, o.txs);
      oldChain, newChain, txs := oldChain + [o], newChain + [n], txs + o.txs;
      o, n := nextOld.value, nextNew.value;
    }
    common := Some(o);
  }

  /** The read-only half of a reorganisation: the block both chains share, the dropped and the
      added stretch, and the transactions of the dropped one. None is the "invalid chain" error. */
  method FindFork(s: Store, oldHead: Block, newHead: Block)
    returns (common: Option<Block>, oldChain: seq<Block>, newChain: seq<Block>, deletedTxs: seq<Hash>)
    requires WellFormed(s) && Known(s, oldHead) && Known(s, newHead) && Rooted(s, oldHead.hash)
    ensures common.Some? <==> SameTree(s, oldHead, newHead)
    ensures common.Some? ==> Walked(s, oldHead, oldChain, common.value) && Walked(s, newHead, newChain, common.value)
    ensures common.Some? ==> Rooted(s, common.value.hash) && (newChain == [] <==> OnChain(s, oldHead, newHead))
    ensures common.Some? ==> Elems(deletedTxs) == TxsOf(oldChain)
  {
    var oldLow, newLow, upperOld, upperNew, upperTxs := oldHead, Some(newHead), [], [], [];
    if oldHead.number > newHead.number {
      oldLow, upperOld, upperTxs := DropTo(s, oldHead, newHead.number);
    } else {
      newLow, upperNew := StashTo(s, newHead, oldHead.number);
    }
    if newLow.None? {
      return None, upperOld, upperNew, upperTxs;
    }
    SegmentAncestry(s, upperOld, oldLow);
    if Rooted(s, newLow.value.hash) {
      SegmentAncestry(s, upperNew, newLow.value);
    }
    var lowerOld, lowerNew, lowerTxs;
    common, lowerOld, lowerNew, lowerTxs := MeetDown(s, oldLow, newLow.value);
    oldChain, newChain, deletedTxs := upperOld + lowerOld, upperNew + lowerNew, upperTxs + lowerTxs;
    if common.Some? {
      SegmentConcat(s, upperOld, lowerOld, common.value);
      SegmentConcat(s, upperNew, lowerNew, common.value);
      ElemsConcat(upperTxs, lowerTxs);
      assert Ancestry(s, oldHead.hash)[oldLow.number] == oldLow.hash;
    }
  }

  /** The elements of `a` that are not in `b`. */
  method HashDifference(a: seq<Hash>, b: seq<Hash>) returns (keep: seq<Hash>)
    ensures Elems(keep) == Elems(a) - Elems(b)
  {
    keep := [];
    var remove := Elems(b);
    for i := 0 to |a|
      invariant Elems(keep) == Elems(a[..i]) - Elems(b)
    {
      assert a[..i + 1] == a[..i] + [a[i]];
      ElemsConcat(a[..i], [a[i]]);
      ElemsConcat(keep, [a[i]]);
      if a[i] !in remove {
        keep := keep + [a[i]];
      }
    }
    assert a[..|a|] == a;
  }

  /** What a reorganisation leaves in the lookup table: entries of the dropped stretch go unless
      the rewritten stretch has them too, and what remains describes the new chain. */
  lemma LookupAfterDrop(s: Store, oldChain: seq<Block>, newChain: seq<Block>, common: Block)
    requires WellFormed(s) && Segment(s, oldChain, common) && Segment(s, newChain, common) && Rooted(s, common.hash)
    requires Rooted(s, Top(oldChain, common).hash) && TxsOnce(s, Top(oldChain, common).hash)
    ensures Rooted(s, Top(newChain, common).hash)
    ensures
      TxIndex(s, Top(oldChain, common).hash) + TxIndex(s, Top(newChain, common).hash) - (TxsOf(oldChain) - TxsOf(newChain))
      == TxIndex(s, Top(newChain, common).hash)
  {
    SegmentTxs(s, oldChain, common);
    SegmentTxs(s, newChain, common);
    forall tx | tx in TxIndex(s, common.hash) ensures tx !in TxsOf(oldChain) {
      TxsApart(s, oldChain, common, tx);
    }
    MergeThenDrop(TxIndex(s, Top(oldChain, common).hash), TxIndex(s, Top(newChain, common).hash),
                  TxIndex(s, common.hash).Keys, TxsOf(oldChain), TxsOf(newChain));
  }

  lemma MergeThenDrop(a: map<Hash, nat>, b: map<Hash, nat>, shared: set<Hash>, dropped: set<Hash>, added: set<Hash>)
    requires a.Keys == shared + dropped && b.Keys == shared + added && shared !! dropped
    ensures a + b - (dropped - added) == b
  {
  }

  /** Below the fork the old lookup table already agrees with the new chain. */
  lemma LookupBelowFork(s: Store, oldChain: seq<Block>, common: Block)
    requires WellFormed(s) && Segment(s, oldChain, common) && Rooted(s, common.hash)
    requires Rooted(s, Top(oldChain, common).hash) && TxsOnce(s, Top(oldChain, common).hash)
    ensures TxIndex(s, Top(oldChain, common).hash) + TxIndex(s, common.hash) == TxIndex(s, Top(oldChain, common).hash)
  {
    forall tx | tx in TxIndex(s, common.hash)
      ensures tx in TxIndex(s, Top(oldChain, common).hash)
      ensures TxIndex(s, Top(oldChain, common).hash)[tx] == TxIndex(s, common.hash)[tx]
    {
      TxsApart(s, oldChain, common, tx);
    }
  }

  /** Writing the lowest block of a stretch on top of what is already written. */
  lemma OverlayStep(s: Store, chain: seq<Block>, common: Block, canon: map<nat, Hash>, lookup: map<Hash, nat>)
    requires WellFormed(s) && Segment(s, chain, common) && Rooted(s, common.hash) && chain != []
    ensures Rooted(s, Top(chain[1..], common).hash) && Rooted(s, chain[0].hash)
    ensures (canon + Ancestry(s, Top(chain[1..], common).hash))[chain[0].number := chain[0].hash]
      == canon + Ancestry(s, chain[0].hash)
    ensures lookup + TxIndex(s, Top(chain[1..], common).hash) + TxEntries(chain[0]) == lookup + TxIndex(s, chain[0].hash)
  {
    SegmentAncestry(s, chain[1..], common);
    var b, lower := chain[0], Top(chain[1..], common).hash;
    assert Ancestry(s, b.hash) == Ancestry(s, lower)[b.number := b.hash];
    assert TxIndex(s, b.hash) == TxIndex(s, lower) + TxEntries(b);
    MergeUpdate(canon, Ancestry(s, lower), b.number, b.hash);
    MergeAssociative(lookup, TxIndex(s, lower), TxEntries(b));
  }

  /** The chain of `low` is laid over the old map, and, if asked for, its transactions over the old lookup table. */
  ghost predicate Overlaid(s: Store, low: Hash, canon: map<nat, Hash>, lookup: map<Hash, nat>,
                           canon0: map<nat, Hash>, lookup0: map<Hash, nat>, withLookup: bool) {
    && Rooted(s, low) && canon == canon0 + Ancestry(s, low)
    && (withLookup ==> lookup == lookup0 + TxIndex(s, low))
  }

  /** The part of a stretch from `i` down is its block at `i` on top of the rest. */
  lemma StretchStep(s: Store, chain: seq<Block>, common: Block, i: nat)
    requires Segment(s, chain, common) && i < |chain|
    ensures chain[i..] != [] && chain[i..][0] == chain[i] && chain[i..][1..] == chain[i + 1..]
    ensures Segment(s, chain[i..], common) && TxsOf(chain[i..]) == TxsOf(chain[i + 1..]) + Elems(chain[i].txs)
  {
    SegmentTail(s, chain, common, i);
    SliceStep(chain, i);
  }

  lemma MergeAssociative(a: map<Hash, nat>, b: map<Hash, nat>, c: map<Hash, nat>)
    ensures a + b + c == a + (b + c)
  {
  }

  /** The block below the head of the new stretch is what the reorganisation builds up to. */
  lemma ForkBase(s: Store, oldHead: Block, newHead: Block, oldChain: seq<Block>, newChain: seq<Block>, common: Block)
    requires WellFormed(s) && Walked(s, oldHead, oldChain, common) && Walked(s, newHead, newChain, common)
    requires Rooted(s, oldHead.hash) && Rooted(s, common.hash) && (newChain == [] <==> OnChain(s, oldHead, newHead))
    ensures var base := Top(Rest(newChain), common);
      base.hash == NewBase(s, oldHead, newHead) && Rooted(s, base.hash) && Known(s, base)
    ensures Segment(s, Rest(newChain), common)
    ensures Ancestry(s, oldHead.hash) + Ancestry(s, common.hash) == Ancestry(s, oldHead.hash)
  {
    SegmentAncestry(s, oldChain, common);
    SegmentAncestry(s, Rest(newChain), common);
  }

  /** Laying one map over another and cutting at the top of the second leaves just the second. */
  lemma OverlayTrim(under: map<nat, Hash>, over: map<nat, Hash>, m: nat, n: nat)
    requires Dense(under, m) && Dense(over, n)
    ensures Dense(under + over, if m > n then m else n) && Trim(under + over, n) == over
  {
  }

  /** Blocks and difficulties were added and nothing else changed. */
  ghost predicate Grown(db: Db, db': Db) {
    && db' == db.(blocks := db'.blocks, td := db'.td)
    && Extends(db.blocks, db'.blocks)
    && forall h :: h in db.td ==> h in db'.td && db'.td[h] == db.td[h]
  }

  /** `b` is not the canonical block at its number but has the same state root. */
  ghost predicate GhostState(s: Store, canon: map<nat, Hash>, b: Block) {
    && b.number in canon && canon[b.number] in s
    && canon[b.number] != b.hash && s[canon[b.number]].root == b.root
  }

  lemma GrownTransitive(a: Db, b: Db, c: Db)
    requires Grown(a, b) && Grown(b, c)
    ensures Grown(a, c)
  {
  }

  lemma GhostStateKept(db: Db, db': Db, b: Block)
    requires Grown(db, db') && forall n: nat :: n in db.canon ==> db.canon[n] in db.blocks
    ensures GhostState(db.blocks, db.canon, b) <==> GhostState(db'.blocks, db'.canon, b)
  {
  }

  datatype WriteStatus = Failed | Canonical | Side

  /** Writing the new head completes what the reorganisation left to the caller. */
  lemma HeadCompletes(s: Store, oldHead: Block, newHead: Block)
    requires WellFormed(s) && Known(s, oldHead) && Known(s, newHead)
    requires Rooted(s, oldHead.hash) && SameTree(s, oldHead, newHead)
    ensures Rooted(s, NewBase(s, oldHead, newHead))
    ensures Ancestry(s, NewBase(s, oldHead, newHead))[newHead.number := newHead.hash] == Ancestry(s, newHead.hash)
    ensures TxIndex(s, NewBase(s, oldHead, newHead)) + TxEntries(newHead) == TxIndex(s, newHead.hash)
  {
  }

  /** A child of the head is in its tree, and needs no reorganisation. */
  lemma ChildOfHead(s: Store, head: Block, child: Block)
    requires WellFormed(s) && Known(s, head) && Known(s, child) && Rooted(s, head.hash) && child.parent == head.hash
    ensures SameTree(s, head, child) && NewBase(s, head, child) == head.hash
  {
    assert AboveParent(s, child.hash);
  }

  class BlockChain {
    var db: Db
    var currentHeader: Block
    var currentFastBlock: Block
    var currentBlock: Block

    /** A chain that consists of its genesis. */
    constructor (genesis: Block)
      requires genesis.number == 0 && genesis.hash != ZERO_HASH && genesis.parent == ZERO_HASH
      ensures Valid() && TdExact(db.blocks, db.td) && LookupValid() && currentBlock == genesis
    {
      db := GenesisDb(genesis);
      currentHeader, currentFastBlock, currentBlock := genesis, genesis, genesis;
    }

    /** The number-to-hash map is exactly the ancestry of the head block, and every head marker, in
        memory and on disk, names that block. */
    ghost predicate Valid()
      reads this
    {
      && WellFormed(db.blocks) && Known(db.blocks, currentBlock) && Rooted(db.blocks, currentBlock.hash)
      && db.canon == Ancestry(db.blocks, currentBlock.hash)
      && currentHeader == currentFastBlock == currentBlock
      && db.headHeader == db.headFast == db.headBlock == currentBlock.hash
    }

    /** The lookup table is exact for the canonical chain. */
    ghost predicate LookupValid()
      requires Rooted(db.blocks, currentBlock.hash)
      reads this
    {
      LookupExact(db.blocks, currentBlock.hash, db.lookup)
    }

    method WriteHeadBlock(block: Block)
      modifies this
      ensures db == old(db).(canon := old(db.canon)[block.number := block.hash],
                             lookup := old(db.lookup) + TxEntries(block),
                             headHeader := block.hash, headFast := block.hash, headBlock := block.hash)
      ensures currentHeader == block && currentFastBlock == block && currentBlock == block
    {
      var batch := db.(headHeader := block.hash);
      batch := batch.(headFast := block.hash);
      batch := batch.(canon := batch.canon[block.number := block.hash]);
      batch := batch.(lookup := batch.lookup + map tx | tx in block.txs :: block.number);
      batch := batch.(headBlock := block.hash);
      db := batch;
      currentHeader := block;
      currentFastBlock := block;
      currentBlock := block;
    }

    /** Write the next block of the new stretch, the head of `chain`, on top of what is already written. */
    method RewriteOne(b: Block, ghost chain: seq<Block>, ghost common: Block, ghost canon0: map<nat, Hash>,
                      ghost lookup0: map<Hash, nat>, ghost agree: bool)
      requires WellFormed(db.blocks) && Segment(db.blocks, chain, common) && Rooted(db.blocks, common.hash)
      requires chain != [] && b == chain[0]
      requires Overlaid(db.blocks, Top(chain[1..], common).hash, db.canon, db.lookup, canon0, lookup0, agree)
      modifies this
      ensures db.blocks == old(db.blocks) && db.td == old(db.td)
      ensures Overlaid(db.blocks, b.hash, db.canon, db.lookup, canon0, lookup0, agree)
    {
      OverlayStep(db.blocks, chain, common, canon0, lookup0);
      WriteHeadBlock(b);
    }

    /** Write every block of the new stretch except its head, lowest first. */
    method RewriteHistory(newChain: seq<Block>, common: Block) returns (addedTxs: seq<Hash>)
      requires WellFormed(db.blocks) && Segment(db.blocks, newChain, common) && Rooted(db.blocks, common.hash)
      requires db.canon + Ancestry(db.blocks, common.hash) == db.canon
      modifies this
      ensures db.blocks == old(db.blocks) && db.td == old(db.td)
      ensures Rest(newChain) == [] ==> unchanged(this)
      ensures Rooted(db.blocks, Top(Rest(newChain), common).hash)
      ensures db.canon == old(db.canon) + Ancestry(db.blocks, Top(Rest(newChain), common).hash)
      ensures old(db.lookup) + TxIndex(db.blocks, common.hash) == old(db.lookup) ==>
        db.lookup == old(db.lookup) + TxIndex(db.blocks, Top(Rest(newChain), common).hash)
      ensures Elems(addedTxs) == TxsOf(Rest(newChain))
    {
      ghost var s, canon0, lookup0 := db.blocks, db.canon, db.lookup;
      ghost var agree := lookup0 + TxIndex(s, common.hash) == lookup0;
      ghost var done, low, from: nat := [], common, |newChain|;
      addedTxs := [];
      var i := |newChain| - 1;
      while i >= 1
        invariant -1 <= i < |newChain| && (i == -1 ==> newChain == [])
        invariant from == i + 1 && done == newChain[from..] && low == Top(done, common)
        invariant db.blocks == s && db.td == old(db.td) && (done == [] ==> unchanged(this))
        invariant Overlaid(s, low.hash, db.canon, db.lookup, canon0, lookup0, agree)
        invariant Elems(addedTxs) == TxsOf(done)
      {
        StretchStep(s, newChain, common, i);
        ghost var next := newChain[i..];
        RewriteOne(newChain[i], next, common, canon0, lookup0, agree);
        ElemsConcat(addedTxs, newChain[i].txs);
        addedTxs := addedTxs + newChain[i].txs;
        done, low, from := next, newChain[i], i;
        i := i - 1;
      }
      assert from == if newChain == [] then 0 else 1;
      assert done == Rest(newChain);
    }

    /** Delete the lookup entries of `useless` and every number assignment above `number`, reading
        upwards until the first gap; both deletions are written together. */
    method DropStale(number: nat, useless: seq<Hash>, ghost top: nat)
      requires Dense(db.canon, top)
      modifies this`db
      ensures db == old(db).(canon := Trim(old(db.canon), number), lookup := old(db.lookup) - Elems(useless))
    {
      var lookups, numbers: set<nat> := {}, {};
      for i := 0 to |useless|
        invariant lookups == Elems(useless[..i])
      {
        assert useless[..i + 1] == useless[..i] + [useless[i]];
        lookups := lookups + {useless[i]};
      }
      assert useless[..|useless|] == useless;
      var n := number + 1;
      while ReadCanonicalHash(db.canon, n) != ZERO_HASH
        invariant number < n
        invariant forall k :: k in numbers <==> number < k < n
        decreases top - n
      {
        numbers := numbers + {n};
        n := n + 1;
      }
      db := db.(canon := db.canon - numbers, lookup := db.lookup - lookups);
    }

    /** The writing half: rewrite the new stretch, then drop what no longer belongs. */
    method ApplyFork(oldChain: seq<Block>, newChain: seq<Block>, common: Block, deletedTxs: seq<Hash>)
      requires Valid() && Walked(db.blocks, currentBlock, oldChain, common) && Segment(db.blocks, Rest(newChain), common)
      requires Segment(db.blocks, newChain, common) && Rooted(db.blocks, common.hash)
      requires Elems(deletedTxs) == TxsOf(oldChain)
      requires db.canon + Ancestry(db.blocks, common.hash) == db.canon
      modifies this
      ensures db.blocks == old(db.blocks) && db.td == old(db.td)
      ensures Rooted(db.blocks, Top(Rest(newChain), common).hash)
      ensures db.canon == Ancestry(db.blocks, Top(Rest(newChain), common).hash)
      ensures old(LookupValid()) ==> db.lookup == TxIndex(db.blocks, Top(Rest(newChain), common).hash)
    {
      ghost var s, rest, oldHead := db.blocks, Rest(newChain), currentBlock;
      ghost var base := Top(rest, common);
      if LookupValid() {
        LookupExactIff(s, oldHead.hash, db.lookup);
        LookupBelowFork(s, oldChain, common);
        LookupAfterDrop(s, oldChain, rest, common);
      }
      var addedTxs := RewriteHistory(newChain, common);
      AncestryDense(s, oldHead.hash);
      AncestryDense(s, base.hash);
      OverlayTrim(Ancestry(s, oldHead.hash), Ancestry(s, base.hash), oldHead.number, s[base.hash].number);
      var useless := HashDifference(deletedTxs, addedTxs);
      var number := if |newChain| > 1 then newChain[1].number else common.number;
      assert Known(s, base);
      DropStale(number, useless, if oldHead.number > number then oldHead.number else number);
    }

    /** Make the chain of `newBlock` canonical except for `newBlock` itself, which the caller
        writes; a chain that does not meet the current one is refused and nothing changes. */
    method Reorg(oldBlock: Block, newBlock: Block) returns (ok: bool)
      requires Valid() && oldBlock == currentBlock && Known(db.blocks, newBlock)
      modifies this
      ensures ok <==> SameTree(old(db.blocks), oldBlock, newBlock)
      ensures !ok ==> unchanged(this)
      ensures db.blocks == old(db.blocks) && db.td == old(db.td)
      ensures ok ==> Rooted(db.blocks, NewBase(db.blocks, oldBlock, newBlock))
      ensures ok ==> db.canon == Ancestry(db.blocks, NewBase(db.blocks, oldBlock, newBlock))
      ensures ok && old(LookupValid()) ==> db.lookup == TxIndex(db.blocks, NewBase(db.blocks, oldBlock, newBlock))
    {
      var common, oldChain, newChain, deletedTxs := FindFork(db.blocks, oldBlock, newBlock);
      if common.None? {
        return false;
      }
      ForkBase(db.blocks, oldBlock, newBlock, oldChain, newChain, common.value);
      ApplyFork(oldChain, newChain, common.value, deletedTxs);
      return true;
    }

    /** Make a known block the head, reorganising first unless it is a child of the head. */
    method WriteKnownBlock(block: Block) returns (ok: bool)
      requires Valid() && Known(db.blocks, block)
      modifies this
      ensures ok <==> SameTree(old(db.blocks), old(currentBlock), block)
      ensures !ok ==> unchanged(this)
      ensures db.blocks == old(db.blocks) && db.td == old(db.td)
      ensures ok ==> Valid() && currentBlock == block
      ensures ok && old(LookupValid()) && TxsOnce(db.blocks, block.hash) ==> LookupValid()
    {
      var current := currentBlock;
      ok := true;
      if block.parent != current.hash {
        ok := Reorg(current, block);
        if !ok {
          return;
        }
      } else {
        ChildOfHead(db.blocks, current, block);
        if LookupValid() {
          LookupExactIff(db.blocks, current.hash, db.lookup);
        }
      }
      HeadCompletes(db.blocks, current, block);
      WriteHeadBlock(block);
      LookupExactIff(db.blocks, block.hash, db.lookup);
    }

    /** The engine API's "make this block the head". `stateReady` says whether the state of the block
        is available or could be recovered by re-executing its ancestors. */
    method SetCanonical(head: Block, stateReady: bool) returns (ok: bool)
      requires Valid() && Known(db.blocks, head)
      modifies this
      ensures ok <==> stateReady && SameTree(old(db.blocks), old(currentBlock), head)
      ensures !ok ==> unchanged(this)
      ensures db.blocks == old(db.blocks) && db.td == old(db.td)
      ensures ok ==> Valid() && currentBlock == head
      ensures ok && old(LookupValid()) && TxsOnce(db.blocks, head.hash) ==> LookupValid()
    {
      if !stateReady {
        return false;
      }
      ok := WriteKnownBlock(head);
    }

    /** Write a block and its total difficulty; the head stays. `committed` is the outcome of
        committing the block's state. */
    method WriteBlockWithState(block: Block, committed: bool) returns (ok: bool)
      requires Valid() && TdExact(db.blocks, db.td) && Fits(db.blocks, block)
      modifies this`db
      ensures Valid() && TdExact(db.blocks, db.td) && (old(LookupValid()) ==> LookupValid())
      ensures ok <==> committed && GetTd(old(db), block.parent, block.number - 1).Some?
      ensures GetTd(old(db), block.parent, block.number - 1).None? ==> db == old(db)
      ensures GetTd(old(db), block.parent, block.number - 1).Some? ==>
        db == old(db).(blocks := old(db.blocks)[block.hash := block],
                       td := old(db.td)[block.hash := old(db.td)[block.parent] + block.difficulty])
      ensures forall h :: h in old(db.td) ==> h in db.td && db.td[h] == old(db.td)[h]
    {
      var ptd := GetTd(db, block.parent, block.number - 1);
      if ptd.None? {
        return false;
      }
      TdWrite(db.blocks, db.td, block);
      AncestryGrow(db.blocks, db.blocks[block.hash := block], currentBlock.hash);
      if LookupValid() {
        LookupGrow(db.blocks, db.blocks[block.hash := block], currentBlock.hash, db.lookup);
      }
      var externTd := block.difficulty + ptd.value;
      db := db.(td := db.td[block.hash := externTd], blocks := db.blocks[block.hash := block]);
      ok := committed;
    }

    /** Write a validated block and let fork choice decide whether it becomes the head. */
    method WriteBlockAndSetHead(block: Block, committed: bool, ttd: Option<nat>, preserve: Block -> bool, coin: bool)
      returns (status: WriteStatus)
      requires Valid() && TdExact(db.blocks, db.td) && Fits(db.blocks, block)
      modifies this
      ensures Valid() && TdExact(db.blocks, db.td)
      ensures status == Canonical ==> currentBlock == block
      ensures status == Side ==> Known(db.blocks, block)
      ensures var written := GetTd(old(db), block.parent, block.number - 1).Some?;
        && (status != Failed ==> written && committed)
        && (written ==> Known(db.blocks, block) && Rooted(db.blocks, old(currentBlock).hash))
        && (written && committed ==>
              status == if !Preferred(db.td, old(currentBlock), block, ttd, preserve, coin) then Side
                        else if SameTree(db.blocks, old(currentBlock), block) then Canonical else Failed)
      ensures status != Canonical ==>
        currentBlock == old(currentBlock) && db.canon == old(db.canon) && db.lookup == old(db.lookup)
      ensures ForkStep(HeadView(old(db.td), old(currentBlock.hash)), HeadView(db.td, currentBlock.hash), ttd)
      ensures status == Side ==> Capped(db.td[block.hash], ttd) <= Capped(db.td[currentBlock.hash], ttd)
      ensures old(LookupValid()) && (status == Canonical ==> TxsOnce(db.blocks, block.hash)) ==> LookupValid()
    {
      var ok := WriteBlockWithState(block, committed);
      if !ok {
        return Failed;
      }
      status := DecideHead(block, ttd, preserve, coin);
    }

    /** Let fork choice decide whether a stored block becomes the head. */
    method DecideHead(block: Block, ttd: Option<nat>, preserve: Block -> bool, coin: bool) returns (status: WriteStatus)
      requires Valid() && TdExact(db.blocks, db.td) && Known(db.blocks, block)
      modifies this
      ensures Valid() && db.blocks == old(db.blocks) && db.td == old(db.td)
      ensures status == if !Preferred(db.td, old(currentBlock), block, ttd, preserve, coin) then Side
                        else if SameTree(db.blocks, old(currentBlock), block) then Canonical else Failed
      ensures status == Canonical ==> currentBlock == block
      ensures status != Canonical ==> unchanged(this)
      ensures Capped(db.td[old(currentBlock).hash], ttd) <= Capped(db.td[currentBlock.hash], ttd)
      ensures status == Side ==> Capped(db.td[block.hash], ttd) <= Capped(db.td[currentBlock.hash], ttd)
      ensures old(LookupValid()) && (status == Canonical ==> TxsOnce(db.blocks, block.hash)) ==> LookupValid()
    {
      var current := currentBlock;
      var reorg := ReorgNeeded(GetTd(db, current.hash, current.number), GetTd(db, block.hash, block.number),
                               ttd, current, block, preserve, coin);
      if reorg.None? {
        return Failed;
      }
      if !reorg.value {
        return Side;
      }
      var ok := WriteKnownBlock(block);
      status := if ok then Canonical else Failed;
    }

    /** Write a block of a side chain, whose state is unknown, with the difficulty its caller summed up. */
    method WriteBlockWithoutState(block: Block, td: nat)
      requires Valid() && TdExact(db.blocks, db.td) && Fits(db.blocks, block) && block.number > 0
      requires block.parent in db.td && td == db.td[block.parent] + block.difficulty
      modifies this`db
      ensures Valid() && TdExact(db.blocks, db.td)
      ensures db == old(db).(td := old(db.td)[block.hash := td], blocks := old(db.blocks)[block.hash := block])
      ensures Grown(old(db), db)
    {
      TdWrite(db.blocks, db.td, block);
      AncestryGrow(db.blocks, db.blocks[block.hash := block], currentBlock.hash);
      db := db.(td := db.td[block.hash := td], blocks := db.blocks[block.hash := block]);
    }

    /** One block of a side chain: skipped when it is canonical already, refused when it claims the
        state root of the canonical block at its number, otherwise written on top of the difficulty
        summed so far (None for the first block). */
    method ImportSideBlock(block: Block, soFar: Option<nat>) returns (externTd: Option<nat>)
      requires Valid() && TdExact(db.blocks, db.td) && Fits(db.blocks, block)
      requires GetTd(db, block.parent, block.number - 1).Some?
      requires soFar.Some? ==> soFar == GetTd(db, block.parent, block.number - 1)
      modifies this`db
      ensures Valid() && TdExact(db.blocks, db.td) && Grown(old(db), db)
      ensures db.blocks == old(db.blocks) || db.blocks == old(db.blocks)[block.hash := block]
      ensures externTd.None? <==> GhostState(old(db.blocks), old(db.canon), block)
      ensures externTd.Some? ==> Known(db.blocks, block) && externTd == Some(db.td[block.hash])
    {
      if currentBlock.number >= block.number {
        var canonical := GetBlock(db.blocks, ReadCanonicalHash(db.canon, block.number), block.number);
        if canonical.Some? && canonical.value.hash == block.hash {
          return GetTd(db, block.hash, block.number);
        }
        if canonical.Some? && canonical.value.root == block.root {
          return None;
        }
      }
      externTd := if soFar.None? then GetTd(db, block.parent, block.number - 1) else soFar;
      externTd := Some(externTd.value + block.difficulty);
      if GetBlock(db.blocks, block.hash, block.number).None? {
        WriteBlockWithoutState(block, externTd.value);
      } else {
        assert TdAdds(db.blocks, db.td, block.hash);
      }
    }

    /** The writing loop for a side chain that forks from pruned state. */
    method InsertSideChain(batch: seq<Block>, ghost u: Store) returns (externTd: Option<nat>)
      requires Valid() && TdExact(db.blocks, db.td) && Together(db.blocks, batch, u)
      requires batch != [] && Linked(batch) && GetTd(db, batch[0].parent, batch[0].number - 1).Some?
      modifies this`db
      ensures Valid() && TdExact(db.blocks, db.td) && Grown(old(db), db)
      ensures externTd.Some? ==> AllKnown(db.blocks, batch)
      ensures externTd.Some? ==> externTd == GetTd(db, batch[|batch| - 1].hash, batch[|batch| - 1].number)
      ensures externTd.None? <==> exists i :: 0 <= i < |batch| && GhostState(old(db.blocks), old(db.canon), batch[i])
    {
      externTd := None;
      for i := 0 to |batch|
        invariant Valid() && TdExact(db.blocks, db.td) && Extends(db.blocks, u) && Grown(old(db), db)
        invariant forall j :: 0 <= j < i ==>
          Known(db.blocks, batch[j]) && !GhostState(old(db.blocks), old(db.canon), batch[j])
        invariant if i == 0 then externTd.None? else externTd == Some(db.td[batch[i - 1].hash])
      {
        TogetherFits(db.blocks, batch, u, i);
        assert i > 0 ==> Follows(batch, i);
        ghost var before := db;
        GhostStateKept(old(db), before, batch[i]);
        externTd := ImportSideBlock(batch[i], externTd);
        GrownTransitive(old(db), before, db);
        if externTd.None? {
          return;
        }
      }
    }
  }
}
