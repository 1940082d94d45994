/** The block tree and the tables that describe one path through it.

    Hashes are opaque identifiers; a block carries its own hash, and the store maps a hash to the
    block that has it. Block numbers are naturals, and asking for the block below number 0 asks
    for number -1, which no block has. */
module ChainStore {
  import opened Wrappers

  type Hash = nat
  const ZERO_HASH: Hash := 0

  /** A block, or a header: header code never looks at `txs`. */
  datatype Block = Block(hash: Hash, parent: Hash, number: nat, difficulty: nat, time: nat, root: Hash, txs: seq<Hash>)

  type Store = map<Hash, Block>

  /** The database: blocks by hash, total difficulties, the number-to-hash map, the transaction
      lookup entries and the three head markers. */
  datatype Db = Db(
    blocks: Store,
    td: map<Hash, nat>,
    canon: map<nat, Hash>,
    lookup: map<Hash, nat>,
    headHeader: Hash,
    headFast: Hash,
    headBlock: Hash)

  /** Blocks are stored under their own hash, no block has the zero hash, and a block is numbered
      one above its parent. */
  ghost predicate WellFormed(s: Store) {
    && ZERO_HASH !in s
    && (forall h :: h in s ==> s[h].hash == h)
    && (forall h {:trigger AboveParent(s, h)} :: h in s ==> AboveParent(s, h))
  }

  ghost predicate AboveParent(s: Store, h: Hash)
    requires h in s
  {
    s[h].parent in s ==> s[h].number == s[s[h].parent].number + 1
  }

  function GetBlock(s: Store, h: Hash, n: int): Option<Block> {
    if h in s && s[h].number == n then Some(s[h]) else None
  }

  function ReadCanonicalHash(canon: map<nat, Hash>, n: nat): Hash {
    if n in canon then canon[n] else ZERO_HASH
  }

  function GetTd(db: Db, h: Hash, n: int): Option<nat> {
    if GetBlock(db.blocks, h, n).Some? && h in db.td then Some(db.td[h]) else None
  }

  /** `b` is stored under its own hash. */
  ghost predicate Known(s: Store, b: Block) {
    b.hash in s && s[b.hash] == b
  }

  /** Following parents from `h` reaches a block numbered 0 without a gap. */
  ghost predicate Rooted(s: Store, h: Hash)
    decreases if h in s then s[h].number else 0
  {
    && h in s
    && (s[h].number == 0 || (GetBlock(s, s[h].parent, s[h].number - 1).Some? && Rooted(s, s[h].parent)))
  }

  /** The map from each number up to that of `h` to the ancestor of `h` there. This is the
      reference definition of the canonical number-to-hash map. */
  ghost function Ancestry(s: Store, h: Hash): (m: map<nat, Hash>)
    requires Rooted(s, h)
    ensures forall n: nat :: n in m <==> n <= s[h].number
    ensures forall n: nat :: n in m ==> m[n] in s && s[m[n]].number == n
    ensures m[s[h].number] == h
    decreases s[h].number
  {
    if s[h].number == 0 then map[0 := h] else Ancestry(s, s[h].parent)[s[h].number := h]
  }

  /** Cutting the ancestry of `h` at `n` gives the ancestry of the ancestor at `n`. */
  lemma {:induction false} AncestryCut(s: Store, h: Hash, n: nat)
    requires Rooted(s, h) && n <= s[h].number
    ensures Rooted(s, Ancestry(s, h)[n])
    ensures Ancestry(s, Ancestry(s, h)[n]) == map k | k in Ancestry(s, h) && k <= n :: Ancestry(s, h)[k]
    decreases s[h].number
  {
    if n < s[h].number {
      AncestryCut(s, s[h].parent, n);
    }
  }

  /** The parent of a canonical block is the canonical block one below. */
  lemma AncestryParent(s: Store, h: Hash, n: nat)
    requires Rooted(s, h) && 0 < n <= s[h].number
    ensures s[Ancestry(s, h)[n]].parent == Ancestry(s, h)[n - 1]
  {
    AncestryCut(s, h, n);
    var g := Ancestry(s, h)[n];
    assert Ancestry(s, g)[n - 1] == Ancestry(s, h)[n - 1];
  }

  function Trim(m: map<nat, Hash>, top: nat): map<nat, Hash> {
    map n | n in m && n <= top :: m[n]
  }

  /** Numbers are assigned without a gap up to `top`. */
  ghost predicate Dense(m: map<nat, Hash>, top: nat) {
    forall n: nat :: (n in m <==> n <= top) && (n in m ==> m[n] != ZERO_HASH)
  }

  lemma AncestryDense(s: Store, h: Hash)
    requires WellFormed(s) && Rooted(s, h)
    ensures Dense(Ancestry(s, h), s[h].number)
  {
  }

  /** The naive walk: `k` steps from (`h`, `n`) to the parent, None when a header is missing. */
  ghost function Walk(s: Store, h: Hash, n: nat, k: nat): Option<Hash>
    requires k <= n
    decreases k
  {
    if k == 0 then Some(h)
    else
      var header := GetBlock(s, h, n);
      if header.None? then None else Walk(s, header.value.parent, n - 1, k - 1)
  }

  lemma MergeUpdate<K, V>(a: map<K, V>, b: map<K, V>, k: K, v: V)
    ensures (a + b)[k := v] == a + b[k := v]
  {
  }

  lemma UpdateNothing<K, V>(m: map<K, V>, k: K, v: V)
    requires k in m && m[k] == v
    ensures m[k := v] == m
  {
  }

  ghost predicate Extends(s: Store, s': Store) {
    forall h :: h in s ==> h in s' && s'[h] == s[h]
  }

  /** Adding blocks to the store leaves existing ancestries alone. */
  lemma {:induction false} AncestryGrow(s: Store, s': Store, h: Hash)
    requires Rooted(s, h) && Extends(s, s')
    ensures Rooted(s', h) && Ancestry(s', h) == Ancestry(s, h)
    decreases s[h].number
  {
    if s[h].number != 0 {
      AncestryGrow(s, s', s[h].parent);
    }
  }

  /** Every stored block above number 0 has its parent stored, one number below. */
  ghost predicate ParentClosed(s: Store) {
    forall h {:trigger HasParent(s, h)} :: h in s && s[h].number > 0 ==> HasParent(s, h)
  }

  ghost predicate HasParent(s: Store, h: Hash)
    requires h in s
  {
    GetBlock(s, s[h].parent, s[h].number - 1).Some?
  }

  lemma {:induction false} ClosedRooted(s: Store, h: Hash)
    requires ParentClosed(s) && h in s
    ensures Rooted(s, h)
    decreases s[h].number
  {
    if s[h].number != 0 {
      assert HasParent(s, h);
      ClosedRooted(s, s[h].parent);
    }
  }

  /** Every stored block has a total difficulty, its parent's plus its own. */
  ghost predicate TdExact(s: Store, td: map<Hash, nat>) {
    && td.Keys == s.Keys
    && forall h {:trigger TdAdds(s, td, h)} :: h in s && s[h].number > 0 ==> TdAdds(s, td, h)
  }

  ghost predicate TdAdds(s: Store, td: map<Hash, nat>, h: Hash)
    requires h in s && h in td
  {
    s[h].parent in td && td[h] == td[s[h].parent] + s[h].difficulty
  }

  /** `b` is the block its hash stands for and fits the stored blocks. */
  ghost predicate Fits(s: Store, b: Block) {
    WellFormed(s[b.hash := b]) && (b.hash in s ==> s[b.hash] == b)
  }

  ghost predicate AllKnown(s: Store, batch: seq<Block>) {
    forall i {:trigger batch[i]} :: 0 <= i < |batch| ==> Known(s, batch[i])
  }

  /** All of a batch belongs to one tree with the stored blocks: `u` holds both. */
  ghost predicate Together(s: Store, batch: seq<Block>, u: Store) {
    WellFormed(u) && Extends(s, u) && AllKnown(u, batch)
  }

  lemma TogetherFits(s: Store, batch: seq<Block>, u: Store, i: nat)
    requires Together(s, batch, u) && i < |batch|
    ensures Fits(s, batch[i]) && WellFormed(s)
  {
    assert forall h :: h in s ==> AboveParent(u, h);
    assert AboveParent(u, batch[i].hash);
  }

  /** Each element of a batch is the child of the one before. */
  ghost predicate Linked(batch: seq<Block>) {
    forall i {:trigger Follows(batch, i)} :: 0 < i < |batch| ==> Follows(batch, i)
  }

  ghost predicate Follows(batch: seq<Block>, i: nat)
    requires 0 < i < |batch|
  {
    batch[i].parent == batch[i - 1].hash && batch[i].number == batch[i - 1].number + 1
  }

  /** Writing a block together with its total difficulty keeps the table exact and rewrites none of
      its entries. */
  lemma TdWrite(s: Store, td: map<Hash, nat>, b: Block)
    requires TdExact(s, td) && Fits(s, b) && b.parent in s && b.number > 0
    ensures TdExact(s[b.hash := b], td[b.hash := td[b.parent] + b.difficulty])
    ensures forall h :: h in td ==> td[b.hash := td[b.parent] + b.difficulty][h] == td[h]
  {
    var s', td' := s[b.hash := b], td[b.hash := td[b.parent] + b.difficulty];
    assert b.hash in s ==> TdAdds(s, td, b.hash);
    assert AboveParent(s', b.hash);
    forall h | h in s' && s'[h].number > 0 ensures TdAdds(s', td', h) {
      if h != b.hash {
        assert TdAdds(s, td, h);
      }
    }
  }

  /** A store with an exact difficulty table has every parent. */
  lemma TdExactClosed(s: Store, td: map<Hash, nat>)
    requires WellFormed(s) && TdExact(s, td)
    ensures ParentClosed(s)
  {
    forall h | h in s && s[h].number > 0 ensures HasParent(s, h) {
      assert TdAdds(s, td, h) && AboveParent(s, h);
    }
  }

  // ---- Transactions along a chain ----

  function TxEntries(b: Block): (m: map<Hash, nat>) {
    map tx | tx in b.txs :: b.number
  }

  /** The database of a chain that consists of its genesis. */
  function GenesisDb(genesis: Block): Db {
    Db(map[genesis.hash := genesis], map[genesis.hash := genesis.difficulty], map[0 := genesis.hash], TxEntries(genesis),
       genesis.hash, genesis.hash, genesis.hash)
  }

  /** Transactions of the chain ending in `h`, each with the number of the block that holds it. */
  ghost function TxIndex(s: Store, h: Hash): (m: map<Hash, nat>)
    requires Rooted(s, h)
    decreases s[h].number
  {
    if s[h].number == 0 then TxEntries(s[h]) else TxIndex(s, s[h].parent) + TxEntries(s[h])
  }

  /** The block numbered `n` on the chain of `h` holds `tx`. */
  ghost predicate HoldsTx(s: Store, h: Hash, n: nat, tx: Hash)
    requires Rooted(s, h)
  {
    n <= s[h].number && tx in s[Ancestry(s, h)[n]].txs
  }

  /** No transaction lies in two blocks of the chain ending in `h`. */
  ghost predicate TxsOnce(s: Store, h: Hash)
    requires Rooted(s, h)
  {
    forall i: nat, j: nat, tx :: HoldsTx(s, h, i, tx) && HoldsTx(s, h, j, tx) ==> i == j
  }

  /** `lookup` has an entry for exactly the transactions on the chain of `h`, and each entry is
      the number of the block on that chain that holds the transaction. */
  ghost predicate LookupExact(s: Store, h: Hash, lookup: map<Hash, nat>)
    requires Rooted(s, h)
  {
    && (forall tx :: tx in lookup ==> HoldsTx(s, h, lookup[tx], tx))
    && (forall n: nat, tx :: HoldsTx(s, h, n, tx) ==> tx in lookup && lookup[tx] == n)
  }

  lemma {:induction false} TxIndexHolds(s: Store, h: Hash, tx: Hash)
    requires Rooted(s, h) && tx in TxIndex(s, h)
    ensures HoldsTx(s, h, TxIndex(s, h)[tx], tx)
    decreases s[h].number
  {
    if tx !in s[h].txs {
      TxIndexHolds(s, s[h].parent, tx);
    }
  }

  lemma {:induction false} TxIndexCovers(s: Store, h: Hash, n: nat, tx: Hash)
    requires Rooted(s, h) && HoldsTx(s, h, n, tx)
    ensures tx in TxIndex(s, h) && n <= TxIndex(s, h)[tx]
    decreases s[h].number
  {
    if n < s[h].number {
      TxIndexCovers(s, s[h].parent, n, tx);
    }
  }

  /** Exact lookup entries exist only for chains that hold each transaction once, and then there
      is one such table. */
  lemma LookupExactIff(s: Store, h: Hash, lookup: map<Hash, nat>)
    requires Rooted(s, h)
    ensures LookupExact(s, h, lookup) <==> TxsOnce(s, h) && lookup == TxIndex(s, h)
  {
    var t := TxIndex(s, h);
    forall tx | tx in t ensures HoldsTx(s, h, t[tx], tx) { TxIndexHolds(s, h, tx); }
    forall n, tx | HoldsTx(s, h, n, tx) ensures tx in t { TxIndexCovers(s, h, n, tx); }
    if LookupExact(s, h, lookup) {
      assert lookup == t;
    }
  }

  /** Adding blocks to the store leaves the transactions of existing chains alone. */
  lemma {:induction false} TxIndexGrow(s: Store, s': Store, h: Hash)
    requires Rooted(s, h) && Extends(s, s')
    ensures Rooted(s', h) && TxIndex(s', h) == TxIndex(s, h)
    decreases s[h].number
  {
    if s[h].number != 0 {
      TxIndexGrow(s, s', s[h].parent);
    }
  }

  lemma LookupGrow(s: Store, s': Store, h: Hash, lookup: map<Hash, nat>)
    requires Rooted(s, h) && Extends(s, s') && LookupExact(s, h, lookup)
    ensures Rooted(s', h) && LookupExact(s', h, lookup)
  {
    AncestryGrow(s, s', h);
    assert forall n: nat, tx :: HoldsTx(s', h, n, tx) <==> HoldsTx(s, h, n, tx);
  }

  // ---- Stretches of a chain ----

  /** `chain` lists blocks downwards, each followed by its parent, ending just above `bottom`. */
  ghost predicate Segment(s: Store, chain: seq<Block>, bottom: Block) {
    && Known(s, bottom)
    && (chain == [] ||
        (&& Known(s, chain[0])
         && GetBlock(s, chain[0].parent, chain[0].number - 1) == Some(Top(chain[1..], bottom))
         && Segment(s, chain[1..], bottom)))
  }

  function Top(chain: seq<Block>, bottom: Block): Block {
    if chain == [] then bottom else chain[0]
  }

  /** The stretch without its topmost block. */
  function Rest(chain: seq<Block>): seq<Block> {
    if chain == [] then [] else chain[1..]
  }

  function Elems(txs: seq<Hash>): set<Hash> {
    set tx | tx in txs
  }

  lemma ElemsConcat(a: seq<Hash>, b: seq<Hash>)
    ensures Elems(a + b) == Elems(a) + Elems(b)
  {
  }

  function TxsOf(chain: seq<Block>): set<Hash> {
    if chain == [] then {} else TxsOf(chain[1..]) + Elems(chain[0].txs)
  }

  lemma SliceStep<T>(s: seq<T>, i: nat)
    requires i < |s|
    ensures s[i..][1..] == s[i + 1..] && s[i..][0] == s[i]
  {
  }

  lemma {:induction false} SegmentTail(s: Store, chain: seq<Block>, bottom: Block, k: nat)
    requires Segment(s, chain, bottom) && k <= |chain|
    ensures Segment(s, chain[k..], bottom)
    decreases k
  {
    if k > 0 {
      SegmentTail(s, chain[1..], bottom, k - 1);
      assert chain[1..][k - 1..] == chain[k..];
    }
  }

  /** Stepping down from the bottom moves it into the segment. */
  lemma {:induction false} SegmentStep(s: Store, chain: seq<Block>, bottom: Block, next: Block)
    requires Segment(s, chain, bottom) && Known(s, next)
    requires GetBlock(s, bottom.parent, bottom.number - 1) == Some(next)
    ensures Segment(s, chain + [bottom], next) && Top(chain + [bottom], next) == Top(chain, bottom)
    ensures TxsOf(chain + [bottom]) == TxsOf(chain) + Elems(bottom.txs)
    decreases |chain|
  {
    if chain != [] {
      SegmentStep(s, chain[1..], bottom, next);
      assert (chain + [bottom])[1..] == chain[1..] + [bottom];
    }
  }

  lemma {:induction false} SegmentConcat(s: Store, upper: seq<Block>, lower: seq<Block>, bottom: Block)
    requires Segment(s, upper, Top(lower, bottom)) && Segment(s, lower, bottom)
    ensures Segment(s, upper + lower, bottom) && Top(upper + lower, bottom) == Top(upper, Top(lower, bottom))
    ensures TxsOf(upper + lower) == TxsOf(upper) + TxsOf(lower)
    decreases |upper|
  {
    if upper == [] {
      assert upper + lower == lower;
    } else {
      SegmentConcat(s, upper[1..], lower, bottom);
      assert (upper + lower)[1..] == upper[1..] + lower;
    }
  }

  /** A segment on top of a rooted block is the stretch between the two ancestries. */
  lemma {:induction false} SegmentAncestry(s: Store, chain: seq<Block>, bottom: Block)
    requires WellFormed(s) && Segment(s, chain, bottom) && Rooted(s, bottom.hash)
    ensures Rooted(s, Top(chain, bottom).hash) && Top(chain, bottom).number == bottom.number + |chain|
    ensures forall n: nat :: n <= bottom.number ==> Ancestry(s, Top(chain, bottom).hash)[n] == Ancestry(s, bottom.hash)[n]
    decreases |chain|
  {
    if chain != [] {
      SegmentAncestry(s, chain[1..], bottom);
    }
  }

  lemma {:induction false} SegmentTxs(s: Store, chain: seq<Block>, bottom: Block)
    requires WellFormed(s) && Segment(s, chain, bottom) && Rooted(s, bottom.hash)
    ensures Rooted(s, Top(chain, bottom).hash)
    ensures TxIndex(s, Top(chain, bottom).hash).Keys == TxIndex(s, bottom.hash).Keys + TxsOf(chain)
    decreases |chain|
  {
    SegmentAncestry(s, chain, bottom);
    if chain != [] {
      var b := chain[0];
      SegmentTxs(s, chain[1..], bottom);
      assert TxIndex(s, b.hash) == TxIndex(s, b.parent) + TxEntries(b);
    }
  }

  /** On a chain that holds each transaction once, a stretch and what lies below share none. */
  lemma TxsApart(s: Store, chain: seq<Block>, bottom: Block, tx: Hash)
    requires WellFormed(s) && Segment(s, chain, bottom) && Rooted(s, bottom.hash)
    requires Rooted(s, Top(chain, bottom).hash) && TxsOnce(s, Top(chain, bottom).hash)
    requires tx in TxIndex(s, bottom.hash)
    ensures tx !in TxsOf(chain)
    ensures tx in TxIndex(s, Top(chain, bottom).hash)
    ensures TxIndex(s, Top(chain, bottom).hash)[tx] == TxIndex(s, bottom.hash)[tx]
  {
    var top, n := Top(chain, bottom).hash, TxIndex(s, bottom.hash)[tx];
    SegmentAncestry(s, chain, bottom);
    TxIndexHolds(s, bottom.hash, tx);
    assert HoldsTx(s, top, n, tx);
    TxIndexCovers(s, top, n, tx);
    TxIndexHolds(s, top, tx);
    if tx in TxsOf(chain) {
      SegmentHolds(s, chain, bottom, tx);
    }
  }

  lemma {:induction false} SegmentHolds(s: Store, chain: seq<Block>, bottom: Block, tx: Hash)
    requires WellFormed(s) && Segment(s, chain, bottom) && Rooted(s, bottom.hash) && tx in TxsOf(chain)
    ensures Rooted(s, Top(chain, bottom).hash)
    ensures exists n: nat :: n > bottom.number && HoldsTx(s, Top(chain, bottom).hash, n, tx)
    decreases |chain|
  {
    SegmentAncestry(s, chain, bottom);
    var b := chain[0];
    if tx in b.txs {
      assert HoldsTx(s, b.hash, b.number, tx);
    } else {
      SegmentHolds(s, chain[1..], bottom, tx);
      var n: nat :| n > bottom.number && HoldsTx(s, b.parent, n, tx);
      assert HoldsTx(s, b.hash, n, tx);
    }
  }
}
