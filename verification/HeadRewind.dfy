/** Rewinding the head block while the header chain is rewound: the new head block must have its
    state, and may have to lie beyond a requested state root. */
module HeadRewind {
  import opened Wrappers
  import opened ChainStore
  import opened HeaderChain

  /** `b` is stored and its chain is complete. */
  ghost predicate Complete(s: Store, b: Block) {
    Known(s, b) && Rooted(s, b.hash)
  }

  /** `b` is `start` or one of its ancestors. */
  ghost predicate AtOrBelow(s: Store, start: Block, b: Block)
    requires Complete(s, start)
  {
    Known(s, b) && b.number <= start.number && Ancestry(s, start.hash)[b.number] == b.hash
  }

  ghost function RootAt(s: Store, start: Block, k: nat): Hash
    requires Complete(s, start) && k <= start.number
  {
    s[Ancestry(s, start.hash)[k]].root
  }

  /** Walking down from `start`, a block with the requested root was met at or above `n`; with no
      root requested that is so from the start. */
  ghost predicate Crossed(s: Store, start: Block, root: Hash, n: nat)
    requires Complete(s, start)
  {
    root == ZERO_HASH || exists k: nat :: n <= k <= start.number && RootAt(s, start, k) == root
  }

  /** The first block with the requested root, walking down. */
  ghost predicate FirstRoot(s: Store, start: Block, root: Hash, n: nat)
    requires Complete(s, start)
  {
    && root != ZERO_HASH && n <= start.number && RootAt(s, start, n) == root
    && forall k: nat :: n < k <= start.number ==> RootAt(s, start, k) != root
  }

  /** The ancestor at `n` can be the new head: it has its state and the root was crossed. */
  ghost predicate Acceptable(s: Store, states: set<Hash>, start: Block, root: Hash, n: nat)
    requires Complete(s, start) && n <= start.number
  {
    RootAt(s, start, n) in states && Crossed(s, start, root, n)
  }

  /** The ancestor at `n` is the highest that can be the new head. */
  ghost predicate Highest(s: Store, states: set<Hash>, start: Block, root: Hash, n: nat)
    requires Complete(s, start) && n <= start.number
  {
    && Acceptable(s, states, start, root, n)
    && forall m: nat :: n < m <= start.number ==> !Acceptable(s, states, start, root, m)
  }

  /** Walking down to `n`, a block without state was met above it but not above the pivot: there the
      search gives up. */
  ghost predicate GivenUp(s: Store, states: set<Hash>, start: Block, pivot: Option<nat>, n: nat)
    requires Complete(s, start)
  {
    pivot.Some? && exists m: nat :: n < m <= start.number && m <= pivot.value && RootAt(s, start, m) !in states
  }

  /** `head` is the highest ancestor that can be the new head, if there is one above the genesis and the
      search does not give up before it, and the genesis otherwise. */
  ghost predicate Chosen(s: Store, states: set<Hash>, start: Block, root: Hash, pivot: Option<nat>, head: Block)
    requires Complete(s, start)
  {
    && AtOrBelow(s, start, head)
    && forall n: nat {:trigger Highest(s, states, start, root, n)} :: 0 < n <= start.number ==>
         (head.number == n <==> Highest(s, states, start, root, n) && !GivenUp(s, states, start, pivot, n))
  }

  /** Whether the requested root was crossed, and where. */
  datatype Found = Found(beyondRoot: bool, number: nat)

  function Noted(found: Found, root: Hash, at: Block): Found {
    if root != ZERO_HASH && !found.beyondRoot && at.root == root then Found(true, at.number) else found
  }

  /** The search has come down to `n`, which is still to be looked at. */
  ghost predicate Searching(s: Store, states: set<Hash>, start: Block, root: Hash, pivot: Option<nat>, n: nat, found: Found)
    requires Complete(s, start)
  {
    && n <= start.number && !GivenUp(s, states, start, pivot, n)
    && (found.beyondRoot <==> Crossed(s, start, root, n + 1))
    && (forall m: nat :: n < m <= start.number ==> !Acceptable(s, states, start, root, m))
    && (found.number != 0 ==> FirstRoot(s, start, root, found.number) && n < found.number)
    && (root != ZERO_HASH && found.beyondRoot ==> found.number != 0)
  }

  /** Looking at the block at `n` settles whether the root was crossed there or above. */
  lemma NoteRoot(s: Store, states: set<Hash>, start: Block, root: Hash, pivot: Option<nat>, at: Block, found: Found)
    requires Complete(s, start) && AtOrBelow(s, start, at) && Searching(s, states, start, root, pivot, at.number, found)
    ensures var f := Noted(found, root, at);
      && (f.beyondRoot <==> Crossed(s, start, root, at.number))
      && (f.number != 0 ==> FirstRoot(s, start, root, f.number) && at.number <= f.number)
      && (root != ZERO_HASH && f.beyondRoot && at.number > 0 ==> f.number != 0)
  {
    assert RootAt(s, start, at.number) == at.root;
    assert Crossed(s, start, root, at.number)
      <==> Crossed(s, start, root, at.number + 1) || RootAt(s, start, at.number) == root;
  }

  /** One block further down, when this one is not acceptable and the search does not give up here. */
  lemma SearchDown(s: Store, states: set<Hash>, start: Block, root: Hash, pivot: Option<nat>, at: Block, found: Found)
    requires Complete(s, start) && AtOrBelow(s, start, at) && Searching(s, states, start, root, pivot, at.number, found)
    requires at.number > 0 && !(at.root in states && Noted(found, root, at).beyondRoot)
    requires at.root in states || pivot.None? || at.number > pivot.value
    ensures Searching(s, states, start, root, pivot, at.number - 1, Noted(found, root, at))
  {
    NoteRoot(s, states, start, root, pivot, at, found);
    assert RootAt(s, start, at.number) == at.root;
  }

  /** The search ends at a block that has its state, beyond the root or at the genesis. */
  lemma SearchEnds(s: Store, states: set<Hash>, start: Block, root: Hash, pivot: Option<nat>, at: Block, found: Found)
    requires Complete(s, start) && AtOrBelow(s, start, at) && Searching(s, states, start, root, pivot, at.number, found)
    requires at.number == 0 || (at.root in states && Noted(found, root, at).beyondRoot)
    ensures Chosen(s, states, start, root, pivot, at)
  {
    NoteRoot(s, states, start, root, pivot, at, found);
    assert RootAt(s, start, at.number) == at.root;
    assert at.number > 0 ==> Acceptable(s, states, start, root, at.number);
    forall n: nat | 0 < n <= start.number && Highest(s, states, start, root, n) ensures n == at.number {
      assert n >= at.number;
    }
  }

  /** Below a block without state, not above the pivot, everything is given up. */
  lemma SearchGivesUp(s: Store, states: set<Hash>, start: Block, root: Hash, pivot: Option<nat>, at: Block, found: Found,
                      genesis: Block)
    requires Complete(s, start) && AtOrBelow(s, start, at) && Searching(s, states, start, root, pivot, at.number, found)
    requires at.root !in states && pivot.Some? && at.number <= pivot.value
    requires AtOrBelow(s, start, genesis) && genesis.number == 0
    ensures Chosen(s, states, start, root, pivot, genesis)
  {
    assert RootAt(s, start, at.number) !in states;
    forall n: nat | 0 < n <= start.number && Highest(s, states, start, root, n)
      ensures GivenUp(s, states, start, pivot, n)
    {
      assert n < at.number;
    }
  }

  /** `number` is where the requested root was first met, if that was above the genesis and the search did not
      give up before it, and zero otherwise. */
  ghost predicate RootNoted(s: Store, states: set<Hash>, start: Block, root: Hash, pivot: Option<nat>, number: nat)
    requires Complete(s, start)
  {
    forall n: nat {:trigger FirstRoot(s, start, root, n)} :: n > 0 ==>
      (number == n <==> FirstRoot(s, start, root, n) && !GivenUp(s, states, start, pivot, n))
  }

  /** The search ends at this block, whether it finds, gives up or has reached the genesis. */
  ghost predicate Stops(states: set<Hash>, root: Hash, pivot: Option<nat>, at: Block, found: Found) {
    || at.number == 0
    || (at.root in states && Noted(found, root, at).beyondRoot)
    || (at.root !in states && pivot.Some? && at.number <= pivot.value)
  }

  /** There the root number is settled. */
  lemma RootSettled(s: Store, states: set<Hash>, start: Block, root: Hash, pivot: Option<nat>, at: Block, found: Found)
    requires Complete(s, start) && AtOrBelow(s, start, at) && Searching(s, states, start, root, pivot, at.number, found)
    ensures Stops(states, root, pivot, at, found) ==>
      RootNoted(s, states, start, root, pivot, Noted(found, root, at).number)
  {
    if Stops(states, root, pivot, at, found) {
      var f := Noted(found, root, at);
      NoteRoot(s, states, start, root, pivot, at, found);
      assert RootAt(s, start, at.number) == at.root;
      forall n: nat | n > 0 && FirstRoot(s, start, root, n) && !GivenUp(s, states, start, pivot, n) ensures f.number == n {
        assert n >= at.number;
        assert Crossed(s, start, root, at.number) && (at.number == 0 ==> Crossed(s, start, root, 1));
      }
    }
  }

  /** Search downwards from `start` for a block that can be the head; falls back to the genesis when
      the search passes the pivot or runs out of blocks. */
  method FindStateful(s: Store, states: set<Hash>, start: Block, root: Hash, pivot: Option<nat>, genesis: Block)
    returns (head: Block, rootNumber: nat)
    requires WellFormed(s) && ParentClosed(s) && OnlyGenesis(s, genesis) && Complete(s, start)
    ensures Chosen(s, states, start, root, pivot, head)
    ensures rootNumber != 0 ==> head.number <= rootNumber
    ensures RootNoted(s, states, start, root, pivot, rootNumber)
    ensures root != ZERO_HASH && head.number > 0 ==> rootNumber != 0
  {
    head, rootNumber := start, 0;
    var beyondRoot := root == ZERO_HASH;
    while true
      invariant AtOrBelow(s, start, head)
      invariant Searching(s, states, start, root, pivot, head.number, Found(beyondRoot, rootNumber))
      decreases head.number
    {
      ghost var at, found := head, Found(beyondRoot, rootNumber);
      NoteRoot(s, states, start, root, pivot, at, found);
      if root != ZERO_HASH && !beyondRoot && head.root == root {
        beyondRoot, rootNumber := true, head.number;
      }
      if head.number > 0 {
        AncestryParent(s, start.hash, head.number);
        assert HasParent(s, head.hash);
      }
      RootSettled(s, states, start, root, pivot, at, found);
      if head.root !in states {
        if pivot.None? || head.number > pivot.value {
          var parent := GetBlock(s, head.parent, head.number - 1);
          if parent.Some? {
            SearchDown(s, states, start, root, pivot, at, found);
            head := parent.value;
            continue;
          }
        }
        if head.number > 0 {
          SearchGivesUp(s, states, start, root, pivot, at, found, genesis);
        }
        head := genesis;
      }
      if beyondRoot || head.number == 0 {
        if head == at {
          SearchEnds(s, states, start, root, pivot, at, found);
        }
        break;
      }
      SearchDown(s, states, start, root, pivot, at, found);
      head := GetBlock(s, head.parent, head.number - 1).value;
    }
  }

  class HeadMarkers {
    var blocks: Store
    var states: set<Hash>
    var currentBlock: Block
    var currentFastBlock: Block
    var headBlock: Hash
    var headFast: Hash
    const genesis: Block

    /** A chain that consists of its genesis, with its state. */
    constructor (genesis: Block)
      requires genesis.number == 0 && genesis.hash != ZERO_HASH && genesis.parent == ZERO_HASH
      ensures Valid() && this.genesis == genesis == currentBlock == currentFastBlock && genesis.root in states
    {
      blocks, states := map[genesis.hash := genesis], {genesis.root};
      currentBlock, currentFastBlock, headBlock, headFast := genesis, genesis, genesis.hash, genesis.hash;
      this.genesis := genesis;
    }

    ghost predicate Valid()
      reads this
    {
      WellFormed(blocks) && ParentClosed(blocks) && OnlyGenesis(blocks, genesis)
    }

    /** Called before the header chain moves its head to `header`: move the head block and the head
        fast block down with it. A header whose block is missing sends the head to the genesis, and
        then the genesis state is not recommitted. Returns the head and whether to wipe the ancient
        store. */
    method UpdateHead(header: Block, root: Hash, pivot: Option<nat>, frozen: nat) returns (head: Block, wipe: bool)
      requires Valid()
      modifies this
      ensures Valid() && blocks == old(blocks) && head == currentBlock
      ensures currentBlock.number <= header.number && currentFastBlock.number <= header.number
      ensures header.number > old(currentBlock).number ==>
        currentBlock == old(currentBlock) && headBlock == old(headBlock) && states == old(states)
      ensures header.number <= old(currentBlock).number ==>
        var b := GetBlock(blocks, header.hash, header.number);
        && headBlock == currentBlock.hash
        && (b.None? ==> currentBlock == genesis && states == old(states))
        && (b.Some? ==>
              && Complete(blocks, b.value) && Chosen(blocks, old(states), b.value, root, pivot, currentBlock)
              && states == old(states) + (if currentBlock.number == 0 then {genesis.root} else {}))
        && (currentBlock.root in states <==> b.Some? || genesis.root in old(states))
      ensures header.number >= old(currentFastBlock).number ==>
        currentFastBlock == old(currentFastBlock) && headFast == old(headFast)
      ensures header.number < old(currentFastBlock).number ==>
        var b := GetBlock(blocks, header.hash, header.number);
        headFast == currentFastBlock.hash && currentFastBlock == if b.Some? then b.value else genesis
      ensures wipe <==> currentBlock.number + 1 < frozen && (pivot.None? || currentBlock.number >= pivot.value)
    {
      if header.number <= currentBlock.number {
        var newHead := GetBlock(blocks, header.hash, header.number);
        if newHead.None? {
          newHead := Some(genesis);
        } else {
          ClosedRooted(blocks, header.hash);
          var found, rootNumber := FindStateful(blocks, states, newHead.value, root, pivot, genesis);
          assert found.number > 0 ==> Highest(blocks, states, newHead.value, root, found.number);
          if found.number == 0 {
            states := states + {genesis.root};
          }
          newHead := Some(found);
        }
        headBlock := newHead.value.hash;
        currentBlock := newHead.value;
      }
      if header.number < currentFastBlock.number {
        var newFast := GetBlock(blocks, header.hash, header.number);
        if newFast.None? {
          newFast := Some(genesis);
        }
        headFast := newFast.value.hash;
        currentFastBlock := newFast.value;
      }
      head := currentBlock;
      wipe := head.number + 1 < frozen && (pivot.None? || head.number >= pivot.value);
    }

    /** The calls a header rewind makes: one before each header its head moves to, so before the marker of that
        header is written. Neither the head block nor the head fast block is ever above the head header. */
    method Follow(headers: seq<Block>, root: Hash, pivot: Option<nat>, frozen: nat) returns (trace: seq<(Block, Block)>)
      requires Valid()
      modifies this
      ensures Valid() && blocks == old(blocks) && |trace| == |headers|
      ensures forall i :: 0 <= i < |headers| ==>
        trace[i].0.number <= headers[i].number && trace[i].1.number <= headers[i].number
      ensures headers != [] ==> (currentBlock, currentFastBlock) == trace[|trace| - 1]
    {
      trace := [];
      for i := 0 to |headers|
        invariant Valid() && blocks == old(blocks) && |trace| == i
        invariant forall k :: 0 <= k < i ==>
          trace[k].0.number <= headers[k].number && trace[k].1.number <= headers[k].number
        invariant i > 0 ==> (currentBlock, currentFastBlock) == trace[i - 1]
      {
        var head, wipe := UpdateHead(headers[i], root, pivot, frozen);
        trace := trace + [(currentBlock, currentFastBlock)];
      }
    }
  }

  /** A rewind to a header without its block, on a node that has the state of its head but no longer that of the
      genesis: the new head is the genesis, and its state is not there. */
  method StatelessGenesis() returns (markers: HeadMarkers)
    ensures markers.currentBlock == markers.genesis && markers.genesis.root !in markers.states
  {
    var genesis, block := Block(1, ZERO_HASH, 0, 1, 0, 11, []), Block(2, 1, 1, 1, 0, 12, []);
    markers := new HeadMarkers(genesis);
    markers.blocks, markers.states := map[1 := genesis, 2 := block], {12};
    markers.currentBlock, markers.headBlock := block, 2;
    assert AboveParent(markers.blocks, 1) && AboveParent(markers.blocks, 2) && HasParent(markers.blocks, 2);
    var head, wipe := markers.UpdateHead(Block(3, 1, 1, 1, 0, 13, []), ZERO_HASH, None, 0);
  }
}
