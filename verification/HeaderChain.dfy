/** Header-only operation: inserting headers, switching forks, rewinding and looking up ancestors.
    Headers are blocks whose transactions nobody reads. */
module HeaderChain {
  import opened Wrappers
  import opened ChainStore
  import opened ForkChoice

  // ---- Pending number assignments ----
  // A batch is kept as the map the way it will be once written; lookups read the map as it is.

  /** Below `n`, the map is the ancestry of `h`. */
  ghost predicate AgreesBelow(m: map<nat, Hash>, s: Store, h: Hash, n: nat)
    requires Rooted(s, h) && n <= s[h].number + 1
  {
    forall k: nat :: k < n ==> k in m && m[k] == Ancestry(s, h)[k]
  }

  ghost predicate NothingAbove(m: map<nat, Hash>, top: nat) {
    forall n: nat :: n in m ==> n <= top
  }

  lemma AgreesBelowChild(m: map<nat, Hash>, s: Store, b: Block, c: Block)
    requires WellFormed(s) && Known(s, b) && Known(s, c) && c.parent == b.hash && c.number == b.number + 1
    requires Rooted(s, b.hash) && AgreesBelow(m, s, b.hash, b.number)
    ensures Rooted(s, c.hash) && AgreesBelow(m[b.number := b.hash], s, c.hash, c.number)
  {
    assert Ancestry(s, c.hash) == Ancestry(s, b.hash)[c.number := c.hash];
  }

  /** Once the chain of `h` touches a canonical block, it is canonical from there down. */
  lemma CanonicalBelow(s: Store, head: Hash, h: Hash, n: nat)
    requires Rooted(s, head) && Rooted(s, h) && n <= s[h].number && n <= s[head].number
    requires Ancestry(s, head)[n] == Ancestry(s, h)[n]
    ensures AgreesBelow(Ancestry(s, head), s, h, n + 1)
  {
    AncestryCut(s, head, n);
    AncestryCut(s, h, n);
    var a, b := Ancestry(s, Ancestry(s, head)[n]), Ancestry(s, Ancestry(s, h)[n]);
    forall k: nat | k <= n ensures Ancestry(s, head)[k] == Ancestry(s, h)[k] {
      assert k in a && a[k] == Ancestry(s, head)[k] && b[k] == Ancestry(s, h)[k];
    }
  }

  /** Delete every number assignment above `top`, reading upwards until the first gap. */
  method DeleteAbove(canon: map<nat, Hash>, top: nat, ghost last: nat) returns (batch: map<nat, Hash>)
    requires Dense(canon, last)
    ensures batch == Trim(canon, top)
  {
    batch := canon;
    var i := top + 1;
    while ReadCanonicalHash(canon, i) != ZERO_HASH
      invariant top < i && (i <= last + 1 || batch == canon)
      invariant batch == map n | n in canon && !(top < n < i) :: canon[n]
      decreases last + 1 - i
    {
      batch := batch - {i};
      i := i + 1;
    }
  }

  /** `m` is `canon` up to `n` and `anc` above it. */
  ghost predicate Crossing(m: map<nat, Hash>, canon: map<nat, Hash>, anc: map<nat, Hash>, n: int, top: nat) {
    && (forall k: nat :: k <= n && k in canon ==> k in m && m[k] == canon[k])
    && (forall k: nat :: n < k && k in anc ==> k in m && m[k] == anc[k])
    && NothingAbove(m, top)
  }

  lemma CrossDown(m: map<nat, Hash>, canon: map<nat, Hash>, anc: map<nat, Hash>, n: nat, top: nat, h: Hash)
    requires Crossing(m, canon, anc, n, top) && (n in anc ==> anc[n] == h) && n <= top
    ensures Crossing(m[n := h], canon, anc, n - 1, top)
  {
  }

  /** Overwrite stale assignments downwards from `first` until the chains cross. None when a parent
      is missing on the way. */
  method OverwriteDown(s: Store, canon: map<nat, Hash>, cleared: map<nat, Hash>, ghost top: nat, first: Block,
                       ghost head: Hash)
    returns (batch: Option<map<nat, Hash>>)
    requires WellFormed(s) && Rooted(s, head) && canon == Ancestry(s, head) && Known(s, first)
    requires first.number <= top && cleared == Trim(canon, top)
    ensures batch.Some? <==> Rooted(s, first.hash)
    ensures batch.Some? ==> AgreesBelow(batch.value, s, first.hash, first.number + 1)
    ensures batch.Some? ==> NothingAbove(batch.value, top)
  {
    ghost var rooted := Rooted(s, first.hash);
    ghost var anc := if rooted then Ancestry(s, first.hash) else map[];
    var b: map<nat, Hash> := cleared;
    var header, headNumber, headHash := first, first.number, first.hash;
    while ReadCanonicalHash(canon, headNumber) != headHash
      invariant Known(s, header) && header.hash == headHash && header.number == headNumber <= first.number
      invariant Rooted(s, headHash) <==> rooted
      invariant headNumber in anc ==> anc[headNumber] == headHash
      invariant Crossing(b, canon, anc, headNumber, top)
      decreases headNumber
    {
      CrossDown(b, canon, anc, headNumber, top, headHash);
      b := b[headNumber := headHash];
      if headNumber == 0 {
        return Some(b);
      }
      if rooted {
        AncestryParent(s, first.hash, headNumber);
      }
      headHash, headNumber := header.parent, header.number - 1;
      var parent := GetBlock(s, headHash, headNumber);
      if parent.None? {
        return None;
      }
      header := parent.value;
    }
    AncestryCut(s, head, headNumber);
    CanonicalBelow(s, head, first.hash, headNumber);
    return Some(b);
  }

  /** Everything but the batch itself: nothing to do when `first` extends the head, otherwise drop
      what lies above the new head and overwrite what lies below `first`. */
  method ClearFork(s: Store, canon: map<nat, Hash>, head: Hash, first: Block, top: nat)
    returns (batch: Option<map<nat, Hash>>)
    requires WellFormed(s) && Rooted(s, head) && canon == Ancestry(s, head) && Known(s, first) && first.number <= top
    ensures batch.Some? <==> Rooted(s, first.hash)
    ensures batch.Some? ==> AgreesBelow(batch.value, s, first.hash, first.number) && NothingAbove(batch.value, top)
  {
    if first.parent == head {
      assert AboveParent(s, first.hash);
      return Some(canon);
    }
    AncestryDense(s, head);
    var cleared := DeleteAbove(canon, top, s[head].number);
    batch := OverwriteDown(s, canon, cleared, top, first, head);
  }

  /** Assign the numbers of a linked batch on top of what is pending. */
  method ExtendWith(pending: map<nat, Hash>, headers: seq<Block>, ghost s: Store) returns (batch: map<nat, Hash>)
    requires WellFormed(s) && headers != [] && Linked(headers) && AllKnown(s, headers)
    requires Rooted(s, headers[0].hash) && AgreesBelow(pending, s, headers[0].hash, headers[0].number)
    requires headers[0].number <= headers[|headers| - 1].number && NothingAbove(pending, headers[|headers| - 1].number)
    ensures Rooted(s, headers[|headers| - 1].hash)
    ensures batch == Ancestry(s, headers[|headers| - 1].hash)
  {
    batch := pending;
    ghost var last := headers[|headers| - 1].number;
    for i := 0 to |headers| - 1
      invariant Rooted(s, headers[i].hash) && AgreesBelow(batch, s, headers[i].hash, headers[i].number)
      invariant headers[i].number == headers[0].number + i
      invariant forall n: nat :: n in batch ==> n <= last || n < headers[i].number
    {
      assert Follows(headers, i + 1);
      AgreesBelowChild(batch, s, headers[i], headers[i + 1]);
      batch := batch[headers[i].number := headers[i + 1].parent];
    }
    batch := batch[headers[|headers| - 1].number := headers[|headers| - 1].hash];
  }

  /** `b` is the canonical header at its number, at or below `head`. */
  ghost predicate OnChainAt(canon: map<nat, Hash>, head: Block, b: Block) {
    b.number <= head.number && b.number in canon && canon[b.number] == b.hash
  }

  /** No canonical header above `lo` up to `hi` meets the target. */
  ghost predicate NoneMeets(s: Store, canon: map<nat, Hash>, lo: int, hi: nat, headBlock: nat, headTime: nat) {
    forall n: nat :: lo < n <= hi && n in canon && canon[n] in s ==> !Meets(s[canon[n]], headBlock, headTime)
  }

  /** The states of the database while the head moves down from number `top`: the marker is written once for
      each number, and nothing else changes. */
  ghost predicate MarkersDown(db: Db, top: nat, persisted: seq<Db>) {
    |persisted| <= top && forall i :: 0 <= i < |persisted| ==> MarkerAt(db, top - 1 - i, persisted[i])
  }

  ghost predicate MarkerAt(db: Db, n: nat, db': Db) {
    n in db.canon && db' == db.(headHeader := db.canon[n])
  }

  /** In each of these states of the database the head-header marker names a stored header. */
  ghost predicate HeadsStored(persisted: seq<Db>) {
    forall i :: 0 <= i < |persisted| ==> persisted[i].headHeader in persisted[i].blocks
  }

  /** Every header on the way down is stored, and stays so until all markers are written. */
  lemma MarkersStored(db: Db, top: nat, persisted: seq<Db>, last: Db)
    requires MarkersDown(db, top, persisted) && (forall n: nat :: n in db.canon ==> db.canon[n] in db.blocks)
    requires last.headHeader in last.blocks
    ensures HeadsStored(persisted + [last])
  {
    forall i | 0 <= i < |persisted| ensures persisted[i].headHeader in persisted[i].blocks {
      assert MarkerAt(db, top - 1 - i, persisted[i]);
    }
  }

  lemma MarkersNext(db: Db, top: nat, persisted: seq<Db>, db': Db)
    requires MarkersDown(db, top, persisted) && |persisted| < top && MarkerAt(db, top - 1 - |persisted|, db')
    ensures MarkersDown(db, top, persisted + [db'])
  {
  }

  /** The target of a rewind: a time when one is given, otherwise a number. */
  predicate Meets(header: Block, headBlock: nat, headTime: nat) {
    if headTime > 0 then header.time <= headTime else header.number <= headBlock
  }

  ghost predicate OnlyGenesis(s: Store, genesis: Block) {
    && Known(s, genesis) && genesis.number == 0
    && forall h :: h in s && s[h].number == 0 ==> h == genesis.hash
  }

  function UpTo(s: Store, n: nat): Store {
    map h | h in s && s[h].number <= n :: s[h]
  }

  /** The difficulties without those of the blocks above `n`. */
  function Lowered(td: map<Hash, nat>, s: Store, n: nat): map<Hash, nat> {
    map h | h in td && !(h in s && s[h].number > n) :: td[h]
  }

  function AllHashes(s: Store, n: nat): set<Hash> {
    set h | h in s && s[h].number == n
  }

  /** `hashes` are exactly the stored headers above `n`. */
  ghost predicate Above(s: Store, hashes: set<Hash>, n: nat) {
    forall h :: h in hashes <==> h in s && s[h].number > n
  }

  /** `numbers` lie above `n` and include every assigned number there. */
  ghost predicate NumbersAbove(canon: map<nat, Hash>, numbers: set<nat>, n: nat) {
    (forall k :: k in numbers ==> k > n) && (forall k: nat :: k in canon && k > n ==> k in numbers)
  }

  lemma NoneMeetsStep(s: Store, canon: map<nat, Hash>, b: Block, hi: nat, headBlock: nat, headTime: nat)
    requires NoneMeets(s, canon, b.number, hi, headBlock, headTime)
    requires Known(s, b) && b.number in canon && canon[b.number] == b.hash && !Meets(b, headBlock, headTime)
    ensures NoneMeets(s, canon, b.number - 1, hi, headBlock, headTime)
  {
  }

  lemma TrimNumbers(canon: map<nat, Hash>, numbers: set<nat>, n: nat)
    requires NumbersAbove(canon, numbers, n)
    ensures canon - numbers == Trim(canon, n)
  {
  }

  ghost function MaxNumber(s: Store): (n: nat)
    ensures forall h :: h in s ==> s[h].number <= n
  {
    if s == map[] then 0
    else
      var h :| h in s;
      var rest := MaxNumber(s - {h});
      assert forall g :: g in s && g != h ==> g in s - {h};
      Max(s[h].number, rest)
  }

  /** The numbers above `num` that still hold headers, up to the first that holds none, highest first. */
  method LeftoverAbove(s: Store, num: nat) returns (nums: seq<nat>)
    ensures forall n :: n in nums ==> n > num && AllHashes(s, n) != {}
    ensures forall n: nat :: n > num && n !in nums ==> exists k: nat :: num < k <= n && AllHashes(s, k) == {}
  {
    nums := [];
    var n := num + 1;
    while AllHashes(s, n) != {}
      invariant n > num
      invariant forall k: nat :: k in nums <==> num < k < n
      invariant forall k: nat :: num < k < n ==> AllHashes(s, k) != {}
      decreases MaxNumber(s) + 1 - n
    {
      var h :| h in AllHashes(s, n);
      nums := [n] + nums;
      n := n + 1;
    }
  }

  /** Everything stored at the given numbers, added to what is already scheduled for deletion. */
  method GatherDeletions(s: Store, nums: seq<nat>, hdr: Block, hashes0: set<Hash>, numbers0: set<nat>)
    returns (hashes: set<Hash>, numbers: set<nat>)
    requires forall n :: n in nums ==> AllHashes(s, n) != {}
    ensures forall h :: h in hashes <==> h in hashes0 || (h in s && s[h].number in nums)
    ensures forall n :: n in numbers <==> n in numbers0 || n in nums
  {
    hashes, numbers := hashes0, numbers0;
    for i := 0 to |nums|
      invariant forall h :: h in hashes <==> h in hashes0 || (h in s && s[h].number in nums[..i])
      invariant forall n :: n in numbers <==> n in numbers0 || n in nums[..i]
    {
      var at := AllHashes(s, nums[i]);
      if at == {} {
        at := at + {hdr.hash};
      }
      hashes := hashes + at;
      numbers := numbers + {nums[i]};
    }
  }

  lemma NoGap(s: Store, h: Hash, n: nat)
    requires ParentClosed(s) && h in s && n <= s[h].number
    ensures AllHashes(s, n) != {}
  {
    ClosedRooted(s, h);
    assert Ancestry(s, h)[n] in AllHashes(s, n);
  }

  /** One step of the rewind: schedule everything at the number of `hdr`, and on the first step also
      whatever lies above it. */
  method ScheduleDeletions(s: Store, hdr: Block, origin: bool, hashes0: set<Hash>, numbers0: set<nat>,
                           ghost canon: map<nat, Hash>)
    returns (hashes: set<Hash>, numbers: set<nat>)
    requires ParentClosed(s) && Known(s, hdr) && hdr.number > 0
    requires if origin then hashes0 == {} else Above(s, hashes0, hdr.number)
    requires NumbersAbove(canon, numbers0, hdr.number)
    ensures Above(s, hashes, hdr.number - 1) && NumbersAbove(canon, numbers, hdr.number - 1)
  {
    var nums := [];
    if origin {
      nums := LeftoverAbove(s, hdr.number);
      forall h | h in s && s[h].number > hdr.number ensures s[h].number in nums {
        forall k: nat | k <= s[h].number ensures AllHashes(s, k) != {} { NoGap(s, h, k); }
      }
    }
    NoGap(s, hdr.hash, hdr.number);
    nums := nums + [hdr.number];
    hashes, numbers := GatherDeletions(s, nums, hdr, hashes0, numbers0);
  }

  /** Dropping everything above a rooted header keeps a consistent store with the same ancestry. */
  lemma RewoundStore(s: Store, td: map<Hash, nat>, hashes: set<Hash>, n: nat)
    requires WellFormed(s) && ParentClosed(s) && Above(s, hashes, n)
    ensures s - hashes == UpTo(s, n) && td - hashes == Lowered(td, s, n)
    ensures WellFormed(UpTo(s, n)) && ParentClosed(UpTo(s, n))
    ensures TdExact(s, td) ==> TdExact(UpTo(s, n), td - hashes)
  {
    var s' := UpTo(s, n);
    assert s - hashes == s';
    forall h | h in s' ensures AboveParent(s', h) {
      assert AboveParent(s, h);
    }
    forall h | h in s' && s'[h].number > 0 ensures HasParent(s', h) {
      assert HasParent(s, h);
    }
    if TdExact(s, td) {
      forall h | h in s' && s'[h].number > 0 ensures TdAdds(s', td - hashes, h) {
        assert TdAdds(s, td, h) && AboveParent(s, h);
      }
    }
  }

  lemma RewoundAncestry(s: Store, head: Hash)
    requires WellFormed(s) && Rooted(s, head) && ParentClosed(UpTo(s, s[head].number))
    ensures Rooted(UpTo(s, s[head].number), head) && Ancestry(UpTo(s, s[head].number), head) == Ancestry(s, head)
  {
    var s' := UpTo(s, s[head].number);
    ClosedRooted(s', head);
    AncestryGrow(s', s, head);
  }

  /** A rewind from `from` stops at `to`: for a number target at that number, or at once when the head is not above
      it; for a time target at the highest header that is not later. */
  ghost predicate StopsRight(s: Store, canon: map<nat, Hash>, from: Block, to: Block, headBlock: nat, headTime: nat) {
    if headTime == 0 then to.number == Min(headBlock, from.number)
    else
      && to.time <= headTime
      && forall n: nat :: to.number < n <= from.number ==> n in canon && canon[n] in s && s[canon[n]].time > headTime
  }

  /** That is the highest ancestor of the head that meets the target. */
  lemma StopExact(s: Store, from: Block, to: Block, headBlock: nat, headTime: nat)
    requires Known(s, from) && Rooted(s, from.hash) && Known(s, to) && OnChainAt(Ancestry(s, from.hash), from, to)
    ensures StopsRight(s, Ancestry(s, from.hash), from, to, headBlock, headTime) <==>
      && Meets(to, headBlock, headTime)
      && NoneMeets(s, Ancestry(s, from.hash), to.number, from.number, headBlock, headTime)
  {
    if to.number < from.number {
      var next := s[Ancestry(s, from.hash)[to.number + 1]];
      assert next.number == to.number + 1;
    }
  }

  /** Every block above number 0 names a parent, stored or not. */
  ghost predicate ParentsNamed(s: Store) {
    forall h :: h in s && s[h].number > 0 ==> s[h].parent != ZERO_HASH
  }

  /** Deleting what a rewind from `from` to `to` scheduled leaves the tables of a chain that ends in `to`. */
  lemma RewoundTables(s: Store, td: map<Hash, nat>, from: Block, to: Block, hashes: set<Hash>, numbers: set<nat>,
                      genesis: Block)
    requires WellFormed(s) && ParentClosed(s) && OnlyGenesis(s, genesis) && Known(s, to) && Rooted(s, from.hash)
    requires Known(s, from) && OnChainAt(Ancestry(s, from.hash), from, to)
    requires Above(s, hashes, to.number) && NumbersAbove(Ancestry(s, from.hash), numbers, to.number)
    ensures var s' := s - hashes;
      && s' == UpTo(s, to.number) && WellFormed(s') && ParentClosed(s') && OnlyGenesis(s', genesis)
      && td - hashes == Lowered(td, s, to.number) && (TdExact(s, td) ==> TdExact(s', td - hashes))
      && Known(s', to) && Rooted(s', to.hash)
      && Ancestry(s, from.hash) - numbers == Ancestry(s', to.hash) == Trim(Ancestry(s, from.hash), to.number)
  {
    AncestryCut(s, from.hash, to.number);
    RewoundStore(s, td, hashes, to.number);
    RewoundAncestry(s, to.hash);
    TrimNumbers(Ancestry(s, from.hash), numbers, to.number);
  }

  /** How many of the steps of a walk start from a block that is not canonical. */
  ghost function OffChain(s: Store, canon: map<nat, Hash>, h: Hash, n: nat, k: nat): nat
    requires k <= n
    decreases k
  {
    var header := GetBlock(s, h, n);
    if k == 0 || ReadCanonicalHash(canon, n) == h || header.None? then 0
    else 1 + OffChain(s, canon, header.value.parent, n - 1, k - 1)
  }

  /** The zero hash has no ancestors, so the answers `GetAncestor` gives for it are wrong. */
  lemma ZeroHashHasNoAncestor(s: Store, n: nat, k: nat)
    requires WellFormed(s) && 1 <= k <= n
    ensures Walk(s, ZERO_HASH, n, k) == None
  {
  }

  /** From a canonical block the naive walk stays canonical. */
  lemma {:induction false} CanonicalWalk(s: Store, head: Hash, n: nat, k: nat)
    requires Rooted(s, head) && k <= n <= s[head].number
    ensures Walk(s, Ancestry(s, head)[n], n, k) == Some(Ancestry(s, head)[n - k])
    decreases k
  {
    if k > 0 {
      AncestryParent(s, head, n);
      CanonicalWalk(s, head, n - 1, k - 1);
    }
  }

  datatype InsertStatus = NonStat | Canonical | Side

  /** The insertion was refused before anything was written, it failed afterwards, or it succeeded; then
      `imported` of the headers were new, and `ignored` were known before. */
  datatype InsertResult = Aborted | Errored | Inserted(status: InsertStatus, imported: nat, ignored: nat)

  /** Of the first `i` headers exactly the last `n` are missing from the store. */
  ghost predicate NewSuffix(s: Store, headers: seq<Block>, i: nat, n: nat) {
    n <= i <= |headers| && forall k {:trigger headers[k]} :: 0 <= k < i ==> (headers[k].hash in s <==> k < i - n)
  }

  /** A stored header has its parent stored, so behind an unknown header every header is unknown. */
  lemma UnknownStays(s: Store, td: map<Hash, nat>, headers: seq<Block>, i: nat, n: nat)
    requires TdExact(s, td) && Linked(headers) && i < |headers| && headers[i].number > 0
    requires headers[i].hash in s ==> s[headers[i].hash] == headers[i]
    requires NewSuffix(s, headers, i, n)
    ensures n > 0 ==> headers[i].hash !in s
    ensures NewSuffix(s, headers, i + 1, if headers[i].hash in s then n else n + 1)
  {
    assert headers[i].hash in s ==> TdAdds(s, td, headers[i].hash);
    assert i > 0 ==> Follows(headers, i);
  }

  datatype Tables = Tables(blocks: Store, td: map<Hash, nat>)

  function StoreOne(t: Tables, b: Block): Tables {
    var ptd := if b.parent in t.td then t.td[b.parent] else 0;
    Tables(t.blocks[b.hash := b], t.td[b.hash := ptd + b.difficulty])
  }

  /** The simple form of `WriteHeaders`: store the first `i` headers one by one, known or not, each
      with the difficulty of its parent plus its own. */
  ghost function StoreAll(t: Tables, headers: seq<Block>, i: nat): Tables
    requires i <= |headers|
  {
    if i == 0 then t else StoreOne(StoreAll(t, headers, i - 1), headers[i - 1])
  }

  /** `t'` has every entry of `t`, exact difficulties, and no block that is not in `u`. */
  ghost predicate Between(t: Tables, t': Tables, u: Store) {
    && TdExact(t'.blocks, t'.td) && Extends(t.blocks, t'.blocks) && Extends(t'.blocks, u)
    && forall h :: h in t.td ==> h in t'.td && t'.td[h] == t.td[h]
  }

  lemma StoreOneExact(t: Tables, t': Tables, b: Block, u: Store)
    requires Between(t, t', u) && WellFormed(u) && Known(u, b) && b.parent in t'.td && b.number > 0
    ensures Between(t, StoreOne(t', b), u)
    ensures b.hash in t'.blocks ==> StoreOne(t', b) == t'
  {
    TogetherFits(t'.blocks, [b], u, 0);
    TdWrite(t'.blocks, t'.td, b);
    if b.hash in t'.blocks {
      assert TdAdds(t'.blocks, t'.td, b.hash);
      UpdateNothing(t'.blocks, b.hash, b);
      UpdateNothing(t'.td, b.hash, t'.td[b.parent] + b.difficulty);
    }
  }

  /** The batch hangs below a stored header with a difficulty. */
  ghost predicate Attached(t: Tables, headers: seq<Block>, u: Store) {
    && TdExact(t.blocks, t.td) && Linked(headers) && Together(t.blocks, headers, u)
    && headers != [] && headers[0].parent in t.td && headers[0].number > 0
  }

  /** Storing a batch that way stores all of it, keeps the old entries and keeps the table exact. */
  lemma {:induction false} StoreAllExact(t: Tables, headers: seq<Block>, i: nat, u: Store)
    requires Attached(t, headers, u) && i <= |headers|
    ensures Between(t, StoreAll(t, headers, i), u)
    ensures forall k {:trigger headers[k]} :: 0 <= k < i ==> headers[k].hash in StoreAll(t, headers, i).blocks
    ensures i < |headers| ==> headers[i].parent in StoreAll(t, headers, i).td && headers[i].number > 0
    decreases i
  {
    if i > 0 {
      StoreAllExact(t, headers, i - 1, u);
      StoreOneExact(t, StoreAll(t, headers, i - 1), headers[i - 1], u);
      assert i < |headers| ==> Follows(headers, i);
    }
  }

  /** One header further; storing a header that is stored already changes nothing. */
  lemma StoreStep(t: Tables, headers: seq<Block>, i: nat, u: Store)
    requires Attached(t, headers, u) && i < |headers|
    ensures headers[i].number > 0 && headers[i].parent in StoreAll(t, headers, i).td
    ensures headers[i].hash in t.blocks ==> t.blocks[headers[i].hash] == headers[i]
    ensures headers[i].hash in t.blocks ==> StoreOne(StoreAll(t, headers, i), headers[i]) == StoreAll(t, headers, i)
  {
    StoreAllExact(t, headers, i, u);
    StoreOneExact(t, StoreAll(t, headers, i), headers[i], u);
  }

  /** A linked batch is rooted as a whole or not at all. */
  lemma {:induction false} RootedTop(s: Store, headers: seq<Block>)
    requires WellFormed(s) && headers != [] && Linked(headers) && AllKnown(s, headers)
    ensures Rooted(s, headers[|headers| - 1].hash) <==> Rooted(s, headers[0].hash)
    ensures headers[|headers| - 1].number == headers[0].number + |headers| - 1
    decreases |headers|
  {
    if |headers| > 1 {
      var init := headers[..|headers| - 1];
      forall i | 0 < i < |init| ensures Follows(init, i) {
        assert Follows(headers, i);
      }
      RootedTop(s, init);
      assert Follows(headers, |headers| - 1);
    }
  }

  // ---- Writing a batch of headers ----

  /** The index of the first header of the batch, from `i` on, that is not stored. */
  ghost function FirstUnknown(s: Store, headers: seq<Block>, i: nat): (f: nat)
    requires i <= |headers|
    ensures i <= f <= |headers| && (f < |headers| ==> headers[f].hash !in s)
    ensures forall k {:trigger headers[k]} :: i <= k < f ==> headers[k].hash in s
    decreases |headers| - i
  {
    if i == |headers| || headers[i].hash !in s then i else FirstUnknown(s, headers, i + 1)
  }

  /** The difficulty of the first parent plus those of the first `i` headers. */
  function SumTd(headers: seq<Block>, ptd: nat, i: nat): nat
    requires i <= |headers|
  {
    if i == 0 then ptd else SumTd(headers, ptd, i - 1) + headers[i - 1].difficulty
  }

  /** The tables after the first `i` headers when those from `f` on are written, known or not. */
  ghost function WriteFrom(t: Tables, headers: seq<Block>, ptd: nat, f: nat, i: nat): Tables
    requires i <= |headers|
  {
    if i <= f then t
    else
      var w, b := WriteFrom(t, headers, ptd, f, i - 1), headers[i - 1];
      Tables(w.blocks[b.hash := b], w.td[b.hash := SumTd(headers, ptd, i)])
  }

  /** What `WriteHeaders` leaves on any store: everything from the first unknown header on is written. */
  ghost function Written(t: Tables, headers: seq<Block>): Tables
    requires headers != [] && headers[0].parent in t.td
  {
    WriteFrom(t, headers, t.td[headers[0].parent], FirstUnknown(t.blocks, headers, 0), |headers|)
  }

  /** Writing adds the headers from `f` on, each with a difficulty, and no other block. */
  lemma {:induction false} WriteFromKnown(t: Tables, headers: seq<Block>, ptd: nat, f: nat, i: nat, u: Store)
    requires Together(t.blocks, headers, u) && i <= |headers|
    ensures var w := WriteFrom(t, headers, ptd, f, i);
      && Extends(t.blocks, w.blocks) && Extends(w.blocks, u) && t.td.Keys <= w.td.Keys
      && (forall k {:trigger headers[k]} :: f <= k < i ==> headers[k].hash in w.blocks && headers[k].hash in w.td)
    decreases i
  {
    if i > f {
      WriteFromKnown(t, headers, ptd, f, i - 1, u);
      var b := headers[i - 1];
      assert Known(u, b);
    }
  }

  /** On any store the batch is known afterwards, and the store still describes one tree. */
  lemma WrittenKnown(t: Tables, headers: seq<Block>, u: Store)
    requires headers != [] && headers[0].parent in t.td && Together(t.blocks, headers, u)
    ensures var w := Written(t, headers);
      WellFormed(w.blocks) && Extends(t.blocks, w.blocks) && AllKnown(w.blocks, headers) && t.td.Keys <= w.td.Keys
    ensures FirstUnknown(t.blocks, headers, 0) == |headers| ==> Written(t, headers) == t
    ensures FirstUnknown(t.blocks, headers, 0) < |headers| ==> Written(t, headers).blocks != t.blocks
  {
    var f, w := FirstUnknown(t.blocks, headers, 0), Written(t, headers);
    WriteFromKnown(t, headers, t.td[headers[0].parent], f, |headers|, u);
    TogetherFits(w.blocks, headers, u, 0);
    forall k | 0 <= k < |headers| ensures Known(w.blocks, headers[k]) {
      assert headers[k].hash in w.blocks && Known(u, headers[k]);
    }
    if f < |headers| {
      assert headers[f].hash in w.blocks;
    }
  }

  /** On a store with exact difficulties skipping the known headers and writing the rest is the simple form. */
  lemma {:induction false} WriteFromExact(t: Tables, headers: seq<Block>, i: nat, u: Store)
    requires Attached(t, headers, u) && i <= |headers|
    ensures var ptd, f := t.td[headers[0].parent], FirstUnknown(t.blocks, headers, 0);
      && WriteFrom(t, headers, ptd, f, i) == StoreAll(t, headers, i)
      && NewSuffix(t.blocks, headers, i, if i <= f then 0 else i - f)
      && (i < |headers| ==>
            headers[i].parent in StoreAll(t, headers, i).td
            && StoreAll(t, headers, i).td[headers[i].parent] == SumTd(headers, ptd, i))
    decreases i
  {
    if i > 0 {
      var j, f := i - 1, FirstUnknown(t.blocks, headers, 0);
      WriteFromExact(t, headers, j, u);
      StoreStep(t, headers, j, u);
      UnknownStays(t.blocks, t.td, headers, j, if j <= f then 0 else j - f);
      assert i < |headers| ==> Follows(headers, i);
      SumStored(t, headers, i);
    }
  }

  lemma SumStored(t: Tables, headers: seq<Block>, i: nat)
    requires 0 < i <= |headers| && headers[i - 1].parent in StoreAll(t, headers, i - 1).td
    ensures var before, after := StoreAll(t, headers, i - 1), StoreAll(t, headers, i);
      headers[i - 1].hash in after.td
      && after.td[headers[i - 1].hash] == before.td[headers[i - 1].parent] + headers[i - 1].difficulty
  {
  }

  /** The loop of `WriteHeaders`: the tables as they will be once the batch is written, while every
      lookup still reads the tables as they are. */
  method CollectHeaders(t: Tables, headers: seq<Block>, ptd: nat, ghost u: Store) returns (batch: Tables, inserted: nat)
    requires headers != [] && Linked(headers) && Together(t.blocks, headers, u)
    requires headers[0].parent in t.td && t.td[headers[0].parent] == ptd
    ensures batch == Written(t, headers)
    ensures inserted == |headers| - FirstUnknown(t.blocks, headers, 0)
  {
    var newTd, parentKnown := ptd, true;
    batch, inserted := t, 0;
    ghost var f := FirstUnknown(t.blocks, headers, 0);
    for i := 0 to |headers|
      invariant batch == WriteFrom(t, headers, ptd, f, i) && newTd == SumTd(headers, ptd, i)
      invariant (parentKnown <==> i <= f) && inserted == if i <= f then 0 else i - f
    {
      var header := headers[i];
      var hash := if i < |headers| - 1 then headers[i + 1].parent else header.hash;
      assert i < |headers| - 1 ==> Follows(headers, i + 1);
      newTd := newTd + header.difficulty;
      assert Known(u, header);
      var alreadyKnown := parentKnown && GetBlock(t.blocks, hash, header.number).Some?;
      if !alreadyKnown {
        batch := Tables(batch.blocks[hash := header], batch.td[hash := newTd]);
        inserted := inserted + 1;
      }
      parentKnown := alreadyKnown;
    }
  }

  /** On a store with exact difficulties: they stay exact, no entry is rewritten, and if the batch is stored it
      is stored header by header and `inserted` of them, a suffix, were new. */
  ghost predicate ExactlyStored(db: Db, db': Db, headers: seq<Block>, stored: bool, inserted: nat) {
    && TdExact(db'.blocks, db'.td)
    && (forall h :: h in db.td ==> h in db'.td && db'.td[h] == db.td[h])
    && (stored ==>
          && Tables(db'.blocks, db'.td) == StoreAll(Tables(db.blocks, db.td), headers, |headers|)
          && NewSuffix(db.blocks, headers, |headers|, inserted))
  }

  lemma WrittenExactly(db: Db, db': Db, headers: seq<Block>, u: Store)
    requires Attached(Tables(db.blocks, db.td), headers, u)
    requires Tables(db'.blocks, db'.td) == Written(Tables(db.blocks, db.td), headers)
    ensures ExactlyStored(db, db', headers, true, |headers| - FirstUnknown(db.blocks, headers, 0))
  {
    WriteFromExact(Tables(db.blocks, db.td), headers, |headers|, u);
    StoreAllExact(Tables(db.blocks, db.td), headers, |headers|, u);
  }

  // ---- The choice of the head, and when it fails ----

  /** Choosing the head fails: a difficulty is missing, or the batch should become canonical but its chain has
      a gap. */
  ghost predicate Fails(t: Tables, canon: map<nat, Hash>, head: Block, last: Block, ttd: Option<nat>,
                        preserve: Block -> bool, coin: bool) {
    head.hash !in t.td || last.hash !in t.td ||
    (Preferred(t.td, head, last, ttd, preserve, coin) && !OnChainAt(canon, head, last) && !Rooted(t.blocks, last.hash))
  }

  /** The head `now` after a batch that ends in `last` was stored: `last` if fork choice says so and it was not
      canonical before, and otherwise the head it was. The status says which, and tells a side chain with new
      headers from a batch that brought none or was canonical already. */
  ghost predicate Decided(td: map<Hash, nat>, canon: map<nat, Hash>, head: Block, last: Block, now: Block,
                          status: InsertStatus, inserted: nat, ttd: Option<nat>, preserve: Block -> bool, coin: bool) {
    && head.hash in td && last.hash in td && (now == head || now == last)
    && var preferred :=
         ReorgNeeded(Some(td[head.hash]), Some(td[last.hash]), ttd, head, last, preserve, coin) == Some(true);
       var canonical := last.number <= head.number && last.number in canon && canon[last.number] == last.hash;
       && (now == last <==> (preferred && !canonical) || last == head)
       && (status == Canonical <==> preferred && !canonical)
       && (status == Side <==> !preferred && inserted > 0)
  }

  /** On exact difficulties an ancestor has no more than its descendant. */
  lemma {:induction false} AncestorTd(s: Store, td: map<Hash, nat>, h: Hash, n: nat)
    requires TdExact(s, td) && Rooted(s, h) && n <= s[h].number
    ensures td[Ancestry(s, h)[n]] <= td[h]
    decreases s[h].number
  {
    if n < s[h].number {
      assert TdAdds(s, td, h);
      AncestorTd(s, td, s[h].parent, n);
    }
  }

  /** So on exact difficulties the head decided on is as heavy, as fork choice counts, as the heavier of the two. */
  lemma HeaviestChosen(s: Store, td: map<Hash, nat>, head: Block, last: Block, now: Block, status: InsertStatus,
                       inserted: nat, ttd: Option<nat>, preserve: Block -> bool, coin: bool)
    requires TdExact(s, td) && Known(s, head) && Rooted(s, head.hash) && Known(s, last)
    requires Decided(td, Ancestry(s, head.hash), head, last, now, status, inserted, ttd, preserve, coin)
    ensures Capped(td[now.hash], ttd) == Max(Capped(td[head.hash], ttd), Capped(td[last.hash], ttd))
  {
    if last.number <= head.number {
      AncestorTd(s, td, head.hash, last.number);
    }
  }

  /** An insertion into `db` writes headers and fails afterwards: some header is new, and the head has no
      difficulty, or the summed difficulty of the batch is preferred but the parent of the batch has a gap below
      it. */
  ghost predicate WritesThenFails(db: Db, head: Block, headers: seq<Block>, interrupted: bool, ttd: Option<nat>,
                                  preserve: Block -> bool, coin: bool)
    requires headers != []
  {
    var ptd := GetTd(db, headers[0].parent, headers[0].number - 1);
    && !interrupted && ptd.Some? && FirstUnknown(db.blocks, headers, 0) < |headers|
    && (head.hash !in db.td ||
        (&& ReorgNeeded(Some(db.td[head.hash]), Some(SumTd(headers, ptd.value, |headers|)), ttd,
                        head, headers[|headers| - 1], preserve, coin) == Some(true)
         && !Rooted(db.blocks, headers[0].parent)))
  }

  /** A stored header of a batch with a complete chain has all earlier headers of the batch stored. */
  lemma {:induction false} RootedBatch(s: Store, headers: seq<Block>, u: Store, j: nat)
    requires Linked(headers) && Together(s, headers, u) && j < |headers| && Rooted(s, headers[j].hash)
    ensures forall k {:trigger headers[k]} :: 0 <= k <= j ==> headers[k].hash in s
    decreases j
  {
    if j > 0 {
      assert Known(u, headers[j]) && Follows(headers, j);
      RootedBatch(s, headers, u, j - 1);
    }
  }

  /** From the first unknown header on none has a complete chain yet. */
  lemma UnknownNotRooted(s: Store, headers: seq<Block>, u: Store, k: nat)
    requires Linked(headers) && Together(s, headers, u) && FirstUnknown(s, headers, 0) <= k < |headers|
    ensures !Rooted(s, headers[k].hash)
  {
    if Rooted(s, headers[k].hash) {
      RootedBatch(s, headers, u, k);
    }
  }

  /** Other difficulties stay as they were. */
  lemma {:induction false} WriteFromTd(t: Tables, headers: seq<Block>, ptd: nat, f: nat, i: nat, h: Hash)
    requires i <= |headers| && forall k {:trigger headers[k]} :: f <= k < i ==> headers[k].hash != h
    ensures var w := WriteFrom(t, headers, ptd, f, i);
      (h in w.td <==> h in t.td) && (h in t.td ==> w.td[h] == t.td[h])
    decreases i
  {
    if i > f {
      assert headers[i - 1].hash != h;
      WriteFromTd(t, headers, ptd, f, i - 1, h);
    }
  }

  lemma {:induction false} NumbersUp(headers: seq<Block>, k: nat)
    requires Linked(headers) && k < |headers|
    ensures headers[k].number == headers[0].number + k
    decreases k
  {
    if k > 0 {
      assert Follows(headers, k);
      NumbersUp(headers, k - 1);
    }
  }

  /** Nothing is written below the batch. */
  lemma {:induction false} WriteFromHigh(t: Tables, headers: seq<Block>, ptd: nat, f: nat, i: nat)
    requires Linked(headers) && headers != [] && i <= |headers|
    ensures var w := WriteFrom(t, headers, ptd, f, i);
      forall h :: h in w.blocks && h !in t.blocks ==> w.blocks[h].number >= headers[0].number
    decreases i
  {
    if i > f {
      NumbersUp(headers, i - 1);
      WriteFromHigh(t, headers, ptd, f, i - 1);
    }
  }

  /** Adding blocks above a block completes no chain below it. */
  lemma {:induction false} RootedLow(s: Store, s': Store, n: nat, h: Hash)
    requires Extends(s, s') && (forall g :: g in s' && g !in s ==> s'[g].number > n)
    requires Rooted(s', h) && s'[h].number <= n
    ensures Rooted(s, h)
    decreases s'[h].number
  {
    if s'[h].number > 0 {
      RootedLow(s, s', n, s'[h].parent);
    }
  }

  /** Whether a written batch has a complete chain, its first parent decides. */
  lemma WrittenRooted(t: Tables, headers: seq<Block>, u: Store)
    requires headers != [] && headers[0].parent in t.td && Linked(headers) && Together(t.blocks, headers, u)
    requires headers[0].parent in t.blocks
    ensures Rooted(Written(t, headers).blocks, headers[|headers| - 1].hash) <==> Rooted(t.blocks, headers[0].parent)
  {
    var s, w, p := t.blocks, Written(t, headers).blocks, headers[0].parent;
    WrittenKnown(t, headers, u);
    RootedTop(w, headers);
    assert Known(w, headers[0]) && AboveParent(w, headers[0].hash);
    WriteFromHigh(t, headers, t.td[p], FirstUnknown(s, headers, 0), |headers|);
    if Rooted(w, p) {
      RootedLow(s, w, headers[0].number - 1, p);
    }
    if Rooted(s, p) {
      AncestryGrow(s, w, p);
    }
  }

  /** The last header gets the summed difficulty, and a block with a complete chain keeps its own. */
  lemma WrittenTd(t: Tables, headers: seq<Block>, u: Store, head: Hash)
    requires headers != [] && headers[0].parent in t.td && Linked(headers) && Together(t.blocks, headers, u)
    requires FirstUnknown(t.blocks, headers, 0) < |headers| && Rooted(t.blocks, head)
    ensures var w, last := Written(t, headers).td, headers[|headers| - 1].hash;
      && last in w && w[last] == SumTd(headers, t.td[headers[0].parent], |headers|)
      && (head in w <==> head in t.td) && (head in t.td ==> w[head] == t.td[head])
  {
    var f := FirstUnknown(t.blocks, headers, 0);
    forall k | f <= k < |headers| ensures headers[k].hash != head {
      UnknownNotRooted(t.blocks, headers, u, k);
    }
    WriteFromTd(t, headers, t.td[headers[0].parent], f, |headers|, head);
  }

  /** A batch with an unknown header does not end on the canonical chain. */
  lemma UnknownNotOnChain(s: Store, head: Block, headers: seq<Block>, u: Store)
    requires headers != [] && Linked(headers) && Together(s, headers, u) && FirstUnknown(s, headers, 0) < |headers|
    requires Known(s, head) && Rooted(s, head.hash)
    ensures !OnChainAt(Ancestry(s, head.hash), head, headers[|headers| - 1])
  {
    var last := headers[|headers| - 1];
    UnknownNotRooted(s, headers, u, |headers| - 1);
    if last.number <= head.number {
      AncestryCut(s, head.hash, last.number);
    }
  }

  /** That is when choosing the head fails on the tables the batch was written to. */
  lemma FailsAfterWriting(db: Db, head: Block, headers: seq<Block>, ttd: Option<nat>, preserve: Block -> bool, coin: bool,
                          u: Store)
    requires headers != [] && Linked(headers) && Together(db.blocks, headers, u) && Known(db.blocks, head)
    requires Rooted(db.blocks, head.hash) && db.canon == Ancestry(db.blocks, head.hash)
    requires GetTd(db, headers[0].parent, headers[0].number - 1).Some? && FirstUnknown(db.blocks, headers, 0) < |headers|
    ensures Fails(Written(Tables(db.blocks, db.td), headers), db.canon, head, headers[|headers| - 1], ttd, preserve, coin)
      <==> WritesThenFails(db, head, headers, false, ttd, preserve, coin)
  {
    var t := Tables(db.blocks, db.td);
    WrittenTd(t, headers, u, head.hash);
    UnknownNotOnChain(db.blocks, head, headers, u);
    WrittenRooted(t, headers, u);
  }

  /** On a store with exact difficulties it does not fail. */
  lemma ExactNeverFails(t: Tables, canon: map<nat, Hash>, head: Block, last: Block, ttd: Option<nat>,
                        preserve: Block -> bool, coin: bool)
    requires WellFormed(t.blocks) && TdExact(t.blocks, t.td) && Known(t.blocks, head) && Known(t.blocks, last)
    ensures !Fails(t, canon, head, last, ttd, preserve, coin)
  {
    TdExactClosed(t.blocks, t.td);
    ClosedRooted(t.blocks, last.hash);
  }

  /** An insertion that writes a header and then fails: the chain is at its genesis, and a header numbered 5 is
      stored with a difficulty but without its ancestors. A child of that header is written, preferred for its
      difficulty, and refused for the gap. */
  lemma WrittenThenFailed(preserve: Block -> bool, coin: bool)
    returns (db: Db, head: Block, headers: seq<Block>, u: Store)
    ensures WellFormed(db.blocks) && Known(db.blocks, head) && Rooted(db.blocks, head.hash)
    ensures db.canon == Ancestry(db.blocks, head.hash) && db.headHeader == head.hash
    ensures headers != [] && Linked(headers) && Together(db.blocks, headers, u)
    ensures WritesThenFails(db, head, headers, false, None, preserve, coin)
  {
    head := Block(1, ZERO_HASH, 0, 1, 0, 0, []);
    var far, child := Block(9, 8, 5, 1, 0, 0, []), Block(10, 9, 6, 1, 0, 0, []);
    db := Db(map[1 := head, 9 := far], map[1 := 1, 9 := 100], map[0 := 1], map[], 1, 1, 1);
    headers, u := [child], map[1 := head, 9 := far, 10 := child];
    assert Ancestry(db.blocks, 1) == map[0 := 1];
    assert FirstUnknown(db.blocks, headers, 0) == 0 && SumTd(headers, 100, 1) == 101;
    var t := Tables(db.blocks, db.td);
    var w := WriteFrom(t, headers, 100, 0, 1);
    assert WriteFrom(t, headers, 100, 0, 0) == t && headers[0] == child;
    assert w == Tables(db.blocks[10 := child], db.td[10 := 101]);
    assert !Rooted(db.blocks, 9);
  }

  class HeaderChain {
    var db: Db
    var currentHeader: Block
    var currentHeaderHash: Hash
    const genesisHeader: Block

    /** A chain that consists of its genesis. */
    constructor (genesis: Block)
      requires genesis.number == 0 && genesis.hash != ZERO_HASH && genesis.parent == ZERO_HASH
      ensures Valid() && TdExact(db.blocks, db.td) && OnlyGenesis(db.blocks, genesis)
      ensures db == GenesisDb(genesis) && genesisHeader == genesis && currentHeader == genesis
    {
      db := GenesisDb(genesis);
      currentHeader, currentHeaderHash, genesisHeader := genesis, genesis.hash, genesis;
    }

    /** The number-to-hash map is exactly the ancestry of the current header, and the markers in
        memory and on disk name it. */
    ghost predicate Valid()
      reads this
    {
      && WellFormed(db.blocks) && Known(db.blocks, currentHeader) && Rooted(db.blocks, currentHeader.hash)
      && db.canon == Ancestry(db.blocks, currentHeader.hash)
      && db.headHeader == currentHeaderHash == currentHeader.hash
    }

    /** Store a linked batch of headers with their total difficulties, without touching the head.
        Once a header is unknown the rest is not looked up any more: `inserted` counts the headers
        written. On a store with exact difficulties these are the new ones. */
    method WriteHeaders(headers: seq<Block>, interrupted: bool, ghost u: Store) returns (ok: bool, inserted: nat)
      requires Valid() && Linked(headers) && Together(db.blocks, headers, u)
      modifies this`db
      ensures ok <==> headers == [] || (GetTd(old(db), headers[0].parent, headers[0].number - 1).Some? && !interrupted)
      ensures !ok || headers == [] ==> db == old(db) && inserted == 0
      ensures db == old(db).(blocks := db.blocks, td := db.td)
      ensures Valid() && (ok ==> AllKnown(db.blocks, headers))
      ensures ok && headers != [] ==>
        && Tables(db.blocks, db.td) == Written(Tables(old(db.blocks), old(db.td)), headers)
        && inserted == |headers| - FirstUnknown(old(db.blocks), headers, 0)
      ensures TdExact(old(db.blocks), old(db.td)) ==> ExactlyStored(old(db), db, headers, ok, inserted)
    {
      if headers == [] {
        return true, 0;
      }
      var ptd := GetTd(db, headers[0].parent, headers[0].number - 1);
      if ptd.None? {
        return false, 0;
      }
      assert AboveParent(u, headers[0].hash);
      ghost var t := Tables(db.blocks, db.td);
      var batch;
      batch, inserted := CollectHeaders(Tables(db.blocks, db.td), headers, ptd.value, u);
      if interrupted {
        return false, 0;
      }
      WrittenKnown(t, headers, u);
      AncestryGrow(db.blocks, batch.blocks, currentHeader.hash);
      db := db.(blocks := batch.blocks, td := batch.td);
      if TdExact(t.blocks, t.td) {
        WrittenExactly(old(db), db, headers, u);
      }
      ok := true;
    }

    /** Make a linked batch of stored headers the top of the canonical chain, extending it or
        switching forks; a missing parent changes nothing. */
    method Reorg(headers: seq<Block>) returns (ok: bool)
      requires Valid() && Linked(headers) && AllKnown(db.blocks, headers)
      modifies this
      ensures headers == [] ==> ok && unchanged(this)
      ensures headers != [] ==> (ok <==> Rooted(db.blocks, headers[|headers| - 1].hash))
      ensures !ok ==> unchanged(this)
      ensures db == old(db).(canon := db.canon, headHeader := db.headHeader)
      ensures ok && headers != [] ==> Valid() && currentHeader == headers[|headers| - 1]
    {
      if headers == [] {
        return true;
      }
      var first, last := headers[0], headers[|headers| - 1];
      RootedTop(db.blocks, headers);
      var cleared := ClearFork(db.blocks, db.canon, currentHeaderHash, first, last.number);
      if cleared.None? {
        return false;
      }
      var batch := ExtendWith(cleared.value, headers, db.blocks);
      db := db.(canon := batch, headHeader := last.hash);
      currentHeaderHash := last.hash;
      currentHeader := last;
      ok := true;
    }

    /** Ask fork choice about the last of a stored batch, and switch to it if told so; None is an error. */
    method ChooseHead(headers: seq<Block>, inserted: nat, ttd: Option<nat>, preserve: Block -> bool, coin: bool)
      returns (status: Option<InsertStatus>)
      requires Valid() && headers != [] && Linked(headers) && AllKnown(db.blocks, headers)
      modifies this
      ensures Valid() && db.blocks == old(db.blocks) && db.td == old(db.td)
      ensures status.None? <==> Fails(Tables(db.blocks, db.td), old(db.canon), old(currentHeader), headers[|headers| - 1],
                                      ttd, preserve, coin)
      ensures status == Some(Canonical) ==> currentHeader == headers[|headers| - 1]
      ensures status != Some(Canonical) ==> unchanged(this)
      ensures status.Some? ==>
        && ForkStep(HeadView(db.td, old(currentHeaderHash)), HeadView(db.td, currentHeaderHash), ttd)
        && Decided(db.td, old(db.canon), old(currentHeader), headers[|headers| - 1], currentHeader, status.value, inserted,
                   ttd, preserve, coin)
    {
      var last, current := headers[|headers| - 1], currentHeader;
      var reorg := ReorgNeeded(GetTd(db, current.hash, current.number), GetTd(db, last.hash, last.number),
                               ttd, current, last, preserve, coin);
      if reorg.None? {
        return None;
      }
      if !reorg.value {
        return Some(if inserted != 0 then Side else NonStat);
      }
      if ReadCanonicalHash(db.canon, last.number) == last.hash && last.number <= current.number {
        return Some(NonStat);
      }
      var ok := Reorg(headers);
      if !ok {
        return None;
      }
      status := Some(Canonical);
    }

    /** Insert a linked batch. An insertion that does not succeed has written headers just when it writes and
        then fails; on a store with exact difficulties it never does, and the head never moves to a header of
        lower (capped) total difficulty. */
    method WriteHeadersAndSetHead(headers: seq<Block>, interrupted: bool, ttd: Option<nat>, preserve: Block -> bool,
                                  coin: bool, ghost u: Store)
      returns (result: InsertResult)
      requires Valid() && headers != [] && Linked(headers) && Together(db.blocks, headers, u)
      modifies this
      ensures Valid()
      ensures result.Aborted? <==> interrupted || GetTd(old(db), headers[0].parent, headers[0].number - 1).None?
      ensures result.Aborted? ==> unchanged(this)
      ensures !result.Aborted? ==>
        var t := Written(Tables(old(db.blocks), old(db.td)), headers);
        && Tables(db.blocks, db.td) == t && AllKnown(db.blocks, headers)
        && (result.Errored? <==> Fails(t, old(db.canon), old(currentHeader), headers[|headers| - 1], ttd, preserve, coin))
      ensures result.Errored? ==> db == old(db).(blocks := db.blocks, td := db.td) && currentHeader == old(currentHeader)
      ensures !result.Inserted? && db != old(db)
        <==> WritesThenFails(old(db), old(currentHeader), headers, interrupted, ttd, preserve, coin)
      ensures result.Inserted? ==>
        && result.imported == |headers| - FirstUnknown(old(db.blocks), headers, 0)
        && result.ignored == |headers| - result.imported
        && (result.status == Canonical ==> currentHeader == headers[|headers| - 1])
        && (result.status != Canonical ==> currentHeader == old(currentHeader) && db.canon == old(db.canon))
        && Decided(db.td, old(db.canon), old(currentHeader), headers[|headers| - 1], currentHeader,
                   result.status, result.imported, ttd, preserve, coin)
      ensures TdExact(old(db.blocks), old(db.td)) ==>
        && !result.Errored?
        && ForkStep(HeadView(old(db.td), old(currentHeaderHash)), HeadView(db.td, currentHeaderHash), ttd)
        && (result.Inserted? ==>
              Capped(db.td[currentHeader.hash], ttd)
                == Max(Capped(db.td[old(currentHeader).hash], ttd), Capped(db.td[headers[|headers| - 1].hash], ttd)))
        && ExactlyStored(old(db), db, headers, result.Inserted?, if result.Inserted? then result.imported else 0)
    {
      var ok, inserted := WriteHeaders(headers, interrupted, u);
      if !ok {
        return Aborted;
      }
      WrittenKnown(Tables(old(db.blocks), old(db.td)), headers, u);
      if TdExact(old(db.blocks), old(db.td)) {
        ExactNeverFails(Tables(db.blocks, db.td), db.canon, currentHeader, headers[|headers| - 1], ttd, preserve, coin);
      }
      if inserted > 0 {
        FailsAfterWriting(old(db), currentHeader, headers, ttd, preserve, coin, u);
      }
      var status := ChooseHead(headers, inserted, ttd, preserve, coin);
      if status.None? {
        return Errored;
      }
      if TdExact(old(db.blocks), old(db.td)) {
        HeaviestChosen(db.blocks, db.td, old(currentHeader), headers[|headers| - 1], currentHeader, status.value, inserted,
                       ttd, preserve, coin);
      }
      result := Inserted(status.value, inserted, |headers| - inserted);
    }

    /** The ancestor `ancestor` steps below (`hash`, `number`), jumping along the canonical chain as
        soon as it is reached; at most `maxNonCanonical` blocks are walked one by one, and `left` is
        what remains of that allowance. */
    method GetAncestor(hash: Hash, number: nat, ancestor: nat, maxNonCanonical: nat) returns (h: Hash, n: nat, left: nat)
      requires Valid() && ParentsNamed(db.blocks)
      ensures ancestor > number ==> h == ZERO_HASH && n == 0 && left == maxNonCanonical
      ensures hash != ZERO_HASH && ancestor <= number ==>
        var walk, steps := Walk(db.blocks, hash, number, ancestor), OffChain(db.blocks, db.canon, hash, number, ancestor);
        if walk.Some? && (ancestor == 1 || steps <= maxNonCanonical) then
          h == walk.value && n == number - ancestor && left == maxNonCanonical - (if ancestor == 1 then 0 else steps)
        else
          && h == ZERO_HASH && n == 0
          && left == if ancestor == 1 then maxNonCanonical
                     else if steps < maxNonCanonical then maxNonCanonical - steps - 1 else 0
      ensures hash == ZERO_HASH ==>
        (h != ZERO_HASH <==> 2 <= ancestor <= number && number - ancestor <= currentHeader.number < number)
    {
      left := maxNonCanonical;
      if ancestor > number {
        return ZERO_HASH, 0, left;
      }
      if ancestor == 1 {
        var header := GetBlock(db.blocks, hash, number);
        return if header.Some? then header.value.parent else ZERO_HASH, if header.Some? then number - 1 else 0, left;
      }
      h, n := hash, number;
      var k: nat := ancestor;
      while k != 0
        invariant k <= n && number - n == ancestor - k == maxNonCanonical - left
        invariant hash == ZERO_HASH ==> h == ZERO_HASH && n == number && k == ancestor
        invariant hash != ZERO_HASH ==> h != ZERO_HASH
        invariant Walk(db.blocks, h, n, k) == Walk(db.blocks, hash, number, ancestor)
        invariant OffChain(db.blocks, db.canon, h, n, k) + maxNonCanonical - left
               == OffChain(db.blocks, db.canon, hash, number, ancestor)
        decreases k
      {
        if ReadCanonicalHash(db.canon, n) == h {
          if h != ZERO_HASH {
            CanonicalWalk(db.blocks, currentHeader.hash, n, k);
          }
          return ReadCanonicalHash(db.canon, n - k), n - k, left;
        }
        if left == 0 {
          return ZERO_HASH, 0, left;
        }
        var header := GetBlock(db.blocks, h, n);
        if header.None? {
          return ZERO_HASH, 0, left - 1;
        }
        left, k, h, n := left - 1, k - 1, header.value.parent, n - 1;
      }
    }

    /** The loop of a rewind: move the head down, writing the marker at each step, and schedule the
        deletions; nothing is deleted yet. */
    method RewindMarkers(headBlock: nat, headTime: nat)
      returns (hashes: set<Hash>, numbers: set<nat>, persisted: seq<Db>)
      requires Valid() && ParentClosed(db.blocks) && OnlyGenesis(db.blocks, genesisHeader)
      requires headTime == 0 || genesisHeader.time <= headTime
      modifies this
      ensures db == old(db).(headHeader := currentHeader.hash) && currentHeaderHash == currentHeader.hash
      ensures Known(db.blocks, currentHeader) && Meets(currentHeader, headBlock, headTime)
      ensures OnChainAt(db.canon, old(currentHeader), currentHeader)
      ensures NoneMeets(db.blocks, db.canon, currentHeader.number, old(currentHeader).number, headBlock, headTime)
      ensures currentHeader == old(currentHeader) ==> hashes == {} && numbers == {}
      ensures currentHeader != old(currentHeader) ==> Above(db.blocks, hashes, currentHeader.number)
      ensures NumbersAbove(db.canon, numbers, currentHeader.number)
      ensures MarkersDown(old(db), old(currentHeader).number, persisted)
      ensures |persisted| == old(currentHeader).number - currentHeader.number
    {
      persisted := [];
      var origin := true;
      hashes, numbers := {}, {};
      ghost var oldHead := currentHeader;
      while !Meets(currentHeader, headBlock, headTime)
        invariant db == old(db).(headHeader := currentHeader.hash) && currentHeaderHash == currentHeader.hash
        invariant Known(db.blocks, currentHeader) && OnChainAt(db.canon, oldHead, currentHeader)
        invariant NoneMeets(db.blocks, db.canon, currentHeader.number, oldHead.number, headBlock, headTime)
        invariant MarkersDown(old(db), oldHead.number, persisted) && |persisted| == oldHead.number - currentHeader.number
        invariant origin <==> currentHeader == oldHead
        invariant if origin then hashes == {} && numbers == {} else Above(db.blocks, hashes, currentHeader.number)
        invariant NumbersAbove(db.canon, numbers, currentHeader.number)
        decreases currentHeader.number
      {
        var hdr, num := currentHeader, currentHeader.number;
        assert HasParent(db.blocks, hdr.hash);
        var found := GetBlock(db.blocks, hdr.parent, num - 1);
        var parent := if found.Some? then found.value else genesisHeader;
        AncestryParent(db.blocks, oldHead.hash, num);
        NoneMeetsStep(db.blocks, db.canon, hdr, oldHead.number, headBlock, headTime);
        db := db.(headHeader := parent.hash);
        MarkersNext(old(db), oldHead.number, persisted, db);
        persisted := persisted + [db];
        currentHeader, currentHeaderHash := parent, parent.hash;
        hashes, numbers := ScheduleDeletions(db.blocks, hdr, origin, hashes, numbers, db.canon);
        origin := false;
      }
    }

    /** Write the scheduled deletions of a rewind that came down from `from`. */
    method FlushDeletions(hashes: set<Hash>, numbers: set<nat>, ghost from: Block)
      requires WellFormed(db.blocks) && ParentClosed(db.blocks) && OnlyGenesis(db.blocks, genesisHeader)
      requires Known(db.blocks, from) && Rooted(db.blocks, from.hash) && db.canon == Ancestry(db.blocks, from.hash)
      requires Known(db.blocks, currentHeader) && OnChainAt(db.canon, from, currentHeader)
      requires db.headHeader == currentHeaderHash == currentHeader.hash
      requires NumbersAbove(db.canon, numbers, currentHeader.number)
      requires if currentHeader == from then hashes == {} && numbers == {}
               else Above(db.blocks, hashes, currentHeader.number)
      modifies this`db
      ensures Valid() && ParentClosed(db.blocks) && OnlyGenesis(db.blocks, genesisHeader)
      ensures TdExact(old(db.blocks), old(db.td)) ==> TdExact(db.blocks, db.td)
      ensures currentHeader == from ==> db == old(db)
      ensures currentHeader != from ==>
        db == old(db).(blocks := UpTo(old(db.blocks), currentHeader.number),
                       td := Lowered(old(db.td), old(db.blocks), currentHeader.number),
                       canon := Trim(old(db.canon), currentHeader.number))
    {
      if currentHeader != from {
        RewoundTables(db.blocks, db.td, from, currentHeader, hashes, numbers, genesisHeader);
      } else {
        assert db.blocks - hashes == db.blocks && db.td - hashes == db.td && db.canon - numbers == db.canon;
      }
      db := db.(blocks := db.blocks - hashes, td := db.td - hashes, canon := db.canon - numbers);
    }

    /** Rewind to the highest ancestor of the head that meets the target, deleting everything above
        it. `persisted` lists the database after each write. Refused (fatally, in the original) when
        the target time lies before the genesis. */
    method SetHead(headBlock: nat, headTime: nat) returns (ok: bool, persisted: seq<Db>)
      requires Valid() && ParentClosed(db.blocks) && OnlyGenesis(db.blocks, genesisHeader)
      modifies this
      ensures ok <==> headTime == 0 || genesisHeader.time <= headTime
      ensures !ok ==> unchanged(this)
      ensures Valid() && ParentClosed(db.blocks) && OnlyGenesis(db.blocks, genesisHeader)
      ensures TdExact(old(db.blocks), old(db.td)) ==> TdExact(db.blocks, db.td)
      ensures Known(old(db.blocks), currentHeader) && OnChainAt(old(db.canon), old(currentHeader), currentHeader)
      ensures ok ==> StopsRight(old(db.blocks), old(db.canon), old(currentHeader), currentHeader, headBlock, headTime)
      ensures currentHeader == old(currentHeader) ==> db == old(db)
      ensures currentHeader != old(currentHeader) ==>
        db == old(db).(blocks := UpTo(old(db.blocks), currentHeader.number),
                       td := Lowered(old(db.td), old(db.blocks), currentHeader.number),
                       canon := Trim(old(db.canon), currentHeader.number), headHeader := currentHeader.hash)
      ensures !ok ==> persisted == []
      ensures ok ==>
        && |persisted| == old(currentHeader).number - currentHeader.number + 1 && persisted[|persisted| - 1] == db
        && MarkersDown(old(db), old(currentHeader).number, persisted[..|persisted| - 1])
      ensures HeadsStored(persisted)
    {
      if headTime > 0 && genesisHeader.time > headTime {
        return false, [];
      }
      var hashes, numbers;
      hashes, numbers, persisted := RewindMarkers(headBlock, headTime);
      StopExact(db.blocks, old(currentHeader), currentHeader, headBlock, headTime);
      FlushDeletions(hashes, numbers, old(currentHeader));
      MarkersStored(old(db), old(currentHeader).number, persisted, db);
      assert (persisted + [db])[..|persisted|] == persisted;
      persisted := persisted + [db];
      ok := true;
    }
  }

  /** Two steps down from the zero hash, above a chain that consists of its genesis, lead to the genesis. */
  method AncestorOfZero(genesis: Block) returns (h: Hash)
    requires genesis.number == 0 && genesis.hash != ZERO_HASH && genesis.parent == ZERO_HASH
    ensures h != ZERO_HASH && Walk(GenesisDb(genesis).blocks, ZERO_HASH, 2, 2) == None
  {
    var hc := new HeaderChain(genesis);
    var n, left;
    h, n, left := hc.GetAncestor(ZERO_HASH, 2, 2, 0);
  }
}
