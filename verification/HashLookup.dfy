/** Block hashes by number for the EVM: a cache of parent hashes that grows as older blocks are asked
    for, against the uncached walk along parents. */
module HashLookup {
  import opened Wrappers
  import opened ChainStore

  /** The uncached answer: the ancestor of `ref` at `n`, or the zero hash when `n` is not below `ref`
      or a header on the way is missing. */
  ghost function AncestorHash(s: Store, ref: Block, n: nat): Hash {
    if n >= ref.number then ZERO_HASH
    else
      var walk := Walk(s, ref.parent, ref.number - 1, ref.number - 1 - n);
      if walk.Some? then walk.value else ZERO_HASH
  }

  /** Entry `i` is the hash of the ancestor `i + 1` below `ref`. */
  ghost predicate CacheOk(s: Store, ref: Block, cache: seq<Hash>) {
    && |cache| <= ref.number
    && forall i {:trigger cache[i]} :: 0 <= i < |cache| ==> Walk(s, ref.parent, ref.number - 1, i) == Some(cache[i])
  }

  /** A walk can be extended by one step at its lower end. */
  lemma {:induction false} WalkFurther(s: Store, h: Hash, n: nat, k: nat)
    requires k < n
    ensures Walk(s, h, n, k + 1) ==
      if Walk(s, h, n, k).Some? && GetBlock(s, Walk(s, h, n, k).value, n - k).Some?
      then Some(s[Walk(s, h, n, k).value].parent) else None
    decreases k
  {
    if k > 0 && GetBlock(s, h, n).Some? {
      WalkFurther(s, s[h].parent, n - 1, k - 1);
    }
  }

  /** Beyond a missing header there is no answer. */
  lemma {:induction false} WalkStuck(s: Store, h: Hash, n: nat, k: nat, k': nat)
    requires k < k' <= n && Walk(s, h, n, k + 1) == None
    ensures Walk(s, h, n, k') == None
    decreases k' - k
  {
    if k + 1 < k' {
      WalkFurther(s, h, n, k + 1);
      WalkStuck(s, h, n, k + 1, k');
    }
  }

  lemma {:induction false} WalkGrow(s: Store, s': Store, h: Hash, n: nat, k: nat)
    requires k <= n && Extends(s, s') && Walk(s, h, n, k).Some?
    ensures Walk(s', h, n, k) == Walk(s, h, n, k)
    decreases k
  {
    if k > 0 {
      WalkGrow(s, s', s[h].parent, n - 1, k - 1);
    }
  }

  /** What earlier queries cached stays right while the chain grows. */
  lemma CacheGrow(s: Store, s': Store, ref: Block, cache: seq<Hash>)
    requires CacheOk(s, ref, cache) && Extends(s, s')
    ensures CacheOk(s', ref, cache)
  {
    forall i | 0 <= i < |cache| ensures Walk(s', ref.parent, ref.number - 1, i) == Some(cache[i]) {
      assert Walk(s, ref.parent, ref.number - 1, i) == Some(cache[i]);
      WalkGrow(s, s', ref.parent, ref.number - 1, i);
    }
  }

  class HashFn {
    const ref: Block
    var cache: seq<Hash>

    constructor (header: Block)
      ensures ref == header && cache == []
    {
      ref, cache := header, [];
    }

    /** The hash of the ancestor at `n`, whatever earlier queries left in the cache. */
    method GetHash(s: Store, n: nat) returns (h: Hash)
      requires CacheOk(s, ref, cache)
      modifies this`cache
      ensures h == AncestorHash(s, ref, n)
      ensures CacheOk(s, ref, cache) && old(cache) <= cache
    {
      if ref.number <= n {
        return ZERO_HASH;
      }
      if |cache| == 0 {
        cache := [ref.parent];
      }
      var idx := ref.number - n - 1;
      if idx < |cache| {
        return cache[idx];
      }
      var lastKnownHash, lastKnownNumber := cache[|cache| - 1], ref.number - |cache|;
      while true
        invariant 1 <= |cache| <= idx && lastKnownNumber == ref.number - |cache| && lastKnownHash == cache[|cache| - 1]
        invariant CacheOk(s, ref, cache) && old(cache) <= cache
        decreases lastKnownNumber
      {
        var header := GetBlock(s, lastKnownHash, lastKnownNumber);
        WalkFurther(s, ref.parent, ref.number - 1, |cache| - 1);
        if header.None? {
          WalkStuck(s, ref.parent, ref.number - 1, |cache| - 1, idx);
          break;
        }
        cache := cache + [header.value.parent];
        lastKnownHash, lastKnownNumber := header.value.parent, header.value.number - 1;
        if n == lastKnownNumber {
          return lastKnownHash;
        }
      }
      h := ZERO_HASH;
    }
  }
}
