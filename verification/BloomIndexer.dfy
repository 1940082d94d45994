/** The indexer's backend: the blooms of a section rotated into one bit column per bloom bit, stored
    under bit, section and section head. */
module BloomIndexer {
  import opened Wrappers
  import opened ChainStore
  import opened IndexerSteps

  const BLOOM_BIT_LENGTH := 2048

  datatype BitKey = BitKey(bit: nat, section: nat, head: Hash)

  type BitDb = map<BitKey, seq<bool>>

  function Column(blooms: seq<set<nat>>, bit: nat): seq<bool> {
    seq(|blooms|, i requires 0 <= i < |blooms| => bit in blooms[i])
  }

  /** The blooms of the `k` headers that end in `h`, oldest first. */
  ghost function BloomsOf(u: Universe, h: Hash, k: nat): (blooms: seq<set<nat>>)
    ensures |blooms| == k
    decreases k
  {
    if k == 0 then [] else BloomsOf(u, u(h).parent, k - 1) + [u(h).bloom]
  }

  /** As far as the chain is linked these are the blooms of the canonical headers. */
  lemma {:induction false} CanonicalBlooms(u: Universe, v: View, lo: nat, n: nat, k: nat, i: nat)
    requires LinkedFrom(u, v, lo) && n in v.canon && i < k && lo + k <= n + 1
    ensures n - k + 1 + i in v.canon && BloomsOf(u, v.canon[n], k)[i] == u(v.canon[n - k + 1 + i]).bloom
    decreases k
  {
    assert LinkedAt(u, v, lo, n);
    if i < k - 1 {
      CanonicalBlooms(u, v, lo, n - 1, k - 1, i);
    }
  }

  /** Whatever is stored under a head is what the headers that end in it say. */
  ghost predicate BitsExact(u: Universe, size: nat, db: BitDb) {
    forall key :: key in db ==> db[key] == Column(BloomsOf(u, key.head, size), key.bit)
  }

  /** Every bit of the section is stored under its head. */
  ghost predicate SectionStored(db: BitDb, section: nat, head: Hash) {
    forall bit: nat :: bit < BLOOM_BIT_LENGTH ==> BitKey(bit, section, head) in db
  }

  class BloomIndexer {
    const size: nat
    var blooms: seq<set<nat>>
    var section: nat
    var head: Hash
    var db: BitDb

    constructor (size: nat)
      ensures this.size == size && db == map[]
    {
      this.size, blooms, section, head, db := size, [], 0, ZERO_HASH, map[];
    }

    /** Start a section; sizes that do not fill whole bytes are refused. */
    method Reset(section: nat) returns (ok: bool)
      modifies this
      ensures ok <==> size % 8 == 0
      ensures blooms == [] && this.section == section && head == ZERO_HASH && db == old(db)
    {
      blooms, this.section, head := [], section, ZERO_HASH;
      ok := size % 8 == 0;
    }

    /** Add a header's bloom. One that is not the next of the section, or beyond it, is silently
        ignored by the generator. */
    method Process(header: Header)
      modifies this`blooms, this`head
      ensures head == header.hash
      ensures blooms == if |old(blooms)| < size && header.number - section * size == |old(blooms)|
                        then old(blooms) + [header.bloom] else old(blooms)
    {
      var index := header.number - section * size;
      if |blooms| < size && index == |blooms| {
        blooms := blooms + [header.bloom];
      }
      head := header.hash;
    }

    /** Store all columns, or none when the section is not complete. */
    method Commit() returns (ok: bool)
      modifies this`db
      ensures ok <==> |blooms| == size
      ensures !ok ==> db == old(db)
      ensures ok ==> forall key :: key in db <==> key in old(db) || Covers(key)
      ensures ok ==> forall bit: nat :: bit < 2048 ==> BitKey(bit, section, head) in db
      ensures ok ==> forall key :: key in db ==> db[key] == if Covers(key) then Column(blooms, key.bit) else old(db)[key]
    {
      var batch := db;
      for i := 0 to BLOOM_BIT_LENGTH
        invariant i > 0 ==> |blooms| == size
        invariant forall key :: key in batch <==> key in db || (Covers(key) && key.bit < i)
        invariant forall key :: key in batch ==>
          batch[key] == if Covers(key) && key.bit < i then Column(blooms, key.bit) else db[key]
      {
        if |blooms| != size {
          return false;
        }
        batch := batch[BitKey(i, section, head) := Column(blooms, i)];
      }
      db := batch;
      ok := true;
    }

    predicate Covers(key: BitKey)
      reads this
    {
      key.section == section && key.head == head && key.bit < BLOOM_BIT_LENGTH
    }
  }
}
