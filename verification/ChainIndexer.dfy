/** The indexer itself. Each method below is one lock region of the original, or the unlocked work
    between two of them; `vs` gives the chain as each read sees it. */
module ChainIndexer {
  import opened Wrappers
  import opened ChainStore
  import opened IndexerSteps
  import opened BloomIndexer

  /** A filter reading one bit of a section: the key is built from the canonical hash of the moment. */
  function ReadBits(db: BitDb, p: Params, v: View, bit: nat, section: nat): Option<seq<bool>> {
    var key := BitKey(bit, section, ReadCanonical(v, LastBlock(p, section)));
    if key in db then Some(db[key]) else None
  }

  /** `column` is the bit in the blooms of the canonical headers of the section, in order. */
  ghost predicate CanonicalColumn(u: Universe, p: Params, v: View, bit: nat, section: nat, column: seq<bool>) {
    |column| == p.sectionSize && forall i :: 0 <= i < p.sectionSize ==> CanonicalBit(u, p, v, bit, section, i, column[i])
  }

  ghost predicate CanonicalBit(u: Universe, p: Params, v: View, bit: nat, section: nat, i: nat, value: bool) {
    var n := section * p.sectionSize + i;
    n in v.canon && (value <==> bit in u(v.canon[n]).bloom)
  }

  /** A column stored for the canonical head of a section is the canonical column, when the chain is linked
      from the first block of the section up. */
  lemma StoredColumn(u: Universe, p: Params, v: View, bit: nat, section: nat)
    requires LinkedFrom(u, v, section * p.sectionSize) && LastBlock(p, section) in v.canon
    ensures CanonicalColumn(u, p, v, bit, section, Column(BloomsOf(u, v.canon[LastBlock(p, section)], p.sectionSize), bit))
  {
    var n, lo := LastBlock(p, section), section * p.sectionSize;
    assert n - p.sectionSize + 1 == lo by {
      assert (section + 1) * p.sectionSize == section * p.sectionSize + p.sectionSize;
    }
    var column := Column(BloomsOf(u, v.canon[n], p.sectionSize), bit);
    forall i | 0 <= i < p.sectionSize ensures CanonicalBit(u, p, v, bit, section, i, column[i]) {
      CanonicalBlooms(u, v, lo, n, p.sectionSize, i);
    }
  }

  /** A filter can read every bit of the sections from `low` up to `high`, and reads the canonical column. */
  ghost predicate Readable(u: Universe, p: Params, v: View, db: BitDb, low: nat, high: nat) {
    forall s: nat, bit: nat {:trigger ReadBits(db, p, v, bit, s)} :: low <= s < high && bit < BLOOM_BIT_LENGTH ==>
      var bits := ReadBits(db, p, v, bit, s);
      bits.Some? && CanonicalColumn(u, p, v, bit, s, bits.value)
  }

  /** Everything committed can be read back. */
  ghost predicate AllStored(db: BitDb, written: set<SectionKey>) {
    forall key :: key in written ==> SectionStored(db, key.section, key.head)
  }

  /** On a chain that is linked from the checkpoint up, the sections left by the check of the last head are
      readable. */
  lemma ReadableSections(u: Universe, p: Params, st: State, v: View, db: BitDb)
    requires p.sectionSize > 0 && Inv(u, p, st) && BitsExact(u, p.sectionSize, db) && AllStored(db, st.written)
    requires st.stored <= st.checkpointSections || LastCanonical(p, st, v)
    ensures HeadsAllCanonical(p, st, v) <==> ChainedUp(u, p, v, st.checkpointSections, st.stored)
    ensures LinkedFrom(u, v, st.checkpointSections * p.sectionSize) ==>
      ChainedUp(u, p, v, st.checkpointSections, st.stored) && Readable(u, p, v, db, st.checkpointSections, st.stored)
  {
    ExposedSections(u, p, st, v);
    if LinkedFrom(u, v, st.checkpointSections * p.sectionSize) {
      forall s: nat, bit: nat | st.checkpointSections <= s < st.stored && bit < BLOOM_BIT_LENGTH
        ensures var bits := ReadBits(db, p, v, bit, s); bits.Some? && CanonicalColumn(u, p, v, bit, s, bits.value)
      {
        assert HeadCanonical(p, st, v, s) && SectionStored(db, s, v.canon[LastBlock(p, s)]);
        ScaledOrder(st.checkpointSections, s, p.sectionSize);
        LinkedHigher(u, v, st.checkpointSections * p.sectionSize, s * p.sectionSize);
        StoredColumn(u, p, v, bit, s);
      }
    }
  }

  lemma LinkedHigher(u: Universe, v: View, lo: nat, lo': nat)
    requires LinkedFrom(u, v, lo) && lo <= lo'
    ensures LinkedFrom(u, v, lo')
  {
    forall n: nat | lo' <= n && n in v.canon ensures LinkedAt(u, v, lo', n) {
      assert LinkedAt(u, v, lo, n);
    }
  }

  /** Every read of the section sees the same chain `v`, which holds the whole section, linked, on top of
      `oldHead`. */
  ghost predicate Steady(u: Universe, p: Params, v: View, views: seq<(View, View)>, section: nat, oldHead: Hash) {
    var first := section * p.sectionSize;
    && LinkedFrom(u, v, first) && (forall i :: 0 <= i < |views| ==> views[i] == (v, v))
    && LastBlock(p, section) in v.canon
    && (forall n: nat :: first <= n <= LastBlock(p, section) ==> n in v.canon && v.canon[n] in v.available)
    && (first in v.canon ==> u(v.canon[first]).parent == oldHead)
  }

  lemma SteadyRead(u: Universe, p: Params, v: View, views: seq<(View, View)>, section: nat, oldHead: Hash, i: nat)
    requires p.sectionSize == |views| && i < |views| && Steady(u, p, v, views, section, oldHead)
    ensures var n := section * p.sectionSize + i;
      && n in v.canon && v.canon[n] != ZERO_HASH && v.canon[n] in v.available && u(v.canon[n]).number == n
      && views[i] == (v, v)
      && (if i == 0 then u(v.canon[n]).parent == oldHead
          else n - 1 in v.canon && u(v.canon[n]).parent == v.canon[n - 1])
  {
    var n := section * p.sectionSize + i;
    assert n <= LastBlock(p, section) by {
      assert (section + 1) * p.sectionSize == section * p.sectionSize + p.sectionSize;
    }
    assert LinkedAt(u, v, section * p.sectionSize, n);
  }

  class ChainIndexer {
    const u: Universe
    const p: Params
    const backend: BloomIndexer
    var storedSections: nat
    var knownSections: nat
    var heads: map<nat, Hash>
    var checkpointSections: nat
    var checkpointHead: Hash
    var job: Option<Job>
    ghost var written: set<SectionKey>

    ghost function Snap(): State
      reads this
    {
      State(storedSections, knownSections, heads, checkpointSections, checkpointHead, job, written)
    }

    /** The invariant of the steps, and everything committed can be read back from the backend. */
    ghost predicate Valid()
      reads this, backend
    {
      && p.sectionSize > 0 && backend.size == p.sectionSize && Consistent(u)
      && Inv(u, p, Snap())
      && BitsExact(u, p.sectionSize, backend.db)
      && AllStored(backend.db, written)
    }

    constructor (p: Params, backend: BloomIndexer, u: Universe)
      requires p.sectionSize > 0 && backend.size == p.sectionSize && Consistent(u)
      requires BitsExact(u, p.sectionSize, backend.db)
      ensures this.p == p && this.backend == backend && this.u == u
      ensures Valid() && Snap() == EMPTY
    {
      this.p, this.backend, this.u := p, backend, u;
      storedSections, knownSections, heads := 0, 0, map[];
      checkpointSections, checkpointHead, job := 0, ZERO_HASH, None;
      written := {};
      new;
      EmptyConsistent(u, p);
    }

    method SetValidSections(sections: nat)
      modifies this`storedSections, this`heads
      ensures Snap() == SetValid(old(Snap()), sections) && storedSections == sections
      ensures forall s: nat :: s in heads <==> s in old(heads) && !(sections <= s < old(storedSections))
      ensures forall s: nat :: s in heads ==> heads[s] == old(heads)[s]
    {
      ghost var st := Snap();
      while storedSections > sections
        invariant storedSections <= st.stored && (storedSections < st.stored ==> sections <= storedSections)
        invariant heads == map s | s in st.heads && !(storedSections <= s < st.stored) :: st.heads[s]
      {
        storedSections := storedSections - 1;
        heads := heads - {storedSections};
      }
      storedSections := sections;
    }

    method VerifyLastHead(vs: Views)
      modifies this`storedSections, this`heads
      ensures Snap() == Verify(p, old(Snap()), vs) && Kept(p, old(Snap()), vs, Snap())
    {
      DropStale(vs);
      VerifyExact(p, old(Snap()), vs);
    }

    /** The loop of it. */
    method DropStale(vs: Views)
      modifies this`storedSections, this`heads
      ensures Snap() == Verify(p, old(Snap()), vs)
    {
      while storedSections > 0 && storedSections > checkpointSections
        invariant Verify(p, Snap(), vs) == Verify(p, old(Snap()), vs)
        decreases storedSections
      {
        ghost var st := Snap();
        assert LastBlock(p, st.stored - 1) == storedSections * p.sectionSize - 1;
        var v := See(vs, storedSections);
        if SectionHead(heads, storedSections - 1) == ReadCanonical(v, storedSections * p.sectionSize - 1) {
          assert LastCanonical(p, st, See(vs, st.stored));
          return;
        }
        assert Verify(p, st, vs) == Verify(p, SetValid(st, st.stored - 1), vs);
        SetValidSections(storedSections - 1);
      }
    }

    /** A new head or a reorganisation back to `head`. */
    method NewHead(vs: Views, head: nat, reorg: bool)
      requires Valid()
      modifies this
      ensures Snap() == Apply(p, old(Snap()), IndexerSteps.NewHead(head, reorg), vs) && Valid()
    {
      StepKeeps(u, p, Snap(), IndexerSteps.NewHead(head, reorg), vs);
      if reorg {
        var known := (head + 1) / p.sectionSize;
        var stored := known;
        if known < checkpointSections {
          known := 0;
        }
        if stored < checkpointSections {
          stored := checkpointSections;
        }
        if known < knownSections {
          knownSections := known;
        }
        if stored < storedSections {
          SetValidSections(stored);
        }
        return;
      }
      if head >= p.confirms {
        var sections := (head + 1 - p.confirms) / p.sectionSize;
        if sections < checkpointSections {
          sections := 0;
        }
        if sections > knownSections {
          if knownSections < checkpointSections {
            var syncedHead := ReadCanonical(See(vs, checkpointSections), checkpointSections * p.sectionSize - 1);
            if syncedHead != checkpointHead {
              return;
            }
          }
          knownSections := sections;
        }
      }
    }

    /** Remember the section to process and the head below it. */
    method NoteJob()
      modifies this`job
      ensures job == Some(Job(storedSections,
                              if storedSections > 0 then SectionHead(heads, storedSections - 1) else ZERO_HASH))
    {
      var section, oldHead := storedSections, ZERO_HASH;
      if section > 0 {
        oldHead := SectionHead(heads, section - 1);
      }
      job := Some(Job(section, oldHead));
    }

    /** The update loop takes the lock, and finds something to do or not. */
    method BeginUpdate(vs: Views)
      requires Valid() && job.None?
      modifies this
      ensures Snap() == Apply(p, old(Snap()), Begin, vs) && Valid()
    {
      StepKeeps(u, p, Snap(), Begin, vs);
      ghost var next := Begun(p, Snap(), vs);
      if knownSections > storedSections {
        VerifyLastHead(vs);
        NoteJob();
      }
      assert Snap() == next;
    }

    /** The update loop takes the lock again with the result of processing. */
    method FinishUpdate(vs: Views, newHead: Option<Hash>)
      requires Valid() && Enabled(u, p, Snap(), Finish(newHead))
      modifies this
      ensures Snap() == Apply(p, old(Snap()), Finish(newHead), vs) && Valid()
    {
      StepKeeps(u, p, Snap(), Finish(newHead), vs);
      ghost var next := Finished(p, Snap(), vs, newHead);
      var Job(section, oldHead) := job.value;
      if newHead.Some? && (section == 0 || oldHead == SectionHead(heads, section - 1)) {
        heads := heads[section := newHead.value];
        SetValidSections(section + 1);
      } else {
        VerifyLastHead(vs);
        knownSections := storedSections;
      }
      job := None;
      assert Snap() == next;
    }

    method AddCheckpoint(section: nat, head: Hash, ghost vs: Views)
      requires Valid() && Enabled(u, p, Snap(), IndexerSteps.AddCheckpoint(section, head))
      modifies this
      ensures Snap() == Apply(p, old(Snap()), IndexerSteps.AddCheckpoint(section, head), vs) && Valid()
    {
      StepKeeps(u, p, Snap(), IndexerSteps.AddCheckpoint(section, head), vs);
      if checkpointSections >= section + 1 || section < storedSections {
        return;
      }
      checkpointSections := section + 1;
      checkpointHead := head;
      heads := heads[section := head];
      SetValidSections(section + 1);
    }

    /** Feed the headers of a section to the backend. `views` gives the chain at each of the two reads of
        each block; whatever they are, what was fed is a linked section on top of `oldHead`, and when
        the chain stays as it is in `v`, it is the canonical section. */
    method FeedSection(section: nat, oldHead: Hash, views: seq<(View, View)>, ghost v: View) returns (last: Option<Hash>)
      requires p.sectionSize > 0 && backend.size == p.sectionSize && Consistent(u)
      requires backend.section == section && backend.blooms == [] && |views| == p.sectionSize
      modifies backend`blooms, backend`head
      ensures last.Some? ==> Reaches(u, last.value, LastBlock(p, section), p.sectionSize, oldHead)
      ensures last.Some? ==> backend.blooms == BloomsOf(u, last.value, p.sectionSize) && backend.head == last.value
      ensures Steady(u, p, v, views, section, oldHead) ==> last == Some(v.canon[LastBlock(p, section)])
    {
      ghost var steady := Steady(u, p, v, views, section, oldHead);
      var lastHead, i := oldHead, 0;
      while i < p.sectionSize
        invariant 0 <= i <= p.sectionSize
        invariant Reaches(u, lastHead, section * p.sectionSize + i - 1, i, oldHead)
        invariant backend.blooms == BloomsOf(u, lastHead, i) && (i > 0 ==> backend.head == lastHead)
        invariant steady && i > 0 ==> lastHead == v.canon[section * p.sectionSize + i - 1]
      {
        var number := section * p.sectionSize + i;
        if steady {
          SteadyRead(u, p, v, views, section, oldHead, i);
        }
        var hash := ReadCanonical(views[i].0, number);
        if hash == ZERO_HASH {
          return None;
        }
        var header := ReadHeader(u, views[i].1, hash, number);
        if header.None? || header.value.parent != lastHead {
          return None;
        }
        backend.Process(header.value);
        lastHead := header.value.hash;
        i := i + 1;
      }
      assert section * p.sectionSize + p.sectionSize - 1 == LastBlock(p, section);
      last := Some(lastHead);
    }

    /** Process the section of the current job without the lock and commit it. */
    method ProcessSection(views: seq<(View, View)>, ghost v: View) returns (newHead: Option<Hash>)
      requires Valid() && job.Some? && |views| == p.sectionSize
      modifies this, backend
      ensures Valid() && job == old(job)
      ensures p.sectionSize % 8 != 0 ==> newHead.None? && Snap() == SetValid(old(Snap()), 0)
      ensures p.sectionSize % 8 == 0 && newHead.None? ==> Snap() == old(Snap())
      ensures p.sectionSize % 8 == 0 && newHead.Some? ==>
        Snap() == old(Snap()).(written := old(written) + {SectionKey(job.value.section, newHead.value)})
      ensures newHead.Some? ==> Enabled(u, p, Snap(), Finish(newHead))
      ensures p.sectionSize % 8 == 0 && Steady(u, p, v, views, job.value.section, job.value.oldHead) ==>
        newHead == Some(v.canon[LastBlock(p, job.value.section)])
    {
      var Job(section, oldHead) := job.value;
      var ok := backend.Reset(section);
      if !ok {
        SetValidKeeps(u, p, Snap(), 0);
        SetValidSections(0);
        return None;
      }
      newHead := FeedSection(section, oldHead, views, v);
      if newHead.Some? {
        SameSections(u, p, Snap(), Snap().(written := written + {SectionKey(section, newHead.value)}));
        ok := backend.Commit();
        written := written + {SectionKey(section, newHead.value)};
      }
    }

    /** How many sections are indexed, the last block they cover (-1 for none) and its recorded head. As the
        last read sees the chain, every section exposed beyond the checkpoint has the canonical head just when
        the canonical hashes at the ends of those sections are chained; and where the chain is linked from the
        checkpoint up, a filter reads from each exactly the bits of the canonical headers. */
    method Sections(vs: Views) returns (sections: nat, lastBlock: int, head: Hash)
      requires Valid()
      modifies this
      ensures Snap() == Apply(p, old(Snap()), IndexerSteps.Sections, vs) && Valid()
      ensures Kept(p, old(Snap()), vs, Snap())
      ensures sections == storedSections && lastBlock == sections * p.sectionSize - 1
      ensures head == SectionHead(heads, sections - 1)
      ensures HeadsAllCanonical(p, Snap(), See(vs, sections))
        <==> ChainedUp(u, p, See(vs, sections), checkpointSections, sections)
      ensures LinkedFrom(u, See(vs, sections), checkpointSections * p.sectionSize) ==>
        && ChainedUp(u, p, See(vs, sections), checkpointSections, sections)
        && Readable(u, p, See(vs, sections), backend.db, checkpointSections, sections)
    {
      VerifyKeeps(u, p, Snap(), vs);
      ghost var next := Verify(p, Snap(), vs);
      VerifyLastHead(vs);
      assert Snap() == next;
      ReadableSections(u, p, Snap(), See(vs, storedSections), backend.db);
      return storedSections, storedSections * p.sectionSize - 1, SectionHead(heads, storedSections - 1);
    }
  }
}
