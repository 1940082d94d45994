/** The steps of the background indexer: sections of the canonical chain are processed without the lock while the
    chain may reorganise, and a result counts only if the section below is still the one it was built
    on. Each lock region is one step; the chain may look different at every step. */
module IndexerSteps {
  import opened Wrappers
  import opened ChainStore

  /** A header with its log bloom, as the set of bits it sets. */
  datatype Header = Header(hash: Hash, parent: Hash, number: nat, bloom: set<nat>)

  /** The header a hash stands for. Hashes never change their meaning. */
  type Universe = Hash -> Header

  ghost predicate Consistent(u: Universe) {
    forall h :: u(h).hash == h
  }

  /** The chain database at one moment: the number-to-hash map and which headers are available. */
  datatype View = View(canon: map<nat, Hash>, available: set<Hash>)

  function ReadHeader(u: Universe, v: View, h: Hash, n: nat): Option<Header> {
    if h in v.available && u(h).number == n then Some(u(h)) else None
  }

  /** What each read of the chain sees. The indexer's lock does not stop the chain, so the read that asks
      about the first `k` sections has a view of its own, the one numbered `k`. */
  type Views = seq<View>

  function See(vs: Views, k: nat): View {
    if k < |vs| then vs[k] else View(map[], {})
  }

  /** From `lo` up the canonical hashes of a view are linked by their parents and numbered in order; below
      it, as below a checkpoint, there may be nothing. */
  ghost predicate LinkedFrom(u: Universe, v: View, lo: nat) {
    forall n: nat {:trigger LinkedAt(u, v, lo, n)} :: lo <= n && n in v.canon ==> LinkedAt(u, v, lo, n)
  }

  ghost predicate LinkedAt(u: Universe, v: View, lo: nat, n: nat)
    requires n in v.canon
  {
    && v.canon[n] != ZERO_HASH && u(v.canon[n]).number == n
    && (n > lo ==> n - 1 in v.canon && u(v.canon[n]).parent == v.canon[n - 1])
  }

  // ---- State and steps ----

  /** The section being processed without the lock, and the head of the section below it. */
  datatype Job = Job(section: nat, oldHead: Hash)

  datatype SectionKey = SectionKey(section: nat, head: Hash)

  /** `written` collects what the backend has committed; it only grows. */
  datatype State = State(
    stored: nat,
    known: nat,
    heads: map<nat, Hash>,
    checkpointSections: nat,
    checkpointHead: Hash,
    job: Option<Job>,
    written: set<SectionKey>)

  datatype Params = Params(sectionSize: nat, confirms: nat)

  function SectionHead(heads: map<nat, Hash>, section: int): Hash {
    if section in heads then heads[section] else ZERO_HASH
  }

  /** The number of the last block of a section. */
  function LastBlock(p: Params, section: nat): int {
    (section + 1) * p.sectionSize - 1
  }

  function ReadCanonical(v: View, n: int): Hash {
    if n in v.canon then v.canon[n] else ZERO_HASH
  }

  /** Keep `sections` sections and forget the heads of those dropped. */
  function SetValid(st: State, sections: nat): State {
    st.(stored := sections, heads := map s | s in st.heads && !(sections <= s < st.stored) :: st.heads[s])
  }

  /** The recorded head of the last section is the canonical hash of its last block. */
  predicate LastCanonical(p: Params, st: State, v: View)
    requires st.stored > 0
  {
    SectionHead(st.heads, st.stored - 1) == ReadCanonical(v, LastBlock(p, st.stored - 1))
  }

  /** Drop sections while the head of the last one is not canonical. */
  function Verify(p: Params, st: State, vs: Views): State
    decreases st.stored
  {
    if st.stored <= st.checkpointSections || LastCanonical(p, st, See(vs, st.stored)) then st
    else Verify(p, SetValid(st, st.stored - 1), vs)
  }

  /** A reorganisation back to `head`. */
  function Reorganised(p: Params, st: State, head: nat): State
    requires p.sectionSize > 0
  {
    var sections := (head + 1) / p.sectionSize;
    var known := if sections < st.checkpointSections then 0 else sections;
    var stored := if sections < st.checkpointSections then st.checkpointSections else sections;
    var st1 := if known < st.known then st.(known := known) else st;
    if stored < st.stored then SetValid(st1, stored) else st1
  }

  /** The chain has the checkpoint's head at the last block the checkpoint covers. */
  predicate CheckpointCanonical(p: Params, st: State, vs: Views) {
    ReadCanonical(See(vs, st.checkpointSections), st.checkpointSections * p.sectionSize - 1) == st.checkpointHead
  }

  /** A new head without a reorganisation. */
  function Extended(p: Params, st: State, vs: Views, head: nat): State
    requires p.sectionSize > 0
  {
    if head < p.confirms then st
    else
      var complete := (head + 1 - p.confirms) / p.sectionSize;
      var sections := if complete < st.checkpointSections then 0 else complete;
      if sections <= st.known then st
      else if st.known < st.checkpointSections && !CheckpointCanonical(p, st, vs) then st
      else st.(known := sections)
  }

  /** The locked start of an update: check the last head, then note what is to be processed. */
  function Begun(p: Params, st: State, vs: Views): State {
    if st.known <= st.stored then st
    else
      var st1 := Verify(p, st, vs);
      st1.(job := Some(Job(st1.stored, if st1.stored > 0 then SectionHead(st1.heads, st1.stored - 1) else ZERO_HASH)))
  }

  /** The locked end of an update: the result counts if the section below is still the same. */
  function Finished(p: Params, st: State, vs: Views, newHead: Option<Hash>): State
    requires st.job.Some?
  {
    var Job(section, oldHead) := st.job.value;
    if newHead.Some? && (section == 0 || oldHead == SectionHead(st.heads, section - 1)) then
      SetValid(st.(heads := st.heads[section := newHead.value]), section + 1).(job := None)
    else
      var st1 := Verify(p, st, vs);
      st1.(known := st1.stored, job := None)
  }

  function Checkpointed(st: State, section: nat, head: Hash): State {
    if st.checkpointSections >= section + 1 || section < st.stored then st
    else
      var st1 := st.(checkpointSections := section + 1, checkpointHead := head, heads := st.heads[section := head]);
      SetValid(st1, section + 1)
  }

  /** `h` is numbered `n`, and `k` steps along parents, each numbered one below, lead to `prev`. */
  ghost predicate Reaches(u: Universe, h: Hash, n: int, k: nat, prev: Hash)
    decreases k
  {
    if k == 0 then h == prev else u(h).number == n && h != ZERO_HASH && Reaches(u, u(h).parent, n - 1, k - 1, prev)
  }

  /** `head` ends a linked section on top of the head the job started from. */
  ghost predicate Processed(u: Universe, p: Params, job: Job, head: Hash) {
    Reaches(u, head, LastBlock(p, job.section), p.sectionSize, job.oldHead)
  }

  datatype Event =
    | NewHead(head: nat, reorg: bool)
    | Begin
    | ResetFailed
    | Commit(head: Hash)
    | Finish(newHead: Option<Hash>)
    | Sections
    | AddCheckpoint(section: nat, head: Hash)

  /** What can happen in a state. The backend commits a section only when its headers were read as a
      linked section on top of the head processing started from, and processing hands over only such
      heads; checkpoints come with a head and while no section is in progress. */
  ghost predicate Enabled(u: Universe, p: Params, st: State, e: Event) {
    match e
    case Begin => st.job.None?
    case ResetFailed => st.job.Some?
    case Commit(head) => st.job.Some? && Processed(u, p, st.job.value, head)
    case Finish(newHead) => st.job.Some? &&
      (newHead.Some? ==>
         && Processed(u, p, st.job.value, newHead.value)
         && SectionKey(st.job.value.section, newHead.value) in st.written)
    case AddCheckpoint(_, head) => st.job.None? && head != ZERO_HASH
    case _ => true
  }

  function Apply(p: Params, st: State, e: Event, vs: Views): State
    requires p.sectionSize > 0 && (e.Finish? || e.Commit? ==> st.job.Some?)
  {
    match e
    case NewHead(head, reorg) => if reorg then Reorganised(p, st, head) else Extended(p, st, vs, head)
    case Begin => Begun(p, st, vs)
    case ResetFailed => SetValid(st, 0)
    case Commit(head) => st.(written := st.written + {SectionKey(st.job.value.section, head)})
    case Finish(newHead) => Finished(p, st, vs, newHead)
    case Sections => Verify(p, st, vs)
    case AddCheckpoint(section, head) => Checkpointed(st, section, head)
  }

  // ---- The invariant ----

  /** The heads that later steps rely on are recorded: those from just below the checkpoint up, and
      the last one. */
  ghost predicate HeadKept(st: State, s: nat) {
    s < st.stored && (s + 1 >= st.checkpointSections || s + 1 == st.stored) ==> s in st.heads && st.heads[s] != ZERO_HASH
  }

  /** Section `s` was committed, and read as a linked section on top of the head recorded below it. */
  ghost predicate SectionLinked(u: Universe, p: Params, st: State, s: nat) {
    st.checkpointSections <= s < st.stored ==>
      && s in st.heads && SectionKey(s, st.heads[s]) in st.written
      && Reaches(u, st.heads[s], LastBlock(p, s), p.sectionSize, SectionHead(st.heads, s - 1))
  }

  ghost predicate JobOk(st: State) {
    st.job.Some? ==> st.stored <= st.job.value.section && (st.job.value.section > 0 <==> st.job.value.oldHead != ZERO_HASH)
  }

  ghost predicate Inv(u: Universe, p: Params, st: State) {
    && (forall s: nat :: s in st.heads ==> s < st.stored)
    && (forall s: nat {:trigger HeadKept(st, s)} :: HeadKept(st, s))
    && (forall s: nat {:trigger SectionLinked(u, p, st, s)} :: SectionLinked(u, p, st, s))
    && JobOk(st)
  }

  /** Dropping sections, not below the checkpoint or all of them, keeps the invariant. */
  lemma SetValidKeeps(u: Universe, p: Params, st: State, sections: nat)
    requires Inv(u, p, st) && sections <= st.stored && (sections >= st.checkpointSections || sections == 0)
    ensures Inv(u, p, SetValid(st, sections))
  {
    var st' := SetValid(st, sections);
    forall s: nat ensures HeadKept(st', s) {
      assert HeadKept(st, s);
    }
    forall s: nat ensures SectionLinked(u, p, st', s) {
      assert SectionLinked(u, p, st, s);
    }
  }

  /** Verifying keeps the invariant, changes nothing but the stored sections, and ends at the
      checkpoint or with a last head that is canonical. */
  lemma {:induction false} VerifyKeeps(u: Universe, p: Params, st: State, vs: Views)
    requires Inv(u, p, st)
    ensures var st' := Verify(p, st, vs);
      && Inv(u, p, st') && st' == st.(stored := st'.stored, heads := st'.heads) && st'.stored <= st.stored
      && (st'.stored <= st'.checkpointSections || LastCanonical(p, st', See(vs, st'.stored)))
    decreases st.stored
  {
    if st.stored > st.checkpointSections && !LastCanonical(p, st, See(vs, st.stored)) {
      SetValidKeeps(u, p, st, st.stored - 1);
      VerifyKeeps(u, p, SetValid(st, st.stored - 1), vs);
    }
  }

  /** Read anew, the chain has the recorded head of the first `n` sections at their last block. */
  ghost predicate Passes(p: Params, st: State, vs: Views, n: nat)
    requires n > 0
  {
    SectionHead(st.heads, n - 1) == ReadCanonical(See(vs, n), n * p.sectionSize - 1)
  }

  /** `st'` is what is left of `st`: as many sections as possible that end in a section that passes, down to the
      checkpoint, with their heads. Every section dropped fails to pass. */
  ghost predicate Kept(p: Params, st: State, vs: Views, st': State) {
    && st' == st.(stored := st'.stored,
                  heads := map s | s in st.heads && !(st'.stored <= s < st.stored) :: st.heads[s])
    && (st.stored <= st.checkpointSections ==> st'.stored == st.stored)
    && (st.stored > st.checkpointSections ==> st.checkpointSections <= st'.stored <= st.stored)
    && (st'.stored > st.checkpointSections ==> Passes(p, st, vs, st'.stored))
    && forall n: nat {:trigger Passes(p, st, vs, n)} :: st'.stored < n <= st.stored ==> !Passes(p, st, vs, n)
  }

  /** Verifying keeps exactly that. */
  lemma {:induction false} VerifyExact(p: Params, st: State, vs: Views)
    ensures Kept(p, st, vs, Verify(p, st, vs))
    decreases st.stored
  {
    if st.stored > st.checkpointSections && !LastCanonical(p, st, See(vs, st.stored)) {
      var st1 := SetValid(st, st.stored - 1);
      VerifyExact(p, st1, vs);
      forall n: nat | 0 < n < st.stored ensures Passes(p, st1, vs, n) <==> Passes(p, st, vs, n) {
      }
    }
  }

  /** An update has something to do just when more sections are known than stored. Then it works on the section
      above those that verifying keeps, on top of the head recorded there. */
  lemma BegunStarts(p: Params, st: State, vs: Views)
    ensures var st' := Begun(p, st, vs);
      && (st.known <= st.stored ==> st' == st)
      && (st.known > st.stored ==>
            && Kept(p, st, vs, st'.(job := st.job))
            && st'.job == Some(Job(st'.stored,
                                   if st'.stored == 0 then ZERO_HASH else SectionHead(st'.heads, st'.stored - 1))))
  {
    VerifyExact(p, st, vs);
  }

  /** The section below the one in progress has the head it had when processing began. */
  predicate SameBelow(st: State)
    requires st.job.Some?
  {
    st.job.value.section == 0 || st.job.value.oldHead == SectionHead(st.heads, st.job.value.section - 1)
  }

  /** A result counts just when there is one and the section below is still the same: one more section is stored,
      with that head, and nothing else changes. Otherwise what verifying keeps is all that is known, so nothing is
      tried again until more is announced. */
  lemma FinishedCounts(u: Universe, p: Params, st: State, vs: Views, newHead: Option<Hash>)
    requires Inv(u, p, st) && st.job.Some?
    ensures var st' := Finished(p, st, vs, newHead);
      if newHead.Some? && SameBelow(st) then
        && st.stored == st.job.value.section
        && st' == st.(stored := st.stored + 1, heads := st.heads[st.stored := newHead.value], job := None)
      else
        && st'.known == st'.stored && st'.job.None?
        && Kept(p, st, vs, st'.(known := st.known, job := st.job))
  {
    VerifyExact(p, st, vs);
    var section := st.job.value.section;
    assert section > 0 && SectionHead(st.heads, section - 1) != ZERO_HASH ==> section - 1 in st.heads;
  }

  /** A checkpoint above both the last one and all stored sections replaces them; any other changes nothing. No
      section is ever lost to a checkpoint. */
  lemma CheckpointRaises(st: State, section: nat, head: Hash)
    ensures var st' := Checkpointed(st, section, head);
      && st.stored <= st'.stored && st.checkpointSections <= st'.checkpointSections
      && (forall s: nat :: s in st.heads && s < st.stored ==> s in st'.heads && st'.heads[s] == st.heads[s])
      && (st' != st ==> st'.stored == st'.checkpointSections == section + 1)
      && (section >= st.checkpointSections && section >= st.stored ==>
            st' == st.(checkpointSections := section + 1, checkpointHead := head, heads := st.heads[section := head],
                       stored := section + 1))
  {
  }

  lemma BeginKeeps(u: Universe, p: Params, st: State, vs: Views)
    requires Inv(u, p, st)
    ensures Inv(u, p, Begun(p, st, vs))
  {
    VerifyKeeps(u, p, st, vs);
    var st1, st' := Verify(p, st, vs), Begun(p, st, vs);
    if st.known > st.stored {
      if st1.stored > 0 {
        assert HeadKept(st1, st1.stored - 1);
      }
      SameSections(u, p, st1, st');
    }
  }

  /** The invariant looks only at the stored sections and the job. */
  lemma SameSections(u: Universe, p: Params, st: State, st': State)
    requires Inv(u, p, st) && st'.heads == st.heads && st'.stored == st.stored
    requires st'.checkpointSections == st.checkpointSections && JobOk(st') && st.written <= st'.written
    ensures Inv(u, p, st')
  {
    forall s: nat ensures HeadKept(st', s) {
      assert HeadKept(st, s);
    }
    forall s: nat ensures SectionLinked(u, p, st', s) {
      assert SectionLinked(u, p, st, s);
    }
  }

  /** A result that counts extends the linked sections by one. */
  lemma AcceptKeeps(u: Universe, p: Params, st: State, newHead: Hash)
    requires p.sectionSize > 0 && Inv(u, p, st) && st.job.Some?
    requires var Job(section, oldHead) := st.job.value;
      && Processed(u, p, st.job.value, newHead) && SectionKey(section, newHead) in st.written
      && (section == 0 || oldHead == SectionHead(st.heads, section - 1))
    ensures var section := st.job.value.section;
      st.stored == section && Inv(u, p, SetValid(st.(heads := st.heads[section := newHead]), section + 1).(job := None))
  {
    var section := st.job.value.section;
    var st' := SetValid(st.(heads := st.heads[section := newHead]), section + 1).(job := None);
    assert section > 0 ==> section - 1 in st.heads;
    forall s: nat ensures HeadKept(st', s) {
      assert HeadKept(st, s);
    }
    forall s: nat ensures SectionLinked(u, p, st', s) {
      assert SectionLinked(u, p, st, s);
    }
  }

  lemma FinishKeeps(u: Universe, p: Params, st: State, vs: Views, newHead: Option<Hash>)
    requires p.sectionSize > 0 && Inv(u, p, st) && Enabled(u, p, st, Finish(newHead))
    ensures Inv(u, p, Finished(p, st, vs, newHead))
  {
    var Job(section, oldHead) := st.job.value;
    if newHead.Some? && (section == 0 || oldHead == SectionHead(st.heads, section - 1)) {
      AcceptKeeps(u, p, st, newHead.value);
    } else {
      VerifyKeeps(u, p, st, vs);
      SameSections(u, p, Verify(p, st, vs), Finished(p, st, vs, newHead));
    }
  }

  lemma CheckpointKeeps(u: Universe, p: Params, st: State, section: nat, head: Hash)
    requires Inv(u, p, st) && st.job.None? && head != ZERO_HASH
    ensures Inv(u, p, Checkpointed(st, section, head))
  {
    var st' := Checkpointed(st, section, head);
    if st' != st {
      forall s: nat ensures HeadKept(st', s) && SectionLinked(u, p, st', s) {
      }
    }
  }

  lemma NewHeadKeeps(u: Universe, p: Params, st: State, vs: Views, head: nat, reorg: bool)
    requires p.sectionSize > 0 && Inv(u, p, st)
    ensures Inv(u, p, Apply(p, st, NewHead(head, reorg), vs))
  {
    if reorg {
      var sections := (head + 1) / p.sectionSize;
      var known := if sections < st.checkpointSections then 0 else sections;
      var stored := if sections < st.checkpointSections then st.checkpointSections else sections;
      var st1 := if known < st.known then st.(known := known) else st;
      SameSections(u, p, st, st1);
      if stored < st.stored {
        SetValidKeeps(u, p, st1, stored);
      }
    } else {
      SameSections(u, p, st, Extended(p, st, vs, head));
    }
  }

  lemma QuotientBounds(a: nat, d: nat)
    requires d > 0
    ensures a / d * d <= a < (a / d + 1) * d
  {
    assert a == a / d * d + a % d;
  }

  /** A new head makes known exactly the sections that are complete and confirmed, just when that is more
      than before, reaches the checkpoint, and does not pass a checkpoint the chain contradicts. */
  lemma ExtendedKnowsConfirmed(p: Params, st: State, vs: Views, head: nat)
    requires p.sectionSize > 0
    ensures var st' := Extended(p, st, vs, head);
      && st' == st.(known := st'.known) && st.known <= st'.known
      && (st'.known > st.known <==>
            && (st.known + 1) * p.sectionSize + p.confirms <= head + 1
            && st.checkpointSections * p.sectionSize + p.confirms <= head + 1
            && (st.known >= st.checkpointSections ||
                st.checkpointHead
                  == ReadCanonical(See(vs, st.checkpointSections), st.checkpointSections * p.sectionSize - 1)))
      && (st'.known > st.known ==>
            && st'.known * p.sectionSize + p.confirms <= head + 1 < (st'.known + 1) * p.sectionSize + p.confirms)
  {
    if head >= p.confirms {
      var room := head + 1 - p.confirms;
      QuotientBounds(room, p.sectionSize);
      QuotientReaches(room, p.sectionSize, st.known + 1);
      QuotientReaches(room, p.sectionSize, st.checkpointSections);
    } else {
      ScaledOrder(1, st.known + 1, p.sectionSize);
    }
  }

  lemma QuotientReaches(a: nat, d: nat, k: nat)
    requires d > 0
    ensures k <= a / d <==> k * d <= a
  {
    QuotientBounds(a, d);
    if k <= a / d {
      ScaledOrder(k, a / d, d);
    } else {
      ScaledOrder(a / d + 1, k, d);
    }
  }

  /** A reorganisation forgets every section that reaches beyond its point, except those the checkpoint
      vouches for, and no others. */
  lemma ReorganisedForgets(p: Params, st: State, head: nat)
    requires p.sectionSize > 0
    ensures var st' := Reorganised(p, st, head);
      && st'.known <= st.known && st'.known * p.sectionSize <= head + 1
      && (st.checkpointSections * p.sectionSize > head + 1 ==> st'.known == 0)
      && (st'.known != st.known && st'.known > 0 ==> (st'.known + 1) * p.sectionSize > head + 1)
      && (st'.known == 0 < st.known && p.sectionSize <= head + 1 ==> st.checkpointSections * p.sectionSize > head + 1)
      && (st'.stored <= st.checkpointSections || st'.stored * p.sectionSize <= head + 1)
      && (st'.stored != st.stored ==> st'.stored < st.stored && (st'.stored + 1) * p.sectionSize > head + 1)
      && forall s: nat :: s in st.heads && s < st'.stored ==> s in st'.heads && st'.heads[s] == st.heads[s]
  {
    var sections, st' := (head + 1) / p.sectionSize, Reorganised(p, st, head);
    QuotientBounds(head + 1, p.sectionSize);
    QuotientReaches(head + 1, p.sectionSize, 1);
    QuotientReaches(head + 1, p.sectionSize, st.checkpointSections);
    if st'.known <= sections {
      ScaledOrder(st'.known, sections, p.sectionSize);
    }
    if st'.stored <= sections {
      ScaledOrder(st'.stored, sections, p.sectionSize);
    }
    if sections <= st'.stored {
      ScaledOrder(sections + 1, st'.stored + 1, p.sectionSize);
    }
  }

  lemma ScaledOrder(a: nat, b: nat, d: nat)
    requires a <= b
    ensures a * d <= b * d
  {
  }

  /** Every step keeps the invariant, whatever the chain looks like at that moment. */
  lemma StepKeeps(u: Universe, p: Params, st: State, e: Event, vs: Views)
    requires p.sectionSize > 0 && Inv(u, p, st) && Enabled(u, p, st, e)
    ensures Inv(u, p, Apply(p, st, e, vs))
  {
    match e
    case NewHead(head, reorg) => NewHeadKeeps(u, p, st, vs, head, reorg);
    case Begin => BeginKeeps(u, p, st, vs);
    case ResetFailed => SetValidKeeps(u, p, st, 0);
    case Commit(_) => SameSections(u, p, st, Apply(p, st, e, vs));
    case Finish(newHead) => FinishKeeps(u, p, st, vs, newHead);
    case Sections => VerifyKeeps(u, p, st, vs);
    case AddCheckpoint(section, head) => CheckpointKeeps(u, p, st, section, head);
  }

  // ---- Runs ----

  const EMPTY := State(0, 0, map[], 0, ZERO_HASH, None, {})

  /** An indexer that has stored nothing is consistent. */
  lemma EmptyConsistent(u: Universe, p: Params)
    ensures Inv(u, p, EMPTY)
  {
  }

  /** `run` starts from a consistent state, and each further state is the result of some step on some
      view of the chain. */
  ghost predicate Run(u: Universe, p: Params, run: seq<State>)
    requires p.sectionSize > 0
  {
    && |run| > 0 && Inv(u, p, run[0])
    && forall i {:trigger StepAt(u, p, run, i)} :: 0 <= i < |run| - 1 ==> StepAt(u, p, run, i)
  }

  ghost predicate StepAt(u: Universe, p: Params, run: seq<State>, i: nat)
    requires p.sectionSize > 0 && i < |run| - 1
  {
    exists e, vs :: Enabled(u, p, run[i], e) && run[i + 1] == Apply(p, run[i], e, vs)
  }

  lemma {:induction false} RunKeeps(u: Universe, p: Params, run: seq<State>, i: nat)
    requires p.sectionSize > 0 && Run(u, p, run) && i < |run|
    ensures Inv(u, p, run[i])
    decreases i
  {
    if i > 0 {
      RunKeeps(u, p, run, i - 1);
      assert StepAt(u, p, run, i - 1);
      var e, vs :| Enabled(u, p, run[i - 1], e) && run[i] == Apply(p, run[i - 1], e, vs);
      StepKeeps(u, p, run[i - 1], e, vs);
    }
  }

  // ---- What `Sections` may promise ----

  /** `k` steps along parents lead to one hash only. */
  lemma {:induction false} ReachesOne(u: Universe, h: Hash, n: int, k: nat, a: Hash, b: Hash)
    requires Reaches(u, h, n, k, a)
    ensures Reaches(u, h, n, k, b) <==> a == b
    decreases k
  {
    if k > 0 {
      ReachesOne(u, u(h).parent, n - 1, k - 1, a, b);
    }
  }

  /** In `v` the last block of section `t` is there and follows, a section of blocks later, on the last block
      of the section below. */
  ghost predicate Chained(u: Universe, p: Params, v: View, t: nat)
    requires t > 0
  {
    var last, below := ReadCanonical(v, LastBlock(p, t)), ReadCanonical(v, LastBlock(p, t - 1));
    last != ZERO_HASH && Reaches(u, last, LastBlock(p, t), p.sectionSize, below)
  }

  ghost predicate ChainedUp(u: Universe, p: Params, v: View, low: nat, high: nat) {
    forall t: nat {:trigger Chained(u, p, v, t)} :: low < t < high ==> Chained(u, p, v, t)
  }

  /** The recorded head of section `s` is the canonical hash of its last block. */
  ghost predicate HeadCanonical(p: Params, st: State, v: View, s: nat) {
    && s in st.heads && LastBlock(p, s) in v.canon && st.heads[s] == v.canon[LastBlock(p, s)]
    && st.heads[s] != ZERO_HASH
  }

  /** So is the head of every section not covered by the checkpoint. */
  ghost predicate HeadsAllCanonical(p: Params, st: State, v: View) {
    forall s: nat :: st.checkpointSections <= s < st.stored ==> HeadCanonical(p, st, v, s)
  }

  lemma LastHeadCanonical(u: Universe, p: Params, st: State, v: View)
    requires Inv(u, p, st) && st.checkpointSections < st.stored && LastCanonical(p, st, v)
    ensures HeadCanonical(p, st, v, st.stored - 1)
  {
    assert HeadKept(st, st.stored - 1);
  }

  /** If the last recorded head is canonical and the canonical hashes are chained down to the checkpoint, so
      is every recorded head. */
  lemma {:induction false} ChainedHeads(u: Universe, p: Params, st: State, v: View, s: nat)
    requires Inv(u, p, st) && st.checkpointSections <= s < st.stored && LastCanonical(p, st, v)
    requires ChainedUp(u, p, v, st.checkpointSections, st.stored)
    ensures HeadCanonical(p, st, v, s)
    decreases st.stored - s
  {
    if s + 1 == st.stored {
      LastHeadCanonical(u, p, st, v);
    } else {
      ChainedHeads(u, p, st, v, s + 1);
      assert SectionLinked(u, p, st, s + 1) && Chained(u, p, v, s + 1) && HeadKept(st, s);
      ReachesOne(u, st.heads[s + 1], LastBlock(p, s + 1), p.sectionSize, st.heads[s], ReadCanonical(v, LastBlock(p, s)));
    }
  }

  /** And only then: recorded heads are linked, so canonical ones make the canonical hashes chained. */
  lemma HeadsChained(u: Universe, p: Params, st: State, v: View, t: nat)
    requires Inv(u, p, st) && st.checkpointSections < t < st.stored
    requires HeadCanonical(p, st, v, t) && HeadCanonical(p, st, v, t - 1)
    ensures Chained(u, p, v, t)
  {
    assert SectionLinked(u, p, st, t);
  }

  /** When the last recorded head is canonical, all recorded heads down to the checkpoint are canonical just
      when the canonical hashes at the ends of those sections are chained. */
  lemma HeadsCanonical(u: Universe, p: Params, st: State, v: View)
    requires Inv(u, p, st) && st.checkpointSections < st.stored && LastCanonical(p, st, v)
    ensures HeadsAllCanonical(p, st, v) <==> ChainedUp(u, p, v, st.checkpointSections, st.stored)
  {
    if ChainedUp(u, p, v, st.checkpointSections, st.stored) {
      forall s: nat | st.checkpointSections <= s < st.stored ensures HeadCanonical(p, st, v, s) {
        ChainedHeads(u, p, st, v, s);
      }
    }
    if HeadsAllCanonical(p, st, v) {
      forall t: nat | st.checkpointSections < t < st.stored ensures Chained(u, p, v, t) {
        HeadsChained(u, p, st, v, t);
      }
    }
  }

  /** Walking down from a canonical hash along parents stays canonical, as far as the chain is linked. */
  lemma {:induction false} LinkedReaches(u: Universe, v: View, lo: nat, n: nat, k: nat)
    requires LinkedFrom(u, v, lo) && n in v.canon && lo + k <= n
    ensures n - k in v.canon && v.canon[n - k] != ZERO_HASH && Reaches(u, v.canon[n], n, k, v.canon[n - k])
    decreases k
  {
    assert LinkedAt(u, v, lo, n);
    if k > 0 {
      LinkedReaches(u, v, lo, n - 1, k - 1);
    }
  }

  lemma LastBlockBelow(p: Params, s: nat)
    requires s > 0
    ensures LastBlock(p, s) - p.sectionSize == LastBlock(p, s - 1)
  {
    assert (s + 1) * p.sectionSize == s * p.sectionSize + p.sectionSize;
  }

  /** A chain that is linked from the checkpoint up, whatever lies below, is chained up to any section whose
      last block it has. */
  lemma {:induction false} LinkedChained(u: Universe, p: Params, v: View, low: nat, high: nat)
    requires p.sectionSize > 0 && low < high && LinkedFrom(u, v, low * p.sectionSize) && LastBlock(p, high - 1) in v.canon
    ensures ChainedUp(u, p, v, low, high) && LastBlock(p, low) in v.canon
    decreases high
  {
    if low + 1 < high {
      var t := high - 1;
      LastBlockBelow(p, t);
      ScaledOrder(low + 1, t, p.sectionSize);
      assert (low + 1) * p.sectionSize == low * p.sectionSize + p.sectionSize;
      LinkedReaches(u, v, low * p.sectionSize, LastBlock(p, t), p.sectionSize);
      assert LinkedAt(u, v, low * p.sectionSize, LastBlock(p, t));
      assert Chained(u, p, v, t);
      LinkedChained(u, p, v, low, t);
    }
  }

  /** In every run, whatever the chain did in between: when `Sections` returns, the stored sections not covered
      by the checkpoint have the canonical hashes of their last blocks as heads just when, as the last read saw
      the chain, those hashes are chained, which a chain linked from the checkpoint up is; and each section with
      such a head was committed under it. */
  lemma SectionsCanonical(u: Universe, p: Params, run: seq<State>, i: nat, vs: Views)
    requires p.sectionSize > 0 && Run(u, p, run) && i < |run|
    ensures var st := Verify(p, run[i], vs);
      var v := See(vs, st.stored);
      && (HeadsAllCanonical(p, st, v) <==> ChainedUp(u, p, v, st.checkpointSections, st.stored))
      && (LinkedFrom(u, v, st.checkpointSections * p.sectionSize) ==>
            ChainedUp(u, p, v, st.checkpointSections, st.stored))
      && (forall s: nat :: st.checkpointSections <= s < st.stored && HeadCanonical(p, st, v, s) ==>
            SectionKey(s, v.canon[LastBlock(p, s)]) in st.written)
  {
    RunKeeps(u, p, run, i);
    VerifyKeeps(u, p, run[i], vs);
    var st := Verify(p, run[i], vs);
    ExposedSections(u, p, st, See(vs, st.stored));
  }

  lemma ExposedSections(u: Universe, p: Params, st: State, v: View)
    requires p.sectionSize > 0 && Inv(u, p, st)
    requires st.stored <= st.checkpointSections || LastCanonical(p, st, v)
    ensures
      && (HeadsAllCanonical(p, st, v) <==> ChainedUp(u, p, v, st.checkpointSections, st.stored))
      && (LinkedFrom(u, v, st.checkpointSections * p.sectionSize) ==>
            ChainedUp(u, p, v, st.checkpointSections, st.stored))
      && (forall s: nat :: st.checkpointSections <= s < st.stored && HeadCanonical(p, st, v, s) ==>
            SectionKey(s, v.canon[LastBlock(p, s)]) in st.written)
  {
    if st.checkpointSections < st.stored {
      HeadsCanonical(u, p, st, v);
      LastHeadCanonical(u, p, st, v);
      if LinkedFrom(u, v, st.checkpointSections * p.sectionSize) {
        LinkedChained(u, p, v, st.checkpointSections, st.stored);
      }
    }
    forall s: nat | st.checkpointSections <= s < st.stored && HeadCanonical(p, st, v, s)
      ensures SectionKey(s, v.canon[LastBlock(p, s)]) in st.written
    {
      assert SectionLinked(u, p, st, s);
    }
  }

  // ---- A chain caught in the middle of a reorganisation ----

  /** Sixteen blocks, block `n` with hash `n + 1`, and another seven on the same genesis, block `n` with hash
      `n + 20`. */
  function TwoForks(h: Hash): Header {
    if h <= 20 then Header(h, if h == 0 then 0 else h - 1, if h == 0 then 0 else h - 1, {})
    else Header(h, if h == 21 then 1 else h - 1, h - 20, {})
  }

  /** The first fork, with the first `k` blocks above the genesis already replaced by the second. */
  function Rewritten(k: nat): View {
    var canon := map n: nat | n < 16 :: Rewrite(k, n);
    View(canon, canon.Values)
  }

  function Rewrite(k: nat, n: nat): Hash {
    if 1 <= n <= k then n + 20 else n + 1
  }

  /** All reads see the chain in this state. */
  function Throughout(k: nat): Views {
    [Rewritten(k), Rewritten(k), Rewritten(k)]
  }

  lemma {:induction false} FirstForkReaches(n: nat, k: nat)
    requires k <= n + 1 <= 16
    ensures Reaches(TwoForks, n + 1, n, k, n + 1 - k)
    decreases k
  {
    if k > 0 {
      if k == 1 {
        assert Reaches(TwoForks, n, n - 1, 0, n);
      } else {
        FirstForkReaches(n - 1, k - 1);
      }
    }
  }

  /** The indexer after the first fork was indexed: two sections of eight blocks. */
  function Indexing(i: nat): State {
    var one := State(0, 2, map[], 0, ZERO_HASH, None, {});
    var two := one.(written := {SectionKey(0, 8)}, heads := map[0 := 8], stored := 1);
    if i == 0 then EMPTY
    else if i == 1 then one
    else if i == 2 then one.(job := Some(Job(0, ZERO_HASH)))
    else if i == 3 then one.(job := Some(Job(0, ZERO_HASH)), written := {SectionKey(0, 8)})
    else if i == 4 then two
    else if i == 5 then two.(job := Some(Job(1, 8)))
    else if i == 6 then two.(job := Some(Job(1, 8)), written := {SectionKey(0, 8), SectionKey(1, 16)})
    else two.(written := {SectionKey(0, 8), SectionKey(1, 16)}, heads := map[0 := 8, 1 := 16], stored := 2)
  }

  function IndexingEvent(i: nat): Event {
    if i == 0 then NewHead(15, false)
    else if i == 1 || i == 4 then Begin
    else if i == 2 then Commit(8)
    else if i == 3 then Finish(Some(8))
    else if i == 5 then Commit(16)
    else Finish(Some(16))
  }

  lemma IndexingStep(i: nat)
    requires i < 7
    ensures Enabled(TwoForks, Params(8, 0), Indexing(i), IndexingEvent(i))
    ensures Indexing(i + 1) == Apply(Params(8, 0), Indexing(i), IndexingEvent(i), Throughout(0))
  {
    FirstForkReaches(7, 8);
    FirstForkReaches(15, 8);
  }

  lemma NotChained()
    ensures !Chained(TwoForks, Params(8, 0), Rewritten(7), 1)
  {
    FirstForkReaches(15, 8);
    ReachesOne(TwoForks, 16, 15, 8, 8, 27);
    assert ReadCanonical(Rewritten(7), 15) == 16 && ReadCanonical(Rewritten(7), 7) == 27;
  }

  /** The chaining is needed: index sixteen blocks in sections of eight, then rewrite the canonical hashes of
      blocks 1 to 7 to another fork, as a reorganisation does before it comes to block 8. `Sections` keeps both
      sections, although the head of the first is no longer canonical. */
  lemma HalfReorganised() returns (p: Params, run: seq<State>, vs: Views)
    ensures p == Params(8, 0) && |run| > 0 && run[0] == EMPTY && Run(TwoForks, p, run)
    ensures var st, v := run[|run| - 1], See(vs, 2);
      && Verify(p, st, vs) == st && st.stored == 2 && st.checkpointSections == 0
      && ReadCanonical(v, 0) == ReadCanonical(Rewritten(0), 0) && !Chained(TwoForks, p, v, 1) && !HeadCanonical(p, st, v, 0)
  {
    p, vs := Params(8, 0), Throughout(7);
    run := seq(8, i requires 0 <= i < 8 => Indexing(i));
    EmptyConsistent(TwoForks, p);
    forall i | 0 <= i < |run| - 1 ensures StepAt(TwoForks, p, run, i) {
      IndexingStep(i);
      assert run[i] == Indexing(i) && run[i + 1] == Indexing(i + 1);
    }
    NotChained();
  }
}
