/** The choice between the current head and an external header, and what it means for the total
    difficulty of the head over a whole run. */
module ForkChoice {
  import opened Wrappers
  import opened ChainStore

  function Min(a: nat, b: nat): nat { if a < b then a else b }

  function Max(a: nat, b: nat): nat { if a < b then b else a }

  /** Total difficulty as fork choice sees it: beyond the terminal total difficulty, when one is
      configured, differences no longer count. */
  function Capped(td: nat, ttd: Option<nat>): nat {
    if ttd.Some? then Min(td, ttd.value) else td
  }

  /** Whether the external header becomes the head; None when a total difficulty is missing.
      `coin` is the outcome of the random tie-break, and `preserve` says whether the miner wants
      to keep a header. */
  function ReorgNeeded(localTd: Option<nat>, externTd: Option<nat>, ttd: Option<nat>, current: Block, extern: Block,
                       preserve: Block -> bool, coin: bool): (r: Option<bool>)
    ensures r.Some? <==> localTd.Some? && externTd.Some?
    ensures r.Some? ==>
      Capped(if r.value then externTd.value else localTd.value, ttd)
        == Max(Capped(localTd.value, ttd), Capped(externTd.value, ttd))
    ensures r == Some(false) && ttd.Some? ==> externTd.value < ttd.value
    ensures r.Some? && externTd == localTd && (ttd.Some? ==> externTd.value < ttd.value) ==>
      && (extern.number != current.number ==> (r.value <==> extern.number < current.number))
      && (extern.number == current.number && preserve(current) ==> !r.value)
      && (extern.number == current.number && !preserve(current) ==> (r.value <==> preserve(extern) || coin))
  {
    if localTd.None? || externTd.None? then None
    else if ttd.Some? && ttd.value <= externTd.value then Some(true)
    else if externTd.value > localTd.value then Some(true)
    else if externTd.value < localTd.value then Some(false)
    else if extern.number < current.number then Some(true)
    else if extern.number == current.number then Some(!preserve(current) && (preserve(extern) || coin))
    else Some(false)
  }

  /** Fork choice between two headers with a recorded difficulty. */
  function Preferred(td: map<Hash, nat>, current: Block, extern: Block, ttd: Option<nat>, preserve: Block -> bool,
                     coin: bool): bool
    requires current.hash in td && extern.hash in td
  {
    ReorgNeeded(Some(td[current.hash]), Some(td[extern.hash]), ttd, current, extern, preserve, coin).value
  }

  /** What fork choice can see of a chain: the difficulty table and the head. */
  datatype HeadView = HeadView(td: map<Hash, nat>, head: Hash)

  ghost predicate ViewOk(v: HeadView) { v.head in v.td }

  /** One insertion: recorded difficulties stay, and the head only moves to a header whose capped
      total difficulty is at least that of the old head. */
  ghost predicate ForkStep(v: HeadView, v': HeadView, ttd: Option<nat>) {
    && ViewOk(v) && ViewOk(v')
    && (forall h :: h in v.td ==> h in v'.td && v'.td[h] == v.td[h])
    && Capped(v.td[v.head], ttd) <= Capped(v'.td[v'.head], ttd)
  }

  /** Along every run of insertions the capped total difficulty of the head never falls, so a head
      that has reached the terminal total difficulty never drops below it again. */
  lemma {:induction false} HeadDifficultyMonotone(run: seq<HeadView>, ttd: Option<nat>, i: nat, j: nat)
    requires forall k :: 0 <= k < |run| - 1 ==> ForkStep(run[k], run[k + 1], ttd)
    requires i <= j < |run| && ViewOk(run[i])
    ensures ViewOk(run[j]) && Capped(run[i].td[run[i].head], ttd) <= Capped(run[j].td[run[j].head], ttd)
    ensures ttd.Some? && ttd.value <= run[i].td[run[i].head] ==> ttd.value <= run[j].td[run[j].head]
    decreases j - i
  {
    if i < j {
      assert ForkStep(run[i], run[i + 1], ttd);
      HeadDifficultyMonotone(run, ttd, i + 1, j);
    }
  }
}
