/** What a message pays for its share of the data posted to L1, and the function that remembers the L1
    prices for the duration of a block. */
module RollupCost {
  import opened Wrappers
  import opened Balances
  import opened Gas

  /** Zero and non-zero bytes of the transaction as it is posted to L1. A simulated message has neither. */
  datatype RollupGas = RollupGas(zeroes: U64, ones: U64)
  const NO_ROLLUP_GAS := RollupGas(0, 0)

  /** Before Regolith the bytes of a signature are added. */
  const SIGNATURE_BYTES := 68

  /** The prices kept by the L1 block contract. */
  datatype Oracle = Oracle(l1BaseFee: nat, overhead: nat, scalar: nat)

  function RollupDataGas(r: RollupGas, regolith: bool): U64 {
    Wrap(r.zeroes * TX_DATA_ZERO_GAS
         + (if regolith then r.ones else r.ones + SIGNATURE_BYTES) * TX_DATA_NON_ZERO_GAS_EIP2028)
  }

  function L1Cost(dataGas: U64, o: Oracle): nat {
    (dataGas + o.overhead) * o.l1BaseFee * o.scalar / 1_000_000
  }

  /** Who is charged, and for what kind of data. */
  datatype Payer = Payer(optimism: bool, regolith: bool, isDeposit: bool, rollup: RollupGas)

  predicate CostFree(p: Payer) {
    !p.optimism || p.isDeposit || RollupDataGas(p.rollup, p.regolith) == 0
  }

  /** None when there is no cost. */
  function CostOf(p: Payer, o: Oracle): Option<nat> {
    if CostFree(p) then None else Some(L1Cost(RollupDataGas(p.rollup, p.regolith), o))
  }

  /** A message without rollup data has no cost from Regolith on, and that of a signature before. */
  lemma NoDataCost(p: Payer, o: Oracle)
    requires p.optimism && !p.isDeposit && p.rollup == NO_ROLLUP_GAS
    ensures CostOf(p, o).None? <==> p.regolith
    ensures !p.regolith ==> CostOf(p, o) == Some(L1Cost(SIGNATURE_BYTES * TX_DATA_NON_ZERO_GAS_EIP2028, o))
  {
  }

  /** What the data gas counts: 4 for a zero byte, 16 for another, and before Regolith 68 of those more. It wraps
      around at 64 bits. */
  lemma DataGasCounts(r: RollupGas, regolith: bool)
    ensures RollupDataGas(r, regolith)
         == (4 * r.zeroes + 16 * r.ones + if regolith then 0 else 1088) % 0x1_0000_0000_0000_0000
  {
  }

  /** The cost is that of data gas plus overhead, at the L1 base fee, in millionths of the scalar, rounded down. */
  lemma CostRounds(dataGas: U64, o: Oracle, more: nat)
    ensures var exact := (dataGas + o.overhead) * o.l1BaseFee * o.scalar;
      1_000_000 * L1Cost(dataGas, o) <= exact < 1_000_000 * (L1Cost(dataGas, o) + 1)
    ensures more <= o.overhead && dataGas + more <= MAX_U64 ==>
      L1Cost(dataGas + more, o.(overhead := o.overhead - more)) == L1Cost(dataGas, o)
  {
  }

  /** The prices remembered, and the block they were read in. */
  datatype Cached = Cached(blockNum: nat, oracle: Oracle)

  /** The prices a call in a block uses when the contract has those of `now`. */
  function Prices(cache: Option<Cached>, blockNum: nat, now: Oracle): Oracle {
    if cache.Some? && cache.value.blockNum == blockNum then cache.value.oracle else now
  }

  function Remembered(cache: Option<Cached>, blockNum: nat, p: Payer, now: Oracle): Option<Cached> {
    if CostFree(p) then cache else Some(Cached(blockNum, Prices(cache, blockNum, now)))
  }

  /** Asking again in the same block gives the same cost, whatever the contract has by then: what a message
      is charged when it buys gas is what is paid out for it after it ran. */
  lemma SameCostTwice(cache: Option<Cached>, blockNum: nat, p: Payer, first: Oracle, second: Oracle)
    ensures CostOf(p, Prices(Remembered(cache, blockNum, p, first), blockNum, second))
         == CostOf(p, Prices(cache, blockNum, first))
  {
  }

  class CostFunc {
    var cache: Option<Cached>

    constructor ()
      ensures cache == None
    {
      cache := None;
    }

    method Cost(blockNum: nat, p: Payer, now: Oracle) returns (cost: Option<nat>)
      modifies this
      ensures cost == CostOf(p, Prices(old(cache), blockNum, now))
      ensures cost.None? <==> !p.optimism || p.isDeposit || RollupDataGas(p.rollup, p.regolith) == 0
      ensures cost.Some? && (old(cache).None? || old(cache).value.blockNum != blockNum) ==>
        cost.value == L1Cost(RollupDataGas(p.rollup, p.regolith), now)
      ensures cache == Remembered(old(cache), blockNum, p, now)
    {
      var dataGas := RollupDataGas(p.rollup, p.regolith);
      if !p.optimism || p.isDeposit || dataGas == 0 {
        return None;
      }
      if cache.None? || cache.value.blockNum != blockNum {
        cache := Some(Cached(blockNum, now));
      }
      return Some(L1Cost(dataGas, cache.value.oracle));
    }
  }
}
