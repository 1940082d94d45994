/** What every state transition keeps: money, gas and the promises made to deposits. */
module TransitionLaws {
  import opened Wrappers
  import opened Balances
  import opened RollupCost
  import opened Gas
  import opened StateTransition

  /** The message got as far as the EVM. */
  ghost predicate Ran(env: Env, msg: Message, w: World, pool: U64) {
    var c := Check(env, msg, Minted(msg, w), pool);
    c.Passed? && Blocked(env, msg, c.world).None?
  }

  /** The world the message bought its gas in. */
  ghost function Bought(env: Env, msg: Message, w: World, pool: U64): World
    requires Ran(env, msg, w, pool)
  {
    Check(env, msg, Minted(msg, w), pool).world
  }

  /** The change of the sum of all balances inside the EVM. */
  ghost function EvmDelta(env: Env, msg: Message, w: World, pool: U64): int {
    if Ran(env, msg, w, pool) then
      var w1 := Bought(env, msg, w, pool);
      Total(Run(env, msg, w1).world.balances) - Total(Prepared(msg, w1).balances)
    else 0
  }

  /** What all fee recipients together earn per unit of gas. */
  function Earned(env: Env, msg: Message): int {
    (if FeesSkipped(env, msg) then 0 else Tip(env, msg)) + if env.rules.OptimismBedrock() then env.baseFee else 0
  }

  lemma MintedTotal(msg: Message, w: World)
    ensures Total(Minted(msg, w).balances) == Total(w.balances) + Amount(msg.mint)
  {
    if msg.mint.Some? {
      CreditTotal(w, msg.from, msg.mint.value);
    }
  }

  lemma PayFeesTotal(env: Env, msg: Message, w: World, used: nat)
    ensures Total(PayFees(env, msg, w, used).balances) == Total(w.balances) + used * Earned(env, msg) + L1Paid(env, msg)
  {
    var w1 := if FeesSkipped(env, msg) then w else Credit(w, env.coinbase, used * Tip(env, msg));
    CreditTotal(w, env.coinbase, used * Tip(env, msg));
    if env.rules.OptimismBedrock() {
      var w2 := Credit(w1, OPTIMISM_BASE_FEE_RECIPIENT, used * env.baseFee);
      CreditTotal(w1, OPTIMISM_BASE_FEE_RECIPIENT, used * env.baseFee);
      CreditTotal(w2, OPTIMISM_L1_FEE_RECIPIENT, L1Paid(env, msg));
      Distribute(used, if FeesSkipped(env, msg) then 0 else Tip(env, msg), env.baseFee);
    }
  }

  lemma Distribute(n: int, a: int, b: int)
    ensures n * (a + b) == n * a + n * b
  {
  }

  /** What the fees of an ordinary message add to the sum of all balances: the gas used times what
      the recipients earn beyond the price, plus the L1 cost paid out, minus the L1 cost charged. */
  ghost function FeeSurplus(env: Env, msg: Message, used: nat): int {
    used * (Earned(env, msg) - msg.gasPrice) + L1Paid(env, msg) - L1Charged(env, msg)
  }

  lemma FeeArithmetic(gas: nat, left: nat, price: nat, earned: int)
    requires left <= gas
    ensures left * price - gas * price + (gas - left) * earned == (gas - left) * (earned - price)
  {
    var used := gas - left;
    assert gas * price == used * price + left * price;
    Distribute(used, earned, 0 - price);
    assert used * (0 - price) == 0 - used * price;
  }

  /** How an ordinary message that ran is settled. */
  lemma OrdinaryOutcome(env: Env, msg: Message, w: World, pool: U64) returns (r: EvmResult, left: nat)
    requires Honest(env) && !msg.isDeposit && Ran(env, msg, w, pool)
    ensures r == Run(env, msg, Bought(env, msg, w, pool)) && left <= msg.gas
    ensures Bought(env, msg, w, pool) == Credit(Minted(msg, w), msg.from, 0 - Prepaid(env, msg))
    ensures var out := Transition(env, msg, w, pool);
      && out.result == Executed(msg.gas - left, r.failed)
      && out.world == PayFees(env, msg, Credit(r.world, msg.from, left * msg.gasPrice), msg.gas - left)
  {
    r := Run(env, msg, Bought(env, msg, w, pool));
    left := GasLeft(env, msg, r);
  }

  /** Who pays and who is paid, account by account, when an ordinary message ran: before the EVM the sender
      is credited the mint and charged for all its gas; after it the sender gets back the price of the
      gas left, the coinbase earns the tip, and under Bedrock the base fee and the L1 cost go to their
      recipients, all on the gas the result records. Nobody else is touched. */
  lemma AccountLedger(env: Env, msg: Message, w: World, pool: U64, a: Address)
    requires Honest(env) && !msg.isDeposit && Ran(env, msg, w, pool)
    ensures Balance(Bought(env, msg, w, pool).balances, a) == Balance(w.balances, a)
      + (if a == msg.from then Amount(msg.mint) - msg.gas * msg.gasPrice - L1Charged(env, msg) else 0)
    ensures var out, ran := Transition(env, msg, w, pool), Run(env, msg, Bought(env, msg, w, pool)).world;
      && out.result.Executed? && out.result.usedGas <= msg.gas
      && Balance(out.world.balances, a) == Balance(ran.balances, a)
           + (if a == msg.from then (msg.gas - out.result.usedGas) * msg.gasPrice else 0)
           + (if a == env.coinbase && !FeesSkipped(env, msg) then out.result.usedGas * Tip(env, msg) else 0)
           + (if a == OPTIMISM_BASE_FEE_RECIPIENT && env.rules.OptimismBedrock()
              then out.result.usedGas * env.baseFee else 0)
           + (if a == OPTIMISM_L1_FEE_RECIPIENT then L1Paid(env, msg) else 0)
  {
    var r, left := OrdinaryOutcome(env, msg, w, pool);
    PaidTo(env, msg, Credit(r.world, msg.from, left * msg.gasPrice), msg.gas - left, a);
    assert msg.gas - (msg.gas - left) == left;
  }

  lemma PaidTo(env: Env, msg: Message, w: World, used: nat, a: Address)
    ensures Balance(PayFees(env, msg, w, used).balances, a) == Balance(w.balances, a)
      + (if a == env.coinbase && !FeesSkipped(env, msg) then used * Tip(env, msg) else 0)
      + (if a == OPTIMISM_BASE_FEE_RECIPIENT && env.rules.OptimismBedrock() then used * env.baseFee else 0)
      + (if a == OPTIMISM_L1_FEE_RECIPIENT then L1Paid(env, msg) else 0)
  {
  }

  /** The ledger of an ordinary message that ran: its mint, what the EVM does, and the fee surplus. */
  lemma BalanceLaw(env: Env, msg: Message, w: World, pool: U64)
    requires Honest(env) && !msg.isDeposit && Ran(env, msg, w, pool)
    ensures var out := Transition(env, msg, w, pool);
      && out.result.Executed?
      && Total(out.world.balances) == Total(w.balances) + Amount(msg.mint) + EvmDelta(env, msg, w, pool)
           + FeeSurplus(env, msg, out.result.usedGas)
  {
    var r, left := OrdinaryOutcome(env, msg, w, pool);
    MintedTotal(msg, w);
    CreditTotal(Minted(msg, w), msg.from, 0 - Prepaid(env, msg));
    SettledTotal(env, msg, r.world, left);
  }

  /** An ordinary message is rejected just when it does not get as far as the EVM. One that fails its checks
      leaves world and pool as they were, its mint aside; one that is blocked afterwards has paid for all its gas
      and is not given any of it back. */
  lemma RejectedLeaves(env: Env, msg: Message, w: World, pool: U64)
    requires Honest(env) && !msg.isDeposit
    ensures var out, checked := Transition(env, msg, w, pool), Check(env, msg, Minted(msg, w), pool);
      && (out.result.Rejected? <==> !Ran(env, msg, w, pool))
      && (checked.Refused? ==> out.world == Minted(msg, w) && out.pool == pool && out.result.error == checked.error)
      && (out.result.Rejected? && checked.Passed? ==>
            && out.world == Credit(Minted(msg, w), msg.from, 0 - Prepaid(env, msg)) && out.pool == pool - msg.gas
            && Some(out.result.error) == Blocked(env, msg, out.world))
  {
    if Ran(env, msg, w, pool) {
      var r, left := OrdinaryOutcome(env, msg, w, pool);
    }
  }

  lemma SettledTotal(env: Env, msg: Message, w: World, left: nat)
    requires left <= msg.gas
    ensures Total(PayFees(env, msg, Credit(w, msg.from, left * msg.gasPrice), msg.gas - left).balances)
      == Total(w.balances) + Prepaid(env, msg) + FeeSurplus(env, msg, msg.gas - left)
  {
    CreditTotal(w, msg.from, left * msg.gasPrice);
    PayFeesTotal(env, msg, Credit(w, msg.from, left * msg.gasPrice), msg.gas - left);
    FeeArithmetic(msg.gas, left, msg.gasPrice, Earned(env, msg));
  }

  /** The sum of all balances changes by the mint and what the EVM does, and by nothing else. */
  ghost predicate Conserves(env: Env, msg: Message, w: World, pool: U64)
    requires Honest(env)
  {
    Total(Transition(env, msg, w, pool).world.balances)
      == Total(w.balances) + Amount(msg.mint) + EvmDelta(env, msg, w, pool)
  }

  /** An ordinary message ran on base fee plus tip. */
  ghost predicate RanAtPrice(env: Env, msg: Message, w: World, pool: U64) {
    !msg.isDeposit && Ran(env, msg, w, pool) && !FeesSkipped(env, msg) && msg.gasPrice == env.baseFee + Tip(env, msg)
  }

  /** Under Bedrock an ordinary message that pays base fee plus tip conserves money just when it is charged
      the L1 cost that is paid out. */
  lemma BedrockConserves(env: Env, msg: Message, w: World, pool: U64)
    requires Honest(env) && RanAtPrice(env, msg, w, pool) && env.rules.OptimismBedrock()
    ensures Conserves(env, msg, w, pool) <==> L1Charged(env, msg) == L1Paid(env, msg)
  {
    BalanceLaw(env, msg, w, pool);
    SurplusOf(env, msg, Transition(env, msg, w, pool).result.usedGas);
  }

  /** A real message is, whatever L1 prices the contract has before and after it: both costs are asked for in
      one block. */
  lemma RealConserves(env: Env, msg: Message, w: World, pool: U64, cache: Option<Cached>, blockNum: nat,
                      before: Oracle, after: Oracle)
    requires Honest(env) && RanAtPrice(env, msg, w, pool) && env.rules.OptimismBedrock() && !msg.isFake
    requires env.oracleAtBuy == Prices(cache, blockNum, before)
    requires env.oracleAtPay == Prices(Remembered(cache, blockNum, PayerOf(env, msg), before), blockNum, after)
    ensures Conserves(env, msg, w, pool)
  {
    BedrockConserves(env, msg, w, pool);
    SameCostTwice(cache, blockNum, PayerOf(env, msg), before, after);
  }

  /** A simulated message is charged no L1 cost. Before Regolith one is paid out all the same, that of a
      signature; so it conserves money just when Regolith is active or that cost is zero. */
  lemma SimulatedConserves(env: Env, msg: Message, w: World, pool: U64)
    requires Honest(env) && RanAtPrice(env, msg, w, pool) && env.rules.OptimismBedrock()
    requires msg.isFake && msg.rollup == NO_ROLLUP_GAS
    ensures Conserves(env, msg, w, pool)
      <==> env.rules.regolith || L1Cost(SIGNATURE_BYTES * TX_DATA_NON_ZERO_GAS_EIP2028, env.oracleAtPay) == 0
  {
    BedrockConserves(env, msg, w, pool);
    NoDataCost(PayerOf(env, msg), env.oracleAtPay);
  }

  /** An EVM that does nothing and uses no gas. */
  function Idle(msg: Message, w: World, gas: U64): EvmResult {
    EvmResult(w, gas, 0, false)
  }

  /** A chain with all rules up to Bedrock, and Regolith or not. */
  function BedrockEnv(regolith: bool, evm: (Message, World, U64) -> EvmResult): Env {
    var prices := Oracle(1_000_000, 0, 1);
    Env(Rules(true, true, true, false, true, true, regolith), false, 1, 7, prices, prices, evm)
  }

  lemma IdleHonest(regolith: bool)
    ensures Honest(BedrockEnv(regolith, Idle))
  {
  }

  /** A plain call at the base fee. */
  function PlainCall(isFake: bool): Message {
    Message(5, Some(6), 0, 21000, 1, Some(1), 0, 0, [], [], isFake, false, false, None, NO_ROLLUP_GAS)
  }

  /** A simulated call before Regolith that makes money. */
  lemma SimulationMakesMoney() returns (env: Env, msg: Message, w: World)
    ensures Honest(env) && RanAtPrice(env, msg, w, 30000) && env.rules.OptimismBedrock()
    ensures msg.isFake && msg.rollup == NO_ROLLUP_GAS && !Conserves(env, msg, w, 30000)
  {
    IdleHonest(false);
    env, msg, w := BedrockEnv(false, Idle), PlainCall(true), World(map[5 := 21000], map[], {});
    assert StorageKeys([]) == 0 && NonZeroBytes([]) == 0;
    assert Intrinsic(env, msg) == Gas.Gas(21000);
    SimulatedConserves(env, msg, w, 30000);
  }

  /** Before Bedrock the base fee is burnt, and so is the L1 cost, which only an Optimism chain has. */
  lemma LondonBurnsBaseFee(env: Env, msg: Message, w: World, pool: U64)
    requires Honest(env) && RanAtPrice(env, msg, w, pool) && !env.rules.OptimismBedrock()
    ensures var out := Transition(env, msg, w, pool);
      && out.result.Executed?
      && Total(out.world.balances) == Total(w.balances) + Amount(msg.mint) + EvmDelta(env, msg, w, pool)
           - out.result.usedGas * env.baseFee - L1Charged(env, msg)
    ensures !env.rules.optimism ==> L1Charged(env, msg) == 0
  {
    BalanceLaw(env, msg, w, pool);
    SurplusOf(env, msg, Transition(env, msg, w, pool).result.usedGas);
  }

  lemma SurplusOf(env: Env, msg: Message, used: nat)
    requires !FeesSkipped(env, msg) && msg.gasPrice == env.baseFee + Tip(env, msg)
    ensures FeeSurplus(env, msg, used) == L1Paid(env, msg) - L1Charged(env, msg)
      - if env.rules.OptimismBedrock() then 0 else used * env.baseFee
  {
    if !env.rules.OptimismBedrock() {
      Distribute(used, env.baseFee, 0 - env.baseFee);
    }
  }

  /** The price a transaction is given from its caps is base fee plus effective tip. */
  lemma EffectivePrice(env: Env, msg: Message)
    requires env.rules.london && msg.gasFeeCap.Some? && env.baseFee <= msg.gasFeeCap.value
    requires msg.gasPrice == Min(msg.gasTipCap + env.baseFee, msg.gasFeeCap.value)
    ensures msg.gasPrice == env.baseFee + Tip(env, msg) && msg.gasPrice <= msg.gasFeeCap.value
  {
  }

  lemma ProductMonotone(n: nat, a: nat, b: nat)
    requires a <= b
    ensures n * a <= n * b
  {
  }

  /** Once gas is bought at no more than the fee cap, the sender still owns the value: no balance went
      below zero, and the later check of the value cannot fail. */
  lemma BuyingLeavesValue(env: Env, msg: Message, w: World, pool: U64)
    requires !msg.isDeposit && Check(env, msg, w, pool).Passed?
    requires msg.gasFeeCap.Some? && msg.gasPrice <= msg.gasFeeCap.value
    ensures var w1 := Check(env, msg, w, pool).world;
      && Balance(w1.balances, msg.from) >= msg.value
      && Blocked(env, msg, w1) != Some(InsufficientFundsForTransfer)
      && (Solvent(w) ==> Solvent(w1))
  {
    ProductMonotone(msg.gas, msg.gasPrice, msg.gasFeeCap.value);
  }

  lemma PayFeesSolvent(env: Env, msg: Message, w: World, used: nat)
    requires Solvent(w) && (Tip(env, msg) >= 0 || FeesSkipped(env, msg))
    ensures Solvent(PayFees(env, msg, w, used))
  {
    var w1 := if FeesSkipped(env, msg) then w else Credit(w, env.coinbase, used * Tip(env, msg));
    assert Solvent(w1) by {
      if !FeesSkipped(env, msg) {
        ProductMonotone(used, 0, Tip(env, msg));
      }
    }
    ProductMonotone(used, 0, env.baseFee);
    assert Solvent(Credit(w1, OPTIMISM_BASE_FEE_RECIPIENT, used * env.baseFee));
  }

  /** A message that passed the fee rules pays no negative tip. */
  lemma TipNotNegative(env: Env, msg: Message, w: World, pool: U64)
    requires !msg.isDeposit && Check(env, msg, w, pool).Passed?
    ensures Tip(env, msg) >= 0 || FeesSkipped(env, msg)
  {
  }

  /** No balance is below zero after an ordinary message, whether it was refused, blocked or ran. */
  lemma StaysSolvent(env: Env, msg: Message, w: World, pool: U64)
    requires Honest(env) && !msg.isDeposit && Solvent(w)
    requires msg.gasFeeCap.Some? && msg.gasPrice <= msg.gasFeeCap.value
    ensures Solvent(Transition(env, msg, w, pool).world)
  {
    var minted := Minted(msg, w);
    assert Solvent(minted);
    RejectedLeaves(env, msg, w, pool);
    if Check(env, msg, minted, pool).Passed? {
      BuyingLeavesValue(env, msg, minted, pool);
    }
    if Ran(env, msg, w, pool) {
      TipNotNegative(env, msg, minted, pool);
      var r, left := OrdinaryOutcome(env, msg, w, pool);
      ProductMonotone(left, 0, msg.gasPrice);
      var refunded := Credit(r.world, msg.from, left * msg.gasPrice);
      assert Solvent(refunded);
      PayFeesSolvent(env, msg, refunded, msg.gas - left);
    }
  }

  // ---- Gas ----

  /** A system deposit that Regolith records as using its gas although the pool was not charged. */
  ghost predicate Unmetered(env: Env, msg: Message, w: World) {
    && msg.isDeposit && msg.isSystem && msg.gas > 0 && env.rules.regolith
    && (env.rules.optimism || Blocked(env, msg, Minted(msg, w)).Some?)
  }

  /** What a message records as used is what the pool lost, except that an unmetered system deposit
      records its gas and takes none; the pool never grows, so returning gas to it cannot overflow. */
  lemma GasLaw(env: Env, msg: Message, w: World, pool: U64)
    requires Honest(env) && Transition(env, msg, w, pool).result.Executed?
    ensures var out := Transition(env, msg, w, pool);
      && out.pool <= pool && out.result.usedGas <= msg.gas
      && out.pool + out.result.usedGas == pool + if Unmetered(env, msg, w) then msg.gas else 0
  {
  }

  /** A system deposit of 21000 gas after Regolith: 21000 are recorded and the pool keeps its 30000. */
  lemma UnmeteredDeposit() returns (env: Env, msg: Message, w: World)
    ensures Honest(env) && Unmetered(env, msg, w)
    ensures var out := Transition(env, msg, w, 30000);
      out.result == Executed(21000, true) && out.pool == 30000
  {
    IdleHonest(true);
    env, w := BedrockEnv(true, Idle), World(map[], map[], {});
    msg := PlainCall(false).(gasPrice := 0, isDeposit := true, isSystem := true);
  }

  // ---- Deposits ----

  /** A deposit is rejected only by a block without enough gas; when it cannot run otherwise, all it
      leaves is its mint and a nonce increment. */
  lemma DepositIncluded(env: Env, msg: Message, w: World, pool: U64)
    requires Honest(env) && msg.isDeposit
    ensures var out := Transition(env, msg, w, pool);
      && (out.result.Rejected? <==> !msg.isSystem && pool < msg.gas)
      && (out.result.Rejected? ==> out.result.error == GasLimitReached && out.world == Minted(msg, w) && out.pool == pool)
      && (out.result.Executed? && !Ran(env, msg, w, pool) ==>
            out.result.failed && out.world == BumpNonce(Minted(msg, w), msg.from))
  {
  }

  /** On every exit, a deposit that pays nothing for gas adds its mint and what the EVM does. */
  lemma DepositBalances(env: Env, msg: Message, w: World, pool: U64)
    requires Honest(env) && msg.isDeposit && msg.gasPrice == 0
    ensures Total(Transition(env, msg, w, pool).world.balances)
      == Total(w.balances) + Amount(msg.mint) + EvmDelta(env, msg, w, pool)
  {
    MintedTotal(msg, w);
    DepositIncluded(env, msg, w, pool);
    if Ran(env, msg, w, pool) {
      CreditTotal(Run(env, msg, Bought(env, msg, w, pool)).world, msg.from, 0);
    }
  }
}
