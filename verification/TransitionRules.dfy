/** When a message is rejected and why, what the EVM is given, what is refunded and recorded, and what becomes of
    nonces: each stated on the outcome of the whole transition, in the terms of the rules. */
module TransitionRules {
  import opened Wrappers
  import opened Balances
  import opened Gas
  import opened RollupCost
  import opened StateTransition
  import opened TransitionLaws

  // ---- The rules for ordinary messages ----

  /** The sender of a real message uses its next nonce and holds no code. */
  predicate SenderOk(msg: Message, w: World) {
    msg.isFake || (Nonce(w, msg.from) == msg.nonce < MAX_U64 && msg.from !in w.code)
  }

  /** From London on, except in simulations without fees, the caps are looked at. */
  predicate CapsMatter(env: Env, msg: Message) {
    env.rules.london && !(env.noBaseFee && Amount(msg.gasFeeCap) == 0 && msg.gasTipCap == 0)
  }

  predicate CapsOk(env: Env, msg: Message) {
    var cap, tip := Amount(msg.gasFeeCap), msg.gasTipCap;
    var limit := 115792089237316195423570985008687907853269984665640564039457584007913129639936; // 2^256
    cap < limit && tip < limit && tip <= cap && env.baseFee <= cap
  }

  /** The L1 cost of a real message, at the prices where gas is bought. */
  function DataCost(env: Env, msg: Message): nat {
    var cost := CostOf(Payer(env.rules.optimism, env.rules.regolith, msg.isDeposit, msg.rollup), env.oracleAtBuy);
    if msg.isFake || cost.None? then 0 else cost.value
  }

  /** What the sender must own, its mint included: all the gas at the fee cap, the value and the L1 cost. */
  predicate FundsOk(env: Env, msg: Message, w: World) {
    Balance(w.balances, msg.from) + Amount(msg.mint) >=
      DataCost(env, msg) + if msg.gasFeeCap.Some? then msg.gas * msg.gasFeeCap.value + msg.value else msg.gas * msg.gasPrice
  }

  function Price(env: Env, msg: Message): Gas.Result {
    IntrinsicGasOf(msg.data, msg.accessList, msg.to.None?, env.rules.homestead, env.rules.istanbul, env.rules.shanghai)
  }

  predicate CodeOk(env: Env, msg: Message) {
    env.rules.shanghai && msg.to.None? ==> |msg.data| <= 49152
  }

  /** The sender owns the value after paying `paid`. */
  predicate ValueOk(msg: Message, w: World, paid: nat) {
    msg.value > 0 ==> Balance(w.balances, msg.from) + Amount(msg.mint) - paid >= msg.value
  }

  /** What an ordinary message pays for up front. */
  function UpFront(env: Env, msg: Message): nat {
    msg.gas * msg.gasPrice + DataCost(env, msg)
  }

  /** A message is rejected for its sender just when the nonce is not the next one, is the last possible, or the
      sender holds code, and each has its error. */
  lemma SenderErrors(env: Env, msg: Message, w: World, pool: U64)
    requires Honest(env) && !msg.isDeposit
    ensures var r, nonce := Transition(env, msg, w, pool).result, Nonce(w, msg.from);
      && (r == Rejected(NonceTooHigh) <==> !msg.isFake && nonce < msg.nonce)
      && (r == Rejected(NonceTooLow) <==> !msg.isFake && nonce > msg.nonce)
      && (r == Rejected(NonceMax) <==> !msg.isFake && nonce == msg.nonce == MAX_U64)
      && (r == Rejected(SenderNoEOA) <==> !msg.isFake && nonce == msg.nonce < MAX_U64 && msg.from in w.code)
      && r != Rejected(SystemTxNotSupported)
  {
  }

  /** Next come the caps, in this order. */
  lemma CapErrors(env: Env, msg: Message, w: World, pool: U64)
    requires Honest(env) && !msg.isDeposit
    ensures var r, cap, tip := Transition(env, msg, w, pool).result, Amount(msg.gasFeeCap), msg.gasTipCap;
      var limit := 115792089237316195423570985008687907853269984665640564039457584007913129639936;
      var due := SenderOk(msg, w) && CapsMatter(env, msg);
      && (r == Rejected(FeeCapVeryHigh) <==> due && cap >= limit)
      && (r == Rejected(TipVeryHigh) <==> due && cap < limit <= tip)
      && (r == Rejected(TipAboveFeeCap) <==> due && cap < tip < limit)
      && (r == Rejected(FeeCapTooLow) <==> due && tip <= cap < limit && cap < env.baseFee)
  {
  }

  /** Then the funds and the gas of the block. */
  lemma FundErrors(env: Env, msg: Message, w: World, pool: U64)
    requires Honest(env) && !msg.isDeposit
    ensures var r := Transition(env, msg, w, pool).result;
      var due := SenderOk(msg, w) && (CapsMatter(env, msg) ==> CapsOk(env, msg));
      && (r == Rejected(InsufficientFunds) <==> due && !FundsOk(env, msg, w))
      && (r == Rejected(GasLimitReached) <==> due && FundsOk(env, msg, w) && pool < msg.gas)
  {
    MintedBalance(msg, w);
  }

  lemma MintedBalance(msg: Message, w: World)
    ensures Balance(Minted(msg, w).balances, msg.from) == Balance(w.balances, msg.from) + Amount(msg.mint)
    ensures Minted(msg, w).nonces == w.nonces && Minted(msg, w).code == w.code
  {
  }

  /** A message that passes all these has bought its gas. */
  predicate Buys(env: Env, msg: Message, w: World, pool: U64) {
    SenderOk(msg, w) && (CapsMatter(env, msg) ==> CapsOk(env, msg)) && FundsOk(env, msg, w) && pool >= msg.gas
  }

  lemma BuysPassed(env: Env, msg: Message, w: World, pool: U64)
    requires !msg.isDeposit
    ensures Buys(env, msg, w, pool) <==> Check(env, msg, Minted(msg, w), pool).Passed?
    ensures Buys(env, msg, w, pool) ==>
      Check(env, msg, Minted(msg, w), pool).world == Credit(Minted(msg, w), msg.from, 0 - UpFront(env, msg))
  {
    MintedBalance(msg, w);
  }

  /** The rest is looked at when the gas is bought: the intrinsic gas, the value and the size of init code. */
  lemma IntrinsicErrors(env: Env, msg: Message, w: World, pool: U64)
    requires Honest(env) && !msg.isDeposit
    ensures var r, price := Transition(env, msg, w, pool).result, Price(env, msg);
      var buys, paid := Buys(env, msg, w, pool), UpFront(env, msg);
      && (r == Rejected(GasUintOverflow) <==> buys && price.Overflow?)
      && (r == Rejected(IntrinsicGasTooLow) <==> buys && price.Gas? && msg.gas < price.value)
      && (r == Rejected(InsufficientFundsForTransfer) <==>
            buys && price.Gas? && msg.gas >= price.value && !ValueOk(msg, w, paid))
      && (r == Rejected(MaxInitCodeSizeExceeded) <==>
            buys && price.Gas? && msg.gas >= price.value && ValueOk(msg, w, paid) && !CodeOk(env, msg))
  {
    BuysPassed(env, msg, w, pool);
    MintedBalance(msg, w);
  }

  /** An ordinary message is applied just when it obeys every rule. */
  lemma AppliedIff(env: Env, msg: Message, w: World, pool: U64)
    requires Honest(env) && !msg.isDeposit
    ensures Transition(env, msg, w, pool).result.Executed? <==>
      && SenderOk(msg, w) && (CapsMatter(env, msg) ==> CapsOk(env, msg)) && FundsOk(env, msg, w) && pool >= msg.gas
      && Price(env, msg).Gas? && msg.gas >= Price(env, msg).value
      && ValueOk(msg, w, UpFront(env, msg)) && CodeOk(env, msg)
  {
    BuysPassed(env, msg, w, pool);
    MintedBalance(msg, w);
  }

  // ---- What the EVM is given ----

  /** The next nonce, on 64 bits. */
  function NextNonce(n: U64): U64 {
    (n + 1) % 0x1_0000_0000_0000_0000
  }

  /** The EVM gets the gas beyond the intrinsic gas, and a world in which the mint is credited, an ordinary message
      has paid up front, and a call has used its nonce. */
  lemma EvmGets(env: Env, msg: Message, w: World, pool: U64, a: Address)
    requires Ran(env, msg, w, pool)
    ensures var start := Prepared(msg, Bought(env, msg, w, pool));
      && Price(env, msg).Gas? && Price(env, msg).value <= msg.gas
      && Run(env, msg, Bought(env, msg, w, pool)) == env.evm(msg, start, msg.gas - Price(env, msg).value)
      && Balance(start.balances, a) == Balance(w.balances, a)
           + (if a == msg.from then Amount(msg.mint) - (if msg.isDeposit then 0 else UpFront(env, msg)) else 0)
      && Nonce(start, a) == (if a == msg.from && msg.to.Some? then NextNonce(Nonce(w, a)) else Nonce(w, a))
      && start.code == w.code
  {
    MintedBalance(msg, w);
    if !msg.isDeposit {
      BuysPassed(env, msg, w, pool);
    }
  }

  // ---- Gas refunded and recorded ----

  /** Of the gas spent as much as possible of the refund counter is given back, up to one fifth from London on and
      one half before (EIP-3529); the rest is recorded as used. */
  lemma RefundLaw(env: Env, msg: Message, w: World, pool: U64)
    requires Honest(env) && Ran(env, msg, w, pool) && (msg.isDeposit ==> env.rules.optimism && env.rules.regolith)
    ensures var r, ran := Transition(env, msg, w, pool).result, Run(env, msg, Bought(env, msg, w, pool));
      && r.Executed? && r.failed == ran.failed
      && var spent := msg.gas - ran.gasLeft;
         var refunded := spent - r.usedGas;
         && 0 <= refunded <= ran.refund
         && (env.rules.london ==> 5 * refunded <= spent && (refunded == ran.refund || 5 * (refunded + 1) > spent))
         && (!env.rules.london ==> 2 * refunded <= spent && (refunded == ran.refund || 2 * (refunded + 1) > spent))
  {
    CappedRefund(env, msg, Run(env, msg, Bought(env, msg, w, pool)));
  }

  /** The tip per unit of gas: the price before London, and from then on as much of the tip cap as the fee cap
      leaves above the base fee (EIP-1559). */
  lemma TipLaw(env: Env, msg: Message)
    ensures !env.rules.london ==> Tip(env, msg) == msg.gasPrice
    ensures env.rules.london ==>
      && Tip(env, msg) <= msg.gasTipCap && Tip(env, msg) + env.baseFee <= Amount(msg.gasFeeCap)
      && (Tip(env, msg) == msg.gasTipCap || Tip(env, msg) + env.baseFee == Amount(msg.gasFeeCap))
  {
  }

  /** The terms of the ledger of an ordinary message: what is charged and paid as L1 cost, when the coinbase is
      skipped, and who the other recipients are. */
  lemma LedgerTerms(env: Env, msg: Message)
    requires !msg.isDeposit
    ensures L1Charged(env, msg) == DataCost(env, msg)
    ensures L1Paid(env, msg) ==
      if env.rules.optimism && env.rules.bedrock
      then Amount(CostOf(Payer(true, env.rules.regolith, false, msg.rollup), env.oracleAtPay)) else 0
    ensures FeesSkipped(env, msg) <==> env.noBaseFee && Amount(msg.gasFeeCap) == 0 && msg.gasTipCap == 0
    ensures OPTIMISM_BASE_FEE_RECIPIENT == 0x4200000000000000000000000000000000000019
    ensures OPTIMISM_L1_FEE_RECIPIENT == 0x420000000000000000000000000000000000001A
  {
  }

  /** A deposit runs unless the block lacks gas, it is a system deposit after Regolith, or it breaks a rule about
      intrinsic gas, value or init code. */
  lemma DepositRuns(env: Env, msg: Message, w: World, pool: U64)
    requires msg.isDeposit
    ensures Ran(env, msg, w, pool) <==>
      && (if msg.isSystem then !(env.rules.optimism && env.rules.regolith) else pool >= msg.gas)
      && Price(env, msg).Gas? && msg.gas >= Price(env, msg).value
      && ValueOk(msg, w, 0) && CodeOk(env, msg)
  {
    MintedBalance(msg, w);
  }

  /** A deposit that ran leaves, at gas price zero, balances and nonces as the EVM left them. Before Regolith it
      records all its gas, and a system deposit none. */
  lemma DepositRan(env: Env, msg: Message, w: World, pool: U64, a: Address)
    requires Honest(env) && msg.isDeposit && Ran(env, msg, w, pool) && msg.gasPrice == 0
    ensures var out, ran := Transition(env, msg, w, pool), Run(env, msg, Bought(env, msg, w, pool));
      && out.result.Executed? && out.result.failed == ran.failed && out.world.nonces == ran.world.nonces
      && Balance(out.world.balances, a) == Balance(ran.world.balances, a)
      && (!(env.rules.optimism && env.rules.regolith) ==> out.result.usedGas == if msg.isSystem then 0 else msg.gas)
  {
  }

  /** A deposit that cannot run, in a block with enough gas, is recorded as failed, with all its gas, a system deposit
      only from Regolith on. It leaves its mint and one nonce used. */
  lemma DepositFailed(env: Env, msg: Message, w: World, pool: U64, a: Address)
    requires Honest(env) && msg.isDeposit && !Ran(env, msg, w, pool) && (msg.isSystem || pool >= msg.gas)
    ensures var out := Transition(env, msg, w, pool);
      && out.result == Executed(if msg.isSystem && !env.rules.regolith then 0 else msg.gas, true)
      && Balance(out.world.balances, a) == Balance(w.balances, a) + (if a == msg.from then Amount(msg.mint) else 0)
      && Nonce(out.world, a) == if a == msg.from then NextNonce(Nonce(w, a)) else Nonce(w, a)
  {
    DepositIncluded(env, msg, w, pool);
    MintedBalance(msg, w);
  }

  // ---- Nonces ----

  /** The EVM lowers no nonce, and a creation uses that of its sender. */
  ghost predicate NoncesGrow(env: Env) {
    forall msg, w, gas: U64 ::
      var after := env.evm(msg, w, gas).world;
      && (forall a: Address :: Nonce(after, a) >= Nonce(w, a))
      && (msg.to.None? && Nonce(w, msg.from) < MAX_U64 ==> Nonce(after, msg.from) > Nonce(w, msg.from))
  }

  lemma NoncesGrowAt(env: Env, msg: Message, w: World, gas: U64, a: Address)
    requires NoncesGrow(env)
    ensures Nonce(env.evm(msg, w, gas).world, a) >= Nonce(w, a)
    ensures msg.to.None? && Nonce(w, msg.from) < MAX_U64 ==>
      Nonce(env.evm(msg, w, gas).world, msg.from) > Nonce(w, msg.from)
  {
  }

  /** A deposit or a simulated message, whose nonce nobody checks, makes the nonce of its sender wrap around. */
  predicate Wraps(msg: Message, w: World) {
    (msg.isDeposit || msg.isFake) && Nonce(w, msg.from) == MAX_U64
  }

  lemma PayFeesNonces(env: Env, msg: Message, w: World, used: nat)
    ensures PayFees(env, msg, w, used).nonces == w.nonces
  {
  }

  /** The nonces after a message that ran are those the EVM left. */
  lemma RanNonces(env: Env, msg: Message, w: World, pool: U64)
    requires Honest(env) && Ran(env, msg, w, pool)
    ensures Transition(env, msg, w, pool).world.nonces == Run(env, msg, Bought(env, msg, w, pool)).world.nonces
  {
    var r := Run(env, msg, Bought(env, msg, w, pool));
    if !msg.isDeposit {
      var r', left := OrdinaryOutcome(env, msg, w, pool);
      PayFeesNonces(env, msg, Credit(r.world, msg.from, left * msg.gasPrice), msg.gas - left);
    }
  }

  /** No nonce falls when a message is applied, unless it wraps around that of its sender; and a real ordinary message
      uses up its own. */
  lemma NoncesRise(env: Env, msg: Message, w: World, pool: U64, a: Address)
    requires Honest(env) && NoncesGrow(env) && Transition(env, msg, w, pool).result.Executed?
    ensures a != msg.from || !Wraps(msg, w) ==> Nonce(Transition(env, msg, w, pool).world, a) >= Nonce(w, a)
    ensures !msg.isDeposit && !msg.isFake ==>
      Nonce(w, msg.from) == msg.nonce < Nonce(Transition(env, msg, w, pool).world, msg.from)
  {
    if !msg.isDeposit {
      AppliedIff(env, msg, w, pool);
      RejectedLeaves(env, msg, w, pool);
    }
    if Ran(env, msg, w, pool) {
      RanNonces(env, msg, w, pool);
      EvmGets(env, msg, w, pool, a);
      EvmGets(env, msg, w, pool, msg.from);
      var start := Prepared(msg, Bought(env, msg, w, pool));
      NoncesGrowAt(env, msg, start, msg.gas - Price(env, msg).value, a);
      NoncesGrowAt(env, msg, start, msg.gas - Price(env, msg).value, msg.from);
    } else {
      FailedNonces(env, msg, w, pool);
    }
  }

  lemma FailedNonces(env: Env, msg: Message, w: World, pool: U64)
    requires Honest(env) && msg.isDeposit && !Ran(env, msg, w, pool) && Transition(env, msg, w, pool).result.Executed?
    ensures Transition(env, msg, w, pool).world.nonces == BumpNonce(w, msg.from).nonces
  {
    DepositIncluded(env, msg, w, pool);
    MintedBalance(msg, w);
  }

  /** A call uses one nonce and no more when the EVM leaves nonces alone, and a deposit that cannot run does so in any
      case. */
  lemma OneNonce(env: Env, msg: Message, w: World, pool: U64, a: Address)
    requires Honest(env) && Transition(env, msg, w, pool).result.Executed?
    requires Ran(env, msg, w, pool) ==> msg.to.Some? && forall m, v, gas: U64 :: env.evm(m, v, gas).world.nonces == v.nonces
    ensures Nonce(Transition(env, msg, w, pool).world, a) == if a == msg.from then NextNonce(Nonce(w, a)) else Nonce(w, a)
  {
    if Ran(env, msg, w, pool) {
      RanNonces(env, msg, w, pool);
      EvmGets(env, msg, w, pool, a);
    } else {
      if !msg.isDeposit {
        RejectedLeaves(env, msg, w, pool);
      }
      FailedNonces(env, msg, w, pool);
    }
  }
}
