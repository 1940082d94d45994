/** Applying one message: what it pays, what it is refunded, and where the money and the gas go
    (EIP-1559 fee split, EIP-3529 refund cap, deposits and system transactions). */
module StateTransition {
  import opened Wrappers
  import opened Balances
  import opened Gas
  import opened RollupCost

  const REFUND_QUOTIENT := 2
  const REFUND_QUOTIENT_EIP3529 := 5
  const MAX_INIT_CODE_SIZE := 2 * 24576
  const TWO_TO_256 := 0x1_0000_0000_0000_0000_0000_0000_0000_0000_0000_0000_0000_0000_0000_0000_0000_0000
  const OPTIMISM_BASE_FEE_RECIPIENT: Address := 0x4200000000000000000000000000000000000019
  const OPTIMISM_L1_FEE_RECIPIENT: Address := 0x420000000000000000000000000000000000001A

  /** `to` is None for a contract creation; the access list gives the number of keys of each entry. */
  datatype Message = Message(
    from: Address, to: Option<Address>, nonce: U64, gas: U64,
    gasPrice: nat, gasFeeCap: Option<nat>, gasTipCap: nat, value: nat,
    data: seq<bv8>, accessList: seq<nat>,
    isFake: bool, isDeposit: bool, isSystem: bool, mint: Option<nat>, rollup: RollupGas)

  /** Active rules. Optimism's Bedrock and Regolith rules need the Optimism configuration too. */
  datatype Rules = Rules(homestead: bool, istanbul: bool, london: bool, shanghai: bool,
                         optimism: bool, bedrock: bool, regolith: bool)
  {
    predicate OptimismBedrock() { optimism && bedrock }
    predicate OptimismRegolith() { optimism && regolith }
  }

  /** What an execution leaves behind: the world, unspent gas and the refund counter. */
  datatype EvmResult = EvmResult(world: World, gasLeft: nat, refund: nat, failed: bool)

  /** The block a message runs in. The EVM is a parameter, and so are the L1 prices the cost function uses
      where gas is bought and where fees are paid. */
  datatype Env = Env(rules: Rules, noBaseFee: bool, baseFee: nat, coinbase: Address,
                     oracleAtBuy: Oracle, oracleAtPay: Oracle,
                     evm: (Message, World, U64) -> EvmResult)

  /** The EVM returns at most the gas it was given and leaves no balance below zero. */
  ghost predicate Honest(env: Env) {
    forall msg, w, gas: U64 ::
      env.evm(msg, w, gas).gasLeft <= gas && (Solvent(w) ==> Solvent(env.evm(msg, w, gas).world))
  }

  /** The fee cap may be absent only where no rule reads it. */
  predicate WellPosed(env: Env, msg: Message) {
    (env.rules.london || env.noBaseFee ==> msg.gasFeeCap.Some?) && |msg.data| <= MAX_U64
  }

  datatype TxError =
    | NonceTooHigh | NonceTooLow | NonceMax | SenderNoEOA
    | FeeCapVeryHigh | TipVeryHigh | TipAboveFeeCap | FeeCapTooLow
    | InsufficientFunds | GasLimitReached | SystemTxNotSupported
    | GasUintOverflow | IntrinsicGasTooLow | InsufficientFundsForTransfer | MaxInitCodeSizeExceeded

  /** `usedGas` is what the receipt records, `failed` whether execution (or a deposit) failed. */
  datatype TxResult = Rejected(error: TxError) | Executed(usedGas: U64, failed: bool)

  /** The world and the gas pool after a message, and the result. */
  datatype Outcome = Outcome(world: World, pool: U64, result: TxResult)

  function Amount(x: Option<nat>): nat {
    if x.Some? then x.value else 0
  }

  // ---- Specification: checks ----

  /** The first rule about nonce, sender or fees that an ordinary message breaks. */
  function BrokenRule(env: Env, msg: Message, w: World): Option<TxError> {
    var nonce, cap, tip := Nonce(w, msg.from), Amount(msg.gasFeeCap), msg.gasTipCap;
    if !msg.isFake && nonce < msg.nonce then Some(NonceTooHigh)
    else if !msg.isFake && nonce > msg.nonce then Some(NonceTooLow)
    else if !msg.isFake && nonce == MAX_U64 then Some(NonceMax)
    else if !msg.isFake && msg.from in w.code then Some(SenderNoEOA)
    else if !env.rules.london || (env.noBaseFee && cap == 0 && tip == 0) then None
    else if cap >= TWO_TO_256 then Some(FeeCapVeryHigh)
    else if tip >= TWO_TO_256 then Some(TipVeryHigh)
    else if cap < tip then Some(TipAboveFeeCap)
    else if cap < env.baseFee then Some(FeeCapTooLow)
    else None
  }

  function PayerOf(env: Env, msg: Message): Payer {
    Payer(env.rules.optimism, env.rules.regolith, msg.isDeposit, msg.rollup)
  }

  function L1Charged(env: Env, msg: Message): nat {
    if msg.isFake then 0 else Amount(CostOf(PayerOf(env, msg), env.oracleAtBuy))
  }

  function L1Paid(env: Env, msg: Message): nat {
    if env.rules.OptimismBedrock() then Amount(CostOf(PayerOf(env, msg), env.oracleAtPay)) else 0
  }

  /** What is taken from the sender up front. */
  function Prepaid(env: Env, msg: Message): nat {
    msg.gas * msg.gasPrice + L1Charged(env, msg)
  }

  /** What the sender must own for that. */
  function FundsNeeded(env: Env, msg: Message): nat {
    if msg.gasFeeCap.Some? then msg.gas * msg.gasFeeCap.value + msg.value + L1Charged(env, msg) else Prepaid(env, msg)
  }

  datatype Checked = Passed(world: World, pool: U64) | Refused(error: TxError)

  function Buy(env: Env, msg: Message, w: World, pool: U64): Checked {
    if Balance(w.balances, msg.from) < FundsNeeded(env, msg) then Refused(InsufficientFunds)
    else if pool < msg.gas then Refused(GasLimitReached)
    else Passed(Credit(w, msg.from, 0 - Prepaid(env, msg)), pool - msg.gas)
  }

  function Check(env: Env, msg: Message, w: World, pool: U64): Checked {
    if msg.isDeposit then
      if msg.isSystem then
        if env.rules.OptimismRegolith() then Refused(SystemTxNotSupported) else Passed(w, pool)
      else if pool < msg.gas then Refused(GasLimitReached)
      else Passed(w, pool - msg.gas)
    else
      var broken := BrokenRule(env, msg, w);
      if broken.Some? then Refused(broken.value) else Buy(env, msg, w, pool)
  }

  function Intrinsic(env: Env, msg: Message): Gas.Result {
    IntrinsicGasOf(msg.data, msg.accessList, msg.to.None?, env.rules.homestead, env.rules.istanbul, env.rules.shanghai)
  }

  /** The first rule a message with bought gas breaks before it may run. */
  function Blocked(env: Env, msg: Message, w: World): Option<TxError> {
    var intrinsic := Intrinsic(env, msg);
    if intrinsic.Overflow? then Some(GasUintOverflow)
    else if msg.gas < intrinsic.value then Some(IntrinsicGasTooLow)
    else if msg.value > 0 && !CanTransfer(w, msg.from, msg.value) then Some(InsufficientFundsForTransfer)
    else if env.rules.shanghai && msg.to.None? && |msg.data| > MAX_INIT_CODE_SIZE then Some(MaxInitCodeSizeExceeded)
    else None
  }

  // ---- Specification: execution and settlement ----

  /** The world the EVM starts from: a call bumps the nonce first, a creation leaves that to the EVM. */
  function Prepared(msg: Message, w: World): World {
    if msg.to.Some? then BumpNonce(w, msg.from) else w
  }

  function Run(env: Env, msg: Message, w: World): EvmResult
    requires Blocked(env, msg, w).None?
  {
    env.evm(msg, Prepared(msg, w), msg.gas - Intrinsic(env, msg).value)
  }

  function Min(a: nat, b: nat): nat { if a < b then a else b }

  /** As much as possible of the refund counter is refunded, up to one part in `quotient` of the gas spent: one in
      five from EIP-3529 on, one in two before. */
  predicate Refunded(quotient: nat, spent: nat, refunded: int, counter: nat) {
    && 0 <= refunded <= counter && quotient * refunded <= spent
    && (refunded == counter || quotient * (refunded + 1) > spent)
  }

  /** Gas the message does not pay for: what the EVM left plus the capped refund. */
  function GasLeft(env: Env, msg: Message, r: EvmResult): (left: nat)
    requires r.gasLeft <= msg.gas
    ensures r.gasLeft <= left <= msg.gas
  {
    var quotient := if env.rules.london then REFUND_QUOTIENT_EIP3529 else REFUND_QUOTIENT;
    r.gasLeft + Min((msg.gas - r.gasLeft) / quotient, r.refund)
  }

  lemma CappedRefund(env: Env, msg: Message, r: EvmResult)
    requires r.gasLeft <= msg.gas
    ensures Refunded(if env.rules.london then 5 else 2, msg.gas - r.gasLeft, GasLeft(env, msg, r) - r.gasLeft, r.refund)
  {
  }

  /** What the coinbase earns per unit of gas. */
  function Tip(env: Env, msg: Message): int {
    if !env.rules.london then msg.gasPrice
    else if msg.gasTipCap < Amount(msg.gasFeeCap) - env.baseFee then msg.gasTipCap
    else Amount(msg.gasFeeCap) - env.baseFee
  }

  /** Simulated calls without fees pay no coinbase. */
  predicate FeesSkipped(env: Env, msg: Message) {
    env.noBaseFee && Amount(msg.gasFeeCap) == 0 && msg.gasTipCap == 0
  }

  /** Fees of an ordinary message: tip to the coinbase, under Bedrock also base fee and L1 cost. */
  function PayFees(env: Env, msg: Message, w: World, used: nat): World {
    var w1 := if FeesSkipped(env, msg) then w else Credit(w, env.coinbase, used * Tip(env, msg));
    if !env.rules.OptimismBedrock() then w1
    else
      var w2 := Credit(w1, OPTIMISM_BASE_FEE_RECIPIENT, used * env.baseFee);
      var cost := CostOf(PayerOf(env, msg), env.oracleAtPay);
      if cost.Some? then Credit(w2, OPTIMISM_L1_FEE_RECIPIENT, cost.value) else w2
  }

  /** From the execution to the outcome. */
  function Settle(env: Env, msg: Message, pool: U64, r: EvmResult): Outcome
    requires r.gasLeft <= msg.gas && (pool + msg.gas <= MAX_U64 || (msg.isDeposit && !env.rules.OptimismRegolith()))
  {
    if msg.isDeposit && !env.rules.OptimismRegolith() then
      Outcome(r.world, pool, Executed(if msg.isSystem then 0 else msg.gas, r.failed))
    else
      var left := GasLeft(env, msg, r);
      var refunded := Credit(r.world, msg.from, left * msg.gasPrice);
      Outcome(if msg.isDeposit then refunded else PayFees(env, msg, refunded, msg.gas - left),
              pool + left, Executed(msg.gas - left, r.failed))
  }

  function Inner(env: Env, msg: Message, w: World, pool: U64): Outcome
    requires Honest(env)
  {
    match Check(env, msg, w, pool)
    case Refused(error) => Outcome(w, pool, Rejected(error))
    case Passed(w1, pool1) =>
      var blocked := Blocked(env, msg, w1);
      if blocked.Some? then Outcome(w1, pool1, Rejected(blocked.value))
      else Settle(env, msg, pool1, Run(env, msg, w1))
  }

  function Minted(msg: Message, w: World): World {
    if msg.mint.Some? then Credit(w, msg.from, msg.mint.value) else w
  }

  /** The whole transition. A failed deposit is included all the same, with nothing but its mint and
      a nonce increment, unless the block is out of gas. */
  function Transition(env: Env, msg: Message, w: World, pool: U64): Outcome
    requires Honest(env)
  {
    var minted := Minted(msg, w);
    var inner := Inner(env, msg, minted, pool);
    if msg.isDeposit && inner.result.Rejected? && inner.result.error != GasLimitReached then
      Outcome(BumpNonce(minted, msg.from), inner.pool,
              Executed(if msg.isSystem && !env.rules.regolith then 0 else msg.gas, true))
    else inner
  }

  // ---- The transition as it runs: gas counters, pool and state change in place ----

  class StateDB {
    var world: World
    var refund: nat

    constructor (w: World)
      ensures world == w
    {
      world, refund := w, 0;
    }
  }

  class StateTransition {
    const env: Env
    const msg: Message
    const gp: GasPool
    const state: StateDB
    var gas: U64
    var initialGas: U64

    constructor (env: Env, msg: Message, gp: GasPool, state: StateDB)
      ensures this.env == env && this.msg == msg && this.gp == gp && this.state == state && gas == 0
    {
      this.env, this.msg, this.gp, this.state := env, msg, gp, state;
      gas, initialGas := 0, 0;
    }

    function GasUsed(): (used: U64)
      requires gas <= initialGas
      reads this
    {
      initialGas - gas
    }

    method BuyGas() returns (error: Option<TxError>)
      requires gas == 0
      modifies this, gp, state
      ensures match Buy(env, msg, old(state.world), old(gp.gas))
        case Refused(e) => error == Some(e) && state.world == old(state.world) && gp.gas == old(gp.gas)
        case Passed(w, pool) => error == None && state.world == w && gp.gas == pool && gas == initialGas == msg.gas
    {
      var mgval := msg.gas * msg.gasPrice;
      var l1Cost := None;
      if !msg.isFake {
        l1Cost := CostOf(PayerOf(env, msg), env.oracleAtBuy);
      }
      if l1Cost.Some? {
        mgval := mgval + l1Cost.value;
      }
      var balanceCheck := mgval;
      if msg.gasFeeCap.Some? {
        balanceCheck := msg.gas * msg.gasFeeCap.value;
        balanceCheck := balanceCheck + msg.value;
        if l1Cost.Some? {
          balanceCheck := balanceCheck + l1Cost.value;
        }
      }
      if Balance(state.world.balances, msg.from) < balanceCheck {
        return Some(InsufficientFunds);
      }
      var ok := gp.SubGas(msg.gas);
      if !ok {
        return Some(GasLimitReached);
      }
      gas := gas + msg.gas;
      initialGas := msg.gas;
      state.world := Credit(state.world, msg.from, 0 - mgval);
      error := None;
    }

    method PreCheck() returns (error: Option<TxError>)
      requires gas == 0 && WellPosed(env, msg)
      modifies this, gp, state
      ensures match Check(env, msg, old(state.world), old(gp.gas))
        case Refused(e) => error == Some(e) && state.world == old(state.world) && gp.gas == old(gp.gas)
        case Passed(w, pool) => error == None && state.world == w && gp.gas == pool && gas == initialGas == msg.gas
    {
      if msg.isDeposit {
        initialGas := msg.gas;
        gas := gas + msg.gas;
        if msg.isSystem {
          return if env.rules.OptimismRegolith() then Some(SystemTxNotSupported) else None;
        }
        var ok := gp.SubGas(msg.gas);
        return if ok then None else Some(GasLimitReached);
      }
      if !msg.isFake {
        var nonce := Nonce(state.world, msg.from);
        if nonce < msg.nonce {
          return Some(NonceTooHigh);
        } else if nonce > msg.nonce {
          return Some(NonceTooLow);
        } else if nonce == MAX_U64 {
          return Some(NonceMax);
        }
        if msg.from in state.world.code {
          return Some(SenderNoEOA);
        }
      }
      if env.rules.london {
        var cap := msg.gasFeeCap.value;
        if !env.noBaseFee || cap > 0 || msg.gasTipCap > 0 {
          if cap >= TWO_TO_256 {
            return Some(FeeCapVeryHigh);
          }
          if msg.gasTipCap >= TWO_TO_256 {
            return Some(TipVeryHigh);
          }
          if cap < msg.gasTipCap {
            return Some(TipAboveFeeCap);
          }
          if cap < env.baseFee {
            return Some(FeeCapTooLow);
          }
        }
      }
      error := BuyGas();
    }

    method RefundGas(refundQuotient: nat)
      requires refundQuotient == REFUND_QUOTIENT || refundQuotient == REFUND_QUOTIENT_EIP3529
      requires gas <= initialGas && gp.gas + initialGas <= MAX_U64
      modifies this, gp, state
      ensures initialGas == old(initialGas) && state.refund == old(state.refund)
      ensures gas == old(gas) + Min(old(GasUsed()) / refundQuotient, old(state.refund)) <= initialGas
      ensures state.world == Credit(old(state.world), msg.from, gas * msg.gasPrice)
      ensures gp.gas == old(gp.gas) + gas
    {
      var refund: nat := GasUsed() / refundQuotient;
      if refund > state.refund {
        refund := state.refund;
      }
      gas := gas + refund;
      var remaining := gas * msg.gasPrice;
      state.world := Credit(state.world, msg.from, remaining);
      gp.AddGas(gas);
    }

    /** The fee part of the inner transition. */
    method PayRecipients()
      requires gas <= initialGas && WellPosed(env, msg)
      modifies state
      ensures state.world == PayFees(env, msg, old(state.world), GasUsed())
    {
      var effectiveTip: int := msg.gasPrice;
      if env.rules.london {
        var headroom := msg.gasFeeCap.value - env.baseFee;
        effectiveTip := if msg.gasTipCap < headroom then msg.gasTipCap else headroom;
      }
      if env.noBaseFee && msg.gasFeeCap.value == 0 && msg.gasTipCap == 0 {
      } else {
        var fee := GasUsed() * effectiveTip;
        state.world := Credit(state.world, env.coinbase, fee);
      }
      if env.rules.optimism && env.rules.OptimismBedrock() {
        state.world := Credit(state.world, OPTIMISM_BASE_FEE_RECIPIENT, GasUsed() * env.baseFee);
        var cost := CostOf(PayerOf(env, msg), env.oracleAtPay);
        if cost.Some? {
          state.world := Credit(state.world, OPTIMISM_L1_FEE_RECIPIENT, cost.value);
        }
      }
    }

    /** Run the EVM on a message whose gas is bought. */
    method Execute() returns (failed: bool)
      requires Honest(env) && gas == initialGas == msg.gas && Blocked(env, msg, state.world).None?
      modifies this, state
      ensures initialGas == old(initialGas)
      ensures var r := Run(env, msg, old(state.world));
        state.world == r.world && state.refund == r.refund && gas == r.gasLeft && failed == r.failed && gas <= initialGas
    {
      gas := gas - Intrinsic(env, msg).value;
      if msg.to.Some? {
        state.world := BumpNonce(state.world, msg.from);
      }
      var r := env.evm(msg, state.world, gas);
      state.world, state.refund, gas, failed := r.world, r.refund, r.gasLeft, r.failed;
    }

    /** Refund, fees and recorded gas of a message that has run. */
    method SettleUp(failed: bool) returns (result: TxResult)
      requires gas <= initialGas == msg.gas && WellPosed(env, msg)
      requires gp.gas + msg.gas <= MAX_U64 || (msg.isDeposit && !env.rules.OptimismRegolith())
      modifies this, gp, state
      ensures Outcome(state.world, gp.gas, result)
        == Settle(env, msg, old(gp.gas), EvmResult(old(state.world), old(gas), old(state.refund), failed))
    {
      if msg.isDeposit && !env.rules.OptimismRegolith() {
        return Executed(if msg.isSystem then 0 else msg.gas, failed);
      }
      RefundGas(if env.rules.london then REFUND_QUOTIENT_EIP3529 else REFUND_QUOTIENT);
      if !msg.isDeposit {
        PayRecipients();
      }
      result := Executed(GasUsed(), failed);
    }

    method InnerTransitionDb() returns (result: TxResult)
      requires Honest(env) && gas == 0 && WellPosed(env, msg)
      modifies this, gp, state
      ensures Outcome(state.world, gp.gas, result) == Inner(env, msg, old(state.world), old(gp.gas))
    {
      var error := PreCheck();
      if error.Some? {
        return Rejected(error.value);
      }
      var intrinsic := IntrinsicGas(msg.data, msg.accessList, msg.to.None?,
                                    env.rules.homestead, env.rules.istanbul, env.rules.shanghai);
      if intrinsic.Overflow? {
        return Rejected(GasUintOverflow);
      }
      if gas < intrinsic.value {
        return Rejected(IntrinsicGasTooLow);
      }
      if msg.value > 0 && !CanTransfer(state.world, msg.from, msg.value) {
        return Rejected(InsufficientFundsForTransfer);
      }
      if env.rules.shanghai && msg.to.None? && |msg.data| > MAX_INIT_CODE_SIZE {
        return Rejected(MaxInitCodeSizeExceeded);
      }
      var failed := Execute();
      result := SettleUp(failed);
    }

    method TransitionDb() returns (result: TxResult)
      requires Honest(env) && gas == 0 && WellPosed(env, msg)
      modifies this, gp, state
      ensures Outcome(state.world, gp.gas, result) == Transition(env, msg, old(state.world), old(gp.gas))
    {
      if msg.mint.Some? {
        state.world := Credit(state.world, msg.from, msg.mint.value);
      }
      var snapshot := state.world;
      result := InnerTransitionDb();
      if result.Rejected? && result.error != GasLimitReached && msg.isDeposit {
        state.world := snapshot;
        state.world := BumpNonce(state.world, msg.from);
        var gasUsed := msg.gas;
        if msg.isSystem && !env.rules.regolith {
          gasUsed := 0;
        }
        result := Executed(gasUsed, true);
      }
    }
  }
}
