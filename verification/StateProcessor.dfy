/** Processing the transactions of a block one after the other on one gas pool. */
module StateProcessor {
  import opened Wrappers
  import opened Balances
  import opened Gas
  import opened StateTransition
  import opened TransitionLaws

  datatype Receipt = Receipt(cumulativeGasUsed: U64, gasUsed: U64, failed: bool, depositNonce: Option<U64>)

  // ---- A run of transactions: the outcome of each is the starting point of the next ----

  function PoolAt(gasLimit: U64, outs: seq<Outcome>, k: nat): U64
    requires k <= |outs|
  {
    if k == 0 then gasLimit else outs[k - 1].pool
  }

  function WorldAt(w: World, outs: seq<Outcome>, k: nat): World
    requires k <= |outs|
  {
    if k == 0 then w else outs[k - 1].world
  }

  /** What applying transaction `k` after the first `k` outcomes gives. */
  function OutcomeAt(env: Env, gasLimit: U64, w: World, msg: Message, outs: seq<Outcome>, k: nat): Outcome
    requires Honest(env) && k <= |outs|
  {
    Transition(env, msg, WorldAt(w, outs, k), PoolAt(gasLimit, outs, k))
  }

  ghost predicate Step(env: Env, gasLimit: U64, w: World, txs: seq<Option<Message>>, outs: seq<Outcome>, k: nat)
    requires Honest(env) && k < |outs| <= |txs|
  {
    && txs[k].Some? && outs[k].result.Executed?
    && outs[k] == OutcomeAt(env, gasLimit, w, txs[k].value, outs, k)
  }

  /** `outs` are the outcomes of the first transactions of the block, all applied. A transaction whose
      sender cannot be recovered is given as None. */
  ghost predicate Trace(env: Env, gasLimit: U64, w: World, txs: seq<Option<Message>>, outs: seq<Outcome>)
    requires Honest(env)
  {
    && |outs| <= |txs|
    && forall k {:trigger Step(env, gasLimit, w, txs, outs, k)} :: 0 <= k < |outs| ==> Step(env, gasLimit, w, txs, outs, k)
  }

  lemma TraceNext(env: Env, gasLimit: U64, w: World, txs: seq<Option<Message>>, outs: seq<Outcome>, out: Outcome)
    requires Honest(env) && Trace(env, gasLimit, w, txs, outs) && |outs| < |txs| && txs[|outs|].Some?
    requires out == OutcomeAt(env, gasLimit, w, txs[|outs|].value, outs, |outs|) && out.result.Executed?
    ensures Trace(env, gasLimit, w, txs, outs + [out])
  {
    var outs' := outs + [out];
    forall k | 0 <= k < |outs'| ensures Step(env, gasLimit, w, txs, outs', k) {
      if k < |outs| {
        assert Step(env, gasLimit, w, txs, outs, k);
      }
      assert WorldAt(w, outs', k) == WorldAt(w, outs, k) && PoolAt(gasLimit, outs', k) == PoolAt(gasLimit, outs, k);
    }
  }

  // ---- Receipts ----

  function SumGas(receipts: seq<Receipt>): nat {
    if receipts == [] then 0 else SumGas(receipts[..|receipts| - 1]) + receipts[|receipts| - 1].gasUsed
  }

  /** Each receipt's cumulative gas is the sum of the gas of the receipts up to it, on 64 bits. */
  ghost predicate PrefixSums(receipts: seq<Receipt>) {
    forall k {:trigger receipts[k]} :: 0 <= k < |receipts| ==>
      receipts[k].cumulativeGasUsed == Wrap(SumGas(receipts[..k + 1]))
  }

  lemma SumGasNext(receipts: seq<Receipt>, r: Receipt)
    ensures SumGas(receipts + [r]) == SumGas(receipts) + r.gasUsed
  {
    assert (receipts + [r])[..|receipts|] == receipts;
  }

  lemma PrefixSumsNext(receipts: seq<Receipt>, r: Receipt)
    requires PrefixSums(receipts) && r.cumulativeGasUsed == Wrap(SumGas(receipts + [r]))
    ensures PrefixSums(receipts + [r])
  {
    var rs := receipts + [r];
    assert rs[..|rs|] == rs;
    forall k | 0 <= k < |receipts| ensures rs[k].cumulativeGasUsed == Wrap(SumGas(rs[..k + 1])) {
      assert rs[..k + 1] == receipts[..k + 1];
      assert rs[k] == receipts[k];
    }
  }

  /** The receipts record the outcomes: gas, failure, and from Regolith on the nonce a deposit found. */
  ghost predicate Records(env: Env, w: World, txs: seq<Option<Message>>, outs: seq<Outcome>, receipts: seq<Receipt>) {
    && |receipts| == |outs| <= |txs|
    && forall k {:trigger receipts[k]} :: 0 <= k < |receipts| ==> RecordedAt(env, w, txs, outs, receipts, k)
  }

  ghost predicate RecordedAt(env: Env, w: World, txs: seq<Option<Message>>, outs: seq<Outcome>,
                             receipts: seq<Receipt>, k: nat)
    requires k < |receipts| == |outs| <= |txs|
  {
    && txs[k].Some? && outs[k].result == Executed(receipts[k].gasUsed, receipts[k].failed)
    && receipts[k].depositNonce == DepositNonce(env, txs[k].value, WorldAt(w, outs, k))
  }

  function DepositNonce(env: Env, msg: Message, before: World): Option<U64> {
    if msg.isDeposit && env.rules.OptimismRegolith() then Some(Nonce(before, msg.from)) else None
  }

  lemma RecordsNext(env: Env, w: World, txs: seq<Option<Message>>, outs: seq<Outcome>, receipts: seq<Receipt>,
                    out: Outcome, r: Receipt)
    requires Records(env, w, txs, outs, receipts) && |outs| < |txs| && txs[|outs|].Some?
    requires out.result == Executed(r.gasUsed, r.failed)
    requires r.depositNonce == DepositNonce(env, txs[|outs|].value, WorldAt(w, outs, |outs|))
    ensures Records(env, w, txs, outs + [out], receipts + [r])
  {
    var outs', receipts' := outs + [out], receipts + [r];
    forall k | 0 <= k < |receipts'| ensures RecordedAt(env, w, txs, outs', receipts', k) {
      assert k < |receipts| ==> receipts'[k] == receipts[k];
      assert WorldAt(w, outs', k) == WorldAt(w, outs, k);
    }
  }

  /** The receipts record the outcomes and add up to the gas counter. */
  ghost predicate Booked(env: Env, w: World, txs: seq<Option<Message>>, outs: seq<Outcome>, receipts: seq<Receipt>,
                         usedGas: U64) {
    Records(env, w, txs, outs, receipts) && PrefixSums(receipts) && usedGas == Wrap(SumGas(receipts))
  }

  lemma BookedNext(env: Env, w: World, txs: seq<Option<Message>>, outs: seq<Outcome>, receipts: seq<Receipt>, usedGas: U64,
                   out: Outcome, r: Receipt)
    requires Booked(env, w, txs, outs, receipts, usedGas) && |outs| < |txs| && txs[|outs|].Some?
    requires out.result == Executed(r.gasUsed, r.failed) && r.cumulativeGasUsed == Wrap(usedGas + r.gasUsed)
    requires r.depositNonce == DepositNonce(env, txs[|outs|].value, WorldAt(w, outs, |outs|))
    ensures Booked(env, w, txs, outs + [out], receipts + [r], r.cumulativeGasUsed)
  {
    RecordsNext(env, w, txs, outs, receipts, out, r);
    SumGasNext(receipts, r);
    WrapMore(SumGas(receipts), r.gasUsed);
    PrefixSumsNext(receipts, r);
  }

  // ---- The transaction loop ----

  method ApplyTransaction(env: Env, msg: Message, gp: GasPool, state: StateDB, usedGas: U64)
    returns (receipt: Option<Receipt>, ghost out: Outcome)
    requires Honest(env) && WellPosed(env, msg)
    modifies gp, state
    ensures out == Transition(env, msg, old(state.world), old(gp.gas))
    ensures state.world == out.world && gp.gas == out.pool
    ensures receipt.Some? <==> out.result.Executed?
    ensures receipt.Some? ==> out.result == Executed(receipt.value.gasUsed, receipt.value.failed)
    ensures receipt.Some? ==> receipt.value.cumulativeGasUsed == Wrap(usedGas + receipt.value.gasUsed)
    ensures receipt.Some? ==> receipt.value.depositNonce == DepositNonce(env, msg, old(state.world))
  {
    var nonce := None;
    if msg.isDeposit && env.rules.OptimismRegolith() {
      nonce := Some(Nonce(state.world, msg.from));
    }
    var st := new StateTransition(env, msg, gp, state);
    var result := st.TransitionDb();
    out := Outcome(state.world, gp.gas, result);
    if result.Rejected? {
      return None, out;
    }
    receipt := Some(Receipt(Wrap(usedGas + result.usedGas), result.usedGas, result.failed, nonce));
  }

  /** Process a block: `outs` traces what was applied. Fails on the first transaction that cannot be
      applied, or at the end on withdrawals before Shanghai. */
  method Process(env: Env, gasLimit: U64, state: StateDB, txs: seq<Option<Message>>, withdrawals: nat)
    returns (ok: bool, receipts: seq<Receipt>, usedGas: U64, ghost outs: seq<Outcome>)
    requires Honest(env) && forall i :: 0 <= i < |txs| && txs[i].Some? ==> WellPosed(env, txs[i].value)
    modifies state
    ensures Trace(env, gasLimit, old(state.world), txs, outs)
    ensures Booked(env, old(state.world), txs, outs, receipts, usedGas)
    ensures ok <==> |outs| == |txs| && (withdrawals == 0 || env.rules.shanghai)
    ensures ok ==> state.world == WorldAt(old(state.world), outs, |outs|)
    ensures |outs| < |txs| && txs[|outs|].Some? ==>
      OutcomeAt(env, gasLimit, old(state.world), txs[|outs|].value, outs, |outs|).result.Rejected?
  {
    var gp := new GasPool(gasLimit);
    ghost var w := state.world;
    ok, receipts, usedGas, outs := false, [], 0, [];
    for i := 0 to |txs|
      invariant fresh(gp) && |outs| == i
      invariant state.world == WorldAt(w, outs, i) && gp.gas == PoolAt(gasLimit, outs, i)
      invariant Trace(env, gasLimit, w, txs, outs) && Booked(env, w, txs, outs, receipts, usedGas)
    {
      if txs[i].None? {
        return;
      }
      var receipt, out := ApplyTransaction(env, txs[i].value, gp, state, usedGas);
      if receipt.None? {
        return;
      }
      TraceNext(env, gasLimit, w, txs, outs, out);
      BookedNext(env, w, txs, outs, receipts, usedGas, out, receipt.value);
      usedGas, receipts, outs := receipt.value.cumulativeGasUsed, receipts + [receipt.value], outs + [out];
    }
    ok := withdrawals == 0 || env.rules.shanghai;
  }

  // ---- Gas over a block ----

  /** Gas that transaction `k` recorded without taking it from the pool. */
  ghost function ExcessAt(env: Env, w: World, txs: seq<Option<Message>>, outs: seq<Outcome>, k: nat): nat
    requires k <= |outs| && k < |txs|
  {
    if txs[k].Some? && Unmetered(env, txs[k].value, WorldAt(w, outs, k)) then txs[k].value.gas else 0
  }

  ghost function Excess(env: Env, w: World, txs: seq<Option<Message>>, outs: seq<Outcome>, k: nat): nat
    requires k <= |outs| <= |txs|
  {
    if k == 0 then 0 else Excess(env, w, txs, outs, k - 1) + ExcessAt(env, w, txs, outs, k - 1)
  }

  lemma StepGas(env: Env, gasLimit: U64, w: World, txs: seq<Option<Message>>, outs: seq<Outcome>, k: nat)
    requires Honest(env) && Trace(env, gasLimit, w, txs, outs) && k < |outs|
    ensures outs[k].result.Executed?
    ensures PoolAt(gasLimit, outs, k + 1) + outs[k].result.usedGas
      == PoolAt(gasLimit, outs, k) + ExcessAt(env, w, txs, outs, k)
  {
    assert Step(env, gasLimit, w, txs, outs, k);
    GasLaw(env, txs[k].value, WorldAt(w, outs, k), PoolAt(gasLimit, outs, k));
  }

  /** After every transaction the gas left in the block and the gas recorded as used make up the block
      gas limit plus what unmetered system deposits recorded. */
  lemma {:induction false} BlockGas(env: Env, gasLimit: U64, w: World, txs: seq<Option<Message>>, outs: seq<Outcome>,
                                    receipts: seq<Receipt>, k: nat)
    requires Honest(env) && Trace(env, gasLimit, w, txs, outs) && Records(env, w, txs, outs, receipts) && k <= |outs|
    ensures PoolAt(gasLimit, outs, k) + SumGas(receipts[..k]) == gasLimit + Excess(env, w, txs, outs, k)
    decreases k
  {
    if k > 0 {
      BlockGas(env, gasLimit, w, txs, outs, receipts, k - 1);
      StepGas(env, gasLimit, w, txs, outs, k - 1);
      SumGasNext(receipts[..k - 1], receipts[k - 1]);
      assert receipts[..k] == receipts[..k - 1] + [receipts[k - 1]];
      assert RecordedAt(env, w, txs, outs, receipts, k - 1);
    }
  }

  /** A system deposit with gas. */
  predicate SystemGas(tx: Option<Message>) {
    tx.Some? && tx.value.isDeposit && tx.value.isSystem && tx.value.gas > 0
  }

  /** Nothing can go unmetered: Regolith is not active, or none of the first `k` transactions is a system
      deposit with gas. */
  predicate AllMetered(env: Env, txs: seq<Option<Message>>, k: nat)
    requires k <= |txs|
  {
    !env.rules.regolith || forall i :: 0 <= i < k ==> !SystemGas(txs[i])
  }

  /** The transactions alone decide, on an Optimism chain, whether something goes unmetered. */
  lemma {:induction false} NoExcess(env: Env, w: World, txs: seq<Option<Message>>, outs: seq<Outcome>, k: nat)
    requires k <= |outs| <= |txs|
    ensures AllMetered(env, txs, k) ==> Excess(env, w, txs, outs, k) == 0
    ensures env.rules.optimism && Excess(env, w, txs, outs, k) == 0 ==> AllMetered(env, txs, k)
    decreases k
  {
    if k > 0 {
      NoExcess(env, w, txs, outs, k - 1);
    }
  }

  /** The pool and the recorded gas make up the block gas limit just when no unmetered system deposit
      was applied, which on an Optimism chain the transactions alone decide; then no gas counter wraps. */
  lemma BlockGasConserved(env: Env, gasLimit: U64, w: World, txs: seq<Option<Message>>, outs: seq<Outcome>,
                          receipts: seq<Receipt>, k: nat)
    requires Honest(env) && Trace(env, gasLimit, w, txs, outs) && Records(env, w, txs, outs, receipts)
    requires PrefixSums(receipts) && 0 < k <= |outs|
    ensures PoolAt(gasLimit, outs, k) + SumGas(receipts[..k]) == gasLimit <==> Excess(env, w, txs, outs, k) == 0
    ensures env.rules.optimism ==>
      (PoolAt(gasLimit, outs, k) + SumGas(receipts[..k]) == gasLimit <==> AllMetered(env, txs, k))
    ensures Excess(env, w, txs, outs, k) == 0 ==> PoolAt(gasLimit, outs, k) + receipts[k - 1].cumulativeGasUsed == gasLimit
  {
    BlockGas(env, gasLimit, w, txs, outs, receipts, k);
    NoExcess(env, w, txs, outs, k);
    assert receipts[k - 1].cumulativeGasUsed == Wrap(SumGas(receipts[..k]));
  }

  // ---- Money over a block ----

  /** What transaction `k` adds to the sum of all balances by its mint and in the EVM. */
  ghost function OwnAt(env: Env, gasLimit: U64, w: World, txs: seq<Option<Message>>, outs: seq<Outcome>, k: nat): int
    requires k < |outs| <= |txs|
  {
    if txs[k].None? then 0
    else Amount(txs[k].value.mint) + EvmDelta(env, txs[k].value, WorldAt(w, outs, k), PoolAt(gasLimit, outs, k))
  }

  /** What its fees add. */
  ghost function FeesAt(env: Env, txs: seq<Option<Message>>, outs: seq<Outcome>, k: nat): int
    requires k < |outs| <= |txs|
  {
    if txs[k].None? || txs[k].value.isDeposit || outs[k].result.Rejected? then 0
    else FeeSurplus(env, txs[k].value, outs[k].result.usedGas)
  }

  ghost function Own(env: Env, gasLimit: U64, w: World, txs: seq<Option<Message>>, outs: seq<Outcome>, k: nat): int
    requires k <= |outs| <= |txs|
  {
    if k == 0 then 0 else Own(env, gasLimit, w, txs, outs, k - 1) + OwnAt(env, gasLimit, w, txs, outs, k - 1)
  }

  ghost function Fees(env: Env, txs: seq<Option<Message>>, outs: seq<Outcome>, k: nat): int
    requires k <= |outs| <= |txs|
  {
    if k == 0 then 0 else Fees(env, txs, outs, k - 1) + FeesAt(env, txs, outs, k - 1)
  }

  /** Deposits pay nothing for gas. */
  predicate DepositsFree(txs: seq<Option<Message>>) {
    forall i :: 0 <= i < |txs| && txs[i].Some? && txs[i].value.isDeposit ==> txs[i].value.gasPrice == 0
  }

  lemma StepMoney(env: Env, gasLimit: U64, w: World, txs: seq<Option<Message>>, outs: seq<Outcome>, k: nat)
    requires Honest(env) && Trace(env, gasLimit, w, txs, outs) && DepositsFree(txs) && k < |outs|
    ensures Total(outs[k].world.balances) == Total(WorldAt(w, outs, k).balances)
      + OwnAt(env, gasLimit, w, txs, outs, k) + FeesAt(env, txs, outs, k)
  {
    assert Step(env, gasLimit, w, txs, outs, k);
    var msg, before, pool := txs[k].value, WorldAt(w, outs, k), PoolAt(gasLimit, outs, k);
    if msg.isDeposit {
      DepositBalances(env, msg, before, pool);
    } else {
      RejectedLeaves(env, msg, before, pool);
      BalanceLaw(env, msg, before, pool);
    }
  }

  /** After every transaction the sum of all balances has changed by the mints, by what the EVM did and by the
      fee surpluses of the ordinary messages. */
  lemma {:induction false} BlockMoney(env: Env, gasLimit: U64, w: World, txs: seq<Option<Message>>, outs: seq<Outcome>,
                                      k: nat)
    requires Honest(env) && Trace(env, gasLimit, w, txs, outs) && DepositsFree(txs) && k <= |outs|
    ensures Total(WorldAt(w, outs, k).balances)
      == Total(w.balances) + Own(env, gasLimit, w, txs, outs, k) + Fees(env, txs, outs, k)
    decreases k
  {
    if k > 0 {
      BlockMoney(env, gasLimit, w, txs, outs, k - 1);
      StepMoney(env, gasLimit, w, txs, outs, k - 1);
    }
  }

  /** Ordinary transactions are real and pay base fee plus tip. */
  predicate PaidInFull(env: Env, txs: seq<Option<Message>>) {
    forall i :: 0 <= i < |txs| && txs[i].Some? && !txs[i].value.isDeposit ==> FullPrice(env, txs[i].value)
  }

  predicate FullPrice(env: Env, msg: Message) {
    !msg.isFake && !FeesSkipped(env, msg) && msg.gasPrice == env.baseFee + Tip(env, msg)
  }

  lemma NoSurplus(env: Env, msg: Message, used: nat)
    requires FullPrice(env, msg) && env.rules.OptimismBedrock() && env.oracleAtBuy == env.oracleAtPay
    ensures FeeSurplus(env, msg, used) == 0
  {
    SurplusOf(env, msg, used);
  }

  /** A Bedrock block makes and burns no money: with one set of L1 prices the fees add nothing. */
  lemma {:induction false} BlockConserves(env: Env, gasLimit: U64, w: World, txs: seq<Option<Message>>, outs: seq<Outcome>,
                                          k: nat)
    requires Honest(env) && Trace(env, gasLimit, w, txs, outs) && DepositsFree(txs) && PaidInFull(env, txs)
    requires env.rules.OptimismBedrock() && env.oracleAtBuy == env.oracleAtPay && k <= |outs|
    ensures Fees(env, txs, outs, k) == 0
    ensures Total(WorldAt(w, outs, k).balances) == Total(w.balances) + Own(env, gasLimit, w, txs, outs, k)
    decreases k
  {
    BlockMoney(env, gasLimit, w, txs, outs, k);
    if k > 0 {
      BlockConserves(env, gasLimit, w, txs, outs, k - 1);
      if txs[k - 1].Some? && !txs[k - 1].value.isDeposit && outs[k - 1].result.Executed? {
        NoSurplus(env, txs[k - 1].value, outs[k - 1].result.usedGas);
      }
    }
  }
}
