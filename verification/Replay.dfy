/** Nonces over a block: no transaction is applied twice. */
module Replay {
  import opened Wrappers
  import opened Balances
  import opened Gas
  import opened RollupCost
  import opened StateTransition
  import opened TransitionLaws
  import opened TransitionRules
  import opened StateProcessor

  /** Transaction `k` makes the nonce of `a` wrap around. */
  ghost predicate WrapsAt(w: World, txs: seq<Option<Message>>, outs: seq<Outcome>, k: nat, a: Address)
    requires k <= |outs| && k < |txs|
  {
    txs[k].Some? && txs[k].value.from == a && Wraps(txs[k].value, WorldAt(w, outs, k))
  }

  lemma StepNonce(env: Env, gasLimit: U64, w: World, txs: seq<Option<Message>>, outs: seq<Outcome>, k: nat, a: Address)
    requires Honest(env) && NoncesGrow(env) && Trace(env, gasLimit, w, txs, outs) && k < |outs|
    ensures txs[k].Some?
    ensures !WrapsAt(w, txs, outs, k, a) ==> Nonce(WorldAt(w, outs, k + 1), a) >= Nonce(WorldAt(w, outs, k), a)
    ensures var msg := txs[k].value;
      !msg.isDeposit && !msg.isFake ==>
        Nonce(WorldAt(w, outs, k), msg.from) == msg.nonce < Nonce(WorldAt(w, outs, k + 1), msg.from)
  {
    assert Step(env, gasLimit, w, txs, outs, k);
    NoncesRise(env, txs[k].value, WorldAt(w, outs, k), PoolAt(gasLimit, outs, k), a);
  }

  /** As long as nothing wraps it around, the nonce of an account does not fall. */
  lemma {:induction false} NonceMonotone(env: Env, gasLimit: U64, w: World, txs: seq<Option<Message>>, outs: seq<Outcome>,
                                         i: nat, j: nat, a: Address)
    requires Honest(env) && NoncesGrow(env) && Trace(env, gasLimit, w, txs, outs) && i <= j <= |outs|
    requires forall k {:trigger WrapsAt(w, txs, outs, k, a)} :: i <= k < j ==> !WrapsAt(w, txs, outs, k, a)
    ensures Nonce(WorldAt(w, outs, i), a) <= Nonce(WorldAt(w, outs, j), a)
    decreases j - i
  {
    if i < j {
      NonceMonotone(env, gasLimit, w, txs, outs, i, j - 1, a);
      assert !WrapsAt(w, txs, outs, j - 1, a);
      StepNonce(env, gasLimit, w, txs, outs, j - 1, a);
    }
  }

  /** In a block the real ordinary messages of one sender are applied in the order of their nonces, each nonce once,
      as long as no deposit in between wraps the nonce of that sender around. */
  lemma NoReplay(env: Env, gasLimit: U64, w: World, txs: seq<Option<Message>>, outs: seq<Outcome>, i: nat, j: nat)
    requires Honest(env) && NoncesGrow(env) && Trace(env, gasLimit, w, txs, outs) && i < j < |outs|
    requires txs[i].Some? && txs[j].Some? && txs[i].value.from == txs[j].value.from
    requires !txs[i].value.isDeposit && !txs[i].value.isFake && !txs[j].value.isDeposit && !txs[j].value.isFake
    requires forall k {:trigger WrapsAt(w, txs, outs, k, txs[i].value.from)} ::
      i < k < j ==> !WrapsAt(w, txs, outs, k, txs[i].value.from)
    ensures txs[i].value.nonce < txs[j].value.nonce
  {
    var a := txs[i].value.from;
    StepNonce(env, gasLimit, w, txs, outs, i, a);
    NonceMonotone(env, gasLimit, w, txs, outs, i + 1, j, a);
    StepNonce(env, gasLimit, w, txs, outs, j, a);
  }

  /** A receipt that carries a deposit nonce carries the nonce the deposit used: one below the sender's afterwards, when
      the EVM leaves nonces alone or the deposit could not run. */
  lemma DepositNonceUsed(env: Env, gasLimit: U64, w: World, txs: seq<Option<Message>>, outs: seq<Outcome>,
                         receipts: seq<Receipt>, k: nat)
    requires Honest(env) && Trace(env, gasLimit, w, txs, outs) && Records(env, w, txs, outs, receipts) && k < |outs|
    requires txs[k].Some? && Ran(env, txs[k].value, WorldAt(w, outs, k), PoolAt(gasLimit, outs, k)) ==>
      txs[k].value.to.Some? && forall m, v, gas: U64 :: env.evm(m, v, gas).world.nonces == v.nonces
    ensures txs[k].Some? &&
      (receipts[k].depositNonce.Some? <==> txs[k].value.isDeposit && env.rules.optimism && env.rules.regolith)
    ensures receipts[k].depositNonce.Some? ==>
      Nonce(outs[k].world, txs[k].value.from) == NextNonce(receipts[k].depositNonce.value)
  {
    assert Step(env, gasLimit, w, txs, outs, k) && RecordedAt(env, w, txs, outs, receipts, k);
    OneNonce(env, txs[k].value, WorldAt(w, outs, k), PoolAt(gasLimit, outs, k), txs[k].value.from);
  }

  // ---- A wrapped nonce lets a transaction in again ----

  /** An EVM in which a message uses up all the nonces of its sender. */
  function Exhaust(msg: Message, w: World, gas: U64): EvmResult {
    EvmResult(w.(nonces := w.nonces[msg.from := MAX_U64]), gas, 0, false)
  }

  lemma ExhaustHonest()
    ensures Honest(BedrockEnv(false, Exhaust)) && NoncesGrow(BedrockEnv(false, Exhaust))
  {
  }

  /** A deposit by the same sender with too little gas to run. */
  function EmptyDeposit(): Message {
    PlainCall(false).(gas := 0, gasPrice := 0, isDeposit := true)
  }

  lemma CallApplied(w: World, pool: U64)
    requires Balance(w.balances, 5) >= 30000 && 5 !in w.code && Nonce(w, 5) == 0 && pool >= 21000
    requires Honest(BedrockEnv(false, Exhaust))
    ensures var out := Transition(BedrockEnv(false, Exhaust), PlainCall(false), w, pool);
      && out.result.Executed? && out.pool >= pool - 21000 && Nonce(out.world, 5) == MAX_U64 && out.world.code == w.code
      && Balance(out.world.balances, 5) >= Balance(w.balances, 5) - 30000
  {
    var env, msg := BedrockEnv(false, Exhaust), PlainCall(false);
    PriceOfNothing(false, true, true, false);
    DataGasCounts(NO_ROLLUP_GAS, false);
    assert DataCost(env, msg) == 1088;
    AppliedIff(env, msg, w, pool);
    RejectedLeaves(env, msg, w, pool);
    RanNonces(env, msg, w, pool);
    GasLaw(env, msg, w, pool);
    var r, left := OrdinaryOutcome(env, msg, w, pool);
    AccountLedger(env, msg, w, pool, 5);
  }

  lemma DepositApplied(w: World, pool: U64)
    requires Nonce(w, 5) == MAX_U64 && Honest(BedrockEnv(false, Exhaust))
    ensures var out := Transition(BedrockEnv(false, Exhaust), EmptyDeposit(), w, pool);
      && out.result.Executed? && out.pool == pool && Nonce(out.world, 5) == 0 && out.world.code == w.code
      && Balance(out.world.balances, 5) == Balance(w.balances, 5)
  {
    var env, msg := BedrockEnv(false, Exhaust), EmptyDeposit();
    PriceOfNothing(false, true, true, false);
    DepositRuns(env, msg, w, pool);
    DepositFailed(env, msg, w, pool, 5);
  }

  lemma ThreeSteps(env: Env, gasLimit: U64, w: World, txs: seq<Option<Message>>, outs: seq<Outcome>)
    requires Honest(env) && |txs| == |outs| == 3
    requires forall k :: 0 <= k < 3 ==> txs[k].Some? && outs[k].result.Executed?
    requires outs[0] == Transition(env, txs[0].value, w, gasLimit)
    requires outs[1] == Transition(env, txs[1].value, outs[0].world, outs[0].pool)
    requires outs[2] == Transition(env, txs[2].value, outs[1].world, outs[1].pool)
    ensures Trace(env, gasLimit, w, txs, outs)
  {
    forall k | 0 <= k < 3 ensures Step(env, gasLimit, w, txs, outs, k) {
      assert k == 0 || k == 1 || k == 2;
    }
  }

  /** Account 5 holds no code and its next nonce is `nonce`. */
  predicate Ready(w: World, nonce: U64) {
    5 !in w.code && Nonce(w, 5) == nonce
  }

  /** Where the call is applied, at a cost of at most 30000, it uses up the nonces of account 5. */
  ghost predicate CallUsesAll(env: Env, call: Message)
    requires Honest(env)
  {
    forall w, pool: U64 :: Ready(w, 0) && Balance(w.balances, 5) >= 30000 && pool >= 21000 ==>
      var out := Transition(env, call, w, pool);
      && out.result.Executed? && out.pool >= pool - 21000 && Ready(out.world, MAX_U64)
      && Balance(out.world.balances, 5) >= Balance(w.balances, 5) - 30000
  }

  /** The deposit wraps them around, at no cost. */
  ghost predicate DepositWraps(env: Env, deposit: Message)
    requires Honest(env)
  {
    forall w, pool: U64 :: Ready(w, MAX_U64) ==>
      var out := Transition(env, deposit, w, pool);
      && out.result.Executed? && out.pool == pool && Ready(out.world, 0)
      && Balance(out.world.balances, 5) == Balance(w.balances, 5)
  }

  lemma ReplayWith(env: Env, call: Message, deposit: Message, w: World) returns (outs: seq<Outcome>)
    requires Honest(env) && CallUsesAll(env, call) && DepositWraps(env, deposit)
    requires Ready(w, 0) && Balance(w.balances, 5) >= 60000
    ensures |outs| == 3 && Trace(env, 60000, w, [Some(call), Some(deposit), Some(call)], outs)
    ensures Ready(outs[0].world, MAX_U64)
  {
    var first := Transition(env, call, w, 60000);
    var second := Transition(env, deposit, first.world, first.pool);
    var third := Transition(env, call, second.world, second.pool);
    outs := [first, second, third];
    ThreeSteps(env, 60000, w, [Some(call), Some(deposit), Some(call)], outs);
  }

  lemma CallsUseAll()
    requires Honest(BedrockEnv(false, Exhaust))
    ensures CallUsesAll(BedrockEnv(false, Exhaust), PlainCall(false))
  {
    forall w, pool: U64 | Ready(w, 0) && Balance(w.balances, 5) >= 30000 && pool >= 21000
      ensures var out := Transition(BedrockEnv(false, Exhaust), PlainCall(false), w, pool);
        && out.result.Executed? && out.pool >= pool - 21000 && Ready(out.world, MAX_U64)
        && Balance(out.world.balances, 5) >= Balance(w.balances, 5) - 30000
    {
      CallApplied(w, pool);
    }
  }

  lemma DepositsWrap()
    requires Honest(BedrockEnv(false, Exhaust))
    ensures DepositWraps(BedrockEnv(false, Exhaust), EmptyDeposit())
  {
    forall w, pool: U64 | Ready(w, MAX_U64)
      ensures var out := Transition(BedrockEnv(false, Exhaust), EmptyDeposit(), w, pool);
        && out.result.Executed? && out.pool == pool && Ready(out.world, 0)
        && Balance(out.world.balances, 5) == Balance(w.balances, 5)
    {
      DepositApplied(w, pool);
    }
  }

  /** A block in which one transaction is applied twice: in between, a deposit wraps the nonce of the sender around. */
  lemma ReplayAfterWrap() returns (env: Env, w: World, txs: seq<Option<Message>>, outs: seq<Outcome>)
    ensures Honest(env) && NoncesGrow(env) && Trace(env, 60000, w, txs, outs) && |outs| == |txs| == 3
    ensures txs[0] == txs[2] && txs[0].Some? && !txs[0].value.isDeposit && !txs[0].value.isFake
    ensures WrapsAt(w, txs, outs, 1, txs[0].value.from)
  {
    ExhaustHonest();
    env, w := BedrockEnv(false, Exhaust), World(map[5 := 60000], map[], {});
    txs := [Some(PlainCall(false)), Some(EmptyDeposit()), Some(PlainCall(false))];
    CallsUseAll();
    DepositsWrap();
    outs := ReplayWith(env, PlainCall(false), EmptyDeposit(), w);
  }
}
