/** Accounts: balances, nonces and which accounts hold code. */
module Balances {

  type Address = nat
  const MAX_U64 := 0xFFFF_FFFF_FFFF_FFFF
  type U64 = n: int | 0 <= n <= MAX_U64

  type BalanceMap = map<Address, int>

  datatype World = World(balances: BalanceMap, nonces: map<Address, U64>, code: set<Address>)

  function Balance(m: BalanceMap, a: Address): int {
    if a in m then m[a] else 0
  }

  function Nonce(w: World, a: Address): U64 {
    if a in w.nonces then w.nonces[a] else 0
  }

  function Credit(w: World, a: Address, amount: int): World {
    w.(balances := w.balances[a := Balance(w.balances, a) + amount])
  }

  /** The nonce counter is a 64-bit word. */
  function BumpNonce(w: World, a: Address): World {
    w.(nonces := w.nonces[a := if Nonce(w, a) == MAX_U64 then 0 else Nonce(w, a) + 1])
  }

  /** The sum of all balances. */
  ghost function Total(m: BalanceMap): int {
    if m == map[] then 0 else var a :| a in m; m[a] + Total(m - {a})
  }

  lemma {:induction false} TotalWithout(m: BalanceMap, a: Address)
    requires a in m
    ensures Total(m) == m[a] + Total(m - {a})
    decreases |m|
  {
    var b :| b in m && Total(m) == m[b] + Total(m - {b});
    if b != a {
      TotalWithout(m - {b}, a);
      TotalWithout(m - {a}, b);
      assert m - {b} - {a} == m - {a} - {b};
    }
  }

  /** Changing one balance changes the sum by as much. */
  lemma TotalSet(m: BalanceMap, a: Address, v: int)
    ensures Total(m[a := v]) == Total(m) - Balance(m, a) + v
  {
    TotalWithout(m[a := v], a);
    assert m[a := v] - {a} == m - {a};
    if a in m {
      TotalWithout(m, a);
    } else {
      assert m - {a} == m;
    }
  }

  lemma CreditTotal(w: World, a: Address, amount: int)
    ensures Total(Credit(w, a, amount).balances) == Total(w.balances) + amount
  {
    TotalSet(w.balances, a, Balance(w.balances, a) + amount);
  }

  ghost predicate Solvent(w: World) {
    forall a :: a in w.balances ==> w.balances[a] >= 0
  }

  predicate CanTransfer(w: World, a: Address, amount: nat) {
    Balance(w.balances, a) >= amount
  }

  /** A value transfer moves money and makes none, also between equal accounts. */
  function Transfer(w: World, sender: Address, recipient: Address, amount: nat): World {
    Credit(Credit(w, sender, 0 - amount), recipient, amount)
  }

  lemma TransferConserves(w: World, sender: Address, recipient: Address, amount: nat)
    ensures Total(Transfer(w, sender, recipient, amount).balances) == Total(w.balances)
    ensures sender == recipient ==>
      Balance(Transfer(w, sender, recipient, amount).balances, sender) == Balance(w.balances, sender)
    ensures sender != recipient ==>
      && Balance(Transfer(w, sender, recipient, amount).balances, sender) == Balance(w.balances, sender) - amount
      && Balance(Transfer(w, sender, recipient, amount).balances, recipient) == Balance(w.balances, recipient) + amount
      && (CanTransfer(w, sender, amount) <==> Balance(Transfer(w, sender, recipient, amount).balances, sender) >= 0)
    ensures Solvent(w) && CanTransfer(w, sender, amount) ==> Solvent(Transfer(w, sender, recipient, amount))
  {
    CreditTotal(w, sender, 0 - amount);
    CreditTotal(Credit(w, sender, 0 - amount), recipient, amount);
  }
}
