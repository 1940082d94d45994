/** The block gas pool and the intrinsic gas of a transaction (EIP-2028, EIP-2930, EIP-3860). */
module Gas {
  import opened Balances

  const TX_GAS := 21000
  const TX_GAS_CONTRACT_CREATION := 53000
  const TX_DATA_ZERO_GAS := 4
  const TX_DATA_NON_ZERO_GAS_FRONTIER := 68
  const TX_DATA_NON_ZERO_GAS_EIP2028 := 16
  const INIT_CODE_WORD_GAS := 2
  const TX_ACCESS_LIST_ADDRESS_GAS := 2400
  const TX_ACCESS_LIST_STORAGE_KEY_GAS := 1900

  /** Gas left in a block. */
  class GasPool {
    var gas: U64

    constructor (amount: U64)
      ensures gas == amount
    {
      gas := amount;
    }

    /** Return gas to the pool. The original panics when the sum exceeds 64 bits; callers here prove
        that it does not. */
    method AddGas(amount: U64)
      requires gas + amount <= MAX_U64
      modifies this
      ensures gas == old(gas) + amount
    {
      gas := gas + amount;
    }

    method SubGas(amount: U64) returns (ok: bool)
      modifies this
      ensures ok <==> amount <= old(gas)
      ensures gas == if ok then old(gas) - amount else old(gas)
    {
      if gas < amount {
        return false;
      }
      gas := gas - amount;
      ok := true;
    }
  }

  // ---- Intrinsic gas ----

  datatype Result = Overflow | Gas(value: U64)

  /** 64-bit wrap-around. */
  function Wrap(n: nat): U64 {
    n % (MAX_U64 + 1)
  }

  function NonZeroBytes(data: seq<bv8>): (n: nat)
    ensures n <= |data|
  {
    if data == [] then 0 else NonZeroBytes(data[..|data| - 1]) + if data[|data| - 1] != 0 then 1 else 0
  }

  /** Storage keys of an access list, whose entries are given by their number of keys. */
  function StorageKeys(accessList: seq<nat>): nat {
    if accessList == [] then 0 else StorageKeys(accessList[..|accessList| - 1]) + accessList[|accessList| - 1]
  }

  /** The price of the data part over the integers. */
  function DataGas(data: seq<bv8>, creation: bool, homestead: bool, eip2028: bool, eip3860: bool): nat {
    var nz := NonZeroBytes(data);
    (if creation && homestead then TX_GAS_CONTRACT_CREATION else TX_GAS)
    + (if eip2028 then nz * TX_DATA_NON_ZERO_GAS_EIP2028 else nz * TX_DATA_NON_ZERO_GAS_FRONTIER)
    + (|data| - nz) * TX_DATA_ZERO_GAS
    + (if creation && eip3860 then (|data| + 31) / 32 * INIT_CODE_WORD_GAS else 0)
  }

  function AddressGas(accessList: seq<nat>): nat {
    |accessList| * TX_ACCESS_LIST_ADDRESS_GAS
  }

  function KeyGas(accessList: seq<nat>): nat {
    StorageKeys(accessList) * TX_ACCESS_LIST_STORAGE_KEY_GAS
  }

  function AccessGas(accessList: seq<nat>): nat {
    AddressGas(accessList) + KeyGas(accessList)
  }

  /** Intrinsic gas. The data part is checked against 64 bits; the access list is added on top without
      a check and wraps around, so the price is exact just when the sum fits. */
  function IntrinsicGasOf(data: seq<bv8>, accessList: seq<nat>, creation: bool, homestead: bool,
                          eip2028: bool, eip3860: bool): (r: Result)
  {
    var dataGas := DataGas(data, creation, homestead, eip2028, eip3860);
    if dataGas > MAX_U64 then Overflow else Gas(Wrap(dataGas + AccessGas(accessList)))
  }

  lemma IntrinsicGasExact(data: seq<bv8>, accessList: seq<nat>, creation: bool, homestead: bool,
                          eip2028: bool, eip3860: bool)
    ensures var r := IntrinsicGasOf(data, accessList, creation, homestead, eip2028, eip3860);
      var exact := DataGas(data, creation, homestead, eip2028, eip3860) + AccessGas(accessList);
      r.Gas? && r.value == exact <==> exact <= MAX_U64
  {
  }

  // ---- What the price means: a base, so much for each byte, and so much for each access-list entry ----

  /** A transaction without data and access list. */
  lemma PriceOfNothing(creation: bool, homestead: bool, eip2028: bool, eip3860: bool)
    ensures IntrinsicGasOf([], [], creation, homestead, eip2028, eip3860)
         == Gas(if creation && homestead then 53000 else 21000)
  {
    assert AccessGas([]) == 0;
  }

  /** What one more byte adds: 4 if it is zero, otherwise 16 under EIP-2028 and 68 before, and under EIP-3860 in a
      creation 2 more for each word begun. */
  function BytePrice(length: nat, b: bv8, creation: bool, eip2028: bool, eip3860: bool): nat {
    (if b == 0 then 4 else if eip2028 then 16 else 68) + (if creation && eip3860 && length % 32 == 0 then 2 else 0)
  }

  lemma WordsBegun(n: nat)
    ensures (n + 1 + 31) / 32 == (n + 31) / 32 + if n % 32 == 0 then 1 else 0
  {
  }

  lemma DataGasOfByte(data: seq<bv8>, b: bv8, creation: bool, homestead: bool, eip2028: bool, eip3860: bool)
    ensures DataGas(data + [b], creation, homestead, eip2028, eip3860)
         == DataGas(data, creation, homestead, eip2028, eip3860) + BytePrice(|data|, b, creation, eip2028, eip3860)
  {
    assert (data + [b])[..|data|] == data;
    WordsBegun(|data|);
  }

  lemma PriceOfData(data: seq<bv8>, creation: bool, homestead: bool, eip2028: bool, eip3860: bool)
    ensures var price := DataGas(data, creation, homestead, eip2028, eip3860);
      IntrinsicGasOf(data, [], creation, homestead, eip2028, eip3860) == if price <= MAX_U64 then Gas(price) else Overflow
  {
    assert AccessGas([]) == 0;
  }

  /** One more byte adds its price, or makes the data part exceed 64 bits; a part that does stays too large. */
  lemma PriceOfByte(data: seq<bv8>, b: bv8, creation: bool, homestead: bool, eip2028: bool, eip3860: bool)
    ensures var before := IntrinsicGasOf(data, [], creation, homestead, eip2028, eip3860);
      var price := BytePrice(|data|, b, creation, eip2028, eip3860);
      IntrinsicGasOf(data + [b], [], creation, homestead, eip2028, eip3860)
        == if before.Gas? && before.value + price <= MAX_U64 then Gas(before.value + price) else Overflow
  {
    DataGasOfByte(data, b, creation, homestead, eip2028, eip3860);
    PriceOfData(data, creation, homestead, eip2028, eip3860);
    PriceOfData(data + [b], creation, homestead, eip2028, eip3860);
  }

  /** An entry with `keys` keys adds 2400 and 1900 for each key, and the sum wraps around at 64 bits. */
  lemma PriceOfEntry(data: seq<bv8>, accessList: seq<nat>, keys: nat, creation: bool, homestead: bool, eip2028: bool,
                     eip3860: bool)
    ensures var before := IntrinsicGasOf(data, accessList, creation, homestead, eip2028, eip3860);
      IntrinsicGasOf(data, accessList + [keys], creation, homestead, eip2028, eip3860)
        == if before.Gas? then Gas((before.value + 2400 + 1900 * keys) % 0x1_0000_0000_0000_0000) else Overflow
  {
    assert (accessList + [keys])[..|accessList|] == accessList;
    assert AccessGas(accessList + [keys]) == AccessGas(accessList) + 2400 + 1900 * keys;
    WrapMore(DataGas(data, creation, homestead, eip2028, eip3860) + AccessGas(accessList), 2400 + 1900 * keys);
  }

  lemma WrapMore(a: nat, b: nat)
    ensures Wrap(Wrap(a) + b) == Wrap(a + b)
  {
  }

  lemma WrapSum(a: nat, b: nat, c: nat)
    ensures Wrap(Wrap(a + Wrap(b)) + Wrap(c)) == Wrap(a + b + c)
  {
  }

  /** The overflow test by division is the overflow test by multiplication. */
  lemma DivisionGuard(gas: U64, price: nat, n: nat)
    requires price > 0
    ensures (MAX_U64 - gas) / price < n <==> gas + n * price > MAX_U64
  {
    var room := MAX_U64 - gas;
    var q := room / price;
    assert room == q * price + room % price;
    if q < n {
      assert (q + 1) * price <= n * price;
    } else {
      assert n * price <= q * price;
    }
  }

  function ToWordSize(size: U64): (words: U64)
    ensures words == (size + 31) / 32
  {
    if size > MAX_U64 - 31 then MAX_U64 / 32 + 1 else (size + 31) / 32
  }

  method CountNonZero(data: seq<bv8>) returns (nz: nat)
    ensures nz == NonZeroBytes(data)
  {
    nz := 0;
    for i := 0 to |data|
      invariant nz == NonZeroBytes(data[..i])
    {
      assert data[..i + 1][..i] == data[..i];
      if data[i] != 0 {
        nz := nz + 1;
      }
    }
    assert data[..|data|] == data;
  }

  /** The data part with its overflow tests. */
  method PriceData(data: seq<bv8>, creation: bool, homestead: bool, eip2028: bool, eip3860: bool) returns (r: Result)
    requires |data| <= MAX_U64
    ensures var exact := DataGas(data, creation, homestead, eip2028, eip3860);
      if exact > MAX_U64 then r == Overflow else r.Gas? && r.value == exact
  {
    var gas: U64 := if creation && homestead then TX_GAS_CONTRACT_CREATION else TX_GAS;
    if |data| == 0 {
      return Gas(gas);
    }
    var nz := CountNonZero(data);
    var price := if eip2028 then TX_DATA_NON_ZERO_GAS_EIP2028 else TX_DATA_NON_ZERO_GAS_FRONTIER;
    DivisionGuard(gas, price, nz);
    if (MAX_U64 - gas) / price < nz {
      return Overflow;
    }
    gas := gas + nz * price;
    var z := |data| - nz;
    DivisionGuard(gas, TX_DATA_ZERO_GAS, z);
    if (MAX_U64 - gas) / TX_DATA_ZERO_GAS < z {
      return Overflow;
    }
    gas := gas + z * TX_DATA_ZERO_GAS;
    if creation && eip3860 {
      var words := ToWordSize(|data|);
      DivisionGuard(gas, INIT_CODE_WORD_GAS, words);
      if (MAX_U64 - gas) / INIT_CODE_WORD_GAS < words {
        return Overflow;
      }
      gas := gas + words * INIT_CODE_WORD_GAS;
    }
    r := Gas(gas);
  }

  method IntrinsicGas(data: seq<bv8>, accessList: seq<nat>, creation: bool, homestead: bool,
                      eip2028: bool, eip3860: bool)
    returns (r: Result)
    requires |data| <= MAX_U64
    ensures r == IntrinsicGasOf(data, accessList, creation, homestead, eip2028, eip3860)
  {
    r := PriceData(data, creation, homestead, eip2028, eip3860);
    if r.Gas? {
      WrapSum(r.value, AddressGas(accessList), KeyGas(accessList));
      var gas := Wrap(r.value + Wrap(AddressGas(accessList)));
      gas := Wrap(gas + Wrap(KeyGas(accessList)));
      r := Gas(gas);
    }
  }
}
