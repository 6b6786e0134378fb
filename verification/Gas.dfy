/** Gas accounting primitives: the block gas pool and the intrinsic gas of a message, in exact
    64-bit arithmetic. */
module Gas {
  import opened Options

  const MAX_U64: nat := 0xFFFF_FFFF_FFFF_FFFF
  const TX_GAS: nat := 21000
  const TX_GAS_CONTRACT_CREATION: nat := 53000
  const TX_DATA_ZERO_GAS: nat := 4
  const TX_DATA_NON_ZERO_GAS_FRONTIER: nat := 68
  const TX_DATA_NON_ZERO_GAS_EIP2028: nat := 16
  const INIT_CODE_WORD_GAS: nat := 2
  const TX_ACCESS_LIST_ADDRESS_GAS: nat := 2400
  const TX_ACCESS_LIST_STORAGE_KEY_GAS: nat := 1900

  type u64 = x: nat | x <= MAX_U64
  type byte = x: nat | x < 256

  class GasPool {
    var gas: u64

    constructor ()
      ensures gas == 0
    {
      gas := 0;
    }

    // Panics when the pool would be pushed above 64 bits.
    method AddGas(amount: u64)
      requires gas + amount <= MAX_U64
      modifies this`gas
      ensures gas == old(gas) + amount
    {
      gas := gas + amount;
    }

    method SubGas(amount: u64) returns (ok: bool)
      modifies this`gas
      ensures ok <==> amount <= old(gas)
      ensures gas == if ok then old(gas) - amount else old(gas)
    {
      if gas < amount {
        return false;
      }
      gas := gas - amount;
      return true;
    }
  }

  // The number of 32-byte words covering `size` bytes: ceiling division, also where size + 31
  // would not fit 64 bits.
  function ToWordSize(size: u64): (words: u64)
    ensures 32 * (words - 1) < size <= 32 * words
  {
    if size > MAX_U64 - 31 then MAX_U64 / 32 + 1 else (size + 31) / 32
  }

  ghost function NonZeros(data: seq<byte>): nat
  {
    if data == [] then 0 else NonZeros(data[..|data| - 1]) + if data[|data| - 1] != 0 then 1 else 0
  }

  lemma {:induction false} NonZerosBound(data: seq<byte>)
    ensures NonZeros(data) <= |data|
  {
    if data == [] {
    } else {
      NonZerosBound(data[..|data| - 1]);
    }
  }

  // It is the number of positions that do not hold zero.
  lemma {:induction false} NonZerosCounts(data: seq<byte>)
    ensures NonZeros(data) == |set i | 0 <= i < |data| && data[i] != 0|
  {
    var all := set i | 0 <= i < |data| && data[i] != 0;
    if data == [] {
      assert all == {};
    } else {
      var n := |data| - 1;
      var front := set i | 0 <= i < n && data[..n][i] != 0;
      NonZerosCounts(data[..n]);
      assert all == if data[n] != 0 then front + {n} else front;
    }
  }

  ghost function Sum(xs: seq<nat>): nat
  {
    if xs == [] then 0 else Sum(xs[..|xs| - 1]) + xs[|xs| - 1]
  }

  // Which forks and which kind of message: all that the price depends on besides the payload.
  datatype Pricing = Pricing(creation: bool, homestead: bool, eip2028: bool, eip3860: bool)

  // The cost over unbounded integers, without the access list.
  ghost function DataCost(p: Pricing, data: seq<byte>): nat
  {
    var nz := NonZeros(data);
    NonZerosBound(data);
    (if p.creation && p.homestead then TX_GAS_CONTRACT_CREATION else TX_GAS)
    + nz * (if p.eip2028 then TX_DATA_NON_ZERO_GAS_EIP2028 else TX_DATA_NON_ZERO_GAS_FRONTIER)
    + (|data| - nz) * TX_DATA_ZERO_GAS
    + (if p.creation && p.eip3860 then (|data| + 31) / 32 * INIT_CODE_WORD_GAS else 0)
  }

  // The cost over unbounded integers; `keys` lists the storage keys per access-list address.
  ghost function Cost(p: Pricing, data: seq<byte>, keys: seq<nat>): nat
  {
    DataCost(p, data) + |keys| * TX_ACCESS_LIST_ADDRESS_GAS + Sum(keys) * TX_ACCESS_LIST_STORAGE_KEY_GAS
  }

  function Times(a: nat, b: nat): nat
  {
    a * b
  }

  lemma MulMono(a: nat, b: nat, c: nat, d: nat)
    requires a <= c && b <= d
    ensures a * b <= c * d
  {
    assert a * b <= c * b <= c * d;
  }

  lemma DivisionGuard(room: nat, n: nat, price: nat)
    requires price > 0
    ensures room / price < n <==> room < n * price
  {
    var q := room / price;
    assert q * price <= room < q * price + price;
    if q < n {
      MulMono(q + 1, price, n, price);
      assert (q + 1) * price == q * price + price;
    } else {
      MulMono(n, price, q, price);
    }
  }

  // The price list: 53000 for a creation from Homestead on and 21000 otherwise, 4 per zero byte, 68
  // and from EIP-2028 on 16 per other byte, 2 per word of init code from EIP-3860 on, 2400 per
  // address and 1900 per storage key of the access list.
  lemma PriceList(p: Pricing, data: seq<byte>, keys: seq<nat>)
    ensures DataCost(p, data)
         == (if p.creation && p.homestead then 53000 else 21000)
            + 4 * (|data| - NonZeros(data)) + (if p.eip2028 then 16 else 68) * NonZeros(data)
            + (if p.creation && p.eip3860 then 2 * ((|data| + 31) / 32) else 0)
    ensures Cost(p, data, keys) == DataCost(p, data) + 2400 * |keys| + 1900 * Sum(keys)
  {
  }

  // gas + n * price as the code computes it: None when the product or the sum overflows.
  function AddChecked(gas: u64, n: u64, price: nat): (r: Option<u64>)
    requires price > 0
    ensures r == if gas + n * price <= MAX_U64 then Some(gas + n * price) else None
  {
    DivisionGuard(MAX_U64 - gas, n, price);
    if (MAX_U64 - gas) / price < n then None else Some(gas + n * price)
  }

  lemma ModUnique(d: nat, r: nat, m: nat)
    requires r < m
    ensures (d * m + r) % m == r
  {
    var q := (d * m + r) / m;
    if q < d {
      MulMono(q + 1, m, d, m);
    } else if q > d {
      MulMono(d + 1, m, q, m);
    }
  }

  lemma {:induction false} ModShift(x: nat, q: nat, m: nat)
    requires m > 0
    ensures (x + q * m) % m == x % m
  {
    var d := x / m;
    assert x + q * m == (d + q) * m + x % m;
    ModUnique(d + q, x % m, m);
  }

  lemma ModTwice(a: nat, b: nat, c: nat, m: nat)
    requires m > 0
    ensures ((a + b) % m + c) % m == (a + b + c) % m
  {
    var q := (a + b) / m;
    assert a + b == q * m + (a + b) % m;
    ModShift((a + b) % m + c, q, m);
  }

  method CountNonZeros(data: seq<byte>) returns (nz: nat)
    ensures nz == NonZeros(data)
  {
    nz := 0;
    for i := 0 to |data|
      invariant nz == NonZeros(data[..i])
    {
      assert data[..i + 1][..i] == data[..i];
      if data[i] != 0 {
        nz := nz + 1;
      }
    }
    assert data[..|data|] == data;
  }

  method SumKeys(keys: seq<nat>) returns (sum: nat)
    ensures sum == Sum(keys)
  {
    sum := 0;
    for i := 0 to |keys|
      invariant sum == Sum(keys[..i])
    {
      assert keys[..i + 1][..i] == keys[..i];
      sum := sum + keys[i];
    }
    assert keys[..|keys|] == keys;
  }

  // The price of the payload: overflow is reported exactly when the true cost does not fit.
  method DataGas(p: Pricing, data: seq<byte>) returns (r: Option<u64>)
    requires |data| <= MAX_U64
    ensures r == if DataCost(p, data) <= MAX_U64 then Some(DataCost(p, data)) else None
  {
    var gas: u64 := if p.creation && p.homestead then TX_GAS_CONTRACT_CREATION else TX_GAS;
    r := Some(gas);
    if |data| > 0 {
      var nz := CountNonZeros(data);
      NonZerosBound(data);
      r := AddChecked(gas, nz, if p.eip2028 then TX_DATA_NON_ZERO_GAS_EIP2028 else TX_DATA_NON_ZERO_GAS_FRONTIER);
      if r.None? {
        return;
      }
      r := AddChecked(r.value, |data| - nz, TX_DATA_ZERO_GAS);
      if r.None? {
        return;
      }
      if p.creation && p.eip3860 {
        r := AddChecked(r.value, ToWordSize(|data|), INIT_CODE_WORD_GAS);
      }
    }
  }

  // Two unchecked additions wrap once.
  function AccessListGas(gas: u64, addresses: nat, keys: nat): (r: u64)
    ensures r == (gas + addresses + keys) % (MAX_U64 + 1)
    ensures r == gas + addresses + keys <==> gas + addresses + keys <= MAX_U64
  {
    ModTwice(gas, addresses, keys, MAX_U64 + 1);
    ((gas + addresses) % (MAX_U64 + 1) + keys) % (MAX_U64 + 1)
  }

  // An access list that wraps: its true cost does not fit, whatever the fork, though the number of
  // its storage keys fits a signed 64-bit length.
  lemma AccessListWraps(p: Pricing) returns (keys: seq<nat>)
    ensures |keys| == 1 && keys[0] <= MAX_U64 / 2
    ensures DataCost(p, []) <= MAX_U64 < Cost(p, [], keys)
  {
    keys := [MAX_U64 / TX_ACCESS_LIST_STORAGE_KEY_GAS + 1];
    assert keys[..0] == [] && Sum(keys) == keys[0];
  }

  // The access list is added without overflow checks: the result is the true cost exactly when
  // that fits 64 bits, and the true cost modulo 2^64 otherwise.
  method IntrinsicGas(p: Pricing, data: seq<byte>, keys: seq<nat>) returns (r: Option<u64>)
    requires |data| <= MAX_U64
    ensures r.None? <==> DataCost(p, data) > MAX_U64
    ensures r.Some? ==> r.value == Cost(p, data, keys) % (MAX_U64 + 1)
    ensures r.Some? ==> (r.value == Cost(p, data, keys) <==> Cost(p, data, keys) <= MAX_U64)
    ensures keys == [] && r.Some? ==> r.value == Cost(p, data, keys)
  {
    r := DataGas(p, data);
    if r.Some? {
      var storageKeys := SumKeys(keys);
      r := Some(AccessListGas(r.value, |keys| * TX_ACCESS_LIST_ADDRESS_GAS,
          storageKeys * TX_ACCESS_LIST_STORAGE_KEY_GAS));
    }
  }
}
