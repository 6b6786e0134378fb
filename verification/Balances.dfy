/** Account balances in 256-bit arithmetic and their total. */
module Balances {

  type Address = nat
  type Accounts = map<Address, nat>

  const TWO_256: nat := 0x1_0000000000000000_0000000000000000_0000000000000000_0000000000000000

  function BalanceOf(b: Accounts, a: Address): nat
  {
    if a in b then b[a] else 0
  }

  // Conversion to a 256-bit word drops the higher bits.
  function U256(x: nat): (r: nat)
    ensures x < TWO_256 ==> r == x
  {
    x % TWO_256
  }

  // Addition and subtraction of 256-bit words wrap.
  function Add256(x: nat, y: nat): (r: nat)
    ensures x + y < TWO_256 ==> r == x + y
  {
    (x + y) % TWO_256
  }

  function Sub256(x: nat, y: nat): (r: nat)
    ensures y <= x < TWO_256 ==> r == x - y
  {
    (x + TWO_256 - y % TWO_256) % TWO_256
  }

  // AddBalance and SubBalance.
  function Credit(b: Accounts, a: Address, amount: nat): Accounts
  {
    b[a := Add256(BalanceOf(b, a), amount)]
  }

  function Debit(b: Accounts, a: Address, amount: nat): Accounts
  {
    b[a := Sub256(BalanceOf(b, a), amount)]
  }

  ghost function Total(b: Accounts): nat
  {
    if b == map[] then 0
    else
      var a :| a in b;
      b[a] + Total(b - {a})
  }

  // The total does not depend on the order of summation.
  lemma {:induction false} TotalSplit(b: Accounts, a: Address)
    requires a in b
    ensures Total(b) == b[a] + Total(b - {a})
    decreases |b|
  {
    var first :| a in b && first in b && Total(b) == b[first] + Total(b - {first});
    if first == a {
    } else {
      TotalSplit(b - {first}, a);
      TotalSplit(b - {a}, first);
      assert b - {first} - {a} == b - {a} - {first};
    }
  }

  lemma TotalUpdate(b: Accounts, a: Address, v: nat)
    ensures Total(b[a := v]) == Total(b) - BalanceOf(b, a) + v
    ensures BalanceOf(b, a) <= Total(b)
  {
    var c := b[a := v];
    TotalSplit(c, a);
    if a in b {
      TotalSplit(b, a);
      assert c - {a} == b - {a};
    } else {
      assert c - {a} == b;
    }
  }

  // A credit that keeps the total below 2^256 does not wrap.
  lemma CreditExact(b: Accounts, a: Address, amount: nat)
    requires Total(b) + amount < TWO_256
    ensures Total(Credit(b, a, amount)) == Total(b) + amount
    ensures BalanceOf(Credit(b, a, amount), a) == BalanceOf(b, a) + amount
  {
    TotalUpdate(b, a, Add256(BalanceOf(b, a), amount));
  }

  // A debit covered by the balance does not underflow.
  lemma DebitExact(b: Accounts, a: Address, amount: nat)
    requires amount <= BalanceOf(b, a) < TWO_256
    ensures Total(Debit(b, a, amount)) == Total(b) - amount
    ensures BalanceOf(Debit(b, a, amount), a) == BalanceOf(b, a) - amount
  {
    TotalUpdate(b, a, Sub256(BalanceOf(b, a), amount));
  }

  // The guard and the effect of a value transfer.
  predicate CanTransfer(b: Accounts, from: Address, amount: nat)
  {
    BalanceOf(b, from) >= amount
  }

  function Transfer(b: Accounts, from: Address, to: Address, amount: nat): Accounts
  {
    Credit(Debit(b, from, amount), to, amount)
  }

  // The guard is exact: it holds if and only if the debit takes the amount without underflow.
  lemma GuardIsExact(b: Accounts, from: Address, amount: nat)
    requires Total(b) < TWO_256 && amount < TWO_256
    ensures CanTransfer(b, from, amount) <==> BalanceOf(Debit(b, from, amount), from) + amount == BalanceOf(b, from)
  {
    TotalUpdate(b, from, 0);
    if CanTransfer(b, from, amount) {
      DebitExact(b, from, amount);
    }
  }

  // A guarded transfer moves the amount and nothing else: the total and all other accounts stay.
  lemma TransferConserves(b: Accounts, from: Address, to: Address, amount: nat, other: Address)
    requires Total(b) < TWO_256 && CanTransfer(b, from, amount)
    ensures Total(Transfer(b, from, to, amount)) == Total(b)
    ensures from != to ==> BalanceOf(Transfer(b, from, to, amount), from) == BalanceOf(b, from) - amount
    ensures from != to ==> BalanceOf(Transfer(b, from, to, amount), to) == BalanceOf(b, to) + amount
    ensures other != from && other != to ==> BalanceOf(Transfer(b, from, to, amount), other) == BalanceOf(b, other)
    ensures from == to ==> BalanceOf(Transfer(b, from, to, amount), from) == BalanceOf(b, from)
  {
    TotalUpdate(b, from, 0);
    DebitExact(b, from, amount);
    CreditExact(Debit(b, from, amount), to, amount);
  }
}
