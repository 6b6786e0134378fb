/** Applying one message: fee purchase, execution, refund, tip, base-fee burn and blob fee. */
module StateTransitions {
  import opened Options
  import opened Gas
  import opened Balances

  const REFUND_QUOTIENT: nat := 2
  const REFUND_QUOTIENT_EIP3529: nat := 5
  const BLOB_GAS_PER_BLOB: nat := 131072
  const MAX_INIT_CODE_SIZE: nat := 49152

  datatype Message = Message(
    from: Address, to: Option<Address>, nonce: u64, value: nat, gasLimit: u64,
    gasPrice: nat, gasFeeCap: nat, gasTipCap: nat,
    data: seq<byte>, accessKeys: seq<nat>,
    blobHashes: Option<seq<nat>>, blobGasFeeCap: nat, skipAccountChecks: bool)

  // The block and chain rules a message is applied under. `baseFee` and `blobBaseFee` are the
  // header's, `noBaseFee` is the switch of simulated calls, `blacklist` is empty before Nano, and
  // `validBlobHash` is the version check.
  datatype Env = Env(
    homestead: bool, istanbul: bool, london: bool, shanghai: bool, cancun: bool,
    parlia: bool, noBaseFee: bool, blacklist: set<Address>,
    coinbase: Address, systemAddress: Address,
    baseFee: Option<nat>, blobBaseFee: nat, validBlobHash: nat -> bool)

  datatype Error =
    | NonceTooHigh | NonceTooLow | NonceMax | SenderNoEOA
    | FeeCapVeryHigh | TipVeryHigh | TipAboveFeeCap | FeeCapTooLow
    | BlobTxCreate | MissingBlobHashes | BadBlobHashVersion | BlobFeeCapTooLow
    | InsufficientFunds | GasLimitReached
    | Blacklisted | GasUintOverflow | IntrinsicGasTooLow | MaxInitCodeSizeExceeded

  // What a transaction offers: one price before dynamic fees, a tip and a cap after.
  datatype Fee = Fixed(price: nat) | Dynamic(tip: nat, cap: nat)

  function FeeCap(f: Fee): nat
  {
    if f.Fixed? then f.price else f.cap
  }

  function TipCap(f: Fee): nat
  {
    if f.Fixed? then f.price else f.tip
  }

  function Min(a: int, b: int): int
  {
    if a < b then a else b
  }

  // TransactionToMessage's price: the effective one when the block has a base fee.
  function EffectivePrice(f: Fee, baseFee: Option<nat>): nat
  {
    if baseFee.Some? then Min(TipCap(f) + baseFee.value, FeeCap(f)) else FeeCap(f)
  }

  // The message carries the price TransactionToMessage gives it.
  ghost predicate Priced(msg: Message, env: Env)
  {
    exists f: Fee :: msg.gasFeeCap == FeeCap(f) && msg.gasTipCap == TipCap(f)
        && msg.gasPrice == EffectivePrice(f, env.baseFee)
  }

  // In 64-bit arithmetic.
  function BlobGas(msg: Message): u64
  {
    if msg.blobHashes.Some? then |msg.blobHashes.value| * BLOB_GAS_PER_BLOB % (MAX_U64 + 1) else 0
  }

  // The base fees execution sees: without base fees, zero for a message that offers nothing.
  function BaseFee(msg: Message, env: Env): Option<nat>
  {
    if env.noBaseFee && msg.gasPrice == 0 then Some(0) else env.baseFee
  }

  function BlobBaseFee(msg: Message, env: Env): nat
  {
    if env.noBaseFee && msg.blobGasFeeCap == 0 then 0 else env.blobBaseFee
  }

  function BlobFee(msg: Message, env: Env): nat
  {
    if env.cancun then BlobGas(msg) * BlobBaseFee(msg, env) else 0
  }

  // Everything taken from the sender up front.
  function Prepaid(msg: Message, env: Env): nat
  {
    msg.gasLimit * msg.gasPrice + BlobFee(msg, env)
  }

  // The balance the sender must show: at the caps, with the value.
  function RequiredBalance(msg: Message, env: Env): nat
  {
    msg.gasLimit * msg.gasFeeCap + msg.value + if env.cancun then BlobGas(msg) * msg.blobGasFeeCap else 0
  }

  // The part of the price that goes to the block producer.
  function EffectiveTip(msg: Message, env: Env): int
    requires env.london ==> env.baseFee.Some?
  {
    if env.london then Min(msg.gasTipCap, msg.gasFeeCap - BaseFee(msg, env).value) else msg.gasPrice
  }

  function BurntPerGas(msg: Message, env: Env): nat
    requires env.london ==> env.baseFee.Some?
  {
    if env.london then BaseFee(msg, env).value else 0
  }

  // min(tip + base, cap) - base == min(tip, cap - base): price splits into tip and burn.
  lemma PriceSplits(msg: Message, env: Env)
    requires Priced(msg, env) && (env.london ==> env.baseFee.Some? && msg.gasFeeCap >= BaseFee(msg, env).value)
    ensures msg.gasPrice == EffectiveTip(msg, env) + BurntPerGas(msg, env)
    ensures 0 <= EffectiveTip(msg, env)
    ensures msg.gasPrice <= msg.gasFeeCap
  {
  }

  // What is taken never exceeds the balance asked for.
  lemma PrepaidWithinRequired(msg: Message, env: Env)
    requires msg.gasPrice <= msg.gasFeeCap
    requires env.cancun && BlobGas(msg) > 0 ==> BlobBaseFee(msg, env) <= msg.blobGasFeeCap
    ensures Prepaid(msg, env) + msg.value <= RequiredBalance(msg, env)
  {
    MulMono(msg.gasLimit, msg.gasPrice, msg.gasLimit, msg.gasFeeCap);
    if env.cancun && BlobGas(msg) > 0 {
      MulMono(BlobGas(msg), BlobBaseFee(msg, env), BlobGas(msg), msg.blobGasFeeCap);
    }
  }

  // The checks of preCheck before gas is bought, in order.
  function CheckMessage(msg: Message, env: Env, nonce: u64, hasCode: bool): Option<Error>
    requires env.london ==> env.baseFee.Some?
  {
    if !msg.skipAccountChecks && nonce < msg.nonce then Some(NonceTooHigh)
    else if !msg.skipAccountChecks && nonce > msg.nonce then Some(NonceTooLow)
    else if !msg.skipAccountChecks && nonce == MAX_U64 then Some(NonceMax)
    else if !msg.skipAccountChecks && hasCode then Some(SenderNoEOA)
    else
      var skipFees := env.noBaseFee && msg.gasFeeCap == 0 && msg.gasTipCap == 0;
      var skipBlobFee := env.noBaseFee && msg.blobGasFeeCap == 0;
      if env.london && !skipFees && msg.gasFeeCap >= TWO_256 then Some(FeeCapVeryHigh)
      else if env.london && !skipFees && msg.gasTipCap >= TWO_256 then Some(TipVeryHigh)
      else if env.london && !skipFees && msg.gasFeeCap < msg.gasTipCap then Some(TipAboveFeeCap)
      else if env.london && !skipFees && msg.gasFeeCap < BaseFee(msg, env).value then Some(FeeCapTooLow)
      else if msg.blobHashes.Some? && msg.to.None? then Some(BlobTxCreate)
      else if msg.blobHashes.Some? && msg.blobHashes.value == [] then Some(MissingBlobHashes)
      else if msg.blobHashes.Some?
          && exists h | h in msg.blobHashes.value :: !env.validBlobHash(h) then Some(BadBlobHashVersion)
      else if env.cancun && BlobGas(msg) > 0 && !skipBlobFee
          && msg.blobGasFeeCap < BlobBaseFee(msg, env) then Some(BlobFeeCapTooLow)
      else None
  }

  // Why gas cannot be bought, given the sender's balance and the block's pool.
  function FundsError(msg: Message, env: Env, balance: nat, pool: nat): Option<Error>
  {
    if balance < RequiredBalance(msg, env) then Some(InsufficientFunds)
    else if pool < msg.gasLimit then Some(GasLimitReached)
    else None
  }

  function PreCheckError(msg: Message, env: Env, nonce: u64, hasCode: bool, balance: nat, pool: nat): Option<Error>
    requires env.london ==> env.baseFee.Some?
  {
    var e := CheckMessage(msg, env, nonce, hasCode);
    if e.Some? then e else FundsError(msg, env, balance, pool)
  }

  predicate Barred(msg: Message, env: Env)
  {
    msg.from in env.blacklist || (msg.to.Some? && msg.to.value in env.blacklist)
  }

  function MessagePricing(msg: Message, env: Env): Pricing
  {
    Pricing(msg.to.None?, env.homestead, env.istanbul, env.shanghai)
  }

  // The intrinsic gas taken from a message whose payload fits: its true cost, modulo 2^64.
  ghost function Charged(msg: Message, env: Env): u64
  {
    Cost(MessagePricing(msg, env), msg.data, msg.accessKeys) % (MAX_U64 + 1)
  }

  ghost function PayloadError(msg: Message, env: Env, gas: nat): Option<Error>
  {
    if Barred(msg, env) then Some(Blacklisted)
    else if DataCost(MessagePricing(msg, env), msg.data) > MAX_U64 then Some(GasUintOverflow)
    else if gas < Charged(msg, env) then Some(IntrinsicGasTooLow)
    else None
  }

  // The verdict on a message before it runs. There is no clause for the value transfer: whoever
  // can pay for the gas at the caps and the value together can still pay the value afterwards.
  ghost function Verdict(msg: Message, env: Env, nonce: u64, hasCode: bool, balance: nat, pool: nat): Option<Error>
    requires env.london ==> env.baseFee.Some?
  {
    var e := PreCheckError(msg, env, nonce, hasCode, balance, pool);
    var f := PayloadError(msg, env, msg.gasLimit);
    if e.Some? then e
    else if f.Some? then f
    else if env.shanghai && msg.to.None? && |msg.data| > MAX_INIT_CODE_SIZE then Some(MaxInitCodeSizeExceeded)
    else None
  }

  // A message that passes the checks meets the base fees it sees, also where the checks are skipped.
  lemma CheckedCaps(msg: Message, env: Env, nonce: u64, hasCode: bool)
    requires Priced(msg, env) && (env.london ==> env.baseFee.Some?)
    requires CheckMessage(msg, env, nonce, hasCode) == None
    ensures env.london ==> BaseFee(msg, env).value <= msg.gasFeeCap < TWO_256
    ensures env.cancun && BlobGas(msg) > 0 ==> BlobBaseFee(msg, env) <= msg.blobGasFeeCap
    ensures !msg.skipAccountChecks ==> nonce < MAX_U64
  {
  }

  lemma PriceBound(limit: nat, price: nat)
    ensures limit > 0 ==> price <= limit * price
  {
    if limit > 0 {
      MulMono(1, price, limit, price);
    }
  }

  // A price of more than 256 bits can be prepaid only for no gas at all.
  lemma WidePriceIsFree(msg: Message, env: Env)
    requires Prepaid(msg, env) < TWO_256 <= msg.gasPrice
    ensures msg.gasLimit == 0
  {
    PriceBound(msg.gasLimit, msg.gasPrice);
  }

  // What the fee terms are, on the fields: from London on the base fee is burnt and the producer gets
  // the rest of the price, up to the tip; before that it gets the whole price. Base fees that are
  // switched off count as zero for a message that offers nothing.
  lemma FeesOnFields(msg: Message, env: Env)
    requires env.london ==> env.baseFee.Some?
    ensures var base := if !env.london || (env.noBaseFee && msg.gasPrice == 0) then 0 else env.baseFee.value;
            var rest := msg.gasFeeCap - base;
            && BurntPerGas(msg, env) == base
            && EffectiveTip(msg, env) == if !env.london then msg.gasPrice
                                         else if msg.gasTipCap < rest then msg.gasTipCap else rest
    ensures var hashes := if msg.blobHashes.Some? then |msg.blobHashes.value| else 0;
            var blobBase := if env.noBaseFee && msg.blobGasFeeCap == 0 then 0 else env.blobBaseFee;
            var blobGas := hashes * 131072 % 0x1_0000_0000_0000_0000;
            && BlobFee(msg, env) == (if env.cancun then blobGas * blobBase else 0)
            && Prepaid(msg, env) == msg.gasLimit * msg.gasPrice + BlobFee(msg, env)
            && RequiredBalance(msg, env)
               == msg.gasLimit * msg.gasFeeCap + msg.value + (if env.cancun then blobGas * msg.blobGasFeeCap else 0)
  {
  }

  // Which messages pass the checks before gas is bought, on the fields.
  lemma CheckPassesExactly(msg: Message, env: Env, nonce: u64, hasCode: bool)
    requires env.london ==> env.baseFee.Some?
    ensures CheckMessage(msg, env, nonce, hasCode) == None <==>
              && (!msg.skipAccountChecks ==> nonce == msg.nonce && nonce < 0xFFFF_FFFF_FFFF_FFFF && !hasCode)
              && (env.london && !(env.noBaseFee && msg.gasFeeCap == 0 && msg.gasTipCap == 0) ==>
                    && msg.gasTipCap <= msg.gasFeeCap < TWO_256
                    && (msg.gasFeeCap >= env.baseFee.value || (env.noBaseFee && msg.gasPrice == 0)))
              && (msg.blobHashes.Some? ==>
                    && msg.to.Some? && msg.blobHashes.value != []
                    && forall h | h in msg.blobHashes.value :: env.validBlobHash(h))
              && (env.cancun && BlobGas(msg) > 0 && !(env.noBaseFee && msg.blobGasFeeCap == 0) ==>
                    msg.blobGasFeeCap >= env.blobBaseFee)
  {
  }

  lemma AdmittedSender(msg: Message, env: Env, nonce: u64, hasCode: bool, balance: nat, pool: nat)
    requires (env.london ==> env.baseFee.Some?) && Verdict(msg, env, nonce, hasCode, balance, pool) == None
    ensures PreCheckError(msg, env, nonce, hasCode, balance, pool) == None
    ensures !msg.skipAccountChecks ==> nonce == msg.nonce && !hasCode
    ensures RequiredBalance(msg, env) <= balance && msg.gasLimit <= pool
  {
    CheckPassesExactly(msg, env, nonce, hasCode);
  }

  // Each error of those checks has its own cause.
  lemma CheckErrorMeans(msg: Message, env: Env, nonce: u64, hasCode: bool)
    requires (env.london ==> env.baseFee.Some?) && CheckMessage(msg, env, nonce, hasCode).Some?
    ensures match CheckMessage(msg, env, nonce, hasCode).value
            case NonceTooHigh => !msg.skipAccountChecks && nonce < msg.nonce
            case NonceTooLow => !msg.skipAccountChecks && nonce > msg.nonce
            case NonceMax => !msg.skipAccountChecks && nonce == msg.nonce == 0xFFFF_FFFF_FFFF_FFFF
            case SenderNoEOA => !msg.skipAccountChecks && nonce == msg.nonce && hasCode
            case FeeCapVeryHigh => env.london && msg.gasFeeCap >= TWO_256
            case TipVeryHigh => env.london && msg.gasTipCap >= TWO_256 > msg.gasFeeCap
            case TipAboveFeeCap => env.london && msg.gasFeeCap < msg.gasTipCap < TWO_256
            case FeeCapTooLow => env.london && msg.gasTipCap <= msg.gasFeeCap < env.baseFee.value
            case BlobTxCreate => msg.blobHashes.Some? && msg.to.None?
            case MissingBlobHashes => msg.blobHashes == Some([])
            case BadBlobHashVersion =>
              msg.blobHashes.Some? && exists h | h in msg.blobHashes.value :: !env.validBlobHash(h)
            case BlobFeeCapTooLow => env.cancun && BlobGas(msg) > 0 && msg.blobGasFeeCap < env.blobBaseFee
            case _ => false
  {
  }

  // Which messages are admitted after that, and the cause of each further error, on the fields.
  lemma VerdictOnFields(msg: Message, env: Env, nonce: u64, hasCode: bool, balance: nat, pool: nat)
    requires (env.london ==> env.baseFee.Some?) && CheckMessage(msg, env, nonce, hasCode) == None
    ensures var v := Verdict(msg, env, nonce, hasCode, balance, pool);
            var barred := msg.from in env.blacklist || (msg.to.Some? && msg.to.value in env.blacklist);
            var funded := RequiredBalance(msg, env) <= balance && msg.gasLimit <= pool;
            var tooLong := env.shanghai && msg.to.None? && |msg.data| > 49152;
            var fits := DataCost(MessagePricing(msg, env), msg.data) <= MAX_U64;
            && (v == Some(InsufficientFunds) <==> balance < RequiredBalance(msg, env))
            && (v == Some(GasLimitReached) <==> RequiredBalance(msg, env) <= balance && pool < msg.gasLimit)
            && (v == Some(Blacklisted) <==> funded && barred)
            && (v == Some(GasUintOverflow) <==> funded && !barred && !fits)
            && (v == Some(IntrinsicGasTooLow) <==> funded && !barred && fits && msg.gasLimit < Charged(msg, env))
            && (v == Some(MaxInitCodeSizeExceeded) <==>
                  funded && !barred && fits && Charged(msg, env) <= msg.gasLimit && tooLong)
            && (v == None <==> funded && !barred && fits && Charged(msg, env) <= msg.gasLimit && !tooLong)
  {
  }

  // The intrinsic gas of a message: which forks and which kind of message its price depends on.
  lemma ChargedOnFields(msg: Message, env: Env)
    ensures var nz := NonZeros(msg.data);
            var creation := msg.to.None?;
            Charged(msg, env)
            == ((if creation && env.homestead then 53000 else 21000)
                + 4 * (|msg.data| - nz) + (if env.istanbul then 16 else 68) * nz
                + (if creation && env.shanghai then 2 * ((|msg.data| + 31) / 32) else 0)
                + 2400 * |msg.accessKeys| + 1900 * Sum(msg.accessKeys)) % 0x1_0000_0000_0000_0000
  {
    PriceList(MessagePricing(msg, env), msg.data, msg.accessKeys);
  }

  // Such a message: one address whose storage keys wrap the access list's gas to exactly zero, no gas
  // limit, and a price of 2^256, before London. The checks pass, on an empty account.
  lemma WidePricePasses(homestead: bool) returns (msg: Message, env: Env)
    ensures Priced(msg, env) && !env.london && !env.noBaseFee && !msg.skipAccountChecks
    ensures |msg.accessKeys| == 1 && msg.accessKeys[0] <= MAX_U64 / 2
    ensures msg.gasPrice == TWO_256 && msg.gasLimit == 0 == Charged(msg, env)
    ensures Verdict(msg, env, 0, false, 0, 0) == None
  {
    var keys := [(7 * 0x4000_0000_0000_0000 - 234) / 19];
    msg := Message(1, Some(2), 0, 0, 0, TWO_256, TWO_256, TWO_256, [], keys, None, 0, false);
    env := Env(homestead, false, false, false, false, false, false, {}, 3, 4, None, 0, _ => true);
    var f := Fixed(TWO_256);
    assert msg.gasFeeCap == FeeCap(f) && msg.gasTipCap == TipCap(f) && msg.gasPrice == EffectivePrice(f, env.baseFee);
    assert keys[..0] == [] && Sum(keys) == keys[0];
    assert Cost(MessagePricing(msg, env), [], keys) == 175 * (MAX_U64 + 1);
    ModUnique(175, 0, MAX_U64 + 1);
  }

  function NonceIn(nonces: map<Address, u64>, a: Address): u64
  {
    if a in nonces then nonces[a] else 0
  }

  class StateDB {
    var balances: Accounts
    var nonces: map<Address, u64>
    var codes: set<Address>

    constructor ()
      ensures balances == map[] && nonces == map[] && codes == {}
    {
      balances, nonces, codes := map[], map[], {};
    }

    function NonceOf(a: Address): u64
      reads this
    {
      NonceIn(nonces, a)
    }

    method AddBalance(a: Address, amount: nat)
      modifies this`balances
      ensures balances == Credit(old(balances), a, amount)
      ensures Total(old(balances)) + amount < TWO_256 ==> Total(balances) == Total(old(balances)) + amount
    {
      if Total(balances) + amount < TWO_256 {
        CreditExact(balances, a, amount);
      }
      balances := Credit(balances, a, amount);
    }

    method SubBalance(a: Address, amount: nat)
      modifies this`balances
      ensures balances == Debit(old(balances), a, amount)
      ensures amount <= BalanceOf(old(balances), a) < TWO_256 ==>
                && Total(balances) == Total(old(balances)) - amount
                && BalanceOf(balances, a) == BalanceOf(old(balances), a) - amount
    {
      if amount <= BalanceOf(balances, a) < TWO_256 {
        DebitExact(balances, a, amount);
      }
      balances := Debit(balances, a, amount);
    }
  }

  datatype ExecutionResult = ExecutionResult(usedGas: u64, refundedGas: u64, failed: bool)

  // The conversion of the price to 256 bits panics when it does not fit.
  datatype Outcome = Applied(result: ExecutionResult) | Rejected(error: Error) | Panicked

  // Who gets the fees: the coinbase, or under Parlia the system account, with the blob fee on top.
  function Rewarded(b: Accounts, env: Env, fee: nat, blobFee: nat): Accounts
  {
    if !env.parlia then Credit(b, env.coinbase, fee)
    else if env.cancun then Credit(Credit(b, env.systemAddress, fee), env.systemAddress, blobFee)
    else Credit(b, env.systemAddress, fee)
  }

  // After execution: unused gas back to the sender at the price paid, then the fees.
  function Settled(b: Accounts, msg: Message, env: Env, unused: nat, used: nat, tip: nat, blobFee: nat): Accounts
  {
    Rewarded(Credit(b, msg.from, Times(unused, msg.gasPrice)), env, Times(used, tip), blobFee)
  }

  // Refunds are capped to this fraction of the gas used.
  function RefundQuotient(env: Env): nat
  {
    if env.london then REFUND_QUOTIENT_EIP3529 else REFUND_QUOTIENT
  }

  // What is prepaid is what is returned, tipped, burnt and charged for blobs.
  lemma FeesAddUp(limit: nat, remaining: nat, price: nat, tip: nat, burn: nat)
    requires remaining <= limit && price == tip + burn
    ensures limit * price == remaining * price + (limit - remaining) * tip + (limit - remaining) * burn
    ensures (limit - remaining) * tip <= limit * tip <= limit * price
    ensures (limit - remaining) * burn >= 0
  {
    MulMono(limit - remaining, tip, limit, tip);
    MulMono(limit, tip, limit, price);
  }

  // A product of 256-bit words, where the price fits one and the largest product does not wrap.
  function MulU256(n: nat, price: nat, most: nat): (product: nat)
    requires n <= most && price < TWO_256 && most * price < TWO_256
    ensures product == n * price <= most * price
  {
    MulMono(n, price, most, price);
    n * price % TWO_256
  }

  // The refund is the counter, or as much of it as the cap allows.
  ghost predicate LargestRefund(refund: nat, counter: nat, used: nat, quotient: nat)
  {
    refund <= counter && refund * quotient <= used && (refund == counter || used < (refund + 1) * quotient)
  }

  lemma RefundCap(used: nat, quotient: nat, refund: nat, counter: nat)
    requires quotient > 1 && refund == if used / quotient > counter then counter else used / quotient
    ensures LargestRefund(refund, counter, used, quotient) && refund <= used
  {
    var most := used / quotient;
    assert most * quotient <= used < most * quotient + quotient;
    MulMono(refund, quotient, most, quotient);
    MulMono(refund, 1, refund, quotient);
    if most <= counter {
      assert (most + 1) * quotient == most * quotient + quotient;
    }
  }

  // Accounts other than the sender that have no code and a nonce keep it, and stay without code.
  ghost predicate Undisturbed(nonces: map<Address, u64>, codes: set<Address>,
                              nonces': map<Address, u64>, codes': set<Address>, sender: Address)
  {
    forall a | a != sender && a !in codes && NonceIn(nonces, a) > 0 ::
      NonceIn(nonces', a) == NonceIn(nonces, a) && a !in codes'
  }

  // What an account receives after execution: the sender its unused gas at the price paid, the block
  // producer, or under Parlia the system account, the tip, and that one the blob fee from Cancun on.
  ghost function Paid(msg: Message, env: Env, used: nat, tip: nat, blobFee: nat, a: Address): nat
    requires used <= msg.gasLimit
  {
    (if a == msg.from then Times(msg.gasLimit - used, msg.gasPrice) else 0)
    + (if a == (if env.parlia then env.systemAddress else env.coinbase) then Times(used, tip) else 0)
    + (if env.parlia && env.cancun && a == env.systemAddress then blobFee else 0)
  }

  lemma CreditPays(b: Accounts, to: Address, amount: nat, a: Address)
    requires Total(b) + amount < TWO_256
    ensures Total(Credit(b, to, amount)) == Total(b) + amount
    ensures BalanceOf(Credit(b, to, amount), a) == BalanceOf(b, a) + if a == to then amount else 0
  {
    CreditExact(b, to, amount);
  }

  lemma SettledPays(b: Accounts, msg: Message, env: Env, used: nat, tip: nat, blobFee: nat, a: Address)
    requires used <= msg.gasLimit
    requires Total(b) + Times(msg.gasLimit - used, msg.gasPrice) + Times(used, tip) + blobFee < TWO_256
    ensures BalanceOf(Settled(b, msg, env, msg.gasLimit - used, used, tip, blobFee), a)
         == BalanceOf(b, a) + Paid(msg, env, used, tip, blobFee, a)
  {
    var back, fee := Times(msg.gasLimit - used, msg.gasPrice), Times(used, tip);
    CreditPays(b, msg.from, back, a);
    var refunded := Credit(b, msg.from, back);
    var producer := if env.parlia then env.systemAddress else env.coinbase;
    CreditPays(refunded, producer, fee, a);
    CreditPays(Credit(refunded, producer, fee), env.systemAddress, blobFee, a);
  }

  // The same for all accounts, for a price that is tip and burn.
  ghost predicate EveryonePaid(before: Accounts, after: Accounts, msg: Message, env: Env, used: nat, tip: nat,
                               blobFee: nat)
    requires used <= msg.gasLimit
  {
    forall a :: BalanceOf(after, a) == BalanceOf(before, a) + Paid(msg, env, used, tip, blobFee, a)
  }

  lemma AllPaid(b: Accounts, after: Accounts, msg: Message, env: Env, unused: nat, used: nat, tip: nat, burn: nat,
                blobFee: nat)
    requires unused + used == msg.gasLimit && msg.gasPrice == tip + burn
    requires Total(b) + msg.gasLimit * msg.gasPrice + blobFee < TWO_256
    requires after == Settled(b, msg, env, unused, used, tip, blobFee)
    ensures EveryonePaid(b, after, msg, env, used, tip, blobFee)
  {
    FeesAddUp(msg.gasLimit, unused, msg.gasPrice, tip, burn);
    forall a
      ensures BalanceOf(after, a) == BalanceOf(b, a) + Paid(msg, env, used, tip, blobFee, a)
    {
      SettledPays(b, msg, env, used, tip, blobFee, a);
    }
  }

  // After execution, unused gas, tip and blob fee go to whom they belong, and nothing else.
  ghost predicate PaidOut(executed: Accounts, after: Accounts, msg: Message, env: Env, used: nat)
    requires used <= msg.gasLimit && (env.london ==> env.baseFee.Some?)
  {
    && 0 <= EffectiveTip(msg, env)
    && after == Settled(executed, msg, env, msg.gasLimit - used, used, EffectiveTip(msg, env), BlobFee(msg, env))
    && EveryonePaid(executed, after, msg, env, used, EffectiveTip(msg, env), BlobFee(msg, env))
  }

  lemma AllPaidOut(b: Accounts, after: Accounts, msg: Message, env: Env, unused: nat, used: nat)
    requires Priced(msg, env) && (env.london ==> env.baseFee.Some? && msg.gasFeeCap >= BaseFee(msg, env).value)
    requires unused + used == msg.gasLimit && Total(b) + Prepaid(msg, env) < TWO_256
    requires 0 <= EffectiveTip(msg, env)
    requires after == Settled(b, msg, env, unused, used, EffectiveTip(msg, env), BlobFee(msg, env))
    ensures PaidOut(b, after, msg, env, used)
  {
    PriceSplits(msg, env);
    AllPaid(b, after, msg, env, unused, used, EffectiveTip(msg, env), BurntPerGas(msg, env), BlobFee(msg, env));
  }

  class StateTransition {
    const msg: Message
    const env: Env
    const gp: GasPool
    const state: StateDB
    var gasRemaining: u64
    var initialGas: u64

    constructor (msg: Message, env: Env, gp: GasPool, state: StateDB)
      ensures this.msg == msg && this.env == env && this.gp == gp && this.state == state
      ensures gasRemaining == initialGas == 0
    {
      this.msg, this.env, this.gp, this.state := msg, env, gp, state;
      gasRemaining, initialGas := 0, 0;
    }

    // A message priced as TransactionToMessage prices it, on a state whose total fits 256 bits.
    ghost predicate Ready()
      reads this, state
    {
      && Priced(msg, env) && (env.london ==> env.baseFee.Some?) && |msg.data| <= MAX_U64
      && Total(state.balances) < TWO_256
    }

    method BuyGas() returns (err: Option<Error>)
      requires Ready() && gasRemaining == 0
      requires msg.gasPrice <= msg.gasFeeCap
      requires env.cancun && BlobGas(msg) > 0 ==> BlobBaseFee(msg, env) <= msg.blobGasFeeCap
      modifies this, gp`gas, state`balances
      ensures err.Some? ==> unchanged(this) && unchanged(gp) && unchanged(state)
      ensures err == FundsError(msg, env, BalanceOf(old(state.balances), msg.from), old(gp.gas))
      ensures err.None? ==>
                && gasRemaining == initialGas == msg.gasLimit
                && gp.gas == old(gp.gas) - msg.gasLimit
                && Prepaid(msg, env) + msg.value <= RequiredBalance(msg, env) < TWO_256
                && BalanceOf(state.balances, msg.from) == BalanceOf(old(state.balances), msg.from) - Prepaid(msg, env)
                && Total(state.balances) == Total(old(state.balances)) - Prepaid(msg, env)
    {
      var balanceCheck := RequiredBalance(msg, env);
      TotalUpdate(state.balances, msg.from, 0);
      if balanceCheck >= TWO_256 {
        return Some(InsufficientFunds);
      }
      if BalanceOf(state.balances, msg.from) < balanceCheck {
        return Some(InsufficientFunds);
      }
      var ok := gp.SubGas(msg.gasLimit);
      if !ok {
        return Some(GasLimitReached);
      }
      gasRemaining, initialGas := msg.gasLimit, msg.gasLimit;
      PrepaidWithinRequired(msg, env);
      state.SubBalance(msg.from, U256(Prepaid(msg, env)));
      err := None;
    }

    method PreCheck() returns (err: Option<Error>)
      requires Ready() && gasRemaining == 0
      modifies this, gp`gas, state`balances
      ensures err.Some? ==> unchanged(this) && unchanged(gp) && unchanged(state)
      ensures err == old(PreCheckError(msg, env, state.NonceOf(msg.from), msg.from in state.codes,
                                       BalanceOf(state.balances, msg.from), gp.gas))
      ensures err.None? ==>
                && gasRemaining == initialGas == msg.gasLimit
                && gp.gas == old(gp.gas) - msg.gasLimit && msg.gasLimit <= old(gp.gas)
                && Prepaid(msg, env) + msg.value <= RequiredBalance(msg, env) < TWO_256
                && BalanceOf(state.balances, msg.from) >= msg.value
                && Total(state.balances) == Total(old(state.balances)) - Prepaid(msg, env)
    {
      err := CheckMessage(msg, env, state.NonceOf(msg.from), msg.from in state.codes);
      if err.None? {
        CheckedCaps(msg, env, state.NonceOf(msg.from), msg.from in state.codes);
        PriceSplits(msg, env);
        err := BuyGas();
      }
    }

    // Execution, as far as the fees can tell: it leaves no more gas than it was given, reports some
    // refund counter, deploys code, moves value between accounts any number of times, and may
    // destroy what an account holds. The nonce of a checked sender, who has no code, advances once,
    // before a call or inside a creation. An account without code whose nonce is not zero sends
    // nothing itself and no contract can be created at it, so it keeps its nonce and gets no code.
    method Execute() returns (refundCounter: u64, failed: bool, ghost burnt: nat)
      requires Total(state.balances) < TWO_256
      requires !msg.skipAccountChecks ==> state.NonceOf(msg.from) < MAX_U64
      modifies this`gasRemaining, state
      ensures gasRemaining <= old(gasRemaining)
      ensures Total(state.balances) == Total(old(state.balances)) - burnt
      ensures !msg.skipAccountChecks ==> state.NonceOf(msg.from) == old(state.NonceOf(msg.from)) + 1
      ensures !msg.skipAccountChecks ==> msg.from !in state.codes
      ensures Undisturbed(old(state.nonces), old(state.codes), state.nonces, state.codes, msg.from)
    {
      var gasLeft: u64 := *;
      refundCounter, failed := *, *;
      burnt := 0;
      if gasLeft <= gasRemaining {
        gasRemaining := gasLeft;
      }
      var others: map<Address, u64>, deployed: set<Address>, next: u64 := *, *, *;
      var steady := set a | a in state.nonces && state.nonces[a] > 0 && a !in state.codes && a != msg.from;
      var kept := map a | a in steady :: state.nonces[a];
      if !msg.skipAccountChecks {
        next, deployed := state.NonceOf(msg.from) + 1, deployed - {msg.from};
      }
      state.nonces, state.codes := (others + kept)[msg.from := next], deployed - steady;
      var turns: nat := *;
      while turns > 0
        modifies state`balances
        invariant Total(state.balances) == Total(old(state.balances)) - burnt
      {
        turns := turns - 1;
        var from: Address, to: Address, amount: nat := *, *, *;
        if CanTransfer(state.balances, from, amount) {
          TransferConserves(state.balances, from, to, amount, from);
          state.balances := Transfer(state.balances, from, to, amount);
        } else {
          TotalUpdate(state.balances, from, 0);
          burnt := burnt + BalanceOf(state.balances, from);
          state.balances := state.balances[from := 0];
        }
      }
    }

    // Return unused gas to the sender, at the price paid, and to the block's pool. The refund is
    // capped to a fraction of the gas used.
    method RefundGas(quotient: nat, refundCounter: u64) returns (refund: u64)
      requires quotient > 1 && gasRemaining <= initialGas == msg.gasLimit
      requires gp.gas + initialGas <= MAX_U64
      requires msg.gasPrice < TWO_256 && initialGas * msg.gasPrice < TWO_256
      requires Total(state.balances) + initialGas * msg.gasPrice < TWO_256
      modifies this`gasRemaining, gp`gas, state`balances
      ensures old(gasRemaining) <= gasRemaining <= initialGas
      ensures refund == gasRemaining - old(gasRemaining)
      ensures LargestRefund(refund, refundCounter, initialGas - old(gasRemaining), quotient)
      ensures gp.gas == old(gp.gas) + gasRemaining
      ensures Total(state.balances) == Total(old(state.balances)) + gasRemaining * msg.gasPrice
      ensures state.balances == Credit(old(state.balances), msg.from, Times(gasRemaining, msg.gasPrice))
    {
      refund := (initialGas - gasRemaining) / quotient;
      if refund > refundCounter {
        refund := refundCounter;
      }
      RefundCap(initialGas - gasRemaining, quotient, refund, refundCounter);
      gasRemaining := gasRemaining + refund;
      var remaining := MulU256(gasRemaining, msg.gasPrice, initialGas);
      state.AddBalance(msg.from, remaining);
      gp.AddGas(gasRemaining);
    }

    // The tip goes to the block producer; under Parlia the producer's share is the system
    // account's, and it gets the blob fee back as well.
    method PayFees(fee: nat, blobFee: nat)
      requires Total(state.balances) + fee + blobFee < TWO_256
      modifies state`balances
      ensures Total(state.balances) == Total(old(state.balances))
                                       + fee + if env.parlia && env.cancun then blobFee else 0
      ensures state.balances == Rewarded(old(state.balances), env, fee, blobFee)
    {
      if env.parlia {
        state.AddBalance(env.systemAddress, fee);
        if env.cancun {
          state.AddBalance(env.systemAddress, U256(blobFee));
        }
      } else {
        state.AddBalance(env.coinbase, fee);
      }
    }

    // The checks between buying gas and running the message.
    method TakeIntrinsicGas() returns (err: Option<Error>)
      requires |msg.data| <= MAX_U64
      modifies this`gasRemaining
      ensures err == PayloadError(msg, env, old(gasRemaining))
      ensures err.None? ==> gasRemaining + Charged(msg, env) == old(gasRemaining)
      ensures err.Some? ==> unchanged(this)
    {
      if Barred(msg, env) {
        return Some(Blacklisted);
      }
      var gas := IntrinsicGas(MessagePricing(msg, env), msg.data, msg.accessKeys);
      if gas.None? {
        return Some(GasUintOverflow);
      }
      if gasRemaining < gas.value {
        return Some(IntrinsicGasTooLow);
      }
      gasRemaining := gasRemaining - gas.value;
      return None;
    }

    // Refund and fees: the second half of TransitionDb, after the message has run. The price is
    // split into the tip and the part that is burnt.
    method Settle(refundCounter: u64, tip: nat, ghost burn: nat, blobFee: nat) returns (refund: u64)
      requires msg.gasPrice == tip + burn
      requires gasRemaining <= initialGas == msg.gasLimit && msg.gasPrice < TWO_256 && gp.gas + initialGas <= MAX_U64
      requires Total(state.balances) + initialGas * msg.gasPrice + blobFee < TWO_256
      modifies this`gasRemaining, gp`gas, state`balances
      ensures old(gasRemaining) + refund == gasRemaining <= initialGas
      ensures LargestRefund(refund, refundCounter, initialGas - old(gasRemaining), if env.london then 5 else 2)
      ensures gp.gas == old(gp.gas) + gasRemaining
      ensures Total(old(state.balances)) + initialGas * msg.gasPrice + blobFee
              == Total(state.balances)
                 + (initialGas - gasRemaining) * burn + (if env.parlia && env.cancun then 0 else blobFee)
      ensures Total(state.balances) <= Total(old(state.balances)) + initialGas * msg.gasPrice + blobFee
      ensures state.balances
          == Settled(old(state.balances), msg, env, gasRemaining, initialGas - gasRemaining, tip, blobFee)
    {
      refund := RefundGas(RefundQuotient(env), refundCounter);
      FeesAddUp(initialGas, gasRemaining, msg.gasPrice, tip, burn);
      var fee := MulU256(initialGas - gasRemaining, tip, initialGas);
      PayFees(fee, blobFee);
    }

    // Settlement in terms of the message and the block.
    method Conclude(refundCounter: u64) returns (refund: u64)
      requires Priced(msg, env) && msg.gasPrice < TWO_256
      requires env.london ==> env.baseFee.Some? && BaseFee(msg, env).value <= msg.gasFeeCap
      requires gasRemaining <= initialGas == msg.gasLimit && gp.gas + initialGas <= MAX_U64
      requires Total(state.balances) + Prepaid(msg, env) < TWO_256
      modifies this`gasRemaining, gp`gas, state`balances
      ensures old(gasRemaining) + refund == gasRemaining <= initialGas
      ensures LargestRefund(refund, refundCounter, initialGas - old(gasRemaining), if env.london then 5 else 2)
      ensures gp.gas == old(gp.gas) + gasRemaining
      ensures Total(old(state.balances)) + Prepaid(msg, env) == Total(state.balances)
              + (initialGas - gasRemaining) * BurntPerGas(msg, env) + (if env.parlia then 0 else BlobFee(msg, env))
      ensures Total(state.balances) <= Total(old(state.balances)) + Prepaid(msg, env)
      ensures PaidOut(old(state.balances), state.balances, msg, env, initialGas - gasRemaining)
    {
      PriceSplits(msg, env);
      refund := Settle(refundCounter, EffectiveTip(msg, env), BurntPerGas(msg, env), BlobFee(msg, env));
      AllPaidOut(old(state.balances), state.balances, msg, env, gasRemaining, initialGas - gasRemaining);
    }

    // Everything up to running the message: the verdict, and what has been paid by then.
    method Admit() returns (err: Option<Error>)
      requires Ready() && gasRemaining == 0
      modifies this, gp`gas, state`balances
      ensures err == old(Verdict(msg, env, state.NonceOf(msg.from), msg.from in state.codes,
                                 BalanceOf(state.balances, msg.from), gp.gas))
      ensures if old(PreCheckError(msg, env, state.NonceOf(msg.from), msg.from in state.codes,
                                   BalanceOf(state.balances, msg.from), gp.gas)).Some?
              then err.Some? && unchanged(gp) && unchanged(state)
              else && gp.gas == old(gp.gas) - msg.gasLimit
                   && Total(state.balances) == Total(old(state.balances)) - Prepaid(msg, env)
      ensures err.None? ==>
                && gasRemaining + Charged(msg, env) == initialGas == msg.gasLimit
                && Prepaid(msg, env) < TWO_256
                && (!msg.skipAccountChecks ==> state.NonceOf(msg.from) < MAX_U64)
                && (env.london ==> BaseFee(msg, env).value <= msg.gasFeeCap < TWO_256)
    {
      err := PreCheck();
      if err.Some? {
        return;
      }
      CheckedCaps(msg, env, state.NonceOf(msg.from), msg.from in state.codes);
      err := TakeIntrinsicGas();
      if err.Some? {
        return;
      }
      // The balance was checked to cover fees and value together, so the transfer check cannot fail.
      assert msg.value < TWO_256 && CanTransfer(state.balances, msg.from, msg.value);
      if env.shanghai && msg.to.None? && |msg.data| > MAX_INIT_CODE_SIZE {
        return Some(MaxInitCodeSizeExceeded);
      }
    }

    // Execution and settlement of a message that has been admitted and has paid.
    method Run() returns (r: Outcome, ghost burnt: nat, ghost executed: Accounts)
      requires Priced(msg, env)
      requires env.london ==> env.baseFee.Some? && BaseFee(msg, env).value <= msg.gasFeeCap < TWO_256
      requires gasRemaining <= initialGas == msg.gasLimit && gp.gas + initialGas <= MAX_U64
      requires Total(state.balances) + Prepaid(msg, env) < TWO_256
      requires !msg.skipAccountChecks ==> state.NonceOf(msg.from) < MAX_U64
      modifies this, gp`gas, state
      ensures !r.Rejected? && (r.Panicked? <==> msg.gasPrice >= TWO_256)
      ensures r.Panicked? ==> !env.london && msg.gasLimit == 0
      ensures r.Applied? ==> Total(state.balances) <= Total(old(state.balances)) + Prepaid(msg, env)
      ensures r.Applied? ==>
                var used := r.result.usedGas;
                && used <= msg.gasLimit && gp.gas == old(gp.gas) + (msg.gasLimit - used)
                && Total(old(state.balances)) + Prepaid(msg, env) == Total(state.balances)
                   + burnt + used * BurntPerGas(msg, env) + (if env.parlia then 0 else BlobFee(msg, env))
      ensures r.Applied? ==>
                r.result.usedGas <= msg.gasLimit && PaidOut(executed, state.balances, msg, env, r.result.usedGas)
      ensures r.Applied? ==>
                && msg.gasLimit - old(gasRemaining) <= r.result.usedGas + r.result.refundedGas
                && (!msg.skipAccountChecks ==> state.NonceOf(msg.from) == old(state.NonceOf(msg.from)) + 1)
                && (!msg.skipAccountChecks ==> msg.from !in state.codes)
                && Undisturbed(old(state.nonces), old(state.codes), state.nonces, state.codes, msg.from)
                && r.result.refundedGas * (if env.london then 5 else 2) <= r.result.usedGas + r.result.refundedGas
    {
      var refundCounter, failed;
      refundCounter, failed, burnt := Execute();
      executed := state.balances;
      if msg.gasPrice >= TWO_256 {
        WidePriceIsFree(msg, env);
        return Panicked, burnt, executed;
      }
      var refund := Conclude(refundCounter);
      r := Applied(ExecutionResult(initialGas - gasRemaining, refund, failed));
    }

    // Apply the message. Wei is conserved: the total changes by what execution destroyed, the base
    // fee of the gas used, and the blob fee unless Parlia credits it back.
    method TransitionDb() returns (r: Outcome, ghost burnt: nat, ghost executed: Accounts)
      requires Ready() && gasRemaining == 0
      modifies this, gp`gas, state
      ensures old(Verdict(msg, env, state.NonceOf(msg.from), msg.from in state.codes,
                          BalanceOf(state.balances, msg.from), gp.gas))
              == if r.Rejected? then Some(r.error) else None
      ensures r.Rejected? ==>
                if old(PreCheckError(msg, env, state.NonceOf(msg.from), msg.from in state.codes,
                                     BalanceOf(state.balances, msg.from), gp.gas)).Some?
                then unchanged(gp) && unchanged(state)
                else && gp.gas == old(gp.gas) - msg.gasLimit
                     && Total(state.balances) == Total(old(state.balances)) - Prepaid(msg, env)
      ensures r.Applied? ==>
                var used := r.result.usedGas;
                && used <= msg.gasLimit <= old(gp.gas) && gp.gas == old(gp.gas) - used
                && Total(old(state.balances)) == Total(state.balances)
                   + burnt + used * BurntPerGas(msg, env) + (if env.parlia then 0 else BlobFee(msg, env))
      ensures r.Applied? ==> Total(state.balances) <= Total(old(state.balances))
      ensures !r.Rejected? ==> (r.Panicked? <==> msg.gasPrice >= TWO_256)
      ensures r.Panicked? ==> !env.london && msg.gasLimit == 0 == Charged(msg, env)
      ensures !r.Rejected? && !msg.skipAccountChecks ==>
                old(state.NonceOf(msg.from)) == msg.nonce && msg.from !in old(state.codes)
      ensures r.Applied? ==>
                r.result.usedGas <= msg.gasLimit && PaidOut(executed, state.balances, msg, env, r.result.usedGas)
      ensures r.Applied? ==>
                && Charged(msg, env) <= r.result.usedGas + r.result.refundedGas
                && (!msg.skipAccountChecks ==> state.NonceOf(msg.from) == old(state.NonceOf(msg.from)) + 1)
                && (!msg.skipAccountChecks ==> msg.from !in state.codes)
                && Undisturbed(old(state.nonces), old(state.codes), state.nonces, state.codes, msg.from)
                && r.result.refundedGas * (if env.london then 5 else 2) <= r.result.usedGas + r.result.refundedGas
    {
      burnt, executed := 0, state.balances;
      ghost var nonce, hasCode := state.NonceOf(msg.from), msg.from in state.codes;
      ghost var balance, pool := BalanceOf(state.balances, msg.from), gp.gas;
      var err := Admit();
      if err.Some? {
        return Rejected(err.value), burnt, executed;
      }
      AdmittedSender(msg, env, nonce, hasCode, balance, pool);
      r, burnt, executed := Run();
    }
  }
}
