/** Processing the transactions of a block: pool and receipt accounting over the whole block, and
    the split into common and system transactions. */
module StateProcessors {
  import opened Options
  import opened Gas
  import opened Balances
  import opened StateTransitions

  // `from` is the recovered sender, None when the signature is bad; `system` is the engine's
  // verdict, None when it fails.
  datatype Tx = Tx(
    fee: Fee, from: Option<Address>, to: Option<Address>, nonce: u64, value: nat, gas: u64,
    data: seq<byte>, accessKeys: seq<nat>, blobHashes: Option<seq<nat>>, blobGasFeeCap: nat, system: Option<bool>)

  // The price is the most the caps allow: the fee cap, or less where tip and base fee stay below it.
  function ToMessage(tx: Tx, baseFee: Option<nat>): (m: Option<Message>)
    ensures m.None? <==> tx.from.None?
    ensures m.Some? ==>
              var msg := m.value;
              && tx.from == Some(msg.from) && msg.to == tx.to && msg.nonce == tx.nonce && msg.value == tx.value
              && msg.gasLimit == tx.gas && msg.data == tx.data && !msg.skipAccountChecks
              && msg.accessKeys == tx.accessKeys && msg.blobHashes == tx.blobHashes
              && msg.blobGasFeeCap == tx.blobGasFeeCap
              && (match tx.fee
                  case Fixed(price) => msg.gasFeeCap == msg.gasTipCap == price
                  case Dynamic(tip, cap) => msg.gasFeeCap == cap && msg.gasTipCap == tip)
              && msg.gasPrice <= msg.gasFeeCap
              && (baseFee.Some? ==> msg.gasPrice <= msg.gasTipCap + baseFee.value)
              && (msg.gasPrice == msg.gasFeeCap || (baseFee.Some? && msg.gasPrice == msg.gasTipCap + baseFee.value))
  {
    if tx.from.None? then None
    else Some(Message(tx.from.value, tx.to, tx.nonce, tx.value, tx.gas,
                      EffectivePrice(tx.fee, baseFee), FeeCap(tx.fee), TipCap(tx.fee),
                      tx.data, tx.accessKeys, tx.blobHashes, tx.blobGasFeeCap, false))
  }

  datatype Receipt = Receipt(cumulativeGasUsed: u64, gasUsed: u64, failed: bool)

  datatype BlockError = EngineError | NormalTxAfterSystemTx | BadSender | NotApplied(error: Error) | PricePanic

  // What the loop has accumulated.
  datatype Progress = Progress(usedGas: u64, receipts: seq<Receipt>, commonTxs: seq<Tx>, systemTxs: seq<Tx>)

  ghost function GasSum(receipts: seq<Receipt>): nat
  {
    if receipts == [] then 0 else GasSum(receipts[..|receipts| - 1]) + receipts[|receipts| - 1].gasUsed
  }

  // Each receipt's cumulative gas is the sum of the gas used up to and including it.
  ghost predicate PrefixSums(receipts: seq<Receipt>)
  {
    forall i | 0 <= i < |receipts| :: receipts[i].cumulativeGasUsed == GasSum(receipts[..i + 1])
  }

  ghost predicate IsSystem(posa: bool, tx: Tx)
  {
    posa && tx.system == Some(true)
  }

  // The transactions of one kind, in block order.
  ghost function Select(txs: seq<Tx>, posa: bool, system: bool): seq<Tx>
  {
    if txs == [] then []
    else
      var n := |txs| - 1;
      Select(txs[..n], posa, system) + if IsSystem(posa, txs[n]) == system then [txs[n]] else []
  }

  // The pool and the gas used make up the block's limit; the receipts account for all of it.
  ghost predicate Balanced(p: Progress, gasLimit: nat, pool: nat)
  {
    && pool + p.usedGas == gasLimit
    && p.usedGas == GasSum(p.receipts) && PrefixSums(p.receipts)
    && |p.receipts| == |p.commonTxs|
  }

  // The progress after an ordinary transaction with its receipt.
  function WithReceipt(p: Progress, tx: Tx, r: Receipt): Progress
  {
    p.(usedGas := r.cumulativeGasUsed, receipts := p.receipts + [r], commonTxs := p.commonTxs + [tx])
  }

  lemma ReceiptAdded(p: Progress, r: Receipt, tx: Tx, gasLimit: nat, pool: nat, pool': nat)
    requires Balanced(p, gasLimit, pool)
    requires r.gasUsed <= pool && pool' == pool - r.gasUsed && r.cumulativeGasUsed == p.usedGas + r.gasUsed
    ensures Balanced(WithReceipt(p, tx, r), gasLimit, pool')
  {
    var rs := p.receipts + [r];
    assert rs[..|rs| - 1] == p.receipts;
    forall i | 0 <= i < |rs|
      ensures rs[i].cumulativeGasUsed == GasSum(rs[..i + 1])
    {
      if i < |p.receipts| {
        assert rs[..i + 1] == p.receipts[..i + 1];
      } else {
        assert rs[..i + 1] == rs;
      }
    }
  }

  // The base fee burnt per gas in a block, as long as base fees are not switched off.
  function BaseBurn(env: Env): nat
    requires env.london ==> env.baseFee.Some?
  {
    if env.london then env.baseFee.value else 0
  }

  // What a transaction pays for its blobs from Cancun on: 131072 gas each, at the blob base fee.
  ghost function BlobFeeOf(tx: Tx, env: Env): nat
  {
    if env.cancun && tx.blobHashes.Some?
    then Times(|tx.blobHashes.value| * 131072 % 0x1_0000_0000_0000_0000, env.blobBaseFee) else 0
  }

  // The blob fees of a list of transactions.
  ghost function BlobFees(txs: seq<Tx>, env: Env): nat
  {
    if txs == [] then 0 else BlobFees(txs[..|txs| - 1], env) + BlobFeeOf(txs[|txs| - 1], env)
  }

  lemma BlobFeeIsCharged(tx: Tx, env: Env)
    requires tx.from.Some? && !env.noBaseFee
    ensures BlobFee(ToMessage(tx, env.baseFee).value, env) == BlobFeeOf(tx, env)
  {
  }

  // The wei there was is what is left, what execution destroyed, the base fee of all gas used, and
  // the blob fees unless Parlia credits them back.
  ghost predicate Conserved(env: Env, before: nat, after: nat, p: Progress, destroyed: nat)
    requires env.london ==> env.baseFee.Some?
  {
    before == after + destroyed + Times(p.usedGas, BaseBurn(env)) + if env.parlia then 0 else BlobFees(p.commonTxs, env)
  }

  lemma Distribute(a: nat, b: nat, c: nat)
    ensures (a + b) * c == a * c + b * c
  {
  }

  lemma ConservedStep(env: Env, before: nat, now: nat, after: nat, p: Progress, r: Receipt, tx: Tx,
                      destroyed: nat, burnt: nat)
    requires (env.london ==> env.baseFee.Some?) && tx.from.Some? && !env.noBaseFee
    requires Conserved(env, before, now, p, destroyed)
    requires now == after + burnt + r.gasUsed * BaseBurn(env)
                    + if env.parlia then 0 else BlobFee(ToMessage(tx, env.baseFee).value, env)
    requires r.cumulativeGasUsed == p.usedGas + r.gasUsed
    ensures Conserved(env, before, after, WithReceipt(p, tx, r), destroyed + burnt)
  {
    var p' := WithReceipt(p, tx, r);
    assert p'.commonTxs[..|p.commonTxs|] == p.commonTxs;
    Distribute(p.usedGas, r.gasUsed, BaseBurn(env));
    BlobFeeIsCharged(tx, env);
  }

  lemma ConservedStart(env: Env, before: nat)
    requires env.london ==> env.baseFee.Some?
    ensures Conserved(env, before, before, Progress(0, [], [], []), 0)
  {
  }

  lemma ConservedBound(env: Env, before: nat, after: nat, p: Progress, destroyed: nat)
    requires (env.london ==> env.baseFee.Some?) && Conserved(env, before, after, p, destroyed)
    ensures after <= before
  {
  }

  // The nonce that must follow the transactions of a sender, if there are any.
  ghost function NextNonce(txs: seq<Tx>, a: Address): Option<nat>
  {
    if txs == [] then None
    else
      var last := txs[|txs| - 1];
      if last.from == Some(a) then Some(last.nonce + 1) else NextNonce(txs[..|txs| - 1], a)
  }

  // The state follows the transactions applied: their senders' nonces are the next ones, and they
  // have no code.
  ghost predicate Tracked(txs: seq<Tx>, nonces: map<Address, u64>, codes: set<Address>)
  {
    forall a | NextNonce(txs, a).Some? :: NonceIn(nonces, a) == NextNonce(txs, a).value && a !in codes
  }

  // Every transaction carries the nonce that follows those of its sender before it.
  ghost predicate InSequence(txs: seq<Tx>)
  {
    txs == [] ||
    var front, last := txs[..|txs| - 1], txs[|txs| - 1];
    && InSequence(front) && last.from.Some?
    && (NextNonce(front, last.from.value).Some? ==> NextNonce(front, last.from.value).value == last.nonce)
  }

  lemma {:induction false} NextNoncePositive(txs: seq<Tx>, a: Address)
    ensures NextNonce(txs, a).Some? ==> NextNonce(txs, a).value > 0
  {
    if txs == [] {
    } else {
      NextNoncePositive(txs[..|txs| - 1], a);
    }
  }

  lemma SequenceStep(txs: seq<Tx>, tx: Tx, nonces: map<Address, u64>, codes: set<Address>,
                     nonces': map<Address, u64>, codes': set<Address>)
    requires Tracked(txs, nonces, codes) && InSequence(txs) && tx.from.Some?
    requires NonceIn(nonces, tx.from.value) == tx.nonce && NonceIn(nonces', tx.from.value) == tx.nonce + 1
    requires tx.from.value !in codes' && Undisturbed(nonces, codes, nonces', codes', tx.from.value)
    ensures Tracked(txs + [tx], nonces', codes') && InSequence(txs + [tx])
  {
    var more := txs + [tx];
    assert more[..|txs|] == txs;
    forall a | NextNonce(more, a).Some?
      ensures NonceIn(nonces', a) == NextNonce(more, a).value && a !in codes'
    {
      if tx.from != Some(a) {
        assert NextNonce(more, a) == NextNonce(txs, a);
        NextNoncePositive(txs, a);
      }
    }
  }

  // The transactions of one sender carry consecutive nonces: position j follows position i when no
  // other of that sender lies between them.
  ghost predicate Follows(txs: seq<Tx>, i: nat, j: nat)
  {
    i < j < |txs| && txs[i].from == txs[j].from && forall k | i < k < j :: txs[k].from != txs[i].from
  }

  ghost predicate Consecutive(txs: seq<Tx>)
  {
    forall i: nat, j: nat | Follows(txs, i, j) :: txs[j].nonce == txs[i].nonce + 1
  }

  lemma {:induction false} LastOfSender(txs: seq<Tx>, i: nat, j: nat)
    requires i < j <= |txs| && txs[i].from.Some? && forall k | i < k < j :: txs[k].from != txs[i].from
    ensures NextNonce(txs[..j], txs[i].from.value) == Some(txs[i].nonce + 1)
    decreases j
  {
    assert txs[..j][..j - 1] == txs[..j - 1];
    if j == i + 1 {
    } else {
      LastOfSender(txs, i, j - 1);
    }
  }

  lemma {:induction false} SequencePrefix(txs: seq<Tx>, j: nat)
    requires InSequence(txs) && j <= |txs|
    ensures InSequence(txs[..j])
    decreases |txs|
  {
    if j == |txs| {
      assert txs[..j] == txs;
    } else {
      SequencePrefix(txs[..|txs| - 1], j);
      assert txs[..|txs| - 1][..j] == txs[..j];
    }
  }

  lemma SequenceIsConsecutive(txs: seq<Tx>)
    requires InSequence(txs)
    ensures Consecutive(txs)
  {
    forall i: nat, j: nat | Follows(txs, i, j)
      ensures txs[j].nonce == txs[i].nonce + 1
    {
      SequencePrefix(txs, j + 1);
      assert txs[..j + 1][..j] == txs[..j];
      LastOfSender(txs, i, j);
    }
  }

  datatype TxResult = Made(receipt: Receipt) | Refused(error: Error) | Crashed

  // Apply one transaction and make its receipt.
  method ApplyTransaction(msg: Message, env: Env, gp: GasPool, state: StateDB, usedGas: u64)
    returns (r: TxResult, ghost burnt: nat, ghost outcome: Outcome)
    requires Priced(msg, env) && !msg.skipAccountChecks && !env.noBaseFee && (env.london ==> env.baseFee.Some?)
    requires |msg.data| <= MAX_U64
    requires Total(state.balances) < TWO_256 && usedGas + gp.gas <= MAX_U64
    modifies gp`gas, state
    ensures old(Verdict(msg, env, state.NonceOf(msg.from), msg.from in state.codes,
                        BalanceOf(state.balances, msg.from), gp.gas))
            == if r.Refused? then Some(r.error) else None
    ensures !r.Refused? ==> (r.Crashed? <==> msg.gasPrice >= TWO_256)
    ensures r.Made? ==>
              && outcome.Applied?
              && r.receipt.gasUsed == outcome.result.usedGas && r.receipt.failed == outcome.result.failed
    ensures r.Made? ==>
              && r.receipt.gasUsed <= msg.gasLimit && r.receipt.gasUsed <= old(gp.gas)
              && gp.gas == old(gp.gas) - r.receipt.gasUsed
              && r.receipt.cumulativeGasUsed == usedGas + r.receipt.gasUsed
              && Total(old(state.balances)) == Total(state.balances) + burnt
                 + r.receipt.gasUsed * BaseBurn(env) + (if env.parlia then 0 else BlobFee(msg, env))
              && old(state.NonceOf(msg.from)) == msg.nonce && state.NonceOf(msg.from) == msg.nonce + 1
              && msg.from !in state.codes
              && Undisturbed(old(state.nonces), old(state.codes), state.nonces, state.codes, msg.from)
  {
    var st := new StateTransition(msg, env, gp, state);
    ghost var executed;
    var applied;
    applied, burnt, executed := st.TransitionDb();
    outcome := applied;
    match applied {
      case Rejected(error) => r := Refused(error);
      case Panicked => r := Crashed;
      case Applied(result) => r := Made(Receipt(usedGas + result.usedGas, result.usedGas, result.failed));
    }
  }

  datatype StepResult = Continue(progress: Progress) | Fail(error: BlockError)

  lemma MessageIsPriced(tx: Tx, env: Env)
    requires tx.from.Some?
    ensures Priced(ToMessage(tx, env.baseFee).value, env)
  {
    var f := tx.fee;
    assert FeeCap(f) == ToMessage(tx, env.baseFee).value.gasFeeCap;
  }

  // What stops the loop at an ordinary transaction: the verdict on it, or a price too wide.
  ghost function CommonError(msg: Message, env: Env, state: StateDB, pool: nat): Option<BlockError>
    requires env.london ==> env.baseFee.Some?
    reads state
  {
    var e := Verdict(msg, env, state.NonceOf(msg.from), msg.from in state.codes,
                     BalanceOf(state.balances, msg.from), pool);
    if e.Some? then Some(NotApplied(e.value)) else if msg.gasPrice >= TWO_256 then Some(PricePanic) else None
  }

  // What stops the loop at a transaction, given the system transactions seen so far.
  ghost function TxError(tx: Tx, env: Env, posa: bool, state: StateDB, pool: nat,
      systemTxs: seq<Tx>): Option<BlockError>
    requires env.london ==> env.baseFee.Some?
    reads state
  {
    if posa && tx.system.None? then Some(EngineError)
    else if IsSystem(posa, tx) then None
    else if env.cancun && systemTxs != [] then Some(NormalTxAfterSystemTx)
    else if tx.from.None? then Some(BadSender)
    else CommonError(ToMessage(tx, env.baseFee).value, env, state, pool)
  }

  // The error is about this transaction.
  ghost predicate Blames(tx: Tx, posa: bool, cancun: bool, systemTxs: seq<Tx>, error: BlockError)
  {
    match error
    case EngineError => posa && tx.system.None?
    case BadSender => tx.from.None?
    case NormalTxAfterSystemTx => cancun && systemTxs != [] && !IsSystem(posa, tx)
    case NotApplied(_) | PricePanic => tx.from.Some? && !IsSystem(posa, tx)
  }

  // An ordinary transaction is applied and its receipt added.
  method ProcessCommon(tx: Tx, msg: Message, env: Env, gp: GasPool, state: StateDB, p: Progress,
                       ghost gasLimit: u64, ghost before: nat, ghost destroyed: nat)
    returns (r: StepResult, ghost destroyed': nat)
    requires !env.noBaseFee && (env.london ==> env.baseFee.Some?) && |tx.data| <= MAX_U64
    requires ToMessage(tx, env.baseFee) == Some(msg)
    requires Balanced(p, gasLimit, gp.gas) && before < TWO_256
    requires Tracked(p.commonTxs, state.nonces, state.codes) && InSequence(p.commonTxs)
    requires Conserved(env, before, Total(state.balances), p, destroyed)
    modifies gp`gas, state
    ensures old(CommonError(msg, env, state, gp.gas)) == if r.Fail? then Some(r.error) else None
    ensures r.Continue? ==>
              && Balanced(r.progress, gasLimit, gp.gas)
              && Conserved(env, before, Total(state.balances), r.progress, destroyed')
              && r.progress.commonTxs == p.commonTxs + [tx] && r.progress.systemTxs == p.systemTxs
              && Tracked(r.progress.commonTxs, state.nonces, state.codes) && InSequence(r.progress.commonTxs)
  {
    destroyed' := destroyed;
    ghost var nonces, codes := state.nonces, state.codes;
    MessageIsPriced(tx, env);
    ghost var pool, now := gp.gas, Total(state.balances);
    ConservedBound(env, before, now, p, destroyed);
    var result;
    ghost var burnt, outcome;
    result, burnt, outcome := ApplyTransaction(msg, env, gp, state, p.usedGas);
    match result {
      case Refused(error) => r := Fail(NotApplied(error));
      case Crashed => r := Fail(PricePanic);
      case Made(receipt) =>
        ReceiptAdded(p, receipt, tx, gasLimit, pool, gp.gas);
        ConservedStep(env, before, now, Total(state.balances), p, receipt, tx, destroyed, burnt);
        SequenceStep(p.commonTxs, tx, nonces, codes, state.nonces, state.codes);
        destroyed' := destroyed + burnt;
        r := Continue(WithReceipt(p, tx, receipt));
    }
  }

  // The engine could tell the kind of the transaction, and an ordinary one has a sender.
  ghost predicate KindKnown(posa: bool, tx: Tx)
  {
    (posa ==> tx.system.Some?) && (!IsSystem(posa, tx) ==> tx.from.Some?)
  }

  ghost predicate KindsKnown(posa: bool, txs: seq<Tx>)
  {
    forall k | 0 <= k < |txs| :: KindKnown(posa, txs[k])
  }

  lemma KindsKnownStep(posa: bool, txs: seq<Tx>, i: nat)
    requires i < |txs| && KindsKnown(posa, txs[..i]) && KindKnown(posa, txs[i])
    ensures KindsKnown(posa, txs[..i + 1])
  {
    assert txs[..i + 1] == txs[..i] + [txs[i]];
  }

  // One turn of the transaction loop.
  method ProcessTx(tx: Tx, env: Env, posa: bool, gp: GasPool, state: StateDB, p: Progress,
                   ghost gasLimit: u64, ghost before: nat, ghost destroyed: nat)
    returns (r: StepResult, ghost destroyed': nat)
    requires !env.noBaseFee && (env.london ==> env.baseFee.Some?) && |tx.data| <= MAX_U64
    requires Balanced(p, gasLimit, gp.gas) && before < TWO_256
    requires Tracked(p.commonTxs, state.nonces, state.codes) && InSequence(p.commonTxs)
    requires Conserved(env, before, Total(state.balances), p, destroyed)
    modifies gp`gas, state
    ensures old(TxError(tx, env, posa, state, gp.gas, p.systemTxs)) == if r.Fail? then Some(r.error) else None
    ensures r.Fail? ==> Blames(tx, posa, env.cancun, p.systemTxs, r.error)
    ensures r.Continue? ==>
              && Balanced(r.progress, gasLimit, gp.gas)
              && Conserved(env, before, Total(state.balances), r.progress, destroyed')
              && (if IsSystem(posa, tx)
                  then r.progress == p.(systemTxs := p.systemTxs + [tx]) && gp.gas == old(gp.gas)
                  else r.progress.commonTxs == p.commonTxs + [tx] && r.progress.systemTxs == p.systemTxs)
              && (env.cancun && !IsSystem(posa, tx) ==> p.systemTxs == [])
              && KindKnown(posa, tx)
              && Tracked(r.progress.commonTxs, state.nonces, state.codes) && InSequence(r.progress.commonTxs)
  {
    destroyed' := destroyed;
    if posa {
      if tx.system.None? {
        return Fail(EngineError), destroyed;
      }
      if tx.system.value {
        return Continue(p.(systemTxs := p.systemTxs + [tx])), destroyed;
      }
    }
    if env.cancun && |p.systemTxs| > 0 {
      return Fail(NormalTxAfterSystemTx), destroyed;
    }
    var msg := ToMessage(tx, env.baseFee);
    if msg.None? {
      return Fail(BadSender), destroyed;
    }
    r, destroyed' := ProcessCommon(tx, msg.value, env, gp, state, p, gasLimit, before, destroyed);
  }

  // The two lists are the block's transactions of either kind, in order, and from Cancun on they
  // put together are the block's transactions.
  ghost predicate SplitsInto(txs: seq<Tx>, posa: bool, cancun: bool, p: Progress)
  {
    && p.commonTxs == Select(txs, posa, false) && p.systemTxs == Select(txs, posa, true)
    && (cancun ==> p.commonTxs + p.systemTxs == txs)
  }

  lemma SplitStep(txs: seq<Tx>, i: nat, posa: bool, cancun: bool, p: Progress, p': Progress)
    requires i < |txs| && SplitsInto(txs[..i], posa, cancun, p)
    requires if IsSystem(posa, txs[i])
             then p'.commonTxs == p.commonTxs && p'.systemTxs == p.systemTxs + [txs[i]]
             else && p'.commonTxs == p.commonTxs + [txs[i]] && p'.systemTxs == p.systemTxs
                  && (cancun ==> p.systemTxs == [])
    ensures SplitsInto(txs[..i + 1], posa, cancun, p')
  {
    assert txs[..i + 1][..i] == txs[..i] && txs[..i + 1] == txs[..i] + [txs[i]];
  }

  // A system transaction was seen exactly when the list of them is not empty.
  lemma {:induction false} SeenSystemTx(txs: seq<Tx>, posa: bool)
    ensures Select(txs, posa, true) != [] <==> exists i | 0 <= i < |txs| :: IsSystem(posa, txs[i])
  {
    if txs == [] {
    } else {
      var n := |txs| - 1;
      SeenSystemTx(txs[..n], posa);
      assert forall i | 0 <= i < n :: txs[..n][i] == txs[i];
    }
  }

  // What a refused block contains.
  ghost predicate Explained(txs: seq<Tx>, posa: bool, cancun: bool, error: BlockError)
  {
    match error
    case EngineError => posa && exists i | 0 <= i < |txs| :: txs[i].system.None?
    case BadSender => exists i | 0 <= i < |txs| :: txs[i].from.None?
    case NormalTxAfterSystemTx =>
      cancun && exists i, j | 0 <= i < j < |txs| :: IsSystem(posa, txs[i]) && !IsSystem(posa, txs[j])
    case NotApplied(_) | PricePanic => exists i | 0 <= i < |txs| :: txs[i].from.Some? && !IsSystem(posa, txs[i])
  }

  lemma FailureExplained(txs: seq<Tx>, i: nat, posa: bool, cancun: bool, p: Progress, error: BlockError)
    requires i < |txs| && SplitsInto(txs[..i], posa, cancun, p) && Blames(txs[i], posa, cancun, p.systemTxs, error)
    ensures Explained(txs, posa, cancun, error)
  {
    SeenSystemTx(txs[..i], posa);
    if p.systemTxs != [] {
      var k :| 0 <= k < i && IsSystem(posa, txs[..i][k]);
      assert IsSystem(posa, txs[k]);
    }
  }

  // One turn, seen from the whole list.
  method ProcessNext(txs: seq<Tx>, i: nat, env: Env, posa: bool, gp: GasPool, state: StateDB, p: Progress,
                     ghost gasLimit: u64, ghost before: nat, ghost destroyed: nat)
    returns (r: StepResult, ghost destroyed': nat)
    requires !env.noBaseFee && (env.london ==> env.baseFee.Some?) && i < |txs| && |txs[i].data| <= MAX_U64
    requires Balanced(p, gasLimit, gp.gas) && before < TWO_256
    requires Conserved(env, before, Total(state.balances), p, destroyed) && SplitsInto(txs[..i], posa, env.cancun, p)
    requires Tracked(p.commonTxs, state.nonces, state.codes) && InSequence(p.commonTxs) && KindsKnown(posa, txs[..i])
    modifies gp`gas, state
    ensures r.Fail? ==> Explained(txs, posa, env.cancun, r.error)
    ensures r.Continue? ==>
              && Balanced(r.progress, gasLimit, gp.gas)
              && Conserved(env, before, Total(state.balances), r.progress, destroyed')
              && SplitsInto(txs[..i + 1], posa, env.cancun, r.progress)
              && KindsKnown(posa, txs[..i + 1])
              && Tracked(r.progress.commonTxs, state.nonces, state.codes) && InSequence(r.progress.commonTxs)
  {
    r, destroyed' := ProcessTx(txs[i], env, posa, gp, state, p, gasLimit, before, destroyed);
    if r.Fail? {
      FailureExplained(txs, i, posa, env.cancun, p, r.error);
    } else {
      SplitStep(txs, i, posa, env.cancun, p, r.progress);
      KindsKnownStep(posa, txs, i);
    }
  }

  // The transaction loop.
  method ProcessTxs(txs: seq<Tx>, env: Env, posa: bool, gp: GasPool, state: StateDB, ghost gasLimit: u64)
    returns (r: StepResult, ghost destroyed: nat)
    requires !env.noBaseFee && (env.london ==> env.baseFee.Some?)
    requires forall i | 0 <= i < |txs| :: |txs[i].data| <= MAX_U64
    requires Total(state.balances) < TWO_256 && gp.gas == gasLimit
    modifies gp`gas, state
    ensures r.Fail? ==> Explained(txs, posa, env.cancun, r.error)
    ensures r.Continue? ==>
              && Balanced(r.progress, gasLimit, gp.gas)
              && Conserved(env, Total(old(state.balances)), Total(state.balances), r.progress, destroyed)
              && SplitsInto(txs, posa, env.cancun, r.progress)
              && InSequence(r.progress.commonTxs) && KindsKnown(posa, txs)
  {
    var p := Progress(0, [], [], []);
    ghost var before := Total(state.balances);
    destroyed := 0;
    ConservedStart(env, before);
    var i := 0;
    while i < |txs|
      modifies gp`gas, state
      invariant 0 <= i <= |txs|
      invariant Balanced(p, gasLimit, gp.gas)
      invariant Conserved(env, before, Total(state.balances), p, destroyed)
      invariant SplitsInto(txs[..i], posa, env.cancun, p)
      invariant KindsKnown(posa, txs[..i])
      invariant Tracked(p.commonTxs, state.nonces, state.codes) && InSequence(p.commonTxs)
    {
      r, destroyed := ProcessNext(txs, i, env, posa, gp, state, p, gasLimit, before, destroyed);
      if r.Fail? {
        return;
      }
      p := r.progress;
      i := i + 1;
    }
    assert txs[..|txs|] == txs;
    return Continue(p), destroyed;
  }

  // All transactions of a block. The gas pool never panics, and on success nothing is lost: the
  // gas used and the rest of the pool make up the limit, the receipts are prefix sums, the two
  // transaction lists are the block's, which from Cancun on it is simply split in two, and wei is
  // conserved over the whole block.
  method Process(txs: seq<Tx>, env: Env, posa: bool, gasLimit: u64, state: StateDB)
    returns (r: StepResult, ghost destroyed: nat)
    requires !env.noBaseFee && (env.london ==> env.baseFee.Some?)
    requires forall i | 0 <= i < |txs| :: |txs[i].data| <= MAX_U64
    requires Total(state.balances) < TWO_256
    modifies state
    ensures r.Fail? ==> Explained(txs, posa, env.cancun, r.error)
    ensures r.Continue? ==>
              && r.progress.usedGas == GasSum(r.progress.receipts) <= gasLimit && PrefixSums(r.progress.receipts)
              && |r.progress.receipts| == |r.progress.commonTxs|
              && SplitsInto(txs, posa, env.cancun, r.progress)
              && Conserved(env, Total(old(state.balances)), Total(state.balances), r.progress, destroyed)
              && Consecutive(r.progress.commonTxs) && KindsKnown(posa, txs)
  {
    var gp: GasPool := new GasPool();
    gp.AddGas(gasLimit);
    r, destroyed := ProcessTxs(txs, env, posa, gp, state, gasLimit);
    if r.Continue? {
      SequenceIsConsecutive(r.progress.commonTxs);
    }
  }
}
