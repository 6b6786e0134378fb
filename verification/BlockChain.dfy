/** Canonical block chain maintenance: reorg, writeHeadBlock and writeBlockAndSetHead keep
    the canonical index and the transaction lookup index equal to what the head block's
    ancestor path says they are. */
module BlockChains {
  import opened Options
  import opened ChainTree
  import opened TotalDifficulty
  import opened ForkChoices

  datatype Error = CurrentHeadMissing | InvalidOldChain | InvalidNewChain | ForkChoiceError(error: ForkError)

  type Lookup = map<TxHash, nat>

  ghost predicate Stored(s: Store, b: Block)
  {
    b.hash in s && s[b.hash] == b
  }

  ghost function Below(chain: seq<Block>, base: Block, i: nat): Block
    requires i < |chain|
  {
    if i + 1 < |chain| then chain[i + 1] else base
  }

  // `chain` lists the blocks from `head` down to, and excluding, `base`.
  ghost predicate Descends(s: Store, head: Block, chain: seq<Block>, base: Block)
  {
    && Stored(s, base)
    && (forall i | 0 <= i < |chain| :: Stored(s, chain[i]) && chain[i].number == base.number + |chain| - i)
    && (forall i | 0 <= i < |chain| :: chain[i].parent == Below(chain, base, i).hash)
    && head == (if chain == [] then base else chain[0])
  }

  lemma DescendsExtend(s: Store, head: Block, chain: seq<Block>, base: Block, parent: Block)
    requires Faithful(s) && Descends(s, head, chain, base) && GetParent(s, base) == Some(parent)
    ensures Descends(s, head, chain + [base], parent)
  {
    var longer := chain + [base];
    forall i | 0 <= i < |longer|
      ensures longer[i].parent == Below(longer, parent, i).hash
    {
      if i < |chain| {
        assert Below(longer, parent, i) == Below(chain, base, i);
      }
    }
  }

  lemma {:induction false} DescendsIsWalk(s: Store, head: Block, chain: seq<Block>, base: Block, k: nat)
    requires Descends(s, head, chain, base) && k <= |chain|
    ensures Ancestor(s, head.hash, k) == Some(if k < |chain| then chain[k].hash else base.hash)
    decreases k
  {
    if k == 0 {
    } else {
      DescendsIsWalk(s, head, chain, base, k - 1);
      AncestorStep(s, head.hash, k - 1);
      assert chain[k - 1].parent == Below(chain, base, k - 1).hash;
    }
  }

  ghost predicate SameGenesis(s: Store, a: Block, b: Block)
  {
    Ancestor(s, a.hash, a.number) == Ancestor(s, b.hash, b.number)
  }

  lemma DescendsGenesis(s: Store, head: Block, chain: seq<Block>, base: Block)
    requires Descends(s, head, chain, base)
    ensures Ancestor(s, head.hash, head.number) == Ancestor(s, base.hash, base.number)
  {
    DescendsIsWalk(s, head, chain, base, |chain|);
    AncestorCompose(s, head.hash, |chain|, base.number);
  }

  // The branches part right above the common ancestor: it is the nearest one.
  ghost predicate Forked(oldChain: seq<Block>, newChain: seq<Block>)
  {
    oldChain != [] && newChain != [] ==> oldChain[|oldChain| - 1].hash != newChain[|newChain| - 1].hash
  }

  // A parent is missing on the way down from `head`.
  ghost predicate Broken(s: Store, head: Block)
  {
    exists chain: seq<Block>, base: Block :: Descends(s, head, chain, base) && GetParent(s, base).None?
  }

  // Both cursors stand at the same height: step back with both until they meet.
  method WalkBoth(blocks: Store, oldHead: Block, newHead: Block, oldPart: seq<Block>, newPart: seq<Block>,
                  oldStart: Block, newStart: Block)
    returns (err: Option<Error>, common: Block, oldChain: seq<Block>, newChain: seq<Block>)
    requires Faithful(blocks) && oldStart.number == newStart.number
    requires Descends(blocks, oldHead, oldPart, oldStart) && Descends(blocks, newHead, newPart, newStart)
    requires oldPart == [] || newPart == []
    ensures err.None? ==> Forked(oldChain, newChain)
    ensures err.None? ==> Descends(blocks, oldHead, oldChain, common) && Descends(blocks, newHead, newChain, common)
    ensures err.Some? ==> (err.value.InvalidOldChain? && Broken(blocks, oldHead))
                          || (err.value.InvalidNewChain? && Broken(blocks, newHead))
    ensures Closed(blocks) ==> (err.None? <==> SameGenesis(blocks, oldHead, newHead))
  {
    oldChain, newChain := oldPart, newPart;
    var o, n := oldStart, newStart;
    while o.hash != n.hash
      invariant o.number == n.number && Forked(oldChain, newChain)
      invariant Descends(blocks, oldHead, oldChain, o) && Descends(blocks, newHead, newChain, n)
      decreases o.number
    {
      DescendsGenesis(blocks, oldHead, oldChain, o);
      DescendsGenesis(blocks, newHead, newChain, n);
      assert Closed(blocks) ==> ParentStored(blocks, o.hash) && ParentStored(blocks, n.hash);
      var po := GetParent(blocks, o);
      if po.None? {
        return Some(InvalidOldChain), o, oldChain, newChain;
      }
      var pn := GetParent(blocks, n);
      if pn.None? {
        return Some(InvalidNewChain), o, oldChain, newChain;
      }
      DescendsExtend(blocks, oldHead, oldChain, o, po.value);
      DescendsExtend(blocks, newHead, newChain, n, pn.value);
      oldChain, newChain := oldChain + [o], newChain + [n];
      o, n := po.value, pn.value;
    }
    DescendsGenesis(blocks, oldHead, oldChain, o);
    DescendsGenesis(blocks, newHead, newChain, n);
    err, common := None, o;
  }

  // One branch walked down to height `target`; None when a block on the way is missing.
  method WalkDown(blocks: Store, head: Block, target: nat) returns (chain: seq<Block>, at: Option<Block>)
    requires Faithful(blocks) && Stored(blocks, head) && target <= head.number
    ensures at.Some? ==> Descends(blocks, head, chain, at.value) && at.value.number == target
    ensures at.None? ==> Broken(blocks, head)
    ensures Closed(blocks) ==> at.Some?
  {
    chain, at := [], Some(head);
    while at.Some? && at.value.number != target
      invariant at.Some? ==> Descends(blocks, head, chain, at.value) && at.value.number >= target
      invariant at.None? ==> Broken(blocks, head)
      invariant Closed(blocks) ==> at.Some?
      decreases if at.Some? then at.value.number + 1 else 0
    {
      assert Closed(blocks) ==> ParentStored(blocks, at.value.hash);
      var p := GetParent(blocks, at.value);
      if p.Some? {
        DescendsExtend(blocks, head, chain, at.value, p.value);
      }
      chain, at := chain + [at.value], p;
    }
  }

  // The walking half of reorg: both branches down to the common ancestor.
  method FindFork(blocks: Store, oldHead: Block, newHead: Block)
    returns (err: Option<Error>, common: Block, oldChain: seq<Block>, newChain: seq<Block>)
    requires Faithful(blocks) && Stored(blocks, newHead) && (oldHead.hash in blocks ==> Stored(blocks, oldHead))
    ensures err.None? ==> Descends(blocks, oldHead, oldChain, common) && Descends(blocks, newHead, newChain, common)
    ensures err.None? ==> Forked(oldChain, newChain)
    ensures err == Some(CurrentHeadMissing) <==> !Stored(blocks, oldHead)
    ensures err == Some(InvalidOldChain) ==> Broken(blocks, oldHead)
    ensures err == Some(InvalidNewChain) ==> Broken(blocks, newHead)
    ensures err.Some? ==> !err.value.ForkChoiceError?
    ensures Closed(blocks) && Stored(blocks, oldHead) ==> (err.None? <==> SameGenesis(blocks, oldHead, newHead))
  {
    common, oldChain, newChain := newHead, [], [];
    var o, n := GetBlock(blocks, oldHead.hash, oldHead.number), Some(newHead);
    if o.None? {
      return Some(CurrentHeadMissing), common, oldChain, newChain;
    }
    if oldHead.number > newHead.number {
      oldChain, o := WalkDown(blocks, oldHead, newHead.number);
    } else {
      newChain, n := WalkDown(blocks, newHead, oldHead.number);
    }
    if o.None? {
      return Some(InvalidOldChain), common, oldChain, newChain;
    }
    if n.None? {
      return Some(InvalidNewChain), common, oldChain, newChain;
    }
    err, common, oldChain, newChain := WalkBoth(blocks, oldHead, newHead, oldChain, newChain, o.value, n.value);
  }

  // ---------------------------------------------------------------- transaction lookup

  function Entries(b: Block): Lookup
  {
    map t | t in b.txs :: b.number
  }

  function Txs(chain: seq<Block>): set<TxHash>
  {
    if chain == [] then {} else (set t | t in chain[0].txs) + Txs(chain[1..])
  }

  // t is a transaction of the block the index holds at height n.
  ghost predicate TxAt(s: Store, c: Index, n: nat, t: TxHash)
  {
    n in c && c[n] in s && t in s[c[n]].txs
  }

  // The lookup maps exactly the indexed transactions to their block numbers.
  ghost predicate LookupExact(s: Store, c: Index, lookup: Lookup)
  {
    && (forall t | t in lookup :: TxAt(s, c, lookup[t], t))
    && (forall n, t | TxAt(s, c, n, t) :: t in lookup && lookup[t] == n)
  }

  ghost predicate UniqueTxs(s: Store, c: Index)
  {
    forall m, n, t | TxAt(s, c, m, t) && TxAt(s, c, n, t) :: m == n
  }

  // A transaction occurs at most once on the branch of `head`.
  ghost predicate NoReplay(s: Store, head: Hash)
  {
    forall c: Index | IsPath(s, c, head) :: UniqueTxs(s, c)
  }

  // All that holds of a chain with this head.
  ghost predicate Sound(s: Store, td: TdTable, c: Index, lookup: Lookup, head: Block)
  {
    && Faithful(s) && Closed(s) && TdValid(s, td)
    && Stored(s, head)
    && IsPath(s, c, head.hash)
    && LookupExact(s, c, lookup)
  }

  lemma LookupGrows(s: Store, s': Store, c: Index, lookup: Lookup, h: Hash)
    requires IsPath(s, c, h) && LookupExact(s, c, lookup)
    requires forall x | x in s :: x in s' && s'[x] == s[x]
    ensures LookupExact(s', c, lookup)
  {
    forall t | t in lookup
      ensures TxAt(s', c, lookup[t], t)
    {
      assert TxAt(s, c, lookup[t], t);
    }
    forall n, t | TxAt(s', c, n, t)
      ensures t in lookup && lookup[t] == n
    {
      assert TxAt(s, c, n, t);
    }
  }

  lemma StoreKeepsSound(s: Store, td: TdTable, c: Index, lookup: Lookup, head: Block, b: Block)
    requires Sound(s, td, c, lookup, head) && Storable(s, b)
    requires ParentTd(s, td, b).Some?
    ensures Sound(s[b.hash := b], td[b.hash := ParentTd(s, td, b).value + b.difficulty], c, lookup, head)
  {
    StoreBlock(s, td, b, ParentTd(s, td, b).value);
    PathGrows(s, s[b.hash := b], c, head.hash);
    LookupGrows(s, s[b.hash := b], c, lookup, head.hash);
  }

  // The part of the chain the fork choice looks at.
  datatype View = View(blocks: Store, td: TdTable, head: Block)

  // One call of writeBlockAndSetHead: refused; or the block is stored and the head stays; or it
  // is stored, the fork choice wanted it, and it becomes the head.
  ghost predicate Step(cfg: Config, coin: bool, v: View, b: Block, v': View)
  {
    || v' == v
    || (&& ParentTd(v.blocks, v.td, b).Some?
        && v'.blocks == v.blocks[b.hash := b]
        && v'.td == v.td[b.hash := ParentTd(v.blocks, v.td, b).value + b.difficulty]
        && (v'.head == v.head
            || (v'.head == b && ReorgNeededWithFastFinality(cfg, v.blocks, v.td, v.head, b, coin) == Decided(true))))
  }

  lemma ExtendPath(s: Store, c: Index, head: Block, b: Block)
    requires IsPath(s, c, head.hash) && Stored(s, head) && Stored(s, b) && Closed(s)
    requires b.number > 0 && b.parent == head.hash
    ensures IsPath(s, c[b.number := b.hash], b.hash)
  {
    assert ParentStored(s, b.hash);
    AppendLink(s, c, b);
  }

  lemma ExtendLookup(s: Store, c: Index, lookup: Lookup, b: Block)
    requires LookupExact(s, c, lookup) && Stored(s, b)
    requires b.number !in c && UniqueTxs(s, c[b.number := b.hash])
    ensures LookupExact(s, c[b.number := b.hash], lookup + Entries(b))
  {
    var d := c[b.number := b.hash];
    var lk := lookup + Entries(b);
    forall t | t in lk
      ensures TxAt(s, d, lk[t], t)
    {
      if t !in b.txs {
        assert TxAt(s, c, lookup[t], t);
      }
    }
    forall n, t | TxAt(s, d, n, t)
      ensures t in lk && lk[t] == n
    {
      if t in b.txs {
        assert TxAt(s, d, b.number, t);
      } else {
        assert TxAt(s, c, n, t);
      }
    }
  }

  // Entries up to the fork height are untouched, the index is linked up to `top`, and the
  // heights above it are occupied as before.
  ghost predicate BranchWritten(s: Store, before: Index, c: Index, fork: nat, top: Block)
  {
    && fork <= top.number
    && LinkedUpTo(s, c, top.number)
    && c[top.number] == top.hash
    && (forall n: nat | n <= fork :: n in before && c[n] == before[n])
    && (forall n: nat | n > top.number :: n in c <==> n in before)
    && (forall n: nat | n > top.number && n in before :: c[n] == before[n])
  }

  lemma WrittenEntries(s: Store, before: Index, written: Index, fork: nat, top: Block, oldHead: Block)
    requires Faithful(s) && IsPath(s, before, oldHead.hash) && Stored(s, oldHead)
    requires BranchWritten(s, before, written, fork, top)
    ensures forall n | n in written :: written[n] != ZERO
    ensures forall n: nat | n > top.number :: n in written <==> n <= oldHead.number
  {
  }

  ghost function Top(chain: seq<Block>, base: Block, i: nat): Block
  {
    if i < |chain| then chain[i] else base
  }

  lemma ReorgPath(s: Store, before: Index, written: Index, newHead: Block, newChain: seq<Block>, common: Block)
    requires Descends(s, newHead, newChain, common)
    requires BranchWritten(s, before, written, common.number, Top(newChain, common, 1))
    ensures IsPath(s, UpTo(written, Top(newChain, common, 1).number)[newHead.number := newHead.hash], newHead.hash)
  {
    var top := Top(newChain, common, 1);
    var after := UpTo(written, top.number)[newHead.number := newHead.hash];
    if newChain != [] {
      assert newChain[0].parent == Below(newChain, common, 0).hash;
    }
    forall n: nat | 0 < n <= newHead.number
      ensures ParentLink(s, after, n)
    {
      if n <= top.number {
        assert ParentLink(s, written, n);
      }
    }
  }

  // `txs` is exactly the set of transactions the index holds at heights above lo up to hi.
  ghost predicate TxsBetween(s: Store, c: Index, txs: set<TxHash>, lo: nat, hi: nat)
  {
    && (forall t | t in txs :: exists n: nat :: lo < n <= hi && TxAt(s, c, n, t))
    && (forall n: nat, t | lo < n <= hi && TxAt(s, c, n, t) :: t in txs)
  }

  // The lookup is the old one plus `added`: the transactions at heights above `lo` up to `hi`.
  ghost predicate BranchIndexed(s: Store, c: Index, before: Lookup, lookup: Lookup, added: set<TxHash>, lo: nat,
      hi: nat)
  {
    && (forall t :: t in lookup <==> t in before || t in added)
    && (forall t | t in lookup && t !in added :: lookup[t] == before[t])
    && (forall t | t in added :: TxAt(s, c, lookup[t], t) && lo < lookup[t] <= hi)
    && (forall n, t | lo < n <= hi && TxAt(s, c, n, t) :: t in added)
  }

  // The three moments at which a reorg touches the lookup, seen together: additions while the
  // branch is written, the hash-difference deletion, and the new head block's own entries.
  lemma LookupAfterReorg(s: Store, before: Index, after: Index, lk0: Lookup, lk1: Lookup,
                         added: set<TxHash>, deleted: set<TxHash>, fork: nat, hi: nat, oldNumber: nat, newHead: Block)
    requires LookupExact(s, before, lk0) && UniqueTxs(s, after)
    requires Stored(s, newHead) && newHead.number in after && after[newHead.number] == newHead.hash
    requires forall n: nat | n in after :: n <= newHead.number
    requires forall n: nat | n <= fork :: n in before && n in after && after[n] == before[n]
    requires forall n: nat | n in before :: n <= oldNumber
    requires newHead.number <= hi + 1
    requires TxsBetween(s, before, deleted, fork, oldNumber)
    requires BranchIndexed(s, after, lk0, lk1, added, fork, hi)
    ensures LookupExact(s, after, (lk1 - (deleted - added)) + Entries(newHead))
  {
    var lk3 := (lk1 - (deleted - added)) + Entries(newHead);
    forall t | t in lk3
      ensures TxAt(s, after, lk3[t], t)
    {
      if t !in newHead.txs && t !in added {
        assert TxAt(s, before, lk0[t], t);
      }
    }
    forall n: nat, t | TxAt(s, after, n, t)
      ensures t in lk3 && lk3[t] == n
    {
      if t in newHead.txs {
        assert TxAt(s, after, newHead.number, t);
      } else if n > fork {
        assert TxAt(s, after, lk1[t], t);
      } else {
        assert TxAt(s, before, n, t);
      }
    }
  }

  lemma ReorgLookup(s: Store, before: Index, written: Index, lk0: Lookup, lk1: Lookup, added: set<TxHash>,
                    deleted: set<TxHash>, oldHead: Block, newHead: Block, newChain: seq<Block>, common: Block)
    requires LookupExact(s, before, lk0)
    requires UniqueTxs(s, UpTo(written, Top(newChain, common, 1).number)[newHead.number := newHead.hash])
    requires Descends(s, newHead, newChain, common) && IsPath(s, before, oldHead.hash) && Stored(s, oldHead)
    requires BranchWritten(s, before, written, common.number, Top(newChain, common, 1))
    requires BranchIndexed(s, written, lk0, lk1, added, common.number, Top(newChain, common, 1).number)
    requires TxsBetween(s, before, deleted, common.number, oldHead.number)
    ensures LookupExact(s, UpTo(written, Top(newChain, common, 1).number)[newHead.number := newHead.hash],
                        (lk1 - (deleted - added)) + Entries(newHead))
  {
    var top := Top(newChain, common, 1);
    var after := UpTo(written, top.number)[newHead.number := newHead.hash];
    ReorgPath(s, before, written, newHead, newChain, common);
    assert BranchIndexed(s, after, lk0, lk1, added, common.number, top.number) by {
      forall t | t in added
        ensures TxAt(s, after, lk1[t], t)
      {
        assert TxAt(s, written, lk1[t], t);
      }
      forall n: nat, t | common.number < n <= top.number && TxAt(s, after, n, t)
        ensures t in added
      {
        assert TxAt(s, written, n, t);
      }
    }
    LookupAfterReorg(s, before, after, lk0, lk1, added, deleted, common.number, top.number, oldHead.number, newHead);
  }

  lemma BranchTxsCons(s: Store, c: Index, head: Block, rest: set<TxHash>, lo: nat)
    requires Stored(s, head) && head.number in c && c[head.number] == head.hash && lo < head.number
    requires TxsBetween(s, c, rest, lo, head.number - 1)
    ensures TxsBetween(s, c, (set t | t in head.txs) + rest, lo, head.number)
  {
    forall t | t in head.txs
      ensures exists n: nat :: lo < n <= head.number && TxAt(s, c, n, t)
    {
      assert TxAt(s, c, head.number, t);
    }
  }

  lemma {:induction false} BranchTxs(s: Store, c: Index, head: Block, chain: seq<Block>, base: Block)
    requires Descends(s, head, chain, base)
    requires LinkedUpTo(s, c, head.number) && c[head.number] == head.hash
    ensures c[base.number] == base.hash
    ensures TxsBetween(s, c, Txs(chain), base.number, head.number)
    decreases |chain|
  {
    if chain == [] {
    } else {
      var next := Below(chain, base, 0);
      var rest := chain[1..];
      assert chain[0].parent == next.hash;
      assert ParentLink(s, c, head.number);
      forall i | 0 <= i < |rest|
        ensures rest[i].parent == Below(rest, base, i).hash
      {
        assert chain[i + 1].parent == Below(chain, base, i + 1).hash;
      }
      BranchTxs(s, c, next, rest, base);
      BranchTxsCons(s, c, head, Txs(rest), base.number);
    }
  }

  lemma BranchWrittenStep(s: Store, before: Index, c: Index, fork: nat, top: Block, b: Block)
    requires BranchWritten(s, before, c, fork, top)
    requires Stored(s, b) && b.number == top.number + 1 && b.parent == top.hash
    ensures BranchWritten(s, before, c[b.number := b.hash], fork, b)
  {
    AppendLink(s, c, b);
  }

  lemma BranchIndexedStep(s: Store, c: Index, before: Lookup, lookup: Lookup, added: set<TxHash>, lo: nat, b: Block)
    requires Stored(s, b) && b.number > lo
    requires BranchIndexed(s, c, before, lookup, added, lo, b.number - 1)
    ensures BranchIndexed(s, c[b.number := b.hash], before, lookup + Entries(b),
                          added + (set t | t in b.txs), lo, b.number)
  {
    var d := c[b.number := b.hash];
    forall n, t | lo < n <= b.number && TxAt(s, d, n, t)
      ensures t in added || t in b.txs
    {
      if n < b.number {
        assert TxAt(s, c, n, t);
      }
    }
    forall t | t in added && t !in b.txs
      ensures TxAt(s, d, (lookup + Entries(b))[t], t)
    {
      assert TxAt(s, c, lookup[t], t);
    }
  }

  // ---------------------------------------------------------------- the chain object

  class BlockChain {
    var blocks: Store
    var td: TdTable
    var canon: Index
    var lookup: Lookup
    var currentBlock: Block
    var currentHeader: Block
    var currentSnapBlock: Block

    // The chain in block-import mode: the three heads coincide, the index is the head's path,
    // the lookup is that path's transactions, and the difficulty table is valid.
    ghost predicate Valid()
      reads this
    {
      && currentHeader == currentSnapBlock == currentBlock
      && Sound(blocks, td, canon, lookup, currentBlock)
    }

    constructor (genesis: Block)
      requires genesis.number == 0 && genesis.hash != ZERO && genesis.parent == ZERO && genesis.txs == []
      ensures Valid() && currentBlock == genesis
      ensures blocks == map[genesis.hash := genesis] && td == map[genesis.hash := genesis.difficulty]
      ensures canon == map[0 := genesis.hash] && lookup == map[]
    {
      blocks, td := map[genesis.hash := genesis], map[genesis.hash := genesis.difficulty];
      canon, lookup := map[0 := genesis.hash], map[];
      currentBlock, currentHeader, currentSnapBlock := genesis, genesis, genesis;
      GenesisOnly(genesis);
    }

    // Enter the block in the index and its transactions in the lookup, and move all heads to it.
    method WriteHeadBlock(b: Block)
      modifies this`canon, this`lookup, this`currentBlock, this`currentHeader, this`currentSnapBlock
      ensures canon == old(canon)[b.number := b.hash]
      ensures lookup == old(lookup) + Entries(b)
      ensures currentBlock == currentHeader == currentSnapBlock == b
    {
      canon := canon[b.number := b.hash];
      lookup := lookup + Entries(b);
      currentHeader := b;
      currentSnapBlock := b;
      currentBlock := b;
    }

    // Write the new branch, all but its head, from the fork upwards.
    method WriteBranch(newHead: Block, newChain: seq<Block>, common: Block) returns (added: set<TxHash>)
      requires Faithful(blocks) && Descends(blocks, newHead, newChain, common)
      requires LinkedUpTo(blocks, canon, common.number) && canon[common.number] == common.hash
      modifies this`canon, this`lookup, this`currentBlock, this`currentHeader, this`currentSnapBlock
      ensures BranchWritten(blocks, old(canon), canon, common.number, Top(newChain, common, 1))
      ensures BranchIndexed(blocks, canon, old(lookup), lookup, added, common.number, Top(newChain, common, 1).number)
    {
      added := {};
      var i: nat := |newChain|;
      while i > 1
        invariant i <= |newChain| && (newChain != [] ==> 1 <= i)
        invariant BranchWritten(blocks, old(canon), canon, common.number, Top(newChain, common, i))
        invariant BranchIndexed(blocks, canon, old(lookup), lookup, added, common.number, Top(newChain, common,
            i).number)
      {
        i := i - 1;
        var b := newChain[i];
        BranchWrittenStep(blocks, old(canon), canon, common.number, Top(newChain, common, i + 1), b);
        BranchIndexedStep(blocks, canon, old(lookup), lookup, added, common.number, b);
        WriteHeadBlock(b);
        added := added + set t | t in b.txs;
      }
    }

    // The writing half of reorg, once the fork is known.
    method SwitchBranch(oldHead: Block, newHead: Block, oldChain: seq<Block>, newChain: seq<Block>, common: Block)
      requires Faithful(blocks) && Stored(blocks, oldHead) && IsPath(blocks, canon, oldHead.hash)
      requires Descends(blocks, oldHead, oldChain, common) && Descends(blocks, newHead, newChain, common)
      modifies this`canon, this`lookup, this`currentBlock, this`currentHeader, this`currentSnapBlock
      ensures IsPath(blocks, canon[newHead.number := newHead.hash], newHead.hash)
      ensures LookupExact(blocks, old(canon), old(lookup)) ==>
                (UniqueTxs(blocks, canon[newHead.number := newHead.hash]) <==>
                 LookupExact(blocks, canon[newHead.number := newHead.hash], lookup + Entries(newHead)))
    {
      var deleted := Txs(oldChain);
      BranchTxs(blocks, canon, oldHead, oldChain, common);
      var added := WriteBranch(newHead, newChain, common);
      ghost var written, indexed := canon, lookup;
      lookup := lookup - (deleted - added);
      var top := if |newChain| > 1 then newChain[1] else common;
      WrittenEntries(blocks, old(canon), written, common.number, top, oldHead);
      canon := DeleteMarkersAbove(canon, top.number, if oldHead.number > top.number
          then oldHead.number else top.number);
      ReorgPath(blocks, old(canon), written, newHead, newChain, common);
      if LookupExact(blocks, old(canon), old(lookup)) && UniqueTxs(blocks, canon[newHead.number := newHead.hash]) {
        ReorgLookup(blocks, old(canon), written, old(lookup), indexed, added, deleted, oldHead, newHead, newChain,
            common);
      }
    }

    // Make newHead's branch canonical, all but newHead itself, which WriteHeadBlock completes.
    method Reorg(oldHead: Block, newHead: Block) returns (err: Option<Error>)
      requires Faithful(blocks) && Stored(blocks, oldHead) && Stored(blocks, newHead)
      requires IsPath(blocks, canon, oldHead.hash)
      modifies this`canon, this`lookup, this`currentBlock, this`currentHeader, this`currentSnapBlock
      ensures err.Some? ==> unchanged(this)
      ensures err.Some? ==> (err.value.InvalidOldChain? && Broken(blocks, oldHead))
                            || (err.value.InvalidNewChain? && Broken(blocks, newHead))
      ensures Closed(blocks) ==> (err.None? <==> SameGenesis(blocks, oldHead, newHead))
      ensures err.None? ==> IsPath(blocks, canon[newHead.number := newHead.hash], newHead.hash)
      ensures err.None? && LookupExact(blocks, old(canon), old(lookup)) ==>
                (UniqueTxs(blocks, canon[newHead.number := newHead.hash]) <==>
                 LookupExact(blocks, canon[newHead.number := newHead.hash], lookup + Entries(newHead)))
    {
      var common, oldChain, newChain;
      err, common, oldChain, newChain := FindFork(blocks, oldHead, newHead);
      if err.None? {
        SwitchBranch(oldHead, newHead, oldChain, newChain, common);
      }
    }

    ghost function Summary(): View
      reads this
    {
      View(blocks, td, currentBlock)
    }

    // Write the block's total difficulty and the block, as one batch.
    method WriteBlockWithState(b: Block) returns (err: Option<Error>)
      requires Valid() && Storable(blocks, b)
      modifies this`blocks, this`td
      ensures err == if ParentTd(old(blocks), old(td), b).None? then Some(ForkChoiceError(UnknownAncestor)) else None
      ensures Valid()
      ensures err.Some? ==> unchanged(this)
      ensures err.None? ==> blocks == old(blocks)[b.hash := b]
      ensures err.None? ==> td == old(td)[b.hash := ParentTd(old(blocks), old(td), b).value + b.difficulty]
    {
      var ptd := ParentTd(blocks, td, b);
      if ptd.None? {
        err := Some(ForkChoiceError(UnknownAncestor));
      } else {
        StoreKeepsSound(blocks, td, canon, lookup, currentBlock, b);
        td := td[b.hash := ptd.value + b.difficulty];
        blocks := blocks[b.hash := b];
        err := None;
        assert Valid();
      }
    }

    // Make a stored block the head: reorg unless it extends the current head, then write it.
    method WriteKnownBlock(b: Block) returns (err: Option<Error>)
      requires Valid() && Stored(blocks, b) && NoReplay(blocks, b.hash)
      modifies this`canon, this`lookup, this`currentBlock, this`currentHeader, this`currentSnapBlock
      ensures Valid()
      ensures err.None? <==> SameGenesis(blocks, old(currentBlock), b)
      ensures err.None? ==> currentBlock == b
      ensures err.Some? ==> unchanged(this)
    {
      if b.parent != currentBlock.hash {
        err := Reorg(currentBlock, b);
        if err.Some? {
          return;
        }
      } else {
        assert ParentStored(blocks, b.hash);
        ExtendPath(blocks, canon, currentBlock, b);
        ExtendLookup(blocks, canon, lookup, b);
        err := None;
      }
      WriteHeadBlock(b);
    }

    // Ask the fork choice, store the block, and move the head when told to.
    method WriteBlockAndSetHead(cfg: Config, b: Block, coin: bool) returns (err: Option<Error>)
      requires Valid() && Storable(blocks, b) && NoReplay(blocks[b.hash := b], b.hash)
      modifies this
      ensures Valid()
      ensures Step(cfg, coin, old(Summary()), b, Summary())
      ensures var d := old(ReorgNeededWithFastFinality(cfg, blocks, td, currentBlock, b, coin));
              && (err.None? <==> d.Decided? && old(ParentTd(blocks, td, b)).Some?
                                 && (d.reorg ==> SameGenesis(blocks, old(currentBlock), b)))
              && (err.None? ==> Stored(blocks, b) && currentBlock == if d.reorg then b else old(currentBlock))
              && (err.Some? ==> currentBlock == old(currentBlock))
              && (d.Refused? ==> err == Some(ForkChoiceError(d.error)) && unchanged(this))
    {
      var d := ReorgNeededWithFastFinality(cfg, blocks, td, currentBlock, b, coin);
      if d.Refused? {
        return Some(ForkChoiceError(d.error));
      }
      err := WriteBlockWithState(b);
      if err.None? && d.reorg {
        err := WriteKnownBlock(b);
      }
    }
  }

  datatype SideResult = Written | GhostState

  // One block of a side chain. A canonical block's total difficulty comes from the table, a side
  // block's from its predecessor's; what is missing is stored; a foreign block carrying the
  // canonical state root is refused.
  method WriteSideBlock(canonical: Option<Block>, s0: Store, t0: TdTable, b: Block, carried: Option<nat>)
    returns (s: Store, t: TdTable, result: SideResult, externTd: Option<nat>)
    requires Faithful(s0) && Closed(s0) && TdValid(s0, t0) && Storable(s0, b)
    requires canonical.Some? ==> Stored(s0, canonical.value)
    requires ParentTd(s0, t0, b).Some? && (carried.Some? ==> carried == ParentTd(s0, t0, b))
    ensures Faithful(s) && Closed(s) && TdValid(s, t)
    ensures result == GhostState <==>
              canonical.Some? && canonical.value.hash != b.hash && canonical.value.root == b.root
    ensures result == GhostState ==> s == s0 && t == t0 && externTd == carried
    ensures result == Written ==> s == s0[b.hash := b] && externTd == GetTd(s, t, b.hash, b.number) && externTd.Some?
  {
    s, t, result, externTd := s0, t0, Written, carried;
    StoreBlock(s0, t0, b, ParentTd(s0, t0, b).value);
    if canonical.Some? && canonical.value.hash == b.hash {
      assert s0[b.hash := b] == s0;
      externTd := GetTd(s0, t0, b.hash, b.number);
      return;
    }
    if canonical.Some? && canonical.value.root == b.root {
      result := GhostState;
      return;
    }
    if externTd.None? {
      externTd := ParentTd(s0, t0, b);
    }
    externTd := Some(externTd.value + b.difficulty);
    if b.hash !in s0 {
      s, t := s0[b.hash := b], t0[b.hash := externTd.value];
    } else {
      assert s0[b.hash := b] == s0;
    }
  }

  // The first n blocks of the batch are stored, and externTd is the total difficulty of the last.
  ghost predicate SideState(blocks: Store, td: TdTable, batch: seq<Block>, n: nat, s: Store, t: TdTable,
      externTd: Option<nat>)
  {
    && n <= |batch| && Faithful(s) && Closed(s) && TdValid(s, t)
    && s == StoreAll(blocks, batch[..n])
    && (n == 0 ==> externTd.None? && t == td)
    && (n > 0 ==> Stored(s, batch[n - 1]) && externTd.Some?
                  && externTd == GetTd(s, t, batch[n - 1].hash, batch[n - 1].number))
  }

  lemma SideStorable(before: Store, s: Store, t: TdTable, batch: seq<Block>, i: nat)
    requires i < |batch| && Contiguous(batch) && (forall j | 0 <= j < |batch| :: Genuine(before, batch[j]))
    requires s == StoreAll(before, batch[..i]) && TdValid(s, t)
    requires i == 0 ==> ParentTd(s, t, batch[0]).Some?
    requires i > 0 ==> Stored(s, batch[i - 1])
    ensures Storable(s, batch[i]) && ParentTd(s, t, batch[i]).Some?
    ensures i > 0 ==> ParentTd(s, t, batch[i]) == GetTd(s, t, batch[i - 1].hash, batch[i - 1].number)
    ensures StoreAll(before, batch[..i + 1]) == s[batch[i].hash := batch[i]]
    ensures forall h | h in before :: h in s && s[h] == before[h]
  {
    StoreAllElsewhere(before, batch[..i], batch[i].hash);
    assert batch[..i + 1][..i] == batch[..i];
    if i > 0 {
      NextParentTd(s, t, batch, i);
    }
    PrefixContiguous(batch, i);
    BatchStored(before, batch[..i]);
  }

  method NextSideBlock(blocks: Store, td: TdTable, batch: seq<Block>, i: nat, canonical: Option<Block>,
                       s0: Store, t0: TdTable, carried: Option<nat>)
    returns (s: Store, t: TdTable, result: SideResult, externTd: Option<nat>)
    requires i < |batch| && SideState(blocks, td, batch, i, s0, t0, carried)
    requires Contiguous(batch) && (forall j | 0 <= j < |batch| :: Genuine(blocks, batch[j]))
    requires ParentTd(blocks, td, batch[0]).Some? && (canonical.Some? ==> Stored(blocks, canonical.value))
    ensures result == GhostState <==>
              canonical.Some? && canonical.value.hash != batch[i].hash && canonical.value.root == batch[i].root
    ensures result == GhostState ==> s == s0 && t == t0 && externTd == carried
    ensures result == Written ==> SideState(blocks, td, batch, i + 1, s, t, externTd)
  {
    SideStorable(blocks, s0, t0, batch, i);
    s, t, result, externTd := WriteSideBlock(canonical, s0, t0, batch[i], carried);
  }

  // The block's state root is that of another block, the canonical one at its height.
  ghost predicate ForeignState(s: Store, c: Index, b: Block)
  {
    b.number in c && c[b.number] in s && s[c[b.number]].hash != b.hash && s[c[b.number]].root == b.root
  }

  // The canonical block at b's height, if there is one.
  function CanonicalAt(blocks: Store, canon: Index, current: Block, b: Block): (canonical: Option<Block>)
    requires Faithful(blocks) && Stored(blocks, current) && IsPath(blocks, canon, current.hash)
    ensures canonical.Some? ==> Stored(blocks, canonical.value)
    ensures ForeignState(blocks, canon, b) <==>
              canonical.Some? && canonical.value.hash != b.hash && canonical.value.root == b.root
  {
    if b.number <= current.number then Some(blocks[canon[b.number]]) else None
  }

  // The writing loop of insertSideChain: it goes on as long as the verifier reports a pruned
  // ancestor. `pruned[i]` is the verdict on batch[i].
  method WriteSideBlocks(blocks: Store, td: TdTable, canon: Index, current: Block, batch: seq<Block>, pruned: seq<bool>)
    returns (s: Store, t: TdTable, result: SideResult, processed: nat, externTd: Option<nat>)
    requires Faithful(blocks) && Closed(blocks) && TdValid(blocks, td)
    requires Stored(blocks, current) && IsPath(blocks, canon, current.hash)
    requires Contiguous(batch) && (forall i | 0 <= i < |batch| :: Genuine(blocks, batch[i]))
    requires batch != [] && ParentTd(blocks, td, batch[0]).Some?
    requires |pruned| == |batch| && pruned[0]
    ensures Faithful(s) && Closed(s) && TdValid(s, t)
    ensures processed <= |batch| && s == StoreAll(blocks, batch[..processed])
    ensures result == Written ==> processed > 0
    ensures processed > 0 ==>
              externTd.Some? && externTd == GetTd(s, t, batch[processed - 1].hash, batch[processed - 1].number)
    ensures result == GhostState <==> processed < |batch| && pruned[processed]
    ensures result == GhostState ==> ForeignState(blocks, canon, batch[processed])
    ensures forall i | 0 <= i < processed :: pruned[i] && !ForeignState(blocks, canon, batch[i])
  {
    s, t, result, processed, externTd := blocks, td, Written, 0, None;
    while processed < |batch| && pruned[processed]
      invariant result == Written && SideState(blocks, td, batch, processed, s, t, externTd)
      invariant forall i | 0 <= i < processed :: pruned[i] && !ForeignState(blocks, canon, batch[i])
    {
      var canonical := CanonicalAt(blocks, canon, current, batch[processed]);
      s, t, result, externTd := NextSideBlock(blocks, td, batch, processed, canonical, s, t, externTd);
      if result == GhostState {
        return;
      }
      processed := processed + 1;
    }
  }

  ghost predicate ViewValid(v: View)
  {
    Faithful(v.blocks) && Closed(v.blocks) && TdValid(v.blocks, v.td) && Stored(v.blocks, v.head)
  }

  // The later head scores at least as much as the earlier one.
  ghost predicate NoWorse(cfg: Config, v: View, v': View)
  {
    && v.head.hash in v.td && v'.head.hash in v'.td
    && ScoreLeq(Justified(cfg, v.head), v.td[v.head.hash], Justified(cfg, v'.head), v'.td[v'.head.hash])
  }

  // The total difficulty the fork choice compared is the one then stored, so a step of the
  // chain never lowers the head's score, whatever the coin returned.
  lemma StepMonotone(cfg: Config, coin: bool, v: View, b: Block, v': View)
    requires cfg.posa && cfg.ttd.None?
    requires ViewValid(v) && Storable(v.blocks, b) && Step(cfg, coin, v, b, v')
    ensures ViewValid(v') && NoWorse(cfg, v, v')
  {
    if v' != v {
      StoreBlock(v.blocks, v.td, b, ParentTd(v.blocks, v.td, b).value);
    }
  }

  ghost predicate RunStep(cfg: Config, coins: seq<bool>, views: seq<View>, bs: seq<Block>, k: nat)
  {
    && k < |bs| && k + 1 < |views| && k < |coins|
    && Storable(views[k].blocks, bs[k]) && Step(cfg, coins[k], views[k], bs[k], views[k + 1])
  }

  // A run: each view follows from the one before by importing one block.
  ghost predicate IsRun(cfg: Config, coins: seq<bool>, views: seq<View>, bs: seq<Block>)
  {
    && |views| == |bs| + 1 && |coins| == |bs|
    && ViewValid(views[0])
    && (forall k: nat {:trigger RunStep(cfg, coins, views, bs, k)} | k < |bs| :: RunStep(cfg, coins, views, bs, k))
  }

  // Over any sequence of writeBlockAndSetHead calls the head's (justified number, total
  // difficulty) never decreases.
  lemma {:induction false} RunMonotone(cfg: Config, coins: seq<bool>, views: seq<View>, bs: seq<Block>, i: nat, j: nat)
    requires cfg.posa && cfg.ttd.None?
    requires IsRun(cfg, coins, views, bs) && i <= j < |views|
    ensures ViewValid(views[j]) && NoWorse(cfg, views[i], views[j])
    decreases j
  {
    if j == 0 {
    } else {
      var k := j - 1;
      RunMonotone(cfg, coins, views, bs, if i < j then i else k, k);
      assert RunStep(cfg, coins, views, bs, k);
      StepMonotone(cfg, coins[k], views[k], bs[k], views[j]);
    }
  }
}
