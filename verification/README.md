# Verified model of the BSC client's chain core

This project models the part of the BNB Smart Chain client that decides what the chain is and what a block
does to the state, and proves that it keeps its own promises:

- **canonical chain**: block and header reorganisation, fork choice, total difficulty, rewinding, ancestor
  lookup, trie garbage collection (`core/blockchain.go`, `core/headerchain.go`, `core/forkchoice.go`,
  `core/evm.go`);
- **section index**: the background chain indexer (`core/chain_indexer.go`);
- **event feed**: the one-to-many feed that all of this is announced on (`event/feed.go`, and
  `event/feedof.go`, which is the same algorithm over a generic channel type);
- **state transition**: gas, fees and balances of a message and of a whole block
  (`core/state_transition.go`, `core/state_processor.go`, `core/gaspool.go`).

Verify with `dafny verify dfyconfig.toml`.

## How it is put together

| file | what it holds |
|---|---|
| `Options.dfy` | the optional value |
| `Chain.dfy` | the block tree, the number to hash index, `IsPath` (the index is exactly the ancestor path of a head) and its reference definition by the plain parent walk |
| `TotalDifficulty.dfy` | the total-difficulty table and what storing a block or a batch does to it |
| `ForkChoice.dfy` | the fork choice rule and its order |
| `BlockChain.dfy` | reorg, writing blocks and heads, side chains; runs of block imports |
| `HeaderChain.dfy` | header batches and header reorg |
| `Rewind.dfy` | the search for a block with state, and setting the head back |
| `AncestorLookup.dfy` | `GetAncestor` and the `BLOCKHASH` cache against the plain walk |
| `TrieGc.dfy` | the queue of tries kept in memory |
| `ChainIndexer.dfy` | the indexer as a step relation with its invariant, then the indexer object |
| `FeedProtocol.dfy`, `Feed.dfy` | the feed as a protocol over all interleavings, then the feed over an array |
| `Gas.dfy`, `Balances.dfy` | 64-bit gas, 256-bit balances and their total |
| `StateTransition.dfy`, `StateProcessor.dfy` | one message, and all transactions of a block |

Objects the code updates in place are classes; each method is proved equal to a function of the old state
or against an invariant, and the theorems are lemmas about those functions. Goroutines become steps: the
turns of the indexer's loops and the feed's subscribe, unsubscribe and send interleave freely.

Assumptions, all visible as preconditions or in an invariant:

- Lookup by hash is faithful (`Faithful`): a block stored under a hash has that hash, no two blocks share
  one (`Genuine`), and none is the zero hash. The justified number is a fixed attribute of a block.
- Where a theorem says so, the store contains the parents of what it contains (`Closed`). `reorg` and
  `HeaderChain.Reorg` are also specified without it: then they may fail, with nothing written.
- `BlockChain.Valid` is block-import mode, where the three head markers coincide.
- The transaction lookup can be exact only where no transaction occurs twice on a branch. `Reorg` proves
  that this is the only condition; the importing methods ask it of the branch of the block they import
  (`NoReplay`), where executing the block has checked nonces.
- Block numbers are unbounded. Database batches are atomic.
- Fees: the total of all balances fits 256 bits, and a message is priced as `TransactionToMessage` prices it,
  with account checks or without, with base fees or without (`core/vm/evm.go:150-163` then lowers the base
  fees a message sees). Execution may move value, destroy balances, deploy code, use gas and build up any
  refund counter. It takes a checked sender's nonce one step, and leaves every other account that has a nonce
  and no code with that nonce and without code. Whole blocks are processed with base fees.

Four promises turned out not to hold without a condition. Each has the exact condition and a concrete case:

- `GetAncestor` answers for the zero hash above the index, because an absent index entry reads as the zero
  hash (`ZeroHashAboveIndex`, `ZeroHashExample`).
- Setting the head leaves headers above it when the head already meets the target, since only the loop
  wipes leftovers and it does not run (`SetHead`, `TallerSideBranch`).
- `IntrinsicGas` adds the access list without overflow checks, so it is the true cost only where that fits
  64 bits (`IntrinsicGas`, `AccessListWraps`). No transaction that can be decoded is large enough for that.
- The chain indexer's stored section heads form one linked chain in every run in which `Reset` does not fail
  (`RunWithoutFailedReset`). After a failed `Reset` all sections are dropped without the lock
  (`core/chain_indexer.go:393-394`). Turn by turn of the loops, the promise then breaks exactly when such a
  turn takes a section from under a lock holder (`BrokenExactlyByUndercut`): `newHead` stores a count without
  heads (`ResetRace`), or `Sections` hands out the head of an earlier section than the last one it counts
  (`ReportRace`). This exactness is for whole turns: inside a turn the two loops also race on the words of the
  count, where both can pass the test and both decrement, and the model does not go down to that. The bundled
  bloom backend fails `Reset` only for section sizes that are not a multiple of 8
  (`core/bloom_indexer.go:61-65`), and its size is 4096.

Besides, the check of the transfer balance in `TransitionDb` (clause 6 in its comment) can never fail:
buying gas has already asked for fees at the caps and the value together. `Verdict` has no clause for it. And
`refundGas` panics on a price of more than 256 bits, which takes a message without gas that is charged none,
by an access list wrapping to exactly zero before London (`TransitionDb`, outcome `Panicked`;
`WidePricePasses` is such a message).

## Model

| member | source | states |
|---|---|---|
| `ChainTree.PathIsAncestorWalk` | core/headerchain.go:157-221 | An index is exactly the path of a head if and only if it tabulates the plain parent walk from that head at every height and nothing else. |
| `ChainTree.PathUnique` | core/headerchain.go:157-221 | A head has one canonical index: two indexes that are its path are equal. |
| `ChainTree.DeleteMarkersAbove` | core/blockchain.go:2635-2645 | Deleting markers upwards until the first gap removes exactly the entries above the given number, on an index without gaps above it. |
| `TotalDifficulty.TdIsPathDifficulty` | core/headerchain.go:227-279 | The difficulty table's entry of a block is the sum of all difficulties from genesis to it. |
| `TotalDifficulty.StoreBlock` | core/blockchain.go:1652-1671 | Storing a block with its parent's total difficulty plus its own keeps the store faithful and closed and the table valid, and rewrites a known block's entry to the same value. |
| `TotalDifficulty.StoreStep` | core/headerchain.go:241-268 | Staging the next header of a batch keeps all that, and for a header already stored writing and skipping come to the same. |
| `TotalDifficulty.BatchStored` | core/headerchain.go:227-279 | After a batch every header of it is stored and nothing stored before has changed. |
| `TotalDifficulty.GenesisOnly` | core/genesis.go:498-504 | A chain of just its genesis block satisfies every chain invariant. |
| `ForkChoices.DecisionFollowsScore` | core/forkchoice.go:84-164 | Whatever the coin returns, a block with a higher (justified number, total difficulty) is always taken and one with a lower never. |
| `ForkChoices.OnlyTheCoinFlipFlops` | core/forkchoice.go:84-164 | Two blocks can each be preferred over the other if and only if the rule comes down to the coin: equal score, height and time, different producers, neither one's own. |
| `ForkChoices.JustifiedFirst` | core/forkchoice.go:142-164 | Under Parlia the higher justified number, which counts from the Plato block on, decides alone in either direction; otherwise the difficulty rule does. |
| `ForkChoices.RefusedExactly` | core/forkchoice.go:84-112 | Which of the two errors is returned and exactly when; otherwise the larger total difficulty wins, the external one being its table entry or its parent's plus its own, and the terminal difficulty decides before that. |
| `ForkChoices.TieBreakOrder` | core/forkchoice.go:112-139 | At equal total difficulty the order of the rules, each in both directions: lower height, own block kept, own block taken, earlier time, lower hash for a double sign, and only then the coin. |
| `BlockChains.FindFork` | core/blockchain.go:2528-2579 | Both branches are listed down to their nearest common ancestor; each error says which head is not stored or which branch breaks off; on a closed store it succeeds if and only if both heads have the same genesis. |
| `BlockChains.WalkDown` | core/blockchain.go:2534-2554 | The longer branch is listed, parent by parent, down to the other's height, or some ancestor of the head has no parent; on a closed store it never fails. |
| `BlockChains.WalkBoth` | core/blockchain.go:2555-2579 | From equal heights both walks meet at the nearest common ancestor, or the error names a branch on which a parent is missing. |
| `BlockChains.DescendsIsWalk` | core/blockchain.go:2534-2579 | Position k of a listed branch is the k-th ancestor of its head. |
| `BlockChains.BlockChain.constructor` | core/genesis.go:498-504 | A new chain holds exactly its genesis block, its difficulty and its index entry, and is valid. |
| `BlockChains.BlockChain.WriteHeadBlock` | core/blockchain.go:1178-1216 | The index, the lookup and the three head markers after adding a block to the canonical chain. |
| `BlockChains.BlockChain.WriteBranch` | core/blockchain.go:2610-2620 | After writing the new branch but its head, the index is linked up to there, untouched below the fork and above, and the lookup has gained exactly the branch's transactions. |
| `BlockChains.BlockChain.SwitchBranch` | core/blockchain.go:2604-2651 | The writing half of reorg, completed by the head block: the index is exactly the new head's path, and the lookup is exact if and only if no transaction repeats on it. |
| `BlockChains.BlockChain.Reorg` | core/blockchain.go:2519-2651 | Whichever branch is longer, a successful reorg completed by the head block leaves the index exactly the new head's path and turns an exact lookup into an exact lookup, the latter if and only if no transaction repeats on the new path; on a closed store it succeeds if and only if the heads share a genesis; an error names a branch on which a parent is missing and leaves everything unchanged. |
| `BlockChains.LookupAfterReorg` | core/blockchain.go:2612-2631 | Additions while the branch is written, the hash-difference deletion and the head's own entries, taken together, give exactly the new canonical transactions. |
| `BlockChains.BranchTxs` | core/blockchain.go:2536-2567 | The deleted transactions are exactly those the old index holds above the fork. |
| `BlockChains.BlockChain.WriteBlockWithState` | core/blockchain.go:1652-1671 | The block and its total difficulty are stored, or the ancestor is unknown and nothing is; the chain stays valid. |
| `BlockChains.BlockChain.WriteKnownBlock` | core/blockchain.go:1639-1648 | A stored block becomes the head and the chain stays valid, or, if and only if it has another genesis, nothing changes. |
| `BlockChains.BlockChain.WriteBlockAndSetHead` | core/blockchain.go:1812-1840 | One import keeps the chain valid, is a step of the run model, succeeds exactly when the fork choice decides, the parent is known and a wanted block has the same genesis, and moves the head exactly when the fork choice says so; where the fork choice refuses, its error is returned and nothing changes. |
| `BlockChains.StepMonotone` | core/blockchain.go:1812-1840 | One import never lowers the head's (justified number, total difficulty), because the difficulty compared is the one stored. |
| `BlockChains.RunMonotone` | core/blockchain.go:1812-1840 | Over any sequence of imports and any coin flips, a later head never scores less than an earlier one. |
| `BlockChains.WriteSideBlock` | core/blockchain.go:2314-2357 | One side-chain block: stored with a total difficulty that keeps the table valid, or refused if and only if it carries the canonical block's state root without being that block. |
| `BlockChains.WriteSideBlocks` | core/blockchain.go:2313-2358 | Over a batch mixing canonical and side blocks the table stays valid, exactly the processed prefix is stored, the running difficulty is the table's entry of the last one, and it stops exactly at a block not reported as pruned or at the first one with foreign state. |
| `HeaderChains.RelinkBackwards` | core/headerchain.go:180-198 | From the first header back to the cross link stale entries are rewritten until the index is linked; it fails only where a parent is missing. |
| `HeaderChains.AssignBatch` | core/headerchain.go:200-211 | Assigning the batch its heights makes the index the path of its last header. |
| `HeaderChains.HeaderChain.constructor` | core/genesis.go:498-504 | A new header chain holds exactly its genesis header, its difficulty and its index entry, and is valid. |
| `HeaderChains.HeaderChain.Reorg` | core/headerchain.go:157-221 | Either an error with index and head unchanged, never on a closed store, or the index is exactly the path of the batch's last header, which is the head; extending and switching alike. |
| `HeaderChains.StageHeaders` | core/headerchain.go:235-268 | The staged store is the old one with the batch, the difficulty table stays valid, and the count is that of a suffix: everything after the known prefix. |
| `HeaderChains.StageNext` | core/headerchain.go:241-268 | Writing the next header, or skipping it when it and all before it are known, stages exactly one more header with its total difficulty. |
| `HeaderChains.KnownPrefix` | core/headerchain.go:241-268 | The number of headers at the start of a batch that are all stored, and the next one is not. |
| `HeaderChains.HeaderChain.WriteHeaders` | core/headerchain.go:227-279 | The exact error, with nothing written; otherwise the whole batch is stored, with valid difficulties, and what is reported as inserted is what follows the known prefix. |
| `HeaderChains.HeaderChain.ChooseHead` | core/headerchain.go:303-323 | Over a stored batch the fork choice never refuses; the status and the head follow its decision, and the head's score does not fall. |
| `HeaderChains.HeaderChain.WriteHeadersAndSetHead` | core/headerchain.go:288-324 | The index is the head's path whatever happens; the head moves exactly when the fork choice wants the batch and it is not canonical already; the status is canonical exactly then, and side exactly when the batch is not wanted and holds a header that was not stored; the head's score does not fall. |
| `Rewind.RewindHashHead` | core/blockchain.go:720-793 | The result is genesis or the highest ancestor-or-self with state, not below the pivot or without one not more than 90000 below the head, and at or below a block carrying the requested root: every higher one in reach and past the root lacks its state; the root number is the highest examined height carrying it. |
| `Rewind.SearchDown` | core/blockchain.go:745-793 | The loop finds the highest eligible block or falls to genesis, and the highest height carrying the root. |
| `Rewind.EligibleOnFields` | core/blockchain.go:741-789 | A height is eligible if and only if its state is there, it is not below the pivot or without one not more than 90000 below the head, and the root was met at or above it. |
| `Rewind.LeftoverHeights` | core/headerchain.go:687-695 | The heights above the head that hold headers, up to the first one that holds none. |
| `Rewind.NothingAboveGap` | core/headerchain.go:687-695 | In a closed store nothing lies above an empty height, so stopping at the first gap misses nothing. |
| `Rewind.ChainHeads.constructor` | core/genesis.go:498-504 | A new chain holds exactly its genesis header, its difficulty and its index entry, with all markers at it, and is valid. |
| `Rewind.ChainHeads.UpdateMarkers` | core/blockchain.go:922-992 | Both block markers are ancestors-or-self of the new header head; the full-block marker stays or becomes the highest eligible block; the snap marker stays, or falls to the new head or genesis; the rewind is forced on exactly below the frozen blocks and not below the pivot. |
| `Rewind.ChainHeads.RewindOnce` | core/headerchain.go:651-715 | Every turn lowers the header head by one, moves both block markers exactly and keeps them on its path, re-targets exactly when forced, and collects exactly the headers of the height left, and on the first turn all above it. |
| `Rewind.ChainHeads.RewindLoop` | core/headerchain.go:645-715 | The loop ends, with exactly the headers and index entries above the new head collected, and where it and the markers end is as for `SetHead`, literally too. |
| `Rewind.ChainHeads.Flush` | core/headerchain.go:698-719 | Deleting what was collected leaves headers, difficulties and index exactly as they were up to the new head, and the chain valid. |
| `Rewind.ChainHeads.SetHead` | core/headerchain.go:626-724 | In block, timestamp and forced mode: the chain ends valid; what remains is exactly what was stored up to the new head; that is the first header to meet the target (the asked number or the old head below it, or the highest header not later than the asked time), or one further down that is frozen and not below the pivot; a block head left frozen, not below the pivot and below the target is where the header head ends; a block marker that was moved is genesis or has state within reach; both block markers end exactly where `FinalHeight` and the bodies on the way put them; no header is left above the head if and only if the loop ran or none was there before. |
| `Rewind.ProgressStep` | core/headerchain.go:651-715 | One turn keeps track of where the markers and the target stand relative to where the rewind began. |
| `Rewind.FinalHeightStep` | core/headerchain.go:651-715 | Turn by turn, rewinding the full-block marker whenever it is not below the header head, it comes to the height defined by jumping from where it stands to where that rewinds it. |
| `Rewind.FinalWithinReach` | core/blockchain.go:720-793 | The height those jumps end at is genesis or holds a block with state, not below the pivot or without one not more than 90000 below the new head. |
| `Rewind.EndsOnFields` | core/headerchain.go:626-715 | Where the rewind stops, in terms of the asked number or time and of the frozen blocks and the pivot alone. |
| `Rewind.RewindEnds` | core/headerchain.go:645-715 | When a target is met, the progress made so far gives everything `SetHead` says about head and markers. |
| `Rewind.FinalIsHighest` | core/blockchain.go:720-793 | Without a root to cross, those jumps end at the highest eligible block at or below the new head, or at genesis. |
| `Rewind.SettledIsHighest` | core/blockchain.go:922-992 | Without a root to cross, a full-block marker that was moved and did not fall to genesis is the highest eligible block at or below the new head, wherever on the way it was last moved. |
| `Rewind.TallerSideBranch` | core/headerchain.go:645-715 | A valid chain whose head meets the target and which keeps a header above it, with a side branch that the fork choice declines block by block. |
| `AncestorLookup.GetAncestor` | core/headerchain.go:444-476 | Any answer is the true n-th ancestor with its number, if and only if the zero hash was not asked for above the index; the counter bounds the walk off the canonical chain; on a closed store a sufficient counter always yields an answer. |
| `AncestorLookup.WalkToCanonical` | core/headerchain.go:455-475 | The same for the loop with the canonical short cut. |
| `AncestorLookup.ZeroHashExample` | core/headerchain.go:455-462 | A one-block chain on which the zero hash gets an ancestor that does not exist. |
| `AncestorLookup.HashLookup.constructor` | core/evm.go:93-98 | A lookup starts with an empty, valid cache. |
| `AncestorLookup.HashLookup.GetHash` | core/evm.go:93-129 | For any sequence of queries the cache lists the ancestors nearest first, every answer equals a fresh parent walk or is the zero hash, and the fill loop stops. |
| `TrieGc.TrieQueue.Commit` | core/blockchain.go:1694-1773 | References held are the queue's roots, with multiplicity; after a commit exactly the entries above the collected height remain. |
| `TrieGc.TrieQueue.Release` | core/blockchain.go:1757-1771 | Everything up to the chosen height is released and nothing above it. |
| `TrieGc.TrieQueue.Pop` | common/prque/prque.go:47-52 | The popped entry has the lowest block number and leaves the queue, once. |
| `TrieGc.TrieQueue.Stop` | core/blockchain.go:1300-1302 | Each remaining reference is released exactly once: none is left. |
| `TrieGc.RootsOfWithout` | core/blockchain.go:1757-1771 | Taking an entry out takes its root out of the held references once, wherever it stands. |
| `ChainIndexers.VerifyLastKeepsLinks` | core/chain_indexer.go:423-430 | Dropping sections from the top keeps the remaining heads linked, and the last one left is canonical. |
| `ChainIndexers.VerifyLastDropsReorged` | core/chain_indexer.go:423-430 | The recheck drops no more than it must: the sections kept are untouched, and every dropped one was off the canonical chain. |
| `ChainIndexers.RollbackKeepsSharedSections` | core/chain_indexer.go:248-276 | A rollback to a common ancestor keeps exactly the sections wholly at or below it, with their heads. |
| `ChainIndexers.RollbackForgets` | core/chain_indexer.go:248-276 | A rollback forgets exactly the known sections reaching above the ancestor, keeping the others, and the head announced to children falls to the end of the last whole section. |
| `ChainIndexers.AdvanceIsConfirmed` | core/chain_indexer.go:277-300 | A section becomes known exactly when all its blocks have their confirmations. |
| `ChainIndexers.ProcessedIsSection` | core/chain_indexer.go:389-418 | Whatever happens meanwhile, the headers handed to the backend for a section are exactly the blocks on the path down from the head then stored for it, as many as a section holds, in order. |
| `ChainIndexers.ReadSucceeds` | core/chain_indexer.go:398-416 | On a linked index that has the header and continues what was read, reading goes on with the canonical header. |
| `ChainIndexers.FinishExact` | core/chain_indexer.go:349-364 | A section read to its end is stored, as the last one and announced at its last height, if and only if it is the first or the head below it is still the one it was begun on. |
| `ChainIndexers.AbandonWaits` | core/chain_indexer.go:365-369 | After a failure nothing beyond the stored sections counts as known, and the last one left is canonical. |
| `ChainIndexers.UndisturbedIsWhole` | core/chain_indexer.go:244-492 | A lock holder whose loops nobody disturbs does, turn by turn, exactly the whole operation the methods are proved to do. |
| `ChainIndexers.StepKeepsInv` | core/chain_indexer.go:244-492 | Every step keeps the stored heads linked, a change of the chain between two turns of a loop and whole unlocked turns after a failed Reset included, save a turn that takes a section from under the lock holder. |
| `ChainIndexers.RunKeepsHeadsLinked` | core/chain_indexer.go:244-441 | In every interleaving of chain changes, new heads, reports and section processing, by whole turns of their loops, in which no failed Reset takes a section from under a lock holder, each stored section head is exactly one section above the previous one. |
| `ChainIndexers.RunWithoutFailedReset` | core/chain_indexer.go:389-396 | In every run in which Reset does not fail each stored section head is exactly one section above the previous one. |
| `ChainIndexers.BrokenExactlyByUndercut` | core/chain_indexer.go:393-441 | The exact condition, by whole turns: a stored count has its linked heads, and the head a report hands out is the block at the last height counted, if and only if no turn of a failed Reset undercut the lock holder. |
| `ChainIndexers.ResetRace` | core/chain_indexer.go:389-396 | A run from a fresh index in which newHead, undercut by a failed Reset, leaves a section counted and no head stored. |
| `ChainIndexers.UndercutEnds` | core/chain_indexer.go:435-441 | What an undercut lock holder leaves: a count without heads, or the head of an earlier section than the last one counted, the zero hash when none is left. |
| `ChainIndexers.ReportRace` | core/chain_indexer.go:435-441 | A run from a fresh index in which a report counts two sections and hands out the head of the first. |
| `ChainIndexers.ReportIsCanonical` | core/chain_indexer.go:432-441 | When the recheck for a report ends on a linked index, all sections are canonical, though only the last is compared and the index may change between turns. |
| `ChainIndexers.SectionsAreCanonical` | core/chain_indexer.go:423-441 | Where the heads and the index are linked and the last stored head is canonical, all of them are. |
| `ChainIndexers.ChainIndexer.constructor` | core/chain_indexer.go:104-123 | A new indexer satisfies the invariant. |
| `ChainIndexers.ChainIndexer.SetValidSections` | core/chain_indexer.go:480-492 | The loop removes exactly the heads from the given section on. |
| `ChainIndexers.ChainIndexer.VerifyLastHead` | core/chain_indexer.go:423-430 | The loop computes `VerifyLast`. |
| `ChainIndexers.ChainIndexer.NewHead` | core/chain_indexer.go:244-301 | A reorg notice is `Rollback`, a new head is `Advance`. |
| `ChainIndexers.ChainIndexer.BeginSection` | core/chain_indexer.go:318-338 | The first critical section of the update loop is `Begin`. |
| `ChainIndexers.ChainIndexer.ProcessHeader` | core/chain_indexer.go:389-418 | Reading one header succeeds exactly when the canonical hash at the next height is there and stored at that height with the last hash read as its parent; it is then appended to what the backend got, and otherwise nothing changes. |
| `ChainIndexers.ChainIndexer.FailReset` | core/chain_indexer.go:392-396 | Undisturbed, a failed Reset drops every stored section. |
| `ChainIndexers.ChainIndexer.EndSection` | core/chain_indexer.go:349-369 | The second critical section is `Finish`, or `Abandon` after a failure. |
| `ChainIndexers.ChainIndexer.Sections` | core/chain_indexer.go:435-441 | On a linked index every section counted has its canonical head. |
| `FeedProtocol.Find` | event/feed.go:203-210 | The first position of the case, or -1 if and only if it is absent. |
| `FeedProtocol.RemoverFindsCase` | event/feed.go:95-116 | A remover that waits for the case list always finds its case there, behind slot 0. |
| `FeedProtocol.NextKeepsInv` | event/feed.go:73-180 | Every step keeps slot 0 the removal case, the entries equal to the subscriptions, and the tally of a running send. |
| `FeedProtocol.RunKeepsInv` | event/feed.go:73-180 | In every interleaving of Subscribe, Unsubscribe and Send the entries across both lists are the live and leaving subscriptions, and find never yields -1 where its result is deleted. |
| `FeedProtocol.RunCounts` | event/feed.go:73-118 | In every run, for every channel: subscriptions made are the live ones plus the cancelled ones, and those cancelled are the ones that have left a list plus the ones waiting to. |
| `FeedProtocol.EntriesAreSubscriptions` | event/feed.go:73-118 | In every run, the entries for a channel across both lists are as many as its subscriptions less those that have left. |
| `FeedProtocol.SendDeliversOnce` | event/feed.go:120-180 | When a send ends, what was subscribed at its start was delivered exactly once or removed first, with multiplicity, and the list holds the delivered cases not yet removed. |
| `FeedProtocol.DroppedWereRemoved` | event/feed.go:120-180 | What a running send counts as dropped is as many cases of a channel as it has served removals of it since it began. |
| `FeedProtocol.UnsubscribedContents` | event/feed.go:95-106 | Unsubscribing takes one entry out of the inbox if there is one, and otherwise makes one more wait for the case list. |
| `FeedProtocol.SendProgress` | event/feed.go:141-172 | Every delivery, removal and end of a send shrinks the measure; subscribing and unsubscribing do not touch it. |
| `Feeds.EventFeed.constructor` | event/feed.go:60-66 | A new feed is valid and holds only the removal case. |
| `Feeds.EventFeed.FindCase` | event/feed.go:203-210 | The scan of the array is `Find`. |
| `Feeds.EventFeed.DeleteCase` | event/feed.go:212-215 | Shifting the array left in place is `Delete`. |
| `Feeds.EventFeed.DeactivateCase` | event/feed.go:217-222 | The swap in the array is `Deactivate` on the active prefix. |
| `Feeds.EventFeed.AppendInbox` | event/feed.go:130-134 | The case list gains the inbox, in place or in a new array. |
| `Feeds.EventFeed.Subscribe` | event/feed.go:73-93 | One more entry at the end of the inbox and one more live subscription; a step of the protocol. |
| `Feeds.EventFeed.Unsubscribe` | event/feed.go:95-106 | One live subscription fewer, and its entry out of the inbox, or where the inbox has none one more waiting for the case list; a step of the protocol. |
| `Feeds.EventFeed.RemoveWhenIdle` | event/feed.go:108-115 | The second half under the send lock: the case is found behind slot 0, and the list and those waiting each lose it once. |
| `Feeds.EventFeed.DeliverTo` | event/feed.go:145-171 | A delivery: one more value sent, one fewer active case, those before it in place. |
| `Feeds.EventFeed.TrySends` | event/feed.go:146-155 | The fast path tries every active case: those it leaves active have all refused. |
| `Feeds.EventFeed.ServeRemoval` | event/feed.go:161-167 | A removal served by a running send takes the case out of the list once, and shortens the active prefix if it was in it. |
| `Feeds.EventFeed.OpenSend` | event/feed.go:120-134 | Taking the send lock appends the inbox to the case list and empties it. |
| `Feeds.EventFeed.SelectOnce` | event/feed.go:159-171 | Length of the list plus active cases strictly decreases at every select. |
| `Feeds.EventFeed.Send` | event/feed.go:120-180 | The count returned is the number of deliveries; everyone subscribed when it began was delivered to exactly once or removed first, and only as many were removed as waited or were cancelled since; whoever remains on the list was delivered to; whatever happens meanwhile. |
| `Gas.GasPool.AddGas` | core/gaspool.go:28-35 | The pool grows by the amount; exceeding 64 bits, where the code panics, is excluded for every caller. |
| `Gas.GasPool.SubGas` | core/gaspool.go:37-45 | Succeeds if and only if the pool holds the amount; a failure takes nothing. |
| `Gas.ToWordSize` | core/state_transition.go:122-128 | Ceiling division by 32 for every 64-bit size. |
| `Gas.AddChecked` | core/state_transition.go:90-111 | The division guard reports overflow exactly when the true sum does not fit. |
| `Gas.DataGas` | core/state_transition.go:72-113 | Without an access list: overflow exactly when the unbounded cost exceeds 2^64-1, otherwise precisely that cost. |
| `Gas.NonZerosCounts` | core/state_transition.go:83-89 | The count of non-zero bytes is the number of positions that do not hold zero. |
| `Gas.PriceList` | core/state_transition.go:72-119 | The true cost in numbers: 21000 or 53000, 4 per zero byte, 68 or 16 per other byte, 2 per word of init code, 2400 per address and 1900 per key. |
| `Gas.IntrinsicGas` | core/state_transition.go:72-119 | With an access list: the true cost modulo 2^64, equal to it if and only if it fits. |
| `Gas.AccessListWraps` | core/state_transition.go:114-117 | Under every fork an access list of one address, with fewer storage keys than a signed 64-bit length can hold, makes the true cost exceed 64 bits without an error. |
| `Balances.TotalSplit` | core/evm.go:133-141 | The total does not depend on the order of summation. |
| `Balances.CreditExact` | core/evm.go:138-141 | A credit keeping the total below 2^256 adds exactly the amount. |
| `Balances.DebitExact` | core/evm.go:138-141 | A debit covered by the balance subtracts exactly the amount. |
| `Balances.TransferConserves` | core/evm.go:133-141 | A guarded transfer keeps the total and every other account, also from an account to itself. |
| `Balances.GuardIsExact` | core/evm.go:133-141 | The transfer guard passes if and only if the debit subtracts the amount without wrapping. |
| `StateTransitions.PriceSplits` | core/state_transition.go:153-175 | The effective price is the effective tip plus the base fee the message sees, and neither part is negative, with base fees or without. |
| `StateTransitions.CheckedCaps` | core/state_transition.go:299-355 | A message that passes the checks meets the base fees it sees, also where a check is skipped. |
| `StateTransitions.CheckPassesExactly` | core/state_transition.go:276-355 | The checks pass if and only if the nonce is the account's, below the maximum, the account has no code, tip and cap fit 256 bits and are ordered, the cap meets the base fee, blob hashes are there and valid and not for a creation, and the blob cap meets its base fee, each where it is asked for. |
| `StateTransitions.CheckErrorMeans` | core/state_transition.go:276-355 | Each error of the checks has its own cause. |
| `StateTransitions.VerdictOnFields` | core/state_transition.go:237-430 | Once the checks pass, each later error and acceptance if and only if its cause: balance, pool, blacklisted sender or recipient, overflow, too little gas, too long init code. |
| `StateTransitions.FeesOnFields` | core/state_transition.go:237-274 | The burnt part, the tip, the blob fee, what is prepaid and the balance asked for, in terms of the message and block fields. |
| `StateTransitions.ChargedOnFields` | core/state_transition.go:398-416 | The intrinsic gas of a message in terms of its fields and the active forks, modulo 2^64. |
| `StateTransitions.WidePriceIsFree` | core/state_transition.go:237-274 | A price of more than 256 bits can be prepaid only for no gas at all. |
| `StateTransitions.WidePricePasses` | core/state_transition.go:369-436 | A message with a price of 2^256 that passes every check: no gas, and an access list whose charge wraps to zero. |
| `StateTransitions.PrepaidWithinRequired` | core/state_transition.go:237-274 | What is taken up front, with the value, never exceeds the balance asked for. |
| `StateTransitions.FeesAddUp` | core/state_transition.go:449-505 | What is prepaid for gas is what is returned, tipped and burnt. |
| `StateTransitions.RefundCap` | core/state_transition.go:487-493 | The refund is the largest allowed by the counter and the cap. |
| `StateTransitions.SettledPays` | core/state_transition.go:449-505 | Account by account what settlement adds: unused gas at the price paid for the sender, the tip of the gas used for the coinbase or under Parlia the system account, and to that the blob fee from Cancun on. |
| `StateTransitions.StateTransition.BuyGas` | core/state_transition.go:237-274 | The exact error, with nothing changed; otherwise the pool and the sender pay exactly, without wrap or underflow. |
| `StateTransitions.StateTransition.PreCheck` | core/state_transition.go:276-357 | The exact error of the checks and the purchase in order, with nothing changed; what is left covers the value. What each error means is `CheckPassesExactly`, `CheckErrorMeans` and `VerdictOnFields`. |
| `StateTransitions.StateTransition.TakeIntrinsicGas` | core/state_transition.go:398-416 | The exact error, or the intrinsic gas is taken. |
| `StateTransitions.StateTransition.Admit` | core/state_transition.go:369-430 | The verdict on a message before it runs, exactly, and what has been paid by then. |
| `StateTransitions.StateTransition.RefundGas` | core/state_transition.go:487-505 | The refund is the largest allowed; unused gas goes back to the sender at the price paid and to the pool, without wrap or panic. |
| `StateTransitions.StateTransition.PayFees` | core/state_transition.go:463-477 | Who is credited: the coinbase, or under Parlia the system account with the blob fee on top from Cancun on. |
| `StateTransitions.StateTransition.Settle` | core/state_transition.go:449-477 | After execution the total grows by everything prepaid except the base fee of the gas used and an uncredited blob fee; the refund is the largest within a fifth, before London a half, of the gas used. |
| `StateTransitions.StateTransition.Conclude` | core/state_transition.go:449-477 | The same in terms of the message and the block: the total, and exactly what every account gains. |
| `StateTransitions.StateTransition.Run` | core/state_transition.go:432-485 | Execution and settlement: what was prepaid and what there was is what is left, destroyed, burnt and charged for blobs; every account gains exactly its part after execution; the sender's nonce is one up. |
| `StateTransitions.StateTransition.TransitionDb` | core/state_transition.go:369-485 | A message is applied if and only if the verdict on it is none and its price fits 256 bits, and else refused with the verdict; a wider price panics only where no gas is bought or charged. An applied message had its account's nonce, which is one up after, and no code. The total of all balances changes by what execution destroyed, minus gas used times base fee, minus the blob fee unless Parlia credits it back; the pool loses exactly the gas used; every account gains exactly its part relative to after execution; the refund is at most a fifth, before London a half, of the gas used. |
| `StateProcessors.ToMessage` | core/state_transition.go:153-175 | A message exists exactly when the sender is recovered; every field of it is the transaction's, both caps by the kind of fee, and its price is the most that both the fee cap and tip plus base fee allow. |
| `StateProcessors.MessageIsPriced` | core/state_transition.go:153-175 | A message built from a transaction has the price the fee proofs ask for. |
| `StateProcessors.BlobFeeIsCharged` | core/state_transition.go:237-274 | What a message is charged for blobs is its transaction's blobs at 131072 gas each and the block's blob base fee. |
| `StateProcessors.ApplyTransaction` | core/state_processor.go:158-208 | The receipt carries the pool's loss, which is the gas the transition used, its failure and the running sum; the error is the verdict; the sender's nonce was the message's and is one up; wei changes by what execution destroyed, the base fee and the uncredited blob fee. |
| `StateProcessors.ReceiptAdded` | core/state_processor.go:164-187 | Adding a receipt keeps pool plus gas used equal to the limit and the cumulative fields prefix sums. |
| `StateProcessors.ConservedStep` | core/state_processor.go:158-208 | Adding a transaction with its receipt keeps the wei equation of the block. |
| `StateProcessors.SequenceStep` | core/state_transition.go:276-295 | Applying a transaction keeps every sender's account nonce one above its last transaction in the block. |
| `StateProcessors.SequenceIsConsecutive` | core/state_transition.go:276-295 | A list kept in that way has consecutive nonces for every sender. |
| `StateProcessors.ProcessTx` | core/state_processor.go:106-138 | One turn of the loop: the exact error, or the transaction joins exactly one list and gas, wei and nonces stay accounted for. |
| `StateProcessors.SplitStep` | core/state_processor.go:106-138 | From Cancun on the two lists put together stay the transactions seen so far. |
| `StateProcessors.SeenSystemTx` | core/state_processor.go:116-121 | The list of system transactions is empty if and only if none was seen. |
| `StateProcessors.FailureExplained` | core/state_processor.go:106-138 | A refused block contains what its error names. |
| `StateProcessors.ProcessTxs` | core/state_processor.go:106-138 | The loop keeps gas, receipts, lists, nonces and wei accounted for, and its error names something in the block. |
| `StateProcessors.Process` | core/state_processor.go:61-138 | Over a whole block the pool never panics, gas used is the sum of the receipts within the limit, cumulative gas is its prefix sums, the lists are the block's transactions of either kind in order and from Cancun on a split of it, each sender's transactions have consecutive nonces, and the wei before is the wei after plus what execution destroyed, gas used times base fee, and the transactions' blob fees unless Parlia credits them back. |

## Left out

- HeaderChains.HeaderChain.WriteHeaders: does not model the header, number and difficulty caches, which are filled before the interrupt test; after an abort they answer for headers that are not stored. The interrupt is never taken back, so nothing is built on them.
- Block archiver, header and body caches: remote data and eviction; the model has one faithful store.
- Freezer and ancient store: rewinding over frozen blocks is modelled only in its effect on the target; receipts import, failing disk batches and crash recovery are not.
- Concurrent readers of a half-written index: claims about the index hold between operations.
- `rewindPathHead`, snapshots, state availability: a state is present or not, as an input.
- Re-import of a side chain after `insertSideChain` has written it, and its stop flag: the same writers again.
- Receipts, logs, events, metrics, flush timing and the interval commit of tries: no effect on what is proved.
- Child indexers, checkpoints and the throttling of the indexer: a single indexer. A turn of its loops is one step; the race on the words inside a turn after a failed `Reset` is not split further.
- The heap behind the priority queue: `Pop` takes the lowest entry of a list.
- The feed's type check and the value stored into the send cases; fairness of the select.
- Terminal total difficulty in the monotonicity theorems: with it the rule takes any block above the mark, so the order no longer holds; the rule itself is modelled with it.
- EVM interior: execution is any mix of transfers, burns, code and nonce changes, gas use and refunds that keeps a checked sender's nonce step and leaves other codeless accounts with a nonce alone; so balances are exact account by account for settlement, not for execution.
- Blocks processed with base fees switched off: no caller does; single messages are covered.
- Engine finalisation, system transactions' execution, DAO and contract upgrades, the withdrawal check: consensus engine internals.
