# Grin: block acceptance, pools, codecs and difficulty in Dafny

A Dafny model of the cores of the Grin node, a Mimblewimble implementation, with proofs of what
they promise. `dafny verify dfyconfig.toml` checks the whole project.

- **Accepting headers and blocks** (`HeaderTree`, `HeaderPipe`, `BlockPipe`, `Blockchain`). The
  store is a map from hashes to headers and one to blocks, the header MMR a sequence of hashes by
  height, and the chain state whatever folding an `apply` over blocks gives. `HeaderPipe` and
  `BlockPipe` hold the pipeline; the class `Chain` commits or drops its batches, keeps the orphan
  pool, and runs any sequence of operations.
- **Conservation of value** (`Pedersen`, `Conservation`, `OutputIndex`). Commitments are the elements of any
  abelian group. A concrete chain state (outputs, unspent positions, kernels, rewind data) is
  proved reversible, and one-block kernel sums are proved equivalent to the check of the whole state.
  `OutputIndex` keeps the index from commitments to positions beside it.
- **Orphans and kernel search** (`Orphans`, `KernelSearch`).
- **The list index in a key-value store** (`MultiIndex`).
- **Encodings** (`Numerals`, `Base58`, `BitPacking`, `WordList`, `Mnemonic`). Base58Check is the
  format of section "Serialization format" of BIP 32, the sentence that of section "Generating the
  mnemonic" of BIP 39.
- **Difficulty** (`Difficulty`, `DifficultyHistory`, `DifficultyRule`,
  `ChainDifficulty`).
- **Wire codec** (`Frames`, `Codec`).
- **Transaction pools** (`Transactions`, `Buckets`, `BucketOrder`, `TxPool`, `TransactionPool`).

Conventions. A hash is a number; the model assumes that hashes do not collide, stated as a function
`named` from each hash to the header it belongs to (`Blockchain`, `Orphans`) or as a requirement on
the header at hand (`HeaderPipe`). A batch is a value: an operation works on a copy, and a copy that
is not returned is the batch that was dropped. What lies outside the modelled files is a parameter:
proof of work, header rules other than height, time and difficulty, MMR roots, coinbase maturity,
message bodies, header encodings, hash functions, transaction validity, the clock, which socket
reads fail, whether a peer takes a stem transaction. Integers are unbounded unless a width is
written out; `SecondaryScaling` is cut to 32 bits as in the code.

Where code and comment differ, the model follows the code:

- The comment on `bucket_transactions` says that sorting preserves dependency order. It does not for
  children of a transaction that was split off: `BucketOrder.GrandchildFirst` is such a pool and
  `BucketOrder.ParentFirst` the exact condition. It does in a pool without grandchildren:
  `BucketOrder.ParentsFirstWithoutGrandchildren`.
- Processing a chunk of headers looks at the last header only. `HeaderPipe.ChunkKeepsBest` says
  exactly when the header head stays the best header, `HeaderPipe.UnlinkedChunkBreaksBest` shows a
  chunk for which it does not.
- `get_header_for_kernel_index` does not always return. `KernelSearch.EndsExactly` says from which
  bounds it does. `get_kernel_height` always ends if the body head is on the header chain
  (`KernelSearch.AlignedLookup`) and may not end if it is on another branch
  (`KernelSearch.LookupNeverEnds`).
- A block of 59 seconds raises the WTEMA difficulty only from 14399 on, so not at the minimum of the
  testnet: `Difficulty.WtemaRaises`, `Difficulty.WtemaTestnetStuck`.
- `DifficultyIter` starts over after it has returned `None`.
- A `Headers` message without items is answered with an error, not with an empty batch.
- An orphan pool that is too large always loses its highest height, even if dropping old orphans
  already made it small enough.
- The previous header missing gives a store error in `prev_header_store`, not an orphan error.

## Model

| member | source | states |
|---|---|---|
| HeaderTree.PathPrefix | chain/src/pipe.rs:578-612 | the hash at a height of a path is a stored header of that height whose own path is the prefix |
| HeaderTree.CommonIs | chain/src/pipe.rs:584-592 | walking back to the first agreement finds where two paths fork, since paths that agree at a height agree below it |
| HeaderPipe.OnChainIs | chain/src/txhashset/txhashset.rs:1050-1062 | the test for being on the chain of an extension that holds a path is membership in that path, and never fails |
| HeaderPipe.FindFork | chain/src/pipe.rs:584-592 | the walk back ends at the deepest common ancestor and collects exactly the hashes beyond it, oldest first |
| HeaderPipe.ApplyHeaders | chain/src/pipe.rs:597-609 | re-applying succeeds exactly if every header is allowed and commits to the MMR before it, and gives the whole path; it stops at the first that does not, with the reason |
| HeaderPipe.RewindAndApplyHeaderFork | chain/src/pipe.rs:578-612 | success leaves the genesis-to-header path in the MMR; it succeeds exactly if every header beyond the fork is allowed and its root holds |
| HeaderPipe.ProcessBlockHeader | chain/src/pipe.rs:238-287 | a header is accepted exactly if it is known, or its parent is stored, it passes every rule of its fields (denylist, height, time, header rules, and unless skipped proof of work, work and target) and can be applied on the path of its parent; an error or a known header changes nothing; otherwise the header is stored, and head and MMR move only for more work; the MMR is the path to the header head |
| HeaderPipe.CheckKnownMeans | chain/src/pipe.rs:52-58 | each outcome of the check for known headers as an if-and-only-if: more work always passes; without it the head, its parent and stored blocks are refused, as old ones if more than 50 blocks below the head |
| HeaderPipe.ValidateIs | chain/src/pipe.rs:368-458 | validation accepts a header if and only if it meets every requirement, and otherwise the error is that of the first one not met |
| HeaderPipe.PushIs | chain/src/txhashset/txhashset.rs:1110-1121 | a header is pushed if and only if it names the root of the MMR before it; genesis need not |
| HeaderPipe.HeaderIsLawful | chain/src/pipe.rs:384-458 | every stored header but genesis is allowed, one above its parent, later than it and within the header rules: an accepted header keeps that |
| HeaderPipe.HeaderRises | chain/src/pipe.rs:384-458 | a header validated with proof of work keeps every stored header with valid proof of work, and timestamps and work rising along every path, the work by what the difficulty rule asks, for any rule that looks at earlier headers only |
| HeaderPipe.ChunkKeeps | chain/src/pipe.rs:198-204 | storing a valid chunk keeps the tree and the path to every header |
| HeaderPipe.ChunkStores | chain/src/pipe.rs:201-204 | after a chunk exactly the old headers and those of the chunk are stored |
| HeaderPipe.AddHeaders | chain/src/pipe.rs:201-204 | the loop accepts a chunk exactly if each header is valid once those before it are stored |
| HeaderPipe.ChunkRises | chain/src/pipe.rs:198-204 | and so does a chunk of them |
| HeaderPipe.ChunkIsLawful | chain/src/pipe.rs:198-204 | a chunk keeps every stored header lawful too |
| HeaderPipe.ProcessBlockHeaders | chain/src/pipe.rs:186-232 | exactly when a chunk is accepted, the new header head and MMR, and exactly when the sync head is updated |
| HeaderPipe.ChunkKeepsBest | chain/src/pipe.rs:216-224 | the header head stays the best stored header if and only if no header of the chunk outweighs both the last one and the old head |
| HeaderPipe.LinkedChunkIsHeaviest | chain/src/pipe.rs:186-204 | in a chunk without gaps and with proof of work checked, the last header is the heaviest |
| HeaderPipe.UnlinkedChunkBreaksBest | chain/src/pipe.rs:216-224 | a chunk with a gap that is accepted and leaves a stored header heavier than the header head |
| BlockPipe.Rewind | chain/src/txhashset/txhashset.rs:1576-1614 | rewinding from the head to a header of its path gives the state of that prefix and never misses a block |
| BlockPipe.ReplayFork | chain/src/pipe.rs:649-662 | the loop over the fork takes each stored block in turn and stops at the first failure |
| BlockPipe.TakeFails | chain/src/pipe.rs:130-150 | a block that is not taken is refused for the first check that fails: maturity, unspent outputs, sums of the parent, kernel sums, state |
| BlockPipe.ReplaysExactly | chain/src/pipe.rs:643-663 | replaying a path succeeds exactly if each of its blocks can follow on the state of the path before it |
| BlockPipe.ReplayedState | chain/src/pipe.rs:649-662 | a replay from the state of a prefix ends in the fold of apply over the whole path |
| BlockPipe.ReplayedSums | chain/src/pipe.rs:649-662 | a replay saves, for every block it passes, the sums of the whole path to that block |
| BlockPipe.HashesAbove | chain/src/pipe.rs:639-647 | the second walk collects exactly the hashes of the new path above the fork, oldest first |
| BlockPipe.RewindAndApplyFork | chain/src/pipe.rs:619-665 | succeeds exactly if every block of the new path above the last shared one is stored, mature, unspent, summed and applied on the state of the path before it; the result is that of rewinding and replaying; the fork point is the deepest common ancestor of body head and header |
| BlockPipe.MovesExactly | chain/src/pipe.rs:619-665 | the same condition for the whole move, in terms of states along the path only |
| BlockPipe.MovedStands | chain/src/pipe.rs:619-665 | after a successful move the MMR is the path and the state is the fold over it |
| BlockPipe.ProcessBody | chain/src/pipe.rs:117-180 | a block is taken exactly if it is valid, its parent's path can be moved to, and on the state of that path it is mature, unspent, its sums add up and it can be applied; an error changes nothing; a taken block is stored, and head, state and sums move only for more work |
| BlockPipe.TakenExactly | chain/src/pipe.rs:117-180 | the exact condition for a block to be taken, without reference to how it is checked |
| BlockPipe.StoringKeeps | chain/src/pipe.rs:162-166 | storing a new block keeps the state and sums of every path that had them |
| BlockPipe.TakenStands | chain/src/pipe.rs:127-160 | a taken block, once stored, has the state and sums of its own path |
| BlockPipe.TakenKeepsBody | chain/src/pipe.rs:83-180 | the state stays the fold along the path to the head, stored blocks never outweigh the head, and the head's work never falls |
| BlockPipe.TakenIsSound | chain/src/pipe.rs:117-180 | every stored block but genesis is valid and was mature, unspent and applicable on the path of its parent: a taken block keeps that |
| Blockchain.ProcessBlock | chain/src/pipe.rs:83-180 | the outcome of the whole pipeline, including that the header MMR may be written although the block is refused; the errors of a known block and of missing proof of work |
| Blockchain.BodyWithin | chain/src/pipe.rs:112-115 | storing further headers leaves the body invariant alone |
| Blockchain.UnknownIsNew | chain/src/pipe.rs:101-102 | a block that passes the check for known ones has never been stored, so no block is overwritten |
| Blockchain.KnownIs | chain/src/chain.rs:402-411 | a block counts as duplicate if and only if it is stored |
| Blockchain.OrphanedIs | chain/src/chain.rs:417-422 | and as orphan if and only if its parent block is not stored |
| Blockchain.CheckKnownIs | chain/src/pipe.rs:52-58 | the check for known headers refuses exactly the stored blocks, but for what genesis claims to follow |
| Blockchain.SoundWithin | chain/src/pipe.rs:238-287 | more headers leave the stored blocks sound |
| Blockchain.HeaderStepGrows | chain/src/pipe.rs:238-287 | a header step only adds headers, loses no work, leaves the header head with at least the header's work and a best head best, and with proof of work checked keeps timestamps and work rising along every path |
| Blockchain.SeenIsSkipped | chain/src/chain.rs:449-469 | the second processing of a block's header changes nothing, so a refused block leaves the header MMR in step |
| Blockchain.BlockKeeps | chain/src/pipe.rs:83-180 | a processed block keeps the chain invariant and the head's work never falls |
| Blockchain.CommitHeader | chain/src/chain.rs:494-502 | the batch is committed only on success; the invariant holds after, no head loses work, and with proof of work checked timestamps and work still rise along every path |
| Blockchain.CommitChunk | chain/src/chain.rs:508-524 | the same for a chunk; a chunk without gaps keeps the header head best |
| Blockchain.CommitBlock | chain/src/chain.rs:462-475 | the same for a block whose header is stored |
| Blockchain.CommitSingle | chain/src/chain.rs:449-475 | in terms of what is stored: a block is accepted exactly if it is new, its parent block is stored, its header is accepted, its proof of work passes and it is admissible on the path of its parent; it is then stored, and without more work head, state and sums stay; also what is committed of the header alone, and whether the block is to be put aside |
| Blockchain.SingleIsExact | chain/src/chain.rs:449-475 | the outcome of header and block steps is that described by the stored blocks and the head alone |
| Blockchain.Chain.constructor | chain/src/chain.rs:1825-1853 | the chain with only its genesis block satisfies the invariant, and no orphan waits |
| Blockchain.Chain.ProcessBlockHeader | chain/src/chain.rs:494-502 | as CommitHeader, on the chain |
| Blockchain.Chain.SyncBlockHeaders | chain/src/chain.rs:508-524 | as CommitChunk, on the chain |
| Blockchain.Chain.ProcessBlockSingle | chain/src/chain.rs:417-489 | as CommitSingle, in terms of stored blocks and head, and the orphan pool gains the block exactly if its parent block is missing |
| Blockchain.SingleAdds | chain/src/chain.rs:449-489 | a single block only adds headers, and adds itself to the blocks only if it is accepted |
| Blockchain.AsideIsStored | chain/src/chain.rs:449-460 | the header of a block put aside is stored, unless its hash is what genesis claims to follow |
| Blockchain.FiledOutcome | chain/src/chain.rs:417-489 | a block that is taken can only be the parent of orphans one above it; a block put aside has its header stored and no stored parent |
| Blockchain.Chain.TrySingle | chain/src/chain.rs:449-489 | as ProcessBlockSingle, with what it does to the orphans: only those one above an accepted block may now have their parent |
| Blockchain.Chain.TryOrphan | chain/src/chain.rs:585-590 | the outcome of one orphan, and whether it was accepted |
| Blockchain.Chain.ProcessOrphans | chain/src/chain.rs:572-591 | the outcome is that of trying each orphan found in turn, and the answer says whether any was accepted; what goes back is at the height just tried, and its parent block is still missing |
| Blockchain.Chain.TakeOut | chain/src/chain.rs:572-573 | takes out exactly the live orphans of the height, after which none is excepted |
| Blockchain.Chain.TryHeight | chain/src/chain.rs:562-599 | all live orphans of the height are tried, with the outcome and answer of doing so in turn; the others stay in the pool, since putting back never evicts; if one is accepted, fewer heights are left ahead, however many were put back |
| Blockchain.Chain.CheckOrphans | chain/src/chain.rs:558-610 | the orphans of the first height are all tried; the loop ends, and if only orphans of that height could have a stored parent before, none has one after; orphans of heights not tried stay |
| Blockchain.Chain.ProcessBlock | chain/src/chain.rs:361-370 | the block's own outcome, followed by the orphans only if it was accepted; afterwards no orphan waits for a stored block, and the pool has lost none at or below the block's height |
| Blockchain.Chain.Run | chain/src/pipe.rs:83-287 | over every run: every operation in turn has exactly its own outcome; header MMR is the path to the header head, the state is the fold along the path to the body head, body work never exceeds header work, no head loses work, every stored header but genesis obeys the header rules, every stored block but genesis is valid and was mature, unspent and applicable on its parent's path, the header head stays best if chunks have no gaps, every orphan has its header stored and waits for a block that is not, and if proof of work is checked every stored header has it and timestamps and work rise along every path, the work by what the difficulty rule asks |
| Blockchain.GenesisInv | chain/src/chain.rs:1825-1853 | the invariant of the genesis state |
| Pedersen.SumCommitsIs | core/src/core/committed.rs:141-151 | dropping zeros changes nothing: the result is what, added to the negative ones, gives the positive ones |
| Pedersen.NonZeroIs | core/src/core/committed.rs:145-147 | exactly the zero commitments are dropped |
| Pedersen.VerifyKernelSumsIs | core/src/core/committed.rs:57-137 | for any overage, positive, zero or negative, the check passes exactly if the balance equals the kernel sum plus offset, and then returns both sums |
| Conservation.FindLive | chain/src/txhashset/utxo_view.rs:110-134 | what the model's chain state finds: an unspent position with the commitment, or there is none |
| Conservation.UndoOfApply | chain/src/txhashset/txhashset.rs:1619-1697 | rewinding a block undoes applying it, on every chain state |
| OutputIndex.LookUpIs | chain/src/txhashset/utxo_view.rs:110-134 | a look-up in the position index, checked against the MMR, finds what a search of the MMR finds, stale entries or not |
| OutputIndex.ApplyOutputs | chain/src/txhashset/txhashset.rs:1248-1258 | the loop pushes and indexes all outputs, or refuses one that is unspent already |
| OutputIndex.ValidateInputs | chain/src/txhashset/utxo_view.rs:76-113 | succeeds exactly if every input is unspent, and gives the positions |
| OutputIndex.ApplyInputs | chain/src/txhashset/txhashset.rs:1264-1271 | the loop spends and unlists the positions, or refuses an input given twice |
| OutputIndex.ApplyIndexed | chain/src/txhashset/txhashset.rs:1237-1288 | applying a block with the index has the outcome of applying it without, and the index leads to every unspent output again |
| OutputIndex.DropOutputs | chain/src/txhashset/txhashset.rs:1655-1661 | the entries of the block's outputs are gone, the others untouched |
| OutputIndex.Unspend | chain/src/txhashset/txhashset.rs:1682-1692 | the spent positions are listed again, so that the index leads to every unspent output |
| OutputIndex.UndoIndexed | chain/src/txhashset/txhashset.rs:1619-1695 | rewinding a block brings back the state before it with an index that leads to all its unspent outputs, also where the block used a spent commitment again |
| OutputIndex.Extension.ApplyBlock | chain/src/txhashset/txhashset.rs:1237-1288 | applies a block to trees and index, or refuses it and changes nothing |
| OutputIndex.Extension.RewindBlock | chain/src/txhashset/txhashset.rs:1619-1695 | the trees are what the blocks before the last make, and the index leads to their unspent outputs |
| OutputIndex.Extension.Rewind | chain/src/txhashset/txhashset.rs:1576-1614 | the same for any number of blocks |
| OutputIndex.Extension.Reorg | chain/src/pipe.rs:619-665 | a number of blocks left for others: exactly when it succeeds, which blocks it ends with, and nothing changed if it fails |
| OutputIndex.ReorgIs | chain/src/pipe.rs:619-665 | the other blocks can be applied on the state left by the rewind exactly if the whole new branch can be from the start |
| OutputIndex.Extension.Run | chain/src/txhashset/txhashset.rs:1237-1695 | over any number of re-orgs the blocks are those of the last one that was possible, the trees what they make, and a look-up in the index finds what a search of all outputs would find |
| Conservation.ApplySum | chain/src/txhashset/txhashset.rs:1237-1288 | applying a block adds its outputs to, and takes its inputs from, the sum of unspent outputs |
| Conservation.AddSumsIs | chain/src/pipe.rs:483-507 | the one-block check in group terms: which sums it saves, and exactly when it passes |
| Conservation.FullCheckIs | chain/src/txhashset/txhashset.rs:1786-1804 | the whole-state check in group terms |
| Conservation.NextBalanced | chain/src/pipe.rs:483-507 | the running sums stay those of the whole state, rewards taken off |
| Conservation.OneBlockIsWholeChain | chain/src/pipe.rs:483-507 | the one-block check passes if and only if the whole-state check after the block passes, with the same sums |
| Conservation.MoneyLedgerReversible | chain/src/txhashset/txhashset.rs:1576-1697 | the concrete chain state meets what the pipeline assumes of rewinding |
| Conservation.AppliedIs | chain/src/pipe.rs:511-523 | a block is applied if and only if its inputs and outputs can be and its header names the roots of the state it leads to |
| Conservation.RootsHold | chain/src/txhashset/txhashset.rs:1732-1737 | so the header of every block on a path names the roots of the state after it |
| Conservation.GenesisBalanced | chain/src/chain.rs:1825-1850 | the sums saved for genesis, with or without a reward, are those of its state |
| Conservation.SumsAreTotals | chain/src/pipe.rs:483-507 | along every path of accepted blocks the saved sums are the sums over the whole path |
| Conservation.PathIsSound | chain/src/txhashset/txhashset.rs:1786-1804 | every state reached by accepted blocks passes the whole-state check |
| Conservation.HeadIsSound | chain/src/txhashset/txhashset.rs:1786-1804 | a node in its invariant passes the whole-state check at its head, also after re-orgs |
| Orphans.TakeAllHas | chain/src/chain.rs:129-135 | exactly the live orphans listed are handed out |
| Orphans.TakeAllOnce | chain/src/chain.rs:129-135 | none of them twice |
| Orphans.TakeAllCount | chain/src/chain.rs:129-135 | what is handed out and what is left add up |
| Orphans.EvictFar | chain/src/chain.rs:106-118 | what is left are the orphans below the highest listed height that has fewer than 200 recent ones below it |
| Orphans.Shrink | chain/src/chain.rs:99-121 | a pool of at most 200 is left alone; of a larger one exactly the orphans less than 300 seconds old below a cut are left, where the cut is the highest listed height with fewer than 200 of them below it, and the lists below the cut that still name one |
| Orphans.AddedIs | chain/src/chain.rs:99-121 | what is left in terms of ages, heights and counts alone |
| Orphans.PushedIs | chain/src/chain.rs:92-97 | a hash goes to the end of the list of its height, all other lists stay |
| Orphans.OrphanBlockPool.Add | chain/src/chain.rs:90-125 | contents, index and counter after an addition, with the same description of what overflow evicts; every orphan ever added is live, handed out or counted as evicted |
| Orphans.OrphanBlockPool.RemoveByHeight | chain/src/chain.rs:129-135 | hands out and removes exactly the orphans of the height |
| Orphans.HandedOut | chain/src/chain.rs:129-135 | the orphans handed out are the live ones of the height, each once |
| KernelSearch.HeightIsUnique | chain/src/chain.rs:1596-1632 | an index belongs to at most one height |
| KernelSearch.RoundTerminates | chain/src/chain.rs:1610-1631 | from bounds that terminate one round ends or leaves closer bounds that terminate |
| KernelSearch.EndIs | chain/src/chain.rs:1596-1632 | it ends with the right height, or fails because the upper bound lies beyond the header chain |
| KernelSearch.EndsInTime | chain/src/chain.rs:1596-1632 | in no more rounds than there are heights between the bounds |
| KernelSearch.NeverEnds | chain/src/chain.rs:1596-1632 | from any other bounds no number of rounds ends it |
| KernelSearch.EndsExactly | chain/src/chain.rs:1596-1632 | some number of rounds ends the search if and only if its bounds terminate, for all bounds in order |
| KernelSearch.OneRound | chain/src/chain.rs:1610-1631 | the statements of the loop body are one round |
| KernelSearch.GetHeaderForKernelIndex | chain/src/chain.rs:1596-1632 | whenever it ends: the height whose size range contains the index; fails only if the upper bound lies beyond the header chain |
| KernelSearch.FindKernel | chain/src/txhashset/txhashset.rs:466-486 | the last matching index within the bounds, None exactly if there is none |
| KernelSearch.FromIs | chain/src/chain.rs:1606-1606 | the search starts one below the least height asked for |
| KernelSearch.GetKernelHeight | chain/src/chain.rs:1545-1594 | whenever the search for the height ends: the last matching kernel within the bounds with the height found, nothing, or an error, and exactly when |
| KernelSearch.FindRange | chain/src/chain.rs:1552-1581 | the kernel index bounds for the given heights, or that no block can match, or that a header is missing |
| KernelSearch.AlignedLookup | chain/src/chain.rs:1545-1594 | with the body head on the header chain the lookup ends for all heights, and finds the last matching kernel that came with a block within them, with that block's height |
| KernelSearch.LookupNeverEnds | chain/src/chain.rs:1545-1594 | a body head off the header chain for which the lookup never ends |
| MultiIndex.Index.constructor | chain/src/linked_list.rs:225-234 | an index over an empty store represents empty lists |
| MultiIndex.Index.PeekPos | chain/src/linked_list.rs:256-268 | the newest position of the list; the error branches cannot be reached |
| MultiIndex.Index.PushPos | chain/src/linked_list.rs:270-334 | pushes on the list if the position is newer, and fails exactly if not; other lists untouched |
| MultiIndex.Index.PopPos | chain/src/linked_list.rs:339-384 | removes the newest position, and its entry if the list had several; stale entries are never followed |
| MultiIndex.Index.PopPosBack | chain/src/linked_list.rs:457-502 | removes the oldest position likewise |
| MultiIndex.Index.Rewind | chain/src/linked_list.rs:388-404 | leaves exactly the positions up to the given one |
| MultiIndex.Index.Clear | chain/src/linked_list.rs:407-441 | empties every list |
| MultiIndex.Index.Run | chain/src/linked_list.rs:256-502 | every interleaving of the operations refines the same operations on sequences |
| MultiIndex.RunKeepsIncreasing | chain/src/linked_list.rs:270-334 | over every run every list stays strictly increasing |
| MultiIndex.UpToExact | chain/src/linked_list.rs:388-404 | rewinding keeps a position if and only if it is not above the target |
| MultiIndex.RewindUndoesPushes | chain/src/linked_list.rs:388-404 | rewinding to before a run of pushes restores the list |
| Base58.CharOfIsAlphabet | keychain/src/base58.rs:108-110 | the digit characters are the 58 of the alphabet, in order |
| Base58.DigitCharInverse | keychain/src/base58.rs:108-239 | the two tables are inverse to each other |
| Base58.ScratchSuffices | keychain/src/base58.rs:243-262 | a scratch of 1 + 11n/15 bytes holds any number of n digits, so the carry never overflows |
| Base58.MulAdd | keychain/src/base58.rs:251-262 | the in-place loop multiplies the scratch by 58 and adds the digit |
| Base58.From | keychain/src/base58.rs:242-274 | decodes to the specified bytes, or reports the first byte outside the alphabet |
| Base58.TextIsUtf8 | keychain/src/base58.rs:242-242 | the byte strings covered include every text, whatever its characters |
| Base58.AddByte | keychain/src/base58.rs:306-322 | the in-place loop multiplies the digits by 256 and adds the byte, growing as needed |
| Base58.EncodeIter | keychain/src/base58.rs:294-332 | encodes to the specified characters, leading zeros as ones |
| Base58.DecodeOfEncode | keychain/src/base58.rs:242-332 | decoding undoes encoding for all byte strings |
| Base58.EncodeOfDecode | keychain/src/base58.rs:242-332 | encoding undoes decoding for all strings over the alphabet |
| Base58.CheckEncodeSlice | keychain/src/base58.rs:358-361 | appends the checksum and encodes |
| Base58.FromCheck | keychain/src/base58.rs:277-292 | decodes, compares the checksum, and returns the data before it; the error cases |
| Base58.CheckAcceptsEncoded | keychain/src/base58.rs:277-361 | what was encoded with a checksum is accepted and comes back |
| Base58.CheckAcceptsOnlyEncoded | keychain/src/base58.rs:277-292 | whatever is accepted is the checked encoding of the result |
| Base58.CheckRoundTrip | keychain/src/base58.rs:277-361 | a string decodes to some data if and only if it is the checked encoding of that data |
| BitPacking.PackEntropy | keychain/src/mnemonic.rs:131-148 | the packing loop gives the words of the bits of entropy and checksum |
| BitPacking.UnpackIndexes | keychain/src/mnemonic.rs:79-98 | the unpacking loop gives the entropy bytes and the checksum of the words' bits |
| BitPacking.UnpackOfPack | keychain/src/mnemonic.rs:79-148 | unpacking undoes packing |
| BitPacking.PackOfUnpack | keychain/src/mnemonic.rs:79-148 | packing undoes unpacking |
| WordList.SplitOfJoin | keychain/src/mnemonic.rs:67-151 | splitting at white space undoes joining with blanks |
| WordList.SpacesAre | keychain/src/mnemonic.rs:67-67 | the 25 characters at which a sentence is split |
| WordList.BinarySearch | keychain/src/mnemonic.rs:57-63 | in an ordered list binary search finds the index of a word, or reports it |
| WordList.SearchWords | keychain/src/mnemonic.rs:74-78 | the indexes of all words, or the first one that is not listed |
| WordList.SearchOfWords | keychain/src/mnemonic.rs:57-63 | looking up the words of indexes gives the indexes |
| Mnemonic.FromEntropy | keychain/src/mnemonic.rs:115-153 | the sentence of an entropy, or the error for a wrong length |
| Mnemonic.ToEntropy | keychain/src/mnemonic.rs:66-112 | the entropy of a sentence, or the error for its length, a word or the checksum, with words looked up by binary search |
| Mnemonic.EntropyRoundTrip | keychain/src/mnemonic.rs:66-153 | reading the sentence of an entropy gives the entropy, for all five lengths |
| Mnemonic.FiveLengths | keychain/src/mnemonic.rs:115-120 | five entropy lengths have a mnemonic, all others are refused with their length |
| Mnemonic.RefusedFor | keychain/src/mnemonic.rs:66-112 | a sentence is refused for its length, else for the first word not listed, else for a checksum other than that of the entropy it spells |
| Mnemonic.MnemonicRoundTrip | keychain/src/mnemonic.rs:66-153 | writing the entropy of an accepted sentence gives its words again |
| Difficulty.LowerClampUnreachable | core/src/consensus.rs:295-352 | the span is a third of the way from two hours to the time taken, up to rounding and at most two hours; it is at least 2400 seconds, so the lower clamp never applies |
| Difficulty.ClampIs | core/src/consensus.rs:300-302 | a value within the limits stays, any other becomes the limit it is beyond |
| Difficulty.DmaBounds | core/src/consensus.rs:324-357 | the result is between half and one and a half times the window's average, up to rounding and the minimum |
| Difficulty.DmaMonotone | core/src/consensus.rs:324-357 | antitone in the time span, monotone in the sum |
| Difficulty.DmaOnSchedule | core/src/consensus.rs:324-357 | blocks on schedule give the average |
| Difficulty.DmaShort | core/src/consensus.rs:324-357 | a window short by 3 k seconds gives more than the average, whenever the average is large enough for the rounding |
| Difficulty.DmaLong | core/src/consensus.rs:324-357 | and one as much too long gives less, down to the minimum |
| Difficulty.RatioIsZeroAfterTwoYears | core/src/consensus.rs:68-70 | the target ratio falls by one every 11648 blocks from 90, and is zero exactly from two years on |
| Difficulty.SecondaryCountIs | core/src/consensus.rs:387-389 | the count is the number of secondary blocks in the window |
| Difficulty.ScaleSumIs | core/src/consensus.rs:395-396 | the scalings of two windows in a row add up, and one block counts its own |
| Difficulty.CountBounds | core/src/consensus.rs:398-408 | the adjusted count is a thirteenth of the way from the wanted share to the count, up to rounding and at most twice the share |
| Difficulty.ScaleBounds | core/src/consensus.rs:394-417 | while the ratio is not zero, the scale is between half and 12/11 of the window's average, up to rounding and the minimum |
| Difficulty.ScaleAntitone | core/src/consensus.rs:394-417 | more secondary blocks in the window never give a higher scale |
| Difficulty.ScaleOnTarget | core/src/consensus.rs:394-417 | the wanted share of secondary blocks gives the average |
| Difficulty.ScaleWithoutTarget | core/src/consensus.rs:394-417 | with a zero ratio the scale is the minimum, whatever the window |
| Difficulty.ScalingFits | core/src/consensus.rs:394-417 | the cut to 32 bits changes nothing below a bound on the window's sum |
| Difficulty.WtemaOnTime | core/src/consensus.rs:361-384 | a block of 60 seconds leaves the difficulty as it is |
| Difficulty.WtemaLate | core/src/consensus.rs:361-384 | a later block lowers it, down to the minimum |
| Difficulty.WtemaEarly | core/src/consensus.rs:361-384 | an earlier block raises it if and only if the gain survives rounding |
| Difficulty.WtemaRaises | core/src/consensus.rs:361-384 | every block of 59 seconds or less raises it if and only if it is at least 14399 |
| Difficulty.WtemaMainnetRaises | core/src/global.rs:401-408 | so always from the mainnet minimum on |
| Difficulty.WtemaTestnetStuck | core/src/global.rs:401-408 | but not at the testnet minimum |
| Difficulty.WtemaRunBound | core/src/consensus.rs:361-384 | over every unclamped run the difficulty times the product of 14340 + t is at most the start times the power of 14400 |
| DifficultyHistory.AncestryLinked | chain/src/store.rs:539-600 | the ancestry of a header goes from parent to parent down to genesis |
| DifficultyHistory.AncestryIsPath | chain/src/store.rs:539-600 | it is the path from genesis backwards |
| DifficultyHistory.DifficultyIter.Next | chain/src/store.rs:539-600 | returns the ancestors newest first with their own difficulty, then None, then starts over; no subtraction underflows |
| DifficultyHistory.Telescopes | chain/src/store.rs:575-596 | the difficulties of the newest headers add up to the work since the one before them, over all headers to the total |
| DifficultyHistory.DifficultyDataToVector | core/src/global.rs:470-500 | 61 entries, oldest first, padded before the first header, with timestamps that never fall |
| DifficultyHistory.PadAt | core/src/global.rs:494-497 | the i-th simulated header lies i + 1 times the last interval before the oldest header, not before the epoch, with the newest difficulty |
| DifficultyHistory.DeltaIs | core/src/global.rs:486-490 | that interval is the time between the two newest headers, or a minute |
| DifficultyHistory.PaddedFalling | core/src/global.rs:470-500 | padding keeps the order of timestamps |
| DifficultyHistory.WindowSum | core/src/consensus.rs:341-345 | the window's difficulties add up to the work since its oldest header, simulated headers counted like the newest |
| DifficultyHistory.WindowEnds | core/src/consensus.rs:337-338 | a full window spans the time from its newest header to the one 60 before it |
| DifficultyHistory.NextDmaDifficulty | core/src/consensus.rs:324-357 | the next difficulty and scaling in terms of the chain's work and timestamps; the time span is not negative |
| DifficultyHistory.NextWtemaDifficulty | core/src/consensus.rs:361-384 | the next difficulty from the last two headers, without underflow |
| DifficultyRule.RuleIsLocal | chain/src/pipe.rs:435-458 | whether a header meets the rule depends on the headers before it only, whatever else is stored |
| DifficultyRule.DmaOnPath | core/src/consensus.rs:324-357 | on every path whose headers meet the rule, each difficulty is between half and one and a half times the average of the 60 headers before it, up to rounding and the minimum |
| DifficultyRule.PathIsRun | core/src/consensus.rs:361-384 | from the weighted target on, the difficulties along a path are a run of it over the times the headers took |
| DifficultyRule.WtemaOnPath | core/src/consensus.rs:361-384 | so the product bound holds along every such path while the minimum does not come into play |
| DifficultyRule.WorkGrows | chain/src/pipe.rs:422-443 | every header adds at least the minimum difficulty, so the work of a header grows with its height |
| ChainDifficulty.DifficultyIterOf | chain/src/chain.rs:1667-1674 | on a chain whose headers were checked with proof of work the iterator can be built, and goes back along the path of the body head |
| ChainDifficulty.NextDifficultyOf | core/src/consensus.rs:324-357 | the next difficulty of such a chain, from the work and timestamps on that path |
| ChainDifficulty.ChainOnRule | chain/src/pipe.rs:422-458 | every header of a chain run with proof of work checked meets the difficulty rule, so the bounds hold on all its paths |
| Frames.BeRoundTrip | core/src/ser.rs:665-690 | big-endian numbers are read back |
| Frames.BeOfFromBe | p2p/src/msg.rs:348-395 | any bytes are the number they spell, which fits their width |
| Frames.BatchesAre | p2p/src/codec.rs:185-216 | the batches make up the list, all but the last hold 32 and say how many remain, and only the last has nothing remaining |
| Frames.ChunksAre | p2p/src/codec.rs:217-232 | the chunks make up the attachment, all but the last hold 48000 bytes and say how many are left, and only the last has nothing left |
| Codec.ReadHead | p2p/src/msg.rs:348-395 | the header of a well-formed frame is read back |
| Codec.AnyHead | p2p/src/msg.rs:348-395 | a head is refused for wrong magic bytes or a length above four times the limit of its type, and for nothing else |
| Codec.BadLists | p2p/src/codec.rs:152-206 | a list without room for its count, shorter or longer than its count, or with something else than a header is refused; a last header may go beyond the length announced |
| Codec.ReadItem | p2p/src/codec.rs:197-202 | one header is taken off the buffer, however much was read ahead |
| Codec.BatchStep | p2p/src/codec.rs:199-215 | taking a header fills the batch, hands it out when full, and ends with the last |
| Codec.StepAny | p2p/src/codec.rs:145-234 | every step keeps state, buffer and stream in step with the frames sent, and answers with the next reply due or comes closer to it |
| Codec.EnoughBytes | p2p/src/codec.rs:95-112 | unless everything was answered, the stream holds the next item |
| Codec.Codec.constructor | p2p/src/codec.rs:72-80 | a codec at the start of a stream of frames owes the replies to all of them, whichever attempts to read will fail |
| Codec.Codec.ExpectAttachment | p2p/src/codec.rs:89-92 | announcing an attachment changes nothing that is to come |
| Codec.Codec.Fill | p2p/src/codec.rs:126-144 | one attempt to read exactly the bytes missing; it fails only if the attempt is a failing one or the stream is too short, and then leaves all as it was |
| Codec.Codec.Read | p2p/src/codec.rs:123-237 | returns the next reply due; a read error only if an attempt failed, one and the last, or if everything was answered, and it loses nothing; the byte count is what was taken from the stream; the buffer never reaches beyond the current list of headers |
| Codec.StaysOrderly | p2p/src/codec.rs:145-234 | after a step the frames still to come are those the replies given have announced |
| Codec.Codec.Announce | p2p/src/conn.rs:303-315 | a message with an attachment is followed by the announcement, which changes nothing that is to come |
| Codec.Codec.ReadNext | p2p/src/conn.rs:245-315 | one turn of the reading loop of a connection, attachments included |
| Codec.Codec.ReadMany | p2p/src/conn.rs:236-315 | over any number of reads with failures at any attempts, attachments included: replies come in order, none twice, none lost; until everything is answered the replies and the failed attempts make up the reads; byte counts add up |
| Transactions.SameAggregate | core/src/core/transaction.rs:1543-1594 | the aggregate depends on the totals only |
| Transactions.AggregateMoved | core/src/core/transaction.rs:1543-1594 | the order of the transactions does not matter |
| Transactions.AggregateTotals | core/src/core/transaction.rs:1476-1594 | an aggregate spends, creates and pays what its transactions do on balance |
| Transactions.AggregateIs | core/src/core/transaction.rs:1476-1594 | transactions aggregate if and only if no commitment is spent or created more than once on balance; the inputs are what is spent once more than created, the outputs what is created once more than spent |
| Transactions.TotalsOfOne | core/src/core/transaction.rs:1565-1595 | one transaction totals its own kernels, fee and offset |
| Transactions.NestedIsFlat | core/src/core/transaction.rs:1543-1594 | aggregating in two stages is aggregating at once |
| Buckets.ScanInputs | pool/src/pool.rs:363-381 | the loop finds the one bucket depended on, and rejects for a rejected parent or two dependencies |
| Buckets.PlaceEntry | pool/src/pool.rs:356-433 | where an entry goes and what is indexed |
| Buckets.BucketTransactions | pool/src/pool.rs:351-442 | the resulting order as a function of the entries |
| BucketOrder.AggregateWeight | pool/src/pool.rs:514-528 | cut-through never adds weight, and fees add up |
| BucketOrder.SplitIsLower | pool/src/pool.rs:344-350 | a transaction that would lower a bucket's rate has a rate strictly below it |
| BucketOrder.RunKeeps | pool/src/pool.rs:351-433 | after every entry: each bucket holds its entries in order with the rate of its aggregate, split buckets are below their parents and never joined, every output is indexed by its last maker |
| BucketOrder.BucketsValid | pool/src/pool.rs:514-528 | after every entry a bucket of several transactions is valid as one |
| BucketOrder.RejectedFor | pool/src/pool.rs:362-388 | an entry that spends an output of a rejected one or several outputs in the pool is rejected, one that spends none opens a bucket |
| BucketOrder.RejectedUnder | pool/src/pool.rs:389-419 | one that spends a single output is rejected if and only if it does not aggregate with that bucket to a valid transaction |
| BucketOrder.ChildFate | pool/src/pool.rs:356-433 | rejection is handed on to all descendants; any other child joins the home of its parent or is split off from it, also where a commitment is created, spent and created again |
| BucketOrder.SplitBelowParent | pool/src/pool.rs:413-431 | at the sort a split bucket is still strictly below the bucket it depends on |
| BucketOrder.SplitRateIs | pool/src/pool.rs:413-431 | at the sort a split bucket still holds its one transaction, with the fee rate of that transaction |
| BucketOrder.OrderedOnce | pool/src/pool.rs:435-441 | the list holds each chosen transaction exactly once |
| BucketOrder.OrderedDistinct | pool/src/pool.rs:435-441 | and has no duplicates if the pool has none |
| BucketOrder.ParentFirst | pool/src/pool.rs:344-350 | a child comes after its parent if and only if the parent was not split off, or the child was split off too and its own fee rate is no higher than the parent's own |
| BucketOrder.ParentsFirst | pool/src/pool.rs:344-350 | if no split transaction has a chosen child, all parents come before their children |
| BucketOrder.ParentsFirstWithoutGrandchildren | pool/src/pool.rs:344-350 | if no entry that spends an output of the pool is itself spent in the pool, all parents come before their children, whatever the fees |
| BucketOrder.GrandchildFirst | pool/src/pool.rs:413-431 | a pool, with fees above the default minimum, in which a transaction is listed before the one it spends |
| TxPool.GoodNested | pool/src/pool.rs:144-163 | being valid with an aggregate is being valid with what it is made of |
| TxPool.GreedySound | pool/src/pool.rs:322-333 | what reconciling leaves is valid together |
| TxPool.GreedyMaximal | pool/src/pool.rs:322-333 | whatever is dropped did not go with what was kept before it |
| TxPool.PickSound | pool/src/pool.rs:237-264 | what is picked is valid together and comes from the list |
| TxPool.PickMaximal | pool/src/pool.rs:237-264 | whatever is not picked did not go with what was picked before it |
| TxPool.Pool.ContainsTx | pool/src/pool.rs:57-59 | whether some entry has the same kernels |
| TxPool.Pool.AddToPool | pool/src/pool.rs:166-202 | a transaction is added exactly if it is new and valid together with pool and extra transaction |
| TxPool.Pool.Reconcile | pool/src/pool.rs:322-333 | the entries become the greedy choice among themselves |
| TxPool.Pool.AllTransactionsAggregate | pool/src/pool.rs:144-163 | the aggregate of the pool, the extra transaction for an empty pool, or an error |
| TxPool.Pool.ValidateRawTxs | pool/src/pool.rs:237-264 | the greedy choice, or an error if some candidates cannot be aggregated |
| TxPool.Pool.PrepareMineableTransactions | pool/src/pool.rs:115-134 | the greedy choice from the bucket order; valid together within the weight limit |
| TxPool.Pool.EvictTransaction | pool/src/pool.rs:338-342 | drops the transaction that comes last in the bucket order |
| TxPool.Pool.ReconcileBlock | pool/src/pool.rs:465-476 | the loop keeps, with their multiplicity and order, exactly the entries that share no kernel and no input with the block |
| TxPool.UnaffectedIs | pool/src/pool.rs:465-476 | an entry is kept if and only if it shares no kernel and no input with the block, as often as it was there |
| TxPool.Pool.FindMatchingTransactions | pool/src/pool.rs:445-461 | the entries whose kernels are all among those given, in order |
| TxPool.MatchingIs | pool/src/pool.rs:445-461 | each as often as it is in the pool |
| TxPool.EvictedIsSmaller | pool/src/pool.rs:338-342 | eviction always removes something, since the first entry is never rejected |
| TransactionPool.StemLeftJoint | pool/src/transaction_pool.rs:111-120 | what reconciling leaves of the stem pool is valid together with the public pool |
| TransactionPool.TransactionPool.AddToReorgCache | pool/src/transaction_pool.rs:86-97 | the cache with the new entry, without the oldest if it was full |
| TransactionPool.CachedIs | pool/src/transaction_pool.rs:86-97 | the newest is kept, and the oldest dropped exactly if the cache was full |
| TransactionPool.TransactionPool.AddToTxpool | pool/src/transaction_pool.rs:111-120 | both pools after an addition, valid together; an error changes neither |
| TransactionPool.TransactionPool.IsAcceptable | pool/src/transaction_pool.rs:339-358 | when a pool is full and when the fee is too low, in this order |
| TransactionPool.TransactionPool.Screen | pool/src/transaction_pool.rs:157-211 | the transaction that will be added or the first reason against it; a stem transaction is refused over capacity, another one makes room |
| TransactionPool.TransactionPool.Fluff | pool/src/transaction_pool.rs:222-231 | exactly when a transaction can be made public; the public pool, stem pool and cache after it, one evicted if over capacity; both pools valid together if none was |
| TransactionPool.TransactionPool.AddToPool | pool/src/transaction_pool.rs:142-234 | the exact outcome for every input: which check refuses, when it goes to the stem pool, when it becomes public instead, and both pools and the cache after; both pools valid together unless one was evicted |
| TransactionPool.TransactionPool.SettledJoint | pool/src/transaction_pool.rs:142-234 | an addition that evicts nothing keeps both pools valid together |
| TransactionPool.TransactionPool.ReconcileBlock | pool/src/transaction_pool.rs:305-318 | both pools after a block, valid together; never fails |
| TransactionPool.TransactionPool.Run | pool/src/transaction_pool.rs:142-318 | over every run every operation in turn does exactly what its own contract says; the public pool never exceeds its maximum plus one, the stem pool its maximum plus one, the cache the maximum; and if the chain changes with blocks only, both pools are valid together unless a transaction was evicted since the last block, and none is while there is room |

## Left out

- HTTP and JSON-RPC servers, configuration, command line and terminal interface: plumbing.
- secp256k1, range proofs, signatures, Cuckoo proof of work, hash and key derivation functions: parameters or an abstract group; a sum of commitments that fails in the library is not modelled.
- LMDB, files, sockets, threads, locks and timeouts: stores are maps, streams byte sequences, operations atomic.
- Prunable MMRs, their roots and positions: the header MMR is a sequence, the output MMR a sequence with a set of unspent positions, roots are parameters.
- In-place sorting and merging of `cut_through`: aggregation is modelled by what it leaves of each commitment.
- The word list itself: any list of 2048 distinct words, in order where it is searched.
- `determine_status` and the notifications of `Chain`: they do not change the chain.
- Compaction, `reset_chain_head`, `setup_head` recovery, state sync: they lower heads or delete blocks on purpose.
- `reconcile_reorg_cache` and `truncate_reorg_cache`: the first bypasses the capacity check, the second only shortens the cache.
- `SyncState`, peer store, API views, `StreamingReader`, BIP 32 paths, hex, amount formatting: single look-ups, counters and conversions with little state of their own.
- 64-bit overflow in fees, weights, difficulties and reward totals.
- Hash collisions.
- Blockchain.Chain.CheckOrphans: one time stands for the whole call, so orphans do not age while it runs; the exact outcome is stated for the first height, and for the heights after it that no orphan is left with a stored parent.
- Blockchain.Chain.Run: a block whose hash is what genesis claims to follow is not counted as waiting, since its header passes for known without being stored.
- KernelSearch.GetKernelHeight: every block has a kernel; where the search for the height would not end nothing is returned, so nothing is claimed. KernelSearch.AlignedLookup also assumes that genesis has at most one kernel.
- Conservation.FindLive: a search in the MMR; `OutputIndex` shows that the position index of the source finds the same.
- Codec.Codec.Read: streams of well-formed frames only, with each attachment right after the message that announces it; the errors of other streams are stated for single steps (`Codec.AnyHead`, `Codec.BadLists`), without claims about what follows them; an item in a list announced as empty is answered with an error, where the code counts below zero.
- TransactionPool.TransactionPool.AddToPool: finding spent outputs, coinbase maturity and input conversion are one parameter; after an eviction nothing is claimed about joint validity, since the stem pool is not reconciled then.
- TransactionPool.TransactionPool.Run: nothing is claimed about joint validity from an eviction to the next block.
