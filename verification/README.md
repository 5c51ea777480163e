# Prism consensus node: a verified model

This project models the hard logic of a Prism node in Dafny and proves what that logic is for.
A Prism node keeps one proposer block graph and many voter trees. Voter blocks vote for proposer
blocks, votes elect one leader per proposer level, and the leaders order the proposer blocks and
through them the transaction blocks into a ledger.

Each file holds the module of its name. Reading order, from the data up:

| modules | content |
|---|---|
| `Prelude`, `Blocks`, `BlockHashes` | hashes as numbers, sequences without duplicates, blocks and their hashes |
| `Ethash`, `HashOrder`, `Sortition`, `Framing` | difficulty conversion, hash order and sortition, message framing |
| `MerkleSpec`, `Merkle`, `MerkleRoots` | Merkle trees, their code, and when two lists have one root |
| `LedgerSpec`, `LedgerOrder`, `LedgerUpdate` | the ledger as a function of leaders and references, its order told by reachability, and the code that maintains it |
| `VoterTrees`, `VoteLevels`, `VoteIndex`, `VoteTally` | voter trees, the vote index, counting |
| `ElectionSpec`, `VoteBounds`, `Election`, `LeaderJudgement`, `ElectionLaws` | the leader decision, what its bounds mean as expectation and variance, and who wins an election |
| `ProposerGraph`, `VoterForest`, `LeaderUpdate`, `ChainSteps`, `ChainState`, `ChainUpdate`, `Chain` | the `BlockChain` object: its invariant, `insert_block`, `update_ledger` |
| `ChainReads`, `Validation`, `Growth` | the queries for the miner; block validation and how verdicts last |
| `ChainHistory`, `ChainTheorems` | the chain as a record of its insertions; what holds after every run of calls |
| `Buffer`, `IntakeSpec`, `Worker`, `Twins` | out-of-order block intake by one worker, and what blocks with one header do to it |
| `Admission`, `Interleaving`, `ConcurrentIntake`, `ConcurrentDelivery` | block intake by many workers at once |
| `MinerContents`, `Miner` | one iteration of the miner |

How the source is represented:

- RocksDB column families are maps, grouped in one `Database` value that a committed write batch
  replaces. The fields behind mutexes are fields of the object. A public call is one step, except
  in the block intake by many workers, which goes lock by lock and lookup by lookup.
- Stateful code is classes and loops proved against functions of the old state. The invariant of
  the chain, `ChainState.ValidState`, is a predicate on values, so that most proofs need no heap.
- Every `unwrap` of a database lookup is a map access whose key is proved to be there; `panic!` and
  `unreachable!` sites are proved unreachable, or appear as `Panicked` where the source can get there.
- A hash is its big-endian number. `HashOrder.CompareIsNumeric` shows that the order of `H256` is
  the order of these numbers.
- Hash functions are parameters. A lemma that needs them free of collisions says so. A block's hash
  is the hash of its header only, as in the source, so two blocks with one header and different
  contents or proofs have one hash. `Worker.Deliver`, `ConcurrentDelivery.WorkersDeliver` and
  `IntakeSpec.SubGraphIffWithin` state exactly what that costs; `Worker.SpoiledFirst`,
  `Worker.WrappedFirst` and `Twins.TwinDelivery` are the cases where it does cost something.
- Probabilities and vote bounds are real numbers; the two comparisons with `EPSILON` are equality.
  The Poisson masses and the square root are parameters with the properties that are used.
- `BlockChain::insert_block` runs on blocks that passed validation. The predicate
  `ChainState.Acceptable` is exactly what validation establishes
  (`Validation.CheckContentSemantic`), and `Miner.MinerContext.TryHeader` shows that the miner's own
  blocks have it too.

## Model

| member | source | states |
|---|---|---|
| `Chain.BlockChain.constructor` | src/blockchain/mod.rs:120-230 | the genesis state satisfies the invariant; its ledger is the proposer genesis with no transactions; it contains exactly the genesis blocks |
| `Chain.BlockChain.InsertBlock` | src/blockchain/mod.rs:234-418 | an acceptable new block keeps the whole invariant, and the state is the specified one in every column family; the best block of a voter chain gives way to a strictly higher block only |
| `Chain.BlockChain.InsertProposer` | src/blockchain/mod.rs:281-352 | levels, references, unreferred lists, unconfirmed set and best level after a proposer block |
| `Chain.BlockChain.InsertVoter` | src/blockchain/mod.rs:353-404 | voter tree, level and vote counts after a voter block; the best block changes on the block's own chain at most, to this block, and only if it is strictly higher |
| `Chain.BlockChain.UpdateLedger` | src/blockchain/mod.rs:420-662 | keeps the invariant and the graph; the vote index has followed every voter chain to its best block. A level is elected anew if and only if it is no higher than some level with a moving vote, and no lower than some such level or beyond the ledger tip; then its leader is the block that wins at the deconfirm quantile if the level had a leader and at the confirm quantile if not (`LeaderJudgement.Judged`); all other levels keep their leader. Old ledger = kept + removed and new ledger = kept + added; nothing changes if there is nothing to catch up with |
| `ChainState.InsertKeepsValid` | src/blockchain/mod.rs:234-418 | every clause of the invariant survives any insertion, and the ledger stays as it is |
| `ChainState.ProposerKeepsValid` | src/blockchain/mod.rs:281-352 | the same for a proposer block |
| `ChainState.VoterKeepsValid` | src/blockchain/mod.rs:353-404 | the same for a voter block; its chain has a best block |
| `ChainState.TransactionKeepsValid` | src/blockchain/mod.rs:405-416 | the same for a transaction block |
| `ChainState.Genesis` | src/blockchain/mod.rs:140-227 | the state that `new` writes satisfies the invariant |
| `ChainState.PlantChains` | src/blockchain/mod.rs:180-225 | after the loop over the chains every voter tree is its genesis block, voting for the proposer genesis, and the vote index and counts are exact |
| `ChainState.CountVotes` | src/blockchain/mod.rs:370-373 | one merge of 1 per vote adds up |
| `ChainState.RemoveAll` | src/blockchain/mod.rs:336-346 | exactly the referred blocks leave an unreferred list |
| `ProposerGraph.AddProposerOk` | src/blockchain/mod.rs:281-329 | the graph stays acyclic by level, every level lists exactly its blocks once, the best level is the highest |
| `ProposerGraph.AddProposerUnreferred` | src/blockchain/mod.rs:299-341 | a proposer block is listed as unreferred exactly if no block refers to it |
| `ChainState.ProposerTransactions` | src/blockchain/mod.rs:342-346 | a transaction block is listed as unreferred exactly if no proposer block refers to it |
| `ChainState.TransactionIsUnreferred` | src/blockchain/mod.rs:405-415 | nothing in the chain refers to a transaction block before it is there, so it starts unreferred |
| `VoterForest.AddVoterOk` | src/blockchain/mod.rs:353-399 | the voter trees stay rooted trees, level counts are exact, the best block of every chain is as high as any, votes stay one per level in order |
| `ChainSteps.OneMoreVoteCount` | src/blockchain/mod.rs:370-373 | the stored vote count of a proposer block is the number of voter blocks, on any fork, that vote for it |
| `VoterForest.IndexStable` | src/blockchain/mod.rs:353-404 | blocks off the main chains do not change what the vote index must hold |
| `ChainTheorems.LedgerIsRebuilt` | src/blockchain/mod.rs:516-646 | in every valid state the stored order is the ledger rebuilt from genesis out of leaders and references; levels up to the tip have a leader and an order, the next has no leader, no order lies beyond the tip |
| `ChainTheorems.LedgerPartitionsBlocks` | src/blockchain/mod.rs:592-643 | the ledger has no duplicates, lists blocks after their references, ends each level with its leader, and with the unconfirmed set partitions all proposer blocks |
| `ChainTheorems.LedgerIsClosed` | src/blockchain/mod.rs:610-639 | with a block the ledger has everything the block refers to, earlier |
| `ChainTheorems.LedgerIsInOrder` | src/blockchain/mod.rs:604-643 | in every valid state each stored level is in reference order: see `LedgerOrder.OrderIsReferenceOrder` |
| `ChainTheorems.VoteIndexIsExact` | src/blockchain/mod.rs:445-494 | in every valid state the index holds (chain, level) for a block if and only if the ancestor at that level of the chain's ledger tip votes for it |
| `ChainTheorems.VotesNameEveryLevelOnce` | src/validation/voter_block.rs:40-59 | the votes on the path to any voter block name one block of each level from 0 to its deepest voted level, in order |
| `ChainTheorems.ConfirmedIsNotDeconfirmed` | src/blockchain/mod.rs:533-544 | a leader elected by the confirm quantile is elected by the deconfirm quantile in the same state |
| `ChainTheorems.Follow` | src/blockchain/mod.rs:234-662 | for every sequence of submitted blocks and updates from genesis: the stored ledger is the rebuilt one, sound and in reference order, it and the unconfirmed set partition the proposer blocks, the vote index is exact, cutting off what each update removed and appending what it added reproduces the current ledger, and the state is a chronicle of the inserted blocks (next rows) |
| `ChainHistory.ChronicleInsert` | src/blockchain/mod.rs:234-418 | with every insertion: each level lists its proposer blocks in the order of insertion, the best block of each voter chain is the first inserted among the highest blocks of the chain, every block is kept with its parent, references, votes and chain, and unreferred blocks carry the timestamps of their headers |
| `ChainHistory.ChronicleUpdate` | src/blockchain/mod.rs:420-662 | updates of the ledger change nothing of this |
| `ChainHistory.ChronicleBegins` | src/blockchain/mod.rs:140-227 | it holds of the genesis state with no insertions |
| `ChainTheorems.Submit` | src/network/worker.rs:165-300 | a block goes into the chain exactly if it is new, has proof of work, is available, proves its content, is acceptable and signed; the ledger does not change |
| `ChainUpdate.FollowVotes` | src/blockchain/mod.rs:445-494 | first phase: the invariant holds with the new tips; the affected range is the smallest that covers every level of a block that lost or won a vote |
| `ChainUpdate.ElectAndConfirm` | src/blockchain/mod.rs:496-662 | second and third phase: exactly the levels of the range are elected anew and the ledger follows the new leaders |
| `ChainUpdate.Reconfirm` | src/blockchain/mod.rs:568-658 | the ledger after the first changed level is brought in line, with the transaction lists that left and joined |
| `ChainUpdate.Update` | src/blockchain/mod.rs:420-662 | the three phases together, with exactly the elected levels |
| `ChainUpdate.PhasesElect` | src/blockchain/mod.rs:516-565 | a level whose index entries changed is never left out of the election, and no level outside the affected range is elected |
| `LeaderUpdate.WidenOver` | src/blockchain/mod.rs:462-491 | the range becomes the smallest that covers the levels so far and those of the listed votes, and stays within 1 to the best level |
| `LeaderUpdate.DiffIsSwitched` | src/blockchain/mod.rs:459-491 | the levels of the returned diff are exactly those of blocks voted for off the common part of the two chains |
| `LeaderUpdate.FollowChain` | src/blockchain/mod.rs:451-491 | moving one ledger tip keeps the vote index exact and the range the smallest one |
| `LeaderUpdate.FollowChains` | src/blockchain/mod.rs:445-494 | the same for all chains; no change if the tips are the best blocks already |
| `LeaderUpdate.ElectLevel` | src/blockchain/mod.rs:530-544 | the leader is the block that wins on the counted votes, at the deconfirm quantile for a level with a leader and at the confirm quantile for one without |
| `ChainUpdate.UpdatedIsJudged` | src/blockchain/mod.rs:516-565 | which levels are elected anew and who leads them, said of the voter trees |
| `LeaderJudgement.ElectIsJudged` | src/blockchain/mod.rs:528-544 | a block leads a level if and only if more than three fifths of the chains voted there and it has the most votes of every final split that leaves each block the votes it keeps: those expected to survive, less the quantile times the standard deviation. Votes are removed by an adversary that mines in proportion to its share while the others mine as many blocks as they did, on any fork, since a vote |
| `LeaderJudgement.BurialsAreDepths` | src/blockchain/mod.rs:697-706 | the depth of a vote is how many blocks of its main chain lie on it, its own included |
| `LeaderUpdate.ElectLeaders` | src/blockchain/mod.rs:528-565 | all levels of the range hold their elected leader, all others are untouched, and `change_begin` is the first level that changed |
| `LeaderUpdate.ElectedInPlace` | src/blockchain/mod.rs:530-563 | a leader is always a block of its level |
| `VoterTrees.VoteDiff` | src/blockchain/mod.rs:828-890 | terminates at the deepest common ancestor without underflow and returns the votes above it on either side; taking away the removed and adding the added votes turns the votes of one main chain into those of the other |
| `VoterTrees.DiffIsExact` | src/blockchain/mod.rs:828-890 | for a single vote: it is on the new main chain if and only if it was on the old one and not removed, or was added |
| `VoteIndex.MergeVote` | src/blockchain/mod.rs:1613-1644 | one merge adds or removes exactly one entry |
| `VoteIndex.MergeVotes` | src/blockchain/mod.rs:462-494 | every vote to remove is there, so the merge never reaches its `unreachable!`; exactly the listed entries change |
| `VoteIndex.MergeOneMembers` | src/blockchain/mod.rs:1613-1644 | adding is idempotent, removing a present vote by swap leaves all others |
| `VoteIndex.PartialMergeIsSound` | src/blockchain/mod.rs:1646-1658 | merging concatenated operations is merging them one after the other |
| `VoteIndex.MoveTip` | src/blockchain/mod.rs:452-494 | the index exact for the old tip becomes exact for the new tip |
| `VoteLevels.OneVotePerLevel` | src/validation/voter_block.rs:40-59 | path votes are one per level, in order |
| `VoteLevels.AtMostOneVote` | src/validation/voter_block.rs:40-59 | a main chain votes for at most one block of a level, at one place |
| `VoteLevels.ChangedVotesAreAboveGenesis` | src/blockchain/mod.rs:462-491 | a vote that can change is for a block above level 0 |
| `VoteTally.NumVoterBlocks` | src/blockchain/mod.rs:810-826 | the number of voter blocks of a chain between two levels |
| `VoteTally.GatherVotes` | src/blockchain/mod.rs:681-707 | per block the depths of its votes, and the totals |
| `VoteTally.CountWithinChains` | src/blockchain/mod.rs:709-717 | counted votes never exceed the number of chains, so the `panic!` is unreachable |
| `VoteTally.ProposerLeader` | src/blockchain/mod.rs:664-806 | `proposer_leader` returns the block that wins on the tally, if there is one |
| `Election.RemovalProbability` | src/blockchain/mod.rs:744-757 | the probability that one vote is removed, summed as the code does; it lies between 0 and 1 |
| `Election.BlockBound` | src/blockchain/mod.rs:740-768 | the expected number of votes that stay, less the quantile times the root of its variance, cut at zero, when every vote is removed independently with its own probability |
| `VoteBounds.SumsAreMoments` | src/blockchain/mod.rs:755-756 | the two running sums are the expectation and the variance of the number of votes that stay |
| `VoteBounds.SafeVotesCount` | src/blockchain/mod.rs:740-764 | votes that cannot be removed count in full at every quantile |
| `VoteBounds.QuantileStep` | src/blockchain/mod.rs:758-763 | between two quantiles with positive bounds, the bounds differ by the difference times the root of the sum of p(1-p) |
| `VoteBounds.RemovalIsExpectedChance` | src/blockchain/mod.rs:744-754 | the probability of removal is the expectation, over all numbers of blocks the adversary may have mined, of the chance to overtake with so many: certain when two or more ahead, none when level or one ahead, and the catch-up power when behind |
| `VoteBounds.RemovalBy` | src/blockchain/mod.rs:744-754 | if the number of the adversary's blocks is certain, it is the chance with that many |
| `Election.SharesInProportion` | src/blockchain/mod.rs:722-729 | the adversary's expected blocks and the average of the others are in the proportion of their shares |
| `ElectionLaws.UnanimousIsElected` | src/blockchain/mod.rs:664-806 | if all chains vote for one block and nothing can be removed, the block is elected at every quantile |
| `ElectionLaws.QuantilesDiffer` | src/blockchain/mod.rs:533-544 | a tally whose block stays a leader at one quantile and does not become one at a larger one |
| `Election.PickCandidate` | src/blockchain/mod.rs:732-783 | the largest bound, with the lowest hash among equals |
| `Election.Contest` | src/blockchain/mod.rs:784-806 | the candidate stays if and only if no split of the remaining votes can beat it |
| `Election.DecideLeader` | src/blockchain/mod.rs:719-806 | the leader is the block that wins every final split of the votes kept with confidence, once more than three fifths of the chains voted |
| `Election.ElectedIffAlwaysWins` | src/blockchain/mod.rs:735-804 | with enough votes, a block is elected if and only if it wins under every final split that respects the bounds, against unseen blocks strictly and against known ones with ties by lower hash |
| `Election.LowerQuantileKeepsLeader` | src/blockchain/mod.rs:757-804 | a leader at one quantile is the leader at every smaller non-negative quantile |
| `ElectionSpec.UnbeatableIsUnique` | src/blockchain/mod.rs:784-806 | at most one block can be unbeatable |
| `LedgerSpec.LedgerIsSound` | src/blockchain/mod.rs:604-643 | the rebuilt ledger is duplicate-free, topological and ends levels with leaders |
| `LedgerSpec.LedgerIsLeast` | src/blockchain/mod.rs:604-643 | the ledger holds nothing but what its leaders reach |
| `LedgerSpec.LedgerStable` | src/blockchain/mod.rs:604-643 | a larger graph with the same leaders has the same ledger |
| `LedgerUpdate.Traverse` | src/blockchain/mod.rs:614-632 | the depth-first loop without a visited set terminates and its reversed output is the post-order of the unconfirmed blocks reached |
| `LedgerUpdate.KeepFirst` | src/blockchain/mod.rs:634-641 | filtering by removal from the set keeps the first copy of each block |
| `LedgerUpdate.ConfirmLevel` | src/blockchain/mod.rs:606-641 | one level's order is the specified one, and the reference order of its leader |
| `LedgerOrder.OrderIsReferenceOrder` | src/blockchain/mod.rs:606-641 | after the first i references of the leader, exactly what they reach and is not confirmed is listed; what the next reference adds is in the same order for itself, with all before counted as confirmed; the leader comes last. Reach is the least reference-closed set |
| `LedgerOrder.ReferenceOrderIsUnique` | src/blockchain/mod.rs:606-641 | no other order is like this |
| `LedgerUpdate.Rollback` | src/blockchain/mod.rs:592-601 | deconfirming levels restores the ledger of the lower levels and returns what was cut off |
| `LedgerUpdate.Rebuild` | src/blockchain/mod.rs:603-644 | confirming until the first level without a leader |
| `LedgerUpdate.Recompute` | src/blockchain/mod.rs:568-646 | after any leader change the maintained ledger equals the rebuilt one, and old and new ledger share the part before the change |
| `LedgerUpdate.CollectTransactions` | src/blockchain/mod.rs:648-657 | the transaction references of the listed blocks, in order |
| `LedgerSpec.TransactionsOfOne` | src/blockchain/mod.rs:648-657 | a single block contributes its own references, in its order |
| `ChainReads.BestProposer` | src/blockchain/mod.rs:892-906 | a block of the highest level, the first inserted there |
| `ChainReads.ByTimestamp` | src/blockchain/mod.rs:915-935 | every unreferred block once, oldest first |
| `ChainReads.PickVote` | src/blockchain/mod.rs:961-990 | the block of a level with the most votes, the lowest hash among equals |
| `ChainReads.UnvotedProposer` | src/blockchain/mod.rs:938-996 | exactly one such block for each level not yet voted for, in order |
| `ChainReads.BestVotesCover` | src/blockchain/mod.rs:938-996 | these votes are what `check_levels_voted` demands |
| `Validation.CheckSortitionProof` | src/validation/mod.rs:86-103 | passes if and only if the Merkle proof of the content at the sortition id is accepted; `unreachable!` only for a hash that is not mined |
| `Validation.ContentIsBound` | src/validation/mod.rs:69-103 | for collision-free hashes, a block with the header of a miner that worked on some candidates passes both checks if and only if it is mined for its own kind, its content is the candidate of that kind up to repeated tails of lists, and its proof is the candidate's |
| `Validation.VotesAreBound` | src/validation/voter_block.rs:40-59 | for accepted voter blocks nothing is left open: same header and content hash mean the same content |
| `Validation.TwinIsAsValid` | src/block/proposer.rs:34-43 | a proposer block with an odd number of transaction references, at least three, has a twin with other references, the same hash and the same verdict of every check |
| `Validation.WrappedIsMined` | src/validation/mod.rs:69-83 | every proposer or transaction block has another block with its header that passes the check of the proof of work: a voter content whose chain number plus two wraps around to 0 or 1 in 16 bits |
| `Validation.CheckDataAvailability` | src/validation/mod.rs:105-147 | the verdict lists exactly the absent references, in order |
| `Validation.MissingProposers` | src/validation/proposer_block.rs:22-28 | the absent ones among proposer references, in order |
| `Validation.MissingTransactions` | src/validation/proposer_block.rs:14-20 | the absent ones among transaction references, in order |
| `Validation.AvailableBlock` | src/validation/mod.rs:105-147 | what availability means for each kind of block |
| `Validation.CheckRefProposerLevel` | src/validation/proposer_block.rs:33-42 | true if and only if no reference is above the parent |
| `Validation.CheckLevelsVoted` | src/validation/voter_block.rs:40-59 | true if and only if the votes are one block of each level after the voter parent's, up to the proposer parent's, in order |
| `Validation.CheckContentSemantic` | src/validation/mod.rs:150-184 | passes if and only if the block is acceptable to the chain and signed; each failure names its cause |
| `Growth.InsertGrows` | src/blockchain/mod.rs:234-418 | insertion changes nothing that is known about other blocks |
| `Growth.UpdateGrows` | src/blockchain/mod.rs:420-662 | neither does an update |
| `Growth.VerdictIsFinal` | src/validation/mod.rs:150-184 | once its references are there, the verdict on a block never changes as the chain grows, either way |
| `Growth.PeersDecideAlike` | src/validation/mod.rs:105-184 | two chains that agree on the references of a block come to the same verdict on it |
| `Buffer.BlockBuffer.constructor` | src/network/buffer.rs:18-24 | an empty buffer |
| `Buffer.BlockBuffer.Insert` | src/network/buffer.rs:27-49 | adds the block with its set of dependencies; `dependent` stays the exact inverse of `dependency` |
| `Buffer.BlockBuffer.Satisfy` | src/network/buffer.rs:52-67 | removes the dependency everywhere, returns exactly the blocks that waited for nothing else, once each; the inverse stays exact |
| `Buffer.IsWaiting` | src/network/buffer.rs:56-64 | every dependent has its entry and its block, so no unwrap fails |
| `IntakeSpec.AbsentIsNeeded` | src/network/worker.rs:244-262 | the missing references of a valid block are what it refers to and the chain does not have |
| `IntakeSpec.LawfulPasses` | src/validation/mod.rs:150-184 | a valid block passes the content check as soon as its references are there |
| `IntakeSpec.BufferStep` | src/network/worker.rs:250-261 | buffering a block keeps the worker's invariant |
| `IntakeSpec.RejectStep` | src/network/worker.rs:264-290 | so does dropping a block, unless it is one of the valid set |
| `IntakeSpec.NeverRejected` | src/network/worker.rs:264-290 | a block of the valid set is never dropped, as long as no other block is stored under a hash of the set |
| `IntakeSpec.InsertStep` | src/network/worker.rs:292-315 | inserting a block and releasing its dependents keeps the invariant; the block was not in the chain before |
| `IntakeSpec.DeliveredIffStored` | src/network/worker.rs:201-316 | when nothing is pending, the whole set is in the chain if and only if the block database holds each block of it under its hash; then none of it is in the buffer |
| `IntakeSpec.TwinShutsOut` | src/network/worker.rs:201-206 | with another block stored under its hash, a block never gets into the chain |
| `IntakeSpec.SubGraphIffWithin` | src/blockchain/mod.rs:281-298 | one node's proposer graph is part of another's if and only if the other inserted the same proposer blocks, contents included |
| `IntakeSpec.SameLedger` | src/blockchain/mod.rs:604-657 | two nodes, the second with all proposer blocks of the first, contents included, make the same ledger and transaction order from the same leaders |
| `Twins.TwinWorldIsValid` | src/block/proposer.rs:34-43 | a valid set of blocks stays valid when a block of it is replaced by its twin |
| `Twins.TwinsMakeTwoLedgers` | src/blockchain/mod.rs:604-657 | two nodes, one with a block and one with its twin, all else alike: any leaders confirm the same blocks in the same order, and the transaction ledger of the second is longer by one if and only if the block is confirmed, and equal otherwise |
| `Twins.TwinDelivery` | src/network/worker.rs:159-316 | this comes about: two workers that get the same valid set, once with the block and once with its twin, both have all of it in their chains and different transaction ledgers for all leaders that confirm the block |
| `Worker.BlockWorker.constructor` | src/network/worker.rs:41-66 | a worker on a new chain with an empty buffer satisfies the invariant |
| `Worker.BlockWorker.HandleBlocks` | src/network/worker.rs:159-316 | one message: if checking one of its blocks panics, the thread ends before anything of the message is processed; otherwise of its blocks with proof of work the first under each new hash is stored, and the invariant holds with nothing pending |
| `Worker.Admit` | src/network/worker.rs:165-222 | it panics exactly if `sortition_hash` overflows on one of the blocks; otherwise blocks without proof of work and blocks with a known hash are dropped, the others are stored and become pending |
| `Worker.BlockWorker.Process` | src/network/worker.rs:237-316 | the loop terminates with nothing pending |
| `Worker.BlockWorker.ProcessOne` | src/network/worker.rs:240-315 | one round buffers, drops or inserts the popped block and keeps the invariant |
| `Worker.BlockWorker.InsertOne` | src/network/worker.rs:292-315 | insertion and release; no block gets lost between buffer and stack |
| `Worker.Deliver` | src/network/worker.rs:159-316 | for every finite reference-closed set of valid blocks, in any order, batching and duplication, among any other blocks: all of them are in the chain, each once and after its references, if and only if each is the first arrival with proof of work under its hash, in the messages before the first one that makes the worker panic; with nothing else stored the buffer is empty |
| `Worker.NarrowNeverPanics` | src/config.rs:121-139 | with proposer width at most the total voter width no message makes the worker panic |
| `Worker.FirstIsStored` | src/network/worker.rs:201-222 | of a list of arrivals the database keeps a block if and only if it is the first with proof of work under its hash |
| `Worker.OtherFirst` | src/network/worker.rs:201-206 | the condition matters for every block: whatever other block with its header and proof of work arrives first, the block does not get into the chain |
| `Worker.SpoiledFirst` | src/network/worker.rs:201-206 | such a block always exists: if a copy with a spoiled proof arrives first, neither gets into the chain |
| `Worker.WrappedFirst` | src/validation/mod.rs:69-83 | a voter content whose chain number wraps around in 16 bits shuts out a proposer or transaction block in the same way |
| `Admission.ActionKeepsInv` | src/network/worker.rs:186-221 | under every interleaving of register, look up, store and unregister a hash in `recent_blocks` is there because of exactly one copy |
| `Admission.NothingOverwritten` | src/network/worker.rs:199-210 | no stored block is ever overwritten |
| `Admission.AdmittedOnce` | src/network/worker.rs:186-221 | at any moment of any run, of the copies with one hash at most one was admitted, and it is the stored one |
| `Admission.AdmittedExactlyOnce` | src/network/worker.rs:186-221 | when no worker is in the middle of it, exactly one copy of every hash that arrived was admitted and `recent_blocks` is empty |
| `Interleaving.StepKeepsInv` | src/network/worker.rs:244-309 | every step of every worker keeps the invariant |
| `Interleaving.RunKeepsInv` | src/network/worker.rs:244-309 | it holds at every moment of every run |
| `Interleaving.NoLostWakeUp` | src/network/buffer.rs:28-36 | a buffered block waits for a block of the chain only while the worker that inserted it has still to call `satisfy`, or if it takes that block for another kind of block; what it does not wait for is in the chain |
| `Interleaving.UnwrapsSucceed` | src/network/buffer.rs:56-64 | under every interleaving `dependent` names only buffered blocks that do wait |
| `Interleaving.InsertedInOrder` | src/network/worker.rs:244-300 | a block is inserted at most once, and after everything it refers to, each reference to a block of the kind it says |
| `Interleaving.QuietWaits` | src/network/worker.rs:237-316 | when all workers are done, a buffered block waits for what the chain does not have, and besides at most for what it takes for another kind of block |
| `Interleaving.StepLowers` | src/network/worker.rs:240-315 | every step but the receipt of a new block leaves less to do |
| `Interleaving.CanStep` | src/network/worker.rs:240-315 | in every reachable state in which some worker is not done, a worker can take a step |
| `Interleaving.CanFinish` | src/network/worker.rs:240-315 | from every reachable state the workers get to the end |
| `Interleaving.Drained` | src/network/worker.rs:237-316 | when all workers are done, of any received closed set of blocks none of which was rejected, all are in the chain and none in the buffer; with nothing else received the buffer is empty |
| `ConcurrentIntake.AdmissionIsFresh` | src/network/worker.rs:186-222 | a hash that a worker admits is in no worker's hands and never was, so the workers never get a block twice |
| `ConcurrentIntake.LookUpFails` | src/validation/mod.rs:105-147 | in a chain that mirrors the inserted blocks, a lookup fails exactly for a hash that is not there and for a block of another kind |
| `ConcurrentIntake.WorkIsStep` | src/network/worker.rs:240-315 | every step of a worker on the real chain is a step of the machine of `Interleaving` |
| `ConcurrentIntake.InsertIsSafe` | src/network/worker.rs:292-300 | between the checks of a block and its insertion other workers may change the chain; at the insertion the block is still new, available and acceptable |
| `ConcurrentIntake.StepKeepsInv` | src/network/worker.rs:159-316 | every step of every thread keeps the invariant of chain, gate, buffer and log |
| `ConcurrentDelivery.RunKeepsInv` | src/network/worker.rs:159-316 | it holds at every moment of every run |
| `ConcurrentDelivery.NeverRejected` | src/network/worker.rs:264-290 | under every interleaving a block of a valid set is never rejected, as long as no other block is stored under a hash of the set |
| `ConcurrentDelivery.WorkersDeliver` | src/network/worker.rs:159-316 | under every interleaving, when all workers are done: all blocks of a valid set are in the chain and none in the buffer if and only if the database has each of them under its hash; the chain holds exactly genesis and the log, each block once and after its references |
| `Miner.MinerContext.constructor` | src/miner/mod.rs:78-135 | the first candidates are acceptable and the tree is theirs; the parent is genesis |
| `Miner.MinerContext.Refresh` | src/miner/mod.rs:248-405 | after one iteration the parent is the first block of the highest level, every candidate is acceptable, the header commits to exactly these candidates, and every candidate is what the signals make of it (`Miner.Candidates`) |
| `Miner.MinerContext.ProduceBlock` | src/miner/mod.rs:471-487 | the block passes the sortition id, sortition proof, availability, reference level, chain number and voted level checks, on this chain and on that of any peer that agrees on the blocks it refers to |
| `Miner.MinerContext.TryHeader` | src/miner/mod.rs:416-429 | unless the sum of the widths overflows, a header hash below the difficulty always gives a block, which can be inserted without validation |
| `Miner.Candidates` | src/miner/mod.rs:248-380 | the transaction candidate takes the new transactions; the proposer candidate gets all references afresh if there is a new proposer block or parent, otherwise the oldest transaction references up to the quota if there is a new transaction block and room, otherwise stays; a voter candidate moves to the best block of its chain exactly if the chain was announced, and gets the best votes exactly if there is a new proposer block, parent or voter block |
| `Miner.TransactionCandidate` | src/miner/mod.rs:266-296 | new transactions, and fresh transaction references unless there are enough |
| `Miner.ProposerCandidate` | src/miner/mod.rs:298-337 | the loop ends with the best proposer as parent; the references are refreshed exactly if it changed or was announced |
| `Miner.RefreshTree` | src/miner/mod.rs:385-401 | rebuilding or updating touched leaves gives the tree of the new contents |
| `MinerContents.UpdateVoterParents` | src/miner/mod.rs:250-264 | exactly the candidates of the announced chains move, each to the best block of its chain, and keep everything else |
| `MinerContents.UpdateVotes` | src/miner/mod.rs:339-380 | every voter candidate votes for the best block of each missing level |
| `MinerContents.RefreshRefs` | src/miner/mod.rs:314-326 | the oldest transaction blocks up to the quota, and all unreferred proposer blocks but the parent |
| `MinerContents.FirstIsReady` | src/miner/mod.rs:85-108 | the candidates of `new` are acceptable |
| `MinerContents.VotedIsBelowBest` | src/blockchain/mod.rs:374-382 | no voter block has voted above the best proposer level, so there is never a negative range of levels to vote for |
| `MinerContents.ReadyStable` | src/miner/mod.rs:303-310 | candidates stay acceptable while other threads extend the chain |
| `Merkle.MerkleTree.constructor` | src/crypto/merkle.rs:12-76 | the node array is the layered tree of the leaf hashes, padding copies included |
| `Merkle.MerkleTree.Root` | src/crypto/merkle.rs:78-84 | the root of the leaves, zero for none |
| `Merkle.MerkleTree.Proof` | src/crypto/merkle.rs:87-119 | the sibling path of a leaf, empty out of range |
| `Merkle.MerkleTree.Leaf` | src/crypto/merkle.rs:121-135 | the hash of a leaf, zero out of range |
| `Merkle.MerkleTree.Update` | src/crypto/merkle.rs:137-201 | in-place update gives the node array of the list with the entry replaced |
| `Merkle.Verify` | src/crypto/merkle.rs:206-257 | true if and only if the proof has the right length, the index is in range and climbing reaches the root |
| `MerkleSpec.ProofIsAccepted` | src/crypto/merkle.rs:87-119 | the proof of a leaf is accepted, for any hash |
| `MerkleSpec.AcceptsExactlyTheProof` | src/crypto/merkle.rs:206-257 | with an injective hash, exactly the leaf with its own proof is accepted |
| `MerkleRoots.RootsAgree` | src/crypto/merkle.rs:12-84 | with an injective pair hash and leaves that are no pair hashes, two lists have one root if and only if they fill padded trees of one depth in the same way |
| `MerkleRoots.AlikeOfOneLength` | src/crypto/merkle.rs:12-84 | lists of one length with one root are equal |
| `MerkleRoots.RepeatedTail` | src/crypto/merkle.rs:30-76 | repeating the last leaf of an odd list keeps the root, for any hash |
| `MerkleRoots.RootOfHalves` | src/crypto/merkle.rs:12-84 | the root of a full tree is the pair of the roots of its halves, the first half first |
| `BlockHashes.ContentHashesAgree` | src/block/proposer.rs:34-43 | contents of one kind have one hash if and only if their lists are alike and the rest is equal |
| `BlockHashes.TwinContent` | src/block/proposer.rs:34-43 | two different proposer contents with one hash, for any hash functions |
| `HashOrder.CompareIsNumeric` | src/crypto/hash.rs:130-142 | comparing halves as 128-bit numbers is comparing big-endian numbers |
| `HashOrder.NumericIsBytewise` | src/crypto/hash.rs:130-142 | that is comparing the bytes, the first one that differs deciding |
| `Sortition.MinedIffBelowDifficulty` | src/config.rs:121-139 | for given widths, being mined means being below the difficulty if and only if the voter interval starts no higher than the difficulty |
| `Sortition.NarrowProposersMineExactly` | src/config.rs:121-139 | with proposer width at most the total voter width nothing overflows and an id is returned if and only if the hash is below the difficulty |
| `Sortition.MinesExactlyIffNarrow` | src/config.rs:121-139 | the widths are right for every difficulty if and only if the proposer width is at most the total voter width |
| `Sortition.MinedUnlessOverflow` | src/config.rs:121-139 | a hash below the difficulty gets an id if and only if the sum of the widths does not overflow first |
| `Sortition.WideProposersMineTooMuch` | src/config.rs:127-133 | otherwise a hash at the difficulty can be given an id, because the boundary adds the proposer width twice |
| `Sortition.IdInRange` | src/config.rs:121-139 | an id is below the number of chains plus two |
| `Sortition.VoterChainsAreFair` | src/config.rs:134-136 | the numbers of hashes of any two voter chains differ by at most one |
| `Sortition.SharesByWidth` | src/config.rs:121-136 | at m times the total width, m hashes per unit of width make proposer blocks, and transaction blocks get the proposer width on top of their own |
| `Framing.NumberRoundTrip` | src/network/peer.rs:97-155 | reading back a big-endian length gives the length |
| `Framing.PrefixBytes` | src/network/peer.rs:97-155 | the length prefix is four bytes, the most significant one first |
| `Framing.FramesDecodeUniquely` | src/network/peer.rs:29-72 | a byte stream is the encoding of at most one sequence of messages |
| `Framing.ReadContext.Read` | src/network/peer.rs:29-72 | after any partial reads, delivered messages and the partial one are exactly the bytes received |
| `Framing.WriteContext.Write` | src/network/peer.rs:97-155 | after any partial writes, the bytes written are a prefix of the encoding of what was queued; a writer that accepts something at each call needs no more calls than there are bytes left |
| `Framing.WriteContext.Enqueue` | src/network/peer.rs:221-227 | a queued message goes to the end; with a detached channel it is dropped |
| `Framing.DeliveredInOrder` | src/network/peer.rs:29-155 | at any time the delivered messages are a prefix of the sent ones, none of them empty; all are delivered exactly if none is empty and nothing is unsent or unread |
| `Framing.AllThrough` | src/network/peer.rs:29-155 | when all bytes have arrived, delivered and sent messages are equal |
| `Framing.EmptyMessageStalls` | src/network/peer.rs:29-72 | once the prefix of an empty message is read the reader asks for no bytes and has delivered only what came before: empty messages are outside the protocol |
| `Framing.Converse` | src/network/peer.rs:29-155 | for every run of partial writes and reads: everything queued is received in order if and only if nothing is pending and no message is empty or 2^32 bytes or longer |
| `Framing.NeverStalls` | src/network/peer.rs:29-72 | with such messages the reader asks for bytes at every moment of every run |
| `Framing.Finish` | src/network/peer.rs:29-155 | from any state of any run with such messages, further writes and reads bring everything through |
| `Framing.ConverseFully` | src/network/peer.rs:29-155 | so any run can be brought to an end at which everything queued is received |
| `Ethash.RoundTrip` | parity-ethereum/ethash/src/lib.rs:169-190 | converting a difficulty up to 2^128 to a boundary and back is the identity |
| `Ethash.ThreeConversionsAreOne` | parity-ethereum/ethash/src/lib.rs:169-190 | three conversions equal one, for every non-zero 256-bit number |
| `Ethash.RoundTripExactlyOnImage` | parity-ethereum/ethash/src/lib.rs:169-190 | the round trip is the identity exactly on numbers that are themselves results |
| `Ethash.RoundTripTest` | parity-ethereum/ethash/src/lib.rs:169-190 | for every non-zero 256-bit number, the round trip is the identity if and only if the remainder of 2^256 is below the quotient, or the number is the largest |
| `Ethash.RoundTripFailsAboveRoot` | parity-ethereum/ethash/src/lib.rs:169-190 | a number above 2^128 that does not come back |

## Left out

- RocksDB, bincode and keccak: column families are maps, hash functions are parameters on values.
- f32 rounding, the Poisson distribution and `sqrt`: real arithmetic over parameters with the properties used.
- Widths of u64 levels and timestamps: unbounded numbers. `voter_chains * 3` fitting 16 bits is a precondition (at most 21845 chains).
- `BlockchainConfig::new`: mining rates to widths is floating point; that genesis hashes differ is a precondition.
- Concurrency of `insert_block`, `update_ledger` and the miner: each call is one step. Only the block intake is interleaved.
- Blocks from the own miner in the interleaved intake: the miner does not call `satisfy`, so the model has network blocks only.
- `requested_blocks` of the worker, the request of missing blocks and the signals to the miner: no property here depends on them.
- Signature checking of transactions: a parameter. Mined transaction blocks are not claimed to be signed.
- Arriving blocks that hash to a genesis hash: excluded by precondition, since genesis hashes are small numbers and not the hash of any header at hand.
- Builds with overflow checks: there `chain_number + 2` panics for the chain numbers 65534 and 65535. The model has the release build, in which it wraps around.
- A panic in the interleaved intake: a worker that panics is one that takes no more steps; what it had on its stack keeps the run from getting quiet.
- Hash kinds of arbitrary blocks: `contains_transaction` cannot tell kinds apart; the valid set refers by the right kind.
- `BlockChain::dump`, `proposer_leaders`, `proposer_transaction_in_ledger`, tips for display, src/visualization, src/api, src/main.rs, src/network/server.rs: reporting and plumbing.
- src/ledger_manager, src/statedb, src/wallet, src/blockdb, src/miner/memory_pool.rs: thin wrappers or easy members.
- Miner timing, control channel and lazy annotation: parameters of one iteration.
- Ethash cache and full data set: opaque hashing over unsafe memory.
- Worker.BlockWorker.HandleBlocks: does not state which hashes are requested from the peer.
