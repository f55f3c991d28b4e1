# Xcosh ledger: a verified model

A Dafny model of the Xcosh node's ledger: how a block is put together from the
mempool, mined, checked, stored, rolled back, replaced by another branch and
read back after a restart, and the consensus arithmetic underneath. Signatures,
Keccak and JSON are foreign code; a `World` value stands for them and every
theorem holds for every `World`. The clock and the nonce the proof-of-work
search comes up with are inputs.

`dafny verify dfyconfig.toml` checks everything.

| file | models |
|---|---|
| `MachineInts.dfy`, `Digits.dfy`, `Hex.dfy`, `Powers.dfy` | Go integers, `strconv`, `encoding/hex`, powers of two |
| `Consensus.dfy`, `Emission.dfy`, `ProofOfWork.dfy`, `Difficulty.dfy` | `internal/consensus`: schedule, difficulty rule, proof of work |
| `Transfers.dfy` | `core/tx.go`: transfers and their payload text |
| `Blocks.dfy`, `NonceSearch.dfy` | `core/block.go`: block bytes, `Mine`, the parallel search |
| `Validator.dfy`, `Acceptance.dfy`, `Chains.dfy` | `core/validator.go`, its rules in plain terms, and chains it has accepted |
| `Accounts.dfy`, `Totals.dfy` | `RebuildState` and its accounting |
| `Selection.dfy`, `Mempool.dfy`, `Mining.dfy`, `BlockSize.dfy` | `MineBlock`: choosing transfers, the queue, building and self-checking the block |
| `Storage.dfy` | `storage/db.go` |
| `LedgerState.dfy`, `LedgerCore.dfy` | `node/ledger.go`: the ledger as a value, and the object whose methods update it in place |
| `Runs.dfy`, `Histories.dfy`, `Reorg.dfy` | whole runs with crashes and restarts; reorganisations |
| `Coins.dfy`, `Statements.dfy` | what the balances add up to, and each account's balance and nonce from the chain |
| `Submissions.dfy`, `Repeats.dfy` | which transfers a node holds, and how often one is applied |
| `Commitments.dfy` | what a block's hash commits to |
| `Counterexamples.dfy` | concrete inputs on which the code does less than it promises |

The imperative code keeps its form: `LedgerCore`, `ConsensusEngine` and
`Database` are classes with the Go fields, their loops carry invariants, and
each method is proved to do to the fields what a function does to their value.
The theorems are about those functions. A run (`Runs.dfy`) interleaves mining
at its two locks with queue arrivals, and may crash between any two writes to
disk.

## What is proved about runs

From an empty disk, through any steps, as long as blocks survive the JSON round
trip and the node does not mine for `SYSTEM_GENESIS`, whatever is queued and
whatever accepted blocks are appended: the live accounts read as the replay of
the chain plus what is in flight, the chain is valid, the supply is the
schedule's emission and never meets the cap, and the disk reads back as exactly
the chain, whatever moment the crash chose (`EveryRunIsReplay`). With nothing in
flight the balances are the supply less the genesis reward plus the imbalances
of the chain's blocks, so coins are conserved if and only if these cancel out
(`EveryRunConservesIff`). Where moreover costs do not wrap and appended blocks
spend only what is there and credit their miner, coins are conserved throughout
and no uint64 addition wraps (`EveryRunConserves`, `CollectNeverWraps`,
`CommitNeverWraps`, `AppendNeverWraps`, `ReplayNeverWraps`).

There every live balance is what the chain says the account received and earned
less what it spent (`EveryRunStatement`); on any chain whatever, nonces count
the transfers signed (`ChainNonce`) and balances follow the same statement up to
what accounts lacked and whole turns of a uint64 (`ChainStatement`). Every block
on the chain keeps the validator's rules, stated in plain values
(`EveryRunKeepsRules`), and every transfer a node holds is verified or came in
past `AddToMempool` (`EveryRunHoldsAdmissible`).

## What the code does not do

Where the code falls short of what it promises, the model keeps the code, a
lemma gives the exact condition, and a lemma of `Counterexamples` a concrete
input.

- The self-check at the end of `MineBlock`, which panics, is reachable. The
  512 bytes set aside per block do not cover the commas between transfers:
  `FullBudgetFailsSelfCheck` fills the budget with 512 transfers and gets a
  block the validator refuses, and `MineBlockPanics` is a node on which this
  happens whatever the clock says. `SelfCheckFits` says exactly when the check
  passes; the only other way to fail is a parent at the last int64 second.
- Dropping a prefix of the mempool by count removes the transfers taken and keeps
  the others in order if and only if no dropped entry was passed over for want of
  funds (`PrefixDropExact`; `PrefixDropKeepsTheWrongOne`). Order aside, it does if
  and only if the dropped entries passed over are the same transfers as the ones
  taken beyond them (`PrefixDropAsMultiset`; `PrefixDropLosesOrderOnly`).
- `AppendBlockDirectly` does not look at balances and lets `SYSTEM_GENESIS` mine.
  An accepted block leaves the balances as far from the issued supply as they were,
  on any ledger, if and only if its senders'
  shortfalls and the wraps of its additions make up for what is not credited
  (`AppendConservesIff`). Where the wraps cancel out, that is: for a credited
  miner, if and only if every sender can pay; for `SYSTEM_GENESIS`, if and only if
  the shortfalls add up to the fees and the reward (`AppendConservesIffFunded`).
  `AppendMintsCoin`, `AppendLosesReward` and `AppendMintsWrappedCost` are three
  accepted blocks that break the balance, the last two with senders who can pay.
- The validator recomputes no hash and checks no difficulty against the parent's:
  given any accepted block, one with another nonce, hash, difficulty, bits and
  message is accepted if and only if its hash meets its difficulty and it is not
  too large (`VerdictReadsHashOnce`; `AppendTakesForgedBlock`,
  `EveryBlockCanBeForged`). A chain is what its blocks hash to, and follows the
  difficulty rule, if and only if the blocks brought in from outside do
  (`EveryRunAuthenticIff`, `EveryRunRetargetedIff`).
- No transfer's nonce is ever compared with its sender's. While a node is up, a
  step keeps every transfer single in chain, flight and queue if and only if what
  it brings in is new and the selection passes over nothing it drops
  (`StepKeepsSingleIff`); in runs of such steps no transfer is applied twice
  (`EveryRunAppliesOnce`). A block rolled back and appended again has its
  transfers queued once more (`ReappendDoublesCopies`), and `PaymentAppliedTwice`
  is a payment that is then mined a second time.
- The hash of a block commits neither to its miner nor to its bits, and to its
  transfers only through their signatures run together (`HashIgnores`,
  `MinerNotCommitted`). The fields it covers are joined without a separator. Two
  blocks that differ in one field, or whose printed fields have the same lengths,
  hash the same bytes if and only if all the fields agree (`HashCommits`); beyond
  that a digit may pass from one field to the next (`FieldsRunTogether`).
- A transfer whose value plus fee exceeds a uint64 costs its sender the wrapped
  sum: `FundedTransferConservesIff`; `WrappedCostMintsCoins`.
- Blocks mined for `SYSTEM_GENESIS` are credited live and not on replay:
  `LiveAgreesIffCredited`; `GenesisMinerLosesReward`.
- `SpawnGenesis` does not compare its hash with the checkpoint; a restart comes
  up if and only if the stored genesis hash is the checkpoint's
  (`RestartReproduces`, `FreshNodeRestartsIff`; `FreshNodeCannotRestart`).
- The cast of the next difficulty to uint32 can drop it to zero:
  `RetargetPositiveIff`; `DifficultyCastToZero`. The comment that difficulty is
  always at least 1 holds below that.
- The nonce counter of the search is a uint64. When nothing wins, a run of the
  first worker wraps it off the chunk grid and hashes the nonce 98384 twice
  (`WrappedCounterRepeats`). Coverage is stated for searches whose chunks all fit
  a uint64; what a search delivers is right even past that.

## Model

| member | source | states |
|---|---|---|
| `Digits.ParseUndoesFormat` | storage/db.go:59-71 | the decimal text a height is stored as parses back to the height |
| `Digits.FormatInjective` | storage/db.go:50-59 | two heights never share a decimal text |
| `Digits.ParsesUintIff` | storage/db.go:70-77 | a last index parses exactly when it is a non-empty string of digits below 2^64 |
| `Hex.DecodeUndoesEncode` | core/block.go:190-193 | the hex text of a hash decodes to the hash |
| `Hex.EncodedDigits` | core/block.go:190-193 | each byte prints as its two hex digits, high first |
| `Hex.DecodesIff` | internal/consensus/consensus.go:123-128 | text decodes exactly when it is hex digits of either case, of even length |
| `Transfers.PayloadRoundTrip` | core/tx.go:59-62 | a parser working from the right recovers recipient (dashes included), value, fee and nonce from the payload text |
| `Transfers.PayloadInjective` | core/tx.go:59-62 | two transfers have equal payload bytes exactly when recipient, value, fee and nonce agree |
| `Transfers.IdPreimageInjective` | core/tx.go:76-83 | for keys of one length, what ComputeID hashes determines everything but the signature |
| `Transfers.AddressReadsBack` | crypto/crypto.go:45-48 | an address is xcosh and 28 hex digits that decode to the first fourteen bytes of the key |
| `Transfers.SameAddressIff` | crypto/crypto.go:45-48 | two keys share an account exactly when their first fourteen bytes agree |
| `Transfers.IdPreimageReads` | core/tx.go:76-83 | what ComputeID hashes is the key and then the printed payload |
| `ProofOfWork.ShiftedMask` | internal/consensus/consensus.go:135-138 | an all-ones target shifted right is the shorter all-ones target |
| `Emission.HalvingSumClosedForm` | internal/consensus/consensus.go:87-93 | rewards halved e times add up to twice what was halved away less the one bits lost |
| `Emission.RewardIsShift` | internal/consensus/consensus.go:87-93 | the guard at 64 halvings never changes a reward |
| `Emission.EmissionClosedForm` | internal/consensus/consensus.go:87-93 | the exact sum of all rewards below any height, without a sum |
| `Emission.EmissionFinal` | internal/consensus/consensus.go:33-35 | from height 259,050,000 on rewards are zero and the emission is MaxSupply less 86,350,000 |
| `Emission.EmissionCapped` | internal/consensus/consensus.go:33-35 | no height's emission comes within 86,350,000 of MaxSupply |
| `ProofOfWork.ValueBelowPowerIffZeros` | internal/consensus/consensus.go:129-140 | a byte string is numerically below a power of two exactly when it has the leading zero bits |
| `ProofOfWork.PowCountsZeros` | internal/consensus/consensus.go:123-141 | a 32-byte hash is accepted exactly when it has min(256, 20 plus the difficulty above 1) leading zero bits |
| `ProofOfWork.PowAntitone` | internal/consensus/consensus.go:123-141 | what meets a difficulty meets every lower one |
| `Difficulty.RetargetStep` | internal/consensus/consensus.go:96-120 | the next difficulty for every parent and timestamp, from the elapsed seconds, uint32 cast included |
| `Difficulty.RetargetPositiveIff` | node/ledger.go:395-396 | for every parent and timestamp the next difficulty is at least 1 exactly when the cast drops no carry |
| `Difficulty.MinedDifficulty` | node/ledger.go:389-404 | a mined block's difficulty from the clock: up within 35 seconds of the tip, down beyond 70, kept between |
| `Difficulty.MinedBlockFollowsRule` | node/ledger.go:389-404 | mining extends a chain that follows the rule to one that does |
| `Difficulty.DifficultyBounds` | internal/consensus/consensus.go:96-120 | along a mined chain difficulty stays at least 1, moves by at most 1, climbs no faster than the height and needs 71 seconds per step down |
| `Blocks.ConsensusEngine.AssembleBlockData` | core/block.go:72-104 | the loop over signatures and the fallbacks produce the specified bytes |
| `Blocks.ConsensusEngine.Mine` | core/block.go:107-187 | fills the defaults and returns the delivered nonce with the hash of the filled block |
| `NonceSearch.StepKeepsInv` | core/block.go:145-180 | every atomic step of a worker or of the receiver keeps the search invariant |
| `NonceSearch.SearchCoversRange` | core/block.go:139-180 | in every interleaving whose chunks fit a uint64 no nonce is hashed twice, chunks are disjoint, and each nonce of the claimed range is hashed or in exactly one worker's tail |
| `NonceSearch.DeliveryWins` | core/block.go:163-186 | whatever the search delivers is a nonce whose own hash meets the target |
| `NonceSearch.WinnerIffFindKept` | core/block.go:163-186 | in every interleaving some hashed nonce wins exactly when a find is about to be sent, in the channel or delivered |
| `NonceSearch.SendIsDelivered` | core/block.go:169-186 | a send into the empty channel is received as that worker's nonce and hash |
| `NonceSearch.LeastWinnerIsDelivered` | core/block.go:139-186 | over any number of workers a run from the start delivers the least winning nonce from the first chunk on, with its hash |
| `NonceSearch.StoppedSearchEnds` | core/block.go:151-186 | after the stop channel closes every run is short, each worker finishing its turn, and what was delivered stays |
| `NonceSearch.CountersStep` | core/block.go:143-176 | the shared counter, the worker's own and the nonce it hashes, in closed form at every turn of a lone worker until past the wrap |
| `NonceSearch.WrappedCounterRepeats` | core/block.go:143-176 | with any number of workers and no nonce that wins there is a run from the start that wraps the counter and hashes a nonce twice |
| `Accounts.FundedIffNoShortfall` | node/ledger.go:182-186 | every sender can pay exactly when the shortfalls add up to nothing |
| `Accounts.ApplyTransfersSplits` | node/ledger.go:176-193 | replaying two runs of transfers is replaying them joined |
| `Accounts.NothingCredited` | node/ledger.go:195-208 | a block whose reward and fees come to zero, or whose miner is SYSTEM_GENESIS or empty, opens no account for its miner |
| `Accounts.RebuildCongruence` | node/ledger.go:175-209 | RebuildState only reads accounts through balances and nonces, absent ones as zero |
| `Statements.TransferReads` | node/ledger.go:176-193 | the balance of every account after one replayed transfer, self-transfers, wraps and short senders included |
| `Statements.ChainStatement` | node/ledger.go:175-209 | every balance after replaying any chain is what the account received, earned and lacked less what it spent, up to whole turns of a uint64 |
| `Statements.ChainNonce` | node/ledger.go:188 | every nonce after replaying any chain is the number of transfers the account signed on it |
| `Statements.EveryRunStatement` | node/ledger.go:129-520 | after every run that spends rightly, with nothing in flight, each live balance is exactly what the chain says was received and earned less what was spent |
| `Totals.TransferAccounting` | node/ledger.go:176-193 | one replayed transfer changes the total by its shortfall less its fee, up to counted wraps |
| `Totals.BlockAccounting` | node/ledger.go:175-209 | RebuildState on arbitrary accounts and blocks: the total changes by the reward (or less the fees, uncredited) plus the shortfalls, up to the counted wraps |
| `Totals.ReplayIssuesRewardIff` | node/ledger.go:175-209 | any block on any accounts issues exactly its reward if and only if shortfalls and wraps make up for what is not credited |
| `Totals.ReplayIssuesRewardIffFunded` | node/ledger.go:182-207 | where its wraps cancel out, a block issues exactly its reward if and only if every sender can pay (credited miner) or the shortfalls equal fees and reward (uncredited) |
| `Totals.FundedTransferConservesIff` | node/ledger.go:350-363 | an affordable transfer conserves coins exactly when its cost does not wrap (or the recipient's balance wraps too) |
| `Totals.FundedTransfersNeverWrap` | node/ledger.go:181-193 | when funded transfers of honest cost are replayed, no cost and no recipient's balance wraps a uint64 |
| `Totals.FundedBlockTotal` | node/ledger.go:195-208 | a funded block of honest costs adds exactly its reward |
| `Selection.LiveIsReplay` | node/ledger.go:344-363 | MineBlock's live debit and credit equal RebuildState's on an affordable transfer |
| `Selection.CollectCharacterised` | node/ledger.go:332-369 | which transfers the loop takes, that they fit and are funded in turn, and that live balances and nonces read as their replay |
| `Selection.ExplanationUnique` | node/ledger.go:335-369 | the record of taken and skipped transfers is determined by the mempool and accounts |
| `Selection.RecordMeans` | node/ledger.go:335-350 | an entry before the end of the record left room in 4 MiB less 512 bytes, and was taken exactly when the sender's balance then covered value and fee |
| `Selection.ConsiderOpensAccount` | node/ledger.go:344-349 | a transfer passed over opens an empty account for its sender |
| `Mempool.SortExists` | node/ledger.go:273-275 | every queue has a fee-ordered rearrangement for the sort to leave |
| `Mempool.HighestFeeIsMaximum` | node/ledger.go:286-299 | in a fee-ordered queue the reported highest fee is the maximum |
| `Mempool.CollectKeepsOrder` | node/ledger.go:332-373 | from a fee-ordered queue blocks come fee-ordered and the queue stays so |
| `Mempool.PrefixDropExact` | node/ledger.go:371-373 | the prefix drop splits the queue into the transfers taken and the rest, in order, if and only if no dropped entry was skipped |
| `Mempool.PrefixDropAsMultiset` | node/ledger.go:371-373 | order aside, it removes just the transfers taken if and only if the dropped entries skipped are the ones taken beyond them |
| `Validator.VerdictReadsHashOnce` | core/validator.go:22-107 | an accepted block with other nonce, hash, difficulty, bits and message is accepted exactly when its hash meets its difficulty and its size fits |
| `Validator.VerdictOnOtherMiner` | core/validator.go:45-53 | an accepted block under another miner is accepted exactly when that miner has the prefix (or is SYSTEM_GENESIS) and its size fits |
| `Acceptance.AcceptedIff` | core/validator.go:22-107 | a block is accepted on a parent exactly when height, time, link, miner prefix, proof of work, both constants, size and reward are as stated in plain values |
| `Acceptance.AcceptedAloneIff` | core/validator.go:38-42 | a block without a parent is accepted exactly when it is at height 0 and meets the same standards |
| `Acceptance.RefusalIsRight` | core/validator.go:22-107 | every refusal names a rule the block breaks |
| `Acceptance.RewardIsHalved` | internal/consensus/consensus.go:87-93 | the reward is 50 coins divided by two once per 7,850,000 blocks, rounded down |
| `Acceptance.RewardDueIs` | core/validator.go:91-99 | the reward due is the lesser of the schedule's and what is left to issue |
| `Acceptance.ValidChainIff` | core/validator.go:22-107 | a chain is valid exactly when it is genesis and blocks that each keep those rules |
| `Acceptance.EveryRunKeepsRules` | node/ledger.go:129-520 | after every run every block on the chain keeps them |
| `Chains.GenesisIs` | node/ledger.go:212-233 | the genesis block in plain values, 64 zero bytes before it |
| `Chains.ChainWellFormed` | core/validator.go:22-107 | on validated chains indices count, timestamps strictly increase, hashes link and every reward is the schedule's |
| `Chains.ChainSupply` | node/ledger.go:67-73 | the circulating supply is the emission, unwrapped, and the next reward due is never cut off |
| `Chains.CapNeverFires` | core/validator.go:94-99 | with the schedule's emission issued the cap and truncation branches do nothing |
| `Chains.ChainExtends` | core/validator.go:22-107 | a chain grows by a block exactly when the validator accepts it on the tip and supply |
| `Mining.FillKeepsReward` | core/block.go:110-112 | Mine's fallback for a zero reward changes nothing on a valid chain |
| `Mining.FillsZeros` | core/block.go:110-127 | Mine fills in just the fields that are zero |
| `Mining.MinedTime` | node/ledger.go:389-392 | a mined block is stamped with the clock when that is past the tip, else one second after it |
| `Mining.MinedFields` | node/ledger.go:398-419 | link, height, transfers, miner, nonce, bits and constants of a mined block |
| `Mining.MinedBlockHashes` | node/ledger.go:398-419 | a mined block's stored hash is the hash of the block as stored |
| `Mining.GenesisHashes` | node/ledger.go:212-233 | so is the genesis block's |
| `Mining.SearchDelivers` | core/block.go:163-186 | what the search for a drafted block delivers is a nonce MineBlock may use, with the finished block's own hash |
| `Mining.SelfCheckVerdict` | node/ledger.go:377-423 | the exact verdict of the self-check on a mined block |
| `BlockSize.SelfCheckFits` | node/ledger.go:333-342 | the self-check passes exactly when the envelope and the commas fit in the room left; 512 bytes for both is enough |
| `BlockSize.FullBudgetFailsSelfCheck` | node/ledger.go:421-423 | a queue on which MineBlock panics |
| `Storage.Database.SaveBlock` | storage/db.go:42-60 | the store after saving a block |
| `Storage.Database.GetLastIndex` | storage/db.go:63-78 | the parsed last index, or nothing |
| `Storage.Database.GetBlock` | storage/db.go:81-87 | the stored bytes at a height |
| `Storage.Database.DeleteBlock` | storage/db.go:90-104 | the store after deleting a block |
| `Storage.Database.ClearAll` | storage/db.go:107-124 | the batch loop empties the store |
| `Storage.BlockKeysDistinct` | storage/db.go:50-59 | block keys are injective and never the last-index key |
| `Storage.KeyReadsBack` | storage/db.go:50-51 | a block's key is block_ and a numeral that parses to its height |
| `Storage.ReadIff` | node/ledger.go:130-145 | the blocks read from any store are those that parse at heights up to the last index with no gap below |
| `Storage.ReadBack` | node/ledger.go:130-145 | loading returns exactly the chain the store holds |
| `Storage.SaveIsAtomic` | storage/db.go:52-59 | a save interrupted between its writes leaves the old chain or the new one |
| `Storage.DeleteIsAtomic` | storage/db.go:90-101 | a delete interrupted between its writes leaves the shorter chain |
| `Storage.DeleteUndoesSave` | storage/db.go:90-104 | deleting a block just saved restores every entry |
| `Storage.SaveUndoesDelete` | storage/db.go:42-60 | saving the block just deleted restores every entry |
| `LedgerNode.LedgerCore.GetTotalCirculatingSupply` | node/ledger.go:67-73 | the wrapping sum of the rewards |
| `LedgerNode.LedgerCore.VerifyConsensusIntegrity` | node/ledger.go:76-94 | goes on exactly when the checkpoint matches and the supply is within the cap |
| `LedgerNode.LedgerCore.RebuildState` | node/ledger.go:175-209 | updates the account map to the replay of the block |
| `LedgerNode.LedgerCore.SpawnGenesis` | node/ledger.go:212-236 | the ledger with the genesis block appended and stored |
| `LedgerNode.LedgerCore.LoadFromDisk` | node/ledger.go:129-172 | the chain, accounts and store after loading, wipe and panic included |
| `LedgerNode.InitializeLedger` | node/ledger.go:97-126 | the ledger a database comes up as |
| `LedgerNode.LedgerCore.AddToMempool` | node/ledger.go:243-279 | accepts exactly prefixed, verified transfers, overwrites the nonce and leaves a sorted queue |
| `LedgerNode.LedgerCore.GetMempoolFeeStats` | node/ledger.go:282-300 | count, highest and total fee, the highest the maximum of a sorted queue |
| `LedgerNode.LedgerCore.CollectTransfers` | node/ledger.go:327-375 | the first locked section takes what the selection says |
| `LedgerNode.LedgerCore.BuildBlock` | node/ledger.go:377-419 | the unlocked middle makes the specified block and sets the engine's difficulty |
| `LedgerNode.LedgerCore.CommitBlock` | node/ledger.go:425-437 | the second locked section appends, stores and credits |
| `LedgerNode.LedgerCore.MineBlock` | node/ledger.go:321-443 | the whole state after mining, refusal and self-check panic included |
| `LedgerNode.LedgerCore.RollbackBlock` | node/ledger.go:454-480 | the whole state after a rollback, or the refusal at genesis |
| `LedgerNode.LedgerCore.AppendBlockDirectly` | node/ledger.go:501-520 | the whole state after an append, or the refusal |
| `Runs.StepKeepsSound` | node/ledger.go:321-520 | every step of a node, crashes between writes and any accepted appended block included, keeps the invariant: live accounts are the replay, the chain is valid, the disk holds it |
| `Runs.EveryRunIsReplay` | node/ledger.go:129-520 | from an empty disk, in every run with any queue and any accepted blocks, live accounts equal the replay, the chain is valid, the supply is the emission and the disk reads as the chain |
| `Coins.ReplayTotal` | node/ledger.go:175-209 | the balances after replaying any chain from genesis: supply less genesis reward plus the blocks' imbalances |
| `Coins.EveryRunConservesIff` | node/ledger.go:129-520 | the exact balances after every run with any queue and any accepted blocks; coins are conserved exactly when the imbalances cancel out |
| `Coins.PayingConserves` | node/ledger.go:327-437 | where appended blocks spend rightly and costs fit, balances plus fees in flight equal the supply less the genesis reward, at every point between the locks |
| `Coins.CollectNeverWraps` | node/ledger.go:335-369 | in every state of a run that spends rightly no account holds more than MaxSupply and the selection's debits, credits and fee sum are exact |
| `Coins.CommitNeverWraps` | node/ledger.go:429-436 | the miner's balance with reward and fees stays within MaxSupply |
| `Coins.AppendNeverWraps` | node/ledger.go:501-516 | when a block that spends rightly is appended in such a run, every addition of its replay on the live accounts is exact |
| `Coins.ReplayNeverWraps` | node/ledger.go:175-209 | in every state of a run that spends rightly every addition of the replay of every block on the chain, as a rollback or a restart makes it, is exact |
| `Coins.EveryRunConserves` | node/ledger.go:129-520 | from an empty disk, every run that spends rightly conserves coins at every point |
| `Runs.RestartReproduces` | node/ledger.go:97-172 | a restart reproduces chain and replayed accounts and never wipes; it fails exactly on a checkpoint mismatch |
| `Runs.StartOutcome` | node/ledger.go:97-172 | what a start makes of every store: a new genesis without blocks, a wipe where the first block's parameters differ, else the blocks and their replay, or a panic on hash or cap |
| `Runs.SubmitSetsNonce` | node/ledger.go:260-269 | a submission sets the sender's nonce to the transfer's and changes nothing else of any account |
| `Runs.MineRefusesIff` | node/ledger.go:321-326 | MineBlock refuses exactly a miner without the prefix other than SYSTEM_GENESIS, and then changes nothing |
| `Runs.MineSetsDifficulty` | node/ledger.go:395-396 | mining leaves the engine at the block's difficulty |
| `Runs.CrashInRollbackKeeps` | node/ledger.go:465-471 | a rollback cut short is, on disk, done |
| `Runs.CrashInAppendKeeps` | node/ledger.go:512-516 | an append cut short is, on disk, done or not done |
| `Runs.MineIsBeginThenCommit` | node/ledger.go:321-443 | MineBlock undisturbed is its two locked sections in turn |
| `Coins.AppendConservesIff` | node/ledger.go:501-516 | on any ledger an accepted block leaves the gap between balances and supply as it was exactly when shortfalls and wraps make up for what is not credited |
| `Coins.AppendConservesIffFunded` | node/ledger.go:501-516 | one whose wraps cancel out does exactly when every sender can pay (credited miner) or the shortfalls equal fees and reward (SYSTEM_GENESIS) |
| `Histories.ChainMoves` | node/ledger.go:129-520 | a step leaves the chain, shortens it, or adds the one block it makes |
| `Histories.EveryRunAuthenticIff` | node/ledger.go:398-419 | after every run, all blocks on the chain are stored with their own hash exactly when those brought in from outside are |
| `Histories.AuthenticGrowsIff` | node/ledger.go:501-516 | a block put on an authentic chain keeps it authentic exactly when it hashes to what it says |
| `Histories.EveryRunRetargetedIff` | node/ledger.go:389-404 | after every run, all difficulties on the chain follow the rule exactly when those of blocks brought in from outside do |
| `Histories.RetargetedGrowsIff` | node/ledger.go:501-516 | a block put on a retargeted chain keeps it so exactly when its difficulty follows the rule on the tip |
| `Histories.EveryRunBoundsDifficulty` | node/ledger.go:389-404 | the difficulty bounds hold over the chain of every run whose blocks from outside follow the rule where they stand |
| `Histories.RunKeepsNonces` | node/ledger.go:356-357 | in runs without AddToMempool, with any accepted blocks, account nonces too are the replay's |
| `Histories.RunKeepsQueue` | node/ledger.go:271-275 | with AddToMempool and MineBlock only, the queue stays in fee order |
| `Histories.RunKeepsDisk` | storage/db.go:42-104 | when crashes fall between operations the store holds exactly the chain's blocks and the last index |
| `Commitments.HashIgnores` | core/block.go:72-104 | blocks that agree in what is hashed have one hash; miner, bits and transfers beyond their signatures are not hashed |
| `Commitments.HashCommits` | core/block.go:89-103 | of blocks differing in one field or printed at the same lengths, the hashed bytes are equal exactly when all hashed fields agree |
| `Commitments.DataReadsBack` | core/block.go:89-103 | who knows the sizes of the fields reads every field off the hashed bytes, in the source's order |
| `Commitments.SignatureCommitted` | core/block.go:73-77 | replacing a transfer changes the hashed bytes exactly when its signature changes |
| `Commitments.FieldsRunTogether` | core/block.go:89-103 | two different index and timestamp pairs that give the same bytes, in any block |
| `Commitments.MinerNotCommitted` | core/block.go:72-104 | an accepted block with its own hash keeps it under another miner |
| `Repeats.RollbackMovesCopies` | node/ledger.go:459-463 | a rollback moves the tip's transfers from chain to queue, each as often as it was |
| `Repeats.ReversedAt` | node/ledger.go:461-463 | a rollback puts the block's last transfer first |
| `Repeats.ReappendDoublesCopies` | node/ledger.go:454-520 | rolled back and appended again, a block has its transfers on the chain and in the queue |
| `Repeats.ReappendedIsMinedAgain` | node/ledger.go:320-520 | MineBlock then mines such a transfer a second time, provided its sender can still pay |
| `Repeats.StepKeepsSingleIff` | node/ledger.go:243-520 | while the node is up, a step keeps each transfer single exactly when it brings in nothing held and its selection passes over nothing it drops |
| `Repeats.EveryRunAppliesOnce` | node/ledger.go:129-520 | in runs of such steps, crashes and reorganisations included, no transfer is applied twice |
| `Submissions.EveryRunHoldsAdmissible` | node/ledger.go:243-279 | after every run, whatever is queued, in flight or on the chain has a verified signature and a prefixed recipient, or came in past AddToMempool |
| `Reorg.ReorgIsPathIndependent` | node/ledger.go:454-520 | after rolling back and appending a branch the accounts are the new chain's replay, and the branch is taken exactly when the new chain is valid |
| `Reorg.ReappendRestores` | node/ledger.go:454-520 | re-appending the blocks rolled back is always accepted and restores chain and store |
| `Reorg.RollbackUndoesAppend` | node/ledger.go:459-476 | rollback after append restores chain and store, queues the transfers reversed, and restores the accounts exactly when they were the replay |
| `Reorg.LiveAgreesIffCredited` | node/ledger.go:429-436 | a mined block's live credit agrees with its replay exactly when the miner is credited on replay |
| `Counterexamples.MineBlockPanics` | node/ledger.go:421-423 | a node with 512 queued transfers on which MineBlock panics at every clock reading |
| `Counterexamples.PrefixDropKeepsTheWrongOne` | node/ledger.go:371-373 | a queue from which the prefix drop removes the skipped transfer and keeps the one taken |
| `Counterexamples.PrefixDropLosesOrderOnly` | node/ledger.go:371-373 | a queue A, B, A that loses B and one A with an A passed over |
| `Counterexamples.AppendMintsCoin` | node/ledger.go:501-516 | an accepted block that adds one coin more than its reward |
| `Counterexamples.AppendLosesReward` | core/validator.go:47-52 | an accepted SYSTEM_GENESIS block whose reward enters the supply and no account |
| `Counterexamples.AppendMintsWrappedCost` | node/ledger.go:182-207 | an accepted, funded block that adds 2^64 coins more than its reward |
| `Counterexamples.AppendTakesForgedBlock` | core/validator.go:22-107 | an accepted block whose hash is not its own and whose difficulty is not the rule's |
| `Counterexamples.EveryBlockCanBeForged` | core/validator.go:22-107 | in every world any accepted block can be replaced by such a one, accepted exactly when it fits the size limit |
| `Counterexamples.WrappedCostMintsCoins` | node/ledger.go:344-363 | an empty account that pays out 2^64-1 |
| `Counterexamples.GenesisMinerLosesReward` | node/ledger.go:429-436 | a SYSTEM_GENESIS miner's live reward that no replay knows |
| `Counterexamples.FreshNodeRestartsIff` | node/ledger.go:97-172 | a node started on an empty disk comes up again exactly when its genesis hash is the checkpoint's |
| `Counterexamples.FreshNodeCannotRestart` | node/ledger.go:97-172 | a genesis hash with which it never does |
| `Counterexamples.DifficultyCastToZero` | node/ledger.go:395-396 | an accepted block after which MineBlock drafts at difficulty zero |
| `Counterexamples.PaymentAppliedTwice` | node/ledger.go:320-520 | a payment whose block is rolled back, appended again and followed by a block that holds it too |

## Left out

- Signatures, Keccak and JSON: foreign code, supplied by `World`. `BlockSize` asks of JSON only that an array takes its elements and the commas between them.
- Storage errors, and a ledger without a database: LevelDB is a map, each write taking effect at once.
- Account records behind pointers: an account is a value in the map; the Go map never shares a record between two keys.
- Blocks and transfers behind pointers: they are values, and `Mine` returns the block it fills in.
- Runs in which blocks do not survive the JSON round trip, or the node mines for `SYSTEM_GENESIS`: `LiveAgreesIffCredited` says when the second leaves live accounts and replay apart.
- Keys shorter than 14 bytes: deriving their address panics in Go; the key type excludes them.
- NonceSearch.SearchCoversRange: stated while every claimed chunk fits a uint64, because past the wrap no nonce-once property holds (`WrappedCounterRepeats`).
- Blocks.ConsensusEngine.Mine: does not say that the nonce wins, because it takes the nonce the search delivers as an input and is right about the hash for every nonce; `SearchDelivers` proves that every delivery wins.
- Termination of the nonce search: runs and the self-check theorems ask of the nonce only what `SearchDelivers` proves of every delivery.
- AddToMempool.sort: `sort.Slice` is any fee-ordered rearrangement.
- `GetBlockByHash`, `GetLatestBlock`, `StartLiveWorker`, `VerifyBlockReward`, `VerifyBlockReorgTransition`, `ComputeHeaderHash`: lookups, tickers and functions the ledger does not use.
- `internal/reorg.go`: its functions only print.
- Peer-to-peer, RPC, command line, wallet, configuration and display: only the queue arrivals they cause are kept, as the `Arrive` step.
- Rollback and append while a block is being mined: the source calls them from nowhere, so runs take them between blocks.
- LedgerNode.LedgerCore.GetMempoolFeeStats: does not return the average fee, because it is a floating-point display; the total it is taken of is returned.
- Coin display: floating point.
