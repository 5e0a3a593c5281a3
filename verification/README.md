# Verification of the chain core

This project models the core of a delegated-proof-of-stake blockchain node and
proves what its parts promise, in Dafny 4.11. `dafny verify dfyconfig.toml`
checks everything.

- **Undo and forks.** `UndoDatabase` gives the difference records and their merge
  as values and relates every run to a stack of full snapshots; `ObjectDatabase`
  is the object store that keeps them in place. `ForkDatabase` is the tree of
  recent blocks, `ChainHistory` says what it means that undo records and blocks
  belong together, and `ChainDatabase` applies, pops and switches. `SwitchExample`
  drives it from an empty database to a switch. `Blocks` and `Options` hold shared
  datatypes. Applying a block is any deterministic rule
  that yields a list of writes, a verdict and a new undo depth.
- **Money.** `Vesting` has both vesting policies, `Ledger` the books and every
  operation on them, `Operations` exactly when each one succeeds, `Votes` the
  tally, `Payout` the pay of a block, `Issuance` the reward tables, `FeeBudget`
  the arithmetic of the budget, and `Treasury` puts them together over whole runs.
- **Consensus.** `Schedule` (slots and turns), `Irreversible` (confirmation) and
  `Deduplication` (each transaction once).
- **Sync.** `Synopsis` is the chain summary that two components build halves of.
- **Kernels.** `ModularArithmetic` and `Interpolation` serve `ShamirSecret` and
  `DeliveryProof`; `AmountText` prints and reads amounts; `Arithmetic` holds small
  facts about products and quotients.

Objects that the source changes in place are classes; their methods are proved
against functions or declarative contracts, and the promises are lemmas about
those. Exceptions are results. A session that ends without commit or merge
undoes its work, as its callers rely on.

## Findings

- `clear_expired_transactions` looks at the entry that expires last, not first
  (`libraries/chain/db_update.cpp:249`). The index is therefore emptied at once when
  everything in it has expired and left alone otherwise, although its comment
  says that expired transactions are removed. The model follows the code; copies
  are kept out either way.
- Between blocks 545,000 and 563,500 the voters of a block are those of the moment,
  while their power and the miner's total are those of the last tally. Shares can
  then exceed the reward. They stay within every reward exactly when the powers add
  up to no more than the total.
- Blocks may be stamped off the slots; what keeps the fee budget from being
  overdrawn is that a maintenance interval is a multiple of the block interval
  (`libraries/chain/protocol/fee_schedule.cpp:178`), so that maintenance is due on a
  slot. When the block interval itself changes, the next maintenance can come off
  the new slots, and the interval before it can then have one block too many. It
  cannot exactly when the two maintenance times fit.
- Account updates do not check that the voting account exists, as account creation
  does (`libraries/chain/account_evaluator.cpp:84`); the tally throws exactly when
  one does not.
- A linear vesting balance that takes deposits makes its own asserts fail after
  the cliff; no caller deposits into one.
- Negative amounts with decimals are not printed in a form that reads back; all
  other amounts are.
- With a quorum of zero, no shares at all count as enough to recover a secret.

## Model

| member | source | states |
|---|---|---|
| UndoDatabase.RunRefines | libraries/db/undo_database.cpp:33-283 | over every run of creates, changes, removals, session starts, undos, merges, commits and pop-commits with the active sessions within the maximum depth, the stack of difference records succeeds exactly when a stack of full snapshots does and stands for it throughout |
| UndoDatabase.StepRefines | libraries/db/undo_database.cpp:33-283 | the same for one operation: undo and pop-commit give back the snapshot taken when the record began |
| UndoDatabase.StartDropsOnlyCommitted | libraries/db/undo_database.cpp:33-46 | starting a session drops only the oldest committed records if and only if the active sessions fit the maximum depth |
| UndoDatabase.MergeLaw | libraries/db/undo_database.cpp:127-240 | the merge of two consecutive records records the change from the older state to the newest, and restoring it is restoring the newer and then the older |
| UndoDatabase.MergeFollowsTable | libraries/db/undo_database.cpp:133-185 | the merged record has, for every object, the cell that the table of the source gives, and still only one cell per object |
| UndoDatabase.NoIllegalCells | libraries/db/undo_database.cpp:190-226 | for consecutive records the combinations that the two asserts exclude never occur |
| UndoDatabase.RestoreGivesBack | libraries/db/undo_database.cpp:95-126 | restoring a record gives back objects and next ids exactly as they were when it began |
| UndoDatabase.CreateRecords | libraries/db/undo_database.cpp:47-59 | recording a creation keeps the record faithful to its starting state |
| UndoDatabase.ModifyRecords | libraries/db/undo_database.cpp:60-72 | so does recording a change, whichever of the three sets the object is in |
| UndoDatabase.RemoveRecords | libraries/db/undo_database.cpp:73-94 | so does recording a removal, whichever of the three sets the object is in |
| ObjectDatabases.ObjectDatabase.OnCreate | libraries/db/undo_database.cpp:47-59 | the hook in place: the top record takes the new id and the first next id of its index |
| ObjectDatabases.ObjectDatabase.OnModify | libraries/db/undo_database.cpp:60-72 | the hook in place: the old value is kept unless the object is new or already recorded |
| ObjectDatabases.ObjectDatabase.OnRemove | libraries/db/undo_database.cpp:73-94 | the hook in place: new objects are forgotten, others move to the removed set with their first value |
| ObjectDatabases.ObjectDatabase.StartUndoSession | libraries/db/undo_database.cpp:33-46 | a session starts: old records beyond the depth are dropped, an empty record is added, and the snapshot model gains the current state |
| ObjectDatabases.ObjectDatabase.UndoSession | libraries/db/undo_database.cpp:95-126 | the four loops give back the state of the snapshot model and drop its top |
| ObjectDatabases.ObjectDatabase.MergeSession | libraries/db/undo_database.cpp:127-240 | the loops of the merge compute the merged record, and the snapshot model drops the newer of its two snapshots |
| ObjectDatabases.ObjectDatabase.CommitSession | libraries/db/undo_database.cpp:241-246 | one session fewer is active; fails without one |
| ObjectDatabases.ObjectDatabase.PopCommitted | libraries/db/undo_database.cpp:247-283 | restores the last committed record; fails with active sessions or an empty stack |
| ObjectDatabases.MergeRecords | libraries/db/undo_database.cpp:182-239 | the merge loops in place equal the merged record for any two consecutive records |
| ForkDatabases.ForkDatabase.PushBlock | libraries/chain/fork_database.cpp:58-112 | exactly when a block is refused as too old or not linkable; otherwise it is linked to the item of its parent, and index and head are exactly those with one more item, which becomes the head when it is higher and then pushes the lowest ones out |
| ForkDatabases.AddedJoins | libraries/chain/fork_database.cpp:92-105 | the same in numbers: a higher item becomes the head and keeps exactly the items at most the maximum size below it; any other just joins |
| ForkDatabases.ForkDatabase.FetchBranchFrom | libraries/chain/fork_database.cpp:199-241 | succeeds exactly when a common proper ancestor can be reached; the two paths start at the given blocks and end on the highest one |
| ForkDatabases.PathIsBranch | libraries/chain/fork_database.cpp:199-241 | such a path is linked parent by parent, with falling numbers, down to the block on the ancestor |
| ForkDatabases.ForkDatabase.MeetBranches | libraries/chain/fork_database.cpp:224-238 | the loop that steps down on both sides stops at the highest common parent or when a link is gone |
| ForkDatabases.ForkDatabase.Descend | libraries/chain/fork_database.cpp:206-223 | the loops that bring both sides to one height, and when they fail |
| ForkDatabases.ForkDatabase.PopBlock | libraries/chain/fork_database.cpp:39-45 | the head steps back, unless there is none or its parent is gone |
| ForkDatabases.ForkDatabase.SetMaxSize | libraries/chain/fork_database.cpp:129-158 | exactly the items below the new depth are erased |
| ForkDatabases.ForkDatabase.SetHead | libraries/chain/fork_database.cpp:243-246 | the head is replaced and nothing else |
| ForkDatabases.ForkDatabase.Remove | libraries/chain/fork_database.cpp:248-251 | one item leaves the index |
| ChainDatabases.ChainDatabase.PushBlock | libraries/chain/db_block.cpp:130-248 | exactly when a block is refused by the fork database, applied or refused on the head, ignored, or leads to a switch, and what state, records, block file and fork database are then; a switch starts from the fork database with the block added |
| ChainDatabases.ChainDatabase.SwitchTo | libraries/chain/db_block.cpp:143-206 | happens exactly when the branches are related, along the paths down to their highest common parent; when the popping loop can reach the branching point it succeeds exactly when the new branch can be replayed from there; the result of a success is that replay, with its blocks in the block file in place of the old ones, the transactions of the old ones popped, and all its records exactly when each block keeps the depth for those up to it; with enough history for the way back a failure restores the state, and the records of the old branch exactly when its blocks keep the depth for them, the failing block and those above it leave the fork database, and the transactions of what was applied are popped too |
| ChainDatabases.ReachBySharedTop | libraries/chain/db_block.cpp:150-152 | the branching point can be reached when the old branch holds the newest recorded blocks, they can be fetched, and the fork head is that of the new branch |
| ChainDatabases.ChainDatabase.ReplayOrRecover | libraries/chain/db_block.cpp:156-203 | the new branch is replayed block by block; on failure the failing block and those above it leave the fork database, and the old branch is applied again |
| ChainDatabases.ChainDatabase.Rewind | libraries/chain/db_block.cpp:150-152 | popping down to the shared ancestor undoes exactly the blocks of the old branch, and steps the fork head back as often |
| ChainDatabases.ChainDatabase.Recover | libraries/chain/db_block.cpp:175-202 | the failure path: the rest of the new branch leaves the fork database, what was applied is popped, and the old branch applied again; with enough history the state before the switch is back |
| ChainDatabases.ChainDatabase.PopBlock | libraries/chain/db_block.cpp:463-479 | exactly when a block can be popped; the state before it is back, its record is gone, the fork head steps back, the block is gone from the block file, and its transactions are put before those popped earlier |
| ChainDatabases.ChainDatabase.PopTo | libraries/chain/db_block.cpp:150-152 | popping down to a block that can be reached undoes all blocks above it: state, records, block file, and their transactions in order |
| ChainDatabases.ChainDatabase.FetchBlockById | libraries/chain/db_block.cpp:70-76 | the block with the id: the fork database's, or else the block file's if it is there under that id |
| ChainDatabases.ChainDatabase.RemoveSlot | libraries/chain/block_database.cpp:97-114 | the entry of the block, and no other, is emptied; fails exactly beyond the end of the file |
| ChainDatabases.SwitchReturns | libraries/chain/db_block.cpp:463-479 | after a switch the transactions of the old branch, oldest block first, wait before those popped earlier |
| ChainDatabases.SwitchStores | libraries/chain/db_block.cpp:150-166 | after a switch the block file has the blocks of the new branch at their numbers and is otherwise as before |
| ChainDatabases.ChainDatabase.PushTransaction | libraries/chain/db_block.cpp:272-295 | a transaction works on top of the pending ones or leaves no trace, never touches the state of the head block, and of the records drops exactly those beyond the depth |
| ChainDatabases.ChainDatabase.ClearPending | libraries/chain/db_block.cpp:481-490 | nothing that pending transactions did is left, and all records of blocks are |
| ChainDatabases.ChainDatabase.PushDirect | libraries/chain/db_block.cpp:209-245 | a block on the head is applied exactly when it is valid, with exactly one more record on those that the depth leaves, and stored; else the state is as before and the block leaves the fork database |
| SwitchExample.Run | libraries/chain/db_block.cpp:130-206 | from an empty database by four pushed blocks to a switch that works and leaves over the one transaction of the block switched away from |
| SwitchExample.Enough | libraries/chain/db_block.cpp:143-206 | its history is enough for the switch, and would have been for the way back |
| ChainHistory.HistoryReplays | libraries/chain/db_block.cpp:158-166 | the last blocks, replayed from the state their records give back, lead to the current state |
| ChainHistory.PopKeepsHistory | libraries/chain/db_block.cpp:463-479 | popping a block leaves the history of the remaining ones intact |
| ChainHistory.PushKeepsHistory | libraries/chain/db_block.cpp:162-165 | applying a block in a committed session adds exactly one record to the history |
| ChainHistory.HistoryLinks | libraries/chain/db_block.cpp:736-739 | the blocks with a record are linked and numbered without gaps, up to the head |
| ChainHistory.ApplyExactly | libraries/chain/db_block.cpp:525-603 | a block applies exactly when all its checks pass and each of its writes can be done after the others; then those writes lead to the new state |
| ChainHistory.ApplyTxExactly | libraries/chain/db_block.cpp:640-691 | so does a transaction |
| ShamirSecrets.QuorumRecovers | libraries/encrypt/encryptionutils.cpp:348-392 | any quorum or more different shares of a split give the secret back, exactly when it is a residue (none given: exactly when it is zero) |
| ShamirSecrets.ConstantRecovered | libraries/encrypt/encryptionutils.cpp:371-392 | as many points as coefficients, at different nonzero positions modulo a prime, interpolate to the constant term |
| ShamirSecrets.ShamirSecret.CalculateSplit | libraries/encrypt/encryptionutils.cpp:348-369 | share k stands at position k and holds the value there of the polynomial with the secret as constant term |
| ShamirSecrets.ShamirSecret.CalculateSecret | libraries/encrypt/encryptionutils.cpp:371-392 | the nested loops compute the interpolation sum, term by term |
| ShamirSecrets.InnerLoop | libraries/encrypt/encryptionutils.cpp:378-388 | numerator and denominator are the products of position differences over all other points |
| Interpolation.ConstantTermRecovered | libraries/encrypt/encryptionutils.cpp:376-390 | Lagrange interpolation at zero, for every set of positions and every polynomial with no more coefficients than positions |
| Interpolation.WeightsSumToOne | libraries/encrypt/encryptionutils.cpp:376-390 | the interpolation weights of any set of positions add up to one |
| ModularArithmetic.InvertCorrect | libraries/encrypt/encryptionutils.cpp:389 | the multiplicative inverse is found whenever there is one |
| DeliveryProofs.Completeness | libraries/encrypt/encryptionutils.cpp:243-346 | when the incoming ciphertext decrypts to the message under the prover's key and the elements are invertible, every proof passes all three equations, for all random draws, with unreduced exponents and any hash function |
| DeliveryProofs.Accepted | libraries/encrypt/encryptionutils.cpp:243-346 | an honest proof passes if and only if the incoming ciphertext, raised to the challenge, holds the same message |
| DeliveryProofs.VerifierExactly | libraries/encrypt/encryptionutils.cpp:243-281 | the verifier accepts a proof exactly when three congruences without inverses hold, for any proof and any hash function |
| DeliveryProofs.TwoAnswers | libraries/encrypt/encryptionutils.cpp:243-281 | two accepted answers to the same commitments tie the key, the outgoing ciphertext and the quotient of the ciphertexts to one exponent each |
| DeliveryProofs.AnswersAgree | libraries/encrypt/encryptionutils.cpp:263-269 | two accepted answers to one challenge are the same as powers |
| DeliveryProofs.EncryptWithProof | libraries/encrypt/encryptionutils.cpp:285-346 | the outgoing ciphertext and the proof the prover computes |
| DeliveryProofs.ThirdEquation | libraries/encrypt/encryptionutils.cpp:271-280 | the third equation alone, reduced to that condition |
| DeliveryProofs.ResponseEquation | libraries/encrypt/encryptionutils.cpp:263-269 | the shape shared by the first two equations, which holds always |
| DeliveryProofs.MessageRoundTrip | libraries/encrypt/encryptionutils.cpp:130-198 | a message comes back from encryption exactly when its number is below the modulus |
| DeliveryProofs.LargestMessageLost | libraries/encrypt/encryptionutils.cpp:130-198 | in the group the program uses the largest message does not come back |
| DeliveryProofs.ElGamalEncrypt | libraries/encrypt/encryptionutils.cpp:130-162 | the ciphertext the method computes is the one these results are about |
| DeliveryProofs.Decrypt | libraries/encrypt/encryptionutils.cpp:165-198 | so is the message that decryption computes |
| DeliveryProofs.DecryptEncrypt | libraries/encrypt/encryptionutils.cpp:130-198 | decryption undoes encryption up to the modulus |
| Vesting.CoinSecondsBound | libraries/chain/vesting_balance_object.cpp:86-142 | over any run withdrawals plus what is left never exceed the start plus the time-integral of the balance plus deposits that vest at once, and equal them exactly when the cap cuts nothing off |
| Vesting.CoinSecondsKept | libraries/chain/vesting_balance_object.cpp:86-142 | over any run the cap holds, and withdrawals, what is left and what the cap cut off add up to exactly what was there, was earned or was given |
| Vesting.Accrual | libraries/chain/vesting_balance_object.cpp:86-99 | between events exactly the balance times the elapsed time is earned, but for what the cap cuts off |
| Vesting.AllowedExactly | libraries/chain/vesting_balance_object.cpp:107-115 | a withdrawal is allowed exactly when claims have begun and it is covered by the balance and by coin-seconds |
| Vesting.HeldIsFree | libraries/chain/vesting_balance_object.cpp:107-115 | money that has lain for a whole period can all be withdrawn |
| Vesting.VestedExactly | libraries/chain/vesting_balance_object.cpp:46-56 | nothing has vested before the cliff, all of it after the period, and in between the part of the period, rounded down |
| Vesting.LinearAllowedExactly | libraries/chain/vesting_balance_object.cpp:37-69 | a withdrawal from a linear balance is allowed exactly when the cliff is behind and what has vested covers it and all earlier ones |
| Vesting.UpdatesInvisible | libraries/chain/vesting_balance_object.cpp:86-105 | extra updates change neither the payouts of a run nor anything seen after it |
| Vesting.SplitIndependence | libraries/chain/vesting_balance_object.cpp:86-105 | updating in between gives the same coin-seconds as updating once |
| Vesting.AllowedIsCovered | libraries/chain/vesting_balance_object.cpp:107-142 | a withdrawal that is allowed is covered by the balance and by the coin-seconds, so the asserts hold |
| Vesting.StepAccounts | libraries/chain/vesting_balance_object.cpp:119-142 | deposits, vested deposits and withdrawals change the balance and the recorded coin-seconds by exactly their amount, and nothing else |
| Vesting.LinearAsserts | libraries/chain/vesting_balance_object.cpp:37-69 | after any run of deposits and withdrawals on a fresh linear balance the asserts hold if and only if the cliff is ahead or no more was deposited than withdrawn |
| Vesting.WithdrawOnlyAsserts | libraries/chain/vesting_balance_object.cpp:37-84 | with withdrawals alone the asserts never fire and no allowed withdrawal exceeds the balance |
| Vesting.DepositTripsAssert | libraries/chain/vesting_balance_object.cpp:207-212 | a deposit into a fresh linear balance makes the assert fail after the cliff |
| Vesting.VestingBalance.Deposit | libraries/chain/vesting_balance_object.cpp:207-212 | the policy is brought up to date before the balance grows |
| Vesting.VestingBalance.DepositVested | libraries/chain/vesting_balance_object.cpp:125-129 | a vested deposit brings its full coin-seconds; a linear policy refuses it |
| Vesting.VestingBalance.Withdraw | libraries/chain/vesting_balance_object.cpp:226-232 | coin-seconds are spent with the money |
| Ledgers.OperationEffect | libraries/chain/include/graphene/chain/evaluator.hpp:141-153 | every operation that succeeds changes each balance, each owner's vesting balances, the hidden supply and the collected fees by exactly what it says, leaves no balance negative, and keeps the supply figures as true as they were |
| Operations.TransferExactly | libraries/chain/transfer_evaluator.cpp:89-163 | a transfer succeeds exactly when the sender can pay amount and fee (to itself, each of them); the amount moves and the fee is the sender's |
| Operations.HideExactly | libraries/chain/confidential_evaluator.cpp:55-77 | money is hidden, by either operation, exactly when its owner can pay amount and fee and the confidential supply stays at least zero |
| Operations.FromBlindExactly | libraries/chain/confidential_evaluator.cpp:104-126 | hidden money comes out exactly when the confidential supply covers amount and fee; no account pays the fee |
| Operations.BlindExactly | libraries/chain/confidential_evaluator.cpp:158-188 | a blind transfer succeeds exactly when the confidential supply covers its fee |
| Operations.FromConfidentialExactly | libraries/chain/confidential_evaluator.cpp:275-395 | a confidential transfer succeeds exactly when neither the confidential supply nor any balance falls below zero while fee and outputs come out one by one |
| Operations.OutputsExactly | libraries/chain/confidential_evaluator.cpp:275-395 | with no negative output that is when the confidential supply covers fee and outputs |
| Operations.CreateExactly | libraries/chain/vesting_balance_evaluator.cpp:90-112 | a vesting balance is created exactly when the amount is positive and its creator can pay amount and fee; what it holds at first |
| Operations.WithdrawExactly | libraries/chain/vesting_balance_evaluator.cpp:114-168 | a withdrawal succeeds exactly when the vesting balance exists, is the owner's and allows the amount, and the owner can then pay the fee |
| Operations.OtherExactly | libraries/chain/include/graphene/chain/evaluator.hpp:141-153 | any other operation succeeds, as far as the ledger goes, exactly when its payer can pay the fee |
| Operations.FeeWhen | libraries/chain/include/graphene/chain/evaluator.hpp:141-153 | the fee can be taken exactly when the payer's balance after the operation covers it |
| Ledgers.AdjustedEffect | libraries/chain/db_balance.cpp:54-80 | an adjustment fails exactly when it would leave the account below zero; otherwise it changes that balance and no other |
| Ledgers.LazyDepositEffect | libraries/chain/db_balance.cpp:82-128 | the owner's vesting balances grow by the amount and no one else's change, whether the old balance is reused or a new one made |
| Ledgers.LazyDepositExactly | libraries/chain/db_balance.cpp:82-128 | the balance that can be reused grows, or a new one is opened; what is to vest brings no coin-seconds with it, anything else all of them |
| Ledgers.Ledger.AdjustBalance | libraries/chain/db_balance.cpp:54-80 | the adjustment in place |
| Ledgers.Ledger.Evaluate | libraries/chain/evaluator.cpp:43-97 | the fee is booked, the operation performed and the fee taken; a failure anywhere leaves the ledger as it was |
| Ledgers.Ledger.Perform | libraries/chain/confidential_evaluator.cpp:55-393 | the ledger effect of each operation in place |
| Ledgers.TransferEffect | libraries/chain/transfer_evaluator.cpp:162-163 | a transfer moves the amount from one account to the other |
| Ledgers.HidingEffect | libraries/chain/confidential_evaluator.cpp:55-77 | what leaves the account joins the confidential supply; so for both operations that hide money |
| Ledgers.FromBlindEffect | libraries/chain/confidential_evaluator.cpp:104-126 | the amount and the fee leave the confidential supply, the fee by way of the temporary account |
| Ledgers.BlindEffect | libraries/chain/confidential_evaluator.cpp:158-188 | only the fee leaves the confidential supply |
| Ledgers.Ledger.CreditAndHide | libraries/chain/confidential_evaluator.cpp:205-260 | an account is credited and the confidential supply changed, which must not become negative |
| Ledgers.FromConfidentialEffect | libraries/chain/confidential_evaluator.cpp:275-395 | each open output is paid out of the confidential supply, together with the fee |
| Ledgers.CreateEffect | libraries/chain/vesting_balance_evaluator.cpp:90-112 | the amount moves from the creator into a new vesting balance of the owner |
| Ledgers.WithdrawEffect | libraries/chain/vesting_balance_evaluator.cpp:133-168 | the amount moves from the vesting balance to the owner |
| Ledgers.Ledger.PayFee | libraries/chain/evaluator.cpp:73-88 | the fee is added to the collected fees |
| Ledgers.Ledger.GetRealSupply | libraries/chain/db_cyva.cpp:113-132 | the two loops add up all account balances and all vesting balances |
| Votes.Tally | libraries/chain/db_maint.cpp:219-276 | throws exactly when a voting account does not exist; otherwise, for every miner with votes, the recorded power of the balances cast for it is within its total, and recorded stake, chosen miner and totals are what the accounts say |
| Votes.AllRecorded | libraries/chain/db_maint.cpp:239-252 | what is recorded beside each balance: the account's stake, and the first miner its opinion account votes for |
| Votes.TalliedStep | libraries/chain/db_maint.cpp:254-260 | every account adds its stake to a candidate once for each vote its opinion account has for it |
| Votes.VotedFirst | libraries/chain/include/graphene/chain/account_object.hpp:477-482 | the miner chosen is that of the first vote for a miner, and none without such a vote |
| Votes.SoundIsCountable | libraries/chain/db_maint.cpp:242-244 | no stake is ever negative, because pay balances of accounts never are |
| Votes.TallyVotes | libraries/chain/db_maint.cpp:235-276 | the loops record each account's stake and first miner and add the stake once for every vote of the opinion account |
| Votes.PowerWithinTally | libraries/chain/db_maint.cpp:235-276 | the recorded power never exceeds what the buffer counted |
| Votes.UpdateTotals | libraries/chain/db_maint.cpp:102-107 | each miner takes over its part of the buffer |
| Votes.PowerForSame | libraries/chain/db_balance.cpp:54-80 | moving money leaves the recorded power where it was |
| Payouts.UpdateSigningMiner | libraries/chain/db_update.cpp:101-206 | voters and miner get exactly the whole pay: up to block 544,999 all of it is the miner's, up to 563,499 the accounts now voting for it have their floored parts of three fifths, and then those that did at the last tally, with two fifths at least for the miner; the fees are the floored part of the budget; the check passes whenever the tally covers the recorded power, and the supply figures stay true |
| Payouts.PaidInTime | libraries/chain/db_update.cpp:131-199 | who gains what, by block number |
| Payouts.OwnShare | libraries/chain/db_update.cpp:187-194 | what one of different voters gets |
| Payouts.FeesArePart | libraries/chain/db_update.cpp:107-123 | the part of the fee budget one block takes, rounded down |
| Payouts.MinerKeepsTwoFifths | libraries/chain/db_update.cpp:171-199 | the shares are at most three fifths of the pay, so the miner keeps at least two |
| Payouts.SharesWithinExactly | libraries/chain/db_update.cpp:184-196 | shares stay within every reward if and only if the powers add up to no more than the total votes |
| Payouts.LiveVotersOverpaid | libraries/chain/db_update.cpp:135-169 | between the two switch-over blocks live votes can make the shares exceed the reward |
| Payouts.PayVoters | libraries/chain/db_update.cpp:187-194 | the loop pays each voter its share and adds up exactly what it paid |
| Payouts.DepositLazyVesting | libraries/chain/db_balance.cpp:82-128 | which vesting balance is reused, or what a new one holds |
| Payouts.DepositAccountPay | libraries/chain/db_balance.cpp:189-210 | the account's pay balance grows, or a new one is kept |
| Payouts.DepositMinerPay | libraries/chain/db_balance.cpp:166-187 | the miner's pay balance grows, or a new one is kept |
| Payouts.AccountKeepsPay | libraries/chain/db_balance.cpp:189-210 | what is paid lies in a balance of the account that the next payment is added to |
| Payouts.MinerKeepsPay | libraries/chain/db_balance.cpp:166-187 | so it is for miners |
| Payouts.PayIsHeldBack | libraries/chain/db_balance.cpp:189-210 | a payment brings no coin-seconds: nothing more can be withdrawn for it at once |
| Payouts.MinerPayIsHeldBack | libraries/chain/db_balance.cpp:166-187 | so it is for miners |
| Treasuries.Treasury.PayBlock | libraries/chain/db_update.cpp:42-129 | a block in any later slot, stamped anywhere within it, keeps every invariant: true supply figures, covered votes, a fee budget within plan; it mines the reward of its number, takes the planned part of the budget, and every account gains what the rules for its number give it |
| Treasuries.Treasury.PerformMaintenance | libraries/chain/db_maint.cpp:219-348 | fails exactly when a voting account does not exist, and then changes nothing; otherwise maintenance keeps every invariant, sets the next time and the new budget, the supply equals what really exists, every stake and every miner's votes are counted anew, all else stays, and with an unchanged block interval maintenance stays on a slot |
| Treasuries.Treasury.ProcessBudget | libraries/chain/db_maint.cpp:134-216 | the assert on the supply holds, and all figures of the next interval are set |
| Treasuries.Treasury.ApplyOperation | libraries/chain/evaluator.cpp:43-97 | operations keep every invariant; failed ones change nothing |
| Treasuries.Treasury.NeverNegative | libraries/chain/db_update.cpp:125-129 | the unspent fee budget is never below zero and never above the budget |
| Treasuries.PlanStep | libraries/chain/db_update.cpp:107-129 | one more block, in any later slot, stays within the plan, with maintenance due or not |
| Treasuries.BudgetKeepsSupply | libraries/chain/db_maint.cpp:182-196 | the assert holds exactly when the figures agreed before |
| FeeBudget.BlocksFit | libraries/chain/db_update.cpp:107-109 | the blocks of an interval fit the plan if and only if the last budget stood on a slot or its distance from one is not more than that of the second before the next maintenance |
| FeeBudget.IntervalsCover | libraries/chain/db_update.cpp:107-109 | the planned number of blocks is the least number of intervals that cover the time |
| FeeBudget.OnSlotFits | libraries/chain/protocol/fee_schedule.cpp:177-178 | the times always fit when the next maintenance is on a slot |
| FeeBudget.NextOnSlot | libraries/chain/protocol/fee_schedule.cpp:177-178 | which it stays, because a maintenance interval is a multiple of the block interval |
| FeeBudget.OneBlockTooMany | libraries/chain/db_update.cpp:107-109 | after a change of the block interval there can be one block too many, at times that the rule for the next maintenance gives |
| FeeBudget.FullRun | libraries/chain/db_update.cpp:107-109 | there is a run with as many blocks as slots, all before the maintenance but the last |
| FeeBudget.Overdrawn | libraries/chain/db_update.cpp:107-109 | whenever the times do not fit, such a run overdraws a budget of one for each planned block |
| FeeBudget.NextIsLeast | libraries/chain/db_maint.cpp:304-335 | the next maintenance is in the future and the first aligned time that is |
| Issuance.IssuanceBound | libraries/chain/db_cyva.cpp:36-37 | no more than 20,000,000,000,000,000 is ever mined, reached exactly with block 4,081,173,368 |
| Issuance.NeverIncreases | libraries/chain/db_cyva.cpp:72-85 | the reward of a block never increases with its number |
| Issuance.RewardFalls | libraries/chain/db_cyva.cpp:37 | every entry of the table is four fifths of the one before, but for rounding, and smaller |
| Issuance.TableFollowed | libraries/chain/db_cyva.cpp:72-85 | every block of a stretch mines the entry of that stretch, and none after the last one |
| Issuance.UpperBound | libraries/chain/db_cyva.cpp:77-82 | the first split after the block |
| Irreversible.Confirmations.UpdateLastIrreversible | libraries/chain/db_update.cpp:208-241 | the number only rises, never passes the head, is confirmed by at least seven tenths of the active miners when it rises, and no larger number is |
| Irreversible.SelectionStands | libraries/chain/db_update.cpp:224-232 | the selected element has exactly that property, in whatever order the selection leaves the miners |
| Irreversible.NthElement | libraries/chain/db_update.cpp:226-230 | the selection in place rearranges and splits around the position |
| Irreversible.Confirmations.SignBlock | libraries/chain/db_update.cpp:201-205 | a block raises the head and the confirmation of its miner |
| Deduplication.TransactionIndex.ApplyBlock | libraries/chain/db_block.cpp:542-603 | a block is applied exactly when it is later than the head and each of its transactions is accepted, in time, not in the index, and not twice in the block; then the index is the one with all of them, cleared; else nothing changes; and no transaction id is ever applied twice along the chain |
| Deduplication.TransactionIndex.ApplyTransaction | libraries/chain/db_block.cpp:640-691 | admitted exactly when it is not in the index, in time, and otherwise accepted; then it is one never applied before |
| Deduplication.TakenExactly | libraries/chain/db_block.cpp:550-570 | the transactions of a block pass in turn exactly when each is accepted, in time, new and different from the others; the index then has their ids as well, in order |
| Deduplication.TakenEntries | libraries/chain/db_block.cpp:640-691 | nothing is lost from the index meanwhile, and nothing else is added |
| Deduplication.TransactionIndex.NeverReplayed | libraries/chain/db_block.cpp:650-676 | what passes the checks was never applied before |
| Deduplication.TransactionIndex.ClearExpired | libraries/chain/db_update.cpp:243-251 | the index is emptied when everything in it has expired, and else left alone |
| Deduplication.ClearedExactly | libraries/chain/db_update.cpp:243-251 | it is emptied exactly when every entry has expired |
| Deduplication.ExpiredEntryStays | libraries/chain/db_update.cpp:243-251 | an expired entry stays exactly as long as some entry has not expired |
| Deduplication.ExpiredStaysBehindLater | libraries/chain/db_update.cpp:243-251 | an index with one expired and one later entry, which keeps both |
| Schedules.SlotInverse | libraries/chain/db_miner_schedule.cpp:42-78 | the slot at a slot's own time is that slot, before the first block, after a block and after a maintenance block |
| Schedules.SlotsApart | libraries/chain/db_miner_schedule.cpp:42-70 | slots are an interval apart; the first one comes an interval after genesis, or at the first multiple of the interval after the head, and the skipped slots later after maintenance |
| Schedules.SlotBrackets | libraries/chain/db_miner_schedule.cpp:72-78 | every time lies between its slot's start and the next; slot 0 is all that is before slot 1 |
| Schedules.SlotsContinue | libraries/chain/db_miner_schedule.cpp:42-70 | a block stamped anywhere in a slot leaves the later slots where they were, counted from itself, moved by the skipped slots after maintenance |
| Schedules.HeadIsSlotZero | libraries/chain/db_miner_schedule.cpp:72-78 | the head's own time is slot 0 |
| Schedules.FairRound | libraries/chain/db_miner_schedule.cpp:34-40 | as many slots in a row as there are miners give each miner exactly one turn |
| Schedules.OneTurnEach | libraries/chain/db_miner_schedule.cpp:34-40 | with different miners each has exactly one turn |
| Schedules.ShuffledPermutes | libraries/chain/db_miner_schedule.cpp:100-117 | whatever is drawn, the shuffle only rearranges |
| Schedules.ShuffledHead | libraries/chain/db_miner_schedule.cpp:100-117 | each position takes what its draw picks from there on, and what lies before stays |
| Schedules.EveryOrder | libraries/chain/db_miner_schedule.cpp:100-117 | every rearrangement comes out of some draws |
| Schedules.DrawIs | libraries/chain/db_miner_schedule.cpp:100-109 | what is scrambled: the time in the upper half, the multiplied position added, wrapped at 64 bits |
| Schedules.DrawKnown | libraries/chain/db_miner_schedule.cpp:104-109 | three draws worked out |
| Schedules.Shuffle | libraries/chain/db_miner_schedule.cpp:100-117 | the loop of swaps in place |
| Schedules.Schedule.UpdateMinerSchedule | libraries/chain/db_miner_schedule.cpp:86-119 | at the start of a round the shuffled list is a rearrangement of the active miners; otherwise it stays |
| Schedules.Schedule.UpdateGlobalDynamicData | libraries/chain/db_update.cpp:42-86 | a block advances the absolute slot by exactly its slot number, to the slot whose turn its miner had, and books against every other miner exactly the turns it missed |
| Schedules.MissedAre | libraries/chain/db_update.cpp:49-63 | the missed blocks booked against a miner are its turns among the missed slots |
| Schedules.Schedule.UpdateSigningMiner | libraries/chain/db_update.cpp:105 | the miner's last slot is the absolute slot of its block |
| Synopsis.CreateSynopsisForPeer | libraries/net/node.cpp:2360-2411 | the application's part and the network's part together are the one summary of the joined chain: up to the last shared block an entry is our block of its number, then one of the fork, then one that was offered; from the last block that cannot be undone to the last id offered; fails exactly when the fork is out of reach |
| Synopsis.GetBlockchainSynopsis | libraries/app/application.cpp:722-840 | the application's part: the entries of that summary up to its own blocks, in all four cases, from the main chain or the fork as they should be |
| Synopsis.SynopsisShape | libraries/app/application.cpp:820-835 | numbers rise strictly, the last offered id comes last, and there are as many entries as the number of blocks has binary digits |
| Synopsis.JoinedIsSynopsis | libraries/app/application.cpp:811-835 | the summary of the joined chain has the right blocks at the right numbers |
| Synopsis.OwnComesFrom | libraries/app/application.cpp:829-833 | every entry of the application's part is a block it has: of the main chain up to the last shared one, then of the fork |
| Synopsis.OfferedComesAfter | libraries/net/node.cpp:2395-2405 | every entry of the network's part was offered and comes after those |
| Synopsis.PartsJoin | libraries/net/node.cpp:2395-2405 | the two parts join without a seam |
| Synopsis.SummaryLength | libraries/app/application.cpp:833 | the length of the simple summary |
| Synopsis.AboutIsNumbered | libraries/app/application.cpp:738-799 | the joined chain is numbered without gaps and the starting block is within it |
| AmountText.AmountRoundTrip | libraries/chain/asset_object.cpp:98-171 | for every precision up to 18 and every amount up to the largest supply on either side of zero, reading the printed amount gives it back if and only if it is not negative or has no decimals |
| AmountText.ReadsExactly | libraries/chain/asset_object.cpp:98-154 | digits, a point and decimals, with a sign or without, are read as the number they stand for, to as many decimals as there is room for, and refused exactly when that is more than the largest supply |
| AmountText.WholeReadsExactly | libraries/chain/asset_object.cpp:98-154 | so are digits alone |
| AmountText.Refused | libraries/chain/asset_object.cpp:103-122 | no text with another character, two signs or two points is read, and no precision beyond 18 |
| AmountText.PrintedExactly | libraries/chain/asset_object.cpp:157-171 | an amount is printed as its whole part and, with decimals, a point and as many digits as the precision |
| AmountText.DecimalsLost | libraries/chain/asset_object.cpp:166-169 | the digits printed for negative decimals are never worth those decimals |
| AmountText.AmountFromString | libraries/chain/asset_object.cpp:98-154 | the reader: zeros cut off, characters checked, whole part and filled-up decimals added, sign last, and everything it refuses |
| AmountText.AmountToString | libraries/chain/asset_object.cpp:157-171 | the printer: whole part and padded decimals |
| AmountText.ReadDecimals | libraries/chain/asset_object.cpp:133-145 | the loop that fills up the decimals |
| AmountText.CheckCharacters | libraries/chain/asset_object.cpp:103-122 | the check of the characters, one by one |
| AmountText.CutText | libraries/chain/asset_object.cpp:36-46 | cutting zeros off the text is cutting them off the decimals, and the point when none are left |
| AmountText.NegativeAmountLost | libraries/chain/asset_object.cpp:157-171 | one such amount: -1.50 is printed as -1.0 and read as -1.00 |

## Left out

- Treasuries.Treasury.PerformMaintenance: takes the new parameters as arguments, and when the block interval changes asks that the two maintenance times fit, without which the plan is false; it leaves out the choice of active miners, the histogram of wanted miner counts and `get_miner_budget`, which nothing here rests on.
- Payouts.UpdateSigningMiner: takes the ranges of the two vote indexes (the accounts with a balance cast for the miner, and those now voting for it, each once) as parameters, because index maintenance is not modelled.
- ChainDatabases.ChainDatabase.SwitchTo: that the branching point is reached, and that a failed switch is undone, is stated under conditions its contract defines: the blocks on the way can be fetched and have records, and for the way back the new blocks keep the undo depth and the ancestors in the fork database that going back pops through; without them the source can throw on the way.
- UndoDatabase.RunRefines: is stated for active sessions within the maximum depth; beyond it starting a session drops records of active ones.
- Synopsis.CreateSynopsisForPeer: the offered ids are taken to follow the reference point without a gap; `get_block_ids_on_fork` is taken to return a linked path, as the fork database proof shows of the paths it is made from.
- ShamirSecrets.QuorumRecovers: takes primality of the modulus as a hypothesis; the prime itself is not checked.
- DeliveryProofs.Completeness: takes the group elements to be invertible. Of soundness there is what two accepted answers imply; that no one can answer without the exponents, which rests on the hash, is not modelled.
- Schedules.Schedule.UpdateGlobalDynamicData: leaves out the participation bits and the recently-missed count.
- Deduplication.TransactionIndex.ApplyBlock: follows one chain; that the index goes back with the rest of the object state when blocks are popped is what the fork model says of any object state, and the two are not joined.
- Sessions that are force-enabled or started while the undo database is disabled, and applying proposals with them.
- The cache of unlinked blocks and the `invalid` mark of fork items: nothing ever fills the one or sets the other.
- Object lifetime behind weak pointers: a fork item is alive while the index, the head or the branches being switched hold it.
- The block file after a failed switch, where old blocks are stored under the id of the new one; the transactions popped when a switch breaks off; the fork database's head after a switch, which popping has moved.
- Pushing popped transactions again, the wrapper that takes pending transactions off around a block, and what plugins do when operations are announced.
- Block production, signatures, authorities, reference blocks, checkpoints and Merkle roots: verdicts that the models take as parameters.
- `deposit_cashback`, which no caller uses; multiple assets; fee schedules; account creation by transfer; commitments and range proofs behind the confidential operations; transaction details.
- Proposals, price feeds, subscriptions, disk layout, genesis files, sockets and message dispatch.
- Overflow of machine words, except where reading an amount depends on it.
