# Delta chain: verified model of the consensus and ledger rules

This project models the rules by which a Delta node keeps its state, and proves what those rules
promise over every run. It follows the rule set with all hardforks up to 20 active. A failed
assertion is an abort that leaves the state as it was, because the undo session around an operation
unwinds it.

`dafny verify dfyconfig.toml` checks everything.

## What is modelled

- **Witness voting** (`Voting`, `VotingProofs`, `VotingRuns`, `VotingRecords`, `VotingDb`, over
  `ProxyForest`, `VoteCover`). Votes travel along chains of proxies, four hops at most, and are kept up to date by
  small increments. `RunFromGenesis` proves that after every run they agree with a recount from the
  proxies, vote records and vesting shares alone, that proxies stay acyclic, and that every share is
  counted exactly once however long the chains are. `VotingRecords` proves that each step changes the
  records it is about and no others, and that two histories with the same records have the same counts.
  `VotingDb.Db` is the same machine updating its tables in place.
- **The witness race** (`VirtualTime`, `Schedule`). Virtual time is wrapping 128-bit arithmetic;
  a nonlinear invariant shared by vote changes and schedule updates keeps every subtraction in range
  and every wrap detected. The schedule update selects, shuffles in place and fixes the pay factor.
- **Fork handling** (`Blocks`, `ForkDatabase`, `ChainDb`, `ChainRuns`, `Irreversible`,
  `FinalityRules`, `LoneWitness`, `BlockLog`). Blocks are named by a collision-free hash, so a block
  determines the path below it. `ChainDb.Chain.PushBlock` covers every block a node can be given and
  every rule for the last irreversible block that does not pass the head: the chain state is always the
  replay of the path from genesis to the head; a valid block that extends the chain is accepted and a
  valid higher fork adopted; whether a failed switch is undone is decided by where the branches meet and
  by what the valid blocks of the new one make irreversible; the block log is a prefix of the chain.
- **The ledger** (`Holdings`, `Bookkeeping`, `Settlement`, `Routing`, `Rewards`, `Effects`, `Ledger`,
  `Staking`, `LedgerRuns`). For transfers, savings, escrow, limit orders, conversion, vesting, power-down,
  inflation, the null account, reward payout and claims, the gaps between the recorded supplies and
  what is held never change. `LedgerRuns.Run` proves over every run, failed operations included, that a
  balanced ledger stays balanced exactly when every reward paid out buys its shares, which the state
  before each payout decides. `Effects` says what payouts, claims, purchases and sales of shares and
  intervals of a power-down come to, from the state before and after alone: every rounded amount is
  bounded from both sides by what it is a part of, so that exactly one outcome fits, and it is the one
  that is reached (`Effects.CashoutExact`, `Effects.IntervalMoves`, `Effects.SplitAwards`).
- **The internal market** (`OrderMath`, `Orders`, `OrderBook`), over the same ledger. Matching at the
  resting order's price with every division rounded down: no match aborts, none pays a side less than
  its limit, the book is never left crossed, orders are matched in price-time order, and both tokens
  are conserved, with the interest that DBD balances earn on the way.
- **The audit** (`VotingShares`, `Audit`). Votes and money are one state: an operation that moves vesting
  shares adjusts votes as well, and fails as a whole if they cannot follow. `Audit.RunFromGenesis` proves
  that after every run of both, `validate_invariants` passes if and only if every reward that was paid
  out bought a share.
- **Delegation and power-down** (`Delegation`), **curation weights** (`Curation`) and what both mean for
  the ledger (`Limits`), the **Merkle root** (`Merkle`), **message framing** (`Framing`) and the
  **duplicate transaction check** (`Dedup`).

## Where the code does not keep a promise

Each of these is stated as an exact condition.

- A reward that buys no vesting share is paid out liquid and still added to the pending vesting
  fund. The books stay balanced exactly when a reward is zero or buys a share
  (`Rewards.RewardConserves`, `Rewards.RewardTooSmall`), and over a run exactly when all its rewards do
  (`LedgerRuns.Run`).
- After a block failed to extend the chain, the fork database's head stays on it. If a block that is
  already on the chain is pushed while that is so, it is taken for the invalid one and erased. If
  instead a sibling of the failed block is pushed that becomes irreversible at once, and a third block
  of that height is stored, the failed one is written to the log. The log stays a prefix of the chain
  and the blocks above it stay stored exactly when neither happens (`ChainDb.Chain.PushBlock`);
  `ChainRuns.LosesBlock` and `LoneWitness.MisfilesBlock` are runs in which they do. The second needs a
  rule by which the head itself becomes irreversible, as that of the chain with a single scheduled
  witness, which the run uses (`Irreversible.StepKeeps`, `FinalityRules.FinalNeverMisfiles`). If a block of the chain is missing,
  the lookup by number can return a sibling (`ForkDatabase.ShortcutAgrees`,
  `ForkDatabase.ShortcutMisses`).
- A failed fork switch is not undone when the branches meet below the committed block, or when valid
  blocks of the new branch make a block above the meeting point irreversible before a later one turns
  out to be invalid. In the first case the node stays on the committed block; in the second it keeps
  what the new branch has committed. While links are in place these are exactly the two cases, both
  told from the state before (`ChainDb.Chain.SwitchEnds` and `ChainDb.Chain.Decided` in the contracts of
  `SwitchTo` and `PushBlock`). In `ChainRuns.StrandsSwitch` a valid fork is refused and a valid block of
  the node's own chain lost with it; in `ChainRuns.CommitsThenFails` a fork that is invalid takes the
  whole of the node's own valid chain with it.
- A stored block whose parent was erased stays without a link when the parent comes back, and a lookup
  by number does not get past it. A child of the head is accepted exactly when it is valid and every
  block that becomes irreversible with it is found (`ChainDb.Chain.PushBlock`), which is always so while
  no push brings back such a parent (`ChainDb.Chain.ValidApplies`); `ChainRuns.RefusesValid` is a run in
  which every block of the chain is stored and a valid child of the head is refused.
- The search for matching orders starts at the highest price there is meant to be. An order that is
  not used up leaves two orders that could trade exactly when one of those it could trade with is above
  that price (`Orders.LeftOpposed`, in the contracts of `ApplyOrder` and `CreateOrder`);
  `Orders.UnlistedOrder` is such a book. It does not come to that while no order sells more than the
  largest amount (`Orders.FullyUncrossed`).
- Rebuilding the index of a log with one block leaves it empty (`BlockLog.Log.ConstructIndex`).
- A schedule update aborts when fewer than 21 witnesses have a signing key and some witness has
  none (`Schedule.Scheduler.Update`).

Where comments and code differ, the model follows the code: the fork database does not keep blocks
that do not link, although its header says that it caches them, and curation weights follow the
square root curve since hardfork 19, not the formula given beside the vote evaluator.

## Model

| member | source | states |
|---|---|---|
| `VotingRuns.RunFromGenesis` | libraries/chain/database.cpp:1372-1479 | after every run of voting operations from genesis, aborted ones included: each proxied slot equals the recount of shares that many hops below, proxied accounts hold no votes, each witness's votes equal the recount of its voters' weights and never exceed the vesting shares, every witness is in step with virtual time, proxies are acyclic and each share is counted exactly once |
| `VotingRuns.RunKeepsInv` | libraries/chain/database.cpp:5073-5091 | every step of every run keeps the voting invariant |
| `VotingRuns.SetProxyKeeps` | libraries/chain/delta_evaluator.cpp:1234-1278 | setting or clearing a proxy succeeds exactly when its own guards allow it (the vote checks on the way never fail) and keeps the invariant |
| `VotingRuns.CastVoteKeeps` | libraries/chain/delta_evaluator.cpp:1281-1346 | a witness vote succeeds exactly when its guards allow it, and keeps the invariant |
| `VotingRuns.DeclineKeeps` | libraries/chain/database.cpp:2590-2617 | declining voting rights never aborts for an existing account and keeps the invariant |
| `VotingRuns.DepositKeeps` | libraries/chain/database.cpp:1288-1327 | new vesting shares are accepted exactly while the total fits 64 bits, and the votes follow |
| `VotingRuns.PowerDownKeeps` | libraries/chain/database.cpp:1690-1785 | a power-down interval that is not aborted keeps the invariant, although votes are checked before the account is charged |
| `VotingRuns.CreateAccountKeeps` | libraries/chain/delta_evaluator.cpp:314-392 | a new account keeps the invariant |
| `VotingRuns.ClearVestsKeeps` | libraries/chain/database.cpp:1571-1585 | clearing the shares of the null account without adjusting votes keeps the invariant, because the account has no proxy and no votes |
| `VotingRuns.StepLeavesNull` | libraries/chain/database.cpp:1571-1585 | no step gives the null account, which has no key to sign with, a proxy or a vote |
| `VotingRuns.UpdateWitnessKeeps` | libraries/chain/delta_evaluator.cpp:84-130 | a new or updated witness keeps the invariant |
| `VotingRuns.RescheduleKeeps` | libraries/chain/witness_schedule.cpp:193-239 | the virtual-time part of a schedule update keeps the invariant |
| `VotingRuns.RescheduleRaces` | libraries/chain/witness_schedule.cpp:193-239 | it is refused exactly for an order that is not that of the race; what it does to each witness as for `VirtualTime.AdvanceInStep`, and nothing else changes |
| `VotingRecords.StepDoes` | libraries/chain/database.cpp:1372-1479 | every voting step that is not aborted changes the records it is about (shares, proxies, voting rights, votes, witness keys) as it says, and no others |
| `VotingRecords.RecountDecides` | libraries/chain/database.cpp:5073-5091 | states with the same records agree on every proxied slot, on the number of votes of every account and on every tally |
| `VotingRecords.HistoryDoesNotCount` | libraries/chain/database.cpp:5073-5091 | two runs from genesis that leave the same records leave the same counts |
| `VoteCover.EveryShareOnce` | libraries/chain/database.cpp:5087-5091 | full weights of unproxied accounts plus deepest slots of proxied ones add up to all vesting shares, also for chains longer than the recursion depth |
| `ProxyForest.CreditGain` | libraries/chain/database.cpp:1372-1401 | what the depth-bounded propagation adds to each slot of each account |
| `ProxyForest.DetachBelow` | libraries/chain/delta_evaluator.cpp:1241-1246 | how the recount below every account reacts when an account leaves its chain |
| `VotingProofs.JoinRecounted` | libraries/chain/delta_evaluator.cpp:1262-1272 | joining a chain and propagating the full weight restores the recount everywhere |
| `VotingProofs.LeaveRecounted` | libraries/chain/delta_evaluator.cpp:1241-1246 | leaving a chain and propagating the negated weight restores the recount everywhere |
| `VotingProofs.JoinAcyclic` | libraries/chain/delta_evaluator.cpp:1250-1260 | the bounded walk from the new proxy is enough to keep proxies acyclic |
| `VotingDb.Db.AdjustWitnessVote` | libraries/chain/database.cpp:1437-1461 | one witness is adjusted, or nothing changes when the vote bound or the divisor check fails |
| `VotingDb.Db.AdjustWitnessVotes` | libraries/chain/database.cpp:1426-1435 | the loop over an account's votes adjusts exactly the witnesses it votes for |
| `VotingDb.Db.AdjustProxiedVotes` | libraries/chain/database.cpp:1372-1401 | the recursion over the proxy chain is the specified propagation, and fails exactly when a vote check fails |
| `VotingDb.Db.AdjustOwnVotes` | libraries/chain/database.cpp:1403-1424 | the scalar form is the vector form for a change of own shares alone |
| `VotingDb.Db.ClearWitnessVotes` | libraries/chain/database.cpp:1463-1479 | exactly the account's vote records are removed |
| `VotingDb.Db.ProxyChainFits` | libraries/chain/delta_evaluator.cpp:1250-1260 | the loop accepts exactly the chains without repetition and of bounded length |
| `VotingDb.Db.SetWitnessProxy` | libraries/chain/delta_evaluator.cpp:1234-1278 | the evaluator reaches the specified state, or leaves the tables as they were |
| `VotingDb.Db.WitnessVote` | libraries/chain/delta_evaluator.cpp:1281-1346 | as above, for voting and unvoting |
| `VotingDb.Db.DeclineVotingRights` | libraries/chain/database.cpp:2590-2617 | as above, for declining voting rights |
| `VotingDb.Db.AddVests` | libraries/chain/database.cpp:1300-1327 | as above, for new vesting shares |
| `VotingDb.Db.WithdrawVests` | libraries/chain/database.cpp:1690-1785 | as above, for the voting side of a power-down interval |
| `VotingDb.Db.AddAccount` | libraries/chain/delta_evaluator.cpp:314-392 | as above, for a new account |
| `VotingDb.Db.ClearNull` | libraries/chain/database.cpp:1571-1585 | as above, for clearing the null account's shares |
| `VotingDb.Db.SetWitness` | libraries/chain/delta_evaluator.cpp:84-130 | as above, for a new or updated witness |
| `VotingDb.Db.Reschedule` | libraries/chain/witness_schedule.cpp:193-239 | the update of the race in place, with what it does to each witness as for `VirtualTime.AdvanceInStep` |
| `VotingDb.Db.Perform` | libraries/chain/database.cpp:1372-1479 | every step of a voting run in place: it succeeds exactly when the specified one does, and leaves the tables as they were otherwise; a step that succeeds does to the records what it is for |
| `VirtualTime.PositionBound` | libraries/chain/database.cpp:1442-1443 | a witness in step has not passed the end of its lap: position + votes * elapsed is at most the lap length |
| `VirtualTime.WrapDetected` | libraries/chain/database.cpp:1454-1459 | comparing a 128-bit sum with its operand catches exactly the sums that wrapped |
| `VirtualTime.StoredFinishExact` | libraries/chain/database.cpp:1449-1459 | the stored finishing time is min(max, now + (lap - position) / (votes + 1)) |
| `VirtualTime.AdjustVotesInStep` | libraries/chain/database.cpp:1437-1461 | a vote adjustment keeps a witness in step and no intermediate value wraps |
| `VirtualTime.RestartInStep` | libraries/chain/witness_schedule.cpp:217-233 | a new lap keeps a witness in step exactly when its finishing time did not wrap |
| `VirtualTime.AdvanceInStep` | libraries/chain/witness_schedule.cpp:193-239 | a schedule update keeps every witness in step; if every processed witness can finish a lap in 128 bits from the finishing time of the last of them, they start it at that time, which is the new time, and the others keep their fields; otherwise, and only then, everyone starts at zero |
| `VirtualTime.ResetAllInStep` | libraries/chain/witness_schedule.cpp:16-34 | a reset puts every witness in step at time zero |
| `Schedule.Scheduler.ChooseElected` | libraries/chain/witness_schedule.cpp:144-157 | the loop elects the first twenty witnesses with a key in vote order |
| `Schedule.Scheduler.ChooseTimeshare` | libraries/chain/witness_schedule.cpp:193-214 | the loop fills the remaining places in order of finishing time, and stops right behind the witness that took the last place or at the end of the order |
| `Schedule.Scheduler.AdvanceProcessed` | libraries/chain/witness_schedule.cpp:217-239 | the loop with its early exit and reset does that to positions, update times and finishing times |
| `Schedule.Scheduler.Update` | libraries/chain/witness_schedule.cpp:134-352 | an update succeeds exactly when every witness has a key or at least 21 do; then the round is min(21, keyed) distinct witnesses, shuffled, the rest of the places empty, the pay factor is the round's total weight, and virtual time advances over exactly the witnesses up to the one that took the last place; positions, update times and finishing times as for `VirtualTime.AdvanceInStep`, the elected are called elected and the leaders timeshare, and the round is in the order drawn |
| `Schedule.Shuffle` | libraries/chain/witness_schedule.cpp:336-350 | the in-place shuffle permutes the scheduled places and touches no other; place by place it draws one of those left |
| `Schedule.DrawnStay` | libraries/chain/witness_schedule.cpp:336-350 | a place once drawn stays, and holds the one that the generator picks among those left |
| `Schedule.PartnerDraws` | libraries/chain/witness_schedule.cpp:336-350 | the place drawn is the generator's value modulo the number of places left |
| `Schedule.MostVotes` | libraries/chain/witness_schedule.cpp:144-157 | no witness with a key that is not elected has more votes than one that is |
| `Schedule.FirstToFinish` | libraries/chain/witness_schedule.cpp:193-214 | no witness that was passed over finishes its lap before the one that took the place |
| `Schedule.RoundPay` | libraries/chain/database.cpp:2201-2215 | a round in which every scheduled witness produces at a fixed base reward pays at most 21 base rewards, and less than that by less than a unit for each witness |
| `ForkDatabase.ForkDb.PushBlock` | libraries/chain/fork_database.cpp:51-71 | which blocks are taken, and what they change: a known block is not replaced, and only a higher block becomes the head |
| `ForkDatabase.ForkDb.PopBlock` | libraries/chain/fork_database.cpp:16-22 | the head moves to its parent exactly while the link to it is in place |
| `ForkDatabase.ForkDb.SetMaxSize` | libraries/chain/fork_database.cpp:94-110 | pruning erases exactly the blocks more than the size below the head, and their children lose their link |
| `ForkDatabase.ForkDb.Remove` | libraries/chain/fork_database.cpp:239-242 | one block is erased, its children lose their link, and the head stays |
| `ForkDatabase.ForkDb.SetHead` | libraries/chain/fork_database.cpp:234-237 | the head is the given item |
| `ForkDatabase.ForkDb.FetchBranchFrom` | libraries/chain/fork_database.cpp:169-211 | succeeds exactly when both branches are stored down to a common ancestor, and then gives the branches above the highest one: parent-linked, ending at equal height with the same previous block, disjoint unless one is a single block on the other |
| `ForkDatabase.ForkDb.WalkMainBranch` | libraries/chain/fork_database.cpp:213-222 | walking back from the head |
| `ForkDatabase.ForkDb.FetchMainBranch` | libraries/chain/fork_database.cpp:224-232 | the lookup with its single-candidate shortcut |
| `ForkDatabase.WalkSucceeds` | libraries/chain/fork_database.cpp:213-222 | the walk finds the block whenever the links are in place |
| `ForkDatabase.ShortcutAgrees` | libraries/chain/fork_database.cpp:224-232 | the shortcut agrees with the walk exactly when the main-branch block is still stored |
| `ForkDatabase.ShortcutMisses` | libraries/chain/fork_database.cpp:224-232 | an index in which it is not, and the shortcut returns a sibling |
| `ChainDb.Chain.Irreversible` | libraries/chain/database.cpp:3866-3894 | succeeds exactly when every block that is to be logged can be looked up, and gives those blocks |
| `ChainDb.Chain.ApplyBlock` | libraries/chain/database.cpp:3095-3261 | a block is applied exactly when it is valid and its irreversible blocks can be looked up, and otherwise changes nothing; the new head, state, log, index and undo history are given, and the log stays a prefix of the chain exactly unless the block is misfiled |
| `ChainDb.Chain.ValidApplies` | libraries/chain/database.cpp:3884-3894 | while links are in place, a child of the head applies exactly when it is valid, however much becomes irreversible with it |
| `ChainDb.LookupsFind` | libraries/chain/database.cpp:3888-3891 | while links are in place, every block that becomes irreversible is found, so the assertion does not fail |
| `ChainDb.Chain.PopBlock` | libraries/chain/database.cpp:1003-1021 | one block is undone, or none once the undo stack is committed |
| `ChainDb.Chain.PopTo` | libraries/chain/database.cpp:719-721 | the loop reaches the fork point whenever it is not below the committed block and the links are in place, and stops at the committed block if it is below |
| `ChainDb.Chain.ApplyBranch` | libraries/chain/database.cpp:723-735 | the blocks of a branch are applied in order up to the first that fails, and one that fails is not valid |
| `ChainDb.Chain.Revert` | libraries/chain/database.cpp:736-759 | after a failed switch the failed block and the rest of its branch are gone from the fork database, and nothing else that is not pruned; the previous chain is restored exactly unless the failed branch has committed a block above the fork point, and then the node is left on the last one committed |
| `ChainDb.Chain.Cross` | libraries/chain/database.cpp:723-759 | from the fork point on, every outcome by a condition on the state before: the new branch is adopted exactly when it is valid; otherwise the previous chain is restored exactly when no valid block of the new branch makes a block above the fork point irreversible; the invalid blocks of the branch are gone, and what is committed is the highest its valid blocks commit |
| `ChainDb.Chain.SwitchAlong` | libraries/chain/database.cpp:717-759 | the same along two given branches; with the fork point below the committed block, the node is left on that block |
| `ChainDb.Chain.SwitchTo` | libraries/chain/database.cpp:709-763 | every outcome of a switch by a condition on the state before, the head and the log it leaves, and what is removed from the fork database: the lowest invalid block and all above it |
| `ChainDb.Chain.FailedDecided` | libraries/chain/database.cpp:736-759 | a switch that failed at an invalid block is undone exactly when the valid blocks of its branch commit nothing above the fork point |
| `ChainDb.WeedsInvalid` | libraries/chain/database.cpp:741-745 | removing the lowest invalid block and all above it removes exactly the invalid blocks of the branch |
| `ChainDb.HighestExists` | libraries/chain/fork_database.cpp:169-211 | branches that can be walked to a common ancestor have a highest one, which the outcome of a switch refers to |
| `ChainDb.Chain.PushBlock` | libraries/chain/database.cpp:695-782 | for every block: which outcome it has and the state that follows; failures leave head and state; a block that extends the chain is accepted exactly when it is valid and what becomes irreversible is found, and while links are in place exactly when it is valid; a switch is made, undone or stranded exactly under conditions on the state before, and an invalid branch is removed; the log stays a prefix of the chain and the blocks above it stored exactly unless the block is clobbered or misfiled |
| `ChainDb.Chain.Extend` | libraries/chain/database.cpp:768-779 | a block that applies becomes the head; otherwise it is removed, which loses a block of the chain exactly when it is one |
| `ChainRuns.LosesBlock` | libraries/chain/database.cpp:774-779 | a run of three pushes after which the head block is not stored |
| `ChainRuns.StrandsSwitch` | libraries/chain/database.cpp:717-721 | a run in which a valid, higher fork is refused and the node loses a valid block of its own |
| `ChainRuns.CommitsThenFails` | libraries/chain/database.cpp:723-759 | a run in which an invalid fork commits a block of its own before it fails, and the node loses its valid chain to it |
| `ChainRuns.RefusesValid` | libraries/chain/database.cpp:3888-3891 | a run in which every block of the chain is stored and a valid child of the head is refused |
| `LoneWitness.MisfilesBlock` | libraries/chain/database.cpp:3802-3899 | under the chain's own rule with one scheduled witness, a run after which the log holds a block that is not on the chain |
| `ChainDb.Chain.PushAll` | libraries/chain/database.cpp:616-677 | over every run of pushes: at every moment the state is the replay of the path to the head and the log is never rewritten; the log stays a prefix of the chain and the rest stored while no push, judged by the state before it, clobbers or misfiles a block |
| `ChainDb.Chain.Reopen` | libraries/chain/database.cpp:124-145 | reopening unwinds to the state that replaying the log gives, and its check against the log passes |
| `ChainDb.LogExtends` | libraries/chain/database.cpp:3884-3899 | what migration appends continues the log along the chain |
| `ChainDb.LogReaches` | libraries/chain/database.cpp:3884-3899 | when the new head itself is logged, the log is its path exactly unless something else is found at its height |
| `ChainDb.FirstReach` | libraries/chain/database.cpp:717-721 | while the fork database stands on the new head, undoing reaches the fork point |
| `ChainDb.SecondReach` | libraries/chain/database.cpp:746-748 | and again after a branch has failed part way |
| `FinalityRules.FinalIsLawful` | libraries/chain/database.cpp:3802-3850 | the irreversibility rule meets what the chain database asks of a rule, for every schedule |
| `FinalityRules.FinalNeverMisfiles` | libraries/chain/database.cpp:3802-3850 | with two or more scheduled witnesses no block is logged in place of another |
| `Irreversible.StepKeeps` | libraries/chain/database.cpp:3802-3850 | the last irreversible block never goes back nor passes the head; once voting has started, raised or not, nothing above it has been confirmed by as much of the schedule as is asked for, and a raise has been; it reaches the head exactly when the signer is the only scheduled witness |
| `Irreversible.VotedOnce` | libraries/chain/database.cpp:3820-3850 | there is only one block that fits |
| `Irreversible.RunKeeps` | libraries/chain/database.cpp:3802-3850 | the same along every branch |
| `Irreversible.NthReached` | libraries/chain/database.cpp:3834-3842 | what the selected confirmation means in numbers of witnesses |
| `Irreversible.Properties.ApplyBlock` | libraries/chain/database.cpp:3790-3850 | the update in place gives head, confirmations and last irreversible block, the last as the one block that the confirmations vote for |
| `BlockLog.Log.Append` | libraries/chain/block_log.cpp:197-225 | appends succeed exactly for the next number, and nothing already written changes |
| `BlockLog.Log.ReadBlock` | libraries/chain/block_log.cpp:252-265 | reading at a block's position returns it and the position of the next |
| `BlockLog.Log.BlockPosition` | libraries/chain/block_log.cpp:302-316 | the index holds the position of every block |
| `BlockLog.Log.ReadBlockByNum` | libraries/chain/block_log.cpp:267-288 | reading block n returns the n-th block appended, and the number check never fails |
| `BlockLog.Log.ReadHead` | libraries/chain/block_log.cpp:318-337 | the head read from the end of the file is the last block |
| `BlockLog.Log.ReadAll` | libraries/chain/block_log.cpp:240-265 | following the returned positions visits all blocks in order |
| `BlockLog.Log.ConstructIndex` | libraries/chain/block_log.cpp:351-379 | rebuilding gives exactly the index the appends wrote, except for a log of one block, whose index stays empty |
| `BlockLog.Log.Open` | libraries/chain/block_log.cpp:104-185 | a cut-off index is completed on opening, exactly unless it is the empty index of a one-block log |
| `OrderMath.MatchSettles` | libraries/chain/database.cpp:3961-3991 | a match of two live crossing orders never aborts, moves at least one unit each way and no more than is for sale, and pays neither less than its own price; the order that the other one can pay for in full is used up, and what it trades for is its worth at the resting price, rounded down |
| `OrderMath.FairTradeOnce` | libraries/chain/database.cpp:3961-3991 | no other trade of the two orders does |
| `OrderMath.BetterPays` | libraries/protocol/asset.cpp:323-342 | a price comes first exactly when it pays more for some amount, and then it pays no less for any |
| `OrderMath.CrossMeans` | libraries/chain/database.cpp:3941 | two orders can be matched exactly when some trade would give each at least its price |
| `OrderMath.SearchedRange` | libraries/chain/database.cpp:3921-3923 | the searched range of the price index is exactly the crossing orders |
| `OrderMath.BetterTransitive` | libraries/protocol/asset.cpp:323-342 | the price comparison orders the book |
| `OrderBook.Exchange.FillOrder` | libraries/chain/database.cpp:4068-4115 | an order is paid, with DBD interest, and removed when nothing worth selling is left, otherwise it stays live; accounts, totals, book and gaps are given |
| `OrderBook.Exchange.CancelOrder` | libraries/chain/database.cpp:4117-4121 | what is for sale goes back to the seller, with DBD interest, and the gaps stay |
| `OrderBook.Exchange.MatchOrders` | libraries/chain/database.cpp:3937-4024 | one match at the resting price: what each side pays as for `OrderMath.MatchSettles`; every account gets what its orders are paid and what is left of a spent order, with DBD interest once, and nothing else of it changes; an order is gone exactly when what is left of it is worth no unit, otherwise it has that much less for sale; gaps unchanged |
| `OrderBook.Exchange.ApplyOrder` | libraries/chain/database.cpp:3915-3935 | when matching stops the book is uncrossed; orders were matched in price-time order, all but the last were removed, and accounts, totals and book are those of matching them one after the other; no two orders are left that could trade exactly when the order is used up or all it could trade with are below the highest price; the gaps stay |
| `OrderBook.Exchange.CreateOrder` | libraries/chain/delta_evaluator.cpp:2308-2381 | an order is accepted exactly under its checks and, if it must be filled, exactly when matching it in price-time order uses it up; then accounts, totals and book are those of placing and matching it, otherwise nothing changes; the book stays uncrossed, and free of orders that could trade under the exact condition of `ApplyOrder`; the gaps stay |
| `OrderBook.Exchange.Cancel` | libraries/chain/delta_evaluator.cpp:2383-2386 | exactly the named order is removed, and its seller gets back what is left of it with DBD interest |
| `OrderBook.Exchange.ClearExpired` | libraries/chain/database.cpp:4134-4144 | exactly the expired orders are removed, and every account is exactly what it was plus what its expired orders still had for sale and the interest due |
| `Orders.NothingLeft` | libraries/chain/database.cpp:3927-3934 | an exhausted search leaves no crossing pair |
| `Orders.FullyUncrossed` | libraries/chain/database.cpp:3921-3923 | no two orders of the book could trade while no order sells more than the largest amount |
| `Orders.LeftOpposed` | libraries/chain/database.cpp:3921-3934 | after matching, two orders that could trade are left exactly when the new one is left and could trade with one above the highest price |
| `Orders.UnlistedOrder` | libraries/chain/database.cpp:3921-3923 | a book with two orders that could trade, of which the search of the newer one does not find the older |
| `Ledger.Db.AdjustBalance` | libraries/chain/database.cpp:4227-4284 | a balance changes by the amount plus the interest due, which the supply records as well |
| `Ledger.Db.AdjustSavings` | libraries/chain/database.cpp:4415-4467 | the same for savings |
| `Holdings.AccruedExact` | libraries/chain/database.cpp:4240-4266 | interest is due exactly when DBD were held and the last payment is long enough ago: the rate on the full years held, rounded down, and the count restarts; otherwise the count goes on unchanged |
| `Holdings.AdjustedExact` | libraries/chain/database.cpp:4227-4284 | an adjustment changes one balance, by the amount and the interest due on it, and nothing else |
| `Holdings.ExchangedIs` | libraries/protocol/asset.cpp:345-362 | a conversion gives an amount exactly when that is the product divided by the other amount, rounded down, and fits |
| `Holdings.ExchangedBack` | libraries/protocol/asset.cpp:345-362 | converting there and back never gains and loses less than a unit is worth |
| `Ledger.Db.constructor` | libraries/chain/database.cpp:2828-2912 | the books at genesis, which are balanced |
| `Ledger.Db.CreateAccount` | libraries/chain/delta_evaluator.cpp:314-392 | exact condition, the fee moved to the null account, a new empty account, unchanged gaps |
| `Ledger.Db.OpenFund` | libraries/chain/database.cpp:4886-4909 | a reward fund takes over what was kept for rewards, and the gaps stay |
| `Ledger.Db.Transfer` | libraries/chain/delta_evaluator.cpp:1081-1086 | exact condition, new balances, and unchanged gaps between recorded and held amounts |
| `Ledger.Db.ToSavings` | libraries/chain/delta_evaluator.cpp:2618-2626 | the same for a transfer to savings |
| `Ledger.Db.FromSavings` | libraries/chain/delta_evaluator.cpp:2628-2652 | the same for a withdrawal request |
| `Ledger.Db.CancelFromSavings` | libraries/chain/delta_evaluator.cpp:2654-2665 | the same for cancelling it |
| `Ledger.Db.FinishWithdrawals` | libraries/chain/database.cpp:2261-2280 | exactly the due requests are paid, and every account is exactly what it was plus what was due to it and the interest due |
| `Ledger.Db.EscrowTransfer` | libraries/chain/delta_evaluator.cpp:906-944 | exact condition, new state, unchanged gaps |
| `Ledger.Db.EscrowApprove` | libraries/chain/delta_evaluator.cpp:946-1003 | the same for approving and rejecting, with the fee paid exactly once and a rejection giving everything back |
| `Ledger.Db.EscrowDispute` | libraries/chain/delta_evaluator.cpp:1005-1024 | exact condition, only the flag changes |
| `Ledger.Db.EscrowRelease` | libraries/chain/delta_evaluator.cpp:1026-1079 | the same for releasing, with the rules of who may release to whom |
| `Ledger.ReleaseRules` | libraries/chain/delta_evaluator.cpp:1026-1061 | before an escrow expires its parties can only give to each other, afterwards either may take; once it is disputed the agent alone decides |
| `Ledger.Db.ExpireEscrows` | libraries/chain/database.cpp:2572-2588 | exactly the lapsed escrows are removed, and every account is exactly what it was plus its own refunds and the interest due |
| `Ledger.Db.Convert` | libraries/chain/delta_evaluator.cpp:2285-2306 | exact condition, new state, unchanged gaps |
| `Ledger.Db.ProcessConversions` | libraries/chain/database.cpp:2486-2522 | fails exactly when a due request cannot be converted; otherwise exactly the due requests are removed, every account is exactly what it was plus what they convert to, and correcting the supplies once at the end balances all of them |
| `Settlement.ConversionExact` | libraries/chain/database.cpp:2486-2522 | a due request is worth its DBD at the median price, rounded down, and converts exactly when that fits |
| `Ledger.Db.CreateVesting` | libraries/chain/database.cpp:1228-1337 | the shares bought keep the ratio of shares to fund, rounded down, told from the totals before and after; an empty fund sells 1000 a unit; rewards at the ratio with what is pending; and how the gaps change: by the amount taken, plus once more when a reward buys no share |
| `Holdings.SharesForExact` | libraries/chain/include/delta/chain/global_property_object.hpp:64-76 | when a deposit or reward buys shares, and that it keeps the ratio of shares to fund |
| `Holdings.DepositIs` | libraries/chain/database.cpp:1228-1247 | a deposit buys exactly the number of shares that keeps the ratio, rounded down |
| `Holdings.RewardIs` | libraries/chain/database.cpp:1228-1247 | the same for a reward, with pending shares and funds |
| `Holdings.WorthOfExact` | libraries/chain/include/delta/chain/global_property_object.hpp:64-76 | when shares can be sold, and that what they are worth keeps the ratio |
| `Holdings.SaleIs` | libraries/chain/database.cpp:1754-1783 | a sale gives exactly the amount that keeps the ratio, rounded down |
| `Ledger.Db.PowerUp` | libraries/chain/delta_evaluator.cpp:1088-1097 | exact condition, the amount taken from the one account and the shares for the other as for `Ledger.Db.CreateVesting`, unchanged gaps |
| `Ledger.Db.CreateDbd` | libraries/chain/database.cpp:1177-1221 | exact condition and new state: the print rate of the amount, rounded down, leaves the supply and comes back as DBD at the median price, the rest stays DELTA; without a feed it is paid as it is |
| `Effects.DbdIssues` | libraries/chain/database.cpp:1177-1221 | printing DBD comes to this and to nothing else |
| `Ledger.Db.ClaimRewards` | libraries/chain/delta_evaluator.cpp:2723-2770 | exact condition; every field that changes, with the backing that moves: the claimed part of it rounded down, all of it for all shares; unchanged gaps |
| `Effects.ClaimExact` | libraries/chain/delta_evaluator.cpp:2723-2770 | the fields of a claim, one by one |
| `Ledger.Db.WithdrawInterval` | libraries/chain/database.cpp:1660-1789 | exact condition and new state: routes deposit and then sell their percentages rounded down, each sale at the price left by the one before, and the account sells the rest; the share total loses exactly what was sold, gaps unchanged |
| `Effects.IntervalMoves` | libraries/chain/database.cpp:1690-1785 | an interval comes to this and to nothing else |
| `Effects.SaleSells` | libraries/chain/database.cpp:1754-1783 | what a sale of shares does to the seller and the totals, and nothing else |
| `Routing.IntervalPays` | libraries/chain/database.cpp:1690-1785 | an interval takes its amount of shares from the account and gives every account exactly the shares routed to it, whatever the order of routes |
| `Routing.IntervalTotal` | libraries/chain/database.cpp:1690-1785 | an interval takes out of the share total exactly what is sold, by the account and by its routes |
| `Routing.RoutedWithin` | libraries/chain/database.cpp:1754-1755 | routes of at most 100% together never get more than the interval's amount |
| `Ledger.Db.PayRewardFunds` | libraries/chain/database.cpp:2457-2479 | each fund gets its percentage rounded down; it fails exactly when they come to more than the reward |
| `Ledger.Db.ProcessFunds` | libraries/chain/database.cpp:2178-2236 | exact condition; 75 percent to the funds and 15 to the vesting fund, each rounded down, and to the producer the pay of its weight out of the rest, which buys shares at the ratio then; all of it enters the supply |
| `Ledger.PrintingProduces` | libraries/chain/database.cpp:2197-2235 | the same as a relation between the state before and after |
| `Ledger.ProducedPrints` | libraries/chain/database.cpp:2197-2235 | which holds of nothing else |
| `Ledger.Db.ClearNull` | libraries/chain/database.cpp:1481-1623 | exact condition; every field of the null account is zero afterwards but for interest that comes due, its shares go at the price of a sale, and the supplies lose exactly what it had |
| `Ledger.ClearedWipes` | libraries/chain/database.cpp:1481-1623 | the same for the specified state |
| `Ledger.Db.PayCurators` | libraries/chain/database.cpp:1809-1875 | exact condition; the claims, each its weight's part of the pool rounded down, and what each adds to every field of every account; the gaps: they change by the claims and once more by those that buy no share |
| `Ledger.Db.PayBeneficiaries` | libraries/chain/database.cpp:1917-1942 | exact condition; the parts, each its percentage of the tokens rounded down, and what each adds to every field of every account; the gaps as for curators |
| `Ledger.Db.Cashout` | libraries/chain/database.cpp:1884-1965 | exact condition; the awards to voters, beneficiaries and author, and what they add to every field of every account; the reward fund is charged exactly what they come to, and never more than the reward while the vote weights are within their total; the gaps change by exactly the payouts that buy no share |
| `Ledger.Db.PaySplit` | libraries/chain/database.cpp:1917-1957 | a part for an author or beneficiary: half of the dollar percentage, rounded down, is not vested but printed as DBD as far as the print rate goes, and the rest buys shares; unclaimed DELTA, DBD, shares and backing are given one by one; the gaps change by the part and once more by what buys no share |
| `Rewards.CashoutLoses` | libraries/chain/database.cpp:1903-1957 | a cashout loses nothing exactly when each of its payouts is nothing or buys a share |
| `Effects.CashoutPays` | libraries/chain/database.cpp:1903-1957 | every account's DELTA grows by what is due to it as curator, beneficiary and author, less what is printed as DBD, whatever the order of payment, and others get nothing; liquid and unclaimed DELTA, DBD, shares and backing grow by the parts of the account's own awards |
| `Effects.SplitAwards` | libraries/chain/database.cpp:1917-1957 | a split award comes to what `Ledger.Db.PaySplit` says and to nothing else |
| `Effects.CashoutExact` | libraries/chain/database.cpp:1903-1957 | a payout ends in a state, and charges an amount, exactly if the awards of the comment lead there and come to that |
| `Effects.BenefitsExact` | libraries/chain/database.cpp:1917-1942 | the same for the beneficiaries |
| `Effects.CuratorsExact` | libraries/chain/database.cpp:1845-1869 | the same for the voters |
| `Effects.AwardsAdd` | libraries/chain/database.cpp:1903-1957 | field by field an account grows by the parts of its own awards and by nothing else |
| `Effects.CuratorsGain` | libraries/chain/database.cpp:1845-1869 | every account gets the claims of its own votes |
| `Effects.BeneficiariesGain` | libraries/chain/database.cpp:1917-1942 | every account gets its own parts as beneficiary, less what is printed as DBD; field by field as for `Effects.CashoutPays` |
| `Rewards.ClaimsWithin` | libraries/chain/database.cpp:1845-1851 | curators never claim more than the pool while their weights stay within the total |
| `Rewards.BenefitsWithin` | libraries/protocol/delta_operations.cpp:106-126 | beneficiaries never get more than the author's tokens |
| `LedgerRuns.Run` | libraries/chain/database.cpp:5058-5170 | over every run of ledger and market operations, failed ones included: no balance gets negative, the recorded supplies differ from what is held by exactly what payouts paid for no share, and a balanced ledger stays balanced if and only if every reward that the run pays out, in the state it is paid in, is nothing or buys a share; who holds which shares, and what backs them, follows after each operation from the state before it |
| `LedgerRuns.RunFromGenesis` | libraries/chain/database.cpp:5058-5170 | the same from genesis on: the invariants hold after a run if and only if all its payouts buy shares |
| `LedgerRuns.TraceGaps` | libraries/chain/database.cpp:5058-5170 | the gaps after a run are those before it, less what its payouts lose in all |
| `LedgerRuns.RunLosesNothing` | libraries/chain/database.cpp:1294-1322 | a run loses nothing exactly when every payout in it is backed |
| `Staking.FillsSame` | libraries/chain/database.cpp:3915-3935 | trades leave vesting shares, their total and their backing as they are |
| `Staking.CashoutSame` | libraries/chain/database.cpp:1884-1965 | a payout leaves the shares that are held, their total and their fund as they are |
| `VotingShares.VotesShares` | libraries/chain/delta_evaluator.cpp:1234-1346 | votes, proxies, witnesses and schedules leave every account's shares as they are |
| `VotingShares.PowerDownShares` | libraries/chain/database.cpp:1690-1785 | the voting side of an interval moves exactly the shares that are routed, sold and charged |
| `Audit.MovedCoupled` | libraries/chain/database.cpp:1288-1327 | when an operation moves shares and the votes follow it, ledger and votes agree again on who holds which shares |
| `Audit.AuditPasses` | libraries/chain/database.cpp:5058-5170 | after every run of money and votes that starts in order, all checks of the audit pass, those of supplies, shares, backing and votes, if and only if every reward bought a share |
| `Audit.Node.Pay` | libraries/chain/database.cpp:1228-1337 | an operation in place and the votes that follow it, or nothing of either when the votes cannot follow |
| `Audit.Node.Run` | libraries/chain/database.cpp:5058-5170 | the node in place goes through such a run |
| `Audit.RunFromGenesis` | libraries/chain/database.cpp:5058-5170 | from genesis on, the audit passes after a run if and only if every reward it paid out bought a share |
| `Rewards.RewardConserves` | libraries/chain/database.cpp:1294-1322 | a reward keeps the books balanced exactly when it is nothing or buys a share |
| `Rewards.RewardTooSmall` | libraries/chain/database.cpp:4286-4323 | balanced books and a reward of one unit that unbalances them |
| `Bookkeeping.SetPurse` | libraries/chain/database.cpp:5076-5086 | how the recorded-versus-held gaps react to a change of one account |
| `Bookkeeping.SetEscrow` | libraries/chain/database.cpp:5120-5133 | the same for one escrow |
| `Bookkeeping.SetWithdrawal` | libraries/chain/database.cpp:5135-5145 | the same for one savings withdrawal |
| `Bookkeeping.SetConversion` | libraries/chain/database.cpp:5094-5104 | the same for one conversion request |
| `Bookkeeping.SetOrder` | libraries/chain/database.cpp:5106-5118 | the same for one limit order |
| `Settlement.SettlingNext` | libraries/chain/database.cpp:2261-2280 | paying one entry of a table to its owner takes exactly that entry off what the table still owes, interest included |
| `Settlement.SettlingDone` | libraries/chain/database.cpp:2261-2280 | a table that owes nothing any more has paid every account exactly what it owed |
| `Delegation.PowerDownPays` | libraries/chain/delta_evaluator.cpp:1148-1170 | an uninterrupted power-down pays exactly the requested total: one share an interval below 13 shares, otherwise a thirteenth rounded down in 13 to 25 intervals, the last one paying the rest |
| `Delegation.PaysExactly` | libraries/chain/database.cpp:1679-1683 | the intervals pay exactly what remains, the full rate each time but the last |
| `Delegation.IntervalExact` | libraries/chain/database.cpp:1679-1776 | an interval pays min(rate, remaining), every field after it is given, and delegations plus the remaining power-down stay within the shares |
| `Delegation.AvailableIsFree` | libraries/chain/delta_evaluator.cpp:2852-2892 | what may be delegated is the lesser of the shares that are neither delegated nor being powered down and of the mana without what later intervals withdraw |
| `Delegation.Vesting.Delegate` | libraries/chain/delta_evaluator.cpp:2842-3027 | exact condition of new, larger and smaller delegations; the delegation has the new size and all others theirs, the receiver has the difference at once, the giver the returned shares later; totals agree with the delegation objects |
| `Delegation.Vesting.ClearExpired` | libraries/chain/database.cpp:4146-4174 | exactly the expired returns are removed, and every account's delegated shares drop by exactly its own expired ones while nothing else of it changes |
| `Delegation.Vesting.WithdrawVesting` | libraries/chain/delta_evaluator.cpp:1099-1171 | exact condition and effect of starting and stopping a power-down |
| `Delegation.Vesting.Interval` | libraries/chain/database.cpp:1679-1776 | the interval in place is the specified one |
| `Delegation.Vesting.SetRoute` | libraries/chain/delta_evaluator.cpp:1173-1232 | a route is set exactly while all routes of the account stay within 100%; the 16-bit sum does not wrap |
| `Delegation.Vesting.TotalPercent` | libraries/chain/delta_evaluator.cpp:1219-1226 | the 16-bit sum of an account's routes |
| `Delegation.RunFromEmpty` | libraries/chain/delta_evaluator.cpp:2842-3027 | after every run: delegated and received totals agree with the delegation objects, delegations plus the remaining power-down stay within the shares, and routes within 100% |
| `Limits.CuratorsWithin` | libraries/chain/database.cpp:1845-1851 | the votes of a comment, as voting keeps them, never claim more than the curation pool |
| `Limits.RoutesWithin` | libraries/chain/database.cpp:1690-1755 | the routes of an account, as setting them keeps them, never get more than an interval pays |
| `Limits.IntervalAborts` | libraries/chain/database.cpp:1690-1785 | so an interval is only aborted by an amount that does not fit or by a missing receiver, never by a negative rest |
| `Curation.SqrtMonotone` | libraries/chain/util/reward.cpp:17-38 | the approximate square root is monotone |
| `Curation.SqrtNewton` | libraries/chain/util/reward.cpp:17-38 | it is one step of Newton's method, rounded down, from the power of two next to the exact root |
| `Curation.SqrtClose` | libraries/chain/util/reward.cpp:17-38 | it is at least the exact root rounded down, and its square exceeds the number by at most an eighth |
| `Curation.WeighMonotone` | libraries/chain/util/reward.cpp:68-95 | so are the curves that curation uses |
| `Curation.WeighExact` | libraries/chain/util/reward.cpp:68-95 | what each curve gives |
| `Curation.DiscountedExact` | libraries/chain/delta_evaluator.cpp:1907-1913 | an early vote's weight is reduced to the part of the auction that has passed, rounded down; later votes count in full |
| `Curation.WeighBound` | libraries/chain/delta_evaluator.cpp:1864-1880 | every weight fits 64 bits |
| `Curation.Comment.CastVote` | libraries/chain/delta_evaluator.cpp:1772-1991 | exact condition and new state of voting and re-voting, other votes untouched; the sum of weights stays within the total and the total within the curve; the 64-bit arithmetic stays in range |
| `Merkle.RootIsTree` | libraries/protocol/block.cpp:53-65 | folding level by level gives the tree that splits at the largest power of two |
| `Merkle.CalculateRoot` | libraries/protocol/block.cpp:42-67 | the in-place loops compute that tree's value for every transaction list |
| `Framing.SizesAgree` | libraries/net/message_oriented_connection.cpp:165 | sender and receiver agree on every size, also where the unsigned subtraction wraps |
| `Framing.Send` | libraries/net/message_oriented_connection.cpp:258-273 | the buffer that is written |
| `Framing.ReadOne` | libraries/net/message_oriented_connection.cpp:154-173 | a packet is read back, with the start of the next |
| `Framing.ReadLoop` | libraries/net/message_oriented_connection.cpp:144-173 | every sequence of messages within the size limit is read back as sent |
| `Dedup.Chain.ApplyBlock` | libraries/chain/database.cpp:3424-3478 | a block is accepted exactly when its time is later and each transaction in turn is new and within its time; then its transactions are applied and known until they expire; an applied transaction is known or past its expiration |
| `Dedup.Chain.ClearExpired` | libraries/chain/database.cpp:4124-4132 | exactly the expired entries are dropped |
| `Dedup.Chain.ApplyAll` | libraries/chain/database.cpp:3424-3478 | over every run of blocks no transaction is applied twice |

## Left out

- Signatures, hashing, key checks and serialisation: blocks and transactions are their own
  identifiers, digests come from an abstract pairing function, and packing is any self-delimiting
  codec.
- Hardfork branches before 20, hardfork data migrations, proof-of-work mining and liquidity rewards;
  with all hardforks active no miner is scheduled.
- SMT tokens: compiled out.
- The voting mana bar: `Delegation.Vesting.Delegate` and `Curation.Comment.CastVote` take the mana
  and the voting power spent as inputs; the bar regenerates with the time since the last vote, by one
  multiplication and a cap.
- `virtual_supply` and the two checks of the audit on it; it drifts by rounding between blocks and is
  recomputed at block end.
- Account recovery, comment editing, feeds, node networking and plugins.
- Ledger.Db.FromSavings: the number of open requests of an account is an input, not a counter.
- Ledger.Db.CreateDbd: the form that pays into the liquid balance is not called with all hardforks
  active.
- Ledger.Db.ProcessFunds: the amount printed per block and the producer's weight are inputs.
- Ledger.Db.Cashout: the reward of a comment is an input; the formula that divides the reward fund
  among comments is not modelled.
- Ledger.Db.PaySplit: a conversion result of 2^63 or more aborts; the code would go on with a
  negative amount. The same holds for every conversion in the ledger, and no supply comes near it.
- VotingDb.Db.ProxyChainFits: the code keeps a pointer to a local copy past its scope while it walks
  the chain; the model takes the value the pointer is meant to have.
- VotingDb.Db.AdjustWitnessVote: votes + 1 is not wrapped at 64 bits; totals stay below 2^63 - 1.
- ChainDb.Chain.PushBlock: applying a block is an arbitrary deterministic function of the state.
  Checkpoints, pending transactions and skip flags are not modelled.
- ForkDatabase.ForkDb.SetHead: an item that was erased while a switch still holds it keeps its link
  only while its parent is stored.
- BlockLog.Log.Append: files stay below 2^64 bytes, and a torn write is not modelled.
- OrderBook.Exchange.CreateOrder: the amount of an order is a 64-bit number, and object ids do not run
  out.
- Ledger.Db.CreateAccount: the fee that witnesses ask for is an input; authorities and account
  creation by claimed tickets or with delegation are not modelled.
- Audit.RunFromGenesis: delegated shares are not checked by the audit, and `Delegation` keeps its own
  account of them.
- Schedule.Scheduler.Update: the two index orders are inputs; version and hardfork votes and the
  medians of witness properties are not modelled.
- Framing.ReadOne: the stream is a byte sequence, not a socket.
