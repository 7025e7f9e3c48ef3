# Graph Tally: accounting, aggregation and escrow

This project models the three parts of Graph Tally whose correctness rests on state kept over long
runs, and proves what they promise.

**The escrow manager.** Every cycle it turns what is owed to each receiver into a target balance on
a step ladder, decides one action per receiver, sends the actions to the escrow contract in three
batches, and cuts the deposits down round-robin when they exceed a cap. The contract is modelled
from the rules that the comments and the README state: a thaw restarts its timer, a withdrawal
needs a maturity strictly in the past and takes the thawed amount from balance and thawing
together, block times do not decrease, a collection shrinks or ends a pending thaw.

- `Ladder`: the target of a debt. `Reclamation`: one account, the decision about it, the contract's
  steps, and whole runs of one receiver. `Reduction`: cutting deposits down.
- `Escrow`: the ledger and its multicalls. `Cycle`: planning a cycle. `Batches`: sending the plan.
  `Convergence`: what cycle after cycle achieves for all receivers competing for the cap. `Cap`: when
  a cycle keeps the cap, and when it funds above the target. `Hysteresis`: how often, and in what
  order, it acts on a receiver under the cap.

**The debt figures.** `DebtIndex` keeps recent fees in hourly buckets in place of a log of every
fee; `RavTracker` keeps the greatest RAV value per allocation. Both are compared with the full
history of messages.

**The receipt protocol.** A receiver stores receipts, asks for a receipt aggregate voucher (RAV)
over those in a range of timestamps, stores the RAV that comes back and forgets what it covers; an
aggregator checks a batch of receipts and signs the RAV for it.

- `Messages`: receipts, RAVs and signatures. `Aggregation`: adding receipts up. `Checks`,
  `Truncation`, `MemoryContext` and `Manager`: the receiver's side, method by method.
- `Signers` and `Aggregator`: the registry of payers' keys, and the aggregator.
- `Protocol` and `Runs`: a state machine of the receiver's side and what holds at every moment of
  every run. `Receiver`: any sequence of calls of the manager's methods is such a run.
  `Agreement`: the manager's expectation against the aggregator's verdict.

`Common` holds sums, filters and maps that the other modules share.

## How to read the results

Where the source changes state, the model is a method or a class, tied by its `ensures` to a
specification function; the main results are lemmas about those functions. Beside that, the methods
say what they do in their own terms, without the specification functions: which receipts, amounts,
accounts and errors, from the inputs alone.

Runs of the receipt protocol rest on assumptions that are visible in the model. A RAV is stored for
a request that was made against the current RAV, and no receipt that it covers arrives between the
request and the store (`Protocol.Timely`). That is exactly what the account of receipts needs
(`Protocol.TimelinessNeeded`), and the timestamp buffer ensures it when no receipt is accepted later
than the buffer after its own timestamp, by a clock that does not go back (`Runs.PromptIsTimely`).
The stateful timestamp check is among the checks of arriving receipts (`Protocol.Enabled`). A run
starts without receipts, and with no RAV or with one that the timestamp check was set up no earlier
than. For the claim that no receipt is counted twice, a unique id determines what the receipt says
(`Messages.Scheme.IdsDetermine`).

Some promises do not hold of the code in all cases. Each has an input at which it fails and the exact
condition under which it holds:

- The README of the escrow manager caps deposits at 10,000 GRT per cycle. The code stops only after
  reaching that value. A cycle keeps the cap if and only if the desired deposits do, or some stage of
  the filling totals it to the token (`Cap.CapKeptExactly`). For 5000 receivers or more that means
  just 5000, the first wanting at most 2 GRT (`Cap.CapKeptByMany`); when every receiver wants at least
  the top level, that 50 divides their number (`Cap.CapKeptWhenAllWantMore`). A whole cycle that
  sends 10,002 GRT is `Cap.OvershootingCycle`. The total always stays less than 100 GRT above the cap
  for fewer than 5000 receivers (`Reduction.CapKept`).
- A deposit is raised above the shortfall it is for, and takes the receiver above its target, if and
  only if the shortfall is under 2 GRT and the desired deposits exceed the cap
  (`Cap.RaisedExactly`, `Cap.FundedAboveTarget`, `Cap.OneWeiIsRaised`).
- The headroom is to keep deposits and thaws from alternating. Where deposits are granted in full it
  always does. Under the cap a receiver is never both funded and thawed if and only if
  `(target / 10_000) * marginBps + max(1, minWithdraw)` is at least 2 GRT
  (`Hysteresis.HysteresisExactly`), as with any least withdrawal of 2 GRT or more, such as the
  default of 500. With no margin and no least withdrawal, a cycle funds what the next one thaws
  (`Hysteresis.NarrowCycleBounces`).
- A cycle reduces the total shortfall if and only if some receiver is short that has no matured thaw
  (`Convergence.TotalShortfallShrinks`). A receiver that is short while a matured thaw waits is
  funded a cycle later (`Convergence.WithdrawalStalls`, `Convergence.ShortfallVanishes`).
- A fee an hour or more after the start of the window is counted if and only if the window does not
  start in the last hour before the Unix epoch, where truncation towards zero lets two hours share a
  bucket (`DebtIndex.WindowEdges`, `DebtIndex.SharedBucket`). No real clock gets there: the present less 28 days is far later.
- A context may be given a storage that already holds something. Receipts that its RAV covers are
  kept out if and only if the timestamp check was set up no earlier than the RAV
  (`Protocol.ResumableNeeded`, `Protocol.StaleCheckLoses`). Ids are counted from zero all the same,
  so storing keeps all receipts if and only if the next id is free (`MemoryContext.StoringKeeps`).

Check everything with `dafny verify dfyconfig.toml`.

## Model

| member | source | states |
|---|---|---|
| Ladder.NextBalance | crates/bin/escrow_manager/src/main.rs:508-516 | For every debt below the point of u32 overflow the climb ends, and the target is the least rung of the ladder (2, 4, ..., 16384, then every 10,000 GRT) whose share under the fill factor exceeds the debt. |
| Ladder.LeastRungUnique | crates/bin/escrow_manager/src/main.rs:505-507 | A debt has just one least rung with room for it, so the ladder and the fill factor alone determine the target. |
| Ladder.TargetMonotone | crates/bin/escrow_manager/src/main.rs:505-507 | More debt never lowers the target; a higher fill factor never raises it. |
| Ladder.TargetBounds | crates/bin/escrow_manager/src/main.rs:505-507 | The target exceeds debt over fill factor, and above the first rung is at most twice it and at most 10,000 GRT above it. |
| Reclamation.DecisionAccepted | crates/bin/escrow_manager/src/main.rs:551-566 | The contract accepts every decided action in any block no earlier than the one it was decided against; actions and collections keep accounts well formed. |
| Reclamation.FloorExact | crates/bin/escrow_manager/src/main.rs:589-593 | The integer thaw floor is exactly target * (10000 + bps) / 10000 for targets from the ladder, lies between the target and twice the target, and fits a u128. |
| Reclamation.StepCoverage | crates/bin/escrow_manager/src/main.rs:556-566 | No action takes balance less thawing below the smaller of its old value and the target; a full deposit reaches the target exactly, a thaw stops at the floor exactly, a withdrawal changes nothing. |
| Reclamation.CollectionShrinks | crates/bin/escrow_manager/README.md:94-96 | A collection takes its amount off coverage, eats into a pending thaw only beyond that, leaves the timer running, and ends the thaw when it drains the balance. |
| Reclamation.RankStep | crates/bin/escrow_manager/src/main.rs:567-599 | Every action other than nothing brings an account exactly one step closer to rest, and nothing leaves the distance as it is. |
| Reclamation.Quiescence | crates/bin/escrow_manager/src/main.rs:589-592 | With a fixed target and policy, every deposit granted in full and no collections, the actions of any run from any account number exactly the distance it came closer to rest, hence at most three. |
| Hysteresis.CappedQuiescence | crates/bin/escrow_manager/src/main.rs:567-617 | When deposits are cut down to the cap or raised to 2 GRT, and reclamation is suspended at times, the actions of any course still number no more than the distance it came closer to rest. |
| Hysteresis.ManagerQuiesces | crates/bin/escrow_manager/src/main.rs:300-478 | However many receivers compete for the capped deposits, one whose target stays put is acted on at most once per 2 GRT it is short of at first, and three times more; with a wide margin, once more if it starts short, and it is never both funded and thawed. |
| Reclamation.ThreeActionsHappen | crates/bin/escrow_manager/src/main.rs:567-599 | The bound of three is reached: withdraw, thaw, withdraw. |
| Reclamation.LeftAloneOnlyAtRestOrThawing | crates/bin/escrow_manager/src/main.rs:583-598 | When the block time is known, an account is left alone exactly if it is at rest or covered with a thaw that has not matured. |
| Reclamation.NeverBothDepositAndThaw | crates/bin/escrow_manager/src/main.rs:589-592 | Hysteresis for deposits granted in full: no steady run both deposits and thaws, in either order. |
| Hysteresis.HysteresisExactly | crates/bin/escrow_manager/src/main.rs:589-597 | Hysteresis under the cap: no course both deposits and thaws if and only if the margin on the target and the least withdrawal leave 2 GRT between target and thaw. |
| Hysteresis.NoDepositAfterThaw | crates/bin/escrow_manager/src/main.rs:589-592 | A thaw is never followed by a deposit, however narrow the margin. |
| Hysteresis.NarrowCycleBounces | crates/bin/escrow_manager/src/main.rs:419-424 | A whole cycle over the cap, with a margin of zero, that deposits to a receiver which the next cycle thaws. |
| Hysteresis.DefaultIsWide | crates/bin/escrow_manager/src/main.rs:73 | A least withdrawal of 2 GRT or more is wide enough for every target and margin. |
| Hysteresis.DepositsRoundUp | crates/bin/escrow_manager/src/main.rs:577-581 | The deposits that a shortfall takes are the shortfall over 2 GRT, rounded up. |
| Reclamation.CoveredStaysCovered | crates/bin/escrow_manager/README.md:98-99 | Without collections and with targets that do not rise, a covered receiver stays covered over any run and is never deposited to, whatever the policies. |
| Reduction.ReduceAdjustments | crates/bin/escrow_manager/src/main.rs:601-617 | The nested loop ends, and everybody has max(2 GRT, min(desired, 2 GRT + 100 GRT * k)), where k is `passes + 1` for exactly the first `done` receivers in key order and `passes` for the others, the last of these turns being the first to bring the total to the cap. |
| Reduction.LevelClosedForm | crates/bin/escrow_manager/src/main.rs:608-611 | A receiver's amount after k turns is max(2 GRT, min(desired, 2 GRT + 100 GRT * k)). |
| Reduction.PassGrows | crates/bin/escrow_manager/src/main.rs:606-616 | While the desires exceed the total, a full pass without a stop adds something. |
| Reduction.StopUnique | crates/bin/escrow_manager/src/main.rs:612-614 | Where the filling stops is determined by the desires alone. |
| Reduction.Fair | crates/bin/escrow_manager/src/main.rs:601-617 | Max-min fairness: nobody is more than 100 GRT ahead of a receiver that is still short, and all amounts lie between 2 GRT and the larger of that and the desire. |
| Reduction.CapKept | crates/bin/escrow_manager/src/main.rs:601-617 | The total is at least the cap and, for fewer than 5000 receivers, less than 100 GRT above it; from 5000 on the very first turn ends the filling. |
| Reduction.WithinIffHits | crates/bin/escrow_manager/src/main.rs:606-616 | Where the filling stops it is within the cap if and only if some stage of the closed form totals the cap exactly. |
| Cap.CapKeptExactly | crates/bin/escrow_manager/README.md:41-42 | The deposits sent keep within the documented cap if and only if those desired do or some stage of the filling totals it exactly. |
| Cap.CapKeptByMany | crates/bin/escrow_manager/README.md:41-42 | For 5000 receivers or more, if and only if the desired deposits do or there are 5000 and the first wants at most 2 GRT. |
| Cap.CapKeptWhenAllWantMore | crates/bin/escrow_manager/README.md:41-42 | For fewer, all wanting at least the top level, if and only if the desired deposits do or 50 divides their number. |
| Cap.OvershootingCycle | crates/bin/escrow_manager/README.md:41-42 | A whole cycle, from debt to landed batches, that sends 10,002 GRT. |
| Cap.RaisedExactly | crates/bin/escrow_manager/src/main.rs:604-611 | A granted deposit exceeds the desired one if and only if the desired total exceeds the cap and the desired one is below 2 GRT. |
| Cap.OneWeiIsRaised | crates/bin/escrow_manager/src/main.rs:604-605 | Next to a receiver that wants 20,000 GRT, one that wants one wei is granted 2 GRT. |
| Cap.DepositCredited | crates/bin/escrow_manager/src/main.rs:419-424 | In a cycle in which every batch lands, a deposit adds exactly what was granted to the balance and changes nothing else of the account. |
| Cap.FundedAboveTarget | crates/bin/escrow_manager/src/main.rs:577-581 | A cycle takes a receiver above its target by a deposit if and only if it is short of less than 2 GRT, no matured thaw is withdrawn first, and the desired deposits exceed the cap. |
| Escrow.ExecuteConserves | crates/bin/escrow_manager/src/main.rs:558-560 | A call moves tokens between wallet and escrow, and makes or loses none. |
| Escrow.MulticallConserves | crates/bin/escrow_manager/src/contracts.rs:129-146 | Neither does a multicall. |
| Escrow.IndependentCallsSettle | crates/bin/escrow_manager/src/contracts.rs:129-146 | Calls for different receivers, each acceptable on its own and paid for, all land in one multicall and change each account as its own call says and nothing else. |
| Escrow.LandsExactly | crates/bin/escrow_manager/src/contracts.rs:202-207 | A multicall for different receivers that does not both pay in and draw out lands if and only if every call is acceptable on its own and the wallet covers all payments: one bad call fails the whole batch. |
| Escrow.SettledUnique | crates/bin/escrow_manager/src/main.rs:553-554 | What independent calls do together does not depend on their order. |
| Cycle.SeenDebts | crates/bin/escrow_manager/src/main.rs:238-246 | The debt seen for every receiver covers the fees owed and the RAVs owed and equals one of them, or is zero. |
| Cycle.DebtExactly | crates/bin/escrow_manager/src/main.rs:301-305 | With the configured floor, in whole GRT, the debt covers all three and equals one of them, or is zero. |
| Cycle.OwesUnique | crates/bin/escrow_manager/src/main.rs:301-305 | There is just one such amount. |
| Cycle.ReclaimPolicy | crates/bin/escrow_manager/src/main.rs:271-294 | Reclamation is in force exactly if enabled and fees or RAVs of some receiver are owed, by the block time read and the configured margin and least withdrawal; configured debt floors do not count. |
| Cycle.NoReclamation | crates/bin/escrow_manager/src/main.rs:271-294 | When reclamation is disabled or nothing is owed, receivers are only funded or left alone; without a block time no thaw is withdrawn. |
| Cycle.PlanCycle | crates/bin/escrow_manager/src/main.rs:296-367 | The three batches hold exactly what is decided for every receiver, for the target of what it is owed and under the policy in force, each in receiver order and each once. |
| Cycle.BatchesDisjoint | crates/bin/escrow_manager/src/main.rs:553-554 | No receiver is in two batches. |
| Cycle.Grant | crates/bin/escrow_manager/src/main.rs:419-424 | Deposits that fit the cap are granted in full, others are cut down; the assertion of the reduction never fails. |
| Cycle.GrantUnique | crates/bin/escrow_manager/src/main.rs:419-424 | The grants are determined by the desired deposits. |
| Cycle.GrantBetween | crates/bin/escrow_manager/src/main.rs:419-424 | Every grant lies between the desire and the minimum deposit. |
| Batches.PlannedCallsLand | crates/bin/escrow_manager/src/main.rs:389-478 | Every planned call meets the contract's condition in any later block, in whatever order the batches are sent and whichever of them are; the accounts stay well formed and the tokens are conserved. |
| Batches.OrderIrrelevant | crates/bin/escrow_manager/README.md:78-79 | Which batches land decides the ledger afterwards; in which order they do does not. |
| Batches.LandingInTurn | crates/bin/escrow_manager/src/main.rs:389-478 | Sending thaws, deposits and withdrawals in turn, any of which may fail, lands exactly the batches without a fault of their own and, for deposits, with funds for all of them. |
| Batches.PaymentsEscrow.ThawMany | crates/bin/escrow_manager/src/contracts.rs:168-200 | The thaws settle each receiver by itself and keep all tokens, or change nothing; they land exactly if each is positive and within the balance and no fault hits the transaction. |
| Batches.PaymentsEscrow.DepositMany | crates/bin/escrow_manager/src/contracts.rs:112-147 | The same for deposits, which land exactly if all are positive and the wallet covers their sum. |
| Batches.PaymentsEscrow.WithdrawMany | crates/bin/escrow_manager/src/contracts.rs:208-236 | The same for withdrawals, which land exactly if every thaw of the batch has matured strictly before the block. |
| Batches.RunCycle | crates/bin/escrow_manager/src/main.rs:296-478 | A dry run changes nothing. Otherwise every account follows from its decision: a thaw is of the decided amount and ends a period after its block, a deposit adds what was granted, a withdrawal takes the thawed amount, each if no fault hits its batch and, for deposits, the wallet covers them all, and else not at all. Other accounts and all tokens are kept. |
| Batches.CycleResults | crates/bin/escrow_manager/src/main.rs:389-478 | The same for one receiver, from the calls that landed. |
| Convergence.FullCycleAdvances | crates/bin/escrow_manager/src/main.rs:300-478 | After a cycle in which every batch lands, every receiver's account has gone through its own decided action, with a grant between desire and minimum. |
| Convergence.ReceiverProgress | crates/bin/escrow_manager/src/main.rs:567-581 | A cycle never makes a shortfall grow; it takes off 2 GRT or all of it, exactly if there is one and no matured thaw is withdrawn first; no receiver is funded 2 GRT or more above its target. |
| Convergence.TotalShortfallShrinks | crates/bin/escrow_manager/src/main.rs:419-424 | Under the cap the total shortfall over all receivers never grows, and it shrinks if and only if some receiver is short that has no thaw matured by the block time read. |
| Convergence.WithdrawalStalls | crates/bin/escrow_manager/src/main.rs:556-560 | A whole cycle in which the only receiver is short, a matured thaw is withdrawn, and the total shortfall stays. |
| Convergence.ShortfallVanishes | crates/bin/escrow_manager/src/main.rs:567-581 | Every cycle takes at least 2 GRT off a shortfall, but for at most one in which a thaw under way at the start is withdrawn. |
| Convergence.ManagerConverges | crates/bin/escrow_manager/src/main.rs:300-478 | However many receivers compete for the capped deposits, each of them whose target stays put is covered after target / 2 GRT cycles and one more. |
| Convergence.RunCycleIsFull | crates/bin/escrow_manager/src/main.rs:389-478 | What running a cycle promises, without faults of its own and without a dry run, is a full cycle if and only if the wallet covers the deposits, so histories are histories of `Batches.RunCycle`. |
| DebtIndex.DB.Record | crates/bin/escrow_manager/src/kafka.rs:242-253 | A fee from the window's start on is added to the bucket of its hour, an earlier one dropped, and the index stays consistent with the full log. |
| DebtIndex.DB.Prune | crates/bin/escrow_manager/src/kafka.rs:255-261 | Exactly the buckets of later hours than that of the window's start stay, and they are those of the full log. |
| DebtIndex.DB.Snapshot | crates/bin/escrow_manager/src/kafka.rs:263-268 | The snapshot has every indexer of the index with the sum of its buckets. |
| DebtIndex.DB.Drain | crates/bin/escrow_manager/src/kafka.rs:223-237 | A second or more after the last time, what is published are the sums of all fees ever received whose hour is after that of the present less the window, for exactly the indexers that have one: every fee from an hour after the window's start on, and none at or before it. Otherwise nothing is published. |
| DebtIndex.WindowCounts | crates/bin/escrow_manager/src/kafka.rs:255-257 | From the epoch on, fees an hour after the window's start are after its hour and fees at or before the start are not. |
| DebtIndex.HourlyExactly | crates/bin/escrow_manager/src/kafka.rs:271-274 | The timestamp is the whole hour that holds the second, from its start on or, before the epoch, up to its end. |
| DebtIndex.DB.SnapshotExact | crates/bin/escrow_manager/src/kafka.rs:242-268 | The published sums name exactly the indexers with a recent fee, with the sum of all their fees whose hour is after the bound. |
| DebtIndex.BucketedAbove | crates/bin/escrow_manager/src/kafka.rs:255-261 | Pruning at an earlier bound first changes nothing. |
| DebtIndex.BucketedSum | crates/bin/escrow_manager/src/kafka.rs:263-268 | Summing the buckets is summing the fees of the log, and there is a bucket exactly if there is a fee. |
| DebtIndex.HourlyMonotone | crates/bin/escrow_manager/src/kafka.rs:271-274 | Later times never fall into earlier buckets, before the epoch included. |
| DebtIndex.WindowEdges | crates/bin/escrow_manager/src/kafka.rs:255-257 | No fee at or before the start of the window is counted; every fee an hour or more after it is, if and only if the window does not start in the hour before the epoch. |
| DebtIndex.SharedBucket | crates/bin/escrow_manager/src/kafka.rs:271-274 | A window that starts a second before the epoch leaves out a fee of an hour later, in the same bucket. |
| RavTracker.Tracker.Process | crates/bin/escrow_manager/src/kafka.rs:326-342 | The map says for each allocation the greatest value of the records of accepted signers, for exactly the allocations that have one; watchers are told exactly if a record of an accepted signer raises or adds a value. |
| RavTracker.TracksUnique | crates/bin/escrow_manager/src/kafka.rs:306-344 | Redelivery and order of the accepted records do not change the map. |
| RavTracker.IndexerRavs | crates/bin/escrow_manager/src/main.rs:228-236 | Each indexer gets the tracked values of its active allocations, and nothing is lost or counted twice on the way. |
| Aggregation.AggregateReceipts | crates/graph/src/rav.rs:54-90 | The RAV is about the identity, carries the previous value plus all receipts' values and the greatest timestamp, has no metadata, and exists exactly if the true total fits 128 bits. |
| Aggregation.AggregateChecked | crates/graph/src/rav.rs:93-117 | The same for a batch that says itself whom it is about, with an error for an empty one. |
| Aggregation.LatestIsGreatest | crates/graph/src/rav.rs:65-79 | The timestamp is the greatest among the previous one and the receipts'. |
| Aggregation.OrderIrrelevant | crates/graph/src/rav.rs:73-79 | Permuting the receipts changes neither success nor the RAV. |
| Aggregation.InTwoRounds | crates/graph/src/rav.rs:68-79 | Aggregating xs + ys is aggregating ys on top of the RAV of xs, errors included. |
| Signers.RegisterKeys | crates/bin/aggregator/src/signers.rs:51-71 | The keys are registered exactly if there is one and payers and signing addresses are all different. |
| Signers.Build | crates/bin/aggregator/src/signers.rs:47-89 | Building succeeds exactly if moreover every accepted signer names a known payer and no address falls under two payers; the registry then holds exactly what is listed, and an error says what is wrong. |
| Signers.AcceptedDisjoint | crates/bin/aggregator/src/signers.rs:41-46 | Accepted signers of different payers are disjoint, and every payer's own key is accepted for it. |
| Signers.BuildOrderIrrelevant | crates/bin/aggregator/src/signers.rs:47-89 | Rearranging the lists, or repeating an accepted signer, changes neither acceptance nor the registry. |
| Aggregator.CheckSignaturesUnique | crates/bin/aggregator/src/aggregator.rs:162-175 | True exactly if no two receipts share a unique id. |
| Aggregator.CheckReceiptTimestamps | crates/bin/aggregator/src/aggregator.rs:177-195 | True exactly if every receipt is later than the previous RAV. |
| Aggregator.CheckCollectionId | crates/bin/aggregator/src/aggregator.rs:137-160 | True exactly if all receipts are about the one identity. |
| Aggregator.CheckSigners | crates/bin/aggregator/src/aggregator.rs:47-49 | True exactly if every receipt is from an accepted signer. |
| Aggregator.CheckAndAggregateReceipts | crates/bin/aggregator/src/aggregator.rs:15-121 | Each error has its own condition, in the order of the checks; success means distinct receipts of one identity, newer than a previous RAV of the same identity, all signed by signers accepted for the payer, and issues the RAV of their full total with the payer's key. |
| Aggregator.AdjudicatedUnique | crates/bin/aggregator/src/aggregator.rs:15-121 | These conditions determine the outcome, the issued RAV and its signature included. |
| Aggregator.SignedForItsPayer | crates/bin/aggregator/src/aggregator.rs:34-51 | An issued RAV is signed by its payer's own key, over receipts from signers accepted for that payer and no other. |
| Aggregator.ChainIsOneAggregation | crates/bin/aggregator/src/aggregator.rs:15-121 | A chain of calls, each on top of the last RAV and whatever the registries, ends with the very RAV of aggregating all its receipts at once; its identity never changes and its timestamps strictly increase. |
| Aggregator.ChainNeverRepeats | crates/bin/aggregator/src/aggregator.rs:60-61 | Replay freedom: no unique id occurs twice in a chain, in one batch or across batches, and nothing in it is as old as the RAV it started from. |
| Truncation.SortUnstable | crates/core/src/manager/adapters/receipt.rs:110 | Some order by timestamp of the same receipts; nothing is said of ties. |
| Truncation.SafeTruncateReceipts | crates/core/src/manager/adapters/receipt.rs:99-125 | The result is the largest part of the receipts within the limit that leaves none behind for a timestamp it reaches; a receipt is kept exactly if no more than the limit are at or before its timestamp. |
| Truncation.TruncationUnique | crates/core/src/manager/adapters/receipt.rs:72-84 | There is just one such part, whatever the input order and however ties are sorted. |
| Truncation.TruncationEmpty | crates/core/src/manager/adapters/receipt.rs:72-84 | It is empty exactly if there is nothing to keep or the earliest timestamp alone has more receipts than the limit. |
| Checks.PassesAll | crates/receipt/src/received_receipt.rs:62-75 | Walking the list up to the first refusal passes exactly the receipts that pass every check. |
| Checks.TimestampCheck | crates/receipt/src/checks.rs:149-172 | Parts a batch at the timestamp, losing and repeating nothing. |
| Checks.UniqueCheck | crates/receipt/src/checks.rs:180-201 | Keeps exactly the first receipt of each unique id and fails the others. |
| Checks.FirstsUnique | crates/receipt/src/checks.rs:174-178 | What is kept has one receipt for every unique id of the batch, and just one. |
| Checks.FirstsAndRepeats | crates/receipt/src/checks.rs:180-201 | Kept and failed receipts together are the batch, occurrence by occurrence. |
| MemoryContext.InMemoryContext.UpdateLastRav | crates/core/src/manager/context/memory.rs:128-134 | Replaces the RAV and the least accepted timestamp, unconditionally. |
| MemoryContext.InMemoryContext.StoreReceipt | crates/core/src/manager/context/memory.rs:150-160 | Adds the receipt under the next id. |
| MemoryContext.InMemoryContext.RemoveReceiptsInTimestampRange | crates/core/src/manager/context/memory.rs:167-176 | Removes the receipts of the range and no others. |
| MemoryContext.InMemoryContext.RetrieveReceiptsInTimestampRange | crates/core/src/manager/context/memory.rs:181-199 | All receipts of the range in some order or, beyond the limit, their truncation. |
| MemoryContext.RetrievalExactly | crates/core/src/manager/adapters/receipt.rs:68-92 | Without a limit every stored receipt of the range comes as often as it is stored, and no other; with one no more than the limit come, none skipped at or before a timestamp that is reached. |
| Manager.Manager.CollectReceipts | crates/core/src/manager/core.rs:105-159 | Valid are exactly the first receipts of their ids that pass every check; invalid are exactly the first ones that some check fails, all earlier ones passing, and the repeats of an earlier id; together they are what was retrieved, nothing lost and nothing twice. A retry is the error exactly if some first receipt's first check that does not pass asks for one; an impossible range is the error exactly if the range is impossible. |
| Manager.JudgeSifts | crates/core/src/manager/core.rs:134-158 | The lists that the checks and filters build are rightly sifted in these terms. |
| Checks.ObjectsExactly | crates/receipt/src/received_receipt.rs:62-75 | A receipt fails, or is to be retried, exactly by the first check that does not pass. |
| Checks.FirstsExactly | crates/receipt/src/checks.rs:184-200 | Kept are exactly the receipts that are first of their id, failed exactly those that repeat an earlier one's. |
| Manager.Manager.CreateRavRequest | crates/core/src/manager/core.rs:176-204 | The batch holds what is stored after the last RAV and before the buffered present, all of it without a limit; it is sifted as above; and the expected RAV is for the valid receipts on top of the last RAV, existing exactly if there are some and the total fits. |
| Manager.Manager.VerifyAndStoreRav | crates/core/src/manager/core.rs:69-97 | Succeeds exactly if the signature recovers to the sender and the message is the expected one, and then the RAV and its timestamp are stored; each error has its own condition and changes nothing. |
| Manager.NextReceiptsPass | crates/core/src/manager/context/memory.rs:128-134 | Once a RAV is stored the timestamp check accepts exactly the receipts after its timestamp, from the next nanosecond on: those that the next request ranges over. |
| Manager.Manager.RemoveObsoleteReceipts | crates/core/src/manager/core.rs:221-238 | Exactly the receipts later than the current RAV stay, all if there is none, and nothing else changes. |
| Manager.Manager.VerifyAndStoreReceipt | crates/core/src/manager/core.rs:253-271 | Stores under the next id exactly the receipts that pass every check; fails or asks for a retry exactly by the first check that does not pass, changing nothing. |
| Manager.BatchParted | crates/core/src/manager/core.rs:134-158 | Valid and invalid receipts of a request together are what was retrieved, nothing lost and nothing twice. |
| Protocol.NoneLeftBehind | crates/core/src/manager/core.rs:126-130 | Whatever the limit, everything that is in the requested range and no later than some retrieved receipt was retrieved, as often as it arrived. |
| Protocol.RequestCovers | crates/core/src/manager/core.rs:186-203 | Everything that a request's RAV will newly cover is in its valid or invalid list, occurrence by occurrence. |
| Protocol.UniqueMore | crates/core/src/manager/core.rs:186-190 | What a RAV newly counts was never counted before. |
| Protocol.TimelinessNeeded | crates/core/src/manager/core.rs:118 | Storing a RAV keeps the account of receipts if and only if nothing that it covers arrived since its request. |
| Protocol.BufferedIsTimely | crates/core/src/manager/core.rs:118 | If all that arrives after a request is no earlier than the end of its range, its RAV can be stored at any later time. |
| Runs.PromptIsTimely | crates/core/src/manager/core.rs:118 | In a run by a clock, in which no receipt is accepted later than the buffer after its timestamp, a RAV can be stored for any open request if and only if it is expected and not refused. |
| Protocol.ResumableNeeded | crates/core/src/manager/context/memory.rs:47-61 | The timestamp check keeps out everything that a stored RAV covers if and only if it was set up no earlier than the RAV. |
| Protocol.StaleCheckLoses | crates/core/src/manager/context/memory.rs:47-61 | Otherwise a receipt is accepted that the next clean-up deletes, neither counted nor reported. |
| MemoryContext.StoringKeeps | crates/core/src/manager/context/memory.rs:150-160 | Storing keeps every stored receipt if and only if the next id is free or holds the same receipt. |
| Runs.ExactAccounting | crates/core/src/manager/core.rs:105-204 | At every moment of every run, from no RAV or from one stored before, the RAV's value is the first one's plus the sum over the receipts ever counted and its timestamp the greatest among theirs, no receipt was counted twice, and open requests count only later ones. |
| Runs.NothingLost | crates/core/src/manager/core.rs:209-235 | At every moment every receipt that arrived is still stored or covered by the RAV, and a covered one was counted or reported exactly as often as it arrived. |
| Runs.OnlyVettedCount | crates/core/src/manager/core.rs:134-158 | Every receipt counted at some moment of a run, or about to be, was found by an earlier request to pass all its checks. |
| Runs.StoredIsSenders | crates/core/src/manager/core.rs:78-80 | Every RAV stored in a run recovers to the sender. |
| Runs.RavsAdvance | crates/core/src/manager/context/memory.rs:128-134 | Although storing overwrites unconditionally, RAVs only move forward in timestamp and value, strictly so in timestamp whenever one is stored, and what was counted stays counted. |
| Receiver.Receiver.ReceiveReceipt | crates/core/src/manager/core.rs:253-271 | Receiving is a step of the protocol: the history stays a run, and the receipt has arrived exactly if it was accepted. |
| Receiver.Receiver.RequestRav | crates/integration_tests/tests/indexer_mock.rs:197-199 | So is a successful request, which is then open; a failed one changes nothing. |
| Receiver.Receiver.StoreRav | crates/integration_tests/tests/indexer_mock.rs:217-219 | So is storing a RAV, which succeeds exactly if it is not refused. |
| Receiver.Receiver.RemoveObsolete | crates/core/src/manager/core.rs:221-238 | So is cleaning up. |
| Agreement.FilteredByManager | crates/core/src/manager/core.rs:132-142 | The aggregator's checks for unique ids and for timestamps after the previous RAV cannot fail on a manager's request. |
| Agreement.ManagerAndAggregatorAgree | crates/bin/aggregator/src/aggregator.rs:15-121 | The aggregator grants a manager's request exactly if it has valid receipts of one identity, accepted signers and a total that fits; it then issues the RAV the manager expects, which is accepted exactly if the sender is the payer's key. |
| Agreement.RoundCompletes | crates/integration_tests/tests/indexer_mock.rs:185-219 | A grantable request goes through: the RAV becomes the current one, the valid receipts are counted, and a clean-up leaves exactly the later receipts. |

## Left out

- Ladder.NextBalance: the comparison is on exact reals; the source's f64 rounds large wei amounts. Debts for which the u32 rung overflows are excluded by a precondition.
- Reduction.ReduceAdjustments: takes its entries in strictly ascending key order, as the cycle produces them; the collection of a list with repeated receivers into a map is not modelled.
- Batches.RunCycle: accounts are read as they are when the plan is made; collections between planning and landing are not modelled, nor is the allowance, whose shortage would revert the deposits like a lack of funds.
- Convergence.ManagerConverges: assumes that every batch of every cycle lands and nothing is collected, since no progress can be promised otherwise.
- Truncation.SafeTruncateReceipts: the vector that the source changes in place is a sequence that goes in and one that comes out.
- Runs.ExactAccounting: under the assumptions above, and from a store without receipts. RAV requests whose stores cross each other are not covered, because storing a RAV closes all other requests; the code does not order such stores.
- Manager.Manager.CreateRavRequest: the wrap-around of timestamp plus one and of the present less the buffer are not modelled; the buffer is at most the present.
- DebtIndex.DB.Drain: the clock does not go back, and fees are unbounded, so 128-bit sums do not overflow.
- Aggregator.CheckAndAggregateReceipts: signers are checked in parallel in the source, which affects only which of several bad receipts an error names; signing itself does not fail.
- Cryptography: signing, recovery and the low-S form of signatures are functions of a `Scheme`; the one law assumed is that a signed RAV recovers to the address of its key.
- The conversion of the configured margin to basis points and the other checks of the configuration file.
- 128-bit overflow of sums in the escrow manager; the thaw floor is proved to fit.
- Maps ordered by address appear as sequences with strictly ascending keys where order matters, and as maps elsewhere.
- Kafka, subgraph, Ethereum, JSON-RPC and gRPC transport, metrics and logging: messages, accounts and block times are inputs.
- The loop that drains the topic of aggregated fees at start-up: its end depends on the broker.
- That every issued RAV reaches the debt figures: the aggregator keys its records by payer (crates/bin/aggregator/src/server.rs:289-294), while the tracker accepts them by signer.
- Locks and asynchronous scheduling: each method of the context is one step.
- Retrieval and removal of receipts by id, escrow counters of the in-memory context, the summary of the registry, protobuf conversions, API versions and command-line parsing.
