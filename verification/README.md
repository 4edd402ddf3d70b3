# A verified model of the exchange's money core

This project models the parts of the exchange that hold and move money, and the protocols around them, and proves what
they keep. Amounts are exact integers, identifiers are positions in a table, and every service that changes rows in
place is a class whose methods are proved equal to a specification function; the theorems are about those functions and
about runs of them.

* **Ledger** (`Ledger`, `LedgerService`): wallet accounts, double-entry postings, idempotency keys, balance snapshots.
* **Exchange** (`Orders`, `Exchange`, `ExchangeInvariant`, `ExchangeSteps`, `ExchangeMatchStep`, `ExchangeMoneyStep`,
  `ExchangeTheorems`, `ExchangeRequests`, `ExchangeWealth`, `ExchangeRuns`, `ExchangeService`): one state machine of
  orders that lock funds, matches that settle through the ledger, cancels, deposits and withdrawal holds. Its invariant
  is exact lock accounting: a user's LOCKED balance of an asset is what the live orders still need, plus what BUY
  takers left behind by filling below their limit, plus what withdrawals hold. AVAILABLE and LOCKED together are, to
  the unit, what the user's deposits and trades brought.
* **Matching** (`Sweep`, `Matching`, `MatchingTheorems`): the loop that asks the book again after every match is one
  greedy sweep over the book as it stood, at the best total, and leaves the book uncrossed.
* **Order book** (`OrderBook`): levels partition live orders and agree with the engine about the best price.
* **Deposits** (`Deposits`, `DepositTheorems`, `DepositOutcomes`, `DepositService`), **outbox** (`Outbox`,
  `OutboxWorker`) and **withdrawals** (`Withdrawals`, `WithdrawalTheorems`, `WithdrawalOutcomes`, `WithdrawalRuns`,
  `WithdrawalService`): at-least-once protocols taken one database call at a time, with redelivery, stale rows, crashes
  and calls that take effect without an answer. `Correspondence` relates the deposit and withdrawal services to the
  steps of the exchange that stand for them.
* **Limiters** (`TokenBucket`, `SlidingWindow`): key expiry cannot be observed, throughput is bounded, and how many of
  a burst are let through.
* **Candles** (`Candles`): five nested intervals agree with their trades and with each other.
* `Sums` and `Arithmetic` hold shared arithmetic.

Some properties that one might expect do not hold of the code. Each is given its exact condition, and a concrete run
that reaches the failure:

* A settlement is refused when the maker's price is zero, because the decimal sign test `isPositive` lets zero through
  although the messages beside it say "greater than zero", and the ledger refuses zero amounts. A live SELL at price
  zero then blocks every bid of other users on its pair. A pair whose minimum quote amount is positive, as the seeded
  pairs are (Backend/scripts/seed-trading-pairs.js:12), rules this out. Condition: `Matching.LoopFailsIffItStalls`;
  run: `ExchangeRuns.PriceZeroStalls`.
* Unlocking a failed withdrawal does not ask whether its lock was posted, so it can take the lock of a live order; only
  a withdrawal that has not got beyond REQUESTED can be without its lock. Condition: `Correspondence.FailKeepsCoverIff`,
  `WithdrawalTheorems.AcceptedIsLocked`; run: `ExchangeRuns.UnlockBreaksCancel`.
* A job can give funds back after the provider was made to send them. Condition:
  `WithdrawalTheorems.SentYetUnlockedIff`; run: `WithdrawalRuns.SentAndUnlocked`.
* A withdrawal goes back from CONFIRMED to BROADCASTED when the provider un-confirms its transfer. Condition:
  `WithdrawalTheorems.FollowLowersIff`; run: `WithdrawalRuns.RankCanDrop`.
* A deposit's CREDITED mark can be overwritten by a task that had read the row before; the credit itself is never
  repeated. Condition: `DepositTheorems.CreditedIsFinalIff`; run: `DepositTheorems.CreditedCanBeLost`.
* An outbox event's PUBLISHED mark can be overwritten by a requeue after an unanswered mark. Condition:
  `Outbox.PublishedIsLeftIff`; run: `Outbox.PublishedCanBeLeft`.
* An outbox event whose owner stops stays PUBLISHING for ever. Condition: `Outbox.OrphanedIff`; run:
  `Outbox.EventCanBeOrphaned`.
* A candle need not open or close as its first or last finer candle does when trades are processed out of time order.
  Condition: `Candles.OpensAgreeIff` and `Candles.ClosesAgreeIff`, by times alone `Candles.OpensAlwaysAgreeIff` and
  `Candles.ClosesAlwaysAgreeIff`; run: `Candles.LateTradeSplitsTheOpen`.

`dafny verify dfyconfig.toml` checks the whole project.

## Model

| member | source | states |
|---|---|---|
| LedgerService.TotalsByAsset | Backend/services/wallet-ledger-service/ledger.service.js:53-63 | the loop's map holds, for exactly the assets named, the sum of their entries |
| LedgerService.CheckBalanced | Backend/services/wallet-ledger-service/ledger.service.js:65-72 | accepts exactly the lists in which every asset balances on its own |
| LedgerService.SimulateBalances | Backend/services/wallet-ledger-service/ledger.service.js:127-143 | exactly the named accounts, each moved by all of its entries, also when an account is named more than once |
| LedgerService.LedgerTables.GetOrCreate | Backend/services/wallet-ledger-service/walletAccount.service.js:47-75 | an upsert: a new account starts at zero, an existing one keeps its balance |
| LedgerService.LedgerTables.GetOrCreateUserWalletAccounts | Backend/services/wallet-ledger-service/walletAccount.service.js:7-45 | opens the AVAILABLE and LOCKED pair and touches nothing else |
| LedgerService.LedgerTables.CheckAccounts | Backend/services/wallet-ledger-service/ledger.service.js:88-156 | the verdict on accounts, assets and balances, and the simulated balances equal to the moved ones |
| LedgerService.LedgerTables.PostLedgerTransaction | Backend/services/wallet-ledger-service/ledger.service.js:22-205 | answers and changes the tables exactly as the specification of a posting, with its errors in their order |
| Ledger.FindByKey | Backend/services/wallet-ledger-service/ledger.service.js:74-86 | a replay answers with the stored transaction of that key |
| Ledger.FirstFault | Backend/services/wallet-ledger-service/ledger.service.js:112-125 | no fault exactly when every entry's account has its asset and a balance row |
| Ledger.PostKeepsSound | Backend/services/wallet-ledger-service/ledger.service.js:158-204 | an accepted, refused or replayed posting keeps snapshots equal to history, double entry, unique keys and non-negative user balances |
| Ledger.OpenKeepsSound | Backend/services/wallet-ledger-service/walletAccount.service.js:7-75 | opening an account keeps the ledger sound and moves no balance |
| Ledger.EveryRunIsSound | Backend/services/wallet-ledger-service/ledger.service.js:31-204 | after any sequence of any requests the ledger is sound |
| Ledger.ReplayIsIdempotent | Backend/services/wallet-ledger-service/ledger.service.js:74-86 | posting a key again, with whatever content, changes nothing |
| Ledger.SoundLedgerConserves | Backend/services/wallet-ledger-service/ledger.service.js:52-72 | the balances of all accounts of an asset, users and system together, sum to zero |
| Ledger.PostedExactlyIf | Backend/services/wallet-ledger-service/ledger.service.js:41-156 | a request is posted exactly when type and key are given, there are two entries or more, none zero, every asset balances, the key is free, every account exists with its asset, and no user account would fall below zero |
| Ledger.RefusalsAreTrue | Backend/services/wallet-ledger-service/ledger.service.js:41-156 | a refusal names a fault that the request really has |
| Orders.OppositeOpenOrders | Backend/services/trading-service/matchingEngine.service.js:19-91 | the live opposite orders of other users at acceptable prices, all of them, in price-time order |
| Orders.QueryResultIsUnique | Backend/services/trading-service/matchingEngine.service.js:53-86 | filter and order leave one possible answer |
| Orders.BetterPriceThenOlderFirst | Backend/services/trading-service/matchingEngine.service.js:53-86 | of two listed orders the earlier has the better price; at one price it was created no later, and at one creation time it is the earlier row |
| Orders.ListedIff | Backend/services/trading-service/matchingEngine.service.js:19-52 | listed is exactly every live order of another user on the other side of the pair at an acceptable price |
| Orders.FillQuantity | Backend/services/trading-service/matchingEngine.service.js:93-125 | fails exactly when a side is exhausted; otherwise fills one of the two completely and neither beyond it |
| Orders.OrderFillUpdate | Backend/services/trading-service/matchingEngine.service.js:196-250 | a fill within what remains keeps filled plus remaining, and makes the order FILLED exactly when nothing remains |
| Orders.QueryAfterExhaustedHead | Backend/services/trading-service/matchingEngine.service.js:546-566 | after a match that exhausts the first maker, asking again gives the old answer without it |
| Sweep.SweepFillsInOrder | Backend/services/trading-service/matchingEngine.service.js:542-572 | a sweep goes down the list and exhausts every maker but possibly the last |
| Sweep.SweepFillsTheMinimum | Backend/services/trading-service/matchingEngine.service.js:93-125 | a sweep fills all that is wanted or all there is |
| Sweep.SweepBeatsAllocation | Backend/services/trading-service/matchingEngine.service.js:127-153 | over a price-sorted list no allocation of the same quantity trades at a better total than the sweep |
| Sweep.SweepIsBestExecution | Backend/services/trading-service/matchingEngine.service.js:53-86 | the sweep for any wanted quantity is at least as good as any allocation of what it fills |
| ExchangeInvariant.PostEffect | Backend/services/wallet-ledger-service/ledger.service.js:158-204 | an accepted posting appends one transaction and moves every balance by its entries, and nothing else |
| ExchangeInvariant.TransferOutcome | Backend/services/wallet-ledger-service/ledger.service.js:41-156 | a transfer under a free key posts exactly when its amount is not zero and a paying user account covers it |
| ExchangeSteps.PlaceKeepsInv | Backend/services/trading-service/tradingOrder.service.js:206-340 | placing an order, accepted or refused, keeps the exact lock accounting and all bookkeeping |
| ExchangeSteps.KeyIsFree | Backend/services/trading-service/tradingOrder.service.js:318-337 | a row that is not yet in the state a posting stands for has no posting under its key |
| ExchangeMatchStep.ReleaseIsTheNeed | Backend/services/trading-service/tradingOrder.service.js:151-180 | for a live order the released amount is exactly the lock rule on what remains, positive, and its guard does not fire |
| ExchangeMatchStep.SettlementTotals | Backend/services/trading-service/matchingEngine.service.js:321-371 | what the four settlement entries move on each account and asset |
| ExchangeMatchStep.NoSecondTrade | Backend/services/trading-service/matchingEngine.service.js:373-414 | two live orders have never traded with each other, so the unique trade key is free |
| ExchangeMatchStep.ExecuteKeepsInv | Backend/services/trading-service/matchingEngine.service.js:468-540 | a match commits trade, settlement, both orders and outbox row together or nothing, and keeps the invariant |
| ExchangeMatchStep.CancelKeepsInv | Backend/services/trading-service/tradingOrder.service.js:352-437 | a cancel, accepted or refused, keeps the invariant |
| ExchangeMoneyStep.CreditKeepsInv | Backend/services/wallet-ledger-service/deposit.service.js:198-245 | crediting a deposit, for the first time or again, keeps the invariant |
| ExchangeMoneyStep.HoldKeepsInv | Backend/services/wallet-ledger-service/withdrawal.service.js:298-317 | locking or unlocking a withdrawal keeps the exact lock accounting |
| ExchangeTheorems.EveryRunKeepsInv | Backend/services/trading-service/matchingEngine.service.js:468-572 | any run of places, matches, cancels, deposits, credits and withdrawal holds keeps the whole invariant |
| ExchangeTheorems.LockedIsExact | Backend/services/trading-service/tradingOrder.service.js:133-180 | in every reachable state LOCKED is the needs of live orders plus price improvements plus withdrawal holds |
| ExchangeTheorems.LockedCoversOrder | Backend/services/trading-service/tradingOrder.service.js:133-149 | LOCKED covers every live order of its user on its own |
| ExchangeTheorems.LocksCoverSettlement | Backend/services/trading-service/matchingEngine.service.js:321-371 | the locks of buyer and seller cover what the settlement at the maker's price debits |
| ExchangeTheorems.MatchExecutesIff | Backend/services/trading-service/matchingEngine.service.js:468-540 | a match of a live order with an eligible one executes exactly when the maker's price is not zero and the LOCKED balances of seller and buyer cover the settlement |
| ExchangeTheorems.BackedMatchExecutesIff | Backend/services/trading-service/matchingEngine.service.js:468-540 | while no withdrawal was unlocked without its lock, exactly when the maker's price is not zero |
| ExchangeTheorems.CancelReleasesIff | Backend/services/trading-service/tradingOrder.service.js:352-437 | the owner's cancel of a live order gives back exactly what it still needs exactly when LOCKED covers that, and is refused by the ledger otherwise |
| ExchangeTheorems.CancelIsNeverRefused | Backend/services/trading-service/tradingOrder.service.js:352-437 | while no withdrawal was unlocked without its lock, that is always so |
| ExchangeTheorems.PlaceAcceptedIff | Backend/services/trading-service/tradingOrder.service.js:277-340 | an order that passes the checks is placed exactly when its lock is not zero and AVAILABLE covers it |
| ExchangeTheorems.UnlockPostsIff | Backend/services/wallet-ledger-service/withdrawal.service.js:413-448 | the fail path's unlock posts whenever LOCKED, whatever it is for, is large enough |
| ExchangeTheorems.UnlockKeepsCoverIff | Backend/services/wallet-ledger-service/withdrawal.service.js:398-448 | after an unlock that posted, all locks are still covered exactly when that withdrawal's own lock had been posted |
| ExchangeTheorems.UsersOwnWhatWasDeposited | Backend/services/wallet-ledger-service/deposit.service.js:211-235 | for each asset all user balances sum to minus main custody, which is the sum of the distinct credited deposits |
| ExchangeTheorems.EveryRunConserves | Backend/services/payment-service/paymentDeposit.service.js:168-192 | the same over any run, crypto and fiat deposits alike |
| ExchangeTheorems.OneSettlementPerTrade | Backend/services/trading-service/matchingEngine.service.js:321-371 | every trade has exactly one settlement posting, with that trade's entries |
| ExchangeTheorems.OrdersAddUp | Backend/services/trading-service/matchingEngine.service.js:209-250 | filled is the sum of the order's trades, filled and remaining make the original, FILLED exactly when nothing remains |
| ExchangeTheorems.NoPairTradesTwice | Backend/services/trading-service/matchingEngine.service.js:409-409 | over the whole history no taker trades twice with one maker, and every trade row fits its two orders |
| ExchangeTheorems.OneOutboxRowPerTrade | Backend/services/trading-service/matchingEngine.service.js:500-539 | one trade.executed row for each trade, with its content, and no others |
| ExchangeTheorems.RecreditingChangesNothing | Backend/services/wallet-ledger-service/deposit.service.js:176-246 | crediting a credited deposit again changes no row, no balance and no history |
| ExchangeRequests.RepeatedPlaceChangesNothing | Backend/services/trading-service/tradingOrder.service.js:230-247 | a well-formed request whose key an order carries changes nothing and is answered with that order, whatever else it asks for |
| ExchangeRequests.RequestsArePlacedOnce | Backend/services/trading-service/tradingOrder.service.js:230-247 | over every run no two orders carry one request key |
| ExchangeRequests.PlacedIff | Backend/services/trading-service/tradingOrder.service.js:206-340 | a request is placed exactly when it is a limit order, not negative, under a new key, on an active pair, not below its minimums, with a positive lock that AVAILABLE covers |
| ExchangeRequests.PlaceEffect | Backend/services/trading-service/tradingOrder.service.js:277-340 | a placed order is one new unfilled row with the terms of its request, and its lock has moved from AVAILABLE to LOCKED; a request that is not placed changes no row and no balance |
| ExchangeRequests.PlaceRefusalsAreTrue | Backend/services/trading-service/tradingOrder.service.js:206-275 | a refused request is told what is really wrong with it |
| ExchangeRequests.StrangersCannotCancel | Backend/services/trading-service/tradingOrder.service.js:361-376 | to anybody but its owner an order does not exist, and nothing changes |
| ExchangeRequests.DeadOrdersStayDead | Backend/services/trading-service/tradingOrder.service.js:378-384 | an order that is no longer live is not cancelled again |
| ExchangeRequests.CancelledIff | Backend/services/trading-service/tradingOrder.service.js:352-437 | for any user and any id, a cancel is accepted exactly when it comes from the owner of a live order and LOCKED covers what is still locked for it |
| ExchangeRequests.CancelEffect | Backend/services/trading-service/tradingOrder.service.js:386-437 | an accepted cancel marks that order alone and moves what was still locked for it from LOCKED to AVAILABLE; a refused one changes no row and no balance |
| ExchangeWealth.WealthIsExact | Backend/services/trading-service/matchingEngine.service.js:321-371 | over every run AVAILABLE and LOCKED of a user together are the deposits credited to the user, plus base bought and quote received, less base sold and quote paid |
| ExchangeWealth.AvailableIsExact | Backend/services/trading-service/tradingOrder.service.js:133-180 | so AVAILABLE is that less what live orders, price improvements and withdrawals hold |
| ExchangeWealth.RefusedMatchChangesNothing | Backend/services/trading-service/matchingEngine.service.js:468-540 | a match that is refused, for whatever reason, changes no row, no posting and no balance |
| ExchangeRuns.EverySettlementPosts | Backend/services/trading-service/matchingEngine.service.js:321-371 | after any run that unlocks only locked withdrawals, on pairs with positive minimums, any eligible match executes |
| ExchangeRuns.EveryCancelReleases | Backend/services/trading-service/tradingOrder.service.js:374-416 | after any such run any live order can be cancelled for exactly what it needs |
| ExchangeRuns.ZeroSellBlocksBids | Backend/services/trading-service/matchingEngine.service.js:546-566 | while a SELL at price zero is live, every live bid of another user on its pair fails without a trade and the book stays crossed |
| ExchangeRuns.PriceZeroStalls | Backend/services/trading-service/tradingOrder.service.js:267-275 | a run on a pair without a minimum that places such a SELL and a bid that fails |
| ExchangeRuns.UnlockBreaksCancel | Backend/services/wallet-ledger-service/withdrawal.service.js:459-506 | a run in which an unlock without a lock makes the cancel of a live order fail |
| ExchangeService.ExchangeTables.PlaceTradeOrder | Backend/services/trading-service/tradingOrder.service.js:206-340 | does what the machine's place step does, roll-back included |
| ExchangeService.ExchangeTables.GetSettlementWalletAccounts | Backend/services/trading-service/matchingEngine.service.js:272-319 | opens the four settlement accounts' pairs |
| ExchangeService.ExchangeTables.UpdateMatchedOrders | Backend/services/trading-service/matchingEngine.service.js:416-466 | both order rows get their fill, no other row changes |
| ExchangeService.ExchangeTables.ExecuteSingleMatch | Backend/services/trading-service/matchingEngine.service.js:468-540 | on the rows the loop holds in memory, does what the machine's match does |
| ExchangeService.ExchangeTables.ProcessOrderMatches | Backend/services/trading-service/matchingEngine.service.js:542-572 | the loop terminates and leaves tables, trades and error of the recursive specification |
| ExchangeService.ExchangeTables.CreateTradeOrder | Backend/services/trading-service/tradingOrder.service.js:206-350 | place, then match; a known key answers without effect |
| ExchangeService.ExchangeTables.CancelTradeOrder | Backend/services/trading-service/tradingOrder.service.js:352-437 | does what the machine's cancel step does |
| ExchangeService.ExchangeTables.CreditDepositRow | Backend/services/payment-service/paymentDeposit.service.js:155-202 | posts the keyed credit, then marks the row; a refused posting marks nothing |
| Matching.MatchShrinksQuery | Backend/services/trading-service/matchingEngine.service.js:546-566 | a match that does not fill the taker removes the first maker from the query and nothing else, so the loop ends |
| Matching.MatchAllIsSweep | Backend/services/trading-service/matchingEngine.service.js:542-572 | the loop records exactly the trades of one greedy sweep over the book as it stood, in that order, and does not fail |
| Matching.StallFails | Backend/services/trading-service/matchingEngine.service.js:542-572 | a loop whose first maker has price zero fails at once and trades nothing, whatever the locks are |
| Matching.LoopFailsIffItStalls | Backend/services/trading-service/matchingEngine.service.js:542-572 | while withdrawals are backed, the loop fails exactly when the first maker's price is zero, and then trades nothing |
| Matching.PositiveMinimumsNeverStall | Backend/services/trading-service/tradingOrder.service.js:271-275 | on pairs with a positive minimum order value no loop stalls |
| MatchingTheorems.LoopFillsTheMinimum | Backend/services/trading-service/matchingEngine.service.js:93-125 | the taker keeps open its quantity minus the smaller of that and all that others offer at acceptable prices |
| MatchingTheorems.LoopIsBestExecution | Backend/services/trading-service/matchingEngine.service.js:127-153 | the total of a create request's trades is no worse for the taker than any allocation of that quantity |
| MatchingTheorems.LoopExhaustsItsMakers | Backend/services/trading-service/matchingEngine.service.js:93-137 | makers trade in order at their own prices, all but possibly the last completely |
| MatchingTheorems.LoopKeepsPriority | Backend/services/trading-service/matchingEngine.service.js:542-572 | of two eligible orders at one price the later gets a trade only after the earlier one was filled completely |
| MatchingTheorems.RepeatedCreateChangesNothing | Backend/services/trading-service/tradingOrder.service.js:230-247 | a create request under a known key changes nothing and trades nothing |
| MatchingTheorems.MatchAllKeepsInv | Backend/services/trading-service/matchingEngine.service.js:542-572 | the loop keeps the invariant, also when it is cut short |
| MatchingTheorems.CreateUncrossesIff | Backend/services/trading-service/tradingOrder.service.js:290-349 | a placed order leaves the book uncrossed exactly when its loop did not stall |
| MatchingTheorems.LoopIsMatchSteps | Backend/services/trading-service/matchingEngine.service.js:542-572 | the loop's result is that of the machine's match step, taken once for each turn |
| MatchingTheorems.CreateIsARun | Backend/services/trading-service/tradingOrder.service.js:206-346 | a create request, loop included, is a run of the machine from where it stands |
| MatchingTheorems.RequestsAreRuns | Backend/services/trading-service/tradingOrder.service.js:206-437 | so every state after completed requests is one that the machine reaches, and what holds over its runs holds there |
| MatchingTheorems.EveryRequestLeavesUncrossed | Backend/services/trading-service/matchingEngine.service.js:28-87 | after every completed request no live BUY and SELL of different users on one pair cross |
| OrderBook.GroupByPrice | Backend/services/trading-service/orderBook.service.js:15-38 | the accumulation loop: one entry for each price, with everything at that price |
| OrderBook.BuildOrderBookLevels | Backend/services/trading-service/orderBook.service.js:15-60 | strictly sorted levels, one for each price, whatever order the map gives them in |
| OrderBook.LevelsPartitionOrders | Backend/services/trading-service/orderBook.service.js:78-123 | level quantities and counts are those of the live orders, all together and price by price |
| OrderBook.HeadLevelIsFirstMaker | Backend/services/trading-service/orderBook.service.js:115-129 | a crossing taker without own orders there trades first at the head level's price, and matches exactly when that is acceptable |
| OrderBook.NonPositiveSpreadIsOneUser | Backend/services/trading-service/orderBook.service.js:125-129 | best bid reaches best ask only between orders of one single user |
| Deposits.FindEvent | Backend/services/wallet-ledger-service/deposit.service.js:97-109 | the stored row of the same network, transaction hash and event index |
| Deposits.UninterruptedIsProcess | Backend/services/wallet-ledger-service/deposit.service.js:248-261 | a task that nobody disturbs does call by call what the whole operation says |
| DepositTheorems.EveryRunKeepsInv | Backend/services/wallet-ledger-service/deposit.service.js:97-261 | rows, tasks and credit postings stay consistent under every interleaving, stale write and crash |
| DepositTheorems.CreditedAtMostOnce | Backend/services/wallet-ledger-service/deposit.service.js:217-235 | one credit posting at most for a deposit, for its amount and user, and only after enough confirmations were reported |
| DepositTheorems.OneCreditPerEvent | Backend/services/wallet-ledger-service/deposit.service.js:97-109 | credit postings belong to different events: one for each network, hash and index |
| DepositTheorems.RecordsAreFixed | Backend/services/wallet-ledger-service/deposit.service.js:107-125 | user, asset network and amount of a row stay as first recorded, and history only grows |
| DepositTheorems.CreditedIsLostIff | Backend/services/wallet-ledger-service/deposit.service.js:145-173 | one step overwrites CREDITED exactly when a task that had read the row before writes what it decided then |
| DepositTheorems.CreditedIsFinalIff | Backend/services/wallet-ledger-service/deposit.service.js:145-173 | a credited row stays CREDITED over every continuation exactly when no task stands at such a write |
| DepositTheorems.CreditedCanBeLost | Backend/services/wallet-ledger-service/deposit.service.js:127-174 | a run of two deliveries in which the second overwrites the mark of the first; the credit posting stays |
| DepositTheorems.LostMarkIsRestored | Backend/services/wallet-ledger-service/deposit.service.js:176-246 | crediting such a row again restores the mark, posts nothing and moves no balance |
| DepositTheorems.CreditPostsIff | Backend/services/wallet-ledger-service/deposit.service.js:217-235 | the credit is refused exactly for amount zero, also when it is a replay |
| DepositTheorems.ProcessEndsCreditedIff | Backend/services/wallet-ledger-service/deposit.service.js:248-261 | processing to the end leaves CREDITED exactly when the amount is not zero and it was credited or the larger count is enough |
| DepositTheorems.EnoughConfirmationsCredit | Backend/services/wallet-ledger-service/deposit.service.js:15-28 | after any run, an undisturbed delivery with enough confirmations ends CREDITED |
| DepositOutcomes.StatusesFit | Backend/services/wallet-ledger-service/deposit.service.js:15-28 | in every reachable state a row that is not credited is DETECTED, CONFIRMING or CONFIRMED exactly as its count stands to what its network wants |
| DepositOutcomes.RecordEffect | Backend/services/wallet-ledger-service/deposit.service.js:30-125 | a payload is recorded exactly when it is complete and its address takes deposits; a known event changes nothing, a new one adds one row with the payload's terms |
| DepositOutcomes.RecordRefusalsAreTrue | Backend/services/wallet-ledger-service/deposit.service.js:39-90 | a payload that is not recorded is told what is really wrong with it |
| DepositOutcomes.UpdateEffect | Backend/services/wallet-ledger-service/deposit.service.js:127-174 | a count is taken over, with its status, unless it is lower than the stored one or the row is final; nothing else changes |
| DepositOutcomes.CreditEffect | Backend/services/wallet-ledger-service/deposit.service.js:198-245 | a first credit of a confirmed deposit moves its amount from custody to its user's AVAILABLE, and nothing else |
| DepositOutcomes.OnlyConfirmedIsCredited | Backend/services/wallet-ledger-service/deposit.service.js:190-196 | a row that is not confirmed is refused, and a credited one is left alone |
| DepositService.DepositTables.RecordDetectedDeposit | Backend/services/wallet-ledger-service/deposit.service.js:30-125 | checks in order, then the stored row or a new one |
| DepositService.DepositTables.UpdateDepositConfirmations | Backend/services/wallet-ledger-service/deposit.service.js:127-174 | count and status move together, final rows and lower counts are left alone |
| DepositService.DepositTables.CreditConfirmedDeposit | Backend/services/wallet-ledger-service/deposit.service.js:176-246 | only confirmed rows, posting before mark, no mark on refusal |
| DepositService.DepositTables.ProcessDetectedDeposit | Backend/services/wallet-ledger-service/deposit.service.js:248-261 | record, update, credit, equal to the specification |
| Outbox.NextBatch | Backend/workers/domainEventOutbox.worker.js:43-54 | due PENDING events, at most fifty, and every due event left out is younger than all of them |
| Outbox.BatchIsTheOldestDue | Backend/workers/domainEventOutbox.worker.js:43-54 | at most fifty PENDING events whose time has come, by creation; an event that is left out is no older than any of a full batch |
| Outbox.EnqueueAddsOnce | Backend/services/event-service/domainEventOutbox.service.js:25-42 | a new key adds one PENDING untried event; a known or empty one adds nothing |
| Outbox.RequeuedEventWaits | Backend/workers/domainEventOutbox.worker.js:88-103 | a requeued event is PENDING again and in nobody's batch for thirty seconds |
| Outbox.ContinueKeepsInv | Backend/workers/domainEventOutbox.worker.js:56-104 | ownership and counters stay consistent over any steps of any number of workers |
| Outbox.EveryRunIsSafe | Backend/workers/domainEventOutbox.worker.js:56-104 | one owner at most, sends within attempts, PUBLISHED implies a delivery, no other status appears |
| Outbox.NoEventIsLost | Backend/services/event-service/domainEventOutbox.service.js:29-42 | rows stay under their keys and their counters only grow |
| Outbox.PublishedIsLeftIff | Backend/workers/domainEventOutbox.worker.js:76-103 | PUBLISHED is left exactly by the requeue of an owner that was not told its mark took effect |
| Outbox.PublishedIsFinal | Backend/workers/domainEventOutbox.worker.js:79-88 | with marks answered truthfully PUBLISHED is final, in any continuation |
| Outbox.PublishedCanBeLeft | Backend/workers/domainEventOutbox.worker.js:76-103 | a run in which an unanswered mark takes effect and the event goes back to PENDING |
| Outbox.OrphanedIff | Backend/workers/domainEventOutbox.worker.js:57-103 | an event is orphaned exactly by a crash of its owner, an unanswered claim or a failed requeue |
| Outbox.OrphansStay | Backend/workers/domainEventOutbox.worker.js:43-54 | an orphaned event is never sent or changed again |
| Outbox.EventCanBeOrphaned | Backend/workers/domainEventOutbox.worker.js:57-77 | a run in which a worker stops after its claim, and the event is PUBLISHING in every continuation |
| OutboxWorker.Table.CreateDomainEventOutboxEntry | Backend/services/event-service/domainEventOutbox.service.js:25-42 | the keyed upsert: a known key changes nothing |
| OutboxWorker.Table.TryClaim | Backend/workers/domainEventOutbox.worker.js:57-74 | compare-and-set on PENDING, counting the attempt |
| OutboxWorker.Table.PublishAndMark | Backend/workers/domainEventOutbox.worker.js:76-103 | publish and mark, and requeue what fails in either; a requeue that throws ends the pass |
| OutboxWorker.Table.AttemptEvent | Backend/workers/domainEventOutbox.worker.js:56-103 | the loop body for any answers of its calls: the event afterwards, and whether the pass goes on |
| OutboxWorker.Table.ProcessOutboxBatch | Backend/workers/domainEventOutbox.worker.js:35-108 | attempts at the events of the batch in turn, however their calls are answered and with a clock reading for each requeue; a second pass is turned away while one goes on, and the flag is always taken back |
| OutboxWorker.AnsweredPass | Backend/workers/domainEventOutbox.worker.js:56-104 | with all table calls answered, exactly the acknowledged events of the batch end PUBLISHED, the others wait thirty seconds from their own requeue, no other event changes |
| OutboxWorker.PassRefinesLoop | Backend/workers/domainEventOutbox.worker.js:56-104 | the loop's result is that of the machine's steps when nobody interferes, however the calls are answered |
| Withdrawals.CreateInSteps | Backend/services/wallet-ledger-service/withdrawal.service.js:125-381 | call by call, a create request does what the operation says |
| Withdrawals.FailInSteps | Backend/services/wallet-ledger-service/withdrawal.service.js:459-506 | call by call, failing marks FAILED and then tries the unlock |
| Withdrawals.ProcessInSteps | Backend/services/wallet-ledger-service/withdrawalProcessor.service.js:65-188 | call by call, a job with any answers does what the operation says, its failing included |
| WithdrawalTheorems.EveryRunKeepsInv | Backend/services/wallet-ledger-service/withdrawalProcessor.service.js:80-187 | rows, operations and unlock postings stay consistent over any mix of operations, crashes and lost answers |
| WithdrawalTheorems.SentAtMostOnce | Backend/services/wallet-ledger-service/withdrawalProcessor.service.js:80-110 | the provider is made to start at most one transfer for a withdrawal |
| WithdrawalTheorems.UnlockExcludesTransfer | Backend/services/wallet-ledger-service/withdrawal.service.js:398-411 | an unlock posting and a stored transfer id or hash exclude each other, and the row is FAILED |
| WithdrawalTheorems.AcceptedIsLocked | Backend/services/wallet-ledger-service/withdrawal.service.js:298-350 | in every reachable state a withdrawal beyond REQUESTED that has not failed has its lock posting, for its total |
| WithdrawalOutcomes.CreateEffect | Backend/services/wallet-ledger-service/withdrawal.service.js:237-350 | a new request becomes one row with its terms; when AVAILABLE covers a positive amount it is locked, and the row is PENDING_REVIEW exactly if it needs a review and APPROVED otherwise; if not it stays REQUESTED |
| WithdrawalOutcomes.OnlyNewRequestsCount | Backend/services/wallet-ledger-service/withdrawal.service.js:146-215 | every other request changes nothing, and exactly the repeated ones are not refused |
| WithdrawalOutcomes.RequestsAreCreatedOnce | Backend/services/wallet-ledger-service/withdrawal.service.js:180-193 | over every run no two withdrawals carry one request key, however often a request is sent |
| WithdrawalOutcomes.CreateRefusalsAreTrue | Backend/services/wallet-ledger-service/withdrawal.service.js:146-215 | a refused request is told what is really wrong with it |
| WithdrawalOutcomes.ReviewIsWaitedFor | Backend/services/wallet-ledger-service/withdrawalProcessor.service.js:80-96 | over every run a withdrawal marked for review is never approved, processed or submitted, and nothing was sent for it |
| WithdrawalOutcomes.ProcessEffect | Backend/services/wallet-ledger-service/withdrawalProcessor.service.js:65-188 | a job acts on an APPROVED withdrawal alone, leaves it SUBMITTED when all of its calls succeed and FAILED otherwise, and counts each transfer the provider was made to start |
| WithdrawalOutcomes.UnlockRefuses | Backend/services/wallet-ledger-service/withdrawal.service.js:398-411 | a submitted withdrawal, and one with a stored transfer id or hash, is not unlocked |
| WithdrawalOutcomes.FailEffect | Backend/services/wallet-ledger-service/withdrawal.service.js:459-506 | failing marks the row FAILED unless it is COMPLETED, and moves its total back to AVAILABLE exactly when no transfer is stored and LOCKED covers a positive total |
| WithdrawalOutcomes.FollowEffect | Backend/services/wallet-ledger-service/withdrawalProcessor.service.js:190-216 | FAILED exactly for a failed, rejected or canceled transfer, COMPLETED exactly for a confirmed one with enough confirmations or none wanted, CONFIRMED for one without enough, BROADCASTED for any other with a known hash |
| WithdrawalOutcomes.FinalizeEffect | Backend/services/wallet-ledger-service/withdrawalProcessor.service.js:257-365 | only SUBMITTED, BROADCASTED and CONFIRMED withdrawals with a transfer id are followed, and what is answered for the others |
| WithdrawalOutcomes.EndsAreFinal | Backend/services/wallet-ledger-service/withdrawalProcessor.service.js:271-300 | over every run and continuation a COMPLETED or FAILED withdrawal never changes again |
| WithdrawalOutcomes.CompletedIsEarned | Backend/services/wallet-ledger-service/withdrawalProcessor.service.js:200-206 | in every reachable state a COMPLETED withdrawal was sent once, has the confirmations its network wants, and was not unlocked |
| WithdrawalTheorems.FailUnlocksIff | Backend/services/wallet-ledger-service/withdrawal.service.js:459-506 | failing posts the unlock exactly when the row is not completed, holds no transfer and LOCKED covers it |
| WithdrawalTheorems.SentYetUnlockedIff | Backend/services/wallet-ledger-service/withdrawalProcessor.service.js:98-187 | when exactly a job gives the funds back, and when a transfer had been started by then |
| WithdrawalRuns.SentAndUnlocked | Backend/services/wallet-ledger-service/withdrawalProcessor.service.js:104-171 | a run in which the answer to a send is lost: one transfer was started and the unlock is posted |
| WithdrawalTheorems.FollowLowersIff | Backend/services/wallet-ledger-service/withdrawalProcessor.service.js:190-216 | a look-up lowers the rank exactly when a CONFIRMED withdrawal's transfer is reported unconfirmed and a hash is known |
| WithdrawalTheorems.RankOnlyRises | Backend/services/wallet-ledger-service/withdrawalProcessor.service.js:257-365 | if the provider never answers unconfirmed after it answered confirmed, over any run a withdrawal only climbs or fails for good |
| WithdrawalRuns.RankCanDrop | Backend/services/wallet-ledger-service/withdrawalProcessor.service.js:190-216 | a run in which the provider un-confirms and a CONFIRMED withdrawal becomes BROADCASTED |
| WithdrawalService.WithdrawalTables.CreateWithdrawalRequest | Backend/services/wallet-ledger-service/withdrawal.service.js:125-381 | row, lock, then the status a job looks for; a refused lock leaves the row REQUESTED |
| WithdrawalService.WithdrawalTables.UnlockWithdrawalFunds | Backend/services/wallet-ledger-service/withdrawal.service.js:383-457 | refusals in order, then the keyed unlock |
| WithdrawalService.WithdrawalTables.FailWithdrawalAndUnlockFunds | Backend/services/wallet-ledger-service/withdrawal.service.js:459-506 | FAILED first, then the unlock; COMPLETED is refused |
| WithdrawalService.WithdrawalTables.TrySubmit | Backend/services/wallet-ledger-service/withdrawalProcessor.service.js:98-152 | the try block: the row after the calls that took effect, and whether it was left by an exception |
| WithdrawalService.WithdrawalTables.ProcessApprovedWithdrawal | Backend/services/wallet-ledger-service/withdrawalProcessor.service.js:65-188 | PROCESSING, send, SUBMITTED with ids; any failure in between fails the withdrawal |
| WithdrawalService.WithdrawalTables.FinalizeSubmittedWithdrawal | Backend/services/wallet-ledger-service/withdrawalProcessor.service.js:257-415 | follows the transfer of a submitted withdrawal and leaves all others alone |
| Correspondence.CreateIsTheSteps | Backend/services/wallet-ledger-service/withdrawal.service.js:245-317 | a create request is the exchange's withdraw and lock steps, a refused lock included |
| Correspondence.FailIsTheStep | Backend/services/wallet-ledger-service/withdrawal.service.js:459-506 | failing a withdrawal is the exchange's unlock step when the unlock is tried, and no step otherwise |
| Correspondence.FailKeepsCoverIff | Backend/services/wallet-ledger-service/withdrawal.service.js:398-448 | after an unlock that posts, everybody's locks stay covered exactly when the withdrawal had been locked, and so always beyond REQUESTED |
| Correspondence.CreditIsTheStep | Backend/services/wallet-ledger-service/deposit.service.js:176-246 | crediting a confirmed deposit is the exchange's credit step, refused, posted or replayed |
| Correspondence.ProcessIsTheSteps | Backend/services/wallet-ledger-service/deposit.service.js:248-261 | processing a payload is a deposit step for a new row and a credit step for a confirmed one, so it keeps the exchange's invariant |
| TokenBucket.BucketKey.Eval | Backend/middleware/tokenBucket.js:17-54 | the script decides and stores as the specification of one request |
| TokenBucket.TokensStayInRange | Backend/middleware/tokenBucket.js:27-47 | tokens stay between zero and the capacity |
| TokenBucket.FullAfterTtl | Backend/middleware/tokenBucket.js:99-103 | twice the refill time covers the loss from rounding the rate down: the bucket is full when the key may go |
| TokenBucket.SameDecisions | Backend/middleware/tokenBucket.js:22-36 | with the rate at least one, dropping keys at their expiry changes no decision over any requests |
| TokenBucket.ExpiryIsUnobservableIff | Backend/middleware/tokenBucket.js:99-103 | over all requests expiry is unobservable exactly when the scaled refill is at least one a millisecond or the cost exceeds the capacity |
| TokenBucket.ThroughputIsBounded | Backend/middleware/tokenBucket.js:27-54 | cost admitted between any two moments is at most the capacity plus rate times time |
| TokenBucket.RateIsTheFloor | Backend/middleware/tokenBucket.js:99-101 | the rate is the configured refill rounded down to a thousandth of a token a millisecond |
| TokenBucket.TtlFillsTwice | Backend/middleware/tokenBucket.js:103-103 | the time to live is the least number of milliseconds in which the configured refill fills the bucket twice |
| TokenBucket.BurstAdmits | Backend/middleware/tokenBucket.js:22-54 | of any number of requests at once a full bucket admits as many as its capacity pays for |
| TokenBucket.RefusalsAreFree | Backend/middleware/tokenBucket.js:36-45 | a refused request takes nothing: at every later moment the bucket holds what it would hold without it |
| TokenBucket.ConfiguredThroughput | Backend/middleware/tokenBucket.js:99-103 | for every configuration, also where the rate rounds down to zero, the cost admitted between two moments is at most the capacity plus what the configured refill brings |
| TokenBucket.RetryAfterIsExact | Backend/middleware/tokenBucket.js:135-141 | waiting the header's seconds guarantees admission, and a second less is refused |
| SlidingWindow.WindowCounters.Eval | Backend/middleware/slidingWindowCounter.js:15-49 | the script decides and counts as the specification; only the first hit of a window sets the expiry |
| SlidingWindow.DecisionRule | Backend/middleware/slidingWindowCounter.js:18-37 | a request is let through exactly when the admissions of its window and those of the window before, weighted by what is left, are fewer than allowed; neither scale nor rounding shows |
| SlidingWindow.BurstAdmits | Backend/middleware/slidingWindowCounter.js:18-37 | of any number of requests at one moment as many are let through as are left after both windows' admissions |
| SlidingWindow.OneAfterAFullWindow | Backend/middleware/slidingWindowCounter.js:18-37 | a millisecond after a full window one request is let through, however many come |
| SlidingWindow.CountersAgreeWithLog | Backend/middleware/slidingWindowCounter.js:39-43 | every counter that can still be read equals the count of an unbounded log of admissions |
| SlidingWindow.ExpiryIsUnobservable | Backend/middleware/slidingWindowCounter.js:39-43 | decisions with expiring counters are those of the unbounded log |
| SlidingWindow.WindowIsBounded | Backend/middleware/slidingWindowCounter.js:28-37 | each fixed window admits at most the maximum |
| SlidingWindow.AnySpanIsBounded | Backend/middleware/slidingWindowCounter.js:77-91 | any span as long as a window admits at most twice the maximum |
| SlidingWindow.EstimateIsBounded | Backend/middleware/slidingWindowCounter.js:20-28 | the weighted estimate stays below the maximum plus one, after admissions too |
| Candles.CandleTable.UpdateSingleCandleFromTrade | Backend/services/trading-service/candle.service.js:151-228 | the candle of the trade's slot is created or extended, no other row changes |
| Candles.CandleTable.UpdateCandlesFromTradeEvent | Backend/services/trading-service/candle.service.js:230-249 | the loop updates the slot of every interval in turn |
| Candles.EventReachesSlot | Backend/services/trading-service/candle.service.js:230-249 | an event extends each of its slots once and no other |
| Candles.CandlesSummariseTrades | Backend/services/trading-service/candle.service.js:151-228 | for every sequence of trades a candle is there when its slot has trades, with their first, last, highest, lowest, sums and count |
| Candles.CandlesAreSpans | Backend/services/trading-service/candle.service.js:15-79 | a candle is there exactly for whole multiples of 1, 5, 15, 60 or 1440 minutes in which its pair traded, closes a millisecond before the next one, and has the figures of exactly those trades |
| Candles.IntervalsNest | Backend/services/trading-service/candle.service.js:58-79 | rounding to a finer interval first does not change the coarser slot |
| Candles.VolumesRollUp | Backend/services/trading-service/candle.service.js:210-227 | volume, quote volume and count are the sums over the finer candles inside, whatever the processing order |
| Candles.ExtremesRollUp | Backend/services/trading-service/candle.service.js:210-219 | high and low are the extremes of the finer candles inside |
| Candles.OpensAgreeIff | Backend/services/trading-service/candle.service.js:183-200 | a candle opens as a part of it does exactly when its first processed trade falls into that part or has the price of the part's first |
| Candles.ClosesAgreeIff | Backend/services/trading-service/candle.service.js:213-221 | the same for the close and the last processed trades |
| Candles.NextTradeKeepsOpensIff | Backend/services/trading-service/candle.service.js:172-227 | a trade that opens a new earliest part makes the opens agree exactly when it has the candle's open price; any other leaves their agreement alone |
| Candles.NextTradeKeepsClosesIff | Backend/services/trading-service/candle.service.js:172-227 | a trade in the last part makes the closes agree; a late one exactly when it has the last part's close price |
| Candles.OpensAlwaysAgreeIff | Backend/services/trading-service/candle.service.js:183-200 | whatever the prices, the opens agree exactly when the first processed trade falls into the earliest part |
| Candles.ClosesAlwaysAgreeIff | Backend/services/trading-service/candle.service.js:213-221 | whatever the prices, the closes agree exactly when the last processed trade falls into the latest part |
| Candles.EndsRollUp | Backend/services/trading-service/candle.service.js:183-221 | so in time order a candle opens as its first part and closes as its last part |
| Candles.LateTradeSplitsTheOpen | Backend/services/trading-service/candle.service.js:183-221 | two trades out of time order after which the open of a candle and of its first part differ |
| Candles.EveryCandleIsAPart | Backend/services/trading-service/candle.service.js:58-79 | a finer candle lies inside a coarser one that exists |
| Candles.OrderDoesNotMatter | Backend/services/trading-service/candle.service.js:210-227 | two processing orders of the same trades give the same candles up to open and close |
| Candles.CalculateMarketStats | Backend/services/trading-service/marketSummary.service.js:26-61 | attained bounds of the prices, sums, first price and count of the trades; nothing for none |
| Candles.StatsAgreeWithCandle | Backend/services/trading-service/marketSummary.service.js:26-61 | statistics of a slot's trades are the figures of its candle, and no others |

## Left out

- Decimal rounding, JavaScript floating point and BigInt conversion: amounts are exact integers; the limiter's rounding is integer rounding, and the one float expression of the time to live is its exact ceiling.
- Input parsing: trimming, case, decimal syntax, missing ids inside ledger entries and the type tests of request fields, except where an empty value is modelled.
- HTTP, authentication, e-mail, KYC, trusted devices, sessions, reporting and list queries.
- BitGo, Razorpay, Kafka, Redis, BullMQ and the clock: they are parameters, and answer whatever the steps say.
- Concurrent ledger postings and concurrent matching: one posting, one match and one cancel are each one step; README.md:621 of the repository lists row locks as planned work.
- IOC, FOK, market orders and fees: they have no effect or are refused in the code.
- Whether a trading pair and its assets are active: part of each place request, as looked up at that moment.
- Timestamps other than creation times, candle times and limiter clocks; equal creation times are ordered by row.
- Redis dropping a key: allowed from the key's expiry on, at any later moment or never.
- Fiat deposits on their own: their credit is a step of the exchange; the order's status changes, the payment signature, the amount in minor units and the exchange rate are not part of this model, and their stale-row behaviour is that of crypto deposits.
- Admin test credits, which use another system account, and the withdrawal review threshold: whether a request needs a review is a field of it.
- A debit of LOCKED when a withdrawal completes: the finalizer posts nothing, so nothing is stated about it.
- Redelivery of one trade event to the candle builder: the code does not deduplicate, and each event is taken once.
- Reference-market summaries, price change percentages, candle range queries, level totals and the response formats.
- JavaScript's `Array.sort` and `Map` order: levels are taken from the map in any order and inserted in place by price.
- The pairwise use of one withdrawal by two operations at once: operations on one withdrawal do not overlap in this model.
- Audit logs and the outbox rows of withdrawals: only that writing them may fail, and what follows then.
- DepositService.DepositTables.ProcessDetectedDeposit: undisturbed; interleavings are the subject of DepositTheorems.
