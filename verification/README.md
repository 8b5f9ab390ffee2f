# The matcher's money-moving and trading logic

A Dafny model of the core of the matcher service and of the shared Merkle tree,
with proofs about every run of it.

- **Dark pool and swap protocol** (`Ledger`, `AppState`, `OrderBook`, `Reserves`,
  `SwapProtocol`, `SwapSafety`, `Router`, `DarkPool`, `DarkPoolRuns`,
  `OrderRequests`, `SwapRequests`, `AwaitedFills`, `UserFunds`, `MatcherStore`).
  The service is one mutable store changed by uninterrupted stretches of code: placing
  and cancelling orders, the match loop, router requests, the second half of an
  instant fill, and the three stretches of a worker tick between its awaits. `DarkPool.Step` gives each of them a meaning, a run is
  any interleaving, and the main results hold after every run. `MatcherStore.Store`
  has the methods that update the store in place, each proved to take the store's
  value through the matching step. The lists of fills and events, and the awaited
  instant fills, are ghost.
- **Merkle tree** (`Merkle`, `MerkleHalves`). The tree and proof loops against a
  recursive tree in which an absent node is the literal 0 at every level. Poseidon is an
  arbitrary two-input function. That a root or a path stands for its leaves is
  proved as a reduction, for any hash: what contradicts it shows a collision or a
  pair hashed to 0. Two lemmas restate it for an injective hash that is never 0,
  and `HashExists` shows that there is one.
- **Strategies** (`Indicators`, `Averages`, `WilderRsi`, `IndicatorCatalog`,
  `IndicatorMeaning`, `IndicatorKeys`, `StrategyRuntime`, `RuleVerdicts`,
  `IndicatorCache`, `Backtest`, `BacktestResults`, `TradeReasons`, `TradeSizes`,
  `TradeOpenings`, `StrategyBacktest`). Rule groups are compiled, their indicators
  collected and cached by a text key, and evaluated bar by bar in a trading loop.
  Numbers are reals, `null` is an option, and the square root is an arbitrary
  function.
- **Candles** (`Candles`, `CandlePages`, `PageContents`). Aggregation, the rewriting of
  flat bars, trimming and paging over ascending rows.
- **Bridge claims** (`BridgeClaims`, `BridgeOverlaps`). Claims and redemptions as
  accounting steps: one at a time, and with any others between check, transaction
  and record.

`Sums` and `Outcome` hold what the others share.

## Where the code does not keep what one would expect

Each of these is kept as the code has it, with the exact condition proved.

- A cancelled buy order's refund is rounded with 18 decimals, whatever the market's
  base token has (matcher.ts:159). Below 18 decimals funds stay locked for good;
  above, more is unlocked than the order had locked.
- An instant fill is debited after an await without looking at the balance again
  (router.ts:149-159), so two of them can overdraw it. No run overdraws if requests
  are accepted only with what awaited fills will take set aside.
- Nothing refuses a swap of a negative amount (router.ts:134-139,
  inventory.ts:147-153): it locks a negative amount. Where none is requested and base
  tokens have at most 18 decimals, no locked amount is ever negative.
- Claims and redemptions await between reading the claimed amount and adding to it
  (bridgeClaims.ts:121-167, 195-251), so two that overlap count twice. The tokens stay
  backed by what is recorded, which may then be more than was ever observed.
- Settling a swap takes the input from the user's lock and again from the router's
  inventory, and adds the output to both (inventory.ts:222-259).
- `history_ref` takes a negative offset, and reads later bars when all offsets
  together are negative (strategyRuntime.ts:204-207).
- `trimToContiguousTail` returns more candles than asked for when the limit is
  below 1 (priceService.ts:133-151).
- After its first value the RSI goes on from the seed sums instead of the averages
  (indicatorEngine.ts:134-147). For a period above 1 it is Wilder's index only where
  the moves since the seed are in the seed's proportion of gains to losses; it
  always lies between 0 and 100.
- A short position can lose more than the equity (strategyBacktest.ts:98-106).
- With a reference price of 0 the match loop throws when the book is crossed
  (matcher.ts:208).

## Model

| member | source | states |
|---|---|---|
| DarkPoolRuns.LockedIsAccountedFor | services/matcher/src/services/matcher.ts:73-244 | After any interleaving of requests and worker stretches, whatever the decimals, each locked amount is what the live orders and unfinished swaps need, plus what cancellations have stranded, plus between nothing and one unit per fill the user bought with that token; what is stranded is not negative when base tokens have at most 18 decimals and not positive when they have at least 18 |
| DarkPoolRuns.RunMovesDust | services/matcher/src/services/matcher.ts:98-235 | Between any two points of a run the part of a locked amount that no order or swap needs grows by what cancellations strand, plus between nothing and one unit per fill the user bought with that token |
| DarkPool.StepMovesDust | services/matcher/src/services/matcher.ts:95-244 | The same for a single action of any kind |
| DarkPool.StrandedSign | services/matcher/src/services/matcher.ts:130-160 | What one cancellation strands is not negative with base tokens of at most 18 decimals, and not positive with at least 18 |
| DarkPoolRuns.LockedIsNonNegative | services/matcher/src/services/matcher.ts:73-244 | With base tokens of at most 18 decimals and no swap requested for a negative amount, no run makes a locked amount negative |
| DarkPoolRuns.RequestMovesLocked | services/matcher/src/services/inventory.ts:147-156 | A request that becomes a swap job keeps locked amounts non-negative if and only if its amount, which may be negative, does so on its own entry |
| DarkPoolRuns.NegativeRequestLocksNegative | services/matcher/src/services/router.ts:134-139 | From an empty store, a request to swap -5 units is accepted and leaves -5 locked |
| DarkPool.StepKeepsInv | services/matcher/src/services/matcher.ts:95-244 | Every action keeps the book's and the protocol's invariants, and moves jobs only along the allowed transitions |
| DarkPool.RunKeepsInv | services/matcher/src/services/matcher.ts:73-244 | Every reachable state satisfies them |
| DarkPoolRuns.BuyerPaysWithinLimit | services/matcher/src/services/matcher.ts:212-234 | Over all its fills a buy order pays at most the floor of bought quantity times its own limit, and what it bought is what its quantity lost |
| DarkPoolRuns.SellerReceivesLimit | services/matcher/src/services/matcher.ts:212-234 | A sell order with k fills receives at most the floor of sold quantity times its own limit, and no less than that minus k - 1 |
| OrderRequests.OrdersAreAsRequested | services/matcher/src/services/matcher.ts:103-122 | After any run the orders are, one for one and in order, those that accepted requests asked for: with their id, user, market, side, limit price, quantity and time |
| OrderRequests.FillsAreWithinRequests | services/matcher/src/services/matcher.ts:162-244 | After any run each fill is between a buy and a sell request of one market and their users, made while an order of that market was placed: at the limit the seller asked for, which is at most the buyer's and off the reference of that placement by less than the band plus one basis point, for the exact value rounded down |
| OrderRequests.BuyerPaysWithinRequest | services/matcher/src/services/matcher.ts:212-234 | A buy request never pays more than its own limit price for what it has bought, which is what its quantity lost |
| OrderRequests.SellerReceivesRequest | services/matcher/src/services/matcher.ts:212-234 | A sell request with k fills receives at most its own limit price for what it has sold, and less than k units short of it |
| OrderRequests.PlacedWhenCovered | services/matcher/src/services/matcher.ts:84-118 | An order is accepted if and only if its market is known, it is worth at least one unit of what it sets aside, and the user has that; a sell sets aside its quantity, a buy its exact value rounded down, and nothing else moves |
| OrderRequests.CancelledByItsUser | services/matcher/src/services/matcher.ts:130-150 | An order is cancelled if and only if it is live and its own user asks for it |
| OrderRequests.OrdersAreConsistent | services/matcher/src/services/matcher.ts:103-242 | In every reachable state an order's status says how much of it is left, and its recorded reserve is what was set aside, until it is filled |
| UserFunds.RunIsAccounted | services/matcher/src/services/matcher.ts:223-229 | Over any run one user's available plus locked amount of a token changes by exactly what that user's own fills, payouts and instant fills brought and took |
| UserFunds.StepIsAccounted | services/matcher/src/services/inventory.ts:147-241 | The same for a single action of any kind |
| UserFunds.TradeIsAccounted | services/matcher/src/services/matcher.ts:212-229 | A fill gives the buyer the base and the seller the cost, takes them from the other side, and gives back the buyer's unused reserve |
| DarkPoolRuns.RunConserves | services/matcher/src/services/matcher.ts:98-229 | Over any run the total of a token over all users, available plus locked, changes only by logged payouts and instant fills |
| DarkPool.TradeConserves | services/matcher/src/services/matcher.ts:212-229 | A fill keeps every token's total over all users |
| DarkPool.MatchAllConserves | services/matcher/src/services/matcher.ts:162-244 | So does the whole match loop, which logs no payout or refund |
| DarkPool.MatchAllKeepsBook | services/matcher/src/services/matcher.ts:162-244 | The match loop keeps the book's invariant, lowers no available amount, and adds at most one unit of dust per fill |
| DarkPoolRuns.InstantFillBalances | services/matcher/src/services/router.ts:156-166 | An instant fill keeps the users' total plus the router's inventory of every token |
| DarkPoolRuns.SettlementMovesBoth | services/matcher/src/services/inventory.ts:217-263 | Settling a swap moves the users' total and the router's inventory by the same amounts in the same direction, so their sum is kept if and only if those amounts cancel out for the token |
| DarkPoolRuns.StepKeepsAvailable | services/matcher/src/services/router.ts:134-159 | From a reachable state with no negative available amount, an action keeps it so if and only if it is neither an instant fill that the balance no longer covers when it is debited, nor the refund of a negative amount that it does not cover |
| DarkPoolRuns.RunKeepsAvailable | services/matcher/src/services/router.ts:134-159 | All along a run, after every number of its actions, available amounts are not negative if and only if each of its actions is covered when it comes |
| DarkPoolRuns.UninterruptedFillIsCovered | services/matcher/src/services/router.ts:134-159 | An instant fill that is finished before anything else happens is covered |
| DarkPoolRuns.InterleavedFillsOverdraw | services/matcher/src/services/router.ts:134-159 | Two instant fills checked before either is debited do make a balance negative |
| AwaitedFills.AcceptedRunsNeverOverdraw | services/matcher/src/services/router.ts:134-159 | When every swap's amount is not negative, and every order and swap is accepted only with its amount available beyond what awaited fills will take, no run makes a balance negative, however fills are interleaved, finished, or dropped because the vault failed |
| AwaitedFills.OnlyRequestsTake | services/matcher/src/services/matcher.ts:95-101 | Where no amount is negative, only placing and requesting lower what no awaited fill lays claim to, by no more than the request's amount; a dropped fill gives its claim up |
| DarkPoolRuns.SwapReleasedExactlyOnce | services/matcher/src/services/inventory.ts:217-241 | After any run a swap has been paid out once if it completed, refunded once if it failed, and neither before; it never bridges in |
| DarkPoolRuns.LinkedJobsAgree | services/matcher/src/services/rebalanceWorker.ts:39-169 | Between any two stretches a rebalance job and its swap job have the same state, symbols and amounts, and the same amount out once completed; no job leaves the queue before all earlier ones are finished |
| DarkPool.RunKeepsFinishedJobs | services/matcher/src/services/rebalanceWorker.ts:39-43 | However a run goes on, a completed or failed job is left exactly as it is, recorded amounts included |
| DarkPoolRuns.HealthLowersWork | services/matcher/src/services/rebalanceWorker.ts:45-122 | The stretch after the health check either hands over to the exchange with the summed rank unchanged or strictly lowers it |
| DarkPoolRuns.ExchangeLowersWork | services/matcher/src/services/rebalanceWorker.ts:89-121 | The stretch after the exchange's answer strictly lowers the summed rank, whatever the answer |
| DarkPoolRuns.TickLowersWork | services/matcher/src/services/rebalanceWorker.ts:39-144 | A whole tick strictly lowers the summed rank if some job is unfinished and changes nothing otherwise |
| DarkPoolRuns.AllJobsFinishWithinFourTicksEach | services/matcher/src/services/rebalanceWorker.ts:27-144 | With no arrivals, 4N ticks finish N jobs, whatever the bridge and the exchange answer |
| Reserves.CancelRefundExact | services/matcher/src/services/matcher.ts:152-160 | A cancellation refunds exactly what the order still reserves if and only if it is a sell, its base token has 18 decimals, or the remaining value is below one unit at both scales; otherwise too little below 18 decimals and too much above |
| Reserves.CancelCanStrandFunds | services/matcher/src/services/matcher.ts:152-160 | With 6 decimals, placing an order for one token and cancelling it leaves all of the 1,000,000 units it reserved locked |
| Reserves.CancelCanOverdrawLocked | services/matcher/src/services/matcher.ts:152-160 | With 19 decimals, placing an order that reserves one unit and cancelling it unlocks ten, which leaves -9 locked |
| Reserves.CancelUndoesPlace | services/matcher/src/services/matcher.ts:95-160 | Cancelling a new order restores the user's balance if and only if the refund is what the order reserved; otherwise exactly the difference stays locked |
| Reserves.CancelMovesDust | services/matcher/src/services/matcher.ts:130-150 | A cancellation leaves as dust exactly the difference between the reserve and the refund, and touches no other entry's dust |
| Reserves.CancelKeepsBook | services/matcher/src/services/matcher.ts:130-150 | A cancellation keeps ids distinct and every order's totals in line with the fills |
| Reserves.PlaceKeepsDust | services/matcher/src/services/matcher.ts:84-118 | Placing an order locks exactly what the order reserves |
| Reserves.PlaceKeepsBook | services/matcher/src/services/matcher.ts:84-118 | Placing an order under a new id keeps the book's invariant |
| Reserves.TradeAddsLittleDust | services/matcher/src/services/matcher.ts:212-234 | One fill strands at most one unit of the buyer's quote and nothing of anyone else's |
| Reserves.FillKeepsTotals | services/matcher/src/services/matcher.ts:212-234 | One more fill keeps an order's totals within its limit on either side |
| Reserves.NotionalSplit | services/matcher/src/services/matcher.ts:215-220 | Splitting an amount before rounding down loses at most one unit |
| OrderBook.First | services/matcher/src/services/matcher.ts:167-196 | The head of the filtered, sorted list: eligible, preceded by no eligible order, and the oldest entry among equals; absent exactly when nothing is eligible |
| OrderBook.FillPairsTheBestOrders | services/matcher/src/services/matcher.ts:194-234 | Each pass trades the best buy with the best sell in price-time order, at the seller's limit inside the band, until one of them is filled |
| OrderBook.MatchOnceRunsDown | services/matcher/src/services/matcher.ts:166-242 | Each pass lowers the number of live orders of the market, so the loop ends |
| OrderBook.MatchAllSettlesTheBook | services/matcher/src/services/matcher.ts:162-244 | When the loop returns, every live buy limit is below every live sell limit, or the cheapest live ask is outside the reference band; it throws, before any trade, if and only if the reference price is zero and the book it is given is crossed |
| OrderBook.QuantityPositive | services/matcher/src/services/matcher.ts:84-94 | An order whose reserve is positive has a positive quantity |
| Router.InstantOnlyWhenCovered | services/matcher/src/services/router.ts:72-148 | A request becomes an instant fill exactly when the route, the bridge, the size and the stock allow it, and then the balance, the wallet and the inventory that the quote read cover it, the present inventory too unless it has fallen since, and the output is at most the exchange's quote |
| SwapRequests.AcceptedWhenCovered | services/matcher/src/services/router.ts:49-190 | A request is refused if and only if the balance does not cover it, the market has no route, or it insists on local liquidity that is not there; an accepted one becomes an instant fill if and only if it does not ask for the exchange and the vault can pay the minimum at once, and a swap job otherwise |
| SwapRequests.SwapsAreAsRequested | services/matcher/src/services/inventory.ts:147-185 | After any run the swap jobs are, one for one and in order, those that accepted requests asked for: with their ids, user, tokens, symbols and amount, the simulated output as quote until they are paid, and that output less the spread, rounded down, as minimum; and every instant fill, awaited or finished, is one asked for, with that minimum as its output |
| SwapRequests.SwapPaysWhatTheExchangeGave | services/matcher/src/services/rebalanceWorker.ts:89-144 | However a run goes on after the exchange has answered for a linked job, the tick that settles it raises the user's balance of the output token and the router's stock of it by the worth of the returned amount between the two decimal counts, rounded down and exact where the token has at least as many, or by the minimum if the amount is missing or 0; it takes the input from the stock, and moves nothing else that is available or in stock |
| SwapRequests.DriftTakesWhatTheExchangeGave | services/matcher/src/services/rebalanceWorker.ts:89-144 | The same for a job without a swap: its settling tick takes what is due into stock for the input, and no user's balance moves |
| SwapRequests.NothingIsRecordedTooEarly | services/matcher/src/services/rebalanceWorker.ts:113-121 | In every reachable state a job that has not been to the exchange has no amount recorded |
| SwapRequests.CreatedWhenCovered | services/matcher/src/services/inventory.ts:147-156 | A swap job is created if and only if the balance covers its amount, which moves from the available to the locked one, and nothing else does |
| SwapRequests.ScalingKeepsWorth | services/matcher/src/services/routerUtils.ts:67-81 | Rescaling an amount between decimal counts keeps its worth, rounded down where decimals are lost |
| SwapProtocol.NextJob | services/matcher/src/services/rebalanceWorker.ts:40-44 | The worker's next job is the first unfinished one; there is none exactly when all are finished |
| SwapSafety.AfterHealthKeepsJobs | services/matcher/src/services/rebalanceWorker.ts:45-144 | The stretch after the health check keeps the two-job protocol's invariant and follows its transitions |
| SwapSafety.AfterSwapKeepsJobs | services/matcher/src/services/rebalanceWorker.ts:89-121 | So does the stretch after the exchange's answer |
| SwapSafety.CreateKeepsJobs | services/matcher/src/services/inventory.ts:147-185 | So does creating a swap job with its rebalance job under new ids |
| SwapSafety.DriftKeepsJobs | services/matcher/src/services/inventory.ts:127-144 | So does enqueueing an unlinked rebalance job |
| DarkPool.RefundKeepsDust | services/matcher/src/services/inventory.ts:230-241 | Failing a swap that still holds its lock unlocks exactly what it had locked and lowers no available amount |
| DarkPool.PayoutKeepsDust | services/matcher/src/services/inventory.ts:217-228 | Completing it unlocks exactly that too |
| Ledger.Add | services/matcher/src/services/routerUtils.ts:20-38 | Adding to one entry of a ledger changes that entry by the amount and no other |
| Ledger.TotalAfterAdd | services/matcher/src/services/routerUtils.ts:20-30 | It changes the all-users total of that token by the amount, and of no other token |
| MatcherStore.Store.PlaceOrder | services/matcher/src/services/matcher.ts:73-128 | The method, in place, does the state machine's placement and matching, with the same errors and the placed order returned |
| MatcherStore.Store.CancelOrder | services/matcher/src/services/matcher.ts:130-150 | The method does the state machine's cancellation, with the same errors |
| MatcherStore.Store.TryMatch | services/matcher/src/services/matcher.ts:162-244 | The in-place loop reaches the state and the halt reason of the recursive matching |
| MatcherStore.Store.ExecuteTrade | services/matcher/src/services/matcher.ts:212-242 | The in-place updates of one pass are one trade |
| MatcherStore.Store.CreateAsyncSwapJob | services/matcher/src/services/inventory.ts:147-185 | The method does the state machine's job creation, for amounts of either sign, or throws and changes nothing |
| MatcherStore.Store.SettleAsyncSwap | services/matcher/src/services/inventory.ts:217-228 | The method does the state machine's payout; an unknown id changes nothing |
| MatcherStore.Store.FailSwap | services/matcher/src/services/inventory.ts:230-241 | The method does the state machine's refund; an unknown id changes nothing |
| MatcherStore.Store.SettleRebalanceInventory | services/matcher/src/services/inventory.ts:249-263 | The method moves the inventory and completes the job |
| MatcherStore.Store.UpdateRebalanceJob | services/matcher/src/services/inventory.ts:199-206 | The method sets the first job with that id and leaves all others |
| MatcherStore.Store.MarkSwapState | services/matcher/src/services/inventory.ts:208-247 | The method sets the first swap with that id and leaves all others |
| MatcherStore.Store.FinishInstantFill | services/matcher/src/services/router.ts:156-174 | Debit, credit, inventory and the optional drift job make up the state machine's second half of an instant fill |
| MatcherStore.Store.Advance | services/matcher/src/services/rebalanceWorker.ts:146-158 | Both linked jobs move to the given state |
| MatcherStore.Store.Fail | services/matcher/src/services/rebalanceWorker.ts:160-169 | The job fails and its swap is refunded |
| MatcherStore.Store.BeginTick | services/matcher/src/services/rebalanceWorker.ts:39-45 | A tick up to its health request |
| MatcherStore.Store.AfterHealth | services/matcher/src/services/rebalanceWorker.ts:45-144 | A tick from the health answer to its end or to the exchange request |
| MatcherStore.Store.AfterSwap | services/matcher/src/services/rebalanceWorker.ts:89-121 | A tick from the exchange's answer to its end |
| Merkle.BuildMerkleTree | packages/shared/src/zk.ts:72-103 | The level loop's lists hold exactly the nodes of the recursively defined zero-padded tree, and its first top node is the root |
| Merkle.BuildMerkleProof | packages/shared/src/zk.ts:105-133 | The proof loop returns the root, the siblings met when climbing from the leaf and the directions, and errs exactly for an index out of range |
| Merkle.ProofFoldsToRoot | packages/shared/src/zk.ts:105-133 | Folding a leaf with its proof gives the root for every leaf below capacity, whatever the number of leaves; beyond capacity it gives another top node |
| Merkle.PathFoldsToAncestor | packages/shared/src/zk.ts:122-130 | Folding any present node along its path gives its ancestor |
| Merkle.AncestorIsRoot | packages/shared/src/zk.ts:85-97 | Climbing to the top from a position reaches the root exactly for positions below two to the depth |
| MerkleHalves.RootIsHalved | packages/shared/src/zk.ts:72-103 | For any list within capacity the root is the hash of its two halves, each hashed in the same way, with 0 for a right half without leaves |
| MerkleHalves.EmptyRootIsHashed | packages/shared/src/zk.ts:84-102 | The root over no leaves is 0 at depth 0, and at every other the hash of the one below and 0 |
| Merkle.RootBindsLeaves | packages/shared/src/zk.ts:79-102 | Under an injective hash that is never zero, two lists of non-zero leaves within capacity have equal roots if and only if they are equal |
| Merkle.EqualRootsBreakTheHash | packages/shared/src/zk.ts:79-102 | Whatever the hash, two different lists of non-zero leaves within capacity with one root have a node, given by level and position, where the two trees hash different pairs to one value or a pair to 0 |
| Merkle.EqualNodesEqualLeaves | packages/shared/src/zk.ts:89-96 | Whatever the hash, equal nodes at one position have equal leaves below them, or a node between them and the leaf hashes two pairs to one value or a pair to 0 |
| Merkle.ProvableExactlyWhenCommitted | circuits/withdrawal.circom:26-45 | A non-zero value has a path to the root at a position if and only if it is the leaf there, and the only such path is the one the service hands out |
| Merkle.ForgedPathBreaksTheHash | circuits/withdrawal.circom:26-45 | Whatever the hash, a path that takes a non-zero value to the root at a position is the one the service hands out for the leaf there, or hashes a pair to 0 or to a node that the tree makes of another pair |
| Merkle.FoldIsUnique | circuits/withdrawal.circom:26-45 | Whatever the hash, a path that folds to an ancestor without such a pair starts at the real node and is the real path |
| Merkle.HashExists | packages/shared/src/zk.ts:45-48 | Some two-input function is injective and never 0, so what is asked of the hash can be met |
| Merkle.AppendChangesOnlyAncestors | packages/shared/src/zk.ts:84-97 | Appending a leaf changes no node but the new leaf's ancestors, one per level |
| Merkle.AppendChangesOneProofEntry | packages/shared/src/zk.ts:118-130 | It changes at most one sibling entry of an older leaf's proof, at the level where the two climbs meet |
| Merkle.SiblingsMeetOnce | packages/shared/src/zk.ts:122-130 | Two different positions' ancestors are siblings at exactly one level |
| Merkle.AppendBeyondCapacityKeepsRoot | packages/shared/src/zk.ts:84-102 | A leaf appended beyond capacity does not change the root |
| Indicators.Sma | services/matcher/src/services/indicatorEngine.ts:85-100 | The rolling sum gives the mean of every full window and a blank before |
| Indicators.RollingStep | services/matcher/src/services/indicatorEngine.ts:89-93 | Adding a value and dropping the one that leaves moves the sum to the next window |
| Indicators.Ema | services/matcher/src/services/indicatorEngine.ts:102-122 | The loop computes the recursively defined average, seeded with the first window's mean |
| Indicators.EmaAt | services/matcher/src/services/indicatorEngine.ts:107-119 | The average is there exactly from the bar that fills the first window on |
| Indicators.Rsi | services/matcher/src/services/indicatorEngine.ts:124-151 | The loop computes the index as the code defines it, seed sums carried on undivided |
| Indicators.RsiAt | services/matcher/src/services/indicatorEngine.ts:134-147 | Every value lies between 0 and 100 |
| WilderRsi.RsiIsWilders | services/matcher/src/services/indicatorEngine.ts:134-147 | The engine's index equals the one that goes on from the averages if and only if it is the seed bar, the period is 1, or the moves since the seed are in the seed's proportion of gains to losses |
| WilderRsi.RsiIsNotWilders | services/matcher/src/services/indicatorEngine.ts:134-147 | For the values 0, 1, 1, 0 and period 2 the engine says 50 where Wilder's index is 100/3 |
| WilderRsi.BothSplit | services/matcher/src/services/indicatorEngine.ts:134-146 | Either accumulator is the seed, faded, plus the same smoothed later moves: the engine's seed is the sum, Wilder's the mean |
| Indicators.Atr | services/matcher/src/services/indicatorEngine.ts:153-185 | The loop computes the smoothed true range |
| Indicators.Vwap | services/matcher/src/services/indicatorEngine.ts:304-314 | The running sums give total traded value over total volume, blank while there is none |
| Indicators.Band | services/matcher/src/services/indicatorEngine.ts:273-290 | The loop computes each band from its window's mean and variance |
| IndicatorCatalog.BuildIndicatorValues | services/matcher/src/services/indicatorEngine.ts:235-327 | For every kind, output and parameters the loops compute the specified series, whose meaning `IndicatorMeaning` states |
| IndicatorCatalog.IndicatorsNeverLookAhead | services/matcher/src/services/indicatorEngine.ts:235-327 | Every series over the first n candles is the first n entries of the series over all of them |
| IndicatorMeaning.DefaultsAreServed | services/matcher/src/services/indicatorEngine.ts:235-327 | A parameter that is not given counts as its default, for every kind and output |
| IndicatorMeaning.MovingAverageServed | services/matcher/src/services/indicatorEngine.ts:85-100 | The moving average is blank until the window is full; times the period it is the window's total |
| IndicatorMeaning.ExponentialAverageServed | services/matcher/src/services/indicatorEngine.ts:102-122 | The exponential average is the closed weighted sum: weight 2/(period + 1) for the newest value, less by the same factor for every bar of age, the first window's mean as the oldest |
| IndicatorMeaning.MacdServed | services/matcher/src/services/indicatorEngine.ts:255-272 | The line is the fast average less the slow one, the signal the line's own average, and histogram and signal add up to the line |
| IndicatorMeaning.BollingerServed | services/matcher/src/services/indicatorEngine.ts:273-290 | The middle band is the mean, upper and lower lie factor times the root of the variance above and below it, in that order where neither is negative; where the root is one, the squared half-width is the squared factor times the variance |
| IndicatorMeaning.RollingExtremesServed | services/matcher/src/services/indicatorEngine.ts:196-208 | The rolling high and low bound the highs and the lows of the window and are reached in it |
| IndicatorMeaning.StochasticServed | services/matcher/src/services/indicatorEngine.ts:210-233 | Without smoothing K is linear in the close, 0 at the window's lowest low and 100 at its highest high; K is the mean of the last such positions and D of the last K, between 0 and 100 when candles close within their range |
| IndicatorMeaning.VwapServed | services/matcher/src/services/indicatorEngine.ts:304-314 | The volume-weighted price times the volume is what was traded, and lies between the smallest and the largest typical price for positive volumes |
| IndicatorMeaning.RocServed | services/matcher/src/services/indicatorEngine.ts:187-194 | The value of `period` bars before, raised by the rate of change in percent, is the present value; blank where that value is 0 |
| IndicatorMeaning.CandleShapesServed | services/matcher/src/services/indicatorEngine.ts:319-325 | The body times the open is a hundred times the distance from open to close, 0 for an open of 0; the direction is the sign of the change |
| IndicatorMeaning.AtrServed | services/matcher/src/services/indicatorEngine.ts:153-185 | The average true range is blank until the first window is full, then the closed weighted sum, with weight 1/period, of each candle's largest distance among high, low and the close before |
| IndicatorMeaning.TrueRangeIsSpan | services/matcher/src/services/indicatorEngine.ts:154-163 | Where low is not above high, that distance is the span of the three |
| IndicatorMeaning.RsiServed | services/matcher/src/services/indicatorEngine.ts:124-151 | The index is the share of gains in all accumulated moves in percent, 100 without losses; accumulated are the first moves, faded, and every move since, smoothed |
| Averages.EmaIsAverage | services/matcher/src/services/indicatorEngine.ts:107-119 | The recursive average is the closed weighted sum |
| Averages.AtrIsAverage | services/matcher/src/services/indicatorEngine.ts:165-182 | So is the smoothed one, with weight 1/period |
| Averages.MovesAreAccumulated | services/matcher/src/services/indicatorEngine.ts:129-147 | So are the accumulators of the strength index, with the sum of the first moves as seed |
| Averages.WeightsAddUp | services/matcher/src/services/indicatorEngine.ts:107-119 | The weights of any number of values and the one left for the seed add up to 1 |
| IndicatorKeys.KeysIdentifySeries | services/matcher/src/services/indicatorEngine.ts:34-45 | Two references have the same cache key if and only if they ask for the same indicator, output and parameters, given that the numbers among the two references' parameters print apart and without separators |
| IndicatorKeys.PrintingExists | services/matcher/src/services/indicatorEngine.ts:39-42 | Whatever numbers are in use, some way of printing keeps them apart, so what is asked of printing can be met |
| IndicatorKeys.JoinInjective | services/matcher/src/services/indicatorEngine.ts:39-42 | Joining entries that contain no bar loses nothing |
| IndicatorKeys.EntriesInjective | services/matcher/src/services/indicatorEngine.ts:39-41 | The list of printed parameters determines which are given and how each prints |
| StrategyRuntime.CompilationPreservesMeaning | services/matcher/src/services/strategyRuntime.ts:86-130 | A compiled rule set evaluates to true exactly when some group with rules has all its rules hold, whatever the operands' values |
| StrategyRuntime.PopulatedMeaning | services/matcher/src/services/strategyRuntime.ts:87-90 | Dropping the empty groups changes nothing |
| RuleVerdicts.ComparisonsMeanRelations | services/matcher/src/services/strategyRuntime.ts:166-187 | Where both operands have values, a compiled rule with one of the six comparisons holds if and only if the real numbers are in that relation |
| RuleVerdicts.BlanksAreFalse | services/matcher/src/services/strategyRuntime.ts:173-173 | A blank on either side makes every operator false |
| RuleVerdicts.CrossingsAreChanges | services/matcher/src/services/strategyRuntime.ts:188-191 | A crossing above is a change, from one bar to the next and with no blank at either, from not above to above; below is the dual |
| RuleVerdicts.RisingCrosses | services/matcher/src/services/strategyRuntime.ts:188-189 | If the left side is not above the right at one bar and above it at a later one, with no blanks between, it crosses above at some bar on the way |
| RuleVerdicts.FallingCrosses | services/matcher/src/services/strategyRuntime.ts:190-191 | The dual for below |
| RuleVerdicts.CrossingsAlternate | services/matcher/src/services/strategyRuntime.ts:188-191 | Between two crossings above, with no blanks, there is one below, or a bar where both sides are equal |
| RuleVerdicts.ArithmeticMeans | services/matcher/src/services/strategyRuntime.ts:153-164 | The four operations on two expressions, each by what undoes it; blank where either side is, and for a division by 0 |
| RuleVerdicts.SignsMean | services/matcher/src/services/strategyRuntime.ts:214-221 | The negative adds up with the value to 0; the absolute value is whichever of the two is not negative |
| RuleVerdicts.HistoryAddsUp | services/matcher/src/services/strategyRuntime.ts:204-207 | References to the past add up, and are blank before the first bar |
| RuleVerdicts.OperandsReadBack | services/matcher/src/services/indicatorEngine.ts:527-544 | An operand reads the bar its offset counts back to, a missing or negative offset counting none: that candle's price, each kind of average by what it averages, or the series' entry; blank before the first bar and after the last |
| IndicatorCache.CollectConditionFinds | services/matcher/src/services/strategyRuntime.ts:256-296 | Collection finds every indicator a condition mentions and keeps all that was collected before |
| IndicatorCache.ReferenceTable.FromOperand | services/matcher/src/services/indicatorEngine.ts:329-342 | The map gains the operand's reference under its key, or nothing |
| IndicatorCache.ReferenceTable.FromValue | services/matcher/src/services/strategyRuntime.ts:256-276 | The recursive walk fills the map as the specification does |
| IndicatorCache.ReferenceTable.FromCondition | services/matcher/src/services/strategyRuntime.ts:278-296 | So does the walk over conditions |
| IndicatorCache.ReferenceTable.BuildSeries | services/matcher/src/services/indicatorEngine.ts:369-380 | Each collected key maps to the series of its reference |
| IndicatorCache.CacheIsTransparent | services/matcher/src/services/indicatorEngine.ts:369-380 | With all its indicators collected and the numbers they are given printing apart, a condition's verdict through the cache is that of recomputing each indicator on the spot |
| IndicatorCache.CompiledWithin | services/matcher/src/services/strategyRuntime.ts:86-130 | Compiled rule groups give indicators no number that the groups do not |
| IndicatorCache.CountingBackIsNeverAhead | services/matcher/src/services/strategyRuntime.ts:204-207 | Expressions whose history offsets are not negative read no later bar |
| IndicatorCache.ValuesSeeOnlyThePast | services/matcher/src/services/strategyRuntime.ts:195-223 | Such an expression's value at a bar is the same over the candles up to it as over all of them |
| IndicatorCache.VerdictsSeeOnlyThePast | services/matcher/src/services/strategyRuntime.ts:225-254 | So is a condition's verdict |
| IndicatorCache.NegativeHistoryLooksAhead | services/matcher/src/services/strategyRuntime.ts:204-207 | History references in any nesting around a price never look ahead if and only if all the offsets together are not negative |
| StrategyBacktest.EnabledSidesAgree | services/matcher/src/services/strategyRuntime.ts:298-330 | On an enabled side the engine's entry and exit verdicts are the rule groups read directly with indicators recomputed, given that the strategy's own numbers print apart |
| StrategyBacktest.EngineReportsWhatTheRulesSay | services/matcher/src/services/strategyBacktest.ts:75-255 | The whole report is the same as for the rules read directly, because positions exist only on enabled sides |
| StrategyBacktest.SomePrintingSuits | services/matcher/src/services/indicatorEngine.ts:34-45 | For every strategy some printing keeps its numbers apart, so the hypothesis of the results about its whole report can be met |
| StrategyBacktest.BacktestNeverLooksAhead | services/matcher/src/services/strategyBacktest.ts:156-247 | The account and the equity curve after n bars need only the first n candles |
| StrategyBacktest.EngineSignalsAreGated | services/matcher/src/services/strategyBacktest.ts:159-164 | Entry signals are given only for enabled sides |
| StrategyBacktest.RunStrategyBacktest | services/matcher/src/services/strategyBacktest.ts:67-257 | Collecting, caching, evaluating and looping give the report of the rules read directly and the worst fall of its curve, which for a long-only strategy on positive prices is at most 100 percent |
| Backtest.RunLoop | services/matcher/src/services/strategyBacktest.ts:88-257 | The in-place bar loop over a prefilled curve computes the step function's report |
| Backtest.CalcDrawdownPct | services/matcher/src/services/strategyBacktest.ts:34-43 | The result is the largest percentage by which any point lies below the highest point before it, or zero |
| Backtest.FallIsLoss | services/matcher/src/services/strategyBacktest.ts:34-43 | A fall is the percentage by which the point lies below the highest point up to it: taking it off that point gives the point; none where that is not positive |
| BacktestResults.EquityIsAccountedFor | services/matcher/src/services/strategyBacktest.ts:98-257 | Every point of the curve is starting equity plus closed profits plus the open position's profit, and ending equity is starting equity plus all trades' profits |
| BacktestResults.TradesAreInSequence | services/matcher/src/services/strategyBacktest.ts:156-255 | Trades are ordered and disjoint, share a bar only at a reversal, and are held at most the configured number of bars, or one if that is less than one |
| BacktestResults.ExposureIsTimeHeld | services/matcher/src/services/strategyBacktest.ts:233-242 | The reported exposure is the number of bars after which a position was held, and the sum of how long the trades were held, one more if the last was closed at the end |
| TradeSizes.TradesAreSized | services/matcher/src/services/strategyBacktest.ts:132-154 | With the starting equity and the profits of the trades before it as equity, every trade invests, price times quantity, that percentage of the equity, or the fixed amount, but at most all of it; and only out of positive equity for a positive size |
| TradeSizes.NotionalIsStake | services/matcher/src/services/strategyBacktest.ts:132-144 | The amount to invest is that one, and is positive if and only if the equity and the size are |
| BacktestResults.LongOnlyStaysSolvent | services/matcher/src/services/strategyBacktest.ts:98-255 | A long-only run on positive prices never has negative equity, and every fall of its curve is between 0 and 100 percent |
| BacktestResults.ShortIsSolventUpTo | services/matcher/src/services/strategyBacktest.ts:98-106 | With an open short position the equity is not negative if and only if the close is at most the entry price plus the realised equity per unit sold |
| BacktestResults.ShortCanLoseMoreThanAll | services/matcher/src/services/strategyBacktest.ts:98-106 | A short of an equity of 10 at a price of 1, closed at 3, ends with an equity of -10 |
| TradeReasons.TradesAreJustified | services/matcher/src/services/strategyBacktest.ts:156-255 | Every trade starts on an entry signal for its side and runs, at closing prices, to the first bar where a reason to close holds, for the first such reason in order, or to the last bar if none does |
| TradeOpenings.FlatBarBeginsTrade | services/matcher/src/services/strategyBacktest.ts:132-154 | At a bar with no open position a trade begins if and only if exactly one side gives an entry signal and equity and size are positive; it is on that side, at the close, for the size asked for up to the equity |
| TradeOpenings.ReversalBeginsTrade | services/matcher/src/services/strategyBacktest.ts:222-228 | At a bar with an open position a trade begins if and only if the opposite signal is the first reason to close and the equity after closing and the size are positive; it is the opposite trade, for the size asked for up to the equity |
| TradeOpenings.HeldIsReported | services/matcher/src/services/strategyBacktest.ts:98-130 | Every position ever held is in the reported trades, on its side, with its entry and quantity |
| TradeReasons.DecisionIsFirstReason | services/matcher/src/services/strategyBacktest.ts:166-220 | The loop's choice from its carried position is the first reason that the candles since entry and the signals give |
| TradeReasons.StopsMeanPercentages | services/matcher/src/services/strategyBacktest.ts:172-219 | The price comparisons for both sides say that a percentage has been lost or gained, from the entry or from the best close |
| Candles.AggregateRows | services/matcher/src/services/priceService.ts:423-453 | The loop with its bar under construction computes the row-by-row fold |
| Candles.AggregationGroups | services/matcher/src/services/priceService.ts:423-453 | For ascending rows the bars are strictly increasing, one for each bucket with rows, with first open, highest high, lowest low, last close and summed volume |
| Candles.AggregationComposes | services/matcher/src/services/priceService.ts:427-451 | Aggregating to a size and then to a multiple of it is aggregating to the multiple at once |
| CandlePages.TrimToContiguousTail | services/matcher/src/services/priceService.ts:121-157 | The backward scan with its early exit computes the specified page, for every limit |
| CandlePages.TrimReturnsLongestTail | services/matcher/src/services/priceService.ts:121-157 | For a limit of at least 1 the page is the longest tail of at most that many candles without a gap, and more is reported exactly when a candle was left out |
| CandlePages.TailIsUnique | services/matcher/src/services/priceService.ts:133-151 | No tail of at most `limit` candles without a gap is longer than that one |
| CandlePages.LimitRespectedFromOneOn | services/matcher/src/services/priceService.ts:133-151 | The page of a non-empty list has at most `limit` candles if and only if the limit is at least 1 |
| CandlePages.TrimBelowOne | services/matcher/src/services/priceService.ts:127-157 | With a limit below 1 the page has the last two candles, if no gap parts them, or else the last, less as many from the front as the limit is below 0 |
| CandlePages.OpenFlatBars | services/matcher/src/services/priceService.ts:401-419 | The in-place rewrite of flat bars gives what the original bars would |
| CandlePages.GetCandlesPage | services/matcher/src/services/priceService.ts:374-454 | The method computes the specified page from the stored rows, for every limit; a negative row limit fetches all rows |
| CandlePages.PageNeedsNoOlderRows | services/matcher/src/services/priceService.ts:374-454 | For rows on whole minutes the query's row limit never shows: the page is the one all stored rows before the cursor would give |
| PageContents.PageBarsAreWhole | services/matcher/src/services/priceService.ts:374-454 | A page of 5 or 15 minutes, 1 or 4 hours or a day has exactly the bars, from its first on, that start on multiples of 300, 900, 3,600, 14,400 or 86,400 seconds and take in all rows of that time before the cursor, by open, high, low, close and volume; at most `limit`, no two further apart than three lengths; more is reported if and only if there is an older bar, and a page that is not full was cut at a longer gap |
| PageContents.MinutePageServesRows | services/matcher/src/services/priceService.ts:374-419 | A page of minutes has one bar for each of the newest rows before the cursor: a row of one price, at most three minutes after the row before, opens at that one's close and spans from the one close to the other; any other is served as it is |
| PageContents.PageOfNegativeLimit | services/matcher/src/services/priceService.ts:374-400 | A limit of -1 fetches no row and serves the fallback; a smaller one fetches every row and serves no bar, with more reported |
| PageContents.EmptyPageFallsBack | services/matcher/src/services/priceService.ts:374-400 | With no row before the cursor the page is the fallback candle alone |
| CandlePages.BarsHoldFewRows | services/matcher/src/services/priceService.ts:374-375 | Bars of m minutes take in at most m rows each, counted exactly up to the last row |
| CandlePages.AggregateRange | services/matcher/src/services/priceService.ts:484-520 | The range loop returns the bars of the fetched rows that start inside the range |
| CandlePages.RangeBarsAreComplete | services/matcher/src/services/priceService.ts:457-520 | Those are exactly the bars in the range that the whole history gives, each built from all its rows |
| PageContents.RangeBarsAreWhole | services/matcher/src/services/priceService.ts:457-520 | A candle is in a range's result if and only if it starts in the range on a multiple of its length and takes in all stored rows of that time |
| BridgeClaims.TokensAreBacked | services/matcher/src/services/bridgeClaims.ts:69-274 | With at least as many token decimals as source decimals, after any sequence of claims and redemptions that do not overlap, minted minus burned is claimed times the power of ten, and claimed is between zero and the largest balance observed |
| BridgeClaims.ClaimKeepsBacking | services/matcher/src/services/bridgeClaims.ts:120-175 | A claim raises the claimed amount to the observed balance and keeps the backing |
| BridgeClaims.RedeemKeepsBacking | services/matcher/src/services/bridgeClaims.ts:184-263 | A redemption lowers it, not below zero, burns no more than the wallet holds and keeps the backing |
| BridgeClaims.CoarserTokenRounds | services/matcher/src/services/bridgeClaims.ts:11-21 | With fewer token decimals every redemption fails, and a claim is minted in full if and only if the claimable amount has no digits below the token's unit |
| BridgeClaims.ClaimAcceptedWhen | services/matcher/src/services/bridgeClaims.ts:69-130 | A claim is accepted if and only if more has been observed than claimed, by at least one unit of the token; it is for all of it, rounded down to the token's decimals |
| BridgeClaims.RedeemAcceptedWhen | services/matcher/src/services/bridgeClaims.ts:184-219 | With at least as many token decimals, a redemption is accepted if and only if its amount is positive, a whole number of source units, held by the wallet and within what is claimed |
| BridgeClaims.ClaimStore.ClaimBridged | services/matcher/src/services/bridgeClaims.ts:120-175 | The method does the specified claim, with nothing in between, for one address and denomination and touches no other |
| BridgeClaims.ClaimStore.RedeemBridged | services/matcher/src/services/bridgeClaims.ts:184-263 | The method does the specified redemption, with nothing in between, and touches no other entry |
| BridgeClaims.ClaimStore.CheckClaim | services/matcher/src/services/bridgeClaims.ts:120-130 | The checks before a mint, on what is then claimed, throw exactly where the specification errs and fix the two amounts |
| BridgeClaims.ClaimStore.CheckRedeem | services/matcher/src/services/bridgeClaims.ts:190-219 | So do the checks before a burn, in the source's order |
| BridgeClaims.ClaimStore.Record | services/matcher/src/services/bridgeClaims.ts:160-167 | Recording adds the fixed amount to, or takes it from, what is claimed by then, and touches no other entry |
| BridgeOverlaps.OverlapsStayBacked | services/matcher/src/services/bridgeClaims.ts:120-263 | However claims and redemptions of one address overlap between check, transaction and record, minted minus burned is the power of ten times what is claimed together with what confirmed transactions have still to record |
| BridgeOverlaps.TimelyMeansWithin | services/matcher/src/services/bridgeClaims.ts:160-251 | Recording a claim keeps the claimed amount within the balance its check observed if and only if no more is claimed by then than at the check; recording a redemption keeps it from going below zero if and only if what it releases is still claimed |
| BridgeOverlaps.TimelyRunsStayWithin | services/matcher/src/services/bridgeClaims.ts:120-263 | When every recording meets that condition, the claimed amount stays between zero and the largest balance observed, however the rest overlaps |
| BridgeOverlaps.OverlappingClaimsCountTwice | services/matcher/src/services/bridgeClaims.ts:120-167 | For any account with something to claim, two overlapping claims mint it twice and record it twice, which is more than was observed |
| BridgeOverlaps.OverlappingRedemptionsCountTwice | services/matcher/src/services/bridgeClaims.ts:184-251 | Two overlapping redemptions of one amount, if the chain burns both, release it twice, and leave less than nothing claimed if and only if it was more than half |

## Left out

What the statements take as given:

- Addresses and symbols stand for their lower-cased form. Ids are parameters that
  must be new where the service draws a random one; times are integers.
- Amounts and prices reach the model parsed, prices and quoted outputs not negative.
  The quote spread is at most 100%.
- Sorting both sides and taking the first of each is modelled as finding that first
  order; the sorted lists themselves are not built.
- Orders and jobs are values in sequence fields, so a caller's later view of an
  order object it was given is not captured.
- The fallible outside calls (bridge health, the L1 exchange, the vault's settlement,
  mint and burn transactions) are parameters of the steps: any answer, in any
  order. An instant fill whose settlement fails is dropped. What is sent to the
  exchange with a swap is not modelled.
- Indicator periods are whole numbers of at least 1. Candles traded on have a close
  other than 0, where the code would divide by it.
- The numbers that one strategy gives its indicators print differently from each
  other and without `:` or `|`, for the cache keys. No printing does that for all
  reals, and none needs to: `PrintingExists` gives one for any such set of numbers.
- Candle limits are whole numbers, of either sign.
- All signals of a backtest are evaluated before its bar loop instead of inside it,
  and for both sides' exits at every bar; evaluation changes no state.
- A mint or burn whose receipt reports a reverted transaction, which the service
  records all the same, is not modelled.

What the model does not do:

- HTTP routes, schemas, authentication, user interfaces and scripts.
- `StateStore.flush` and persistence; SQLite and the price providers. Query results
  are ascending sequences of rows.
- `anchorBatch`: only that each fill is reported to it, as the ghost list of fills.
- Deposits, withdrawals and the vault's own ledger (`vault.ts`, `zkProofs.ts`).
- The bootstrap of the router's inventory, and how `ensureRebalanceForDrift` decides
  whether and how much to rebalance: an instant fill may enqueue any unlinked job.
- Note commitments, nullifiers, Groth16 proving and encoding.
- Strategies with source compiled by an engine (`strategySourceCompiler.ts`), and
  `collectIndicatorReferences`, which a backtest does not use.
- Overlays, markers, colours, labels and the summary's ratios; rounding with
  `toFixed` and floating-point error.
- How a fallback price is chosen for a symbol with no rows; it is a parameter.
- Live execution sizing, market scoring and rate limits: shallower than the above.
- BridgeClaims.TokensAreBacked: one address and denomination at a time; the
  store's methods show that others are untouched.
- Indicators.Band: one band per call, the lower one as a negated factor, where the
  source fills both in one loop.
- CandlePages.PageNeedsNoOlderRows: for rows on whole minutes, as one-minute bars
  are.
- BacktestResults.LongOnlyStaysSolvent: for strategies with no short side; one short
  position's condition is `ShortIsSolventUpTo`.
- BridgeOverlaps.TimelyRunsStayWithin: one way, since a late record need not pass the
  largest balance; for each record `TimelyMeansWithin` has the condition.
