/**
  The matcher as one state machine. Each action is one uninterrupted stretch of
  code; a run is any interleaving of requests with the worker's stretches.
 */
module DarkPool {
  import opened AppState
  import opened Ledger
  import opened OrderBook
  import opened Outcome
  import opened Reserves
  import opened Router
  import opened Sums
  import opened SwapProtocol
  import opened SwapSafety

  datatype Config = Config(markets: Markets, bandBps: nat)

  datatype Action =
    | PlaceOrder(place: PlaceInput, reference: nat)
    | CancelOrder(orderId: string, user: Address)
    | ExecuteSwap(execute: ExecuteInput, swapId: string, rebalanceId: string)
    | FinishInstantFill(index: nat, drift: Option<RebalanceJob>)
    | AbandonInstantFill(index: nat)
    | StartTick
    | HealthAnswer(ready: bool, canSubmit: bool, routeable: bool)
    | ExchangeAnswer(answer: SwapAnswer)

  function TermsOf(config: Config, marketId: string, reference: nat): Terms
    requires marketId in config.markets
  {
    Terms(config.markets[marketId], marketId, reference, config.bandBps)
  }

  /** Random ids are new, the spread is at most 100%, and an answer comes only to a worker that waits for it. */
  predicate Enabled(s: State, a: Action) {
    match a
    case PlaceOrder(place, _) => place.id !in OrderIds(s.orders)
    case CancelOrder(_, _) => true
    case ExecuteSwap(execute, swapId, rebalanceId) =>
      SpreadWithinBounds(execute) && swapId !in SwapIds(s.swaps) && rebalanceId !in RebalanceIds(s.rebalances)
    case FinishInstantFill(index, drift) =>
      index < |s.intents| && (drift.Some? ==> drift.value.id !in RebalanceIds(s.rebalances))
    case AbandonInstantFill(index) => index < |s.intents|
    case StartTick => s.worker.Idle?
    case HealthAnswer(_, _, _) => s.worker.AwaitingHealth? && s.worker.next < |s.rebalances|
    case ExchangeAnswer(_) => s.worker.AwaitingSwap? && s.worker.next < |s.rebalances|
  }

  function OrElse(r: Result<State>, s: State): State {
    if r.Ok? then r.value else s
  }

  function PlaceAndMatch(config: Config, s: State, place: PlaceInput, reference: nat): State {
    var placed := Place(config.markets, s, place);
    if placed.Err? then s
    else MatchAll(TermsOf(config, place.marketId, reference), placed.value).state
  }

  function FinishFill(s: State, index: nat, drift: Option<RebalanceJob>): State
    requires index < |s.intents|
  {
    var filled := FinishInstant(s, index);
    if drift.Some? then EnqueueDriftJob(filled, drift.value) else filled
  }

  /** The vault's settlement failed: `execute` throws and nothing is debited. */
  function AbandonFill(s: State, index: nat): State
    requires index < |s.intents|
  {
    s.(intents := s.intents[..index] + s.intents[index + 1..])
  }

  /** A thrown error leaves the state as it was. */
  function Step(config: Config, s: State, a: Action): State
    requires Enabled(s, a)
  {
    match a
    case PlaceOrder(place, reference) => PlaceAndMatch(config, s, place, reference)
    case CancelOrder(orderId, user) => OrElse(Cancel(s, orderId, user), s)
    case ExecuteSwap(execute, swapId, rebalanceId) => OrElse(BeginExecute(s, execute, swapId, rebalanceId), s)
    case FinishInstantFill(index, drift) => FinishFill(s, index, drift)
    case AbandonInstantFill(index) => AbandonFill(s, index)
    case StartTick => BeginTick(s)
    case HealthAnswer(ready, canSubmit, routeable) => AfterHealth(s, ready, canSubmit, routeable)
    case ExchangeAnswer(answer) => AfterSwap(s, answer)
  }

  predicate ValidRun(config: Config, s: State, actions: seq<Action>)
    decreases |actions|
  {
    |actions| == 0 || (Enabled(s, actions[0]) && ValidRun(config, Step(config, s, actions[0]), actions[1..]))
  }

  function Run(config: Config, s: State, actions: seq<Action>): State
    requires ValidRun(config, s, actions)
    decreases |actions|
  {
    if |actions| == 0 then s else Run(config, Step(config, s, actions[0]), actions[1..])
  }

  // ----- Invariants -----

  ghost predicate Initial(s: State) {
    && s.orders == [] && s.fills == [] && s.swaps == [] && s.rebalances == [] && s.intents == [] && s.events == []
    && s.worker.Idle?
    && (forall k :: s.Locked(k) == 0)
    && AvailableNonNegative(s)
  }

  ghost predicate Inv(config: Config, s: State) {
    BookInv(config.markets, s) && JobsInv(s)
  }

  ghost predicate AvailableNonNegative(s: State) {
    forall k :: s.Available(k) >= 0
  }

  ghost predicate DecimalsAtMost18(markets: Markets) {
    forall m :: m in markets ==> markets[m].baseDecimals <= 18
  }

  ghost predicate DecimalsAtLeast18(markets: Markets) {
    forall m :: m in markets ==> markets[m].baseDecimals >= 18
  }

  // ----- The match loop -----

  lemma {:induction false} MatchAllKeepsBook(markets: Markets, terms: Terms, s: State, k: Key)
    requires BookInv(markets, s) && terms.marketId in markets && markets[terms.marketId] == terms.market
    ensures var after := MatchAll(terms, s).state;
            && BookInv(markets, after)
            && Dust(markets, s, k) <= Dust(markets, after, k)
            && Dust(markets, after, k) <= Dust(markets, s, k) + BuyFills(after, k) - BuyFills(s, k)
            && s.Available(k) <= after.Available(k)
            && after == s.(balances := after.balances, locked := after.locked, orders := after.orders,
                           fills := after.fills)
    decreases LiveCount(s.orders, terms.marketId)
  {
    if HaltReason(terms, s.orders).None? {
      var b := First(s.orders, terms.marketId, Buy).value;
      var a := First(s.orders, terms.marketId, Sell).value;
      TradeKeepsBook(markets, terms, s, b, a);
      TradeAddsLittleDust(markets, terms, s, b, a, k);
      TradeCredits(markets, terms, s, b, a, k);
      MatchOnceRunsDown(terms, s);
      MatchAllKeepsBook(markets, terms, MatchOnce(terms, s), k);
    }
  }

  lemma TradeCredits(markets: Markets, terms: Terms, s: State, b: nat, a: nat, k: Key)
    requires Tradable(markets, terms, s, b, a)
    ensures s.Available(k) <= Trade(terms.market, s, b, a).Available(k)
  {
  }

  lemma TradeConserves(terms: Terms, s: State, b: nat, a: nat, token: Address)
    requires b < |s.orders| && a < |s.orders| && s.orders[b].limitPrice >= s.orders[a].limitPrice
    ensures UserTotal(Trade(terms.market, s, b, a), token) == UserTotal(s, token)
  {
    hide Total, Notional, Add;
    var buy, sell := s.orders[b], s.orders[a];
    var traded: int := Traded(buy, sell);
    var cost: int := Notional(traded, sell.limitPrice, terms.market.baseDecimals);
    var atLimit: int := Notional(traded, buy.limitPrice, terms.market.baseDecimals);
    var kq, kb := Key(buy.user, terms.market.quoteToken), Key(sell.user, terms.market.baseToken);
    var got, paid := Key(buy.user, terms.market.baseToken), Key(sell.user, terms.market.quoteToken);
    NotionalMonotone(traded, sell.limitPrice, buy.limitPrice, terms.market.baseDecimals);
    TotalAfterAdd(s.locked, kq, -atLimit, token);
    TotalAfterAdd(Add(s.locked, kq, -atLimit), kb, -traded, token);
    TotalAfterAdd(s.balances, got, traded, token);
    var credited := Add(s.balances, got, traded);
    TotalAfterAdd(credited, paid, cost, token);
    TotalAfterAdd(Add(credited, paid, cost), kq, atLimit - cost, token);
  }

  lemma {:induction false} MatchAllConserves(terms: Terms, s: State, token: Address)
    ensures UserTotal(MatchAll(terms, s).state, token) == UserTotal(s, token)
    ensures MatchAll(terms, s).state.events == s.events
    decreases LiveCount(s.orders, terms.marketId)
  {
    if HaltReason(terms, s.orders).None? {
      TradeConserves(terms, s, First(s.orders, terms.marketId, Buy).value, First(s.orders, terms.marketId, Sell).value,
                     token);
      MatchOnceRunsDown(terms, s);
      MatchAllConserves(terms, MatchOnce(terms, s), token);
    }
  }

  // ----- Every action keeps the invariant -----

  lemma BookInvOnly(markets: Markets, s: State, t: State)
    requires BookInv(markets, s) && t.orders == s.orders && t.fills == s.fills
    ensures BookInv(markets, t)
  {
  }

  lemma PlaceKeepsInv(config: Config, s: State, place: PlaceInput, reference: nat)
    requires Inv(config, s) && Enabled(s, PlaceOrder(place, reference))
    ensures var after := PlaceAndMatch(config, s, place, reference); Inv(config, after) && JobsFollow(s, after)
  {
    var after := PlaceAndMatch(config, s, place, reference);
    if Place(config.markets, s, place).Ok? {
      var placed := Place(config.markets, s, place).value;
      PlaceKeepsBook(config.markets, s, place);
      MatchAllKeepsBook(config.markets, TermsOf(config, place.marketId, reference), placed, Key("", ""));
    }
    SameJobs(s, after);
  }

  lemma CancelKeepsInv(config: Config, s: State, orderId: string, user: Address)
    requires Inv(config, s)
    ensures var after := OrElse(Cancel(s, orderId, user), s); Inv(config, after) && JobsFollow(s, after)
  {
    if Cancel(s, orderId, user).Ok? { CancelKeepsBook(config.markets, s, orderId, user); }
    SameJobs(s, OrElse(Cancel(s, orderId, user), s));
  }

  lemma ExecuteKeepsInv(config: Config, s: State, execute: ExecuteInput, swapId: string, rebalanceId: string)
    requires Inv(config, s) && Enabled(s, ExecuteSwap(execute, swapId, rebalanceId))
    ensures var after := OrElse(BeginExecute(s, execute, swapId, rebalanceId), s);
            Inv(config, after) && JobsFollow(s, after)
  {
    hide Follows, BookInv, LinkedInStep, FirstComeFirstServed, WorkerInStep, ReleasedOnce;
    var after := OrElse(BeginExecute(s, execute, swapId, rebalanceId), s);
    if after.swaps == s.swaps {
      SameJobs(s, after);
    } else {
      var quote := MakeQuote(execute);
      CreateKeepsJobs(s, execute.swap.(quotedOut := quote.quotedOut, minOut := quote.minOut), swapId, rebalanceId);
    }
    BookInvOnly(config.markets, s, after);
  }

  lemma FinishKeepsInv(config: Config, s: State, index: nat, drift: Option<RebalanceJob>)
    requires Inv(config, s) && Enabled(s, FinishInstantFill(index, drift))
    ensures var after := FinishFill(s, index, drift); Inv(config, after) && JobsFollow(s, after)
  {
    var filled := FinishInstant(s, index);
    InstantKeepsReleases(s.swaps, s.events, Instant(s.intents[index]));
    assert filled.events == s.events + [Instant(s.intents[index])];
    assert JobsInv(filled) && JobsFollow(s, filled);
    if drift.Some? { DriftKeepsJobs(filled, drift.value); }
    BookInvOnly(config.markets, s, FinishFill(s, index, drift));
  }

  lemma WorkerKeepsInv(config: Config, s: State, a: Action)
    requires Inv(config, s) && Enabled(s, a) && (a.StartTick? || a.HealthAnswer? || a.ExchangeAnswer?)
    ensures Inv(config, Step(config, s, a)) && JobsFollow(s, Step(config, s, a))
  {
    BookInvOnly(config.markets, s, Step(config, s, a));
    match a
    case StartTick => BeginTickKeepsJobs(s);
    case HealthAnswer(ready, canSubmit, routeable) => AfterHealthKeepsJobs(s, ready, canSubmit, routeable);
    case ExchangeAnswer(answer) => AfterSwapKeepsJobs(s, answer);
  }

  /** Every action keeps the book and the protocol in step, and moves jobs only as the protocol allows. */
  lemma StepKeepsInv(config: Config, s: State, a: Action)
    requires Inv(config, s) && Enabled(s, a)
    ensures Inv(config, Step(config, s, a)) && JobsFollow(s, Step(config, s, a))
  {
    match a
    case PlaceOrder(place, reference) => PlaceKeepsInv(config, s, place, reference);
    case CancelOrder(orderId, user) => CancelKeepsInv(config, s, orderId, user);
    case ExecuteSwap(execute, swapId, rebalanceId) => ExecuteKeepsInv(config, s, execute, swapId, rebalanceId);
    case FinishInstantFill(index, drift) => FinishKeepsInv(config, s, index, drift);
    case AbandonInstantFill(index) =>
      SameJobs(s, AbandonFill(s, index));
      BookInvOnly(config.markets, s, AbandonFill(s, index));
    case _ => WorkerKeepsInv(config, s, a);
  }

  /** In every reachable state the order book and the swap protocol are in step. */
  lemma {:induction false} RunKeepsInv(config: Config, s: State, actions: seq<Action>)
    requires Inv(config, s) && ValidRun(config, s, actions)
    ensures Inv(config, Run(config, s, actions))
    decreases |actions|
  {
    if |actions| > 0 {
      StepKeepsInv(config, s, actions[0]);
      RunKeepsInv(config, Step(config, s, actions[0]), actions[1..]);
    }
  }

  /** However the rest of a run goes, a finished job stays finished as it was. */
  lemma {:induction false} RunKeepsFinishedJobs(config: Config, s: State, actions: seq<Action>)
    requires Inv(config, s) && ValidRun(config, s, actions)
    ensures var after := Run(config, s, actions);
            && |s.swaps| <= |after.swaps|
            && (forall i :: 0 <= i < |s.swaps| && s.swaps[i].state.Terminal() ==>
                              after.swaps[i] == s.swaps[i])
            && |s.rebalances| <= |after.rebalances|
            && (forall i :: 0 <= i < |s.rebalances| && s.rebalances[i].state.Terminal() ==>
                              after.rebalances[i] == s.rebalances[i])
    decreases |actions|
  {
    if |actions| > 0 {
      StepKeepsInv(config, s, actions[0]);
      RunKeepsFinishedJobs(config, Step(config, s, actions[0]), actions[1..]);
    }
  }

  // ----- Locked and available amounts -----

  /** No value is locked or unlocked without being accounted for. */
  ghost predicate KeepsDust(markets: Markets, s: State, t: State, k: Key) {
    Dust(markets, t, k) == Dust(markets, s, k) && t.fills == s.fills
  }

  /** The swap job with this id, if there is one, still holds its lock. */
  predicate StillLocked(swaps: seq<SwapJob>, linked: Option<string>) {
    linked.Some? ==>
      var found := FindId(SwapIds(swaps), linked.value);
      found.Some? ==> !swaps[found.value].state.Terminal()
  }

  lemma MarkKeepsDust(markets: Markets, s: State, id: string, state: JobState, k: Key)
    requires StillLocked(s.swaps, Some(id)) && !state.Terminal()
    ensures KeepsDust(markets, s, MarkSwapState(s, id, state), k)
  {
    var found := FindId(SwapIds(s.swaps), id);
    if found.Some? {
      SumUpdate(s.swaps, found.value, s.swaps[found.value].(state := state), PendingOn(k));
    }
  }

  /** Refunding a swap unlocks exactly what the swap had locked. */
  lemma RefundKeepsDust(markets: Markets, s: State, id: string, k: Key)
    requires StillLocked(s.swaps, Some(id))
    ensures KeepsDust(markets, s, FailSwap(s, id), k)
  {
    var found := FindId(SwapIds(s.swaps), id);
    if found.Some? {
      SumUpdate(s.swaps, found.value, s.swaps[found.value].(state := Failed), PendingOn(k));
    }
  }

  /** So does paying it out. */
  lemma PayoutKeepsDust(markets: Markets, s: State, id: string, amountOut: nat, k: Key)
    requires StillLocked(s.swaps, Some(id))
    ensures KeepsDust(markets, s, SettleAsyncSwap(s, id, amountOut), k)
  {
    var found := FindId(SwapIds(s.swaps), id);
    if found.Some? {
      SumUpdate(s.swaps, found.value, s.swaps[found.value].(state := Completed, quotedOut := amountOut), PendingOn(k));
    }
  }

  lemma AdvanceKeepsDust(markets: Markets, s: State, jobId: string, linked: Option<string>, state: JobState,
                         actualOut: Option<nat>, k: Key)
    requires StillLocked(s.swaps, linked) && !state.Terminal()
    ensures var updated := UpdateRebalanceJob(s, jobId, state, actualOut);
            KeepsDust(markets, s, if linked.Some? then MarkSwapState(updated, linked.value, state) else updated, k)
  {
    var updated := UpdateRebalanceJob(s, jobId, state, actualOut);
    if linked.Some? { MarkKeepsDust(markets, updated, linked.value, state, k); }
  }

  lemma FailKeepsDust(markets: Markets, s: State, jobId: string, linked: Option<string>, k: Key)
    requires StillLocked(s.swaps, linked)
    ensures KeepsDust(markets, s, Fail(s, jobId, linked), k)
  {
    hide FindId, Sum, FailSwap;
    if linked.Some? { RefundKeepsDust(markets, UpdateRebalanceJob(s, jobId, Failed, None), linked.value, k); }
  }

  lemma SettleKeepsDust(markets: Markets, s: State, job: RebalanceJob, k: Key)
    requires StillLocked(s.swaps, job.linked)
    ensures KeepsDust(markets, s, Settle(s, job), k)
  {
    if job.linked.Some? {
      PayoutKeepsDust(markets, SettleRebalanceInventory(s, job.id), job.linked.value, SettledOut(job), k);
    }
  }

  /** The worker's job is unfinished, its partner holds its lock, and marking it again changes nothing. */
  lemma WorkerHoldsLock(s: State)
    requires JobsInv(s) && !s.worker.Idle?
    ensures s.worker.next < |s.rebalances|
    ensures var job := s.rebalances[s.worker.next];
            && !job.state.Terminal() && StillLocked(s.swaps, job.linked)
            && (job.linked.Some? ==> MarkSwapState(s, job.linked.value, job.state) == s)
  {
    var job := s.rebalances[s.worker.next];
    if job.linked.Some? {
      MarkIsIdle(s, s.worker.next);
      assert PartnerOf(s.swaps, s.rebalances[s.worker.next].linked).Some?;
    }
  }

  lemma HealthKeepsDust(markets: Markets, s: State, ready: bool, canSubmit: bool, routeable: bool, k: Key)
    requires s.worker.AwaitingHealth? && s.worker.next < |s.rebalances|
    requires var job := s.rebalances[s.worker.next];
             && !job.state.Terminal() && StillLocked(s.swaps, job.linked)
             && (job.linked.Some? ==> MarkSwapState(s, job.linked.value, job.state) == s)
    ensures KeepsDust(markets, s, AfterHealth(s, ready, canSubmit, routeable), k)
  {
    hide FindId, Sum, Fail, Settle, UpdateRebalanceJob;
    var job := s.rebalances[s.worker.next];
    var idle := s.(worker := Idle);
    FailKeepsDust(markets, idle, job.id, job.linked, k);
    SettleKeepsDust(markets, idle, job, k);
    AdvanceKeepsDust(markets, idle, job.id, job.linked, BridgingOut, None, k);
    AdvanceKeepsDust(markets, idle, job.id, job.linked, L1Swap, None, k);
    assert job.linked.Some? ==> MarkSwapState(idle, job.linked.value, job.state) == idle;
  }

  lemma AnswerKeepsDust(markets: Markets, s: State, answer: SwapAnswer, k: Key)
    requires s.worker.AwaitingSwap? && s.worker.next < |s.rebalances|
    requires StillLocked(s.swaps, s.rebalances[s.worker.next].linked)
    ensures KeepsDust(markets, s, AfterSwap(s, answer), k)
  {
    var job := s.rebalances[s.worker.next];
    var idle := s.(worker := Idle);
    FailKeepsDust(markets, idle, job.id, job.linked, k);
    if answer.Returned? {
      var actual := ExchangedOut(job, answer);
      AdvanceKeepsDust(markets, idle, job.id, job.linked, SettlingBack, Some(actual), k);
    }
  }

  lemma PlaceMovesDust(config: Config, s: State, place: PlaceInput, reference: nat, k: Key)
    requires BookInv(config.markets, s) && Enabled(s, PlaceOrder(place, reference))
    ensures var t := PlaceAndMatch(config, s, place, reference);
            Dust(config.markets, s, k) <= Dust(config.markets, t, k) <=
            Dust(config.markets, s, k) + BuyFills(t, k) - BuyFills(s, k)
  {
    var placed := Place(config.markets, s, place);
    if placed.Ok? {
      PlaceKeepsBook(config.markets, s, place);
      PlaceKeepsDust(config.markets, s, place, k);
      MatchAllKeepsBook(config.markets, TermsOf(config, place.marketId, reference), placed.value, k);
    }
  }

  /** What a cancellation, if the action is one, leaves locked beyond what its order needed. */
  function Stranded(markets: Markets, s: State, a: Action, k: Key): int {
    if a.CancelOrder? && Cancel(s, a.orderId, a.user).Ok? then
      Unrefunded(markets, s.orders[FindId(OrderIds(s.orders), a.orderId).value], k)
    else 0
  }

  /** Below 18 decimals a cancellation strands something or nothing, above 18 it unlocks too much or nothing. */
  lemma StrandedSign(markets: Markets, s: State, a: Action, k: Key)
    requires BookInv(markets, s)
    ensures DecimalsAtMost18(markets) ==> Stranded(markets, s, a, k) >= 0
    ensures DecimalsAtLeast18(markets) ==> Stranded(markets, s, a, k) <= 0
  {
    hide FillTotals, FillIdsKnown, Reserve, RemainingReserve, Sum, FindId;
    if a.CancelOrder? && Cancel(s, a.orderId, a.user).Ok? {
      CancelRefundExact(markets, s.orders[FindId(OrderIds(s.orders), a.orderId).value]);
    }
  }

  lemma CancelStepMovesDust(markets: Markets, s: State, orderId: string, user: Address, k: Key)
    ensures var t := OrElse(Cancel(s, orderId, user), s);
            && Dust(markets, t, k) == Dust(markets, s, k) + Stranded(markets, s, CancelOrder(orderId, user), k)
            && BuyFills(t, k) == BuyFills(s, k)
  {
    hide FindId, Dust;
    if Cancel(s, orderId, user).Ok? {
      CancelMovesDust(markets, s, orderId, user, k);
    }
  }

  lemma ExecuteKeepsDust(markets: Markets, s: State, execute: ExecuteInput, swapId: string, rebalanceId: string, k: Key)
    requires SpreadWithinBounds(execute)
    ensures var t := OrElse(BeginExecute(s, execute, swapId, rebalanceId), s);
            Dust(markets, t, k) == Dust(markets, s, k) && t.fills == s.fills
  {
    hide FindId, Sum;
    var quote := MakeQuote(execute);
    SumAppend(s.swaps, NewSwapJob(execute.swap.(quotedOut := quote.quotedOut, minOut := quote.minOut), swapId),
              PendingOn(k));
  }

  /**
    What an action does to the unaccounted part of one locked amount, whatever the
    decimals: a cancellation adds what it strands, and matching at most one unit
    for each fill the user buys.
   */
  lemma StepMovesDust(config: Config, s: State, a: Action, k: Key)
    requires Inv(config, s) && Enabled(s, a)
    ensures var t := Step(config, s, a);
            0 <= Dust(config.markets, t, k) - Dust(config.markets, s, k) - Stranded(config.markets, s, a, k)
              <= BuyFills(t, k) - BuyFills(s, k)
  {
    hide FindId, JobsInv, BookInv, AfterHealth, AfterSwap, PlaceAndMatch, BeginExecute, Cancel, Unrefunded;
    var markets := config.markets;
    match a
    case PlaceOrder(place, reference) => PlaceMovesDust(config, s, place, reference, k);
    case CancelOrder(orderId, user) => CancelStepMovesDust(markets, s, orderId, user, k);
    case ExecuteSwap(execute, swapId, rebalanceId) => ExecuteKeepsDust(markets, s, execute, swapId, rebalanceId, k);
    case FinishInstantFill(index, drift) =>
    case AbandonInstantFill(index) =>
    case StartTick =>
    case HealthAnswer(ready, canSubmit, routeable) =>
      WorkerHoldsLock(s);
      HealthKeepsDust(markets, s, ready, canSubmit, routeable, k);
    case ExchangeAnswer(answer) =>
      WorkerHoldsLock(s);
      AnswerKeepsDust(markets, s, answer, k);
  }

  // ----- What the worker does to available amounts -----

  /** A stretch of the worker that fails its job. */
  predicate Fails(s: State, a: Action)
    requires Enabled(s, a)
  {
    match a
    case HealthAnswer(ready, canSubmit, routeable) =>
      !ready || (s.rebalances[s.worker.next].state == L1Swap && (!canSubmit || !routeable))
    case ExchangeAnswer(answer) => answer.Threw?
    case _ => false
  }

  /** What failing a job gives back to an entry. */
  function Refunded(swaps: seq<SwapJob>, linked: Option<string>, k: Key): int {
    var partner := PartnerOf(swaps, linked);
    if partner.Some? && swaps[partner.value].LockKey() == k then swaps[partner.value].amountIn else 0
  }

  function GivenBack(s: State, a: Action, k: Key): int
    requires Enabled(s, a)
  {
    if Fails(s, a) then Refunded(s.swaps, s.rebalances[s.worker.next].linked, k) else 0
  }

  lemma FailGivesBack(s: State, jobId: string, linked: Option<string>, k: Key)
    ensures Fail(s, jobId, linked).Available(k) == s.Available(k) + Refunded(s.swaps, linked, k)
  {
    hide FindId;
  }

  lemma SettleGives(s: State, job: RebalanceJob, k: Key)
    ensures Settle(s, job).Available(k) >= s.Available(k)
  {
    hide FindId;
  }

  /** The worker takes nothing available, except where it gives back a negative amount. */
  lemma HealthMovesAvailable(s: State, ready: bool, canSubmit: bool, routeable: bool, k: Key)
    requires s.worker.AwaitingHealth? && s.worker.next < |s.rebalances|
    requires var job := s.rebalances[s.worker.next];
             job.linked.Some? ==> MarkSwapState(s, job.linked.value, job.state) == s
    ensures var a, t := HealthAnswer(ready, canSubmit, routeable), AfterHealth(s, ready, canSubmit, routeable);
            && t.Available(k) >= s.Available(k) + GivenBack(s, a, k)
            && (Fails(s, a) ==> t.Available(k) == s.Available(k) + GivenBack(s, a, k))
  {
    hide FindId, Fail, Settle, Refunded, UpdateRebalanceJob;
    var job := s.rebalances[s.worker.next];
    var idle := s.(worker := Idle);
    FailGivesBack(idle, job.id, job.linked, k);
    SettleGives(idle, job, k);
    assert job.linked.Some? ==> MarkSwapState(idle, job.linked.value, job.state) == idle;
  }

  lemma AnswerMovesAvailable(s: State, answer: SwapAnswer, k: Key)
    requires s.worker.AwaitingSwap? && s.worker.next < |s.rebalances|
    ensures AfterSwap(s, answer).Available(k) == s.Available(k) + GivenBack(s, ExchangeAnswer(answer), k)
  {
    hide FindId, Fail, Refunded, UpdateRebalanceJob, MarkSwapState;
    var job := s.rebalances[s.worker.next];
    FailGivesBack(s.(worker := Idle), job.id, job.linked, k);
  }
}
