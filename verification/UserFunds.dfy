/**
  Whose funds move: the account of one user in one token, over any run, is what
  that user's own fills, payouts and instant fills brought and took.
 */
module UserFunds {
  import opened AppState
  import opened DarkPool
  import opened Ledger
  import opened OrderBook
  import opened Outcome
  import opened Reserves
  import opened Router
  import opened Sums
  import opened SwapProtocol

  /** Available plus locked. */
  function FundsOf(s: State, k: Key): int {
    s.Available(k) + s.Locked(k)
  }

  function When(user: Address, token: Address, k: Key, amount: int): int {
    if Key(user, token) == k then amount else 0
  }

  /** The buyer gets the base and pays the cost; the seller gives the base and gets the cost. */
  function TradedBy(k: Key): Fill -> int {
    (f: Fill) => When(f.buyer, f.baseToken, k, f.base) - When(f.seller, f.baseToken, k, f.base)
                 + When(f.seller, f.quoteToken, k, f.cost) - When(f.buyer, f.quoteToken, k, f.cost)
  }

  /** A payout or an instant fill takes the input token from its user and gives the output token to the same user. */
  function SwappedBy(k: Key): Event -> int {
    (e: Event) =>
      match e
      case Payout(_, user, fromToken, amountIn, toToken, amountOut) =>
        When(user, toToken, k, amountOut) - When(user, fromToken, k, amountIn)
      case Refund(_, _, _, _) => 0
      case Instant(intent) =>
        When(intent.user, intent.toToken, k, intent.minOut) - When(intent.user, intent.fromToken, k, intent.amountIn)
  }

  /** The part of a user's funds that neither fills nor events account for. */
  function Untraded(s: State, k: Key): int {
    FundsOf(s, k) - Sum(s.fills, TradedBy(k)) - Sum(s.events, SwappedBy(k))
  }

  /** What a trade takes from the locked amounts, at the buyer's limit. */
  lemma TradeUnlocks(market: Market, s: State, b: nat, a: nat, k: Key)
    requires b < |s.orders| && a < |s.orders|
    ensures var f := Trade(market, s, b, a).fills[|s.fills|];
            Trade(market, s, b, a).Locked(k) == s.Locked(k)
              - When(f.buyer, f.quoteToken, k, Notional(f.base, s.orders[b].limitPrice, market.baseDecimals))
              - When(f.seller, f.baseToken, k, f.base)
  {
  }

  /** What it adds to the available ones: the bought amounts, and what the buyer had locked beyond the cost. */
  lemma TradeCreditsBoth(market: Market, s: State, b: nat, a: nat, k: Key)
    requires b < |s.orders| && a < |s.orders| && s.orders[b].limitPrice >= s.orders[a].limitPrice
    ensures var f := Trade(market, s, b, a).fills[|s.fills|];
            Trade(market, s, b, a).Available(k) == s.Available(k)
              + When(f.buyer, f.baseToken, k, f.base) + When(f.seller, f.quoteToken, k, f.cost)
              + When(f.buyer, f.quoteToken, k,
                     Notional(f.base, s.orders[b].limitPrice, market.baseDecimals) - f.cost)
  {
    hide Notional, Reduced;
    var f := Trade(market, s, b, a).fills[|s.fills|];
    NotionalMonotone(f.base, s.orders[a].limitPrice, s.orders[b].limitPrice, market.baseDecimals);
  }

  lemma TradeIsAccounted(terms: Terms, s: State, b: nat, a: nat, k: Key)
    requires b < |s.orders| && a < |s.orders| && s.orders[b].limitPrice >= s.orders[a].limitPrice
    ensures Untraded(Trade(terms.market, s, b, a), k) == Untraded(s, k)
  {
    hide Notional, Reduced, Add, Get, Sum;
    TradeUnlocks(terms.market, s, b, a, k);
    TradeCreditsBoth(terms.market, s, b, a, k);
    SumAppend(s.fills, Trade(terms.market, s, b, a).fills[|s.fills|], TradedBy(k));
  }

  lemma {:induction false} MatchAllIsAccounted(terms: Terms, s: State, k: Key)
    ensures Untraded(MatchAll(terms, s).state, k) == Untraded(s, k)
    decreases LiveCount(s.orders, terms.marketId)
  {
    hide Trade, Untraded;
    if HaltReason(terms, s.orders).None? {
      TradeIsAccounted(terms, s, First(s.orders, terms.marketId, Buy).value,
                       First(s.orders, terms.marketId, Sell).value, k);
      MatchOnceRunsDown(terms, s);
      MatchAllIsAccounted(terms, MatchOnce(terms, s), k);
    }
  }

  lemma PlaceIsAccounted(config: Config, s: State, place: PlaceInput, reference: nat, k: Key)
    ensures Untraded(PlaceAndMatch(config, s, place, reference), k) == Untraded(s, k)
  {
    hide MatchAll;
    var placed := Place(config.markets, s, place);
    if placed.Ok? {
      MatchAllIsAccounted(TermsOf(config, place.marketId, reference), placed.value, k);
    }
  }

  lemma SettleIsAccounted(s: State, id: string, amountOut: nat, k: Key)
    ensures Untraded(SettleAsyncSwap(s, id, amountOut), k) == Untraded(s, k)
  {
    var t := SettleAsyncSwap(s, id, amountOut);
    if t != s { SumAppend(s.events, t.events[|s.events|], SwappedBy(k)); }
  }

  lemma FailIsAccounted(s: State, id: string, k: Key)
    ensures Untraded(FailSwap(s, id), k) == Untraded(s, k)
  {
  }

  lemma WorkerIsAccounted(s: State, job: RebalanceJob, k: Key)
    ensures Untraded(Fail(s, job.id, job.linked), k) == Untraded(s, k)
    ensures Untraded(Settle(s, job), k) == Untraded(s, k)
  {
    if job.linked.Some? {
      FailIsAccounted(UpdateRebalanceJob(s, job.id, Failed, None), job.linked.value, k);
      SettleIsAccounted(SettleRebalanceInventory(s, job.id), job.linked.value, SettledOut(job), k);
    }
  }

  lemma HealthIsAccounted(s: State, ready: bool, canSubmit: bool, routeable: bool, k: Key)
    requires s.worker.AwaitingHealth? && s.worker.next < |s.rebalances|
    ensures Untraded(AfterHealth(s, ready, canSubmit, routeable), k) == Untraded(s, k)
  {
    hide Settle, Fail, FindId, Sum, UpdateRebalanceJob;
    var job := s.rebalances[s.worker.next];
    var idle := s.(worker := Idle);
    WorkerIsAccounted(idle, job, k);
    WorkerIsAccounted(Remark(idle, job), job, k);
  }

  lemma AnswerIsAccounted(s: State, answer: SwapAnswer, k: Key)
    requires s.worker.AwaitingSwap? && s.worker.next < |s.rebalances|
    ensures Untraded(AfterSwap(s, answer), k) == Untraded(s, k)
  {
    hide Settle, Fail;
    WorkerIsAccounted(s.(worker := Idle), s.rebalances[s.worker.next], k);
  }

  lemma CreateIsAccounted(s: State, input: SwapInput, swapId: string, rebalanceId: string, k: Key)
    ensures Untraded(OrElse(CreateAsyncSwapJob(s, input, swapId, rebalanceId), s), k) == Untraded(s, k)
  {
  }

  lemma RequestIsAccounted(s: State, execute: ExecuteInput, swapId: string, rebalanceId: string, k: Key)
    requires SpreadWithinBounds(execute)
    ensures Untraded(OrElse(BeginExecute(s, execute, swapId, rebalanceId), s), k) == Untraded(s, k)
  {
    hide CreateAsyncSwapJob, MakeQuote, Sum, Add, Get;
    var quote := MakeQuote(execute);
    CreateIsAccounted(s, execute.swap.(quotedOut := quote.quotedOut, minOut := quote.minOut), swapId, rebalanceId, k);
  }

  lemma InstantIsAccounted(s: State, index: nat, drift: Option<RebalanceJob>, k: Key)
    requires index < |s.intents|
    ensures Untraded(FinishFill(s, index, drift), k) == Untraded(s, k)
  {
    SumAppend(s.events, Instant(s.intents[index]), SwappedBy(k));
  }

  lemma StepIsAccounted(config: Config, s: State, a: Action, k: Key)
    requires Enabled(s, a)
    ensures Untraded(Step(config, s, a), k) == Untraded(s, k)
  {
    hide FindId, AfterHealth, AfterSwap, PlaceAndMatch, BeginExecute, FinishFill;
    match a
    case PlaceOrder(place, reference) => PlaceIsAccounted(config, s, place, reference, k);
    case CancelOrder(orderId, user) =>
    case ExecuteSwap(execute, swapId, rebalanceId) => RequestIsAccounted(s, execute, swapId, rebalanceId, k);
    case FinishInstantFill(index, drift) => InstantIsAccounted(s, index, drift, k);
    case AbandonInstantFill(index) =>
    case StartTick =>
    case HealthAnswer(ready, canSubmit, routeable) => HealthIsAccounted(s, ready, canSubmit, routeable, k);
    case ExchangeAnswer(answer) => AnswerIsAccounted(s, answer, k);
  }

  /**
    Over any run a user's funds of a token change by exactly what the user's own
    fills, payouts and instant fills brought and took: nobody else's do, and
    placing, cancelling, locking and refunding change nothing.
   */
  lemma {:induction false} RunIsAccounted(config: Config, s: State, actions: seq<Action>, k: Key)
    requires ValidRun(config, s, actions)
    ensures var t := Run(config, s, actions);
            FundsOf(t, k) - FundsOf(s, k) ==
              (Sum(t.fills, TradedBy(k)) - Sum(s.fills, TradedBy(k))) +
              (Sum(t.events, SwappedBy(k)) - Sum(s.events, SwappedBy(k)))
    decreases |actions|
  {
    hide Step;
    if |actions| > 0 {
      StepIsAccounted(config, s, actions[0], k);
      RunIsAccounted(config, Step(config, s, actions[0]), actions[1..], k);
    }
  }
}
