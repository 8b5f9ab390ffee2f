/**
  The shared mutable store with the methods that update it in place, each proved
  to take the store's value through the matching step of the state machine.
 */
module MatcherStore {
  import opened AppState
  import opened DarkPool
  import opened Ledger
  import opened OrderBook
  import opened Outcome
  import opened SwapProtocol

  class Store {
    var balances: Bucket
    var locked: Bucket
    var orders: seq<Order>
    var swapJobs: seq<SwapJob>
    var rebalanceJobs: seq<RebalanceJob>
    var routerInventory: map<string, int>
    var worker: Worker
    ghost var fills: seq<Fill>
    ghost var intents: seq<Intent>
    ghost var events: seq<Event>

    ghost function Value(): State
      reads this
    {
      State(balances, locked, orders, fills, swapJobs, rebalanceJobs, routerInventory, intents, worker, events)
    }

    constructor ()
      ensures Initial(Value())
    {
      balances, locked := map[], map[];
      orders, swapJobs, rebalanceJobs, routerInventory, worker := [], [], [], map[], Idle;
      fills, intents, events := [], [], [];
    }

    // ----- matcher.ts -----

    method PlaceOrder(config: Config, input: PlaceInput, reference: nat) returns (r: Result<Order>)
      modifies this
      ensures Value() == PlaceAndMatch(config, old(Value()), input, reference)
      ensures var placed := Place(config.markets, old(Value()), input);
              if placed.Err? then r == Err(placed.message)
              else if MatchAll(TermsOf(config, input.marketId, reference), placed.value).halt == DivisionByZero then
                r == Err("Division by zero")
              else |Value().orders| > |old(orders)| && r == Ok(Value().orders[|old(orders)|])
    {
      if input.marketId !in config.markets {
        return Err("Market not found");
      }
      var market := config.markets[input.marketId];
      var reservedToken := ReservedToken(market, input.side);
      var reserved := InitialReserve(market, input.side, input.quantity, input.limitPrice);
      if reserved <= 0 {
        return Err("Order reserve must be positive");
      }
      var k := Key(input.user, reservedToken);
      var available := Get(balances, k);
      if available < reserved {
        return Err("Insufficient available balance in dark vault ledger");
      }
      QuantityPositive(market, input.side, input.quantity, input.limitPrice);
      balances := Add(balances, k, -reserved);
      locked := Add(locked, k, reserved);
      var order := Order(input.id, input.user, input.marketId, input.side, input.limitPrice, input.quantity,
                         input.quantity, reservedToken, reserved, Open, input.now);
      orders := orders + [order];
      var halt := TryMatch(TermsOf(config, input.marketId, reference));
      if halt == DivisionByZero {
        return Err("Division by zero");
      }
      r := Ok(orders[|orders| - 1]);
    }

    method CancelOrder(orderId: string, user: Address) returns (r: Result<Order>)
      modifies this
      ensures var cancelled := Cancel(old(Value()), orderId, user);
              && Value() == OrElse(cancelled, old(Value()))
              && (r.Ok? <==> cancelled.Ok?)
              && (r.Err? ==> r.message == cancelled.message)
              && (r.Ok? ==> r.value in orders && r.value.id == orderId && r.value.status == Cancelled)
    {
      hide FindId, Add, RemainingReserve;
      var found := FindId(OrderIds(orders), orderId);
      if found.None? {
        return Err("Order not found");
      }
      var order := orders[found.value];
      if order.user != user {
        return Err("Order owner mismatch");
      }
      if !order.Live() {
        return Err("Only open orders can be cancelled");
      }
      var refundable: int := RemainingReserve(order);
      locked := Add(locked, order.ReserveKey(), -refundable);
      balances := Add(balances, order.ReserveKey(), refundable);
      order := order.(status := Cancelled, remaining := 0);
      orders := orders[found.value := order];
      assert orders[found.value] == order;
      r := Ok(order);
    }

    /** Trades until nothing crosses, the price leaves the band, or the reference price is zero. */
    method TryMatch(terms: Terms) returns (halt: Halt)
      modifies this
      ensures MatchAll(terms, old(Value())) == Matched(Value(), halt)
      ensures |orders| == |old(orders)|
    {
      while true
        invariant MatchAll(terms, Value()) == MatchAll(terms, old(Value()))
        invariant |orders| == |old(orders)|
        decreases LiveCount(orders, terms.marketId)
      {
        ghost var before := Value();
        var buys := First(orders, terms.marketId, Buy);
        var sells := First(orders, terms.marketId, Sell);
        if buys.None? || sells.None? {
          return NothingToMatch;
        }
        var bestBuy, bestSell := orders[buys.value], orders[sells.value];
        if bestBuy.limitPrice < bestSell.limitPrice {
          return NotCrossing;
        }
        if terms.reference == 0 {
          return DivisionByZero;
        }
        if OutsideReferenceBand(terms, bestSell.limitPrice) {
          return OutsideBand;
        }
        MatchOnceRunsDown(terms, before);
        ExecuteTrade(terms.market, buys.value, sells.value);
      }
    }

    /** One pass of the loop: moves the locked amounts across and reduces both orders. */
    method ExecuteTrade(market: Market, buyIndex: nat, sellIndex: nat)
      requires buyIndex < |orders| && sellIndex < |orders|
      modifies this
      ensures Value() == Trade(market, old(Value()), buyIndex, sellIndex)
    {
      hide Add, Notional;
      var bestBuy, bestSell := orders[buyIndex], orders[sellIndex];
      var executionPrice := bestSell.limitPrice;
      var tradedBase: int := Traded(bestBuy, bestSell);
      var quoteCost: int := Notional(tradedBase, executionPrice, market.baseDecimals);
      var buyerReservedAtLimit: int := Notional(tradedBase, bestBuy.limitPrice, market.baseDecimals);
      var buyerRefund := buyerReservedAtLimit - quoteCost;

      locked := Add(locked, Key(bestBuy.user, market.quoteToken), -buyerReservedAtLimit);
      locked := Add(locked, Key(bestSell.user, market.baseToken), -tradedBase);
      balances := Add(balances, Key(bestBuy.user, market.baseToken), tradedBase);
      balances := Add(balances, Key(bestSell.user, market.quoteToken), quoteCost);
      if buyerRefund > 0 {
        balances := Add(balances, Key(bestBuy.user, market.quoteToken), buyerRefund);
      }
      orders := orders[buyIndex := Reduced(bestBuy, tradedBase)];
      orders := orders[sellIndex := Reduced(bestSell, tradedBase)];
      fills := fills + [Fill(bestBuy.id, bestSell.id, bestBuy.user, bestSell.user, market.baseToken,
                             market.quoteToken, tradedBase, executionPrice, quoteCost)];
    }

    // ----- inventory.ts -----

    method CreateAsyncSwapJob(input: SwapInput, swapId: string, rebalanceId: string) returns (r: Result<SwapJob>)
      modifies this
      ensures var created := SwapProtocol.CreateAsyncSwapJob(old(Value()), input, swapId, rebalanceId);
              && Value() == OrElse(created, old(Value()))
              && (created.Err? ==> r == Err(created.message))
              && (created.Ok? ==> r == Ok(NewSwapJob(input, swapId)))
    {
      var k := Key(input.user, input.fromToken);
      var amountIn := input.amountIn;
      if Get(balances, k) < amountIn {
        return Err("Insufficient available balance for async router swap");
      }
      balances := Add(balances, k, -amountIn);
      locked := Add(locked, k, amountIn);
      var job := NewSwapJob(input, swapId);
      swapJobs := swapJobs + [job];
      rebalanceJobs := rebalanceJobs + [NewRebalanceJob(input, swapId, rebalanceId)];
      r := Ok(job);
    }

    method EnqueueDriftJob(job: RebalanceJob)
      modifies this
      ensures Value() == SwapProtocol.EnqueueDriftJob(old(Value()), job)
    {
      rebalanceJobs := rebalanceJobs + [job.(linked := None, actualOut := None, state := Queued)];
    }

    method UpdateRebalanceJob(jobId: string, state: JobState, actualOut: Option<nat>)
      modifies this
      ensures Value() == SwapProtocol.UpdateRebalanceJob(old(Value()), jobId, state, actualOut)
    {
      var found := FindId(RebalanceIds(rebalanceJobs), jobId);
      if found.None? { return; }
      var job := rebalanceJobs[found.value];
      job := job.(state := state);
      if actualOut.Some? { job := job.(actualOut := actualOut); }
      rebalanceJobs := rebalanceJobs[found.value := job];
    }

    method MarkSwapState(jobId: string, state: JobState)
      modifies this
      ensures Value() == SwapProtocol.MarkSwapState(old(Value()), jobId, state)
    {
      var found := FindId(SwapIds(swapJobs), jobId);
      if found.None? { return; }
      swapJobs := swapJobs[found.value := swapJobs[found.value].(state := state)];
    }

    method SettleAsyncSwap(jobId: string, outAmount: nat)
      modifies this
      ensures Value() == SwapProtocol.SettleAsyncSwap(old(Value()), jobId, outAmount)
    {
      hide FindId, Add;
      var found := FindId(SwapIds(swapJobs), jobId);
      if found.None? { return; }
      var job := swapJobs[found.value];
      var amountIn := job.amountIn;
      locked := Add(locked, job.LockKey(), -amountIn);
      balances := Add(balances, Key(job.user, job.toToken), outAmount);
      swapJobs := swapJobs[found.value := job.(state := Completed, quotedOut := outAmount)];
      events := events + [Payout(job.id, job.user, job.fromToken, job.amountIn, job.toToken, outAmount)];
    }

    method FailSwap(jobId: string)
      modifies this
      ensures Value() == SwapProtocol.FailSwap(old(Value()), jobId)
    {
      hide FindId, Add;
      var found := FindId(SwapIds(swapJobs), jobId);
      if found.None? { return; }
      var job := swapJobs[found.value];
      var amountIn := job.amountIn;
      locked := Add(locked, job.LockKey(), -amountIn);
      balances := Add(balances, job.LockKey(), amountIn);
      swapJobs := swapJobs[found.value := job.(state := Failed)];
      events := events + [Refund(job.id, job.user, job.fromToken, job.amountIn)];
    }

    method SettleRebalanceInventory(jobId: string)
      modifies this
      ensures Value() == SwapProtocol.SettleRebalanceInventory(old(Value()), jobId)
    {
      var found := FindId(RebalanceIds(rebalanceJobs), jobId);
      if found.None? { return; }
      var job := rebalanceJobs[found.value];
      var amountIn := job.amountIn;
      routerInventory := AddInventory(routerInventory, job.inputSymbol, -amountIn);
      routerInventory := AddInventory(routerInventory, job.outputSymbol, SettledOut(job));
      rebalanceJobs := rebalanceJobs[found.value := job.(state := Completed)];
    }

    // ----- router.ts -----

    /** What `execute` does once the vault has settled an instant fill. */
    method FinishInstantFill(intent: Intent, drift: Option<RebalanceJob>, ghost index: nat)
      requires index < |intents| && intents[index] == intent
      modifies this
      ensures Value() == FinishFill(old(Value()), index, drift)
    {
      hide Add, AddInventory;
      var amountIn := intent.amountIn;
      var minOut: int := intent.minOut;
      balances := Add(balances, Key(intent.user, intent.fromToken), -amountIn);
      balances := Add(balances, Key(intent.user, intent.toToken), minOut);
      routerInventory := AddInventory(routerInventory, intent.fromSymbol, amountIn);
      routerInventory := AddInventory(routerInventory, intent.toSymbol, -minOut);
      intents := intents[..index] + intents[index + 1..];
      events := events + [Instant(intent)];
      if drift.Some? {
        EnqueueDriftJob(drift.value);
      }
    }

    // ----- rebalanceWorker.ts -----

    method Advance(jobId: string, state: JobState, linked: Option<string>)
      modifies this
      ensures Value() == SwapProtocol.Advance(old(Value()), jobId, state, linked)
    {
      UpdateRebalanceJob(jobId, state, None);
      if linked.Some? {
        MarkSwapState(linked.value, state);
      }
    }

    method Fail(jobId: string, linked: Option<string>)
      modifies this
      ensures Value() == SwapProtocol.Fail(old(Value()), jobId, linked)
    {
      UpdateRebalanceJob(jobId, Failed, None);
      if linked.Some? {
        FailSwap(linked.value);
      }
    }

    method BeginTick()
      requires worker.Idle?
      modifies this
      ensures Value() == SwapProtocol.BeginTick(old(Value()))
    {
      var next := NextJob(rebalanceJobs);
      if next.Some? {
        worker := AwaitingHealth(next.value);
      }
    }

    method AfterHealth(ready: bool, canSubmit: bool, routeable: bool)
      requires worker.AwaitingHealth? && worker.next < |rebalanceJobs|
      modifies this
      ensures Value() == SwapProtocol.AfterHealth(old(Value()), ready, canSubmit, routeable)
    {
      var index := worker.next;
      var next := rebalanceJobs[index];
      worker := Idle;
      if !ready {
        Fail(next.id, next.linked);
        return;
      }
      if next.linked.Some? {
        MarkSwapState(next.linked.value, next.state);
      }
      match next.state
      case Queued => Advance(next.id, BridgingOut, next.linked);
      case BridgingOut => Advance(next.id, L1Swap, next.linked);
      case L1Swap =>
        if !canSubmit || !routeable {
          Fail(next.id, next.linked);
        } else {
          worker := AwaitingSwap(index);
        }
      case SettlingBack =>
        SettleRebalanceInventory(next.id);
        if next.linked.Some? {
          SettleAsyncSwap(next.linked.value, SettledOut(next));
        }
      case _ =>
    }

    method AfterSwap(answer: SwapAnswer)
      requires worker.AwaitingSwap? && worker.next < |rebalanceJobs|
      modifies this
      ensures Value() == SwapProtocol.AfterSwap(old(Value()), answer)
    {
      var next := rebalanceJobs[worker.next];
      worker := Idle;
      match answer
      case Threw => Fail(next.id, next.linked);
      case Returned(_, _, _) =>
        UpdateRebalanceJob(next.id, SettlingBack, Some(ExchangedOut(next, answer)));
        if next.linked.Some? {
          MarkSwapState(next.linked.value, SettlingBack);
        }
    }
  }
}
