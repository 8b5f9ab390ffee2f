/** What holds after every run of the matcher, whatever the interleaving. */
module DarkPoolRuns {
  import opened AppState
  import opened DarkPool
  import opened Ledger
  import opened OrderBook
  import opened Outcome
  import opened Reserves
  import opened Router
  import opened Sums
  import opened SwapProtocol
  import opened SwapSafety

  lemma InitialInv(config: Config, s: State)
    requires Initial(s)
    ensures Inv(config, s)
  {
  }

  // ----- Locked amounts -----

  /** What all the cancellations of a run leave locked beyond what their orders needed. */
  function RunStranded(config: Config, s: State, actions: seq<Action>, k: Key): int
    requires ValidRun(config, s, actions)
    decreases |actions|
  {
    if |actions| == 0 then 0
    else
      Stranded(config.markets, s, actions[0], k) +
      RunStranded(config, Step(config, s, actions[0]), actions[1..], k)
  }

  /** Over a run dust grows by what cancellations strand, and by at most one unit for each fill the user buys. */
  lemma {:induction false} RunMovesDust(config: Config, s: State, actions: seq<Action>, k: Key)
    requires Inv(config, s) && ValidRun(config, s, actions)
    ensures var t := Run(config, s, actions);
            0 <= Dust(config.markets, t, k) - Dust(config.markets, s, k) - RunStranded(config, s, actions, k)
              <= BuyFills(t, k) - BuyFills(s, k)
    decreases |actions|
  {
    hide Step, Inv, Dust, BuyFills, Stranded;
    if |actions| > 0 {
      StepKeepsInv(config, s, actions[0]);
      StepMovesDust(config, s, actions[0], k);
      RunMovesDust(config, Step(config, s, actions[0]), actions[1..], k);
    }
  }

  lemma {:induction false} RunStrandedSign(config: Config, s: State, actions: seq<Action>, k: Key)
    requires Inv(config, s) && ValidRun(config, s, actions)
    ensures DecimalsAtMost18(config.markets) ==> RunStranded(config, s, actions, k) >= 0
    ensures DecimalsAtLeast18(config.markets) ==> RunStranded(config, s, actions, k) <= 0
    decreases |actions|
  {
    hide Step, BookInv, JobsInv, Stranded, DecimalsAtMost18, DecimalsAtLeast18;
    if |actions| > 0 {
      StepKeepsInv(config, s, actions[0]);
      StrandedSign(config.markets, s, actions[0], k);
      RunStrandedSign(config, Step(config, s, actions[0]), actions[1..], k);
    }
  }

  /**
    In every reachable state each locked amount is what the live orders and the
    unfinished swaps need, plus what cancellations have stranded, plus at most one
    unit for each fill the user has bought with that token. Cancellations strand
    nothing negative when base tokens have at most 18 decimals, and nothing
    positive when they have at least 18.
   */
  lemma {:induction false} LockedIsAccountedFor(config: Config, s0: State, actions: seq<Action>, k: Key)
    requires Initial(s0) && ValidRun(config, s0, actions)
    ensures var s := Run(config, s0, actions);
            var needed := Sum(s.orders, ReserveOn(config.markets, k)) + Sum(s.swaps, PendingOn(k));
            var stranded := RunStranded(config, s0, actions, k);
            && Sum(s.orders, ReserveOn(config.markets, k)) >= 0
            && needed + stranded <= s.Locked(k) <= needed + stranded + BuyFills(s, k)
            && (DecimalsAtMost18(config.markets) ==> stranded >= 0)
            && (DecimalsAtLeast18(config.markets) ==> stranded <= 0)
  {
    hide Run, RunStranded, DecimalsAtMost18, DecimalsAtLeast18, Inv;
    InitialInv(config, s0);
    RunMovesDust(config, s0, actions, k);
    RunStrandedSign(config, s0, actions, k);
    SumNonNegative(Run(config, s0, actions).orders, ReserveOn(config.markets, k));
  }

  // ----- Requests of negative amounts -----

  /** Every swap ever asked for has an amount that is not negative; the service does not look. */
  ghost predicate AmountsNonNegative(s: State) {
    && (forall job :: job in s.swaps ==> job.amountIn >= 0)
    && (forall intent :: intent in s.intents ==> intent.amountIn >= 0)
  }

  predicate RequestNonNegative(a: Action) {
    a.ExecuteSwap? ==> a.execute.swap.amountIn >= 0
  }

  ghost predicate RequestsNonNegative(actions: seq<Action>) {
    forall a :: a in actions ==> RequestNonNegative(a)
  }

  /** The swap jobs are the same but for their progress. */
  ghost predicate SameAmounts(before: seq<SwapJob>, after: seq<SwapJob>) {
    |before| == |after| && forall i :: 0 <= i < |before| ==> after[i].amountIn == before[i].amountIn
  }

  lemma WorkerKeepsAmounts(s: State, a: Action)
    requires JobsInv(s) && Enabled(s, a) && (a.HealthAnswer? || a.ExchangeAnswer?)
    ensures var t := if a.HealthAnswer? then AfterHealth(s, a.ready, a.canSubmit, a.routeable)
                     else AfterSwap(s, a.answer);
            SameAmounts(s.swaps, t.swaps) && t.intents == s.intents
  {
    hide JobsInv, AfterHealth, AfterSwap, FindId;
    if a.HealthAnswer? {
      AfterHealthKeepsJobs(s, a.ready, a.canSubmit, a.routeable);
    } else {
      AfterSwapKeepsJobs(s, a.answer);
    }
  }

  lemma StepKeepsAmounts(config: Config, s: State, a: Action)
    requires Inv(config, s) && Enabled(s, a) && AmountsNonNegative(s) && RequestNonNegative(a)
    ensures AmountsNonNegative(Step(config, s, a))
  {
    hide FindId, JobsInv, BookInv, AfterHealth, AfterSwap, PlaceAndMatch, Cancel, BeginExecute, FinishFill;
    var t := Step(config, s, a);
    match a
    case PlaceOrder(place, reference) =>
      PlaceLeavesJobs(config, s, place, reference);
    case CancelOrder(orderId, user) => CancelLeavesJobs(s, orderId, user);
    case ExecuteSwap(execute, swapId, rebalanceId) => RequestKeepsAmounts(s, execute, swapId, rebalanceId);
    case FinishInstantFill(index, drift) => FinishKeepsAmounts(s, index, drift);
    case HealthAnswer(_, _, _) =>
      WorkerKeepsAmounts(s, a);
      SameAmountsNonNegative(s.swaps, t.swaps);
    case ExchangeAnswer(_) =>
      WorkerKeepsAmounts(s, a);
      SameAmountsNonNegative(s.swaps, t.swaps);
    case _ =>
  }

  lemma RequestKeepsAmounts(s: State, execute: ExecuteInput, swapId: string, rebalanceId: string)
    requires SpreadWithinBounds(execute) && AmountsNonNegative(s) && execute.swap.amountIn >= 0
    ensures AmountsNonNegative(OrElse(BeginExecute(s, execute, swapId, rebalanceId), s))
  {
    hide MakeQuote, Add, Get;
  }

  lemma FinishKeepsAmounts(s: State, index: nat, drift: Option<RebalanceJob>)
    requires index < |s.intents| && AmountsNonNegative(s)
    ensures AmountsNonNegative(FinishFill(s, index, drift))
  {
    hide Add, AddInventory;
  }

  lemma SameAmountsNonNegative(before: seq<SwapJob>, after: seq<SwapJob>)
    requires SameAmounts(before, after) && forall job :: job in before ==> job.amountIn >= 0
    ensures forall job :: job in after ==> job.amountIn >= 0
  {
    forall i | 0 <= i < |after| ensures after[i].amountIn >= 0 {
      assert before[i] in before;
    }
  }

  lemma PlaceLeavesJobs(config: Config, s: State, place: PlaceInput, reference: nat)
    requires BookInv(config.markets, s) && Enabled(s, PlaceOrder(place, reference))
    ensures var t := PlaceAndMatch(config, s, place, reference); t.swaps == s.swaps && t.intents == s.intents
  {
    hide MatchAll, BookInv, Dust, BuyFills;
    var placed := Place(config.markets, s, place);
    if placed.Ok? {
      PlaceKeepsBook(config.markets, s, place);
      MatchAllKeepsBook(config.markets, TermsOf(config, place.marketId, reference), placed.value,
                        Key(place.user, place.marketId));
    }
  }

  lemma CancelLeavesJobs(s: State, orderId: string, user: Address)
    ensures var t := OrElse(Cancel(s, orderId, user), s); t.swaps == s.swaps && t.intents == s.intents
  {
  }

  lemma {:induction false} RunKeepsAmounts(config: Config, s: State, actions: seq<Action>)
    requires Inv(config, s) && ValidRun(config, s, actions) && AmountsNonNegative(s) && RequestsNonNegative(actions)
    ensures AmountsNonNegative(Run(config, s, actions))
    decreases |actions|
  {
    hide Step, Inv, AmountsNonNegative, RequestNonNegative;
    if |actions| > 0 {
      StepKeepsInv(config, s, actions[0]);
      StepKeepsAmounts(config, s, actions[0]);
      RunKeepsAmounts(config, Step(config, s, actions[0]), actions[1..]);
    }
  }

  /** With base tokens of at most 18 decimals and no negative requests, no run makes a locked amount negative. */
  lemma {:induction false} LockedIsNonNegative(config: Config, s0: State, actions: seq<Action>, k: Key)
    requires Initial(s0) && ValidRun(config, s0, actions)
    requires DecimalsAtMost18(config.markets) && RequestsNonNegative(actions)
    ensures Run(config, s0, actions).Locked(k) >= 0
  {
    hide Run, RunStranded, DecimalsAtMost18, RequestsNonNegative, Inv;
    InitialInv(config, s0);
    LockedIsAccountedFor(config, s0, actions, k);
    RunKeepsAmounts(config, s0, actions);
    SumNonNegative(Run(config, s0, actions).swaps, PendingOn(k));
  }

  /** A request handed to the asynchronous protocol keeps locked amounts non-negative exactly when its amount does. */
  lemma RequestMovesLocked(s: State, input: SwapInput, swapId: string, rebalanceId: string)
    requires CreateAsyncSwapJob(s, input, swapId, rebalanceId).Ok? && forall k :: s.Locked(k) >= 0
    ensures var t := CreateAsyncSwapJob(s, input, swapId, rebalanceId).value;
            (forall k :: t.Locked(k) >= 0) <==> s.Locked(Key(input.user, input.fromToken)) + input.amountIn >= 0
  {
    hide Get, Add;
    var t := CreateAsyncSwapJob(s, input, swapId, rebalanceId).value;
    var from := Key(input.user, input.fromToken);
    assert forall k :: t.Locked(k) == s.Locked(k) + if k == from then input.amountIn else 0;
    assert t.Locked(from) == s.Locked(from) + input.amountIn;
  }

  /** A request of a negative amount is accepted and locks a negative amount. */
  lemma NegativeRequestLocksNegative(config: Config)
    ensures exists s, a :: Initial(s) && Enabled(s, a) && exists k :: Step(config, s, a).Locked(k) < 0
  {
    var k := Key("u", "a");
    var s := State(map[], map[], [], [], [], [], map[], [], Idle, []);
    var swap := SwapInput("u", "m", "a", "b", "A", "B", -5, 0, 0);
    var a := ExecuteSwap(ExecuteInput(swap, Dex, true, true, 0, 0, 0, 0, true), "s", "r");
    assert Initial(s) && Enabled(s, a);
    assert Step(config, s, a).Locked(k) == -5;
  }

  // ----- What an order pays or receives -----

  /** Over all its fills a buy order pays at most the value of what it bought at its own limit. */
  lemma {:induction false} BuyerPaysWithinLimit(config: Config, s0: State, actions: seq<Action>, i: nat)
    requires Initial(s0) && ValidRun(config, s0, actions)
    ensures var s := Run(config, s0, actions);
            i < |s.orders| && s.orders[i].side == Buy && s.orders[i].marketId in config.markets ==>
              var o := s.orders[i];
              var bought := Sum(s.fills, BaseTraded(Buy, o.id));
              && 0 <= bought <= o.quantity
              && (o.status != Cancelled ==> bought == o.quantity - o.remaining)
              && Sum(s.fills, QuoteTraded(Buy, o.id)) <=
                 Notional(bought, o.limitPrice, config.markets[o.marketId].baseDecimals)
  {
    InitialInv(config, s0);
    RunKeepsInv(config, s0, actions);
  }

  /** A sell order receives that value at its own limit, short of at most one unit per fill after the first. */
  lemma {:induction false} SellerReceivesLimit(config: Config, s0: State, actions: seq<Action>, i: nat)
    requires Initial(s0) && ValidRun(config, s0, actions)
    ensures var s := Run(config, s0, actions);
            i < |s.orders| && s.orders[i].side == Sell && s.orders[i].marketId in config.markets ==>
              var o := s.orders[i];
              var sold := Sum(s.fills, BaseTraded(Sell, o.id));
              var received := Sum(s.fills, QuoteTraded(Sell, o.id));
              var fills := Sum(s.fills, TradeCount(Sell, o.id));
              && 0 <= sold <= o.quantity
              && (o.status != Cancelled ==> sold == o.quantity - o.remaining)
              && var value := Notional(sold, o.limitPrice, config.markets[o.marketId].baseDecimals);
                 && received <= value
                 && (fills >= 1 ==> received >= value - (fills - 1))
  {
    InitialInv(config, s0);
    RunKeepsInv(config, s0, actions);
  }

  // ----- Available amounts -----

  /**
    The balance covers what the action takes from it: an instant fill at the moment
    it is debited, or the refund of a negative amount.
   */
  predicate Covered(s: State, a: Action)
    requires Enabled(s, a)
  {
    if a.FinishInstantFill? then DebitIsCovered(s, s.intents[a.index])
    else if a.HealthAnswer? || a.ExchangeAnswer? then
      Fails(s, a) ==> RefundIsCovered(s, s.rebalances[s.worker.next].linked)
    else true
  }

  predicate DebitIsCovered(s: State, intent: Intent) {
    var returned := if intent.toToken == intent.fromToken then intent.minOut else 0;
    intent.amountIn <= s.Available(Key(intent.user, intent.fromToken)) + returned
  }

  predicate RefundIsCovered(s: State, linked: Option<string>) {
    var partner := PartnerOf(s.swaps, linked);
    partner.Some? ==> s.Available(s.swaps[partner.value].LockKey()) + s.swaps[partner.value].amountIn >= 0
  }

  /** An action keeps every available amount non-negative exactly when it is covered. */
  lemma StepKeepsAvailable(config: Config, s: State, a: Action)
    requires Inv(config, s) && Enabled(s, a) && AvailableNonNegative(s)
    ensures AvailableNonNegative(Step(config, s, a)) <==> Covered(s, a)
  {
    hide FindId, JobsInv, BookInv, AfterHealth, AfterSwap, PlaceAndMatch, BeginExecute, Cancel, Get;
    var t := Step(config, s, a);
    if a.FinishInstantFill? {
      FinishMovesAvailable(s, a.index, a.drift);
    } else if a.HealthAnswer? || a.ExchangeAnswer? {
      WorkerMovesAvailable(config, s, a);
    } else {
      forall k ensures t.Available(k) >= 0 {
        OtherStepsKeepAvailable(config, s, a, k);
      }
    }
  }

  lemma FinishMovesAvailable(s: State, index: nat, drift: Option<RebalanceJob>)
    requires Enabled(s, FinishInstantFill(index, drift)) && AvailableNonNegative(s)
    ensures AvailableNonNegative(FinishFill(s, index, drift)) <==> Covered(s, FinishInstantFill(index, drift))
  {
    var t := FinishFill(s, index, drift);
    var intent := s.intents[index];
    forall k ensures t.Available(k) == s.Available(k) + InstantDelta(intent, k) {
      InstantMovesAvailable(s, index, k);
    }
    var from := Key(intent.user, intent.fromToken);
    assert t.Available(from) == s.Available(from) + InstantDelta(intent, from);
  }

  lemma WorkerMovesAvailable(config: Config, s: State, a: Action)
    requires Inv(config, s) && Enabled(s, a) && AvailableNonNegative(s) && (a.HealthAnswer? || a.ExchangeAnswer?)
    ensures AvailableNonNegative(Step(config, s, a)) <==> Covered(s, a)
  {
    hide FindId, BookInv, JobsInv, AfterHealth, AfterSwap, Get;
    var t := Step(config, s, a);
    WorkerHoldsLock(s);
    forall k
      ensures t.Available(k) >= s.Available(k) + GivenBack(s, a, k)
      ensures Fails(s, a) ==> t.Available(k) == s.Available(k) + GivenBack(s, a, k)
    {
      match a
      case HealthAnswer(ready, canSubmit, routeable) => HealthMovesAvailable(s, ready, canSubmit, routeable, k);
      case ExchangeAnswer(answer) => AnswerMovesAvailable(s, answer, k);
    }
    if Fails(s, a) {
      var partner := PartnerOf(s.swaps, s.rebalances[s.worker.next].linked);
      if partner.Some? {
        var k := s.swaps[partner.value].LockKey();
        assert t.Available(k) == s.Available(k) + s.swaps[partner.value].amountIn;
      }
    }
  }

  function InstantDelta(intent: Intent, k: Key): int {
    (if k == Key(intent.user, intent.toToken) then intent.minOut else 0) -
    (if k == Key(intent.user, intent.fromToken) then intent.amountIn else 0)
  }

  lemma InstantMovesAvailable(s: State, index: nat, k: Key)
    requires index < |s.intents|
    ensures FinishInstant(s, index).Available(k) == s.Available(k) + InstantDelta(s.intents[index], k)
  {
  }

  lemma PlaceKeepsAvailable(config: Config, s: State, place: PlaceInput, reference: nat, k: Key)
    requires BookInv(config.markets, s) && Enabled(s, PlaceOrder(place, reference)) && s.Available(k) >= 0
    ensures PlaceAndMatch(config, s, place, reference).Available(k) >= 0
  {
    hide MatchAll, BookInv, Dust, BuyFills;
    var placed := Place(config.markets, s, place);
    if placed.Ok? {
      PlaceKeepsBook(config.markets, s, place);
      MatchAllKeepsBook(config.markets, TermsOf(config, place.marketId, reference), placed.value, k);
    }
  }

  lemma CancelKeepsAvailable(s: State, orderId: string, user: Address, k: Key)
    ensures OrElse(Cancel(s, orderId, user), s).Available(k) >= s.Available(k)
  {
    hide FindId;
  }

  lemma RequestKeepsAvailable(s: State, execute: ExecuteInput, swapId: string, rebalanceId: string, k: Key)
    requires SpreadWithinBounds(execute) && s.Available(k) >= 0
    ensures OrElse(BeginExecute(s, execute, swapId, rebalanceId), s).Available(k) >= 0
  {
    hide MakeQuote;
  }

  lemma OtherStepsKeepAvailable(config: Config, s: State, a: Action, k: Key)
    requires Inv(config, s) && Enabled(s, a) && s.Available(k) >= 0
    requires !a.FinishInstantFill? && !a.HealthAnswer? && !a.ExchangeAnswer?
    ensures Step(config, s, a).Available(k) >= 0
  {
    hide FindId, JobsInv, BookInv, PlaceAndMatch, BeginExecute, Cancel;
    match a
    case PlaceOrder(place, reference) => PlaceKeepsAvailable(config, s, place, reference, k);
    case CancelOrder(orderId, user) => CancelKeepsAvailable(s, orderId, user, k);
    case ExecuteSwap(execute, swapId, rebalanceId) => RequestKeepsAvailable(s, execute, swapId, rebalanceId, k);
    case _ =>
  }

  /** Every action of the run is covered when it comes. */
  predicate CoveredRun(config: Config, s: State, actions: seq<Action>)
    requires ValidRun(config, s, actions)
    decreases |actions|
  {
    |actions| == 0 || (Covered(s, actions[0]) && CoveredRun(config, Step(config, s, actions[0]), actions[1..]))
  }

  /** After its first n actions a run has left no available amount negative. */
  ghost predicate NonNegativeAfter(config: Config, s: State, actions: seq<Action>, n: nat)
    requires n <= |actions|
  {
    ValidRun(config, s, actions[..n]) && AvailableNonNegative(Run(config, s, actions[..n]))
  }

  lemma {:induction false} PrefixAfterStep(config: Config, s: State, actions: seq<Action>, n: nat)
    requires ValidRun(config, s, actions) && 0 < n <= |actions|
    ensures NonNegativeAfter(config, s, actions, n) <==>
            NonNegativeAfter(config, Step(config, s, actions[0]), actions[1..], n - 1)
  {
    hide Step, AvailableNonNegative;
    assert actions[..n][0] == actions[0] && actions[..n][1..] == actions[1..][..n - 1];
  }

  /** A run leaves every available amount non-negative all along exactly when each of its actions is covered. */
  lemma {:induction false} RunKeepsAvailable(config: Config, s: State, actions: seq<Action>)
    requires Inv(config, s) && AvailableNonNegative(s) && ValidRun(config, s, actions)
    ensures CoveredRun(config, s, actions) <==>
            forall n :: 0 <= n <= |actions| ==> NonNegativeAfter(config, s, actions, n)
    decreases |actions|
  {
    hide Step, Inv, AvailableNonNegative, Covered, NonNegativeAfter;
    NothingDone(config, s, actions);
    if |actions| > 0 {
      var t, rest := Step(config, s, actions[0]), actions[1..];
      StepKeepsInv(config, s, actions[0]);
      StepKeepsAvailable(config, s, actions[0]);
      forall n | 0 < n <= |actions|
        ensures NonNegativeAfter(config, s, actions, n) <==> NonNegativeAfter(config, t, rest, n - 1)
      {
        PrefixAfterStep(config, s, actions, n);
      }
      if Covered(s, actions[0]) {
        RunKeepsAvailable(config, t, rest);
        forall n | 0 <= n <= |rest|
          ensures NonNegativeAfter(config, s, actions, n + 1) <==> NonNegativeAfter(config, t, rest, n)
        {
        }
      } else {
        NothingDone(config, t, rest);
        assert !NonNegativeAfter(config, s, actions, 1);
      }
    }
  }

  lemma {:induction false} NothingDone(config: Config, s: State, actions: seq<Action>)
    ensures NonNegativeAfter(config, s, actions, 0) <==> AvailableNonNegative(s)
  {
    hide AvailableNonNegative;
  }

  /** An instant fill finished before anything else runs is covered. */
  lemma UninterruptedFillIsCovered(s: State, execute: ExecuteInput, swapId: string, rebalanceId: string)
    requires SpreadWithinBounds(execute) && BeginExecute(s, execute, swapId, rebalanceId).Ok?
    ensures var t := BeginExecute(s, execute, swapId, rebalanceId).value;
            t.intents != s.intents ==>
              Enabled(t, FinishInstantFill(|s.intents|, None)) && Covered(t, FinishInstantFill(|s.intents|, None))
  {
    InstantOnlyWhenCovered(s, execute, swapId, rebalanceId);
  }

  // A user with 10 of token a, a router with 100 of token b, and fills of 10 a for 5 b under way.
  function Overdrawing(available: int, received: int, stock: int, bought: int, intents: nat, events: nat): State {
    State(map[Key("u", "a") := available, Key("u", "b") := received], map[], [], [], [], [],
          map["A" := bought, "B" := stock], seq(intents, _ => TenForFive()), Idle,
          seq(events, _ => Instant(TenForFive())))
  }

  function TenForFive(): Intent { Intent("u", "a", "b", "A", "B", 10, 5) }

  function TenForFiveRequest(): ExecuteInput {
    ExecuteInput(SwapInput("u", "m", "a", "b", "A", "B", 10, 0, 0), Auto, true, true, 5, 0, 100, 100, true)
  }

  lemma RequestIsAccepted(config: Config, intents: nat)
    ensures Step(config, Overdrawing(10, 0, 100, 0, intents, 0), ExecuteSwap(TenForFiveRequest(), "s", "r")) ==
            Overdrawing(10, 0, 100, 0, intents + 1, 0)
  {
    var s := Overdrawing(10, 0, 100, 0, intents, 0);
    assert MakeQuote(TenForFiveRequest()) == Quote(InstantLocal, false, 5, 5);
    assert s.intents + [TenForFive()] == Overdrawing(10, 0, 100, 0, intents + 1, 0).intents;
  }

  lemma FillIsDebited(config: Config, available: int, received: int, stock: int, bought: int, intents: nat, events: nat)
    requires intents > 0
    ensures Step(config, Overdrawing(available, received, stock, bought, intents, events), FinishInstantFill(0, None))
            == Overdrawing(available - 10, received + 5, stock - 5, bought + 10, intents - 1, events + 1)
  {
    var s := Overdrawing(available, received, stock, bought, intents, events);
    var t := Overdrawing(available - 10, received + 5, stock - 5, bought + 10, intents - 1, events + 1);
    assert s.intents[..0] + s.intents[1..] == t.intents;
    assert s.events + [Instant(TenForFive())] == t.events;
    assert FinishInstant(s, 0).balances == t.balances;
    assert FinishInstant(s, 0).inventory == t.inventory;
  }

  lemma {:induction false} RunOfFour(config: Config, s: seq<State>, a: seq<Action>)
    requires |s| == 5 && |a| == 4
    requires forall i :: 0 <= i < 4 ==> Enabled(s[i], a[i]) && Step(config, s[i], a[i]) == s[i + 1]
    ensures ValidRun(config, s[0], a) && Run(config, s[0], a) == s[4]
  {
    assert ValidRun(config, s[4], a[4..]) && Run(config, s[4], a[4..]) == s[4];
    assert a[3..][1..] == a[4..] && a[2..][1..] == a[3..] && a[1..][1..] == a[2..];
    assert ValidRun(config, s[3], a[3..]) && Run(config, s[3], a[3..]) == s[4];
    assert ValidRun(config, s[2], a[2..]) && Run(config, s[2], a[2..]) == s[4];
    assert ValidRun(config, s[1], a[1..]) && Run(config, s[1], a[1..]) == s[4];
  }

  lemma {:induction false} OverdrawingRun(config: Config, a: seq<Action>)
    requires |a| == 4 && a[0] == a[1] == ExecuteSwap(TenForFiveRequest(), "s", "r")
    requires a[2] == a[3] == FinishInstantFill(0, None)
    ensures var start, end := Overdrawing(10, 0, 100, 0, 0, 0), Overdrawing(-10, 10, 90, 20, 0, 2);
            ValidRun(config, start, a) && Run(config, start, a) == end
  {
    hide Step;
    var s := [Overdrawing(10, 0, 100, 0, 0, 0), Overdrawing(10, 0, 100, 0, 1, 0), Overdrawing(10, 0, 100, 0, 2, 0),
              Overdrawing(0, 5, 95, 10, 1, 1), Overdrawing(-10, 10, 90, 20, 0, 2)];
    forall i | 0 <= i < 4 ensures Enabled(s[i], a[i]) && Step(config, s[i], a[i]) == s[i + 1] {
      if i < 2 {
        RequestIsAccepted(config, i);
      } else if i == 2 {
        FillIsDebited(config, 10, 0, 100, 0, 2, 0);
      } else {
        FillIsDebited(config, 0, 5, 95, 10, 1, 1);
      }
    }
    RunOfFour(config, s, a);
  }

  lemma OverdrawingStart()
    ensures Initial(Overdrawing(10, 0, 100, 0, 0, 0))
  {
  }

  /** Two instant fills of the same balance, both checked before either is debited, overdraw it. */
  lemma InterleavedFillsOverdraw(config: Config)
    ensures exists s, actions ::
              Initial(s) && ValidRun(config, s, actions) && !AvailableNonNegative(Run(config, s, actions))
  {
    var execute, finish := ExecuteSwap(TenForFiveRequest(), "s", "r"), FinishInstantFill(0, None);
    OverdrawingStart();
    OverdrawingRun(config, [execute, execute, finish, finish]);
    var end := Overdrawing(-10, 10, 90, 20, 0, 2);
    assert !AvailableNonNegative(end) by { assert end.Available(Key("u", "a")) == -10; }
  }

  // ----- Conservation -----

  /** What an event brings into the user ledger, per token. */
  function FlowOf(token: Address): Event -> int {
    (e: Event) =>
      match e
      case Payout(_, _, fromToken, amountIn, toToken, amountOut) => Flow(token, fromToken, amountIn, toToken, amountOut)
      case Refund(_, _, _, _) => 0
      case Instant(intent) => Flow(token, intent.fromToken, intent.amountIn, intent.toToken, intent.minOut)
  }

  function Flow(token: Address, fromToken: Address, amountIn: int, toToken: Address, amountOut: nat): int {
    (if toToken == token then amountOut else 0) - (if fromToken == token then amountIn else 0)
  }

  /** All users' funds of a token, less what events have brought in. */
  ghost function Closed(s: State, token: Address): int {
    UserTotal(s, token) - Sum(s.events, FlowOf(token))
  }

  lemma {:induction false} SettleUserFlow(s: State, id: string, amountOut: nat, token: Address)
    ensures var found := FindId(SwapIds(s.swaps), id);
            found.Some? ==>
              var swap := s.swaps[found.value];
              UserTotal(SettleAsyncSwap(s, id, amountOut), token) ==
              UserTotal(s, token) + Flow(token, swap.fromToken, swap.amountIn, swap.toToken, amountOut)
  {
    hide Total;
    var found := FindId(SwapIds(s.swaps), id);
    if found.Some? {
      var job := s.swaps[found.value];
      var amount := job.amountIn;
      TotalAfterAdd(s.locked, job.LockKey(), -amount, token);
      TotalAfterAdd(s.balances, Key(job.user, job.toToken), amountOut, token);
    }
  }

  lemma SettleConserves(s: State, id: string, amountOut: nat, token: Address)
    ensures Closed(SettleAsyncSwap(s, id, amountOut), token) == Closed(s, token)
  {
    hide Total;
    var t := SettleAsyncSwap(s, id, amountOut);
    SettleUserFlow(s, id, amountOut, token);
    if t != s { SumAppend(s.events, t.events[|s.events|], FlowOf(token)); }
  }

  /**
    Settling a swap moves the user ledger and the router's inventory by the same
    amounts in the same direction, so their sum is kept only for a token the swap
    neither takes nor gives, or takes and gives alike.
   */
  lemma SettlementMovesBoth(s: State, j: nat, token: Address, symbol: string)
    requires JobsInv(s) && j < |s.rebalances| && s.rebalances[j].linked.Some?
    ensures var found := PartnerOf(s.swaps, s.rebalances[j].linked);
            found.Some? &&
            var swap := s.swaps[found.value];
            (swap.fromToken == token <==> swap.fromSymbol == symbol) &&
            (swap.toToken == token <==> swap.toSymbol == symbol) ==>
              var t := Settle(s, s.rebalances[j]);
              var flow := Flow(token, swap.fromToken, swap.amountIn, swap.toToken, SettledOut(s.rebalances[j]));
              && UserTotal(t, token) == UserTotal(s, token) + flow
              && Inventory(t, symbol) == Inventory(s, symbol) + flow
              && (UserTotal(t, token) + Inventory(t, symbol) == UserTotal(s, token) + Inventory(s, symbol)
                  <==> flow == 0)
  {
    hide Total, Sum, FirstComeFirstServed, WorkerInStep, ReleasedOnce;
    var job := s.rebalances[j];
    FindDistinct(RebalanceIds(s.rebalances), j);
    var settled := SettleRebalanceInventory(s, job.id);
    var swap := s.swaps[PartnerOf(s.swaps, job.linked).value];
    SettleUserFlow(settled, swap.id, SettledOut(job), token);
  }

  lemma FailConserves(s: State, id: string, token: Address)
    ensures Closed(FailSwap(s, id), token) == Closed(s, token)
  {
    var found := FindId(SwapIds(s.swaps), id);
    if found.Some? {
      var job := s.swaps[found.value];
      var amount := job.amountIn;
      TotalAfterAdd(s.locked, job.LockKey(), -amount, token);
      TotalAfterAdd(s.balances, job.LockKey(), amount, token);
      SumAppend(s.events, Refund(job.id, job.user, job.fromToken, job.amountIn), FlowOf(token));
    }
  }

  lemma CreateConserves(s: State, input: SwapInput, swapId: string, rebalanceId: string, token: Address)
    ensures Closed(OrElse(CreateAsyncSwapJob(s, input, swapId, rebalanceId), s), token) == Closed(s, token)
  {
    var amount := input.amountIn;
    TotalAfterAdd(s.balances, Key(input.user, input.fromToken), -amount, token);
    TotalAfterAdd(s.locked, Key(input.user, input.fromToken), amount, token);
  }

  lemma InstantConserves(s: State, index: nat, token: Address)
    requires index < |s.intents|
    ensures Closed(FinishInstant(s, index), token) == Closed(s, token)
    ensures UserTotal(FinishInstant(s, index), token) == UserTotal(s, token) + FlowOf(token)(Instant(s.intents[index]))
  {
    var intent := s.intents[index];
    var amount := intent.amountIn;
    TotalAfterAdd(s.balances, Key(intent.user, intent.fromToken), -amount, token);
    TotalAfterAdd(Add(s.balances, Key(intent.user, intent.fromToken), -amount), Key(intent.user, intent.toToken),
                  intent.minOut, token);
    SumAppend(s.events, Instant(intent), FlowOf(token));
  }

  /** An instant fill moves value between the users and the router, and creates none. */
  lemma InstantFillBalances(s: State, index: nat, token: Address, symbol: string)
    requires index < |s.intents|
    requires s.intents[index].fromToken == token <==> s.intents[index].fromSymbol == symbol
    requires s.intents[index].toToken == token <==> s.intents[index].toSymbol == symbol
    ensures UserTotal(FinishInstant(s, index), token) + Inventory(FinishInstant(s, index), symbol) ==
            UserTotal(s, token) + Inventory(s, symbol)
  {
    InstantConserves(s, index, token);
  }

  lemma PlaceConserves(config: Config, s: State, place: PlaceInput, reference: nat, token: Address)
    ensures Closed(PlaceAndMatch(config, s, place, reference), token) == Closed(s, token)
  {
    var placed := Place(config.markets, s, place);
    if placed.Ok? {
      var o := placed.value.orders[|s.orders|];
      var reserve: int := o.reserved;
      TotalAfterAdd(s.balances, o.ReserveKey(), -reserve, token);
      TotalAfterAdd(s.locked, o.ReserveKey(), reserve, token);
      MatchAllConserves(TermsOf(config, place.marketId, reference), placed.value, token);
    }
  }

  lemma CancelConserves(s: State, orderId: string, user: Address, token: Address)
    ensures Closed(OrElse(Cancel(s, orderId, user), s), token) == Closed(s, token)
  {
    var found := FindId(OrderIds(s.orders), orderId);
    if found.Some? {
      var o := s.orders[found.value];
      var refund: int := RemainingReserve(o);
      TotalAfterAdd(s.locked, o.ReserveKey(), -refund, token);
      TotalAfterAdd(s.balances, o.ReserveKey(), refund, token);
    }
  }

  lemma WorkerConserves(s: State, job: RebalanceJob, token: Address)
    ensures Closed(Fail(s, job.id, job.linked), token) == Closed(s, token)
    ensures Closed(Settle(s, job), token) == Closed(s, token)
  {
    if job.linked.Some? {
      FailConserves(UpdateRebalanceJob(s, job.id, Failed, None), job.linked.value, token);
      SettleConserves(SettleRebalanceInventory(s, job.id), job.linked.value, SettledOut(job), token);
    }
  }

  lemma ProceedConserves(s: State, index: nat, job: RebalanceJob, canSubmit: bool, routeable: bool, token: Address)
    requires s.worker.Idle?
    ensures Closed(Proceed(s, index, job, canSubmit, routeable), token) == Closed(s, token)
  {
    WorkerConserves(s, job, token);
    if job.state == Queued || job.state == BridgingOut {
      assert SameLedger(s, Proceed(s, index, job, canSubmit, routeable));
    }
  }

  lemma HealthConserves(s: State, ready: bool, canSubmit: bool, routeable: bool, token: Address)
    requires s.worker.AwaitingHealth? && s.worker.next < |s.rebalances|
    ensures Closed(AfterHealth(s, ready, canSubmit, routeable), token) == Closed(s, token)
  {
    var job := s.rebalances[s.worker.next];
    var idle := s.(worker := Idle);
    if ready {
      ProceedConserves(Remark(idle, job), s.worker.next, job, canSubmit, routeable, token);
    } else {
      WorkerConserves(idle, job, token);
    }
  }

  lemma AnswerConserves(s: State, answer: SwapAnswer, token: Address)
    requires s.worker.AwaitingSwap? && s.worker.next < |s.rebalances|
    ensures Closed(AfterSwap(s, answer), token) == Closed(s, token)
  {
    var job := s.rebalances[s.worker.next];
    var idle := s.(worker := Idle);
    WorkerConserves(idle, job, token);
    var after := AfterSwap(s, answer);
    assert after == Fail(idle, job.id, job.linked) || SameLedger(s, after);
  }

  lemma StepConserves(config: Config, s: State, a: Action, token: Address)
    requires Enabled(s, a)
    ensures Closed(Step(config, s, a), token) == Closed(s, token)
  {
    hide FindId, AfterHealth, AfterSwap, MatchAll, Place, Cancel, Total, Sum;
    match a
    case PlaceOrder(place, reference) => PlaceConserves(config, s, place, reference, token);
    case CancelOrder(orderId, user) => CancelConserves(s, orderId, user, token);
    case ExecuteSwap(execute, swapId, rebalanceId) =>
      var quote := MakeQuote(execute);
      var input := execute.swap.(quotedOut := quote.quotedOut, minOut := quote.minOut);
      CreateConserves(s, input, swapId, rebalanceId, token);
    case FinishInstantFill(index, drift) => InstantConserves(s, index, token);
    case AbandonInstantFill(index) =>
    case StartTick =>
    case HealthAnswer(ready, canSubmit, routeable) => HealthConserves(s, ready, canSubmit, routeable, token);
    case ExchangeAnswer(answer) => AnswerConserves(s, answer, token);
  }

  /**
    Over any run all users' funds of a token change by exactly what the logged
    payouts and instant fills brought in: placing, matching, cancelling, locking
    and refunding change nothing.
   */
  lemma {:induction false} RunConserves(config: Config, s: State, actions: seq<Action>, token: Address)
    requires ValidRun(config, s, actions)
    ensures var t := Run(config, s, actions);
            UserTotal(t, token) - UserTotal(s, token) == Sum(t.events, FlowOf(token)) - Sum(s.events, FlowOf(token))
    decreases |actions|
  {
    if |actions| > 0 {
      StepConserves(config, s, actions[0], token);
      RunConserves(config, Step(config, s, actions[0]), actions[1..], token);
    }
  }

  // ----- Swap jobs -----

  /** After any run a swap's lock has been released once if it is finished, by payout or by refund, and not before. */
  lemma {:induction false} SwapReleasedExactlyOnce(config: Config, s0: State, actions: seq<Action>, i: nat)
    requires Initial(s0) && ValidRun(config, s0, actions)
    ensures var s := Run(config, s0, actions);
            i < |s.swaps| ==>
              var releases := Sum(s.events, ReleasesOf(s.swaps[i].id));
              var payouts := Sum(s.events, PayoutsOf(s.swaps[i].id));
              && s.swaps[i].state != BridgingIn
              && (s.swaps[i].state == Completed <==> releases == 1 && payouts == 1)
              && (s.swaps[i].state == Failed <==> releases == 1 && payouts == 0)
              && (!s.swaps[i].state.Terminal() <==> releases == 0)
  {
    InitialInv(config, s0);
    RunKeepsInv(config, s0, actions);
    var s := Run(config, s0, actions);
    if i < |s.swaps| {
      var j :| 0 <= j < |s.rebalances| && s.rebalances[j].linked == Some(s.swaps[i].id);
      FindDistinct(SwapIds(s.swaps), i);
      assert SwapIds(s.swaps)[i] == s.swaps[i].id;
    }
  }

  /** Between any two stretches linked jobs have the same state and terms, and jobs leave the queue in order. */
  lemma {:induction false} LinkedJobsAgree(config: Config, s0: State, actions: seq<Action>)
    requires Initial(s0) && ValidRun(config, s0, actions)
    ensures var s := Run(config, s0, actions);
            && (forall j :: 0 <= j < |s.rebalances| && s.rebalances[j].linked.Some? ==>
                  var partner := PartnerOf(s.swaps, s.rebalances[j].linked);
                  partner.Some? && Agree(s.swaps[partner.value], s.rebalances[j]))
            && (forall i, j :: 0 <= i < j < |s.rebalances| && s.rebalances[j].state != Queued ==>
                  s.rebalances[i].state.Terminal())
            && (forall j :: 0 <= j < |s.rebalances| ==> s.rebalances[j].state != BridgingIn)
  {
    InitialInv(config, s0);
    RunKeepsInv(config, s0, actions);
  }

  // ----- Progress -----

  function Rank(state: JobState): nat {
    match state
    case Queued => 4
    case BridgingOut => 3
    case BridgingIn => 3
    case L1Swap => 2
    case SettlingBack => 1
    case _ => 0
  }

  function RankOf(): RebalanceJob -> int {
    (job: RebalanceJob) => Rank(job.state)
  }

  function WorkLeft(s: State): int {
    Sum(s.rebalances, RankOf())
  }

  lemma MovesLowerRank(before: State, after: State, j: nat, state: JobState)
    requires Moves(before, after, j, state)
    ensures WorkLeft(after) - WorkLeft(before) == Rank(state) - Rank(before.rebalances[j].state)
  {
    SumUpdate(before.rebalances, j, after.rebalances[j], RankOf());
  }

  lemma HealthLowersWork(s: State, ready: bool, canSubmit: bool, routeable: bool)
    requires JobsInv(s) && s.worker.AwaitingHealth?
    ensures s.worker.next < |s.rebalances|
    ensures var t := AfterHealth(s, ready, canSubmit, routeable);
            && |t.rebalances| == |s.rebalances|
            && (if t.worker.Idle? then WorkLeft(t) < WorkLeft(s) else WorkLeft(t) == WorkLeft(s))
  {
    hide FindId, LinkedInStep, ReleasedOnce, JobsFollow, AfterHealth;
    var job := s.rebalances[s.worker.next];
    AfterHealthKeepsJobs(s, ready, canSubmit, routeable);
    var t := AfterHealth(s, ready, canSubmit, routeable);
    var target := StateAfterHealth(job.state, ready, canSubmit, routeable);
    MovesLowerRank(s, t, s.worker.next, target);
    assert t.worker.Idle? <==> target != job.state;
  }

  lemma ExchangeLowersWork(s: State, answer: SwapAnswer)
    requires JobsInv(s) && s.worker.AwaitingSwap?
    ensures s.worker.next < |s.rebalances|
    ensures |AfterSwap(s, answer).rebalances| == |s.rebalances| && WorkLeft(AfterSwap(s, answer)) < WorkLeft(s)
  {
    hide FindId, LinkedInStep, ReleasedOnce, JobsFollow, FirstComeFirstServed, AfterSwap;
    AfterSwapKeepsJobs(s, answer);
    assert s.rebalances[s.worker.next].state == L1Swap;
    var t := AfterSwap(s, answer);
    MovesLowerRank(s, t, s.worker.next, if answer.Threw? then Failed else SettlingBack);
  }

  /** Whatever the health check and the exchange answer during one tick. */
  datatype Answers = Answers(ready: bool, canSubmit: bool, routeable: bool, exchange: SwapAnswer)

  /** A whole tick with no request in between. */
  function Tick(s: State, answers: Answers): State
    requires s.worker.Idle?
  {
    var s1 := BeginTick(s);
    if s1.worker.Idle? then s1
    else
      var s2 := AfterHealth(s1, answers.ready, answers.canSubmit, answers.routeable);
      if s2.worker.AwaitingSwap? && s2.worker.next < |s2.rebalances| then AfterSwap(s2, answers.exchange) else s2
  }

  lemma TickKeepsInv(config: Config, s: State, answers: Answers)
    requires Inv(config, s) && s.worker.Idle?
    ensures Inv(config, Tick(s, answers))
  {
    WorkerKeepsInv(config, s, StartTick);
    var s1 := BeginTick(s);
    if !s1.worker.Idle? {
      var health := HealthAnswer(answers.ready, answers.canSubmit, answers.routeable);
      WorkerKeepsInv(config, s1, health);
      var s2 := Step(config, s1, health);
      if s2.worker.AwaitingSwap? {
        WorkerKeepsInv(config, s2, ExchangeAnswer(answers.exchange));
      }
    }
  }

  /** A whole tick lowers the work left, unless there is none. */
  lemma TickLowersWork(s: State, answers: Answers)
    requires JobsInv(s) && s.worker.Idle?
    ensures var t := Tick(s, answers);
            && t.worker.Idle? && |t.rebalances| == |s.rebalances|
            && (if NextJob(s.rebalances).Some? then WorkLeft(t) < WorkLeft(s) else t == s)
  {
    hide FindId, LinkedInStep, ReleasedOnce, FirstComeFirstServed, NextJob, AfterHealth, AfterSwap, JobsFollow, Moves;
    BeginTickKeepsJobs(s);
    var s1 := BeginTick(s);
    if !s1.worker.Idle? {
      HealthLowersWork(s1, answers.ready, answers.canSubmit, answers.routeable);
      AfterHealthKeepsJobs(s1, answers.ready, answers.canSubmit, answers.routeable);
      var s2 := AfterHealth(s1, answers.ready, answers.canSubmit, answers.routeable);
      if s2.worker.AwaitingSwap? {
        ExchangeLowersWork(s2, answers.exchange);
      }
    }
  }

  lemma {:induction false} WorkLeftBounds(jobs: seq<RebalanceJob>)
    ensures 0 <= Sum(jobs, RankOf()) <= 4 * |jobs|
    ensures NextJob(jobs).Some? <==> Sum(jobs, RankOf()) > 0
  {
    SumNonNegative(jobs, RankOf());
    SumAtMost(jobs, RankOf(), 4);
    if NextJob(jobs).Some? {
      assert jobs[NextJob(jobs).value] in jobs;
    } else {
      SumAtMost(jobs, RankOf(), 0);
    }
  }

  function Ticks(s: State, answers: seq<Answers>): State
    decreases |answers|
  {
    if |answers| == 0 || !s.worker.Idle? then s else Ticks(Tick(s, answers[0]), answers[1..])
  }

  lemma {:induction false} TicksRunDown(config: Config, s: State, answers: seq<Answers>)
    requires Inv(config, s) && s.worker.Idle?
    ensures |Ticks(s, answers).rebalances| == |s.rebalances|
    ensures |answers| >= WorkLeft(s) ==> NextJob(Ticks(s, answers).rebalances).None?
    decreases |answers|
  {
    WorkLeftBounds(s.rebalances);
    if |answers| > 0 {
      TickKeepsInv(config, s, answers[0]);
      TickLowersWork(s, answers[0]);
      WorkLeftBounds(Tick(s, answers[0]).rebalances);
      TicksRunDown(config, Tick(s, answers[0]), answers[1..]);
    }
  }

  /** With no new arrivals, 4N ticks finish N jobs, whatever the outside world answers. */
  lemma {:induction false} AllJobsFinishWithinFourTicksEach(config: Config, s: State, answers: seq<Answers>)
    requires Inv(config, s) && s.worker.Idle? && |answers| >= 4 * |s.rebalances|
    ensures var t := Ticks(s, answers);
            && |t.rebalances| == |s.rebalances|
            && forall i :: 0 <= i < |t.rebalances| ==> t.rebalances[i].state.Terminal()
  {
    WorkLeftBounds(s.rebalances);
    TicksRunDown(config, s, answers);
  }
}
