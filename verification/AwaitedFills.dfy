/**
  A rule for accepting requests that keeps every run of the matcher from
  overdrawing a balance: count what the awaited instant fills will still take.
 */
module AwaitedFills {
  import opened AppState
  import opened DarkPool
  import opened DarkPoolRuns
  import opened Ledger
  import opened OrderBook
  import opened Outcome
  import opened Reserves
  import opened Router
  import opened Sums
  import opened SwapProtocol

  function AwaitedOn(k: Key): Intent -> int {
    (intent: Intent) => if Key(intent.user, intent.fromToken) == k then intent.amountIn else 0
  }

  /** What the awaited instant fills will take from an entry. */
  function Awaited(s: State, k: Key): int {
    Sum(s.intents, AwaitedOn(k))
  }

  /** What no awaited fill lays claim to. */
  function Free(s: State, k: Key): int {
    s.Available(k) - Awaited(s, k)
  }

  /** What an accepted request takes from an entry, now or when its fill is finished. */
  function Demand(config: Config, s: State, a: Action, k: Key): int
    requires Enabled(s, a)
  {
    match a
    case PlaceOrder(place, _) =>
      var placed := Place(config.markets, s, place);
      if placed.Ok? && placed.value.orders[|s.orders|].ReserveKey() == k then placed.value.orders[|s.orders|].reserved
      else 0
    case ExecuteSwap(execute, swapId, rebalanceId) =>
      if BeginExecute(s, execute, swapId, rebalanceId).Ok? && Key(execute.swap.user, execute.swap.fromToken) == k then
        execute.swap.amountIn
      else 0
    case _ => 0
  }

  /**
    A request is accepted only if its amount is not negative and is free on its
    entry; the service itself looks at the balance alone.
   */
  ghost predicate AcceptedWithCover(config: Config, s: State, a: Action)
    requires Enabled(s, a)
  {
    && RequestNonNegative(a)
    && forall k :: Demand(config, s, a, k) > 0 ==> Demand(config, s, a, k) <= Free(s, k)
  }

  ghost predicate AwaitedAreCovered(s: State) {
    AmountsNonNegative(s) && forall k :: Free(s, k) >= 0
  }

  // ----- What each action does to the free amounts -----

  lemma PlaceTakesItsReserve(config: Config, s: State, place: PlaceInput, reference: nat, k: Key)
    requires BookInv(config.markets, s) && Enabled(s, PlaceOrder(place, reference))
    ensures Free(PlaceAndMatch(config, s, place, reference), k) >=
            Free(s, k) - Demand(config, s, PlaceOrder(place, reference), k)
  {
    hide MatchAll, BookInv, Dust, BuyFills, Sum;
    var placed := Place(config.markets, s, place);
    if placed.Ok? {
      PlaceKeepsBook(config.markets, s, place);
      MatchAllKeepsBook(config.markets, TermsOf(config, place.marketId, reference), placed.value, k);
    }
  }

  lemma RequestTakesItsAmount(config: Config, s: State, execute: ExecuteInput, swapId: string, rebalanceId: string,
                              k: Key)
    requires Enabled(s, ExecuteSwap(execute, swapId, rebalanceId))
    ensures Free(OrElse(BeginExecute(s, execute, swapId, rebalanceId), s), k) ==
            Free(s, k) - Demand(config, s, ExecuteSwap(execute, swapId, rebalanceId), k)
  {
    hide MakeQuote, Sum;
    SumAppend(s.intents, IntentOf(execute, MakeQuote(execute)), AwaitedOn(k));
  }

  lemma FinishingFreesItsOutput(s: State, index: nat, drift: Option<RebalanceJob>, k: Key)
    requires index < |s.intents|
    ensures Free(FinishFill(s, index, drift), k) >= Free(s, k)
  {
    hide Sum;
    SumRemove(s.intents, index, AwaitedOn(k));
    InstantMovesAvailable(s, index, k);
  }

  lemma AbandoningFreesItsInput(s: State, index: nat, k: Key)
    requires index < |s.intents|
    ensures Free(AbandonFill(s, index), k) == Free(s, k) + AwaitedOn(k)(s.intents[index])
  {
    hide Sum;
    SumRemove(s.intents, index, AwaitedOn(k));
  }

  lemma WorkerFrees(s: State, a: Action, k: Key)
    requires JobsInv(s) && Enabled(s, a) && AmountsNonNegative(s) && (a.HealthAnswer? || a.ExchangeAnswer?)
    ensures var t := if a.HealthAnswer? then AfterHealth(s, a.ready, a.canSubmit, a.routeable)
                     else AfterSwap(s, a.answer);
            Free(t, k) >= Free(s, k)
  {
    hide FindId, JobsInv, AfterHealth, AfterSwap, Sum, Get;
    WorkerHoldsLock(s);
    WorkerKeepsAmounts(s, a);
    if a.HealthAnswer? {
      HealthMovesAvailable(s, a.ready, a.canSubmit, a.routeable, k);
    } else {
      AnswerMovesAvailable(s, a.answer, k);
    }
  }

  /** Where no amount is negative, only requests lower a free amount, by no more than they demand. */
  lemma OnlyRequestsTake(config: Config, s: State, a: Action, k: Key)
    requires Inv(config, s) && Enabled(s, a) && AmountsNonNegative(s)
    ensures Free(Step(config, s, a), k) >= Free(s, k) - Demand(config, s, a, k)
  {
    hide FindId, JobsInv, BookInv, AfterHealth, AfterSwap, PlaceAndMatch, BeginExecute, FinishFill, AbandonFill, Cancel;
    hide Sum;
    match a
    case PlaceOrder(place, reference) => PlaceTakesItsReserve(config, s, place, reference, k);
    case CancelOrder(orderId, user) =>
      CancelKeepsAvailable(s, orderId, user, k);
      CancelLeavesJobs(s, orderId, user);
    case ExecuteSwap(execute, swapId, rebalanceId) =>
      RequestTakesItsAmount(config, s, execute, swapId, rebalanceId, k);
    case FinishInstantFill(index, drift) => FinishingFreesItsOutput(s, index, drift, k);
    case AbandonInstantFill(index) => AbandoningFreesItsInput(s, index, k);
    case StartTick =>
    case _ => WorkerFrees(s, a, k);
  }

  lemma CoverIsKept(config: Config, s: State, a: Action)
    requires Inv(config, s) && Enabled(s, a) && AwaitedAreCovered(s) && AcceptedWithCover(config, s, a)
    ensures AwaitedAreCovered(Step(config, s, a))
  {
    hide Step, Free, Demand, AmountsNonNegative;
    StepKeepsAmounts(config, s, a);
    forall k ensures Free(Step(config, s, a), k) >= 0 {
      OnlyRequestsTake(config, s, a, k);
      assert Free(s, k) >= 0;
    }
  }

  lemma CoveredIsNonNegative(s: State)
    requires AwaitedAreCovered(s)
    ensures AvailableNonNegative(s)
  {
    forall k ensures s.Available(k) >= 0 {
      SumNonNegative(s.intents, AwaitedOn(k));
      assert Free(s, k) >= 0;
    }
  }

  ghost predicate AcceptedRun(config: Config, s: State, actions: seq<Action>)
    requires ValidRun(config, s, actions)
    decreases |actions|
  {
    |actions| == 0 ||
    (AcceptedWithCover(config, s, actions[0]) && AcceptedRun(config, Step(config, s, actions[0]), actions[1..]))
  }

  lemma {:induction false} RunKeepsCover(config: Config, s: State, actions: seq<Action>)
    requires Inv(config, s) && AwaitedAreCovered(s) && ValidRun(config, s, actions) && AcceptedRun(config, s, actions)
    ensures AwaitedAreCovered(Run(config, s, actions))
    decreases |actions|
  {
    hide Inv, AwaitedAreCovered, AcceptedWithCover, Step;
    if |actions| > 0 {
      StepKeepsInv(config, s, actions[0]);
      CoverIsKept(config, s, actions[0]);
      RunKeepsCover(config, Step(config, s, actions[0]), actions[1..]);
    }
  }

  /**
    When every swap's amount is not negative, and every order and swap is accepted
    only with its amount available beyond what awaited fills will take, no run ever
    makes a balance negative, however fills are interleaved, finished or abandoned.
   */
  lemma {:induction false} AcceptedRunsNeverOverdraw(config: Config, s0: State, actions: seq<Action>)
    requires Initial(s0) && ValidRun(config, s0, actions) && AcceptedRun(config, s0, actions)
    ensures AvailableNonNegative(Run(config, s0, actions))
  {
    InitialInv(config, s0);
    RunKeepsCover(config, s0, actions);
    CoveredIsNonNegative(Run(config, s0, actions));
  }
}
