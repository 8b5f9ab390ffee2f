/**
  Swap jobs and instant fills in terms of the requests that came in, and what a
  swap ends up paying in terms of what the exchange answered.
 */
module SwapRequests {
  import opened AppState
  import opened DarkPool
  import opened DarkPoolRuns
  import opened Ledger
  import opened OrderBook
  import opened OrderRequests
  import opened Outcome
  import opened Reserves
  import opened Router
  import opened Sums
  import opened SwapProtocol
  import opened SwapSafety

  // ----- The requests behind a run -----

  /** The requests that made swap jobs, in order. */
  function Requested(config: Config, s: State, actions: seq<Action>): seq<Action>
    requires ValidRun(config, s, actions)
    decreases |actions|
  {
    if |actions| == 0 then []
    else
      var t := Step(config, s, actions[0]);
      (if |t.swaps| > |s.swaps| then [actions[0]] else []) + Requested(config, t, actions[1..])
  }

  /** What the exchange's simulated output leaves after the spread, rounded down. */
  predicate IsMinimum(minOut: nat, l1Out: nat, spreadBps: nat) {
    minOut * 10_000 <= l1Out * (10_000 - spreadBps) < (minOut + 1) * 10_000
  }

  /** The job is the one asked for, and quotes the simulated output until it is paid. */
  predicate KeepsRequest(swap: SwapJob, a: Action) {
    && a.ExecuteSwap?
    && var request := a.execute.swap;
       && swap.id == a.swapId && swap.user == request.user && swap.marketId == request.marketId
       && swap.fromToken == request.fromToken && swap.toToken == request.toToken
       && swap.fromSymbol == request.fromSymbol && swap.toSymbol == request.toSymbol
       && swap.amountIn == request.amountIn
       && (swap.state != Completed ==> swap.quotedOut == a.execute.l1Out)
       && IsMinimum(swap.minOut, a.execute.l1Out, a.execute.spreadBps)
  }

  predicate IntentKeepsRequest(intent: Intent, a: Action) {
    && a.ExecuteSwap?
    && var request := a.execute.swap;
       && intent.user == request.user && intent.fromToken == request.fromToken && intent.toToken == request.toToken
       && intent.fromSymbol == request.fromSymbol && intent.toSymbol == request.toSymbol
       && intent.amountIn == request.amountIn
       && IsMinimum(intent.minOut, a.execute.l1Out, a.execute.spreadBps)
  }

  ghost predicate AllRequested(swaps: seq<SwapJob>, requests: seq<Action>) {
    |swaps| == |requests| && forall i :: 0 <= i < |swaps| ==> KeepsRequest(swaps[i], requests[i])
  }

  ghost predicate Asked(past: seq<Action>, intent: Intent) {
    exists a :: a in past && IntentKeepsRequest(intent, a)
  }

  ghost predicate AllAsked(s: State, past: seq<Action>) {
    && (forall intent :: intent in s.intents ==> Asked(past, intent))
    && (forall e :: e in s.events && e.Instant? ==> Asked(past, e.intent))
  }

  // ----- Which requests are accepted -----

  lemma MinimumOfQuote(execute: ExecuteInput)
    requires SpreadWithinBounds(execute) && execute.routeable
    ensures IsMinimum(MakeQuote(execute).minOut, execute.l1Out, execute.spreadBps)
    ensures MakeQuote(execute).quotedOut == execute.l1Out
  {
    DivMod(execute.l1Out * (10_000 - execute.spreadBps), 10_000);
  }

  lemma MinimumIsUnique(x: nat, y: nat, l1Out: nat, spreadBps: nat)
    requires IsMinimum(x, l1Out, spreadBps) && IsMinimum(y, l1Out, spreadBps)
    ensures x == y
  {
  }

  /** The vault can pay this at once. */
  predicate InstantPossible(execute: ExecuteInput, minOut: nat) {
    && execute.bridgeReady && execute.withinNotional
    && minOut <= execute.configured && minOut <= execute.vaultBalance
  }

  /**
    A request is refused exactly when the balance does not cover it, the market has
    no route, or it insists on local liquidity that is not there; it becomes an
    instant fill exactly when it is accepted, does not ask for the exchange, and
    the vault can pay the minimum at once; otherwise it becomes a swap job.
   */
  lemma AcceptedWhenCovered(s: State, execute: ExecuteInput, swapId: string, rebalanceId: string, minOut: nat)
    requires SpreadWithinBounds(execute) && IsMinimum(minOut, execute.l1Out, execute.spreadBps)
    ensures var r := BeginExecute(s, execute, swapId, rebalanceId);
            && (r.Ok? <==>
                  && execute.swap.amountIn <= s.Available(Key(execute.swap.user, execute.swap.fromToken))
                  && execute.routeable
                  && (execute.preference == Local ==> InstantPossible(execute, minOut)))
            && (r.Ok? ==>
                  var instant := execute.preference != Dex && InstantPossible(execute, minOut);
                  && |r.value.intents| == |s.intents| + (if instant then 1 else 0)
                  && |r.value.swaps| == |s.swaps| + (if instant then 0 else 1))
  {
    hide Add, Get, IsMinimum;
    if execute.routeable {
      MinimumOfQuote(execute);
      MinimumIsUnique(minOut, MakeQuote(execute).minOut, execute.l1Out, execute.spreadBps);
    }
  }

  // ----- Every run -----

  lemma RequestingIsTraced(s: State, execute: ExecuteInput, swapId: string, rebalanceId: string, requests: seq<Action>)
    requires SpreadWithinBounds(execute) && AllRequested(s.swaps, requests)
    ensures var t := OrElse(BeginExecute(s, execute, swapId, rebalanceId), s);
            var a := ExecuteSwap(execute, swapId, rebalanceId);
            && AllRequested(t.swaps, requests + if |t.swaps| > |s.swaps| then [a] else [])
            && t.events == s.events
            && (t.intents == s.intents
                || exists intent :: t.intents == s.intents + [intent] && IntentKeepsRequest(intent, a))
  {
    hide Add, IsMinimum;
    var r := BeginExecute(s, execute, swapId, rebalanceId);
    assert requests + [] == requests;
    if execute.routeable {
      MinimumOfQuote(execute);
      var quote := MakeQuote(execute);
      if r.Ok? && r.value.swaps == s.swaps {
        assert IntentKeepsRequest(IntentOf(execute, quote), ExecuteSwap(execute, swapId, rebalanceId));
      }
    }
  }

  lemma MoreAsked(past: seq<Action>, a: Action, intent: Intent)
    requires Asked(past, intent)
    ensures Asked(past + [a], intent)
  {
    var b :| b in past && IntentKeepsRequest(intent, b);
    assert b in past + [a];
  }

  /** Intents and events that were there before, or that this request has just made, are asked for. */
  lemma StillAsked(s: State, t: State, past: seq<Action>, a: Action)
    requires AllAsked(s, past)
    requires forall intent :: intent in t.intents ==> intent in s.intents || IntentKeepsRequest(intent, a)
    requires forall e :: e in t.events && e.Instant? ==> e in s.events || e.intent in s.intents
    ensures AllAsked(t, past + [a])
  {
    hide IntentKeepsRequest;
    forall intent | intent in t.intents ensures Asked(past + [a], intent) {
      if intent in s.intents { MoreAsked(past, a, intent); } else { assert a in past + [a]; }
    }
    forall e | e in t.events && e.Instant? ensures Asked(past + [a], e.intent) {
      MoreAsked(past, a, e.intent);
    }
  }

  lemma JobsStayRequested(s: State, t: State, requests: seq<Action>)
    requires JobsFollow(s, t) && |t.swaps| == |s.swaps| && AllRequested(s.swaps, requests)
    ensures AllRequested(t.swaps, requests)
  {
    hide IsMinimum;
  }

  /** Requests apart, no action makes a swap job or an awaited fill, and only finishing a fill logs one. */
  lemma OtherActionsAskNothing(config: Config, s: State, a: Action)
    requires Inv(config, s) && Enabled(s, a) && !a.ExecuteSwap?
    ensures var t := Step(config, s, a);
            && |t.swaps| == |s.swaps|
            && (forall intent :: intent in t.intents ==> intent in s.intents)
            && (forall e :: e in t.events && e.Instant? ==> e in s.events || e.intent in s.intents)
  {
    hide FindId, JobsInv, BookInv, AfterHealth, AfterSwap, PlaceAndMatch, Cancel, FinishFill;
    match a
    case PlaceOrder(place, reference) => PlacingAsksNothing(config, s, place, reference);
    case CancelOrder(orderId, user) => CancellingAsksNothing(s, orderId, user);
    case FinishInstantFill(index, drift) => FinishingAsksNothing(s, index, drift);
    case HealthAnswer(ready, canSubmit, routeable) => HealthAsksNothing(config, s, ready, canSubmit, routeable);
    case ExchangeAnswer(answer) => AnswerAsksNothing(config, s, answer);
    case _ =>
  }

  lemma PlacingAsksNothing(config: Config, s: State, place: PlaceInput, reference: nat)
    requires Inv(config, s) && Enabled(s, PlaceOrder(place, reference))
    ensures var t := PlaceAndMatch(config, s, place, reference);
            t.swaps == s.swaps && t.intents == s.intents && t.events == s.events
  {
    hide JobsInv, BookInv, MatchAll;
    PlaceLeavesJobs(config, s, place, reference);
    if Place(config.markets, s, place).Ok? {
      MatchAllConserves(TermsOf(config, place.marketId, reference), Place(config.markets, s, place).value, "");
    }
  }

  lemma CancellingAsksNothing(s: State, orderId: string, user: Address)
    ensures var t := OrElse(Cancel(s, orderId, user), s);
            t.swaps == s.swaps && t.intents == s.intents && t.events == s.events
  {
    hide Add, FindId;
  }

  lemma FinishingAsksNothing(s: State, index: nat, drift: Option<RebalanceJob>)
    requires index < |s.intents|
    ensures var t := FinishFill(s, index, drift);
            && t.swaps == s.swaps
            && (forall intent :: intent in t.intents ==> intent in s.intents)
            && t.events == s.events + [Instant(s.intents[index])]
  {
    hide Add, AddInventory;
  }

  lemma HealthAsksNothing(config: Config, s: State, ready: bool, canSubmit: bool, routeable: bool)
    requires Inv(config, s) && Enabled(s, HealthAnswer(ready, canSubmit, routeable))
    ensures var t := AfterHealth(s, ready, canSubmit, routeable);
            && |t.swaps| == |s.swaps| && t.intents == s.intents
            && forall e :: e in t.events && e.Instant? ==> e in s.events
  {
    hide FindId, JobsInv, Settle, Fail, UpdateRebalanceJob, MarkSwapState, JobsFollow;
    AfterHealthKeepsJobs(s, ready, canSubmit, routeable);
    SameCount(s, AfterHealth(s, ready, canSubmit, routeable));
    var job, idle := s.rebalances[s.worker.next], s.(worker := Idle);
    FinishingLogsNoFill(idle, job);
    FinishingLogsNoFill(Remark(idle, job), job);
  }

  lemma SameCount(s: State, t: State)
    requires exists j: nat, state :: Moves(s, t, j, state)
    ensures |t.swaps| == |s.swaps|
  {
  }

  lemma FinishingLogsNoFill(s: State, job: RebalanceJob)
    ensures forall e :: e in Settle(s, job).events && e.Instant? ==> e in s.events
    ensures forall e :: e in Fail(s, job.id, job.linked).events && e.Instant? ==> e in s.events
  {
    hide FindId, Add, AddInventory;
  }

  lemma AnswerAsksNothing(config: Config, s: State, answer: SwapAnswer)
    requires Inv(config, s) && Enabled(s, ExchangeAnswer(answer))
    ensures var t := AfterSwap(s, answer);
            && |t.swaps| == |s.swaps| && t.intents == s.intents
            && forall e :: e in t.events && e.Instant? ==> e in s.events
  {
    hide FindId, JobsInv, Add;
    AfterSwapKeepsJobs(s, answer);
  }

  lemma StepIsRequested(config: Config, s: State, a: Action, requests: seq<Action>, past: seq<Action>)
    requires Inv(config, s) && Enabled(s, a) && AllRequested(s.swaps, requests) && AllAsked(s, past)
    ensures var t := Step(config, s, a);
            && AllRequested(t.swaps, requests + if |t.swaps| > |s.swaps| then [a] else [])
            && AllAsked(t, past + [a])
  {
    hide BookInv, JobsInv, AfterHealth, AfterSwap, PlaceAndMatch, Cancel, FinishFill, BeginExecute, AbandonFill,
         AllRequested, AllAsked, IntentKeepsRequest, SpreadWithinBounds, JobsFollow;
    var t := Step(config, s, a);
    StepKeepsInv(config, s, a);
    assert requests + [] == requests;
    if a.ExecuteSwap? {
      RequestingIsTraced(s, a.execute, a.swapId, a.rebalanceId, requests);
    } else {
      OtherActionsAskNothing(config, s, a);
      JobsStayRequested(s, t, requests);
    }
    StillAsked(s, t, past, a);
  }

  lemma {:induction false} FirstRequest(config: Config, s: State, actions: seq<Action>)
    requires ValidRun(config, s, actions)
    ensures |actions| == 0 ==> Requested(config, s, actions) == []
    ensures |actions| > 0 ==>
              var a, t := actions[0], Step(config, s, actions[0]);
              && ValidRun(config, t, actions[1..])
              && Requested(config, s, actions) ==
                 (if |t.swaps| > |s.swaps| then [a] else []) + Requested(config, t, actions[1..])
  {
    hide Step, Enabled;
  }

  lemma {:induction false} RunIsRequested(config: Config, s: State, actions: seq<Action>, requests: seq<Action>,
                                          past: seq<Action>)
    requires Inv(config, s) && ValidRun(config, s, actions)
    requires AllRequested(s.swaps, requests) && AllAsked(s, past)
    ensures AllRequested(Run(config, s, actions).swaps, requests + Requested(config, s, actions))
    ensures AllAsked(Run(config, s, actions), past + actions)
    decreases |actions|
  {
    hide Inv, Step, Enabled, Requested, AllRequested, AllAsked;
    FirstRequest(config, s, actions);
    if |actions| == 0 {
      assert requests + [] == requests && past + actions == past;
    } else {
      var t, a, rest := Step(config, s, actions[0]), actions[0], actions[1..];
      var added := if |t.swaps| > |s.swaps| then [a] else [];
      StepKeepsInv(config, s, a);
      StepIsRequested(config, s, a, requests, past);
      RunIsRequested(config, t, rest, requests + added, past + [a]);
      Reassociate(requests, added, Requested(config, t, rest));
      assert past + actions == past + [a] + rest;
    }
  }

  /**
    After any run the swap jobs are, one for one and in order, those asked for:
    with the ids, user, tokens, symbols and amount of their requests, the simulated
    output as quote until it is paid, and that output less the spread as minimum.
    Every instant fill, awaited or finished, is one asked for in the run.
   */
  lemma {:induction false} SwapsAreAsRequested(config: Config, s0: State, actions: seq<Action>)
    requires Initial(s0) && ValidRun(config, s0, actions)
    ensures AllRequested(Run(config, s0, actions).swaps, Requested(config, s0, actions))
    ensures AllAsked(Run(config, s0, actions), actions)
  {
    hide Run, Inv, ValidRun, Requested, KeepsRequest;
    InitialInv(config, s0);
    RunIsRequested(config, s0, actions, [], []);
    assert [] + Requested(config, s0, actions) == Requested(config, s0, actions) && [] + actions == actions;
  }

  // ----- What a swap pays -----

  /** What x of a token with l1Decimals is worth in one with tokenDecimals, rounded down if it has fewer. */
  predicate IsWorth(y: int, x: nat, l1Decimals: nat, tokenDecimals: nat) {
    && y * Pow10(l1Decimals) <= x * Pow10(tokenDecimals) < (y + 1) * Pow10(l1Decimals)
    && (l1Decimals <= tokenDecimals ==> y * Pow10(l1Decimals) == x * Pow10(tokenDecimals))
  }

  /** What is to be paid for an answer: the worth of the returned amount, or the minimum if that is missing or 0. */
  predicate IsDue(y: int, answer: SwapAnswer, minOut: nat)
    requires answer.Returned?
  {
    if answer.amount.None? || answer.amount.value == 0 then y == minOut
    else IsWorth(y, answer.amount.value, answer.l1Decimals, answer.tokenDecimals)
  }

  lemma ScalingKeepsWorth(x: nat, l1Decimals: nat, tokenDecimals: nat)
    ensures IsWorth(ScaleAtomic(x, l1Decimals, tokenDecimals), x, l1Decimals, tokenDecimals)
  {
    hide Pow10;
    var y := ScaleAtomic(x, l1Decimals, tokenDecimals);
    MulDistributes(y, 1, Pow10(l1Decimals));
    if l1Decimals > tokenDecimals {
      var unit, factor := Pow10(l1Decimals - tokenDecimals), Pow10(tokenDecimals);
      Pow10Add(l1Decimals - tokenDecimals, tokenDecimals);
      DivMod(x, unit);
      ScaledBounds(y, x, unit, factor);
    } else {
      Pow10Add(tokenDecimals - l1Decimals, l1Decimals);
      MulAssociates(x, Pow10(tokenDecimals - l1Decimals), Pow10(l1Decimals));
    }
  }

  lemma ScaledBounds(y: nat, x: nat, unit: nat, factor: nat)
    requires y * unit <= x < y * unit + unit && factor > 0
    ensures y * (unit * factor) <= x * factor < (y + 1) * (unit * factor)
  {
    MulAssociates(y, unit, factor);
    MulAssociates(y + 1, unit, factor);
    MulMonotone(factor, y * unit, x);
    MulMonotone(factor, x + 1, (y + 1) * unit);
  }

  lemma AnswerIsRecorded(s: State, answer: SwapAnswer)
    requires JobsInv(s) && s.worker.AwaitingSwap? && s.worker.next < |s.rebalances| && answer.Returned?
    ensures var j, t := s.worker.next, AfterSwap(s, answer);
            && j < |t.rebalances| && t.rebalances[j].state == SettlingBack
            && t.rebalances[j].actualOut.Some?
            && IsDue(t.rebalances[j].actualOut.value, answer, s.rebalances[j].minOut)
  {
    hide FindId, IsWorth, ScaleAtomic;
    FindDistinct(RebalanceIds(s.rebalances), s.worker.next);
    if answer.amount.Some? { ScalingKeepsWorth(answer.amount.value, answer.l1Decimals, answer.tokenDecimals); }
  }

  /** A job that settles keeps what is due until it is finished. */
  lemma {:induction false} SettlingWaits(config: Config, s: State, actions: seq<Action>, j: nat)
    requires Inv(config, s) && ValidRun(config, s, actions)
    requires j < |s.rebalances| && s.rebalances[j].state == SettlingBack
    ensures var t := Run(config, s, actions);
            j < |t.rebalances| && (t.rebalances[j].state.Terminal() || t.rebalances[j] == s.rebalances[j])
    decreases |actions|
  {
    hide Inv, Step, Enabled;
    if |actions| > 0 {
      var t := Step(config, s, actions[0]);
      StepKeepsInv(config, s, actions[0]);
      if t.rebalances[j].state.Terminal() {
        RunKeepsFinishedJobs(config, t, actions[1..]);
      } else {
        SettlingWaits(config, t, actions[1..], j);
      }
    }
  }

  /** A swap keeps its terms over any run. */
  lemma {:induction false} SwapKeepsTerms(config: Config, s: State, actions: seq<Action>, i: nat)
    requires Inv(config, s) && ValidRun(config, s, actions) && i < |s.swaps|
    ensures var t := Run(config, s, actions);
            i < |t.swaps| && t.swaps[i] == s.swaps[i].(state := t.swaps[i].state, quotedOut := t.swaps[i].quotedOut)
    decreases |actions|
  {
    hide Inv, Step, Enabled;
    if |actions| > 0 {
      StepKeepsInv(config, s, actions[0]);
      SwapKeepsTerms(config, Step(config, s, actions[0]), actions[1..], i);
    }
  }

  /** A settling tick pays the recorded amount to the swap's user and takes it into stock, and moves nothing else. */
  lemma SettlingPays(s: State, canSubmit: bool, routeable: bool, i: nat)
    requires JobsInv(s) && s.worker.AwaitingHealth? && s.worker.next < |s.rebalances| && i < |s.swaps|
    requires var job := s.rebalances[s.worker.next];
             job.state == SettlingBack && job.actualOut.Some? && job.linked == Some(s.swaps[i].id)
    ensures var t, job, swap := AfterHealth(s, true, canSubmit, routeable), s.rebalances[s.worker.next], s.swaps[i];
            var paid := job.actualOut.value;
            && |t.swaps| == |s.swaps| && t.swaps[i].state == Completed && t.swaps[i].quotedOut == paid
            && Pays(s, t, swap, paid)
  {
    hide LinkedInStep, ReleasedOnce, FirstComeFirstServed, WorkerInStep, Settle, FindId;
    var j, job := s.worker.next, s.rebalances[s.worker.next];
    FindDistinct(RebalanceIds(s.rebalances), j);
    FindDistinct(SwapIds(s.swaps), i);
    var idle := s.(worker := Idle);
    SettlingFindsSwap(s, j, i);
    MarkIsIdle(s, j);
    assert Remark(idle, job) == idle;
    assert AfterHealth(s, true, canSubmit, routeable) == Settle(idle, job);
    SettleEffects(idle, job, j, i);
  }

  lemma SettleEffects(s: State, job: RebalanceJob, j: nat, i: nat)
    requires j < |s.rebalances| && s.rebalances[j] == job && FindId(RebalanceIds(s.rebalances), job.id) == Some(j)
    requires i < |s.swaps| && job.linked.Some? && FindId(SwapIds(s.swaps), job.linked.value) == Some(i)
    requires job.actualOut.Some? && job.amountIn == s.swaps[i].amountIn
    requires job.inputSymbol == s.swaps[i].fromSymbol && job.outputSymbol == s.swaps[i].toSymbol
    ensures var t, paid := Settle(s, job), job.actualOut.value;
            && |t.swaps| == |s.swaps| && t.swaps[i].state == Completed && t.swaps[i].quotedOut == paid
            && Pays(s, t, s.swaps[i], paid)
  {
    hide FindId;
  }

  lemma SettlingFindsSwap(s: State, j: nat, i: nat)
    requires JobsInv(s) && j < |s.rebalances| && i < |s.swaps| && s.rebalances[j].linked == Some(s.swaps[i].id)
    ensures PartnerOf(s.swaps, s.rebalances[j].linked) == Some(i) && Agree(s.swaps[i], s.rebalances[j])
  {
    hide ReleasedOnce, FirstComeFirstServed, WorkerInStep;
    FindDistinct(SwapIds(s.swaps), i);
  }

  /** The user's output balance and the router's stock rise by the amount, and the stock gives up the input. */
  ghost predicate Pays(s: State, t: State, swap: SwapJob, amount: int) {
    && (forall k :: t.Available(k) == s.Available(k) + if k == Key(swap.user, swap.toToken) then amount else 0)
    && (forall symbol :: Inventory(t, symbol) == Inventory(s, symbol)
          + (if symbol == swap.toSymbol then amount else 0) - (if symbol == swap.fromSymbol then swap.amountIn else 0))
  }

  /** A job that settles pays what is recorded for it, whenever its tick comes. */
  lemma {:induction false} SettlesAsRecorded(config: Config, t: State, rest: seq<Action>, j: nat, i: nat,
                                             canSubmit: bool, routeable: bool)
    requires Inv(config, t) && ValidRun(config, t, rest) && j < |t.rebalances| && i < |t.swaps|
    requires var job := t.rebalances[j];
             job.state == SettlingBack && job.actualOut.Some? && job.linked == Some(t.swaps[i].id)
    requires var u := Run(config, t, rest); u.worker == AwaitingHealth(j) && j < |u.rebalances|
    ensures var u := Run(config, t, rest);
            Pays(u, AfterHealth(u, true, canSubmit, routeable), t.swaps[i], t.rebalances[j].actualOut.value)
  {
    hide BookInv, AfterHealth, Pays, LinkedInStep, FirstComeFirstServed, ReleasedOnce, Run;
    RunKeepsInv(config, t, rest);
    SettlingWaits(config, t, rest, j);
    SwapKeepsTerms(config, t, rest, i);
    var u := Run(config, t, rest);
    SettlingPays(u, canSubmit, routeable, i);
    PaysOnTerms(u, AfterHealth(u, true, canSubmit, routeable), u.swaps[i], t.swaps[i],
                t.rebalances[j].actualOut.value);
  }

  /** The exchange's answer is recorded for its job; neither the job nor its swap changes its terms. */
  lemma AnswerKeepsTerms(config: Config, s: State, answer: SwapAnswer, i: nat)
    requires Inv(config, s) && Enabled(s, ExchangeAnswer(answer)) && answer.Returned?
    requires i < |s.swaps| && s.rebalances[s.worker.next].linked == Some(s.swaps[i].id)
    ensures var j, t := s.worker.next, AfterSwap(s, answer);
            && Inv(config, t) && j < |t.rebalances| && i < |t.swaps|
            && t.rebalances[j].state == SettlingBack && t.rebalances[j].linked == Some(t.swaps[i].id)
            && t.rebalances[j].actualOut.Some?
            && IsDue(t.rebalances[j].actualOut.value, answer, s.swaps[i].minOut)
            && t.swaps[i] == s.swaps[i].(state := t.swaps[i].state, quotedOut := t.swaps[i].quotedOut)
  {
    hide BookInv, FindId, AfterSwap, IsDue, LinkedInStep, FirstComeFirstServed, ReleasedOnce, WorkerInStep;
    assert Step(config, s, ExchangeAnswer(answer)) == AfterSwap(s, answer);
    StepKeepsInv(config, s, ExchangeAnswer(answer));
    AnswerIsRecorded(s, answer);
    SettlingFindsSwap(s, s.worker.next, i);
  }

  /**
    However a run goes on after the exchange has answered for a linked job, the tick
    that settles the job pays what is due for that answer: the user's balance of the
    output token and the router's stock of it rise by the worth of the amount.
   */
  lemma {:induction false} SwapPaysWhatTheExchangeGave(config: Config, s: State, answer: SwapAnswer, i: nat,
                                                       rest: seq<Action>, canSubmit: bool, routeable: bool)
    requires Inv(config, s) && s.worker.AwaitingSwap? && s.worker.next < |s.rebalances| && answer.Returned?
    requires i < |s.swaps| && s.rebalances[s.worker.next].linked == Some(s.swaps[i].id)
    requires ValidRun(config, AfterSwap(s, answer), rest)
    requires var u := Run(config, AfterSwap(s, answer), rest);
             u.worker == AwaitingHealth(s.worker.next) && s.worker.next < |u.rebalances|
    ensures var u := Run(config, AfterSwap(s, answer), rest);
            var v := AfterHealth(u, true, canSubmit, routeable);
            exists due: int :: IsDue(due, answer, s.swaps[i].minOut) && Pays(u, v, s.swaps[i], due)
  {
    hide Inv, AfterHealth, AfterSwap, Pays, IsDue, Run;
    var j, t := s.worker.next, AfterSwap(s, answer);
    var u := Run(config, t, rest);
    AnswerKeepsTerms(config, s, answer, i);
    SettlesAsRecorded(config, t, rest, j, i, canSubmit, routeable);
    PaysOnTerms(u, AfterHealth(u, true, canSubmit, routeable), t.swaps[i], s.swaps[i],
                t.rebalances[j].actualOut.value);
  }

  lemma PaysOnTerms(s: State, t: State, now: SwapJob, before: SwapJob, amount: int)
    requires Pays(s, t, now, amount) && now == before.(state := now.state, quotedOut := now.quotedOut)
    ensures Pays(s, t, before, amount)
  {
  }

  // ----- Jobs of the router's own -----

  /** The stock gives up the input and takes in the amount; no user's balance moves. */
  ghost predicate Restocks(s: State, t: State, job: RebalanceJob, amount: int) {
    && t.balances == s.balances && t.locked == s.locked && t.events == s.events
    && forall symbol :: Inventory(t, symbol) == Inventory(s, symbol)
         + (if symbol == job.outputSymbol then amount else 0)
         - (if symbol == job.inputSymbol then job.amountIn else 0)
  }

  lemma SettlingRestocks(s: State, canSubmit: bool, routeable: bool)
    requires JobsInv(s) && s.worker.AwaitingHealth? && s.worker.next < |s.rebalances|
    requires var job := s.rebalances[s.worker.next];
             job.state == SettlingBack && job.actualOut.Some? && job.linked.None?
    ensures var job := s.rebalances[s.worker.next];
            Restocks(s, AfterHealth(s, true, canSubmit, routeable), job, job.actualOut.value)
  {
    hide LinkedInStep, ReleasedOnce, FirstComeFirstServed, WorkerInStep;
    FindDistinct(RebalanceIds(s.rebalances), s.worker.next);
  }

  /** A job with no swap takes into stock, when it settles, what is due for the exchange's answer. */
  lemma {:induction false} DriftTakesWhatTheExchangeGave(config: Config, s: State, answer: SwapAnswer,
                                                         rest: seq<Action>, canSubmit: bool, routeable: bool)
    requires Inv(config, s) && s.worker.AwaitingSwap? && s.worker.next < |s.rebalances| && answer.Returned?
    requires s.rebalances[s.worker.next].linked.None?
    requires ValidRun(config, AfterSwap(s, answer), rest)
    requires var u := Run(config, AfterSwap(s, answer), rest);
             u.worker == AwaitingHealth(s.worker.next) && s.worker.next < |u.rebalances|
    ensures var u, job := Run(config, AfterSwap(s, answer), rest), s.rebalances[s.worker.next];
            exists due: int ::
              IsDue(due, answer, job.minOut) && Restocks(u, AfterHealth(u, true, canSubmit, routeable), job, due)
  {
    hide BookInv, AfterHealth, AfterSwap, IsDue, Run, LinkedInStep, FirstComeFirstServed, ReleasedOnce;
    var j, t := s.worker.next, AfterSwap(s, answer);
    assert Step(config, s, ExchangeAnswer(answer)) == t;
    StepKeepsInv(config, s, ExchangeAnswer(answer));
    AnswerIsRecorded(s, answer);
    RunKeepsInv(config, t, rest);
    SettlingWaits(config, t, rest, j);
    var u := Run(config, t, rest);
    SettlingRestocks(u, canSubmit, routeable);
    assert Restocks(u, AfterHealth(u, true, canSubmit, routeable), s.rebalances[j], u.rebalances[j].actualOut.value);
  }

  // ----- Nothing is recorded before it is exchanged -----

  /** A job that has not been to the exchange has no amount recorded. */
  ghost predicate NothingTooEarly(jobs: seq<RebalanceJob>) {
    forall j :: 0 <= j < |jobs| && jobs[j].state in {Queued, BridgingOut, L1Swap} ==> jobs[j].actualOut.None?
  }

  lemma JobsComeEmpty(config: Config, s: State, a: Action)
    requires Inv(config, s) && Enabled(s, a)
    ensures var t := Step(config, s, a);
            forall j :: |s.rebalances| <= j < |t.rebalances| ==> t.rebalances[j].actualOut.None?
  {
    hide FindId, JobsInv, BookInv, AfterHealth, AfterSwap, PlaceAndMatch, Cancel, FinishFill, BeginExecute;
    match a
    case PlaceOrder(place, reference) => PlacingLeavesQueue(config, s, place, reference);
    case CancelOrder(orderId, user) => CancellingLeavesQueue(s, orderId, user);
    case ExecuteSwap(execute, swapId, rebalanceId) => RequestingQueuesEmpty(s, execute, swapId, rebalanceId);
    case FinishInstantFill(index, drift) => FinishingQueuesEmpty(s, index, drift);
    case HealthAnswer(ready, canSubmit, routeable) => AfterHealthKeepsJobs(s, ready, canSubmit, routeable);
    case ExchangeAnswer(answer) => AfterSwapKeepsJobs(s, answer);
    case _ =>
  }

  lemma PlacingLeavesQueue(config: Config, s: State, place: PlaceInput, reference: nat)
    requires Inv(config, s) && Enabled(s, PlaceOrder(place, reference))
    ensures PlaceAndMatch(config, s, place, reference).rebalances == s.rebalances
  {
    hide JobsInv, BookInv, MatchAll, Dust, BuyFills;
    if Place(config.markets, s, place).Ok? {
      var placed := Place(config.markets, s, place).value;
      PlaceKeepsBook(config.markets, s, place);
      MatchAllKeepsBook(config.markets, TermsOf(config, place.marketId, reference), placed, Key("", ""));
    }
  }

  lemma CancellingLeavesQueue(s: State, orderId: string, user: Address)
    ensures OrElse(Cancel(s, orderId, user), s).rebalances == s.rebalances
  {
    hide Add, FindId;
  }

  lemma RequestingQueuesEmpty(s: State, execute: ExecuteInput, swapId: string, rebalanceId: string)
    requires SpreadWithinBounds(execute)
    ensures var t := OrElse(BeginExecute(s, execute, swapId, rebalanceId), s);
            forall j :: |s.rebalances| <= j < |t.rebalances| ==> t.rebalances[j].actualOut.None?
  {
    hide Add, MakeQuote;
  }

  /** A job of the router's own is queued on its own terms. */
  lemma FinishingQueuesEmpty(s: State, index: nat, drift: Option<RebalanceJob>)
    requires index < |s.intents|
    ensures var jobs := FinishFill(s, index, drift).rebalances;
            if drift.None? then jobs == s.rebalances
            else
              && |jobs| == |s.rebalances| + 1 && jobs[..|s.rebalances|] == s.rebalances
              && var job := jobs[|s.rebalances|];
                 && job.state == Queued && job.linked.None? && job.actualOut.None?
                 && job.id == drift.value.id && job.marketId == drift.value.marketId
                 && job.inputSymbol == drift.value.inputSymbol && job.outputSymbol == drift.value.outputSymbol
                 && job.amountIn == drift.value.amountIn && job.minOut == drift.value.minOut
  {
    hide Add, AddInventory;
  }

  lemma StepRecordsInTime(config: Config, s: State, a: Action)
    requires Inv(config, s) && Enabled(s, a) && NothingTooEarly(s.rebalances)
    ensures NothingTooEarly(Step(config, s, a).rebalances)
  {
    hide JobsInv, BookInv, Step, Enabled;
    StepKeepsInv(config, s, a);
    JobsComeEmpty(config, s, a);
  }

  lemma {:induction false} RunRecordsInTime(config: Config, s: State, actions: seq<Action>)
    requires Inv(config, s) && NothingTooEarly(s.rebalances) && ValidRun(config, s, actions)
    ensures NothingTooEarly(Run(config, s, actions).rebalances)
    decreases |actions|
  {
    hide Inv, Step, Enabled, NothingTooEarly;
    if |actions| > 0 {
      StepKeepsInv(config, s, actions[0]);
      StepRecordsInTime(config, s, actions[0]);
      RunRecordsInTime(config, Step(config, s, actions[0]), actions[1..]);
    }
  }

  /** In every reachable state a job that has not been to the exchange has no amount recorded. */
  lemma {:induction false} NothingIsRecordedTooEarly(config: Config, s0: State, actions: seq<Action>)
    requires Initial(s0) && ValidRun(config, s0, actions)
    ensures NothingTooEarly(Run(config, s0, actions).rebalances)
  {
    hide Run, Inv, ValidRun;
    InitialInv(config, s0);
    RunRecordsInTime(config, s0, actions);
  }

  /** A swap job is created exactly when the balance covers its amount, which then moves to the locked one. */
  lemma CreatedWhenCovered(s: State, input: SwapInput, swapId: string, rebalanceId: string)
    ensures var r, k := CreateAsyncSwapJob(s, input, swapId, rebalanceId), Key(input.user, input.fromToken);
            && (r.Ok? <==> input.amountIn <= s.Available(k))
            && (r.Ok? ==> forall key ::
                  var moved := if key == k then input.amountIn else 0;
                  r.value.Available(key) == s.Available(key) - moved && r.value.Locked(key) == s.Locked(key) + moved)
  {
  }
}
