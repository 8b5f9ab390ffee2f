/**
  The orders and fills of a run in terms of the requests that came in: what was
  asked for is what is kept, traded and paid.
 */
module OrderRequests {
  import opened AppState
  import opened DarkPool
  import opened DarkPoolRuns
  import opened Ledger
  import opened OrderBook
  import opened Outcome
  import opened Reserves
  import opened Router
  import opened Sums
  import opened SwapProtocol
  import opened SwapSafety

  // ----- The requests behind a run -----

  /** The requests that made orders, in order. */
  function Placed(config: Config, s: State, actions: seq<Action>): seq<PlaceInput>
    requires ValidRun(config, s, actions)
    decreases |actions|
  {
    if |actions| == 0 then []
    else
      var t := Step(config, s, actions[0]);
      (if actions[0].PlaceOrder? && |t.orders| > |s.orders| then [actions[0].place] else [])
      + Placed(config, t, actions[1..])
  }

  /** The actions that made fills: for each fill the one during which it happened. */
  function Makers(config: Config, s: State, actions: seq<Action>): seq<Action>
    requires ValidRun(config, s, actions)
    decreases |actions|
  {
    if |actions| == 0 then []
    else
      var t := Step(config, s, actions[0]);
      seq(if |t.fills| > |s.fills| then |t.fills| - |s.fills| else 0, _ => actions[0])
      + Makers(config, t, actions[1..])
  }

  /** The order is the one asked for. */
  predicate Keeps(o: Order, place: PlaceInput) {
    && o.id == place.id && o.user == place.user && o.marketId == place.marketId && o.side == place.side
    && o.limitPrice == place.limitPrice && o.quantity == place.quantity && o.createdAt == place.now
  }

  ghost predicate AllKept(orders: seq<Order>, places: seq<PlaceInput>) {
    |orders| == |places| && forall i :: 0 <= i < |orders| ==> Keeps(orders[i], places[i])
  }

  // ----- Orders keep their terms -----

  /** The same orders but for what trading and cancelling change. */
  ghost predicate SameTerms(before: seq<Order>, after: seq<Order>) {
    && |before| == |after|
    && forall i :: 0 <= i < |before| ==>
         after[i] == before[i].(remaining := after[i].remaining, reserved := after[i].reserved,
                                status := after[i].status)
  }

  lemma SameTermsKeep(before: seq<Order>, after: seq<Order>, places: seq<PlaceInput>)
    requires SameTerms(before, after) && AllKept(before, places)
    ensures AllKept(after, places)
  {
  }

  /** The two requests a fill is between. */
  ghost predicate Between(config: Config, f: Fill, buy: PlaceInput, sell: PlaceInput, maker: Action) {
    && maker.PlaceOrder?
    && buy.side == Buy && sell.side == Sell
    && f.buyId == buy.id && f.sellId == sell.id && f.buyer == buy.user && f.seller == sell.user
    && buy.marketId == sell.marketId == maker.place.marketId
    && sell.limitPrice == f.price <= buy.limitPrice
    && buy.marketId in config.markets
    && var market := config.markets[buy.marketId];
       && f.baseToken == market.baseToken && f.quoteToken == market.quoteToken
       && 0 < f.base
       && f.cost * Pow10(market.baseDecimals) <= f.base * f.price < (f.cost + 1) * Pow10(market.baseDecimals)
       && InBand(config.bandBps, maker.reference, f.price)
  }

  /** The price is off the reference by less than one basis point more than the band. */
  predicate InBand(bandBps: nat, reference: nat, price: nat) {
    var off := if price < reference then reference - price else price - reference;
    off * 10_000 < (bandBps + 1) * reference
  }

  ghost predicate Answers(config: Config, places: seq<PlaceInput>, f: Fill, maker: Action) {
    exists b, a :: 0 <= b < |places| && 0 <= a < |places| && Between(config, f, places[b], places[a], maker)
  }

  ghost predicate AllAnswer(config: Config, places: seq<PlaceInput>, fills: seq<Fill>, makers: seq<Action>) {
    |fills| == |makers| && forall j :: 0 <= j < |fills| ==> Answers(config, places, fills[j], makers[j])
  }

  lemma BandMeansNear(terms: Terms, price: nat)
    requires terms.reference != 0 && !OutsideReferenceBand(terms, price)
    ensures InBand(terms.bandBps, terms.reference, price)
  {
    var off := if price < terms.reference then terms.reference - price else price - terms.reference;
    DivMod(off * 10_000, terms.reference);
    MulMonotone(terms.reference, off * 10_000 / terms.reference, terms.bandBps);
    assert (terms.bandBps + 1) * terms.reference == terms.reference * terms.bandBps + terms.reference;
  }

  /** The cost is the exact value, rounded down to the quote's atomic unit. */
  lemma {:induction false} CostIsFloor(amount: nat, price: nat, decimals: nat)
    ensures var cost := Notional(amount, price, decimals);
            cost * Pow10(decimals) <= amount * price < (cost + 1) * Pow10(decimals)
  {
    DivMod(amount * price, Pow10(decimals));
    MulDistributes(Notional(amount, price, decimals), 1, Pow10(decimals));
  }

  /** The later fills follow the earlier ones, and the new ones are between requests. */
  ghost predicate MoreAnswer(config: Config, places: seq<PlaceInput>, maker: Action, before: seq<Fill>,
                             after: seq<Fill>)
  {
    && |before| <= |after| && after[..|before|] == before
    && forall j :: |before| <= j < |after| ==> Answers(config, places, after[j], maker)
  }

  lemma MoreAnswerChain(config: Config, places: seq<PlaceInput>, maker: Action, a: seq<Fill>, b: seq<Fill>,
                        c: seq<Fill>)
    requires MoreAnswer(config, places, maker, a, b) && MoreAnswer(config, places, maker, b, c)
    ensures MoreAnswer(config, places, maker, a, c)
  {
    hide Answers;
    forall j | |a| <= j < |c| ensures Answers(config, places, c[j], maker) {
      if j < |b| { assert c[j] == c[..|b|][j]; }
    }
    assert c[..|a|] == c[..|b|][..|a|];
  }

  lemma TradeKeepsTerms(terms: Terms, s: State)
    requires HaltReason(terms, s.orders).None?
    ensures var t := MatchOnce(terms, s);
            && SameTerms(s.orders, t.orders)
            && |t.fills| == |s.fills| + 1 && t.fills == s.fills + [t.fills[|s.fills|]]
  {
    hide Notional, Add;
  }

  lemma TradeAnswers(config: Config, place: PlaceInput, reference: nat, s: State, places: seq<PlaceInput>)
    requires place.marketId in config.markets && BookInv(config.markets, s) && AllKept(s.orders, places)
    requires HaltReason(TermsOf(config, place.marketId, reference), s.orders).None?
    ensures var t := MatchOnce(TermsOf(config, place.marketId, reference), s);
            MoreAnswer(config, places, PlaceOrder(place, reference), s.fills, t.fills)
  {
    hide FillTotals, FillIdsKnown, Notional, Pow10, OutsideReferenceBand, Add, InBand;
    var terms, maker := TermsOf(config, place.marketId, reference), PlaceOrder(place, reference);
    var b, a := First(s.orders, terms.marketId, Buy).value, First(s.orders, terms.marketId, Sell).value;
    var buy, sell := s.orders[b], s.orders[a];
    var t := MatchOnce(terms, s);
    TradeKeepsTerms(terms, s);
    BandMeansNear(terms, sell.limitPrice);
    CostIsFloor(Traded(buy, sell), sell.limitPrice, terms.market.baseDecimals);
    assert Keeps(buy, places[b]) && Keeps(sell, places[a]);
    assert WellFormedOrder(config.markets, buy) && WellFormedOrder(config.markets, sell);
    assert Between(config, t.fills[|s.fills|], places[b], places[a], maker);
    assert Answers(config, places, t.fills[|s.fills|], maker);
  }

  lemma {:induction false} MatchAllAnswers(config: Config, place: PlaceInput, reference: nat, s: State,
                                           places: seq<PlaceInput>)
    requires place.marketId in config.markets && BookInv(config.markets, s) && AllKept(s.orders, places)
    ensures var t := MatchAll(TermsOf(config, place.marketId, reference), s).state;
            && SameTerms(s.orders, t.orders)
            && MoreAnswer(config, places, PlaceOrder(place, reference), s.fills, t.fills)
    decreases LiveCount(s.orders, place.marketId)
  {
    hide BookInv, MoreAnswer, AllKept, MatchOnce, SameTerms, HaltReason;
    var terms, maker := TermsOf(config, place.marketId, reference), PlaceOrder(place, reference);
    if HaltReason(terms, s.orders).None? {
      var m := MatchOnce(terms, s);
      MatchOnceKeepsBook(config.markets, terms, s);
      TradeKeepsTerms(terms, s);
      TradeAnswers(config, place, reference, s, places);
      SameTermsKeep(s.orders, m.orders, places);
      MatchOnceRunsDown(terms, s);
      MatchAllAnswers(config, place, reference, m, places);
      var t := MatchAll(terms, s).state;
      SameTermsChain(s.orders, m.orders, t.orders);
      MoreAnswerChain(config, places, maker, s.fills, m.fills, t.fills);
    } else {
      SameTermsRefl(s.orders);
      NoMoreAnswer(config, places, maker, s.fills);
    }
  }

  lemma NoMoreAnswer(config: Config, places: seq<PlaceInput>, maker: Action, fills: seq<Fill>)
    ensures MoreAnswer(config, places, maker, fills, fills)
  {
  }

  lemma SameTermsRefl(orders: seq<Order>)
    ensures SameTerms(orders, orders)
  {
  }

  lemma SameTermsChain(a: seq<Order>, b: seq<Order>, c: seq<Order>)
    requires SameTerms(a, b) && SameTerms(b, c)
    ensures SameTerms(a, c)
  {
  }

  lemma MatchOnceKeepsBook(markets: Markets, terms: Terms, s: State)
    requires BookInv(markets, s) && terms.marketId in markets && markets[terms.marketId] == terms.market
    requires HaltReason(terms, s.orders).None?
    ensures BookInv(markets, MatchOnce(terms, s))
  {
    hide BookInv, Trade;
    TradeKeepsBook(markets, terms, s, First(s.orders, terms.marketId, Buy).value,
                   First(s.orders, terms.marketId, Sell).value);
  }

  // ----- Every run -----

  ghost predicate Traced(config: Config, s: State, places: seq<PlaceInput>, makers: seq<Action>) {
    AllKept(s.orders, places) && AllAnswer(config, places, s.fills, makers)
  }

  lemma MorePlaces(config: Config, places: seq<PlaceInput>, more: seq<PlaceInput>, fills: seq<Fill>,
                   makers: seq<Action>)
    requires AllAnswer(config, places, fills, makers)
    ensures AllAnswer(config, places + more, fills, makers)
  {
    hide Between;
    forall j | 0 <= j < |fills| ensures Answers(config, places + more, fills[j], makers[j]) {
      var b, a :| 0 <= b < |places| && 0 <= a < |places| && Between(config, fills[j], places[b], places[a], makers[j]);
      assert (places + more)[b] == places[b] && (places + more)[a] == places[a];
    }
  }

  lemma OtherActionsKeepTerms(config: Config, s: State, a: Action)
    requires Enabled(s, a) && !a.PlaceOrder?
    ensures var t := Step(config, s, a); SameTerms(s.orders, t.orders) && t.fills == s.fills
  {
    hide FindId, AfterHealth, AfterSwap, Cancel, BeginExecute, FinishFill, SameTerms;
    SameTermsRefl(s.orders);
    match a
    case CancelOrder(orderId, user) => CancellingKeepsTerms(s, orderId, user);
    case ExecuteSwap(execute, swapId, rebalanceId) => RequestingKeepsBook(s, execute, swapId, rebalanceId);
    case FinishInstantFill(index, drift) => FinishingKeepsBook(s, index, drift);
    case _ =>
  }

  lemma CancellingKeepsTerms(s: State, orderId: string, user: Address)
    ensures var t := OrElse(Cancel(s, orderId, user), s); SameTerms(s.orders, t.orders) && t.fills == s.fills
  {
    hide FindId, Add;
  }

  lemma RequestingKeepsBook(s: State, execute: ExecuteInput, swapId: string, rebalanceId: string)
    requires SpreadWithinBounds(execute)
    ensures var t := OrElse(BeginExecute(s, execute, swapId, rebalanceId), s);
            t.orders == s.orders && t.fills == s.fills
  {
    hide MakeQuote, Add;
  }

  lemma FinishingKeepsBook(s: State, index: nat, drift: Option<RebalanceJob>)
    requires index < |s.intents|
    ensures var t := FinishFill(s, index, drift); t.orders == s.orders && t.fills == s.fills
  {
    hide Add, AddInventory;
  }

  lemma PlacingIsTraced(config: Config, s: State, place: PlaceInput, reference: nat, places: seq<PlaceInput>,
                        makers: seq<Action>)
    requires Inv(config, s) && Enabled(s, PlaceOrder(place, reference)) && Traced(config, s, places, makers)
    requires Place(config.markets, s, place).Ok?
    ensures var t := PlaceAndMatch(config, s, place, reference);
            && |t.orders| == |s.orders| + 1 && |t.fills| >= |s.fills|
            && Traced(config, t, places + [place],
                      makers + seq(|t.fills| - |s.fills|, _ => PlaceOrder(place, reference)))
  {
    hide BookInv, JobsInv, MatchAll, Answers;
    var with := Place(config.markets, s, place).value;
    var t := PlaceAndMatch(config, s, place, reference);
    PlaceKeepsBook(config.markets, s, place);
    MorePlaces(config, places, [place], s.fills, makers);
    assert AllKept(with.orders, places + [place]);
    MatchAllAnswers(config, place, reference, with, places + [place]);
    SameTermsKeep(with.orders, t.orders, places + [place]);
    var added := makers + seq(|t.fills| - |s.fills|, _ => PlaceOrder(place, reference));
    forall j | 0 <= j < |t.fills| ensures Answers(config, places + [place], t.fills[j], added[j]) {
      if j < |s.fills| { assert t.fills[j] == t.fills[..|s.fills|][j] == s.fills[j]; }
    }
  }

  lemma {:induction false} StepIsTraced(config: Config, s: State, a: Action, places: seq<PlaceInput>,
                                        makers: seq<Action>)
    requires Inv(config, s) && Enabled(s, a) && Traced(config, s, places, makers)
    ensures Traced(config, Step(config, s, a), places + Placed(config, s, [a]), makers + Makers(config, s, [a]))
  {
    hide BookInv, JobsInv, PlaceAndMatch, AllAnswer, AllKept, Cancel, BeginExecute, FinishFill, AfterHealth, AfterSwap;
    var t := Step(config, s, a);
    OneAction(config, s, a);
    if a.PlaceOrder? && Place(config.markets, s, a.place).Ok? {
      PlacingIsTraced(config, s, a.place, a.reference, places, makers);
    } else {
      if a.PlaceOrder? {
        NothingPlaced(config, s, a.place, a.reference);
      } else {
        OtherActionsKeepTerms(config, s, a);
      }
      SameTermsKeep(s.orders, t.orders, places);
      assert places + [] == places && makers + [] == makers;
    }
  }

  lemma NothingPlaced(config: Config, s: State, place: PlaceInput, reference: nat)
    requires Place(config.markets, s, place).Err?
    ensures PlaceAndMatch(config, s, place, reference) == s && SameTerms(s.orders, s.orders)
  {
  }

  lemma {:induction false} OneAction(config: Config, s: State, a: Action)
    requires Enabled(s, a)
    ensures ValidRun(config, s, [a])
    ensures var t := Step(config, s, a);
            && Placed(config, s, [a]) == (if a.PlaceOrder? && |t.orders| > |s.orders| then [a.place] else [])
            && Makers(config, s, [a]) == seq(if |t.fills| > |s.fills| then |t.fills| - |s.fills| else 0, _ => a)
  {
    hide Step, Enabled;
    assert [a][1..] == [];
  }

  lemma Reassociate<T>(a: seq<T>, b: seq<T>, c: seq<T>)
    ensures a + (b + c) == a + b + c
  {
  }

  lemma {:induction false} FirstAction(config: Config, s: State, actions: seq<Action>)
    requires ValidRun(config, s, actions)
    ensures |actions| == 0 ==> Placed(config, s, actions) == [] && Makers(config, s, actions) == []
    ensures |actions| > 0 ==>
              var a, t := actions[0], Step(config, s, actions[0]);
              && ValidRun(config, s, [a]) && ValidRun(config, t, actions[1..])
              && Placed(config, s, actions) == Placed(config, s, [a]) + Placed(config, t, actions[1..])
              && Makers(config, s, actions) == Makers(config, s, [a]) + Makers(config, t, actions[1..])
  {
    hide Step, Enabled;
    if |actions| > 0 { OneAction(config, s, actions[0]); }
  }

  lemma {:induction false} RunIsTraced(config: Config, s: State, actions: seq<Action>, places: seq<PlaceInput>,
                                       makers: seq<Action>)
    requires Inv(config, s) && ValidRun(config, s, actions) && Traced(config, s, places, makers)
    ensures Traced(config, Run(config, s, actions), places + Placed(config, s, actions),
                   makers + Makers(config, s, actions))
    decreases |actions|
  {
    hide Inv, Step, Traced, Enabled, Placed, Makers;
    FirstAction(config, s, actions);
    if |actions| == 0 {
      assert places + [] == places && makers + [] == makers;
    } else {
      var t, a, rest := Step(config, s, actions[0]), actions[0], actions[1..];
      StepKeepsInv(config, s, a);
      StepIsTraced(config, s, a, places, makers);
      RunIsTraced(config, t, rest, places + Placed(config, s, [a]), makers + Makers(config, s, [a]));
      Reassociate(places, Placed(config, s, [a]), Placed(config, t, rest));
      Reassociate(makers, Makers(config, s, [a]), Makers(config, t, rest));
    }
  }

  /**
    After any run the orders are, one for one and in order, those asked for: with
    the id, user, market, side, limit price, quantity and time of their requests.
   */
  lemma {:induction false} OrdersAreAsRequested(config: Config, s0: State, actions: seq<Action>)
    requires Initial(s0) && ValidRun(config, s0, actions)
    ensures AllKept(Run(config, s0, actions).orders, Placed(config, s0, actions))
  {
    hide Run, Inv, ValidRun, Placed, Makers, AllKept, AllAnswer;
    TracedFromTheStart(config, s0, actions);
  }

  lemma {:induction false} TracedFromTheStart(config: Config, s0: State, actions: seq<Action>)
    requires Initial(s0) && ValidRun(config, s0, actions)
    ensures Traced(config, Run(config, s0, actions), Placed(config, s0, actions), Makers(config, s0, actions))
  {
    hide Run, Inv, ValidRun, Placed, Makers;
    InitialInv(config, s0);
    RunIsTraced(config, s0, actions, [], []);
    assert [] + Placed(config, s0, actions) == Placed(config, s0, actions);
    assert [] + Makers(config, s0, actions) == Makers(config, s0, actions);
  }

  /**
    After any run each fill is between a buy and a sell request of one market, made
    while an order of that market was placed: at the limit the seller asked for,
    which is within the buyer's and within the band around the reference that the
    placement saw, for the exact value rounded down.
   */
  lemma {:induction false} FillsAreWithinRequests(config: Config, s0: State, actions: seq<Action>)
    requires Initial(s0) && ValidRun(config, s0, actions)
    ensures AllAnswer(config, Placed(config, s0, actions), Run(config, s0, actions).fills,
                      Makers(config, s0, actions))
  {
    hide Run, Inv, ValidRun, Placed, Makers, AllKept, AllAnswer;
    TracedFromTheStart(config, s0, actions);
  }

  // ----- What a request ends up paying or receiving -----

  /** Over all its fills a buy request pays at most its own limit price for what it buys. */
  lemma {:induction false} BuyerPaysWithinRequest(config: Config, s0: State, actions: seq<Action>, i: nat)
    requires Initial(s0) && ValidRun(config, s0, actions)
    ensures var s, places := Run(config, s0, actions), Placed(config, s0, actions);
            |s.orders| == |places| &&
            (i < |places| && places[i].side == Buy ==>
               var place, o := places[i], s.orders[i];
               var bought, paid := Sum(s.fills, BaseTraded(Buy, place.id)), Sum(s.fills, QuoteTraded(Buy, place.id));
               && place.marketId in config.markets
               && 0 <= bought <= place.quantity
               && (o.status != Cancelled ==> bought == place.quantity - o.remaining)
               && paid * Pow10(config.markets[place.marketId].baseDecimals) <= bought * place.limitPrice)
  {
    hide Run, Placed, Notional, Pow10, ValidRun, JobsInv, FillTotals, FillIdsKnown;
    var s := Run(config, s0, actions);
    OrdersAreAsRequested(config, s0, actions);
    InitialInv(config, s0);
    RunKeepsInv(config, s0, actions);
    if i < |s.orders| && s.orders[i].side == Buy {
      BuyerPaysWithinLimit(config, s0, actions, i);
      var o := s.orders[i];
      assert WellFormedOrder(config.markets, o);
      var bought := Sum(s.fills, BaseTraded(Buy, o.id));
      var decimals := config.markets[o.marketId].baseDecimals;
      CostIsFloor(bought, o.limitPrice, decimals);
      AtMostFloor(Sum(s.fills, QuoteTraded(Buy, o.id)), Notional(bought, o.limitPrice, decimals), Pow10(decimals),
                  bought * o.limitPrice);
    }
  }

  lemma AtMostFloor(x: int, q: int, d: nat, value: int)
    requires x <= q && q * d <= value
    ensures x * d <= value
  {
    MulMonotone(d, x, q);
  }

  lemma AboveFloor(x: int, k: int, q: int, d: nat, value: int)
    requires q - (k - 1) <= x && value < (q + 1) * d
    ensures value < (x + k) * d
  {
    MulMonotone(d, q + 1, x + k);
  }

  /** A sell request receives that price for what it sells, short of less than one unit a fill. */
  lemma {:induction false} SellerReceivesRequest(config: Config, s0: State, actions: seq<Action>, i: nat)
    requires Initial(s0) && ValidRun(config, s0, actions)
    ensures var s, places := Run(config, s0, actions), Placed(config, s0, actions);
            |s.orders| == |places| &&
            (i < |places| && places[i].side == Sell ==>
               var place, o := places[i], s.orders[i];
               var sold := Sum(s.fills, BaseTraded(Sell, place.id));
               var received := Sum(s.fills, QuoteTraded(Sell, place.id));
               var trades := Sum(s.fills, TradeCount(Sell, place.id));
               && place.marketId in config.markets
               && 0 <= sold <= place.quantity
               && (o.status != Cancelled ==> sold == place.quantity - o.remaining)
               && var unit := Pow10(config.markets[place.marketId].baseDecimals);
                  && received * unit <= sold * place.limitPrice
                  && (trades > 0 ==> sold * place.limitPrice < (received + trades) * unit))
  {
    hide Run, Placed, Notional, Pow10, ValidRun, JobsInv, FillTotals, FillIdsKnown;
    var s := Run(config, s0, actions);
    OrdersAreAsRequested(config, s0, actions);
    InitialInv(config, s0);
    RunKeepsInv(config, s0, actions);
    if i < |s.orders| && s.orders[i].side == Sell {
      SellerReceivesLimit(config, s0, actions, i);
      var o := s.orders[i];
      assert WellFormedOrder(config.markets, o);
      var sold, received := Sum(s.fills, BaseTraded(Sell, o.id)), Sum(s.fills, QuoteTraded(Sell, o.id));
      var trades := Sum(s.fills, TradeCount(Sell, o.id));
      var decimals := config.markets[o.marketId].baseDecimals;
      var value := Notional(sold, o.limitPrice, decimals);
      CostIsFloor(sold, o.limitPrice, decimals);
      AtMostFloor(received, value, Pow10(decimals), sold * o.limitPrice);
      if trades > 0 { AboveFloor(received, trades, value, Pow10(decimals), sold * o.limitPrice); }
    }
  }

  // ----- Which requests are accepted -----

  /**
    An order is accepted exactly when its market is known, it is worth at least one
    unit of what it has to set aside, and the user has that much; then just that is
    moved from the available to the locked amount.
   */
  lemma PlacedWhenCovered(markets: Markets, s: State, place: PlaceInput)
    ensures Place(markets, s, place).Ok? <==>
              && place.marketId in markets
              && var market := markets[place.marketId];
                 if place.side == Sell then
                   0 < place.quantity <= s.Available(Key(place.user, market.baseToken))
                 else
                   var unit, worth := Pow10(market.baseDecimals), place.quantity * place.limitPrice;
                   unit <= worth < (s.Available(Key(place.user, market.quoteToken)) + 1) * unit
    ensures Place(markets, s, place).Ok? ==>
              var market, t := markets[place.marketId], Place(markets, s, place).value;
              var key := Key(place.user, if place.side == Sell then market.baseToken else market.quoteToken);
              var aside := t.Locked(key) - s.Locked(key);
              && (if place.side == Sell then aside == place.quantity
                  else var unit := Pow10(market.baseDecimals);
                       aside * unit <= place.quantity * place.limitPrice < (aside + 1) * unit)
              && forall k :: t.Available(k) == s.Available(k) - (if k == key then aside else 0)
                             && t.Locked(k) == s.Locked(k) + if k == key then aside else 0
  {
    hide Notional, Pow10, Get, Add;
    if place.marketId in markets && place.side == Buy {
      var market := markets[place.marketId];
      var unit, worth := Pow10(market.baseDecimals), place.quantity * place.limitPrice;
      if place.quantity >= 0 {
        CostIsFloor(place.quantity, place.limitPrice, market.baseDecimals);
        var reserve := Notional(place.quantity, place.limitPrice, market.baseDecimals);
        FloorAtMost(reserve, worth, unit, s.Available(Key(place.user, market.quoteToken)));
        FloorAtMost(reserve, worth, unit, 0);
      } else {
        NegativeWorth(place.quantity, place.limitPrice);
      }
    }
  }

  lemma NegativeWorth(quantity: int, price: nat)
    requires quantity < 0
    ensures quantity * price <= 0
  {
  }

  lemma FloorAtMost(q: int, value: int, d: nat, limit: int)
    requires d > 0 && q * d <= value < (q + 1) * d
    ensures q <= limit <==> value < (limit + 1) * d
  {
    if q <= limit {
      MulMonotone(d, q + 1, limit + 1);
    } else {
      MulMonotone(d, limit + 1, q);
    }
  }

  /** An order is cancelled exactly by a request of its own user, while it is live. */
  lemma CancelledByItsUser(config: Config, s: State, a: Action, i: nat)
    requires Inv(config, s) && Enabled(s, a) && i < |s.orders| && s.orders[i].status != Cancelled
    ensures var t := Step(config, s, a);
            && i < |t.orders|
            && (t.orders[i].status == Cancelled <==>
                  s.orders[i].Live() && a == CancelOrder(s.orders[i].id, s.orders[i].user))
  {
    hide FindId, JobsInv, WellFormedOrder, FillTotals, FillIdsKnown, AfterHealth, AfterSwap, PlaceAndMatch, Cancel,
         BeginExecute, FinishFill;
    var o := s.orders[i];
    match a
    case PlaceOrder(place, reference) =>
      if Place(config.markets, s, place).Ok? { PlacingCancelsNothing(config, s, place, reference, i); }
      else { NothingPlaced(config, s, place, reference); }
    case CancelOrder(orderId, user) => CancellingTheOne(s, orderId, user, i);
    case ExecuteSwap(execute, swapId, rebalanceId) => RequestingKeepsBook(s, execute, swapId, rebalanceId);
    case FinishInstantFill(index, drift) => FinishingKeepsBook(s, index, drift);
    case _ =>
  }

  lemma CancellingTheOne(s: State, orderId: string, user: Address, i: nat)
    requires Distinct(OrderIds(s.orders)) && i < |s.orders| && s.orders[i].status != Cancelled
    ensures var t := OrElse(Cancel(s, orderId, user), s);
            && |t.orders| == |s.orders|
            && (t.orders[i].status == Cancelled <==>
                  s.orders[i].Live() && orderId == s.orders[i].id && user == s.orders[i].user)
  {
    hide Add;
    FindDistinct(OrderIds(s.orders), i);
  }

  lemma PlacingCancelsNothing(config: Config, s: State, place: PlaceInput, reference: nat, i: nat)
    requires Place(config.markets, s, place).Ok? && i < |s.orders| && s.orders[i].status != Cancelled
    ensures var t := PlaceAndMatch(config, s, place, reference);
            i < |t.orders| && t.orders[i].status != Cancelled
  {
    hide MatchAll;
    MatchingCancelsNothing(TermsOf(config, place.marketId, reference), Place(config.markets, s, place).value, i);
  }

  lemma {:induction false} MatchingCancelsNothing(terms: Terms, s: State, i: nat)
    requires i < |s.orders| && s.orders[i].status != Cancelled
    ensures var t := MatchAll(terms, s).state; i < |t.orders| && t.orders[i].status != Cancelled
    decreases LiveCount(s.orders, terms.marketId)
  {
    hide MatchOnce, HaltReason;
    if HaltReason(terms, s.orders).None? {
      MatchOnceRunsDown(terms, s);
      TradingCancelsNothing(terms, s, i);
      MatchingCancelsNothing(terms, MatchOnce(terms, s), i);
    }
  }

  lemma TradingCancelsNothing(terms: Terms, s: State, i: nat)
    requires HaltReason(terms, s.orders).None? && i < |s.orders| && s.orders[i].status != Cancelled
    ensures var t := MatchOnce(terms, s); i < |t.orders| && t.orders[i].status != Cancelled
  {
    hide Add, Notional;
  }

  // ----- Status and reserve -----

  /** The status says how much is left, and the recorded reserve is what was set aside, until the order is filled. */
  predicate Consistent(markets: Markets, o: Order)
    requires o.marketId in markets
  {
    var market := markets[o.marketId];
    var unit := Pow10(market.baseDecimals);
    && (match o.status
        case Open => o.remaining == o.quantity
        case Partial => 0 < o.remaining < o.quantity
        case Filled => o.remaining == 0
        case Cancelled => o.remaining == 0)
    && o.reservedToken == (if o.side == Sell then market.baseToken else market.quoteToken)
    && (if o.status == Filled then o.reserved == 0
        else if o.side == Sell then o.reserved == o.quantity
        else o.reserved * unit <= o.quantity * o.limitPrice < (o.reserved + 1) * unit)
  }

  ghost predicate AllConsistent(markets: Markets, orders: seq<Order>) {
    forall i :: 0 <= i < |orders| ==> orders[i].marketId in markets && Consistent(markets, orders[i])
  }

  lemma PlacedIsConsistent(markets: Markets, s: State, place: PlaceInput)
    requires Place(markets, s, place).Ok? && AllConsistent(markets, s.orders)
    ensures AllConsistent(markets, Place(markets, s, place).value.orders)
  {
    hide Notional, Pow10, Add, Get;
    var market := markets[place.marketId];
    if place.quantity >= 0 { CostIsFloor(place.quantity, place.limitPrice, market.baseDecimals); }
  }

  lemma TradeIsConsistent(markets: Markets, terms: Terms, s: State)
    requires HaltReason(terms, s.orders).None? && BookInv(markets, s) && AllConsistent(markets, s.orders)
    ensures AllConsistent(markets, MatchOnce(terms, s).orders)
  {
    hide FillTotals, FillIdsKnown, Add, Notional, Pow10, OutsideReferenceBand;
    var b, a := First(s.orders, terms.marketId, Buy).value, First(s.orders, terms.marketId, Sell).value;
    var traded := Traded(s.orders[b], s.orders[a]);
    assert WellFormedOrder(markets, s.orders[b]) && WellFormedOrder(markets, s.orders[a]);
    ReducedIsConsistent(markets, s.orders[b], traded);
    ReducedIsConsistent(markets, s.orders[a], traded);
  }

  lemma ReducedIsConsistent(markets: Markets, o: Order, traded: nat)
    requires WellFormedOrder(markets, o) && Consistent(markets, o) && o.Live() && 0 < traded <= o.remaining
    ensures Consistent(markets, Reduced(o, traded))
  {
    hide Pow10;
  }

  lemma {:induction false} MatchAllIsConsistent(markets: Markets, terms: Terms, s: State)
    requires BookInv(markets, s) && terms.marketId in markets && markets[terms.marketId] == terms.market
    requires AllConsistent(markets, s.orders)
    ensures AllConsistent(markets, MatchAll(terms, s).state.orders)
    decreases LiveCount(s.orders, terms.marketId)
  {
    hide BookInv, MatchOnce, HaltReason, AllConsistent;
    if HaltReason(terms, s.orders).None? {
      MatchOnceKeepsBook(markets, terms, s);
      TradeIsConsistent(markets, terms, s);
      MatchOnceRunsDown(terms, s);
      MatchAllIsConsistent(markets, terms, MatchOnce(terms, s));
    }
  }

  lemma CancellingIsConsistent(markets: Markets, s: State, orderId: string, user: Address)
    requires AllConsistent(markets, s.orders)
    ensures AllConsistent(markets, OrElse(Cancel(s, orderId, user), s).orders)
  {
    hide FindId, Add, Pow10;
  }

  lemma StepIsConsistent(config: Config, s: State, a: Action)
    requires Inv(config, s) && Enabled(s, a) && AllConsistent(config.markets, s.orders)
    ensures AllConsistent(config.markets, Step(config, s, a).orders)
  {
    hide FindId, JobsInv, BookInv, AllConsistent, AfterHealth, AfterSwap, Cancel, BeginExecute, FinishFill,
         MatchAll, Place;
    match a
    case PlaceOrder(place, reference) =>
      if Place(config.markets, s, place).Ok? {
        KnownMarket(config.markets, s, place);
        PlaceKeepsBook(config.markets, s, place);
        PlacedIsConsistent(config.markets, s, place);
        MatchAllIsConsistent(config.markets, TermsOf(config, place.marketId, reference),
                             Place(config.markets, s, place).value);
      }
    case CancelOrder(orderId, user) => CancellingIsConsistent(config.markets, s, orderId, user);
    case ExecuteSwap(execute, swapId, rebalanceId) => RequestingKeepsBook(s, execute, swapId, rebalanceId);
    case FinishInstantFill(index, drift) => FinishingKeepsBook(s, index, drift);
    case _ =>
  }

  lemma KnownMarket(markets: Markets, s: State, place: PlaceInput)
    requires Place(markets, s, place).Ok?
    ensures place.marketId in markets
  {
  }

  lemma {:induction false} RunIsConsistent(config: Config, s: State, actions: seq<Action>)
    requires Inv(config, s) && AllConsistent(config.markets, s.orders) && ValidRun(config, s, actions)
    ensures AllConsistent(config.markets, Run(config, s, actions).orders)
    decreases |actions|
  {
    hide Inv, Step, Enabled, AllConsistent;
    if |actions| > 0 {
      StepKeepsInv(config, s, actions[0]);
      StepIsConsistent(config, s, actions[0]);
      RunIsConsistent(config, Step(config, s, actions[0]), actions[1..]);
    }
  }

  /** In every reachable state the status and the recorded reserve of each order are what its quantities say. */
  lemma {:induction false} OrdersAreConsistent(config: Config, s0: State, actions: seq<Action>)
    requires Initial(s0) && ValidRun(config, s0, actions)
    ensures AllConsistent(config.markets, Run(config, s0, actions).orders)
  {
    hide Run, Inv, ValidRun, Consistent;
    InitialInv(config, s0);
    RunIsConsistent(config, s0, actions);
  }
}
