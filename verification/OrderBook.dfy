/**
  Placing, cancelling and matching orders: the pure steps that the service's
  methods are proved against.
 */
module OrderBook {
  import opened AppState
  import opened Ledger
  import opened Outcome
  import opened Sums

  // ----- Steps -----

  datatype PlaceInput = PlaceInput(
    id: string, user: Address, marketId: string, side: Side, quantity: int, limitPrice: nat, now: int)

  /** The quote value of an amount of base, rounded down to the quote's atomic unit. */
  function Notional(amount: nat, price: nat, decimals: nat): nat {
    Quotient(amount * price, Pow10(decimals))
  }

  /** The amount an order sets aside when placed, rounded with the market's base decimals. */
  function InitialReserve(market: Market, side: Side, quantity: int, limitPrice: nat): int {
    if side == Sell then quantity
    else if quantity >= 0 then Notional(quantity, limitPrice, market.baseDecimals)
    else 0 - Notional(0 - quantity, limitPrice, market.baseDecimals)
  }

  function ReservedToken(market: Market, side: Side): Address {
    if side == Buy then market.quoteToken else market.baseToken
  }

  function Place(markets: Markets, s: State, input: PlaceInput): Result<State> {
    if input.marketId !in markets then Err("Market not found")
    else
      var market := markets[input.marketId];
      var token := ReservedToken(market, input.side);
      var reserve := InitialReserve(market, input.side, input.quantity, input.limitPrice);
      if reserve <= 0 then Err("Order reserve must be positive")
      else
        var k := Key(input.user, token);
        if s.Available(k) < reserve then Err("Insufficient available balance in dark vault ledger")
        else
          QuantityPositive(market, input.side, input.quantity, input.limitPrice);
          var order := Order(input.id, input.user, input.marketId, input.side, input.limitPrice, input.quantity,
                             input.quantity, token, reserve, Open, input.now);
          Ok(s.(balances := Add(s.balances, k, -reserve), locked := Add(s.locked, k, reserve),
                orders := s.orders + [order]))
  }

  lemma QuantityPositive(market: Market, side: Side, quantity: int, limitPrice: nat)
    requires InitialReserve(market, side, quantity, limitPrice) > 0
    ensures quantity > 0
  {
  }

  lemma NotionalOfNothing(price: nat, decimals: nat)
    ensures Notional(0, price, decimals) == 0
  {
  }

  /** What a cancellation refunds: a buy order's reserve is rounded with 18 decimals, whatever the market's are. */
  function RemainingReserve(o: Order): nat {
    if o.side == Sell then o.remaining else Notional(o.remaining, o.limitPrice, 18)
  }

  function Cancel(s: State, orderId: string, user: Address): Result<State> {
    var found := FindId(OrderIds(s.orders), orderId);
    if found.None? then Err("Order not found")
    else
      var o := s.orders[found.value];
      if o.user != user then Err("Order owner mismatch")
      else if !o.Live() then Err("Only open orders can be cancelled")
      else
        var refundable: int := RemainingReserve(o);
        Ok(s.(locked := Add(s.locked, o.ReserveKey(), -refundable),
              balances := Add(s.balances, o.ReserveKey(), refundable),
              orders := s.orders[found.value := o.(status := Cancelled, remaining := 0)]))
  }

  predicate Eligible(o: Order, marketId: string, side: Side) {
    o.marketId == marketId && o.side == side && o.Live()
  }

  /** The sort comparator puts a strictly before b. */
  predicate Before(a: Order, b: Order) {
    if a.limitPrice != b.limitPrice then
      (if a.side == Buy then a.limitPrice > b.limitPrice else a.limitPrice < b.limitPrice)
    else a.createdAt < b.createdAt
  }

  /**
    The head of the filtered, stably sorted list: no eligible order sorts before
    it, and among equals it is the oldest entry.
   */
  function First(orders: seq<Order>, marketId: string, side: Side): (r: Option<nat>)
    ensures r.None? <==> forall i :: 0 <= i < |orders| ==> !Eligible(orders[i], marketId, side)
    ensures r.Some? ==>
              && r.value < |orders| && Eligible(orders[r.value], marketId, side)
              && (forall i :: 0 <= i < |orders| && Eligible(orders[i], marketId, side) ==>
                                !Before(orders[i], orders[r.value]))
              && (forall i :: 0 <= i < r.value && Eligible(orders[i], marketId, side) ==>
                                Before(orders[r.value], orders[i]))
  {
    if |orders| == 0 then None
    else
      var last := |orders| - 1;
      var front := First(orders[..last], marketId, side);
      if !Eligible(orders[last], marketId, side) then front
      else if front.Some? && !Before(orders[last], orders[front.value]) then front
      else Some(last)
  }

  datatype Halt = NothingToMatch | NotCrossing | OutsideBand | DivisionByZero

  datatype Terms = Terms(market: Market, marketId: string, reference: nat, bandBps: nat)

  predicate OutsideReferenceBand(terms: Terms, price: nat)
    requires terms.reference != 0
  {
    var diff := if price > terms.reference then price - terms.reference else terms.reference - price;
    diff * 10_000 / terms.reference > terms.bandBps
  }

  /** Why the loop returns, or None when it trades once more. */
  function HaltReason(terms: Terms, orders: seq<Order>): Option<Halt> {
    var buy := First(orders, terms.marketId, Buy);
    var sell := First(orders, terms.marketId, Sell);
    if buy.None? || sell.None? then Some(NothingToMatch)
    else if orders[buy.value].limitPrice < orders[sell.value].limitPrice then Some(NotCrossing)
    else if terms.reference == 0 then Some(DivisionByZero)
    else if OutsideReferenceBand(terms, orders[sell.value].limitPrice) then Some(OutsideBand)
    else None
  }

  function Reduced(o: Order, traded: nat): Order
    requires traded <= o.remaining
  {
    var remaining := o.remaining - traded;
    o.(remaining := remaining,
       status := if remaining == 0 then Filled else Partial,
       reserved := if remaining == 0 then 0 else o.reserved)
  }

  function Traded(buy: Order, sell: Order): nat {
    if buy.remaining < sell.remaining then buy.remaining else sell.remaining
  }

  /** A trade between the orders at b and a, at the seller's limit. */
  function Trade(market: Market, s: State, b: nat, a: nat): State
    requires b < |s.orders| && a < |s.orders|
  {
    var buy, sell := s.orders[b], s.orders[a];
    var traded: int := Traded(buy, sell);
    var price := sell.limitPrice;
    var cost: int := Notional(traded, price, market.baseDecimals);
    var atLimit: int := Notional(traded, buy.limitPrice, market.baseDecimals);
    var refund := atLimit - cost;
    var quoteOfBuyer := Key(buy.user, market.quoteToken);
    var locked := Add(Add(s.locked, quoteOfBuyer, -atLimit), Key(sell.user, market.baseToken), -traded);
    var credited := Add(Add(s.balances, Key(buy.user, market.baseToken), traded),
                        Key(sell.user, market.quoteToken), cost);
    s.(locked := locked,
       balances := if refund > 0 then Add(credited, quoteOfBuyer, refund) else credited,
       orders := s.orders[b := Reduced(buy, traded)][a := Reduced(sell, traded)],
       fills := s.fills + [Fill(buy.id, sell.id, buy.user, sell.user, market.baseToken, market.quoteToken,
                                traded, price, cost)])
  }

  function MatchOnce(terms: Terms, s: State): State
    requires HaltReason(terms, s.orders).None?
  {
    Trade(terms.market, s, First(s.orders, terms.marketId, Buy).value, First(s.orders, terms.marketId, Sell).value)
  }

  function LiveIn(marketId: string): Order -> int {
    (o: Order) => if o.marketId == marketId && o.Live() then 1 else 0
  }

  /** The live orders of one market: what the match loop runs down. */
  function LiveCount(orders: seq<Order>, marketId: string): (n: nat) {
    SumNonNegative(orders, LiveIn(marketId));
    Sum(orders, LiveIn(marketId))
  }

  /** Every pass of the loop leaves strictly fewer live orders in the market. */
  lemma MatchOnceRunsDown(terms: Terms, s: State)
    requires HaltReason(terms, s.orders).None?
    ensures LiveCount(MatchOnce(terms, s).orders, terms.marketId) < LiveCount(s.orders, terms.marketId)
  {
    var b := First(s.orders, terms.marketId, Buy).value;
    var a := First(s.orders, terms.marketId, Sell).value;
    var traded := Traded(s.orders[b], s.orders[a]);
    SumUpdate(s.orders, b, Reduced(s.orders[b], traded), LiveIn(terms.marketId));
    SumUpdate(s.orders[b := Reduced(s.orders[b], traded)], a, Reduced(s.orders[a], traded), LiveIn(terms.marketId));
  }

  /**
    Each fill pairs the buy with the highest limit with the sell with the lowest,
    the oldest of each at that limit, for as much as both still want, at the
    seller's limit, which lies within the reference band.
   */
  lemma FillPairsTheBestOrders(terms: Terms, s: State)
    requires HaltReason(terms, s.orders).None?
    ensures exists b, a ::
              && 0 <= b < |s.orders| && 0 <= a < |s.orders|
              && Eligible(s.orders[b], terms.marketId, Buy) && Eligible(s.orders[a], terms.marketId, Sell)
              && s.orders[a].limitPrice <= s.orders[b].limitPrice
              && !OutsideReferenceBand(terms, s.orders[a].limitPrice)
              && (forall i :: 0 <= i < |s.orders| && Eligible(s.orders[i], terms.marketId, Buy) ==>
                                NotLater(s.orders, b, i))
              && (forall i :: 0 <= i < |s.orders| && Eligible(s.orders[i], terms.marketId, Sell) ==>
                                NotLater(s.orders, a, i))
              && MatchOnce(terms, s) == Trade(terms.market, s, b, a)
              && var f := MatchOnce(terms, s).fills[|s.fills|];
                 && f.buyId == s.orders[b].id && f.sellId == s.orders[a].id && f.price == s.orders[a].limitPrice
                 && f.base <= s.orders[b].remaining && f.base <= s.orders[a].remaining
                 && (f.base == s.orders[b].remaining || f.base == s.orders[a].remaining)
  {
    var b := First(s.orders, terms.marketId, Buy).value;
    var a := First(s.orders, terms.marketId, Sell).value;
    assert MatchOnce(terms, s) == Trade(terms.market, s, b, a);
    assert forall i :: 0 <= i < |s.orders| && Eligible(s.orders[i], terms.marketId, Buy) ==> NotLater(s.orders, b, i);
    assert forall i :: 0 <= i < |s.orders| && Eligible(s.orders[i], terms.marketId, Sell) ==> NotLater(s.orders, a, i);
  }

  /** Order i has no better limit than order b, nor the same limit and an earlier arrival. */
  predicate NotLater(orders: seq<Order>, b: nat, i: nat)
    requires b < |orders| && i < |orders|
  {
    var x, y := orders[b], orders[i];
    if x.limitPrice != y.limitPrice then
      (if x.side == Buy then y.limitPrice < x.limitPrice else x.limitPrice < y.limitPrice)
    else x.createdAt < y.createdAt || (x.createdAt == y.createdAt && b <= i)
  }

  datatype Matched = Matched(state: State, halt: Halt)

  function MatchAll(terms: Terms, s: State): Matched
    decreases LiveCount(s.orders, terms.marketId)
  {
    var halt := HaltReason(terms, s.orders);
    if halt.Some? then Matched(s, halt.value)
    else
      MatchOnceRunsDown(terms, s);
      MatchAll(terms, MatchOnce(terms, s))
  }

  // ----- What the match loop leaves behind -----

  /** The cheapest live ask of the market. */
  ghost predicate CheapestAsk(orders: seq<Order>, marketId: string, price: nat) {
    && (exists i :: 0 <= i < |orders| && Eligible(orders[i], marketId, Sell) && orders[i].limitPrice == price)
    && (forall i :: 0 <= i < |orders| && Eligible(orders[i], marketId, Sell) ==> price <= orders[i].limitPrice)
  }

  ghost predicate Uncrossed(orders: seq<Order>, marketId: string) {
    forall i, j | 0 <= i < |orders| && 0 <= j < |orders| ::
      Eligible(orders[i], marketId, Buy) && Eligible(orders[j], marketId, Sell) ==>
        orders[i].limitPrice < orders[j].limitPrice
  }

  /**
    When the loop returns, no live buy reaches a live sell, or the cheapest ask is
    outside the reference band; the loop throws instead, before any trade, exactly
    when the reference price is zero and the book it is given is crossed.
   */
  lemma {:induction false} MatchAllSettlesTheBook(terms: Terms, s: State)
    ensures var r := MatchAll(terms, s);
            var crossed := !Uncrossed(r.state.orders, terms.marketId);
            && (crossed <==> r.halt == OutsideBand || r.halt == DivisionByZero)
            && (r.halt == DivisionByZero <==> !Uncrossed(s.orders, terms.marketId) && terms.reference == 0)
            && (r.halt == DivisionByZero ==> r.state == s)
            && (r.halt == OutsideBand ==> exists price ::
                  CheapestAsk(r.state.orders, terms.marketId, price) && OutsideReferenceBand(terms, price))
    decreases LiveCount(s.orders, terms.marketId)
  {
    var halt := HaltReason(terms, s.orders);
    if halt.None? {
      MatchOnceRunsDown(terms, s);
      MatchAllSettlesTheBook(terms, MatchOnce(terms, s));
    } else {
      var buy := First(s.orders, terms.marketId, Buy);
      var sell := First(s.orders, terms.marketId, Sell);
      if buy.Some? && sell.Some? {
        var bid, ask := s.orders[buy.value].limitPrice, s.orders[sell.value].limitPrice;
        assert CheapestAsk(s.orders, terms.marketId, ask);
        assert forall i :: 0 <= i < |s.orders| && Eligible(s.orders[i], terms.marketId, Buy) ==>
                             s.orders[i].limitPrice <= bid;
      }
    }
  }
}
