/**
  What every step of the order book keeps: how the locked amounts relate to the
  live orders, and what each order has paid or received over all its fills.
 */
module Reserves {
  import opened AppState
  import opened Ledger
  import opened OrderBook
  import opened Sums

  // ----- Locked amounts -----

  /** The part of the ledger a live order still needs, rounded with its market's decimals. */
  function Reserve(markets: Markets, o: Order): nat {
    if !o.Live() || o.marketId !in markets then 0
    else if o.side == Sell then o.remaining
    else Notional(o.remaining, o.limitPrice, markets[o.marketId].baseDecimals)
  }

  function ReserveOn(markets: Markets, k: Key): Order -> int {
    (o: Order) => if o.ReserveKey() == k then Reserve(markets, o) else 0
  }

  function PendingOn(k: Key): SwapJob -> int {
    (job: SwapJob) => if job.LockKey() == k && !job.state.Terminal() then job.amountIn else 0
  }

  function BoughtWith(k: Key): Fill -> int {
    (f: Fill) => if Key(f.buyer, f.quoteToken) == k then 1 else 0
  }

  /** Locked value that no live order and no unfinished swap accounts for. */
  function Dust(markets: Markets, s: State, k: Key): int {
    s.Locked(k) - Sum(s.orders, ReserveOn(markets, k)) - Sum(s.swaps, PendingOn(k))
  }

  /** The number of fills a user has bought with a token. */
  function BuyFills(s: State, k: Key): int {
    Sum(s.fills, BoughtWith(k))
  }

  ghost predicate WellFormedOrder(markets: Markets, o: Order) {
    && o.marketId in markets
    && o.reservedToken == ReservedToken(markets[o.marketId], o.side)
    && o.remaining <= o.quantity
    && (o.Live() <==> o.remaining > 0)
  }

  // ----- Totals of one order over its fills -----

  predicate Involves(f: Fill, side: Side, id: string) {
    if side == Buy then f.buyId == id else f.sellId == id
  }

  function BaseTraded(side: Side, id: string): Fill -> int {
    (f: Fill) => if Involves(f, side, id) then f.base else 0
  }

  function QuoteTraded(side: Side, id: string): Fill -> int {
    (f: Fill) => if Involves(f, side, id) then f.cost else 0
  }

  function TradeCount(side: Side, id: string): Fill -> int {
    (f: Fill) => if Involves(f, side, id) then 1 else 0
  }

  /**
    A buyer has paid at most the rounded-down value of everything bought at its
    own limit; a seller has received that value less at most one unit for each
    fill after the first.
   */
  ghost predicate FillTotals(markets: Markets, fills: seq<Fill>, o: Order)
    requires o.marketId in markets
  {
    var base := Sum(fills, BaseTraded(o.side, o.id));
    var quote := Sum(fills, QuoteTraded(o.side, o.id));
    var trades := Sum(fills, TradeCount(o.side, o.id));
    && 0 <= base <= o.quantity
    && 0 <= quote
    && 0 <= trades
    && (o.status != Cancelled ==> base + o.remaining == o.quantity)
    && (trades == 0 ==> base == 0 && quote == 0)
    && quote <= Notional(base, o.limitPrice, markets[o.marketId].baseDecimals)
    && (o.side == Sell && trades >= 1 ==>
          Notional(base, o.limitPrice, markets[o.marketId].baseDecimals) - (trades - 1) <= quote)
  }

  ghost predicate FillIdsKnown(s: State) {
    forall f :: f in s.fills ==> f.buyId in OrderIds(s.orders) && f.sellId in OrderIds(s.orders)
  }

  ghost predicate BookInv(markets: Markets, s: State) {
    && Distinct(OrderIds(s.orders))
    && FillIdsKnown(s)
    && (forall i :: 0 <= i < |s.orders| ==> WellFormedOrder(markets, s.orders[i]))
    && (forall i :: 0 <= i < |s.orders| ==> FillTotals(markets, s.fills, s.orders[i]))
  }

  // ----- Rounding -----

  lemma NotionalSplit(a: nat, b: nat, price: nat, decimals: nat)
    ensures Notional(a, price, decimals) + Notional(b, price, decimals)
         <= Notional(a + b, price, decimals)
         <= Notional(a, price, decimals) + Notional(b, price, decimals) + 1
  {
    MulDistributes(a, b, price);
    FloorSplit(a * price, b * price, Pow10(decimals));
  }

  lemma NotionalMonotone(a: nat, lower: nat, upper: nat, decimals: nat)
    requires lower <= upper
    ensures Notional(a, lower, decimals) <= Notional(a, upper, decimals)
  {
    MulMonotone(a, lower, upper);
    DivMonotone(a * lower, a * upper, Pow10(decimals));
  }

  /** Dividing by more powers of ten gives less, and the same only when both give zero. */
  lemma {:induction false} FewerDecimals(x: nat, few: nat, many: nat)
    requires few < many
    ensures x / Pow10(many) <= x / Pow10(few)
    ensures x / Pow10(many) == x / Pow10(few) <==> x < Pow10(few)
  {
    Pow10Add(few, many - few);
    CoarserQuotient(x, Pow10(few), Pow10(many - few));
  }

  lemma CoarserQuotient(x: nat, d: nat, e: nat)
    requires d > 0 && e >= 10
    ensures d * e > 0 && x / (d * e) <= x / d
    ensures x / (d * e) == x / d <==> x < d
  {
    DivDiv(x, d, e);
    Shrinks(x / d, e);
    QuotientZero(x, d);
  }

  lemma QuotientZero(x: nat, d: nat)
    requires d > 0
    ensures x / d == 0 <==> x < d
  {
  }

  lemma Shrinks(q: nat, e: nat)
    requires e >= 10
    ensures q / e <= q
    ensures q / e == q <==> q == 0
  {
  }

  /**
    A cancellation refunds exactly what the order still reserves if and only if
    it is a sell, or the market's base token has 18 decimals, or the remaining
    value is too small to count at either scale.
   */
  lemma CancelRefundExact(markets: Markets, o: Order)
    requires WellFormedOrder(markets, o) && o.Live()
    ensures var decimals := markets[o.marketId].baseDecimals;
            && (RemainingReserve(o) == Reserve(markets, o) <==>
                  || o.side == Sell
                  || decimals == 18
                  || o.remaining * o.limitPrice < Pow10(if decimals < 18 then decimals else 18))
            && (decimals <= 18 ==> RemainingReserve(o) <= Reserve(markets, o))
            && (decimals >= 18 ==> RemainingReserve(o) >= Reserve(markets, o))
  {
    var decimals := markets[o.marketId].baseDecimals;
    var x := o.remaining * o.limitPrice;
    if decimals < 18 {
      FewerDecimals(x, decimals, 18);
    } else if decimals > 18 {
      FewerDecimals(x, 18, decimals);
    }
  }

  /** What a placed order loses when it is cancelled before it trades. */
  function LostByCancelling(o: Order, k: Key): int {
    if k == o.ReserveKey() then o.reserved - RemainingReserve(o) else 0
  }

  /** Cancelling a new order undoes placing it exactly when the refund is the reserve; the difference stays locked. */
  lemma CancelUndoesPlace(markets: Markets, s: State, input: PlaceInput)
    requires Place(markets, s, input).Ok? && input.id !in OrderIds(s.orders)
    ensures var placed := Place(markets, s, input).value;
            var o := placed.orders[|s.orders|];
            var cancelled := Cancel(placed, input.id, input.user);
            && o.Live() && o.reserved == Reserve(markets, o) && cancelled.Ok?
            && (forall k :: cancelled.value.Available(k) == s.Available(k) - LostByCancelling(o, k))
            && (forall k :: cancelled.value.Locked(k) == s.Locked(k) + LostByCancelling(o, k))
            && ((forall k :: cancelled.value.Available(k) == s.Available(k)) <==> RemainingReserve(o) == o.reserved)
  {
    hide Notional, Pow10;
    var placed := Place(markets, s, input).value;
    var o := placed.orders[|s.orders|];
    OrderIdsAppend(s.orders, o);
    assert OrderIds(placed.orders)[..|s.orders|] == OrderIds(s.orders);
    QuantityPositive(markets[o.marketId], o.side, input.quantity, input.limitPrice);
    assert LostByCancelling(o, o.ReserveKey()) == o.reserved - RemainingReserve(o);
  }

  /** One user with some amount of one token, and nothing else. */
  function Funded(k: Key, amount: nat): State {
    State(map[k := amount], map[], [], [], [], [], map[], [], Idle, [])
  }

  /** With 6 decimals, placing and cancelling an order for one whole token at a price of 1 leaves all of it locked. */
  lemma CancelCanStrandFunds()
    ensures exists markets, k, input ::
              var placed := Place(markets, Funded(k, 1_000_000), input);
              && placed.Ok?
              && var cancelled := Cancel(placed.value, input.id, input.user);
                 cancelled.Ok? && cancelled.value.Available(k) == 0 && cancelled.value.Locked(k) == 1_000_000
  {
    hide Cancel, Pow10;
    var markets, k := map["m" := Market("base", "quote", 6)], Key("u", "quote");
    var input := PlaceInput("o", "u", "m", Buy, 1_000_000, 1_000_000, 0);
    OneTokenAtSixDecimals();
    CancelUndoesPlace(markets, Funded(k, 1_000_000), input);
    var o := Place(markets, Funded(k, 1_000_000), input).value.orders[0];
    assert LostByCancelling(o, k) == 1_000_000;
  }

  lemma OneTokenAtSixDecimals()
    ensures Notional(1_000_000, 1_000_000, 6) == 1_000_000 && Notional(1_000_000, 1_000_000, 18) == 0
  {
    var x: nat := 1_000_000_000_000;
    assert Pow10(6) == 1_000_000;
    Pow10Add(6, 12);
    Pow10Add(6, 6);
    assert Pow10(18) == 1_000_000_000_000_000_000;
    DivUnique(x, Pow10(6), 1_000_000, 0);
    DivUnique(x, Pow10(18), 0, x);
  }

  /** With 19 decimals, placing and cancelling an order that reserves one unit unlocks ten. */
  lemma CancelCanOverdrawLocked()
    ensures exists markets, k, input ::
              var placed := Place(markets, Funded(k, 1), input);
              && placed.Ok? && BookInv(markets, placed.value)
              && var cancelled := Cancel(placed.value, input.id, input.user);
                 cancelled.Ok? && cancelled.value.Available(k) == 10 && cancelled.value.Locked(k) == -9
  {
    hide BookInv, Cancel, Pow10;
    var quantity: nat := 10_000_000_000_000_000_000;
    var markets, k := map["m" := Market("base", "quote", 19)], Key("u", "quote");
    var input := PlaceInput("o", "u", "m", Buy, quantity, 1, 0);
    TenToThe18And19(quantity);
    CancelUndoesPlace(markets, Funded(k, 1), input);
    EmptyBook(markets, Funded(k, 1));
    PlaceKeepsBook(markets, Funded(k, 1), input);
    var o := Place(markets, Funded(k, 1), input).value.orders[0];
    assert LostByCancelling(o, k) == -9;
  }

  lemma EmptyBook(markets: Markets, s: State)
    requires s.orders == [] && s.fills == []
    ensures BookInv(markets, s)
  {
  }

  lemma TenToThe18And19(quantity: nat)
    requires quantity == 10_000_000_000_000_000_000
    ensures Notional(quantity, 1, 19) == 1 && Notional(quantity, 1, 18) == 10
  {
    assert Pow10(6) == 1_000_000;
    Pow10Add(6, 6);
    Pow10Add(6, 12);
    Pow10Add(1, 18);
    assert Pow10(18) == 1_000_000_000_000_000_000 && Pow10(19) == quantity;
    DivUnique(quantity, Pow10(19), 1, 0);
    DivUnique(quantity, Pow10(18), 10, 0);
  }

  // ----- Place -----

  lemma PlaceKeepsDust(markets: Markets, s: State, input: PlaceInput, k: Key)
    requires Place(markets, s, input).Ok?
    ensures Dust(markets, Place(markets, s, input).value, k) == Dust(markets, s, k)
  {
    var next := Place(markets, s, input).value;
    SumAppend(s.orders, next.orders[|s.orders|], ReserveOn(markets, k));
  }

  lemma OrderIdsAppend(orders: seq<Order>, o: Order)
    ensures OrderIds(orders + [o]) == OrderIds(orders) + [o.id]
  {
  }

  lemma OrderIdsUpdate(orders: seq<Order>, i: nat, o: Order)
    requires i < |orders| && o.id == orders[i].id
    ensures OrderIds(orders[i := o]) == OrderIds(orders)
  {
  }

  /** An id no fill mentions has no totals. */
  lemma {:induction false} NoFillsNoTotals(fills: seq<Fill>, side: Side, id: string)
    requires forall f :: f in fills ==> !Involves(f, side, id)
    ensures Sum(fills, BaseTraded(side, id)) == Sum(fills, QuoteTraded(side, id)) == 0
    ensures Sum(fills, TradeCount(side, id)) == 0
  {
    if |fills| > 0 {
      NoFillsNoTotals(fills[..|fills| - 1], side, id);
    }
  }

  lemma PlaceKeepsBook(markets: Markets, s: State, input: PlaceInput)
    requires BookInv(markets, s) && Place(markets, s, input).Ok?
    requires input.id !in OrderIds(s.orders)
    ensures BookInv(markets, Place(markets, s, input).value)
  {
    var next := Place(markets, s, input).value;
    var o := next.orders[|s.orders|];
    OrderIdsAppend(s.orders, o);
    NoFillsNoTotals(s.fills, o.side, o.id);
    QuantityPositive(markets[o.marketId], o.side, input.quantity, o.limitPrice);
    assert next.fills == s.fills;
    forall i | 0 <= i < |next.orders|
      ensures WellFormedOrder(markets, next.orders[i]) && FillTotals(markets, next.fills, next.orders[i])
    {
      if i < |s.orders| { assert next.orders[i] == s.orders[i]; }
    }
  }

  // ----- Cancel -----

  /** What a cancellation leaves locked beyond what the order needed. */
  function Unrefunded(markets: Markets, o: Order, k: Key): int {
    if k == o.ReserveKey() then Reserve(markets, o) - RemainingReserve(o) else 0
  }

  lemma {:induction false} CancelMovesDust(markets: Markets, s: State, orderId: string, user: Address, k: Key)
    requires Cancel(s, orderId, user).Ok?
    ensures Dust(markets, Cancel(s, orderId, user).value, k)
         == Dust(markets, s, k) + Unrefunded(markets, s.orders[FindId(OrderIds(s.orders), orderId).value], k)
  {
    var i := FindId(OrderIds(s.orders), orderId).value;
    SumUpdate(s.orders, i, s.orders[i].(status := Cancelled, remaining := 0), ReserveOn(markets, k));
  }

  lemma CancelKeepsBook(markets: Markets, s: State, orderId: string, user: Address)
    requires BookInv(markets, s) && Cancel(s, orderId, user).Ok?
    ensures BookInv(markets, Cancel(s, orderId, user).value)
  {
    var i := FindId(OrderIds(s.orders), orderId).value;
    OrderIdsUpdate(s.orders, i, s.orders[i].(status := Cancelled, remaining := 0));
    var next := Cancel(s, orderId, user).value;
    assert next.fills == s.fills;
    forall j | 0 <= j < |next.orders|
      ensures WellFormedOrder(markets, next.orders[j]) && FillTotals(markets, next.fills, next.orders[j])
    {
      assert WellFormedOrder(markets, s.orders[j]) && FillTotals(markets, s.fills, s.orders[j]);
    }
  }

  // ----- Trade -----

  /** The orders at b and a may trade with each other under the market's terms. */
  ghost predicate Tradable(markets: Markets, terms: Terms, s: State, b: nat, a: nat) {
    && b < |s.orders| && a < |s.orders|
    && Eligible(s.orders[b], terms.marketId, Buy) && Eligible(s.orders[a], terms.marketId, Sell)
    && s.orders[b].limitPrice >= s.orders[a].limitPrice
    && terms.marketId in markets && markets[terms.marketId] == terms.market
  }

  lemma TradeMovesReserves(markets: Markets, terms: Terms, s: State, b: nat, a: nat, k: Key)
    requires Tradable(markets, terms, s, b, a)
    ensures var buy, sell := s.orders[b], s.orders[a];
            var traded := Traded(buy, sell);
            Sum(Trade(terms.market, s, b, a).orders, ReserveOn(markets, k)) - Sum(s.orders, ReserveOn(markets, k)) ==
            (if k == buy.ReserveKey() then Reserve(markets, Reduced(buy, traded)) - Reserve(markets, buy) else 0) +
            (if k == sell.ReserveKey() then Reserve(markets, Reduced(sell, traded)) - Reserve(markets, sell) else 0)
  {
    var buy, sell := s.orders[b], s.orders[a];
    var traded := Traded(buy, sell);
    SumUpdate(s.orders, b, Reduced(buy, traded), ReserveOn(markets, k));
    SumUpdate(s.orders[b := Reduced(buy, traded)], a, Reduced(sell, traded), ReserveOn(markets, k));
  }

  lemma ReducedReserve(markets: Markets, o: Order, traded: nat)
    requires o.marketId in markets && traded <= o.remaining
    ensures var decimals := markets[o.marketId].baseDecimals;
            Reserve(markets, Reduced(o, traded)) ==
            if o.side == Sell then o.remaining - traded else Notional(o.remaining - traded, o.limitPrice, decimals)
  {
    NotionalOfNothing(o.limitPrice, markets[o.marketId].baseDecimals);
  }

  /** A trade turns at most one locked unit of the buyer's quote token into dust. */
  lemma TradeAddsLittleDust(markets: Markets, terms: Terms, s: State, b: nat, a: nat, k: Key)
    requires Tradable(markets, terms, s, b, a)
    requires WellFormedOrder(markets, s.orders[b]) && WellFormedOrder(markets, s.orders[a])
    ensures var next := Trade(terms.market, s, b, a);
            Dust(markets, s, k) <= Dust(markets, next, k) <= Dust(markets, s, k) + BuyFills(next, k) - BuyFills(s, k)
  {
    hide Notional, Sum;
    var buy, sell := s.orders[b], s.orders[a];
    var traded := Traded(buy, sell);
    var next := Trade(terms.market, s, b, a);
    TradeMovesReserves(markets, terms, s, b, a, k);
    ReducedReserve(markets, buy, traded);
    ReducedReserve(markets, sell, traded);
    NotionalSplit(buy.remaining - traded, traded, buy.limitPrice, terms.market.baseDecimals);
    SumAppend(s.fills, next.fills[|s.fills|], BoughtWith(k));
    assert next.swaps == s.swaps;
  }

  /** One more fill at a price within the order's limit keeps the order's totals in bounds. */
  lemma FillKeepsTotals(markets: Markets, fills: seq<Fill>, f: Fill, o: Order)
    requires o.marketId in markets && FillTotals(markets, fills, o) && o.Live()
    requires Involves(f, o.side, o.id) && f.base <= o.remaining
    requires f.cost == Notional(f.base, f.price, markets[o.marketId].baseDecimals)
    requires if o.side == Buy then f.price <= o.limitPrice else f.price == o.limitPrice
    ensures FillTotals(markets, fills + [f], Reduced(o, f.base))
  {
    SumAppend(fills, f, BaseTraded(o.side, o.id));
    SumAppend(fills, f, QuoteTraded(o.side, o.id));
    SumAppend(fills, f, TradeCount(o.side, o.id));
    var base := Sum(fills, BaseTraded(o.side, o.id));
    var decimals := markets[o.marketId].baseDecimals;
    NotionalSplit(base, f.base, o.limitPrice, decimals);
    NotionalMonotone(f.base, f.price, o.limitPrice, decimals);
    NotionalOfNothing(o.limitPrice, decimals);
  }

  /** A fill between two other orders leaves an order's totals alone. */
  lemma OtherFillKeepsTotals(markets: Markets, fills: seq<Fill>, f: Fill, o: Order)
    requires o.marketId in markets && FillTotals(markets, fills, o)
    requires !Involves(f, o.side, o.id)
    ensures FillTotals(markets, fills + [f], o)
  {
  }

  lemma TradeKeepsBook(markets: Markets, terms: Terms, s: State, b: nat, a: nat)
    requires BookInv(markets, s) && Tradable(markets, terms, s, b, a)
    ensures BookInv(markets, Trade(terms.market, s, b, a))
  {
    hide FillTotals, FindId, Notional, Add;
    var buy, sell := s.orders[b], s.orders[a];
    var traded := Traded(buy, sell);
    var next := Trade(terms.market, s, b, a);
    var f := next.fills[|s.fills|];
    OrderIdsUpdate(s.orders, b, Reduced(buy, traded));
    OrderIdsUpdate(s.orders[b := Reduced(buy, traded)], a, Reduced(sell, traded));
    assert OrderIds(s.orders)[b] == buy.id && OrderIds(s.orders)[a] == sell.id;
    assert FillIdsKnown(next);
    forall i | 0 <= i < |next.orders|
      ensures WellFormedOrder(markets, next.orders[i]) && FillTotals(markets, next.fills, next.orders[i])
    {
      var o := s.orders[i];
      assert WellFormedOrder(markets, o) && FillTotals(markets, s.fills, o) && OrderIds(s.orders)[i] == o.id;
      if i == a || i == b {
        FillKeepsTotals(markets, s.fills, f, o);
      } else {
        OtherFillKeepsTotals(markets, s.fills, f, o);
      }
    }
  }
}
