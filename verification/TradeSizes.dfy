/** How much every trade invests, in terms of the profits made before it. */
module TradeSizes {
  import opened Backtest
  import opened BacktestResults
  import opened Indicators
  import opened Outcome

  /** The number that the sizing rule is given. */
  function SizingValue(sizing: Sizing): real {
    match sizing
    case PercentOfEquity(value) => value
    case FixedQuoteNotional(value) => value
  }

  /** There is equity, and the sizing rule asks for some. */
  predicate CanInvest(sizing: Sizing, equity: real) {
    equity > 0.0 && SizingValue(sizing) > 0.0
  }

  /** A stake is that percentage of the equity, or the fixed amount, but never more than all of the equity. */
  predicate IsStake(sizing: Sizing, equity: real, stake: real) {
    && CanInvest(sizing, equity)
    && match sizing
       case PercentOfEquity(value) => if value < 100.0 then stake * 100.0 == equity * value else stake == equity
       case FixedQuoteNotional(value) => if value <= equity then stake == value else stake == equity
  }

  function AtMost(desired: real, equity: real): real {
    var floored := Max(desired, 0.0);
    if floored < equity then floored else equity
  }

  lemma Capped(desired: real, equity: real)
    ensures AtMost(desired, equity) > 0.0 <==> equity > 0.0 && desired > 0.0
    ensures equity > 0.0 && desired > 0.0 ==> AtMost(desired, equity) == if desired < equity then desired else equity
  {
  }

  lemma NotionalIsStake(strategy: Strategy, equity: real)
    ensures EntryNotional(strategy, equity) > 0.0 <==> CanInvest(strategy.sizing, equity)
    ensures CanInvest(strategy.sizing, equity) ==>
              IsStake(strategy.sizing, equity, EntryNotional(strategy, equity))
  {
    hide AtMost;
    match strategy.sizing
    case PercentOfEquity(value) => PercentageIsStake(strategy, equity, value, equity * (value / 100.0));
    case FixedQuoteNotional(value) =>
      assert EntryNotional(strategy, equity) == AtMost(value, equity) by { FixedNotional(strategy, equity); }
      Capped(value, equity);
  }

  lemma FixedNotional(strategy: Strategy, equity: real)
    requires strategy.sizing.FixedQuoteNotional?
    ensures EntryNotional(strategy, equity) == AtMost(strategy.sizing.value, equity)
  {
  }

  lemma PercentageIsStake(strategy: Strategy, equity: real, value: real, desired: real)
    requires strategy.sizing == PercentOfEquity(value) && desired == equity * (value / 100.0)
    ensures EntryNotional(strategy, equity) > 0.0 <==> CanInvest(strategy.sizing, equity)
    ensures CanInvest(strategy.sizing, equity) ==>
              IsStake(strategy.sizing, equity, EntryNotional(strategy, equity))
  {
    assert EntryNotional(strategy, equity) == AtMost(desired, equity);
    hide EntryNotional, AtMost;
    Capped(desired, equity);
    if equity > 0.0 { PercentageOf(equity, value / 100.0, value, desired); }
  }

  lemma PercentageOf(equity: real, part: real, value: real, desired: real)
    requires equity > 0.0 && value == part * 100.0 && desired == equity * part
    ensures desired > 0.0 <==> value > 0.0
    ensures desired < equity <==> value < 100.0
    ensures desired * 100.0 == equity * value
  {
    ShareIsPositive(equity, part, desired);
    ShareIsLess(equity, part, desired);
    HundredTimes(equity, part, value, desired);
  }

  lemma ShareIsPositive(equity: real, part: real, share: real)
    requires equity > 0.0 && share == equity * part
    ensures share > 0.0 <==> part > 0.0
  {
  }

  lemma ShareIsLess(equity: real, part: real, share: real)
    requires equity > 0.0 && share == equity * part
    ensures share < equity <==> part < 1.0
  {
    ShareIsPositive(equity, 1.0 - part, equity - share);
  }

  lemma HundredTimes(equity: real, part: real, value: real, share: real)
    requires value == part * 100.0 && share == equity * part
    ensures share * 100.0 == equity * value
  {
  }

  lemma PriceTimesQuantity(price: real, stake: real)
    requires price != 0.0
    ensures Invested(price, stake / price) == stake
  {
  }

  // ----- Every trade -----

  /** What a quantity costs at its entry price. */
  function Invested(price: real, quantity: real): real { price * quantity }

  /** The equity when trade k is begun: what there was, and the profits of the trades before. */
  function EquityBefore(strategy: Strategy, trades: seq<Trade>, k: nat): real
    requires k <= |trades|
  {
    strategy.startingEquity + SumPnl(trades[..k])
  }

  ghost predicate AllSized(strategy: Strategy, trades: seq<Trade>) {
    forall k :: 0 <= k < |trades| ==>
      IsStake(strategy.sizing, EquityBefore(strategy, trades, k), Invested(trades[k].entryPrice, trades[k].quantity))
  }

  ghost predicate Sized(strategy: Strategy, a: Account) {
    && AllSized(strategy, a.trades)
    && (a.position.Some? ==>
          IsStake(strategy.sizing, a.realized, Invested(a.position.value.entryPrice, a.position.value.quantity)))
  }

  lemma CloseKeepsSizes(strategy: Strategy, a: Account, index: nat, candle: Candle, reason: ExitReason)
    requires Balanced(strategy, a) && Sized(strategy, a)
    ensures AllSized(strategy, ClosePosition(a, index, candle, reason).trades)
  {
    hide Pnl, IsStake, Invested;
    var b := ClosePosition(a, index, candle, reason);
    if a.position.Some? {
      forall k | 0 <= k < |b.trades|
        ensures IsStake(strategy.sizing, EquityBefore(strategy, b.trades, k),
                        Invested(b.trades[k].entryPrice, b.trades[k].quantity))
      {
        if k < |a.trades| {
          assert b.trades[..k] == a.trades[..k] && b.trades[k] == a.trades[k];
        } else {
          assert b.trades[..k] == a.trades;
        }
      }
    }
  }

  lemma OpenIsSized(strategy: Strategy, a: Account, index: nat, candle: Candle, side: PositionSide)
    requires candle.close != 0.0 && a.position.None? && AllSized(strategy, a.trades)
    ensures Sized(strategy, OpenPosition(strategy, a, index, candle, side))
  {
    hide IsStake, EntryNotional, CanInvest, AllSized, Invested;
    NotionalIsStake(strategy, a.realized);
    PriceTimesQuantity(candle.close, EntryNotional(strategy, a.realized));
  }

  lemma BarKeepsSizes(strategy: Strategy, a: Account, index: nat, candle: Candle, s: Signals)
    requires candle.close != 0.0 && Balanced(strategy, a) && Sized(strategy, a)
    ensures Sized(strategy, Bar(strategy, a, index, candle, s))
  {
    hide IsStake, AllSized, Balanced, ExitDecision, OpenPosition, ClosePosition, Invested;
    if a.position.Some? {
      var p := Tracked(a.position.value, candle.close);
      var held := a.(position := Some(p));
      var exit := ExitDecision(strategy.risk, p, candle, index, s.Exit(p.side), s.Entry(Opposite(p.side)));
      TrackedIsSized(strategy, a, candle.close);
      if exit.Some? {
        CloseKeepsSizes(strategy, held, index, candle, exit.value);
        ClosedHasNone(held, index, candle, exit.value);
        OpenIsSized(strategy, ClosePosition(held, index, candle, exit.value), index, candle, Opposite(p.side));
      }
    } else {
      OpenIsSized(strategy, a, index, candle, if s.longEntry then Long else Short);
    }
  }

  lemma TrackedIsSized(strategy: Strategy, a: Account, close: real)
    requires a.position.Some? && Balanced(strategy, a) && Sized(strategy, a)
    ensures var held := a.(position := Some(Tracked(a.position.value, close)));
            Balanced(strategy, held) && Sized(strategy, held)
  {
    hide IsStake, Pnl, Invested;
  }

  lemma ClosedHasNone(a: Account, index: nat, candle: Candle, reason: ExitReason)
    ensures ClosePosition(a, index, candle, reason).position.None?
  {
  }

  lemma {:induction false} LoopKeepsSizes(strategy: Strategy, candles: seq<Candle>, signals: seq<Signals>, n: nat)
    requires n <= |candles| == |signals| && Tradable(candles)
    ensures Sized(strategy, After(strategy, candles, signals, n))
  {
    hide Bar, Balanced, IsStake, Invested;
    if n > 0 {
      var a := After(strategy, candles, signals, n - 1);
      LoopKeepsSizes(strategy, candles, signals, n - 1);
      AccountsBalance(strategy, candles, signals, n - 1);
      BarKeepsSizes(strategy, a, n - 1, candles[n - 1], signals[n - 1]);
    }
  }

  /**
    Every reported trade invests, price times quantity, the percentage or the fixed
    amount that the sizing rule asks for, of and up to the equity that the starting
    equity and the profits of the trades before it make; and only out of some
    equity, for a rule that asks for some.
   */
  lemma {:induction false} TradesAreSized(strategy: Strategy, candles: seq<Candle>, signals: seq<Signals>)
    requires |candles| == |signals| && Tradable(candles)
    ensures var trades := Run(strategy, candles, signals).trades;
            forall k :: 0 <= k < |trades| ==>
              IsStake(strategy.sizing, strategy.startingEquity + SumPnl(trades[..k]),
                      Invested(trades[k].entryPrice, trades[k].quantity))
  {
    hide After, IsStake, Balanced, SumPnl, Curve, Invested;
    var n := |candles|;
    LoopKeepsSizes(strategy, candles, signals, n);
    AccountsBalance(strategy, candles, signals, n);
    var a := After(strategy, candles, signals, n);
    if a.position.Some? && n > 0 {
      CloseKeepsSizes(strategy, a, n - 1, candles[n - 1], ByRule);
    }
  }
}
