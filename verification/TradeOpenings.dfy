/** Every opening of a position is reported: which bars begin a trade, and of what size. */
module TradeOpenings {
  import opened Backtest
  import opened Indicators
  import opened Outcome
  import opened TradeReasons
  import opened TradeSizes

  /** The trade is that of the position. */
  predicate IsTradeOf(t: Trade, p: Position) {
    t.side == p.side && t.entryTime == p.entryTime && t.entryPrice == p.entryPrice && t.quantity == p.quantity
  }

  ghost predicate Reports(trades: seq<Trade>, p: Position) {
    exists t :: t in trades && IsTradeOf(t, p)
  }

  /** One bar holds a position or reports it, and forgets no trade. */
  lemma BarHoldsOrReports(strategy: Strategy, a: Account, index: nat, candle: Candle, s: Signals)
    requires candle.close != 0.0
    ensures var b := Bar(strategy, a, index, candle, s);
            && a.trades <= b.trades
            && (a.position.Some? ==>
                  || Reports(b.trades, a.position.value)
                  || (b.position.Some? &&
                      forall t :: IsTradeOf(t, a.position.value) <==> IsTradeOf(t, b.position.value)))
  {
    hide ExitDecision, EntryNotional, Pnl;
    var b := Bar(strategy, a, index, candle, s);
    if a.position.Some? && |b.trades| > |a.trades| {
      assert IsTradeOf(b.trades[|a.trades|], a.position.value);
    }
  }

  lemma ReportsStay(trades: seq<Trade>, more: seq<Trade>, p: Position)
    requires trades <= more && Reports(trades, p)
    ensures Reports(more, p)
  {
  }

  lemma {:induction false} TradesStay(strategy: Strategy, candles: seq<Candle>, signals: seq<Signals>, n: nat)
    requires n <= |candles| == |signals| && Tradable(candles)
    ensures After(strategy, candles, signals, n).trades <= Run(strategy, candles, signals).trades
    decreases |candles| - n
  {
    hide Bar;
    if n < |candles| {
      BarHoldsOrReports(strategy, After(strategy, candles, signals, n), n, candles[n], signals[n]);
      TradesStay(strategy, candles, signals, n + 1);
    }
  }

  /** A position held after any number of bars is in the report. */
  lemma {:induction false} HeldIsReported(strategy: Strategy, candles: seq<Candle>, signals: seq<Signals>, n: nat)
    requires n <= |candles| == |signals| && Tradable(candles)
    requires n > 0 && After(strategy, candles, signals, n).position.Some?
    ensures Reports(Run(strategy, candles, signals).trades, After(strategy, candles, signals, n).position.value)
    decreases |candles| - n
  {
    hide Bar, IsTradeOf;
    var a := After(strategy, candles, signals, n);
    var p := a.position.value;
    if n == |candles| {
      ClosingReports(a, n - 1, candles[n - 1], ByRule);
    } else {
      var b := After(strategy, candles, signals, n + 1);
      BarHoldsOrReports(strategy, a, n, candles[n], signals[n]);
      if Reports(b.trades, p) {
        TradesStay(strategy, candles, signals, n + 1);
        ReportsStay(b.trades, Run(strategy, candles, signals).trades, p);
      } else {
        HeldIsReported(strategy, candles, signals, n + 1);
      }
    }
  }

  lemma ClosingReports(a: Account, index: nat, candle: Candle, reason: ExitReason)
    requires a.position.Some?
    ensures Reports(ClosePosition(a, index, candle, reason).trades, a.position.value)
  {
    var b := ClosePosition(a, index, candle, reason);
    assert b.trades[|a.trades|] in b.trades && IsTradeOf(b.trades[|a.trades|], a.position.value);
  }

  // ----- Which bars begin a trade -----

  /** A trade on this side that begins at this bar's close and invests what the sizing rule asks of that equity. */
  predicate Begins(t: Trade, candle: Candle, side: PositionSide, sizing: Sizing, equity: real) {
    && t.side == side && t.entryTime == candle.ts && t.entryPrice == candle.close
    && IsStake(sizing, equity, Invested(t.entryPrice, t.quantity))
  }

  lemma ReportedBegins(trades: seq<Trade>, p: Position, candle: Candle, side: PositionSide, strategy: Strategy,
                       equity: real)
    requires candle.close != 0.0 && Reports(trades, p) && CanInvest(strategy.sizing, equity)
    requires p.side == side && p.entryTime == candle.ts && p.entryPrice == candle.close
    requires p.quantity == EntryNotional(strategy, equity) / candle.close
    ensures exists t :: t in trades && Begins(t, candle, side, strategy.sizing, equity)
  {
    hide EntryNotional, CanInvest, IsStake, Invested;
    var t :| t in trades && IsTradeOf(t, p);
    NotionalIsStake(strategy, equity);
    PriceTimesQuantity(candle.close, EntryNotional(strategy, equity));
    assert Begins(t, candle, side, strategy.sizing, equity);
  }

  predicate NothingBegan(a: Account, ts: int) {
    && (forall t :: t in a.trades ==> t.entryTime != ts)
    && (a.position.Some? ==> a.position.value.entryTime != ts)
  }

  lemma OtherBarsBeginElsewhere(strategy: Strategy, a: Account, index: nat, candle: Candle, s: Signals, ts: int)
    requires candle.close != 0.0 && candle.ts != ts && NothingBegan(a, ts)
    ensures NothingBegan(Bar(strategy, a, index, candle, s), ts)
  {
    hide ExitDecision, EntryNotional, Pnl;
  }

  /** Nothing begins at a bar before it comes, nor after it if nothing began then. */
  lemma {:induction false} NothingBeginsElsewhere(strategy: Strategy, candles: seq<Candle>, signals: seq<Signals>,
                                                  n: nat, m: nat)
    requires n < |candles| == |signals| && m <= |candles| && Ascending(candles) && Tradable(candles)
    requires m > n ==> NothingBegan(After(strategy, candles, signals, n + 1), candles[n].ts)
    ensures NothingBegan(After(strategy, candles, signals, m), candles[n].ts)
    decreases m
  {
    hide Bar;
    if m > 0 && m != n + 1 {
      NothingBeginsElsewhere(strategy, candles, signals, n, m - 1);
      OtherBarsBeginElsewhere(strategy, After(strategy, candles, signals, m - 1), m - 1, candles[m - 1],
                              signals[m - 1], candles[n].ts);
    }
  }

  /**
    At a bar with no open position a trade begins exactly when one side alone gives
    an entry signal and there is equity and a size to invest; it is on that side, at
    the bar's close, for the size asked for, up to the equity.
   */
  lemma {:induction false} FlatBarBeginsTrade(strategy: Strategy, candles: seq<Candle>, signals: seq<Signals>, n: nat)
    requires n < |candles| == |signals| && Ascending(candles) && Tradable(candles)
    requires After(strategy, candles, signals, n).position.None?
    ensures var trades := Run(strategy, candles, signals).trades;
            var s, equity := signals[n], After(strategy, candles, signals, n).realized;
            var enters := s.longEntry != s.shortEntry && CanInvest(strategy.sizing, equity);
            && ((exists t :: t in trades && t.entryTime == candles[n].ts) <==> enters)
            && (enters ==>
                  exists t :: t in trades && Begins(t, candles[n], if s.longEntry then Long else Short,
                                                    strategy.sizing, equity))
  {
    hide EntryNotional, ExitDecision, Pnl, IsTradeOf, CanInvest, IsStake;
    var trades := Run(strategy, candles, signals).trades;
    var a, b := After(strategy, candles, signals, n), After(strategy, candles, signals, n + 1);
    var s := signals[n];
    NotionalIsStake(strategy, a.realized);
    if s.longEntry != s.shortEntry && CanInvest(strategy.sizing, a.realized) {
      HeldIsReported(strategy, candles, signals, n + 1);
      ReportedBegins(trades, b.position.value, candles[n], if s.longEntry then Long else Short, strategy, a.realized);
    } else {
      NothingBeginsElsewhere(strategy, candles, signals, n, n);
      assert b == a;
      NothingIsReported(strategy, candles, signals, n);
    }
  }

  lemma ClosingBeginsNothing(strategy: Strategy, a: Account, index: nat, candle: Candle, s: Signals)
    requires candle.close != 0.0 && a.position.Some? && NothingBegan(a, candle.ts)
    requires var p := Tracked(a.position.value, candle.close);
             || ExitDecision(strategy.risk, p, candle, index, s.Exit(p.side), s.Entry(Opposite(p.side)))
                != Some(Reverse)
             || !CanInvest(strategy.sizing, Equity(a, candle.close))
    ensures NothingBegan(Bar(strategy, a, index, candle, s), candle.ts)
  {
    hide ExitDecision, EntryNotional, Pnl, CanInvest, IsStake;
    NotionalIsStake(strategy, Equity(a, candle.close));
  }

  /**
    At a bar with an open position a trade begins exactly when the opposite signal
    is the first reason to close and closing leaves equity and there is a size to
    invest; it is on the opposite side, at the bar's close, for the size asked for,
    up to the equity.
   */
  lemma {:induction false} ReversalBeginsTrade(strategy: Strategy, candles: seq<Candle>, signals: seq<Signals>, n: nat)
    requires n < |candles| == |signals| && Ascending(candles) && Tradable(candles)
    requires After(strategy, candles, signals, n).position.Some?
    ensures var trades := Run(strategy, candles, signals).trades;
            var a := After(strategy, candles, signals, n);
            var p, equity := a.position.value, Equity(a, candles[n].close);
            && p.entryIndex < n
            && var reverses := FiresFirst(strategy.risk, candles, signals, p.side, p.entryIndex, n, Reverse)
                               && CanInvest(strategy.sizing, equity);
               && ((exists t :: t in trades && t.entryTime == candles[n].ts) <==> reverses)
               && (reverses ==> exists t :: t in trades && Begins(t, candles[n], Opposite(p.side),
                                                                 strategy.sizing, equity))
  {
    hide EntryNotional, ExitDecision, Fires, IsBest, IsTradeOf, Pnl, NoneFires, NothingBegan, Run, CanInvest, IsStake;
    var trades := Run(strategy, candles, signals).trades;
    var a := After(strategy, candles, signals, n);
    LoopIsReasoned(strategy, candles, signals, n);
    var p := Tracked(a.position.value, candles[n].close);
    TrackingKeepsBest(candles, a.position.value, n);
    var equity := Equity(a, candles[n].close);
    NotionalIsStake(strategy, equity);
    if FiresFirst(strategy.risk, candles, signals, p.side, p.entryIndex, n, Reverse)
       && CanInvest(strategy.sizing, equity)
    {
      FirstReasonIsChosen(strategy.risk, candles, signals, p, n, Reverse);
      var b := After(strategy, candles, signals, n + 1);
      HeldIsReported(strategy, candles, signals, n + 1);
      ReportedBegins(trades, b.position.value, candles[n], Opposite(p.side), strategy, equity);
    } else {
      DecisionIsFirstReason(strategy.risk, candles, signals, p, n);
      NothingBeginsElsewhere(strategy, candles, signals, n, n);
      ClosingBeginsNothing(strategy, a, n, candles[n], signals[n]);
      NothingIsReported(strategy, candles, signals, n);
    }
  }

  lemma {:induction false} NothingIsReported(strategy: Strategy, candles: seq<Candle>, signals: seq<Signals>, n: nat)
    requires n < |candles| == |signals| && Ascending(candles) && Tradable(candles)
    requires NothingBegan(After(strategy, candles, signals, n + 1), candles[n].ts)
    ensures forall t :: t in Run(strategy, candles, signals).trades ==> t.entryTime != candles[n].ts
  {
    hide Bar, Pnl;
    NothingBeginsElsewhere(strategy, candles, signals, n, |candles|);
  }

  /** The first reason to hold is the one the loop chooses. */
  lemma FirstReasonIsChosen(risk: RiskRules, candles: seq<Candle>, signals: seq<Signals>, p: Position, k: nat,
                            reason: ExitReason)
    requires p.entryIndex <= k < |candles| == |signals| && p.entryPrice == candles[p.entryIndex].close
    requires IsBest(p.side, candles, p.entryIndex, k, Best(p))
    requires FiresFirst(risk, candles, signals, p.side, p.entryIndex, k, reason)
    ensures ExitDecision(risk, p, candles[k], k, signals[k].Exit(p.side), signals[k].Entry(Opposite(p.side))) ==
            Some(reason)
  {
    hide ExitDecision, Fires, IsBest;
    DecisionIsFirstReason(risk, candles, signals, p, k);
  }
}
