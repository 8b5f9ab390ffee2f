/** What every backtest keeps, whatever the signals. */
module BacktestResults {
  import opened Backtest
  import opened Indicators
  import opened Outcome

  // ----- Accounting -----

  function SumPnl(trades: seq<Trade>): real {
    if |trades| == 0 then 0.0 else SumPnl(trades[..|trades| - 1]) + trades[|trades| - 1].grossPnl
  }

  predicate Balanced(strategy: Strategy, a: Account) {
    && a.realized == strategy.startingEquity + a.gross
    && a.gross == SumPnl(a.trades)
    && (forall k :: 0 <= k < |a.trades| ==>
          var t := a.trades[k]; t.grossPnl == Pnl(t.side, t.entryPrice, t.exitPrice, t.quantity))
  }

  lemma {:induction false} SumPnlGrows(trades: seq<Trade>, more: seq<Trade>)
    requires |more| == |trades| + 1 && more[..|trades|] == trades
    ensures SumPnl(more) == SumPnl(trades) + more[|trades|].grossPnl
  {
  }

  lemma CloseKeepsBalance(strategy: Strategy, a: Account, index: nat, candle: Candle, reason: ExitReason)
    requires Balanced(strategy, a)
    ensures Balanced(strategy, ClosePosition(a, index, candle, reason))
  {
    hide Pnl;
    var b := ClosePosition(a, index, candle, reason);
    if a.position.Some? {
      SumPnlGrows(a.trades, b.trades);
      forall k | 0 <= k < |a.trades| ensures b.trades[k] == a.trades[k] {
      }
    }
  }

  lemma DecideKeepsBalance(strategy: Strategy, a: Account, index: nat, candle: Candle, s: Signals)
    requires candle.close != 0.0 && Balanced(strategy, a)
    ensures Balanced(strategy, Decide(strategy, a, index, candle, s))
  {
    hide Pnl, ExitDecision, EntryNotional;
    if a.position.Some? {
      var p := Tracked(a.position.value, candle.close);
      var exit := ExitDecision(strategy.risk, p, candle, index, s.Exit(p.side), s.Entry(Opposite(p.side)));
      if exit.Some? {
        CloseKeepsBalance(strategy, a.(position := Some(p)), index, candle, exit.value);
      }
    }
  }

  lemma BarKeepsBalance(strategy: Strategy, a: Account, index: nat, candle: Candle, s: Signals)
    requires candle.close != 0.0 && Balanced(strategy, a)
    ensures Balanced(strategy, Bar(strategy, a, index, candle, s))
  {
    hide Decide, Pnl;
    DecideKeepsBalance(strategy, a, index, candle, s);
  }

  lemma {:induction false} AccountsBalance(strategy: Strategy, candles: seq<Candle>, signals: seq<Signals>, n: nat)
    requires n <= |candles| == |signals| && Tradable(candles)
    ensures Balanced(strategy, After(strategy, candles, signals, n))
  {
    hide Bar, Pnl;
    if n > 0 {
      var a := After(strategy, candles, signals, n - 1);
      AccountsBalance(strategy, candles, signals, n - 1);
      BarKeepsBalance(strategy, a, n - 1, candles[n - 1], signals[n - 1]);
    }
  }

  lemma {:induction false} CurveEntry(strategy: Strategy, candles: seq<Candle>, signals: seq<Signals>, n: nat, i: nat)
    requires i < n <= |candles| == |signals| && Tradable(candles)
    ensures Curve(strategy, candles, signals, n)[i] ==
            EquityPoint(candles[i].ts, Equity(After(strategy, candles, signals, i + 1), candles[i].close))
  {
    if i < n - 1 {
      CurveEntry(strategy, candles, signals, n - 1, i);
    }
  }

  /**
    After every bar the curve is the starting equity, plus the profit of every
    trade closed by then, plus what the open position would make at that close;
    the ending equity is the starting equity plus the profit of all trades.
   */
  lemma {:induction false} EquityIsAccountedFor(strategy: Strategy, candles: seq<Candle>, signals: seq<Signals>)
    requires |candles| == |signals| && Tradable(candles)
    ensures var r := Run(strategy, candles, signals);
            && |r.curve| == |candles|
            && (forall i :: 0 <= i < |candles| ==>
                  var a := After(strategy, candles, signals, i + 1);
                  r.curve[i] == EquityPoint(candles[i].ts,
                    strategy.startingEquity + SumPnl(a.trades) + Unrealized(a.position, candles[i].close)))
            && r.endingEquity == strategy.startingEquity + SumPnl(r.trades)
            && r.netPnl == r.grossPnl == SumPnl(r.trades)
            && (forall k :: 0 <= k < |r.trades| ==>
                  var t := r.trades[k]; t.grossPnl == Pnl(t.side, t.entryPrice, t.exitPrice, t.quantity))
  {
    hide After, Pnl, SumPnl;
    var n := |candles|;
    var a := After(strategy, candles, signals, n);
    AccountsBalance(strategy, candles, signals, n);
    if n > 0 {
      CloseKeepsBalance(strategy, a, n - 1, candles[n - 1], ByRule);
    }
    forall i | 0 <= i < n
      ensures Run(strategy, candles, signals).curve[i] == EquityPoint(candles[i].ts,
                strategy.startingEquity + SumPnl(After(strategy, candles, signals, i + 1).trades)
                + Unrealized(After(strategy, candles, signals, i + 1).position, candles[i].close))
    {
      AccountsBalance(strategy, candles, signals, i + 1);
      CurveEntry(strategy, candles, signals, n, i);
    }
  }

  // ----- Order and length of trades -----

  /** Consecutive trades do not overlap, and only a reversal ends and starts on one bar. */
  ghost predicate InSequence(trades: seq<Trade>) {
    && (forall k :: 0 <= k < |trades| ==> trades[k].entryTime <= trades[k].exitTime)
    && (forall k :: 0 < k < |trades| ==>
          || trades[k - 1].exitTime < trades[k].entryTime
          || (trades[k - 1].exitTime == trades[k].entryTime && trades[k - 1].reason == Reverse))
  }

  /** The longest a trade may be held. */
  function HoldLimit(maxBars: int): int {
    if maxBars > 1 then maxBars else 1
  }

  ghost predicate WithinLimit(risk: RiskRules, trades: seq<Trade>) {
    forall k :: 0 <= k < |trades| ==>
      && 0 <= trades[k].barsHeld
      && (risk.maxBarsInTrade.Some? ==> trades[k].barsHeld <= HoldLimit(risk.maxBarsInTrade.value))
  }

  /** The open position, after n bars, is young enough and starts no earlier than the last trade ended. */
  ghost predicate PositionTimely(strategy: Strategy, candles: seq<Candle>, trades: seq<Trade>, p: Position, n: nat)
    requires n <= |candles|
  {
    && p.entryIndex < n && p.entryTime == candles[p.entryIndex].ts
    && (strategy.risk.maxBarsInTrade.Some? ==>
          p.entryIndex == n - 1 || n - 1 - p.entryIndex < strategy.risk.maxBarsInTrade.value)
    && (|trades| > 0 ==>
          var last := trades[|trades| - 1];
          last.exitTime < p.entryTime || (last.exitTime == p.entryTime && last.reason == Reverse))
  }

  ghost predicate Timely(strategy: Strategy, candles: seq<Candle>, a: Account, n: nat)
    requires n <= |candles|
  {
    && InSequence(a.trades)
    && WithinLimit(strategy.risk, a.trades)
    && (|a.trades| > 0 ==> n > 0 && a.trades[|a.trades| - 1].exitTime <= candles[n - 1].ts)
    && (a.position.Some? ==> PositionTimely(strategy, candles, a.trades, a.position.value, n))
  }

  /** Closing on the next bar, or on the last bar seen, keeps trades in sequence and within the limit. */
  lemma CloseIsTimely(strategy: Strategy, candles: seq<Candle>, a: Account, n: nat, index: nat, reason: ExitReason)
    requires Ascending(candles) && index < |candles| && n <= |candles| && index <= n <= index + 1
    requires Timely(strategy, candles, a, n) && a.position.Some?
    ensures var b := ClosePosition(a, index, candles[index], reason);
            InSequence(b.trades) && WithinLimit(strategy.risk, b.trades)
  {
    hide Pnl;
    var p := a.position.value;
    var b := ClosePosition(a, index, candles[index], reason);
    assert p.entryTime <= candles[index].ts;
    forall k | 0 <= k < |b.trades|
      ensures b.trades[k].entryTime <= b.trades[k].exitTime && 0 <= b.trades[k].barsHeld
    {
      if k < |a.trades| { assert b.trades[k] == a.trades[k]; }
    }
  }

  lemma BarIsTimely(strategy: Strategy, candles: seq<Candle>, a: Account, n: nat, s: Signals)
    requires Ascending(candles) && Tradable(candles) && n < |candles| && Timely(strategy, candles, a, n)
    ensures Timely(strategy, candles, Bar(strategy, a, n, candles[n], s), n + 1)
  {
    hide Pnl, EntryNotional, Scaled, InSequence, WithinLimit;
    if a.position.Some? {
      var p := Tracked(a.position.value, candles[n].close);
      var held := a.(position := Some(p));
      assert Timely(strategy, candles, held, n);
      var exit := ExitDecision(strategy.risk, p, candles[n], n, s.Exit(p.side), s.Entry(Opposite(p.side)));
      if exit.Some? {
        CloseIsTimely(strategy, candles, held, n, n, exit.value);
      }
    }
  }

  lemma NothingIsTimely(risk: RiskRules)
    ensures InSequence([]) && WithinLimit(risk, [])
  {
  }

  lemma {:induction false} LoopIsTimely(strategy: Strategy, candles: seq<Candle>, signals: seq<Signals>, n: nat)
    requires n <= |candles| == |signals| && Ascending(candles) && Tradable(candles)
    ensures Timely(strategy, candles, After(strategy, candles, signals, n), n)
  {
    hide Bar, InSequence, WithinLimit, PositionTimely;
    NothingIsTimely(strategy.risk);
    if n > 0 {
      var a := After(strategy, candles, signals, n - 1);
      LoopIsTimely(strategy, candles, signals, n - 1);
      BarIsTimely(strategy, candles, a, n - 1, signals[n - 1]);
    }
  }

  lemma {:induction false} SequenceSeparates(trades: seq<Trade>, i: nat, k: nat)
    requires InSequence(trades) && i < k < |trades|
    ensures trades[i].exitTime <= trades[k].entryTime
  {
    if i < k - 1 {
      SequenceSeparates(trades, i, k - 1);
    }
  }

  /**
    Trades come in order without overlapping, share a bar only at a reversal, and
    are never held longer than the limit set, or one bar if that is less.
   */
  lemma TradesAreInSequence(strategy: Strategy, candles: seq<Candle>, signals: seq<Signals>)
    requires |candles| == |signals| && Ascending(candles) && Tradable(candles)
    ensures var trades := Run(strategy, candles, signals).trades;
            && InSequence(trades)
            && WithinLimit(strategy.risk, trades)
            && (forall i, k :: 0 <= i < k < |trades| ==> trades[i].exitTime <= trades[k].entryTime)
  {
    hide InSequence, WithinLimit, After, Curve;
    var n := |candles|;
    LoopIsTimely(strategy, candles, signals, n);
    var a := After(strategy, candles, signals, n);
    if a.position.Some? {
      CloseIsTimely(strategy, candles, a, n, n - 1, ByRule);
    }
    var trades := Run(strategy, candles, signals).trades;
    forall i, k | 0 <= i < k < |trades| ensures trades[i].exitTime <= trades[k].entryTime {
      SequenceSeparates(trades, i, k);
    }
  }

  // ----- Exposure -----

  /** A position is held after bar m. */
  predicate HoldsAfter(strategy: Strategy, candles: seq<Candle>, signals: seq<Signals>, m: nat)
    requires m < |candles| == |signals| && Tradable(candles)
  {
    After(strategy, candles, signals, m + 1).position.Some?
  }

  /** The first n bars after which one is. */
  function BarsHolding(strategy: Strategy, candles: seq<Candle>, signals: seq<Signals>, n: nat): set<nat>
    requires n <= |candles| == |signals| && Tradable(candles)
  {
    set m: nat | m < n && HoldsAfter(strategy, candles, signals, m)
  }

  function SumHeld(trades: seq<Trade>): int {
    if |trades| == 0 then 0 else SumHeld(trades[..|trades| - 1]) + trades[|trades| - 1].barsHeld
  }

  lemma {:induction false} SumHeldGrows(trades: seq<Trade>, more: seq<Trade>)
    requires |more| == |trades| + 1 && more[..|trades|] == trades
    ensures SumHeld(more) == SumHeld(trades) + more[|trades|].barsHeld
  {
  }

  /** The exposure so far is what closed trades have been held, and the open position since its entry. */
  predicate ExposureAddsUp(a: Account, n: nat) {
    a.barsWithExposure == SumHeld(a.trades) + if a.position.Some? then n - a.position.value.entryIndex else 0
  }

  lemma {:induction false} BarAddsExposure(strategy: Strategy, a: Account, n: nat, candle: Candle, s: Signals)
    requires candle.close != 0.0 && ExposureAddsUp(a, n)
    ensures ExposureAddsUp(Bar(strategy, a, n, candle, s), n + 1)
  {
    hide Pnl, EntryNotional, ExitDecision, SumHeld;
    var b := Bar(strategy, a, n, candle, s);
    if |b.trades| > |a.trades| { SumHeldGrows(a.trades, b.trades); }
  }

  lemma {:induction false} LoopAddsExposure(strategy: Strategy, candles: seq<Candle>, signals: seq<Signals>, n: nat)
    requires n <= |candles| == |signals| && Tradable(candles)
    ensures ExposureAddsUp(After(strategy, candles, signals, n), n)
    ensures After(strategy, candles, signals, n).barsWithExposure == |BarsHolding(strategy, candles, signals, n)|
  {
    hide Bar, ExposureAddsUp, After;
    StartsEmpty(strategy, candles, signals);
    if n == 0 {
      assert BarsHolding(strategy, candles, signals, 0) == {};
    } else {
      var a := After(strategy, candles, signals, n - 1);
      LoopAddsExposure(strategy, candles, signals, n - 1);
      BarAddsExposure(strategy, a, n - 1, candles[n - 1], signals[n - 1]);
      BarCountsItself(strategy, a, n - 1, candles[n - 1], signals[n - 1]);
      OneBarMore(strategy, candles, signals, n);
      var before := BarsHolding(strategy, candles, signals, n - 1);
      var b := After(strategy, candles, signals, n);
      if b.position.Some? {
        assert BarsHolding(strategy, candles, signals, n) == before + {n - 1} && n - 1 !in before;
      } else {
        assert BarsHolding(strategy, candles, signals, n) == before;
      }
    }
  }

  lemma BarCountsItself(strategy: Strategy, a: Account, n: nat, candle: Candle, s: Signals)
    requires candle.close != 0.0
    ensures var b := Bar(strategy, a, n, candle, s);
            b.barsWithExposure == a.barsWithExposure + if b.position.Some? then 1 else 0
  {
    hide Pnl, EntryNotional, ExitDecision;
  }

  lemma {:induction false} StartsEmpty(strategy: Strategy, candles: seq<Candle>, signals: seq<Signals>)
    requires |candles| == |signals| && Tradable(candles)
    ensures var a := After(strategy, candles, signals, 0); ExposureAddsUp(a, 0) && a.barsWithExposure == 0
  {
  }

  lemma {:induction false} OneBarMore(strategy: Strategy, candles: seq<Candle>, signals: seq<Signals>, n: nat)
    requires 0 < n <= |candles| == |signals| && Tradable(candles)
    ensures After(strategy, candles, signals, n) ==
            Bar(strategy, After(strategy, candles, signals, n - 1), n - 1, candles[n - 1], signals[n - 1])
  {
    hide Bar;
  }

  /**
    The reported exposure is the number of bars after which a position was held; and
    it is how long all the trades were held together, and one bar more if the last
    of them had to be closed at the end.
   */
  lemma {:induction false} ExposureIsTimeHeld(strategy: Strategy, candles: seq<Candle>, signals: seq<Signals>)
    requires |candles| == |signals| && Tradable(candles)
    ensures var r, n := Run(strategy, candles, signals), |candles|;
            && r.barsWithExposure == |BarsHolding(strategy, candles, signals, n)|
            && r.barsWithExposure ==
               SumHeld(r.trades) + if After(strategy, candles, signals, n).position.Some? then 1 else 0
  {
    hide After, SumHeld, Pnl, Curve;
    var n := |candles|;
    var a, r := After(strategy, candles, signals, n), Run(strategy, candles, signals);
    LoopAddsExposure(strategy, candles, signals, n);
    StartsFlat(strategy, candles, signals);
    if a.position.Some? { SumHeldGrows(a.trades, r.trades); }
  }

  lemma {:induction false} StartsFlat(strategy: Strategy, candles: seq<Candle>, signals: seq<Signals>)
    requires |candles| == |signals| && Tradable(candles)
    ensures After(strategy, candles, signals, 0).position.None?
  {
  }

  // ----- Long-only runs stay solvent -----

  /** Entries only happen on enabled sides. */
  predicate Gated(strategy: Strategy, signals: seq<Signals>) {
    forall i :: 0 <= i < |signals| ==>
      && (signals[i].longEntry ==> Long in strategy.enabledSides)
      && (signals[i].shortEntry ==> Short in strategy.enabledSides)
  }

  /** No short side, nothing owed at the start, and positive prices. */
  predicate LongOnly(strategy: Strategy, candles: seq<Candle>) {
    && Short !in strategy.enabledSides && strategy.startingEquity >= 0.0
    && forall i :: 0 <= i < |candles| ==> candles[i].close > 0.0
  }

  /** A long position whose cost is covered by the realised equity. */
  predicate Solvent(a: Account) {
    && a.realized >= 0.0
    && (a.position.Some? ==>
          var p := a.position.value;
          p.side == Long && p.entryPrice > 0.0 && p.quantity > 0.0 && p.entryPrice * p.quantity <= a.realized)
  }

  lemma SolventEquity(a: Account, close: real)
    requires Solvent(a) && close > 0.0
    ensures Equity(a, close) >= 0.0
  {
  }

  lemma EntryIsCovered(notional: real, close: real)
    requires notional > 0.0 && close > 0.0
    ensures notional / close > 0.0 && close * (notional / close) == notional
  {
  }

  lemma BarStaysSolvent(strategy: Strategy, a: Account, index: nat, candle: Candle, s: Signals)
    requires Solvent(a) && candle.close > 0.0 && !s.shortEntry
    ensures Solvent(Bar(strategy, a, index, candle, s))
  {
    if a.position.Some? {
      var p := Tracked(a.position.value, candle.close);
      SolventEquity(a, candle.close);
      assert Equity(a, candle.close) == a.realized + Pnl(p.side, p.entryPrice, candle.close, p.quantity);
    } else {
      var notional := EntryNotional(strategy, a.realized);
      if notional > 0.0 { EntryIsCovered(notional, candle.close); }
    }
  }

  lemma {:induction false} LoopStaysSolvent(strategy: Strategy, candles: seq<Candle>, signals: seq<Signals>, n: nat)
    requires n <= |candles| == |signals| && Tradable(candles)
    requires Gated(strategy, signals) && LongOnly(strategy, candles)
    ensures Solvent(After(strategy, candles, signals, n))
  {
    if n > 0 {
      var a := After(strategy, candles, signals, n - 1);
      LoopStaysSolvent(strategy, candles, signals, n - 1);
      BarStaysSolvent(strategy, a, n - 1, candles[n - 1], signals[n - 1]);
    }
  }

  /** A long-only run on positive prices never has negative equity, and never a drawdown outside 0 to 100 percent. */
  lemma LongOnlyStaysSolvent(strategy: Strategy, candles: seq<Candle>, signals: seq<Signals>)
    requires |candles| == |signals| && Tradable(candles)
    requires Gated(strategy, signals) && LongOnly(strategy, candles)
    ensures var curve := Run(strategy, candles, signals).curve;
            && (forall i :: 0 <= i < |curve| ==> curve[i].equity >= 0.0)
            && (forall i :: 0 <= i < |curve| ==> 0.0 <= FallAt(Equities(curve), i) <= 100.0)
  {
    EquityIsAccountedFor(strategy, candles, signals);
    var curve := Run(strategy, candles, signals).curve;
    forall i | 0 <= i < |curve| ensures curve[i].equity >= 0.0 {
      LoopStaysSolvent(strategy, candles, signals, i + 1);
      AccountsBalance(strategy, candles, signals, i + 1);
      SolventEquity(After(strategy, candles, signals, i + 1), candles[i].close);
    }
    forall i | 0 <= i < |curve| ensures 0.0 <= FallAt(Equities(curve), i) <= 100.0 {
      var values := Equities(curve);
      assert values[i] in values[..i + 1] by { assert values[..i + 1][i] == values[i]; }
      if MaxOf(values[..i + 1]) > 0.0 { FallIsPercentage(MaxOf(values[..i + 1]), values[i]); }
    }
  }

  lemma FallIsPercentage(peak: real, equity: real)
    requires peak > 0.0 && 0.0 <= equity <= peak
    ensures 0.0 <= Fall(peak, equity) <= 100.0
  {
  }

  // ----- Short positions -----

  /** An open short position leaves no debt exactly up to this close: its entry price plus the equity per unit sold. */
  lemma ShortIsSolventUpTo(a: Account, close: real)
    requires a.position.Some? && a.position.value.side == Short && a.position.value.quantity > 0.0
    ensures Equity(a, close) >= 0.0 <==>
              close <= a.position.value.entryPrice + a.realized / a.position.value.quantity
  {
    var p := a.position.value;
    var perUnit := a.realized / p.quantity;
    assert a.realized == perUnit * p.quantity;
    assert Equity(a, close) == perUnit * p.quantity + (p.entryPrice - close) * p.quantity
        == (perUnit + p.entryPrice - close) * p.quantity;
    SignOfProduct(perUnit + p.entryPrice - close, p.quantity);
  }

  lemma SignOfProduct(x: real, q: real)
    requires q > 0.0
    ensures x * q >= 0.0 <==> x >= 0.0
  {
  }

  /** A short of the whole equity, closed at three times the entry price, loses twice what there was. */
  lemma {:induction false} ShortCanLoseMoreThanAll()
    ensures exists strategy, candles: seq<Candle>, signals ::
              && |candles| == |signals| && Tradable(candles) && Gated(strategy, signals)
              && (forall i :: 0 <= i < |candles| ==> candles[i].close > 0.0) && strategy.startingEquity == 10.0
              && Run(strategy, candles, signals).endingEquity == -10.0
  {
    hide Run, Bar, After;
    var strategy := Strategy([Short], RuleSet([], []), RuleSet([], []), FixedQuoteNotional(10.0),
                             RiskRules(None, None, None, None), 10.0);
    var candles := [Candle(0, 1.0, 1.0, 1.0, 1.0, 1.0), Candle(1, 3.0, 3.0, 3.0, 3.0, 1.0)];
    var signals := [Signals(false, true, false, false), Signals(false, false, false, false)];
    ShortRun(strategy, candles, signals);
    assert Gated(strategy, signals) && Tradable(candles);
  }

  lemma {:induction false} ShortRun(strategy: Strategy, candles: seq<Candle>, signals: seq<Signals>)
    requires candles == [Candle(0, 1.0, 1.0, 1.0, 1.0, 1.0), Candle(1, 3.0, 3.0, 3.0, 3.0, 1.0)]
    requires signals == [Signals(false, true, false, false), Signals(false, false, false, false)]
    requires strategy.sizing == FixedQuoteNotional(10.0) && strategy.startingEquity == 10.0
    requires strategy.risk == RiskRules(None, None, None, None)
    ensures Run(strategy, candles, signals).endingEquity == -10.0
  {
    var p0 := Position(Short, 0, 1.0, 10.0, 0, 1.0, 1.0);
    var a0 := After(strategy, candles, signals, 0);
    var a1 := After(strategy, candles, signals, 1);
    assert a1 == Account(10.0, 0.0, Some(p0), 1, []);
    var a2 := After(strategy, candles, signals, 2);
    assert a2 == Account(10.0, 0.0, Some(Tracked(p0, 3.0)), 2, []);
    var final := ClosePosition(a2, 1, candles[1], ByRule);
    assert final.realized == -10.0;
  }
}
