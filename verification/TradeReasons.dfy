/**
  Why every trade of a backtest began and ended when it did: at each bar the exit
  rules are read off the candles and the signals alone, with no position to carry.
 */
module TradeReasons {
  import opened Backtest
  import opened Indicators
  import opened Outcome

  /** One unit bought (long) or sold (short) at a price has lost that percentage of it. */
  predicate Lost(side: PositionSide, price: real, close: real, pct: real) {
    Pnl(side, price, close, 1.0) <= 0.0 - price * (pct / 100.0)
  }

  predicate Gained(side: PositionSide, price: real, close: real, pct: real) {
    Pnl(side, price, close, 1.0) >= price * (pct / 100.0)
  }

  /** The rule is given a percentage; 0 switches it off. */
  predicate Set(pct: Option<real>) {
    pct.Some? && pct.value != 0.0
  }

  /** The close most in a side's favour from one bar to another. */
  ghost predicate IsBest(side: PositionSide, candles: seq<Candle>, from: nat, last: nat, best: real) {
    && from <= last < |candles|
    && (exists k :: from <= k <= last && candles[k].close == best)
    && (forall k :: from <= k <= last ==> if side == Long then candles[k].close <= best else best <= candles[k].close)
  }

  /** Whether a reason to close a position entered at bar e holds at bar k. */
  ghost predicate Fires(risk: RiskRules, candles: seq<Candle>, signals: seq<Signals>, side: PositionSide, e: nat,
                        k: nat,
                        reason: ExitReason)
    requires e <= k < |candles| == |signals|
  {
    match reason
    case StopLoss => Set(risk.stopLossPct) && Lost(side, candles[e].close, candles[k].close, risk.stopLossPct.value)
    case TakeProfit =>
      Set(risk.takeProfitPct) && Gained(side, candles[e].close, candles[k].close, risk.takeProfitPct.value)
    case TrailingStop =>
      Set(risk.trailingStopPct) &&
      exists best: real :: IsBest(side, candles, e, k, best)
                           && Lost(side, best, candles[k].close, risk.trailingStopPct.value)
    case MaxBars => risk.maxBarsInTrade.Some? && k - e >= risk.maxBarsInTrade.value
    case ByRule => signals[k].Exit(side)
    case Reverse => signals[k].Entry(Opposite(side))
  }

  function Precedence(reason: ExitReason): nat {
    match reason
    case StopLoss => 0
    case TakeProfit => 1
    case TrailingStop => 2
    case MaxBars => 3
    case ByRule => 4
    case Reverse => 5
  }

  ghost predicate NoneFires(risk: RiskRules, candles: seq<Candle>, signals: seq<Signals>, side: PositionSide, e: nat,
                            k: nat)
    requires e <= k < |candles| == |signals|
  {
    forall r :: !Fires(risk, candles, signals, side, e, k, r)
  }

  /** The reason holds, and none that takes precedence does. */
  ghost predicate FiresFirst(risk: RiskRules, candles: seq<Candle>, signals: seq<Signals>, side: PositionSide, e: nat,
                             k: nat, reason: ExitReason)
    requires e <= k < |candles| == |signals|
  {
    && Fires(risk, candles, signals, side, e, k, reason)
    && forall r :: Precedence(r) < Precedence(reason) ==> !Fires(risk, candles, signals, side, e, k, r)
  }

  /**
    The trade that ended at bar i: it was entered and left at the closes of its
    two bars, an entry signal began it, no reason held in between, and its own
    reason was the first to hold at its end. Only on the last bar may a trade end
    with no reason, reported as by rule.
   */
  ghost predicate Justified(risk: RiskRules, candles: seq<Candle>, signals: seq<Signals>, t: Trade, i: nat)
    requires |candles| == |signals|
  {
    && i < |candles| && 0 <= t.barsHeld <= i
    && var e := i - t.barsHeld;
       && t.entryTime == candles[e].ts && t.entryPrice == candles[e].close
       && t.exitTime == candles[i].ts && t.exitPrice == candles[i].close
       && signals[e].Entry(t.side)
       && (forall k :: e < k < i ==> NoneFires(risk, candles, signals, t.side, e, k))
       && (|| (e < i && FiresFirst(risk, candles, signals, t.side, e, i, t.reason))
           || (i == |candles| - 1 && t.reason == ByRule
               && (e < i ==> NoneFires(risk, candles, signals, t.side, e, i))))
  }

  /** The open position after n bars: still without a reason to close. */
  ghost predicate StillHeld(risk: RiskRules, candles: seq<Candle>, signals: seq<Signals>, p: Position, n: nat)
    requires n <= |candles| == |signals|
  {
    && p.entryIndex < n
    && p.entryTime == candles[p.entryIndex].ts && p.entryPrice == candles[p.entryIndex].close
    && signals[p.entryIndex].Entry(p.side)
    && IsBest(Long, candles, p.entryIndex, n - 1, p.highestClose)
    && IsBest(Short, candles, p.entryIndex, n - 1, p.lowestClose)
    && forall k :: p.entryIndex < k < n ==> NoneFires(risk, candles, signals, p.side, p.entryIndex, k)
  }

  ghost predicate AllJustified(risk: RiskRules, candles: seq<Candle>, signals: seq<Signals>, trades: seq<Trade>)
    requires |candles| == |signals|
  {
    forall t :: t in trades ==> exists i: nat :: Justified(risk, candles, signals, t, i)
  }

  ghost predicate Reasoned(risk: RiskRules, candles: seq<Candle>, signals: seq<Signals>, a: Account, n: nat)
    requires n <= |candles| == |signals|
  {
    && AllJustified(risk, candles, signals, a.trades)
    && (a.position.Some? ==> StillHeld(risk, candles, signals, a.position.value, n))
  }

  /** The close a trailing stop is measured from. */
  function Best(p: Position): real {
    if p.side == Long then p.highestClose else p.lowestClose
  }

  lemma BestIsUnique(side: PositionSide, candles: seq<Candle>, from: nat, last: nat, a: real, b: real)
    requires IsBest(side, candles, from, last, a) && IsBest(side, candles, from, last, b)
    ensures a == b
  {
  }

  /** The loop's price comparisons say what percentage has been lost or gained. */
  lemma StopsMeanPercentages(risk: RiskRules, p: Position, candle: Candle, index: nat, exitRule: bool, reverse: bool)
    ensures var exit := ExitDecision(risk, p, candle, index, exitRule, reverse);
            var stop := Set(risk.stopLossPct) && Lost(p.side, p.entryPrice, candle.close, risk.stopLossPct.value);
            var target := Set(risk.takeProfitPct)
                          && Gained(p.side, p.entryPrice, candle.close, risk.takeProfitPct.value);
            var trail := Set(risk.trailingStopPct)
                         && Lost(p.side, Best(p), candle.close, risk.trailingStopPct.value);
            exit == if stop then Some(StopLoss) else if target then Some(TakeProfit)
                    else if trail then Some(TrailingStop)
                    else if risk.maxBarsInTrade.Some? && index - p.entryIndex >= risk.maxBarsInTrade.value then
                      Some(MaxBars)
                    else if exitRule then Some(ByRule) else if reverse then Some(Reverse) else None
  {
  }

  /** What the loop decides from the position it carries is what the candles and signals say. */
  lemma DecisionIsFirstReason(risk: RiskRules, candles: seq<Candle>, signals: seq<Signals>, p: Position, k: nat)
    requires p.entryIndex <= k < |candles| == |signals| && p.entryPrice == candles[p.entryIndex].close
    requires IsBest(p.side, candles, p.entryIndex, k, Best(p))
    ensures var exit := ExitDecision(risk, p, candles[k], k, signals[k].Exit(p.side),
                                     signals[k].Entry(Opposite(p.side)));
            if exit.None? then NoneFires(risk, candles, signals, p.side, p.entryIndex, k)
            else FiresFirst(risk, candles, signals, p.side, p.entryIndex, k, exit.value)
  {
    hide ExitDecision, Lost, Gained, IsBest;
    StopsMeanPercentages(risk, p, candles[k], k, signals[k].Exit(p.side), signals[k].Entry(Opposite(p.side)));
    forall best: real | IsBest(p.side, candles, p.entryIndex, k, best) ensures best == Best(p) {
      BestIsUnique(p.side, candles, p.entryIndex, k, best, Best(p));
    }
  }

  /** Taking in one more close keeps both of the position's records. */
  lemma TrackingKeepsBest(candles: seq<Candle>, p: Position, n: nat)
    requires 0 < n < |candles| && p.entryIndex < n
    requires IsBest(Long, candles, p.entryIndex, n - 1, p.highestClose)
    requires IsBest(Short, candles, p.entryIndex, n - 1, p.lowestClose)
    ensures var q := Tracked(p, candles[n].close);
            && IsBest(Long, candles, p.entryIndex, n, q.highestClose)
            && IsBest(Short, candles, p.entryIndex, n, q.lowestClose)
  {
  }

  lemma MoreJustified(risk: RiskRules, candles: seq<Candle>, signals: seq<Signals>, trades: seq<Trade>, t: Trade,
                      i: nat)
    requires |candles| == |signals| && AllJustified(risk, candles, signals, trades)
    requires Justified(risk, candles, signals, t, i)
    ensures AllJustified(risk, candles, signals, trades + [t])
  {
  }

  /** A position opened at bar n is held after it. */
  lemma OpeningIsHeld(strategy: Strategy, candles: seq<Candle>, signals: seq<Signals>, a: Account, n: nat,
                      side: PositionSide)
    requires n < |candles| == |signals| && candles[n].close != 0.0 && signals[n].Entry(side) && a.position.None?
    ensures var b := OpenPosition(strategy, a, n, candles[n], side);
            && b.trades == a.trades
            && (b.position.Some? ==> StillHeld(strategy.risk, candles, signals, b.position.value, n + 1))
  {
  }

  lemma BarIsReasoned(strategy: Strategy, candles: seq<Candle>, signals: seq<Signals>, a: Account, n: nat)
    requires n < |candles| == |signals| && Tradable(candles)
    requires Reasoned(strategy.risk, candles, signals, a, n)
    ensures Reasoned(strategy.risk, candles, signals, Bar(strategy, a, n, candles[n], signals[n]), n + 1)
  {
    hide AllJustified, IsBest, NoneFires, ExitDecision, OpenPosition;
    var s := signals[n];
    if a.position.Some? {
      var p := Tracked(a.position.value, candles[n].close);
      TrackingKeepsBest(candles, a.position.value, n);
      DecisionIsFirstReason(strategy.risk, candles, signals, p, n);
      var held := a.(position := Some(p));
      var exit := ExitDecision(strategy.risk, p, candles[n], n, s.Exit(p.side), s.Entry(Opposite(p.side)));
      if exit.Some? {
        var closed := ClosePosition(held, n, candles[n], exit.value);
        MoreJustified(strategy.risk, candles, signals, a.trades, closed.trades[|a.trades|], n);
        if exit.value == Reverse { OpeningIsHeld(strategy, candles, signals, closed, n, Opposite(p.side)); }
      }
    } else if s.longEntry != s.shortEntry {
      OpeningIsHeld(strategy, candles, signals, a, n, if s.longEntry then Long else Short);
    }
  }

  lemma {:induction false} LoopIsReasoned(strategy: Strategy, candles: seq<Candle>, signals: seq<Signals>, n: nat)
    requires n <= |candles| == |signals| && Tradable(candles)
    ensures Reasoned(strategy.risk, candles, signals, After(strategy, candles, signals, n), n)
  {
    hide Bar, StillHeld, Justified;
    if n > 0 {
      LoopIsReasoned(strategy, candles, signals, n - 1);
      BarIsReasoned(strategy, candles, signals, After(strategy, candles, signals, n - 1), n - 1);
    }
  }

  /**
    Every reported trade is justified by the candles and signals: it starts on an
    entry signal and runs, at closing prices, to the first bar where a reason to
    close holds, for the first such reason in the order of precedence, or to the
    last bar if none ever does.
   */
  lemma TradesAreJustified(strategy: Strategy, candles: seq<Candle>, signals: seq<Signals>)
    requires |candles| == |signals| && Tradable(candles)
    ensures AllJustified(strategy.risk, candles, signals, Run(strategy, candles, signals).trades)
  {
    hide NoneFires, FiresFirst, IsBest;
    var a := After(strategy, candles, signals, |candles|);
    LoopIsReasoned(strategy, candles, signals, |candles|);
    if a.position.Some? {
      var last := |candles| - 1;
      var closed := ClosePosition(a, last, candles[last], ByRule);
      MoreJustified(strategy.risk, candles, signals, a.trades, closed.trades[|a.trades|], last);
    }
  }
}
