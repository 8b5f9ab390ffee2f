/** The backtest's bar loop as a step function over the bars, with its closing step. */
module Backtest {
  import opened Indicators
  import opened Outcome
  import opened StrategyRuntime

  datatype PositionSide = Long | Short

  datatype Sizing = PercentOfEquity(value: real) | FixedQuoteNotional(value: real)

  datatype RiskRules = RiskRules(
    stopLossPct: Option<real>, takeProfitPct: Option<real>, trailingStopPct: Option<real>, maxBarsInTrade: Option<int>)

  datatype RuleSet = RuleSet(long: seq<RuleGroup>, short: seq<RuleGroup>)

  datatype Strategy = Strategy(
    enabledSides: seq<PositionSide>, entryRules: RuleSet, exitRules: RuleSet, sizing: Sizing, risk: RiskRules,
    startingEquity: real)

  /** What the conditions say at one bar; entries are false for sides that are not enabled. */
  datatype Signals = Signals(longEntry: bool, shortEntry: bool, longExit: bool, shortExit: bool)
  {
    function Entry(side: PositionSide): bool { if side == Long then longEntry else shortEntry }

    function Exit(side: PositionSide): bool { if side == Long then longExit else shortExit }
  }

  datatype ExitReason = ByRule | Reverse | StopLoss | TakeProfit | TrailingStop | MaxBars

  datatype Position = Position(
    side: PositionSide, entryTime: int, entryPrice: real, quantity: real, entryIndex: nat,
    highestClose: real, lowestClose: real)

  datatype Trade = Trade(
    side: PositionSide, entryTime: int, entryPrice: real, exitTime: int, exitPrice: real, quantity: real,
    grossPnl: real, reason: ExitReason, barsHeld: int)

  datatype EquityPoint = EquityPoint(time: int, equity: real)

  datatype Account = Account(
    realized: real, gross: real, position: Option<Position>, barsWithExposure: nat, trades: seq<Trade>)

  function Opposite(side: PositionSide): PositionSide { if side == Long then Short else Long }

  function Pnl(side: PositionSide, entry: real, exit: real, quantity: real): real {
    if side == Long then (exit - entry) * quantity else (entry - exit) * quantity
  }

  function ClosePosition(a: Account, index: nat, candle: Candle, reason: ExitReason): Account {
    if a.position.None? then a
    else
      var p := a.position.value;
      var grossPnl := Pnl(p.side, p.entryPrice, candle.close, p.quantity);
      a.(realized := a.realized + grossPnl, gross := a.gross + grossPnl, position := None,
         trades := a.trades + [Trade(p.side, p.entryTime, p.entryPrice, candle.ts, candle.close, p.quantity, grossPnl,
                                     reason, index - p.entryIndex)])
  }

  /** What an entry would invest: the sizing rule's amount, not below zero and not above the equity. */
  function EntryNotional(strategy: Strategy, equity: real): real {
    var desired := match strategy.sizing
                   case PercentOfEquity(value) => equity * (value / 100.0)
                   case FixedQuoteNotional(value) => value;
    var floored := Max(desired, 0.0);
    if floored < equity then floored else equity
  }

  function OpenPosition(strategy: Strategy, a: Account, index: nat, candle: Candle, side: PositionSide): Account
    requires candle.close != 0.0
  {
    var notional := EntryNotional(strategy, a.realized);
    if notional <= 0.0 then a
    else
      a.(position := Some(Position(side, candle.ts, candle.close, notional / candle.close, index, candle.close,
                                   candle.close)))
  }

  /** A percentage that is missing or zero switches its rule off. */
  predicate Given(pct: Option<real>) {
    pct.Some? && pct.value != 0.0
  }

  function Scaled(price: real, pct: real): real {
    price * (1.0 + pct / 100.0)
  }

  /** The first exit rule that fires, in the order the loop tests them. */
  function ExitDecision(risk: RiskRules, p: Position, candle: Candle, index: nat, exitRule: bool, reverse: bool)
    : Option<ExitReason>
  {
    var close := candle.close;
    var long := p.side == Long;
    if Given(risk.stopLossPct)
       && (if long then close <= Scaled(p.entryPrice, 0.0 - risk.stopLossPct.value)
           else close >= Scaled(p.entryPrice, risk.stopLossPct.value)) then Some(StopLoss)
    else if Given(risk.takeProfitPct)
       && (if long then close >= Scaled(p.entryPrice, risk.takeProfitPct.value)
           else close <= Scaled(p.entryPrice, 0.0 - risk.takeProfitPct.value)) then Some(TakeProfit)
    else if Given(risk.trailingStopPct)
       && (if long then close <= Scaled(p.highestClose, 0.0 - risk.trailingStopPct.value)
           else close >= Scaled(p.lowestClose, risk.trailingStopPct.value)) then Some(TrailingStop)
    else if risk.maxBarsInTrade.Some? && index - p.entryIndex >= risk.maxBarsInTrade.value then Some(MaxBars)
    else if exitRule then Some(ByRule)
    else if reverse then Some(Reverse)
    else None
  }

  function Tracked(p: Position, close: real): Position {
    p.(highestClose := Max(p.highestClose, close),
       lowestClose := if close < p.lowestClose then close else p.lowestClose)
  }

  /** The trading decisions of one bar. */
  function Decide(strategy: Strategy, a: Account, index: nat, candle: Candle, s: Signals): Account
    requires candle.close != 0.0
  {
    if a.position.Some? then
      var p := Tracked(a.position.value, candle.close);
      var held := a.(position := Some(p));
      var exit := ExitDecision(strategy.risk, p, candle, index, s.Exit(p.side), s.Entry(Opposite(p.side)));
      if exit.None? then held
      else
        var closed := ClosePosition(held, index, candle, exit.value);
        if exit.value == Reverse then OpenPosition(strategy, closed, index, candle, Opposite(p.side)) else closed
    else if s.longEntry != s.shortEntry then
      OpenPosition(strategy, a, index, candle, if s.longEntry then Long else Short)
    else a
  }

  function Unrealized(position: Option<Position>, close: real): real {
    if position.None? then 0.0
    else Pnl(position.value.side, position.value.entryPrice, close, position.value.quantity)
  }

  function Equity(a: Account, close: real): real {
    a.realized + Unrealized(a.position, close)
  }

  function Bar(strategy: Strategy, a: Account, index: nat, candle: Candle, s: Signals): Account
    requires candle.close != 0.0
  {
    var b := Decide(strategy, a, index, candle, s);
    b.(barsWithExposure := b.barsWithExposure + if b.position.Some? then 1 else 0)
  }

  predicate Tradable(candles: seq<Candle>) {
    forall i :: 0 <= i < |candles| ==> candles[i].close != 0.0
  }

  /** The account after the first n bars. */
  function After(strategy: Strategy, candles: seq<Candle>, signals: seq<Signals>, n: nat): Account
    requires n <= |candles| == |signals| && Tradable(candles)
  {
    if n == 0 then Account(strategy.startingEquity, 0.0, None, 0, [])
    else Bar(strategy, After(strategy, candles, signals, n - 1), n - 1, candles[n - 1], signals[n - 1])
  }

  /** The curve the loop writes: after each bar, realised equity plus the open position's unrealised profit. */
  function Curve(strategy: Strategy, candles: seq<Candle>, signals: seq<Signals>, n: nat): (curve: seq<EquityPoint>)
    requires n <= |candles| == |signals| && Tradable(candles)
    ensures |curve| == n
  {
    if n == 0 then []
    else
      var candle := candles[n - 1];
      Curve(strategy, candles, signals, n - 1) +
      [EquityPoint(candle.ts, Equity(After(strategy, candles, signals, n), candle.close))]
  }

  datatype Report = Report(trades: seq<Trade>, curve: seq<EquityPoint>, endingEquity: real, netPnl: real,
                           grossPnl: real, barsWithExposure: nat)

  /** The whole run: a position still open after the last bar is closed on it. */
  function Run(strategy: Strategy, candles: seq<Candle>, signals: seq<Signals>): Report
    requires |candles| == |signals| && Tradable(candles)
  {
    var n := |candles|;
    var a := After(strategy, candles, signals, n);
    var curve := Curve(strategy, candles, signals, n);
    var final := if a.position.Some? && n > 0 then ClosePosition(a, n - 1, candles[n - 1], ByRule) else a;
    var settled := if a.position.Some? && n > 0 then curve[n - 1 := EquityPoint(candles[n - 1].ts, final.realized)]
                   else curve;
    var ending := if n > 0 then settled[n - 1].equity else final.realized;
    Report(final.trades, settled, ending, ending - strategy.startingEquity, final.gross, final.barsWithExposure)
  }

  /** The bar loop, updating its variables in place over a curve prefilled with the starting equity. */
  method RunLoop(strategy: Strategy, candles: seq<Candle>, signals: seq<Signals>) returns (r: Report)
    requires |candles| == |signals| && Tradable(candles)
    ensures r == Run(strategy, candles, signals)
  {
    hide Pnl, Tracked, EntryNotional, ExitDecision, Scaled;
    var realized, gross, barsWithExposure := strategy.startingEquity, 0.0, 0;
    var position: Option<Position> := None;
    var trades: seq<Trade> := [];
    var curve := seq(|candles|, i requires 0 <= i < |candles| => EquityPoint(candles[i].ts, strategy.startingEquity));
    for index := 0 to |candles|
      invariant Account(realized, gross, position, barsWithExposure, trades) == After(strategy, candles, signals, index)
      invariant |curve| == |candles| && curve[..index] == Curve(strategy, candles, signals, index)
    {
      var candle, s := candles[index], signals[index];
      var account := Account(realized, gross, position, barsWithExposure, trades);
      if position.Some? {
        var current := Tracked(position.value, candle.close);
        account := account.(position := Some(current));
        var reverse := s.Entry(Opposite(current.side));
        var exit := ExitDecision(strategy.risk, current, candle, index, s.Exit(current.side), reverse);
        if exit.Some? {
          account := ClosePosition(account, index, candle, exit.value);
          if exit.value == Reverse {
            account := OpenPosition(strategy, account, index, candle, Opposite(current.side));
          }
        }
      } else if s.longEntry != s.shortEntry {
        account := OpenPosition(strategy, account, index, candle, if s.longEntry then Long else Short);
      }
      realized, gross, position, trades := account.realized, account.gross, account.position, account.trades;
      var equity := realized;
      if position.Some? {
        equity := equity + Unrealized(position, candle.close);
        barsWithExposure := barsWithExposure + 1;
      }
      ghost var before := curve;
      curve := curve[index := EquityPoint(candle.ts, equity)];
      assert curve[..index] == before[..index];
    }
    var n := |candles|;
    assert curve == curve[..n];
    if position.Some? && n > 0 {
      var open := Account(realized, gross, position, barsWithExposure, trades);
      var account := ClosePosition(open, n - 1, candles[n - 1], ByRule);
      realized, gross, trades := account.realized, account.gross, account.trades;
      curve := curve[n - 1 := EquityPoint(candles[n - 1].ts, realized)];
    }
    var ending := if n > 0 then curve[n - 1].equity else realized;
    r := Report(trades, curve, ending, ending - strategy.startingEquity, gross, barsWithExposure);
  }

  function Equities(curve: seq<EquityPoint>): (values: seq<real>)
    ensures |values| == |curve|
  {
    seq(|curve|, i requires 0 <= i < |curve| => curve[i].equity)
  }

  /** How far, in percent, a positive peak has been lost. */
  function Fall(peak: real, equity: real): real
    requires peak > 0.0
  {
    (peak - equity) / peak * 100.0
  }

  /** The fall at point j from the highest point up to it, where that is positive. */
  function FallAt(values: seq<real>, j: nat): real
    requires j < |values|
  {
    var peak := MaxOf(values[..j + 1]);
    if peak > 0.0 then Fall(peak, values[j]) else 0.0
  }

  predicate IsLoss(peak: real, equity: real, fall: real) {
    if peak > 0.0 then equity == peak * (1.0 - fall / 100.0) else fall == 0.0
  }

  /** What a fall loses: the point lies that percentage below the highest point so far, where that is positive. */
  lemma FallIsLoss(values: seq<real>, j: nat)
    requires j < |values|
    ensures exists i ::
              && 0 <= i <= j
              && (forall k :: 0 <= k <= j ==> values[k] <= values[i])
              && IsLoss(values[i], values[j], FallAt(values, j))
  {
    hide MaxOf, Fall, IsLoss;
    var peak := MaxOf(values[..j + 1]);
    var i :| 0 <= i < j + 1 && values[..j + 1][i] == peak;
    forall k | 0 <= k <= j ensures values[k] <= peak {
      assert values[..j + 1][k] in values[..j + 1];
    }
    LossOfPeak(peak, values[j], FallAt(values, j));
  }

  lemma LossOfPeak(peak: real, equity: real, fall: real)
    requires fall == if peak > 0.0 then Fall(peak, equity) else 0.0
    ensures IsLoss(peak, equity, fall)
  {
    if peak > 0.0 {
      var lost := (peak - equity) / peak;
      assert lost * peak == peak - equity;
      assert fall / 100.0 == lost;
    }
  }

  /** The loop's `peak` before point j: the first point, then the highest so far. */
  function PeakBefore(values: seq<real>, j: nat): real
    requires j <= |values|
  {
    if |values| == 0 then 0.0 else if j == 0 then values[0] else MaxOf(values[..j])
  }

  lemma PeakStep(values: seq<real>, j: nat)
    requires j < |values|
    ensures PeakBefore(values, j + 1) == Max(PeakBefore(values, j), values[j]) == MaxOf(values[..j + 1])
  {
    assert values[..j + 1][..j] == values[..j];
  }

  /** The worst fall below the running peak. */
  method CalcDrawdownPct(curve: seq<EquityPoint>) returns (worst: real)
    ensures worst >= 0.0
    ensures forall j :: 0 <= j < |curve| ==> FallAt(Equities(curve), j) <= worst
    ensures worst == 0.0 || exists j :: 0 <= j < |curve| && worst == FallAt(Equities(curve), j)
  {
    hide MaxOf, Fall;
    ghost var values := Equities(curve);
    ghost var at := -1;
    worst := 0.0;
    var peak := if |curve| == 0 then 0.0 else curve[0].equity;
    for j := 0 to |curve|
      invariant peak == PeakBefore(values, j)
      invariant worst >= 0.0
      invariant forall i :: 0 <= i < j ==> FallAt(values, i) <= worst
      invariant if at == -1 then worst == 0.0 else 0 <= at < j && worst == FallAt(values, at)
    {
      PeakStep(values, j);
      peak := Max(peak, curve[j].equity);
      if peak > 0.0 {
        var fall := Fall(peak, curve[j].equity);
        assert fall == FallAt(values, j);
        if worst < fall { at, worst := j, fall; }
      }
    }
  }
}
