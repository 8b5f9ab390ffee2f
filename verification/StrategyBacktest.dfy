/**
  A rule-based strategy from its rule groups to its report: compiled, with each
  indicator computed once, and compared with reading the rules directly.
 */
module StrategyBacktest {
  import opened Backtest
  import opened BacktestResults
  import opened IndicatorCache
  import opened IndicatorKeys
  import opened Indicators
  import opened StrategyRuntime

  datatype Compiled = Compiled(
    enabledSides: seq<PositionSide>, entryLong: Condition, entryShort: Condition, exitLong: Condition,
    exitShort: Condition)
  {
    function Entry(side: PositionSide): Condition { if side == Long then entryLong else entryShort }

    function Exit(side: PositionSide): Condition { if side == Long then exitLong else exitShort }
  }

  function Compile(strategy: Strategy): Compiled {
    Compiled(strategy.enabledSides, CompileGroups(strategy.entryRules.long), CompileGroups(strategy.entryRules.short),
             CompileGroups(strategy.exitRules.long), CompileGroups(strategy.exitRules.short))
  }

  function EntryGroups(strategy: Strategy, side: PositionSide): seq<RuleGroup> {
    if side == Long then strategy.entryRules.long else strategy.entryRules.short
  }

  function ExitGroups(strategy: Strategy, side: PositionSide): seq<RuleGroup> {
    if side == Long then strategy.exitRules.long else strategy.exitRules.short
  }

  /** The numbers that a strategy's indicators are given. */
  function StrategyNumbers(strategy: Strategy): set<real> {
    NumbersIn(strategy.entryRules.long) + NumbersIn(strategy.entryRules.short) +
    NumbersIn(strategy.exitRules.long) + NumbersIn(strategy.exitRules.short)
  }

  /** The strategy's numbers print apart, so that different series have different cache keys. */
  ghost predicate NumbersPrint(env: Env, strategy: Strategy) {
    Prints(env.show, StrategyNumbers(strategy))
  }

  /** References of the first n enabled sides. */
  function CollectSides(env: Env, c: Compiled, n: nat): References
    requires n <= |c.enabledSides|
  {
    if n == 0 then map[]
    else
      var side := c.enabledSides[n - 1];
      CollectCondition(env, c.Exit(side), CollectCondition(env, c.Entry(side), CollectSides(env, c, n - 1)))
  }

  function CollectRuntime(env: Env, c: Compiled): References {
    CollectSides(env, c, |c.enabledSides|)
  }

  function SignalsAt(lookup: Lookup, c: Compiled, i: nat): Signals {
    Signals(Long in c.enabledSides && EvalCondition(lookup, c.entryLong, i),
            Short in c.enabledSides && EvalCondition(lookup, c.entryShort, i),
            EvalCondition(lookup, c.exitLong, i), EvalCondition(lookup, c.exitShort, i))
  }

  function EngineLookup(env: Env, strategy: Strategy, candles: seq<Candle>): Lookup {
    Engine(env, candles, CollectRuntime(env, Compile(strategy)))
  }

  /** What the engine's compiled conditions say over the precomputed series. */
  function EngineSignals(env: Env, strategy: Strategy, candles: seq<Candle>): (signals: seq<Signals>)
    ensures |signals| == |candles|
  {
    seq(|candles|, i requires 0 <= i < |candles| =>
      SignalsAt(EngineLookup(env, strategy, candles), Compile(strategy), i))
  }

  /** What the rule groups say, read directly, with every indicator recomputed where it is used. */
  function RuleSignals(env: Env, strategy: Strategy, candles: seq<Candle>): (signals: seq<Signals>)
    ensures |signals| == |candles|
  {
    var lookup := Recomputed(env, candles);
    seq(|candles|, i requires 0 <= i < |candles| =>
      Signals(Long in strategy.enabledSides && RulesHold(lookup, strategy.entryRules.long, i),
              Short in strategy.enabledSides && RulesHold(lookup, strategy.entryRules.short, i),
              RulesHold(lookup, strategy.exitRules.long, i), RulesHold(lookup, strategy.exitRules.short, i)))
  }

  // ----- Collection covers the enabled sides -----

  ghost predicate SideIsCollected(env: Env, refs: References, c: Compiled, side: PositionSide) {
    HoldsAll(env, refs, c.Entry(side)) && HoldsAll(env, refs, c.Exit(side))
  }

  ghost predicate SideWithin(c: Compiled, side: PositionSide, numbers: set<real>) {
    MentionsWithin(c.Entry(side), numbers) && MentionsWithin(c.Exit(side), numbers)
  }

  lemma SidesAreWithin(strategy: Strategy, side: PositionSide)
    ensures SideWithin(Compile(strategy), side, StrategyNumbers(strategy))
  {
    CompiledWithin(EntryGroups(strategy, side), StrategyNumbers(strategy));
    CompiledWithin(ExitGroups(strategy, side), StrategyNumbers(strategy));
  }

  lemma {:induction false} SideGetsCollected(env: Env, before: References, c: Compiled, side: PositionSide,
                                             numbers: set<real>)
    requires WellKeyed(env, before, numbers) && SideWithin(c, side, numbers)
    ensures var after := CollectCondition(env, c.Exit(side), CollectCondition(env, c.Entry(side), before));
            WellKeyed(env, after, numbers) && before.Keys <= after.Keys && SideIsCollected(env, after, c, side)
  {
    hide HoldsAll, WellKeyed, MentionsWithin, CollectCondition;
    var withEntry := CollectCondition(env, c.Entry(side), before);
    CollectConditionFinds(env, c.Entry(side), before, numbers);
    CollectConditionFinds(env, c.Exit(side), withEntry, numbers);
    HoldsMore(env, withEntry, CollectCondition(env, c.Exit(side), withEntry), c.Entry(side));
  }

  lemma NothingIsWellKeyed(env: Env, numbers: set<real>)
    ensures WellKeyed(env, map[], numbers)
  {
  }

  lemma {:induction false} SidesAreCollected(env: Env, c: Compiled, n: nat, numbers: set<real>)
    requires n <= |c.enabledSides| && SideWithin(c, Long, numbers) && SideWithin(c, Short, numbers)
    ensures WellKeyed(env, CollectSides(env, c, n), numbers)
    ensures forall k :: 0 <= k < n ==> SideIsCollected(env, CollectSides(env, c, n), c, c.enabledSides[k])
  {
    hide HoldsAll, WellKeyed, MentionsWithin, CollectCondition;
    NothingIsWellKeyed(env, numbers);
    if n > 0 {
      var before, after := CollectSides(env, c, n - 1), CollectSides(env, c, n);
      SidesAreCollected(env, c, n - 1, numbers);
      SideGetsCollected(env, before, c, c.enabledSides[n - 1], numbers);
      forall k | 0 <= k < n - 1 ensures SideIsCollected(env, after, c, c.enabledSides[k]) {
        HoldsMore(env, before, after, c.Entry(c.enabledSides[k]));
        HoldsMore(env, before, after, c.Exit(c.enabledSides[k]));
      }
    }
  }

  /** On an enabled side the engine's verdicts are those of the rules. */
  lemma {:induction false} EnabledSidesAgree(env: Env, strategy: Strategy, candles: seq<Candle>, side: PositionSide,
                                             i: int)
    requires NumbersPrint(env, strategy) && side in strategy.enabledSides
    ensures EvalCondition(EngineLookup(env, strategy, candles), Compile(strategy).Entry(side), i) <==>
            RulesHold(Recomputed(env, candles), EntryGroups(strategy, side), i)
    ensures EvalCondition(EngineLookup(env, strategy, candles), Compile(strategy).Exit(side), i) <==>
            RulesHold(Recomputed(env, candles), ExitGroups(strategy, side), i)
  {
    var c := Compile(strategy);
    var refs := CollectRuntime(env, c);
    var k :| 0 <= k < |c.enabledSides| && c.enabledSides[k] == side;
    var numbers := StrategyNumbers(strategy);
    SidesAreWithin(strategy, Long);
    SidesAreWithin(strategy, Short);
    SidesAreCollected(env, c, |c.enabledSides|, numbers);
    assert SideIsCollected(env, refs, c, c.enabledSides[k]);
    CacheIsTransparent(env, candles, refs, numbers, c.Entry(side), i);
    CacheIsTransparent(env, candles, refs, numbers, c.Exit(side), i);
    CompilationPreservesMeaning(Recomputed(env, candles), EntryGroups(strategy, side), i);
    CompilationPreservesMeaning(Recomputed(env, candles), ExitGroups(strategy, side), i);
  }

  // ----- The exits of a side that is not enabled never matter -----

  predicate AgreeOnEnabled(strategy: Strategy, a: Signals, b: Signals) {
    && a.longEntry == b.longEntry && a.shortEntry == b.shortEntry
    && (a.longEntry ==> Long in strategy.enabledSides)
    && (a.shortEntry ==> Short in strategy.enabledSides)
    && forall side :: side in strategy.enabledSides ==> a.Exit(side) == b.Exit(side)
  }

  predicate OnEnabledSide(strategy: Strategy, a: Account) {
    a.position.Some? ==> a.position.value.side in strategy.enabledSides
  }

  lemma BarsAgree(strategy: Strategy, account: Account, index: nat, candle: Candle, a: Signals, b: Signals)
    requires candle.close != 0.0 && OnEnabledSide(strategy, account) && AgreeOnEnabled(strategy, a, b)
    ensures Bar(strategy, account, index, candle, a) == Bar(strategy, account, index, candle, b)
    ensures OnEnabledSide(strategy, Bar(strategy, account, index, candle, a))
  {
  }

  lemma {:induction false} LoopsAgree(strategy: Strategy, candles: seq<Candle>, a: seq<Signals>, b: seq<Signals>,
                                      n: nat)
    requires n <= |candles| == |a| == |b| && Backtest.Tradable(candles)
    requires forall i :: 0 <= i < |a| ==> AgreeOnEnabled(strategy, a[i], b[i])
    ensures After(strategy, candles, a, n) == After(strategy, candles, b, n)
    ensures OnEnabledSide(strategy, After(strategy, candles, a, n))
    ensures Curve(strategy, candles, a, n) == Curve(strategy, candles, b, n)
  {
    if n > 0 {
      LoopsAgree(strategy, candles, a, b, n - 1);
      BarsAgree(strategy, After(strategy, candles, a, n - 1), n - 1, candles[n - 1], a[n - 1], b[n - 1]);
    }
  }

  /** Whatever numbers a strategy uses, some way of printing keeps them apart. */
  lemma SomePrintingSuits(strategy: Strategy, sqrt: real -> real)
    ensures exists show :: NumbersPrint(Env(show, sqrt), strategy)
  {
    PrintingExists(StrategyNumbers(strategy));
    var show :| Prints(show, StrategyNumbers(strategy));
    assert NumbersPrint(Env(show, sqrt), strategy);
  }

  lemma {:induction false} SignalsAgree(env: Env, strategy: Strategy, candles: seq<Candle>, i: nat)
    requires NumbersPrint(env, strategy) && i < |candles|
    ensures AgreeOnEnabled(strategy, EngineSignals(env, strategy, candles)[i], RuleSignals(env, strategy, candles)[i])
  {
    hide NumbersPrint, EvalCondition, RulesHold, EngineLookup, Recomputed, CompileGroups;
    var a, b := EngineSignals(env, strategy, candles)[i], RuleSignals(env, strategy, candles)[i];
    assert a == SignalsAt(EngineLookup(env, strategy, candles), Compile(strategy), i);
    assert Compile(strategy).enabledSides == strategy.enabledSides;
    forall side | side in strategy.enabledSides
      ensures a.Entry(side) == b.Entry(side) && a.Exit(side) == b.Exit(side)
    {
      EnabledSidesAgree(env, strategy, candles, side, i);
    }
  }

  /**
    The whole report of a backtest through the compiled runtime and the
    precomputed series is the report of reading the rule groups directly and
    recomputing every indicator where it is used.
   */
  lemma EngineReportsWhatTheRulesSay(env: Env, strategy: Strategy, candles: seq<Candle>)
    requires NumbersPrint(env, strategy) && Backtest.Tradable(candles)
    ensures Run(strategy, candles, EngineSignals(env, strategy, candles)) ==
            Run(strategy, candles, RuleSignals(env, strategy, candles))
  {
    hide NumbersPrint, AgreeOnEnabled, After, Curve, SignalsAt, EngineLookup, Compile, Recomputed;
    var a, b := EngineSignals(env, strategy, candles), RuleSignals(env, strategy, candles);
    forall i | 0 <= i < |candles| ensures AgreeOnEnabled(strategy, a[i], b[i]) {
      SignalsAgree(env, strategy, candles, i);
    }
    LoopsAgree(strategy, candles, a, b, |candles|);
  }

  lemma EngineSignalsAreGated(env: Env, strategy: Strategy, candles: seq<Candle>)
    ensures Gated(strategy, EngineSignals(env, strategy, candles))
  {
  }

  // ----- No look-ahead over a whole run -----

  /** Compiled rule groups use no history references, so they never look ahead. */
  lemma CompiledNeverAhead(groups: seq<RuleGroup>)
    ensures NeverAhead(CompileGroups(groups))
  {
  }

  lemma {:induction false} VerdictOverPrefix(env: Env, candles: seq<Candle>, refs: References, groups: seq<RuleGroup>,
                                             n: nat, i: nat)
    requires i < n <= |candles|
    ensures EvalCondition(Engine(env, candles[..n], refs), CompileGroups(groups), i) <==>
            EvalCondition(Engine(env, candles, refs), CompileGroups(groups), i)
  {
    CompiledNeverAhead(groups);
    assert candles[..n][..i + 1] == candles[..i + 1];
    VerdictsSeeOnlyThePast(env, candles, refs, CompileGroups(groups), i);
    VerdictsSeeOnlyThePast(env, candles[..n], refs, CompileGroups(groups), i);
  }

  lemma SignalsSeeOnlyThePast(env: Env, strategy: Strategy, candles: seq<Candle>, n: nat)
    requires n <= |candles|
    ensures EngineSignals(env, strategy, candles[..n]) == EngineSignals(env, strategy, candles)[..n]
  {
    var c := Compile(strategy);
    var refs := CollectRuntime(env, c);
    forall i | 0 <= i < n
      ensures SignalsAt(Engine(env, candles[..n], refs), c, i) == SignalsAt(Engine(env, candles, refs), c, i)
    {
      VerdictOverPrefix(env, candles, refs, strategy.entryRules.long, n, i);
      VerdictOverPrefix(env, candles, refs, strategy.entryRules.short, n, i);
      VerdictOverPrefix(env, candles, refs, strategy.exitRules.long, n, i);
      VerdictOverPrefix(env, candles, refs, strategy.exitRules.short, n, i);
    }
  }

  lemma {:induction false} LoopOverPrefix(strategy: Strategy, candles: seq<Candle>, signals: seq<Signals>, n: nat,
                                          i: nat)
    requires i <= n <= |candles| == |signals| && Backtest.Tradable(candles)
    ensures After(strategy, candles[..n], signals[..n], i) == After(strategy, candles, signals, i)
    ensures Curve(strategy, candles[..n], signals[..n], i) == Curve(strategy, candles, signals, i)
  {
    if i > 0 {
      LoopOverPrefix(strategy, candles, signals, n, i - 1);
    }
  }

  /** A rule-based backtest never looks ahead: its account and curve after n bars need only the first n candles. */
  lemma {:induction false} BacktestNeverLooksAhead(env: Env, strategy: Strategy, candles: seq<Candle>, n: nat)
    requires n <= |candles| && Backtest.Tradable(candles)
    ensures After(strategy, candles[..n], EngineSignals(env, strategy, candles[..n]), n) ==
            After(strategy, candles, EngineSignals(env, strategy, candles), n)
    ensures Curve(strategy, candles[..n], EngineSignals(env, strategy, candles[..n]), n) ==
            Curve(strategy, candles, EngineSignals(env, strategy, candles), n)
  {
    SignalsSeeOnlyThePast(env, strategy, candles, n);
    LoopOverPrefix(strategy, candles, EngineSignals(env, strategy, candles), n, n);
  }

  // ----- The service's entry point -----

  /** Collects the references, builds the series once, evaluates every bar and runs the loop. */
  method RunStrategyBacktest(env: Env, strategy: Strategy, candles: seq<Candle>)
    returns (report: Report, maxDrawdownPct: real)
    requires NumbersPrint(env, strategy) && Backtest.Tradable(candles)
    ensures report == Run(strategy, candles, RuleSignals(env, strategy, candles))
    ensures maxDrawdownPct >= 0.0
    ensures forall j :: 0 <= j < |report.curve| ==> FallAt(Equities(report.curve), j) <= maxDrawdownPct
    ensures maxDrawdownPct == 0.0 ||
            exists j :: 0 <= j < |report.curve| && maxDrawdownPct == FallAt(Equities(report.curve), j)
    ensures LongOnly(strategy, candles) ==> maxDrawdownPct <= 100.0
  {
    hide NumbersPrint, StrategyNumbers, CompileGroups, EvalCondition, SignalsAt, CollectCondition, BuildSeriesMap;
    hide Run, RuleSignals, FallAt;
    var runtime := Compile(strategy);
    var table := new ReferenceTable();
    for k := 0 to |runtime.enabledSides|
      invariant table.refs == CollectSides(env, runtime, k)
    {
      table.FromCondition(env, runtime.Entry(runtime.enabledSides[k]));
      table.FromCondition(env, runtime.Exit(runtime.enabledSides[k]));
    }
    var series := table.BuildSeries(env, candles);
    var lookup := Cached(env, candles, series);
    var signals: seq<Signals> := [];
    for i := 0 to |candles|
      invariant |signals| == i
      invariant forall j :: 0 <= j < i ==> signals[j] == SignalsAt(lookup, runtime, j)
    {
      signals := signals + [SignalsAt(lookup, runtime, i)];
    }
    assert lookup == EngineLookup(env, strategy, candles);
    assert signals == EngineSignals(env, strategy, candles);
    EngineReportsWhatTheRulesSay(env, strategy, candles);
    report := RunLoop(strategy, candles, signals);
    maxDrawdownPct := CalcDrawdownPct(report.curve);
    if LongOnly(strategy, candles) {
      EngineSignalsAreGated(env, strategy, candles);
      LongOnlyStaysSolvent(strategy, candles, signals);
    }
  }
}
