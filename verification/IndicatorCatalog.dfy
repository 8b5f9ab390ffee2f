/** Every indicator by kind, output and parameters, and the proof that none of them looks ahead. */
module IndicatorCatalog {
  import opened Indicators
  import opened Outcome

  datatype Kind =
    | KSma | KEma | KRsi | KMacd | KBollinger | KAtr | KRoc | KStoch | KVwap | KRollingHigh | KRollingLow
    | KCandleBodyPct | KCandleDirection

  datatype Output = OValue | OLine | OSignal | OHistogram | OUpper | OMiddle | OLower | OK | OD | ODirection

  datatype Params = Params(
    fastPeriod: Option<Period>,
    lookback: Option<Period>,
    period: Option<Period>,
    signalPeriod: Option<Period>,
    slowPeriod: Option<Period>,
    smoothD: Option<Period>,
    smoothK: Option<Period>,
    source: Option<PriceField>,
    stdDev: Option<real>)

  function Or<T>(value: Option<T>, fallback: T): T {
    if value.Some? then value.value else fallback
  }

  /** The series the engine serves for a reference. */
  function Values(sqrt: real -> real, candles: seq<Candle>, kind: Kind, output: Output, params: Params): (r: Series)
    ensures |r| == |candles|
  {
    var values := Source(candles, Or(params.source, FClose));
    match kind
    case KSma => SmaSeries(values, Or(params.period, 20))
    case KEma => EmaSeries(values, Or(params.period, 20))
    case KRsi => RsiSeries(values, Or(params.period, 14))
    case KMacd => MacdValues(values, output, params)
    case KBollinger => BollingerValues(sqrt, values, output, params)
    case KAtr => AtrSeries(candles, Or(params.period, 14))
    case KRoc => RocSeries(values, Or(params.period, 9))
    case KStoch => StochValues(candles, output, params)
    case KVwap => VwapSeries(candles)
    case KRollingHigh => RollingHighSeries(Source(candles, FHigh), Or(params.lookback, 20))
    case KRollingLow => RollingLowSeries(Source(candles, FLow), Or(params.lookback, 20))
    case KCandleBodyPct => seq(|candles|, i requires 0 <= i < |candles| => Some(BodyPct(candles[i])))
    case KCandleDirection => seq(|candles|, i requires 0 <= i < |candles| => Some(Direction(candles[i])))
  }

  function MacdValues(values: seq<real>, output: Output, params: Params): (r: Series)
    ensures |r| == |values|
  {
    var fast, slow, signal := Or(params.fastPeriod, 12), Or(params.slowPeriod, 26), Or(params.signalPeriod, 9);
    if output == OSignal then MacdSignal(values, fast, slow, signal)
    else if output == OHistogram then Minus(MacdLine(values, fast, slow), MacdSignal(values, fast, slow, signal))
    else MacdLine(values, fast, slow)
  }

  function BollingerValues(sqrt: real -> real, values: seq<real>, output: Output, params: Params): (r: Series)
    ensures |r| == |values|
  {
    var period, stdDev := Or(params.period, 20), Or(params.stdDev, 2.0);
    if output == OUpper then BandSeries(sqrt, values, period, stdDev)
    else if output == OLower then BandSeries(sqrt, values, period, 0.0 - stdDev)
    else SmaSeries(values, period)
  }

  function StochValues(candles: seq<Candle>, output: Output, params: Params): (r: Series)
    ensures |r| == |candles|
  {
    var k := Smoothed(RawK(candles, Or(params.period, 14)), Or(params.smoothK, 3));
    if output == OD then Smoothed(k, Or(params.smoothD, 3)) else k
  }

  function RsiSeries(values: seq<real>, period: Period): Series {
    seq(|values|, i requires 0 <= i < |values| => RsiAt(values, period, i))
  }

  function BandSeries(sqrt: real -> real, values: seq<real>, period: Period, factor: real): Series {
    seq(|values|, i requires 0 <= i < |values| => BandAt(sqrt, values, period, factor, i))
  }

  function AtrSeries(candles: seq<Candle>, period: Period): Series {
    seq(|candles|, i requires 0 <= i < |candles| => AtrAt(TrueRanges(candles), period, i))
  }

  function RocSeries(values: seq<real>, period: Period): Series {
    seq(|values|, i requires 0 <= i < |values| => RocAt(values, period, i))
  }

  function VwapSeries(candles: seq<Candle>): Series {
    seq(|candles|, i requires 0 <= i < |candles| => VwapAt(candles, i))
  }

  function RollingHighSeries(values: seq<real>, lookback: Period): Series {
    seq(|values|, i requires 0 <= i < |values| => RollingHighAt(values, lookback, i))
  }

  function RollingLowSeries(values: seq<real>, lookback: Period): Series {
    seq(|values|, i requires 0 <= i < |values| => RollingLowAt(values, lookback, i))
  }

  /** The engine's loops compute exactly that series. */
  method BuildIndicatorValues(sqrt: real -> real, candles: seq<Candle>, kind: Kind, output: Output, params: Params)
    returns (r: Series)
    ensures r == Values(sqrt, candles, kind, output, params)
  {
    hide RsiAt, EmaAt, BandAt, AtrAt, VwapAt, RocAt, RollingHighAt, RollingLowAt, SmaAt, RawKAt, MovesAt, BodyPct;
    hide Direction, TrueRanges;
    var values := Source(candles, Or(params.source, FClose));
    match kind
    case KSma => r := Sma(values, Or(params.period, 20));
    case KEma => r := Ema(values, Or(params.period, 20));
    case KRsi => r := Rsi(values, Or(params.period, 14));
    case KMacd =>
      var fast := Ema(values, Or(params.fastPeriod, 12));
      var slow := Ema(values, Or(params.slowPeriod, 26));
      var macdLine := Minus(fast, slow);
      var raw := Ema(OrZero(macdLine), Or(params.signalPeriod, 9));
      var signal := Masked(macdLine, raw);
      r := if output == OSignal then signal else if output == OHistogram then Minus(macdLine, signal) else macdLine;
    case KBollinger =>
      var period, stdDev := Or(params.period, 20), Or(params.stdDev, 2.0);
      var middle := Sma(values, period);
      var upper := Band(sqrt, values, period, stdDev);
      var lower := Band(sqrt, values, period, 0.0 - stdDev);
      r := if output == OUpper then upper else if output == OLower then lower else middle;
    case KAtr => r := Atr(candles, Or(params.period, 14));
    case KRoc => r := RocSeries(values, Or(params.period, 9));
    case KStoch =>
      var rawK := RawK(candles, Or(params.period, 14));
      var smoothK := Sma(OrZero(rawK), Or(params.smoothK, 3));
      var k := Masked(rawK, smoothK);
      var smoothD := Sma(OrZero(k), Or(params.smoothD, 3));
      r := if output == OD then Masked(k, smoothD) else k;
    case KVwap => r := Vwap(candles);
    case KRollingHigh => r := RollingHighSeries(Source(candles, FHigh), Or(params.lookback, 20));
    case KRollingLow => r := RollingLowSeries(Source(candles, FLow), Or(params.lookback, 20));
    case KCandleBodyPct => r := seq(|candles|, i requires 0 <= i < |candles| => Some(BodyPct(candles[i])));
    case KCandleDirection => r := seq(|candles|, i requires 0 <= i < |candles| => Some(Direction(candles[i])));
  }

  // ----- No look-ahead: cutting the input cuts the output -----

  lemma WindowPrefix(values: seq<real>, n: nat, period: Period, i: nat)
    requires period - 1 <= i < n <= |values|
    ensures Window(values[..n], period, i) == Window(values, period, i)
  {
  }

  lemma SmaPrefix(values: seq<real>, n: nat, period: Period)
    requires n <= |values|
    ensures SmaSeries(values[..n], period) == SmaSeries(values, period)[..n]
  {
    forall i | period - 1 <= i < n ensures Window(values[..n], period, i) == Window(values, period, i) {
      WindowPrefix(values, n, period, i);
    }
  }

  lemma {:induction false} EmaAtPrefix(values: seq<real>, n: nat, period: Period, i: nat)
    requires i < n <= |values|
    ensures EmaAt(values[..n], period, i) == EmaAt(values, period, i)
  {
    if i == period - 1 {
      assert values[..n][..period] == values[..period];
    } else if i > period - 1 {
      EmaAtPrefix(values, n, period, i - 1);
    }
  }

  lemma EmaPrefix(values: seq<real>, n: nat, period: Period)
    requires n <= |values|
    ensures EmaSeries(values[..n], period) == EmaSeries(values, period)[..n]
  {
    forall i | 0 <= i < n ensures EmaAt(values[..n], period, i) == EmaAt(values, period, i) {
      EmaAtPrefix(values, n, period, i);
    }
  }

  lemma {:induction false} MovesPrefix(values: seq<real>, n: nat, period: Period, up: bool, i: nat)
    requires i < n <= |values|
    ensures MovesAt(values[..n], period, up, i) == MovesAt(values, period, up, i)
  {
    if i > 0 {
      MovesPrefix(values, n, period, up, i - 1);
    }
  }

  lemma RsiPrefix(values: seq<real>, n: nat, period: Period)
    requires n <= |values|
    ensures RsiSeries(values[..n], period) == RsiSeries(values, period)[..n]
  {
    forall i | 0 <= i < n ensures RsiAt(values[..n], period, i) == RsiAt(values, period, i) {
      MovesPrefix(values, n, period, true, i);
      MovesPrefix(values, n, period, false, i);
    }
  }

  lemma {:induction false} AtrAtPrefix(ranges: seq<real>, n: nat, period: Period, i: nat)
    requires i < n <= |ranges|
    ensures AtrAt(ranges[..n], period, i) == AtrAt(ranges, period, i)
  {
    if i == period - 1 {
      assert ranges[..n][..period] == ranges[..period];
    } else if i > period - 1 {
      AtrAtPrefix(ranges, n, period, i - 1);
    }
  }

  lemma AtrPrefix(candles: seq<Candle>, n: nat, period: Period)
    requires n <= |candles|
    ensures AtrSeries(candles[..n], period) == AtrSeries(candles, period)[..n]
  {
    assert TrueRanges(candles[..n]) == TrueRanges(candles)[..n];
    forall i | 0 <= i < n ensures AtrAt(TrueRanges(candles)[..n], period, i) == AtrAt(TrueRanges(candles), period, i) {
      AtrAtPrefix(TrueRanges(candles), n, period, i);
    }
  }

  lemma BandPrefix(sqrt: real -> real, values: seq<real>, n: nat, period: Period, factor: real)
    requires n <= |values|
    ensures BandSeries(sqrt, values[..n], period, factor) == BandSeries(sqrt, values, period, factor)[..n]
  {
    forall i | 0 <= i < n
      ensures BandAt(sqrt, values[..n], period, factor, i) == BandAt(sqrt, values, period, factor, i)
    {
      if i >= period - 1 { WindowPrefix(values, n, period, i); }
    }
  }

  lemma SourcePrefix(candles: seq<Candle>, n: nat, field: PriceField)
    requires n <= |candles|
    ensures Source(candles[..n], field) == Source(candles, field)[..n]
  {
  }

  lemma RollingPrefix(values: seq<real>, n: nat, lookback: Period)
    requires n <= |values|
    ensures RollingHighSeries(values[..n], lookback) == RollingHighSeries(values, lookback)[..n]
    ensures RollingLowSeries(values[..n], lookback) == RollingLowSeries(values, lookback)[..n]
  {
    forall i | lookback - 1 <= i < n ensures Window(values[..n], lookback, i) == Window(values, lookback, i) {
      WindowPrefix(values, n, lookback, i);
    }
  }

  lemma RawKPrefix(candles: seq<Candle>, n: nat, period: Period)
    requires n <= |candles|
    ensures RawK(candles[..n], period) == RawK(candles, period)[..n]
  {
    SourcePrefix(candles, n, FHigh);
    SourcePrefix(candles, n, FLow);
    forall i | 0 <= i < n ensures RawKAt(candles[..n], period, i) == RawKAt(candles, period, i) {
      if i >= period - 1 {
        WindowPrefix(Source(candles, FHigh), n, period, i);
        WindowPrefix(Source(candles, FLow), n, period, i);
      }
    }
  }

  lemma SmoothedPrefix(s: Series, n: nat, period: Period)
    requires n <= |s|
    ensures Smoothed(s[..n], period) == Smoothed(s, period)[..n]
  {
    assert OrZero(s[..n]) == OrZero(s)[..n];
    SmaPrefix(OrZero(s), n, period);
  }

  lemma MacdPrefix(values: seq<real>, n: nat, fast: Period, slow: Period, signal: Period)
    requires n <= |values|
    ensures MacdLine(values[..n], fast, slow) == MacdLine(values, fast, slow)[..n]
    ensures MacdSignal(values[..n], fast, slow, signal) == MacdSignal(values, fast, slow, signal)[..n]
  {
    EmaPrefix(values, n, fast);
    EmaPrefix(values, n, slow);
    var line := MacdLine(values, fast, slow);
    assert MacdLine(values[..n], fast, slow) == line[..n];
    assert OrZero(line[..n]) == OrZero(line)[..n];
    EmaPrefix(OrZero(line), n, signal);
  }

  lemma MacdValuesPrefix(values: seq<real>, n: nat, output: Output, params: Params)
    requires n <= |values|
    ensures MacdValues(values[..n], output, params) == MacdValues(values, output, params)[..n]
  {
    MacdPrefix(values, n, Or(params.fastPeriod, 12), Or(params.slowPeriod, 26), Or(params.signalPeriod, 9));
  }

  lemma BollingerPrefix(sqrt: real -> real, values: seq<real>, n: nat, output: Output, params: Params)
    requires n <= |values|
    ensures BollingerValues(sqrt, values[..n], output, params) == BollingerValues(sqrt, values, output, params)[..n]
  {
    SmaPrefix(values, n, Or(params.period, 20));
    BandPrefix(sqrt, values, n, Or(params.period, 20), Or(params.stdDev, 2.0));
    BandPrefix(sqrt, values, n, Or(params.period, 20), 0.0 - Or(params.stdDev, 2.0));
  }

  lemma StochPrefix(candles: seq<Candle>, n: nat, output: Output, params: Params)
    requires n <= |candles|
    ensures StochValues(candles[..n], output, params) == StochValues(candles, output, params)[..n]
  {
    RawKPrefix(candles, n, Or(params.period, 14));
    SmoothedPrefix(RawK(candles, Or(params.period, 14)), n, Or(params.smoothK, 3));
    SmoothedPrefix(Smoothed(RawK(candles, Or(params.period, 14)), Or(params.smoothK, 3)), n, Or(params.smoothD, 3));
  }

  lemma VwapPrefix(candles: seq<Candle>, n: nat)
    requires n <= |candles|
    ensures VwapSeries(candles[..n]) == VwapSeries(candles)[..n]
  {
    forall i | 0 <= i < n ensures VwapAt(candles[..n], i) == VwapAt(candles, i) {
      assert Source(candles[..n], FVolume)[..i + 1] == Source(candles, FVolume)[..i + 1];
      assert TypicalVolume(candles[..n])[..i + 1] == TypicalVolume(candles)[..i + 1];
    }
  }

  /**
    No indicator looks ahead: over the first n candles alone every series has the
    values it has, there, over all of them.
   */
  lemma IndicatorsNeverLookAhead(sqrt: real -> real, candles: seq<Candle>, n: nat, kind: Kind, output: Output,
                                 params: Params)
    requires n <= |candles|
    ensures Values(sqrt, candles[..n], kind, output, params) == Values(sqrt, candles, kind, output, params)[..n]
  {
    var field := Or(params.source, FClose);
    var values := Source(candles, field);
    SourcePrefix(candles, n, field);
    match kind
    case KSma => SmaPrefix(values, n, Or(params.period, 20));
    case KEma => EmaPrefix(values, n, Or(params.period, 20));
    case KRsi => RsiPrefix(values, n, Or(params.period, 14));
    case KMacd => MacdValuesPrefix(values, n, output, params);
    case KBollinger => BollingerPrefix(sqrt, values, n, output, params);
    case KAtr => AtrPrefix(candles, n, Or(params.period, 14));
    case KRoc =>
    case KStoch => StochPrefix(candles, n, output, params);
    case KVwap => VwapPrefix(candles, n);
    case KRollingHigh =>
      SourcePrefix(candles, n, FHigh);
      RollingPrefix(Source(candles, FHigh), n, Or(params.lookback, 20));
    case KRollingLow =>
      SourcePrefix(candles, n, FLow);
      RollingPrefix(Source(candles, FLow), n, Or(params.lookback, 20));
    case KCandleBodyPct =>
    case KCandleDirection =>
  }
}
