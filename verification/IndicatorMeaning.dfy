/** What the series served for each indicator, output and parameters say about the candles. */
module IndicatorMeaning {
  import opened Averages
  import opened IndicatorCatalog
  import opened Indicators
  import opened Outcome

  /** The values an indicator is computed from. */
  function Read(candles: seq<Candle>, params: Params): (values: seq<real>)
    ensures |values| == |candles|
  {
    Source(candles, Or(params.source, FClose))
  }

  // ----- Defaults -----

  function WithDefaults(kind: Kind, params: Params): Params {
    var source := Some(Or(params.source, FClose));
    var period := Some(Or(params.period, if kind == KRsi || kind == KAtr || kind == KStoch then 14
                                         else if kind == KRoc then 9 else 20));
    Params(Some(Or(params.fastPeriod, 12)), Some(Or(params.lookback, 20)), period, Some(Or(params.signalPeriod, 9)),
           Some(Or(params.slowPeriod, 26)), Some(Or(params.smoothD, 3)), Some(Or(params.smoothK, 3)), source,
           Some(Or(params.stdDev, 2.0)))
  }

  /** A parameter that is not given counts as its default. */
  lemma DefaultsAreServed(sqrt: real -> real, candles: seq<Candle>, kind: Kind, output: Output, params: Params)
    ensures Values(sqrt, candles, kind, output, params) ==
            Values(sqrt, candles, kind, output, WithDefaults(kind, params))
  {
  }

  // ----- Averages -----

  /** The moving average is blank until the window is full, then the window's mean. */
  ghost predicate IsMean(r: Option<real>, values: seq<real>, period: Period, i: nat)
    requires i < |values|
  {
    if i < period - 1 then r.None?
    else r.Some? && r.value * (period as real) == Total(values[i - period + 1..i + 1])
  }

  /** The exponential average weighs a value less by the same factor for every bar of its age. */
  ghost predicate IsExponential(r: Option<real>, values: seq<real>, period: Period, i: nat)
    requires i < |values|
  {
    if i < period - 1 then r.None? else r == Some(Average(values, 2.0 / ((period + 1) as real), period, i))
  }

  lemma SmaIsMean(values: seq<real>, period: Period, i: nat)
    requires i < |values|
    ensures IsMean(SmaAt(values, period, i), values, period, i)
  {
    hide Total;
  }

  lemma {:induction false} EmaIsExponential(values: seq<real>, period: Period, i: nat)
    requires i < |values|
    ensures IsExponential(EmaAt(values, period, i), values, period, i)
  {
    hide Average;
    if i >= period - 1 { EmaIsAverage(values, period, i); }
  }

  lemma MovingAverageServed(sqrt: real -> real, candles: seq<Candle>, output: Output, params: Params, i: nat)
    requires i < |candles| && params.period.Some?
    ensures IsMean(Values(sqrt, candles, KSma, output, params)[i], Read(candles, params), params.period.value, i)
  {
    hide IsMean;
    SmaIsMean(Read(candles, params), params.period.value, i);
  }

  lemma ExponentialAverageServed(sqrt: real -> real, candles: seq<Candle>, output: Output, params: Params, i: nat)
    requires i < |candles| && params.period.Some?
    ensures IsExponential(Values(sqrt, candles, KEma, output, params)[i], Read(candles, params), params.period.value, i)
  {
    hide IsExponential, EmaAt;
    EmaIsExponential(Read(candles, params), params.period.value, i);
  }

  // ----- MACD -----

  /** A series with its blanks read as 0. */
  ghost predicate IsFilled(values: seq<real>, s: Series) {
    |values| == |s| && forall k :: 0 <= k < |s| ==> values[k] == if s[k].Some? then s[k].value else 0.0
  }

  /**
    The line is the fast average less the slow one; the signal, where there is a
    line, is the line's own exponential average, blanks counting as 0; histogram and
    signal add up to the line.
   */
  lemma MacdServed(sqrt: real -> real, candles: seq<Candle>, params: Params, i: nat, filled: seq<real>)
    requires i < |candles| && params.fastPeriod.Some? && params.slowPeriod.Some? && params.signalPeriod.Some?
    requires IsFilled(filled, Values(sqrt, candles, KMacd, OLine, params))
    ensures var values, fast, slow := Read(candles, params), params.fastPeriod.value, params.slowPeriod.value;
            var line := Values(sqrt, candles, KMacd, OLine, params)[i];
            var signal := Values(sqrt, candles, KMacd, OSignal, params)[i];
            var histogram := Values(sqrt, candles, KMacd, OHistogram, params)[i];
            && (line.Some? <==> i >= fast - 1 && i >= slow - 1)
            && (line.Some? ==>
                  line.value == Average(values, 2.0 / ((fast + 1) as real), fast, i)
                                - Average(values, 2.0 / ((slow + 1) as real), slow, i))
            && (line.None? ==> signal.None?)
            && (line.Some? ==> IsExponential(signal, filled, params.signalPeriod.value, i))
            && (histogram.Some? <==> signal.Some?)
            && (histogram.Some? ==> histogram.value + signal.value == line.value)
  {
    hide Average, EmaAt;
    var values, fast, slow := Read(candles, params), params.fastPeriod.value, params.slowPeriod.value;
    assert filled == OrZero(MacdLine(values, fast, slow));
    if fast <= i + 1 { EmaIsAverage(values, fast, i); }
    if slow <= i + 1 { EmaIsAverage(values, slow, i); }
    EmaIsExponential(filled, params.signalPeriod.value, i);
  }

  // ----- Bollinger bands -----

  /** The squared distances of a window's values from a middle. */
  function SquaredDistances(window: seq<real>, middle: real): (squares: seq<real>)
    ensures |squares| == |window|
  {
    seq(|window|, k requires 0 <= k < |window| => Square(window[k] - middle))
  }

  function Square(x: real): real { x * x }

  lemma {:induction false} VarianceIsSum(window: seq<real>, middle: real)
    ensures VarianceOf(window, middle) == Total(SquaredDistances(window, middle))
  {
    if |window| > 0 {
      var n := |window| - 1;
      VarianceIsSum(window[..n], middle);
      assert VarianceOf(window, middle) == VarianceOf(window[..n], middle) + Square(window[n] - middle);
      hide Square;
      assert SquaredDistances(window, middle)[..n] == SquaredDistances(window[..n], middle);
    }
  }

  /**
    The middle band is the window's mean; the upper and the lower one lie factor
    times the square root of the window's variance above and below it.
   */
  lemma BollingerServed(sqrt: real -> real, candles: seq<Candle>, params: Params, i: nat)
    requires i < |candles| && params.period.Some? && params.stdDev.Some?
    ensures var values, period, factor := Read(candles, params), params.period.value, params.stdDev.value;
            var upper := Values(sqrt, candles, KBollinger, OUpper, params)[i];
            var middle := Values(sqrt, candles, KBollinger, OMiddle, params)[i];
            var lower := Values(sqrt, candles, KBollinger, OLower, params)[i];
            && IsMean(middle, values, period, i)
            && (upper.Some? <==> middle.Some?) && (lower.Some? <==> middle.Some?)
            && (middle.Some? ==>
                  var variance := Total(SquaredDistances(values[i - period + 1..i + 1], middle.value))
                                  / (period as real);
                  && upper.value - middle.value == middle.value - lower.value == factor * sqrt(variance)
                  && (factor >= 0.0 && sqrt(variance) >= 0.0 ==> lower.value <= middle.value <= upper.value)
                  && (sqrt(variance) * sqrt(variance) == variance ==>
                        (upper.value - middle.value) * (upper.value - middle.value) == factor * factor * variance))
  {
    hide Total, SquaredDistances, VarianceOf;
    var values, period, factor := Read(candles, params), params.period.value, params.stdDev.value;
    SmaIsMean(values, period, i);
    if period <= i + 1 {
      var window := values[i - period + 1..i + 1];
      var mean := Mean(Total(window), period);
      VarianceIsSum(window, mean);
      var variance := Mean(VarianceOf(window, mean), period);
      BandsAround(mean, sqrt(variance), factor, variance);
      assert Window(values, period, i) == window;
      assert SmaAt(values, period, i) == Some(mean);
      assert BandAt(sqrt, values, period, factor, i) == Some(BandOf(sqrt, mean, variance, factor));
      assert BandAt(sqrt, values, period, 0.0 - factor, i) == Some(BandOf(sqrt, mean, variance, 0.0 - factor));
    }
  }

  lemma BandsAround(mean: real, root: real, factor: real, variance: real)
    ensures mean + root * factor - mean == mean - (mean + root * (0.0 - factor)) == factor * root
    ensures factor >= 0.0 && root >= 0.0 ==> mean + root * (0.0 - factor) <= mean <= mean + root * factor
    ensures root * root == variance ==>
              (mean + root * factor - mean) * (mean + root * factor - mean) == factor * factor * variance
  {
    Signs(root, factor);
    SquareOfProduct(factor, root);
  }

  lemma Signs(root: real, factor: real)
    ensures root * (0.0 - factor) == 0.0 - root * factor
    ensures factor >= 0.0 && root >= 0.0 ==> root * factor >= 0.0
  {
  }

  lemma SquareOfProduct(a: real, b: real)
    ensures (a * b) * (a * b) == a * a * (b * b)
  {
  }

  // ----- Extremes of a window -----

  /** No value of the window is above it, and one reaches it. */
  ghost predicate IsHighest(m: real, values: seq<real>, from: int, last: nat)
    requires 0 <= from <= last < |values|
  {
    && (forall k :: from <= k <= last ==> values[k] <= m)
    && (exists k :: from <= k <= last && values[k] == m)
  }

  ghost predicate IsLowest(m: real, values: seq<real>, from: int, last: nat)
    requires 0 <= from <= last < |values|
  {
    && (forall k :: from <= k <= last ==> m <= values[k])
    && (exists k :: from <= k <= last && values[k] == m)
  }

  lemma WindowExtremes(values: seq<real>, period: Period, i: nat)
    requires period - 1 <= i < |values|
    ensures IsHighest(MaxOf(Window(values, period, i)), values, i - period + 1, i)
    ensures IsLowest(MinOf(Window(values, period, i)), values, i - period + 1, i)
  {
    hide MaxOf, MinOf;
    var window, from := Window(values, period, i), i - period + 1;
    forall k | from <= k <= i ensures values[k] <= MaxOf(window) && MinOf(window) <= values[k] {
      assert window[k - from] in window;
    }
    var h :| 0 <= h < |window| && window[h] == MaxOf(window);
    var l :| 0 <= l < |window| && window[l] == MinOf(window);
    assert values[from + h] == MaxOf(window) && values[from + l] == MinOf(window);
  }

  lemma ExtremesAreUnique(a: real, b: real, values: seq<real>, from: int, last: nat)
    requires 0 <= from <= last < |values|
    ensures IsHighest(a, values, from, last) && IsHighest(b, values, from, last) ==> a == b
    ensures IsLowest(a, values, from, last) && IsLowest(b, values, from, last) ==> a == b
  {
  }

  /** The rolling high and low are the highest high and the lowest low of the last `lookback` candles. */
  lemma RollingExtremesServed(sqrt: real -> real, candles: seq<Candle>, output: Output, params: Params, i: nat)
    requires i < |candles| && params.lookback.Some?
    ensures var lookback := params.lookback.value;
            var high := Values(sqrt, candles, KRollingHigh, output, params)[i];
            var low := Values(sqrt, candles, KRollingLow, output, params)[i];
            && (high.Some? <==> i >= lookback - 1) && (low.Some? <==> i >= lookback - 1)
            && (i >= lookback - 1 ==>
                  && IsHighest(high.value, Highs(candles), i - lookback + 1, i)
                  && IsLowest(low.value, Lows(candles), i - lookback + 1, i))
  {
    hide IsHighest, IsLowest, MaxOf, MinOf, Highs, Lows, Window;
    SourcesOfExtremes(candles);
    if i >= params.lookback.value - 1 {
      WindowExtremes(Highs(candles), params.lookback.value, i);
      WindowExtremes(Lows(candles), params.lookback.value, i);
    }
  }

  function Highs(candles: seq<Candle>): (highs: seq<real>)
    ensures |highs| == |candles|
  {
    seq(|candles|, i requires 0 <= i < |candles| => candles[i].high)
  }

  function Lows(candles: seq<Candle>): (lows: seq<real>)
    ensures |lows| == |candles|
  {
    seq(|candles|, i requires 0 <= i < |candles| => candles[i].low)
  }

  lemma SourcesOfExtremes(candles: seq<Candle>)
    ensures Source(candles, FHigh) == Highs(candles) && Source(candles, FLow) == Lows(candles)
  {
  }

  // ----- Stochastic -----

  /** Each candle's close lies between its low and its high. */
  predicate Ordered(candles: seq<Candle>) {
    forall k :: 0 <= k < |candles| ==> candles[k].low <= candles[k].close <= candles[k].high
  }

  /** 0 for a range of nothing, else linear in the close: 0 at the lowest, 100 at the highest. */
  predicate IsLinear(r: real, close: real, lowest: real, highest: real) {
    && (highest == lowest ==> r == 0.0)
    && (highest != lowest ==> r * (highest - lowest) == 100.0 * (close - lowest))
    && (highest != lowest && close == highest ==> r == 100.0)
    && (highest != lowest && close == lowest ==> r == 0.0)
  }

  /** The position of the close between the lowest low and the highest high of the candles from one on. */
  ghost predicate IsPositionSince(r: real, candles: seq<Candle>, from: nat, i: nat)
    requires from <= i < |candles|
  {
    exists highest, lowest ::
      && IsHighest(highest, Highs(candles), from, i) && IsLowest(lowest, Lows(candles), from, i)
      && IsLinear(r, candles[i].close, lowest, highest)
  }

  /** Blank until the window is full. */
  ghost predicate IsPosition(r: Option<real>, candles: seq<Candle>, period: Period, i: nat)
    requires i < |candles|
  {
    if i < period - 1 then r.None? else r.Some? && IsPositionSince(r.value, candles, i - period + 1, i)
  }

  lemma PositionIsLinear(value: real, lowest: real, highest: real)
    ensures var r := PositionInRange(value, lowest, highest);
            IsLinear(r, value, lowest, highest) && (lowest <= value <= highest ==> 0.0 <= r <= 100.0)
  {
    if highest != lowest {
      ShareOfRange(value - lowest, highest - lowest);
    }
  }

  lemma ShareOfRange(part: real, range: real)
    requires range != 0.0
    ensures part / range * 100.0 * range == 100.0 * part
    ensures part == range ==> part / range == 1.0
    ensures 0.0 <= part <= range ==> 0.0 <= part / range <= 1.0
  {
    var share := part / range;
    assert share * range == part;
    assert share * 100.0 * range == 100.0 * (share * range);
  }

  lemma RawIsPosition(candles: seq<Candle>, period: Period, i: nat)
    requires i < |candles|
    ensures IsPosition(RawKAt(candles, period, i), candles, period, i)
    ensures var r := RawKAt(candles, period, i); Ordered(candles) && r.Some? ==> 0.0 <= r.value <= 100.0
  {
    hide IsHighest, IsLowest, PositionInRange, Window, MaxOf, MinOf, Highs, Lows, IsLinear;
    SourcesOfExtremes(candles);
    if i >= period - 1 {
      WindowExtremes(Highs(candles), period, i);
      WindowExtremes(Lows(candles), period, i);
      var highest, lowest := MaxOf(Window(Highs(candles), period, i)), MinOf(Window(Lows(candles), period, i));
      PositionIsLinear(candles[i].close, lowest, highest);
      CloseIsInside(candles, i - period + 1, i, lowest, highest);
    }
  }

  lemma CloseIsInside(candles: seq<Candle>, from: nat, i: nat, lowest: real, highest: real)
    requires from <= i < |candles|
    requires IsHighest(highest, Highs(candles), from, i) && IsLowest(lowest, Lows(candles), from, i)
    ensures Ordered(candles) ==> lowest <= candles[i].close <= highest
  {
    assert Highs(candles)[i] == candles[i].high && Lows(candles)[i] == candles[i].low;
  }

  predicate Percentages(values: seq<real>) {
    forall k :: 0 <= k < |values| ==> 0.0 <= values[k] <= 100.0
  }

  lemma {:induction false} TotalOfPercentages(values: seq<real>)
    requires Percentages(values)
    ensures 0.0 <= Total(values) <= 100.0 * (|values| as real)
  {
    if |values| > 0 { TotalOfPercentages(values[..|values| - 1]); }
  }

  lemma MeanOfPercentages(total: real, period: Period)
    requires 0.0 <= total <= 100.0 * (period as real)
    ensures 0.0 <= Mean(total, period) <= 100.0
  {
  }

  /** Where there is an entry, its smoothed value is the mean of the last entries, blanks counting as 0. */
  ghost predicate IsSmoothed(r: Option<real>, s: Series, filled: seq<real>, period: Period, i: nat)
    requires IsFilled(filled, s) && i < |s|
  {
    if s[i].None? then r.None? else IsMean(r, filled, period, i)
  }

  lemma SmoothedIsMean(s: Series, filled: seq<real>, period: Period, i: nat)
    requires IsFilled(filled, s) && i < |s|
    ensures IsSmoothed(Smoothed(s, period)[i], s, filled, period, i)
    ensures Percentages(filled) && Smoothed(s, period)[i].Some? ==> 0.0 <= Smoothed(s, period)[i].value <= 100.0
  {
    hide Total, IsMean;
    assert filled == OrZero(s);
    SmaIsMean(filled, period, i);
    if i >= period - 1 && Percentages(filled) {
      TotalOfPercentages(Window(filled, period, i));
      MeanOfPercentages(Total(Window(filled, period, i)), period);
    }
  }

  /**
    K without smoothing is the position of the close in the window's range; K is the
    mean of the last ones of that, and D of the last K, blanks counting as 0. Both
    lie between 0 and 100 for candles that close between their low and their high.
   */
  lemma StochasticServed(sqrt: real -> real, candles: seq<Candle>, params: Params, i: nat, rawFilled: seq<real>,
                         kFilled: seq<real>)
    requires i < |candles| && params.period.Some? && params.smoothK.Some? && params.smoothD.Some?
    requires IsFilled(rawFilled, Values(sqrt, candles, KStoch, OK, params.(smoothK := Some(1))))
    requires IsFilled(kFilled, Values(sqrt, candles, KStoch, OK, params))
    ensures var raw := Values(sqrt, candles, KStoch, OK, params.(smoothK := Some(1)));
            var k, d := Values(sqrt, candles, KStoch, OK, params), Values(sqrt, candles, KStoch, OD, params);
            && IsPosition(raw[i], candles, params.period.value, i)
            && IsSmoothed(k[i], raw, rawFilled, params.smoothK.value, i)
            && IsSmoothed(d[i], k, kFilled, params.smoothD.value, i)
            && (Ordered(candles) && k[i].Some? ==> 0.0 <= k[i].value <= 100.0)
            && (Ordered(candles) && d[i].Some? ==> 0.0 <= d[i].value <= 100.0)
  {
    hide Smoothed, RawKAt, IsPosition, IsSmoothed, Total, Percentages;
    var raw := RawK(candles, params.period.value);
    var k := Smoothed(raw, params.smoothK.value);
    SmoothingByOne(raw);
    RawIsPosition(candles, params.period.value, i);
    SmoothedIsMean(raw, rawFilled, params.smoothK.value, i);
    SmoothedIsMean(k, kFilled, params.smoothD.value, i);
    if Ordered(candles) {
      forall j | 0 <= j < |raw| ensures raw[j].Some? ==> 0.0 <= raw[j].value <= 100.0 {
        RawIsPosition(candles, params.period.value, j);
      }
      FilledPercentages(raw, rawFilled);
      forall j | 0 <= j < |k| ensures k[j].Some? ==> 0.0 <= k[j].value <= 100.0 {
        SmoothedIsMean(raw, rawFilled, params.smoothK.value, j);
      }
      FilledPercentages(k, kFilled);
    }
  }

  lemma FilledPercentages(s: Series, filled: seq<real>)
    requires IsFilled(filled, s) && forall j :: 0 <= j < |s| && s[j].Some? ==> 0.0 <= s[j].value <= 100.0
    ensures Percentages(filled)
  {
  }

  lemma SmoothingByOne(s: Series)
    ensures Smoothed(s, 1) == s
  {
    forall i | 0 <= i < |s| ensures Smoothed(s, 1)[i] == s[i] {
      var value := OrZero(s)[i];
      assert Window(OrZero(s), 1, i) == [value];
      assert [value][..0] == [];
      assert Total([value]) == value;
    }
  }

  // ----- Volume-weighted price -----

  /** Three times the mean of high, low and close, times the volume. */
  function TripleTraded(candles: seq<Candle>): (values: seq<real>)
    ensures |values| == |candles|
  {
    seq(|candles|, i requires 0 <= i < |candles| =>
      (candles[i].high + candles[i].low + candles[i].close) * candles[i].volume)
  }

  function VolumesOf(candles: seq<Candle>): (values: seq<real>)
    ensures |values| == |candles|
  {
    seq(|candles|, i requires 0 <= i < |candles| => candles[i].volume)
  }

  lemma {:induction false} TradedAddsUp(candles: seq<Candle>, n: nat)
    requires n <= |candles|
    ensures 3.0 * Total(TypicalVolume(candles)[..n]) == Total(TripleTraded(candles)[..n])
    ensures Source(candles, FVolume) == VolumesOf(candles)
  {
    if n > 0 {
      TradedAddsUp(candles, n - 1);
      assert TypicalVolume(candles)[..n][..n - 1] == TypicalVolume(candles)[..n - 1];
      assert TripleTraded(candles)[..n][..n - 1] == TripleTraded(candles)[..n - 1];
      ThreeThirds(candles[n - 1].high + candles[n - 1].low + candles[n - 1].close, candles[n - 1].volume);
    }
  }

  lemma ThreeThirds(sum: real, volume: real)
    ensures 3.0 * (sum / 3.0 * volume) == sum * volume
  {
    var third := sum / 3.0;
    assert sum == 3.0 * third;
    Regroup(third, volume);
  }

  lemma Regroup(third: real, volume: real)
    ensures 3.0 * (third * volume) == 3.0 * third * volume
  {
  }

  /** Every typical price, times three, up to bar i lies in these bounds, and volumes are positive. */
  predicate TypicalWithin(candles: seq<Candle>, i: nat, least: real, most: real)
    requires i < |candles|
  {
    forall k :: 0 <= k <= i ==>
      candles[k].volume > 0.0 && least <= candles[k].high + candles[k].low + candles[k].close <= most
  }

  lemma ProductWithin(x: real, volume: real, least: real, most: real)
    requires volume > 0.0 && least <= x <= most
    ensures least * volume <= x * volume <= most * volume
  {
  }

  lemma {:induction false} TradedWithin(candles: seq<Candle>, i: nat, least: real, most: real, n: nat)
    requires i < |candles| && n <= i + 1 && TypicalWithin(candles, i, least, most)
    ensures var volume := Total(VolumesOf(candles)[..n]);
            && (n > 0 ==> volume > 0.0) && volume >= 0.0
            && least * volume <= Total(TripleTraded(candles)[..n]) <= most * volume
  {
    hide TripleTraded, VolumesOf;
    if n > 0 {
      TradedWithin(candles, i, least, most, n - 1);
      var c := candles[n - 1];
      OneMoreCandle(candles, n);
      MoreTraded(Total(TripleTraded(candles)[..n - 1]), Total(VolumesOf(candles)[..n - 1]),
                 c.high + c.low + c.close, c.volume, least, most);
    }
  }

  lemma OneMoreCandle(candles: seq<Candle>, n: nat)
    requires 0 < n <= |candles|
    ensures var c := candles[n - 1];
            && Total(TripleTraded(candles)[..n]) ==
               Total(TripleTraded(candles)[..n - 1]) + (c.high + c.low + c.close) * c.volume
            && Total(VolumesOf(candles)[..n]) == Total(VolumesOf(candles)[..n - 1]) + c.volume
  {
    assert VolumesOf(candles)[..n][..n - 1] == VolumesOf(candles)[..n - 1];
    assert TripleTraded(candles)[..n][..n - 1] == TripleTraded(candles)[..n - 1];
  }

  lemma MoreTraded(traded: real, before: real, price: real, volume: real, least: real, most: real)
    requires least * before <= traded <= most * before && volume > 0.0 && least <= price <= most
    ensures least * (before + volume) <= traded + price * volume <= most * (before + volume)
  {
    ProductWithin(price, volume, least, most);
    Spread(least, before, volume);
    Spread(most, before, volume);
  }

  lemma QuotientWithin(traded: real, volume: real, least: real, most: real)
    requires volume > 0.0 && least * volume <= traded <= most * volume
    ensures least <= traded / volume <= most
  {
  }

  /**
    The volume-weighted price is blank while no volume has been traded; times the
    volume it is what has been traded; and for positive volumes it lies between the
    smallest and the largest typical price so far.
   */
  lemma VwapServed(sqrt: real -> real, candles: seq<Candle>, output: Output, params: Params, i: nat, least: real,
                   most: real)
    requires i < |candles|
    ensures var r, volume := Values(sqrt, candles, KVwap, output, params)[i], Total(VolumesOf(candles)[..i + 1]);
            && (r.None? <==> volume == 0.0)
            && (r.Some? ==> 3.0 * (r.value * volume) == Total(TripleTraded(candles)[..i + 1]))
            && (TypicalWithin(candles, i, least, most) ==> r.Some? && least <= 3.0 * r.value <= most)
  {
    hide Total, TripleTraded, VolumesOf, TypicalWithin, TypicalVolume;
    TradedAddsUp(candles, i + 1);
    var traded, volume := Total(TypicalVolume(candles)[..i + 1]), Total(VolumesOf(candles)[..i + 1]);
    assert VwapAt(candles, i) == if volume == 0.0 then None else Some(traded / volume);
    if volume != 0.0 { assert traded / volume * volume == traded; }
    if TypicalWithin(candles, i, least, most) {
      TradedWithin(candles, i, least, most, i + 1);
      QuotientWithin(3.0 * traded, volume, least, most);
      assert 3.0 * traded / volume == 3.0 * (traded / volume);
    }
  }

  // ----- Changes and candles -----

  /** The rate of change is what, in percent, is added to the value of `period` bars before; blank where that is 0. */
  lemma RocServed(sqrt: real -> real, candles: seq<Candle>, output: Output, params: Params, i: nat)
    requires i < |candles| && params.period.Some?
    ensures var values, period := Read(candles, params), params.period.value;
            var r := Values(sqrt, candles, KRoc, output, params)[i];
            && (r.None? <==> i < period || values[i - period] == 0.0)
            && (r.Some? ==> values[i - period] * (1.0 + r.value / 100.0) == values[i])
  {
    var values, period := Read(candles, params), params.period.value;
    if i >= period && values[i - period] != 0.0 {
      ChangeInPercent(values[i], values[i - period]);
    }
  }

  lemma ChangeInPercent(value: real, previous: real)
    requires previous != 0.0
    ensures previous * (1.0 + (value - previous) / previous * 100.0 / 100.0) == value
  {
    var change := (value - previous) / previous;
    assert change * previous == value - previous;
    assert change * 100.0 / 100.0 == change;
    Spread(previous, 1.0, change);
  }

  /** The body is the distance from open to close in percent of the open, the direction its sign. */
  lemma CandleShapesServed(sqrt: real -> real, candles: seq<Candle>, output: Output, params: Params, i: nat)
    requires i < |candles|
    ensures var c := candles[i];
            var body := Values(sqrt, candles, KCandleBodyPct, output, params)[i];
            var direction := Values(sqrt, candles, KCandleDirection, output, params)[i];
            && body.Some? && direction.Some?
            && (c.open == 0.0 ==> body.value == 0.0)
            && (c.open != 0.0 ==> body.value * c.open == 100.0 * (if c.close >= c.open then c.close - c.open
                                                                  else c.open - c.close))
            && (direction.value == 1.0 <==> c.close > c.open)
            && (direction.value == -1.0 <==> c.close < c.open)
            && (direction.value == 0.0 <==> c.close == c.open)
  {
    var c := candles[i];
    if c.open != 0.0 { ShareOfRange(Abs(c.close - c.open), c.open); }
  }

  // ----- True range and strength -----

  function Distance(a: real, b: real): real { if a < b then b - a else a - b }

  /** The largest of three: from low to high, and from either to the close before. */
  predicate IsTrueRange(range: real, candles: seq<Candle>, i: nat)
    requires i < |candles|
  {
    var c := candles[i];
    if i == 0 then range == c.high - c.low
    else
      var before := candles[i - 1].close;
      && c.high - c.low <= range && Distance(c.high, before) <= range && Distance(c.low, before) <= range
      && (range == c.high - c.low || range == Distance(c.high, before) || range == Distance(c.low, before))
  }

  /** Where the low is not above the high, that is the span of both and the close before. */
  lemma TrueRangeIsSpan(range: real, candles: seq<Candle>, i: nat)
    requires 0 < i < |candles| && candles[i].low <= candles[i].high && IsTrueRange(range, candles, i)
    ensures var c, before := candles[i], candles[i - 1].close;
            range == (if before > c.high then before else c.high) - (if before < c.low then before else c.low)
  {
  }

  /** The average true range is blank until the first window is full, then the smoothed average of the ranges. */
  lemma AtrServed(sqrt: real -> real, candles: seq<Candle>, output: Output, params: Params, i: nat, ranges: seq<real>)
    requires i < |candles| && params.period.Some? && |ranges| == |candles|
    requires forall k :: 0 <= k < |candles| ==> IsTrueRange(ranges[k], candles, k)
    ensures var r, period := Values(sqrt, candles, KAtr, output, params)[i], params.period.value;
            if i < period - 1 then r.None? else r == Some(Average(ranges, 1.0 / (period as real), period, i))
  {
    hide Average, AtrAt;
    forall k | 0 <= k < |candles| ensures TrueRanges(candles)[k] == ranges[k] {
    }
    assert TrueRanges(candles) == ranges;
    if i >= params.period.value - 1 { AtrIsAverage(ranges, params.period.value, i); }
  }

  /**
    The relative strength index is the share of gains in all accumulated moves, in
    percent: 100 when there are no losses. What is accumulated are the first moves,
    faded, and every move since, smoothed.
   */
  lemma RsiServed(sqrt: real -> real, candles: seq<Candle>, output: Output, params: Params, i: nat)
    requires i < |candles| && params.period.Some?
    ensures var values, period := Read(candles, params), params.period.value;
            var r := Values(sqrt, candles, KRsi, output, params)[i];
            && (r.Some? <==> i >= period)
            && (r.Some? ==>
                  var gains, losses := Accumulated(values, period, true, i), Accumulated(values, period, false, i);
                  && gains >= 0.0 && losses >= 0.0
                  && (losses == 0.0 ==> r.value == 100.0)
                  && (losses > 0.0 ==> r.value * (gains + losses) == 100.0 * gains))
  {
    hide MovesAt, Accumulated;
    var values, period := Read(candles, params), params.period.value;
    if i >= period {
      MovesAreAccumulated(values, period, true, i);
      MovesAreAccumulated(values, period, false, i);
      var gains, losses := MovesAt(values, period, true, i), MovesAt(values, period, false, i);
      ShareOfGains(gains, losses);
      ShareOfMeans(gains, losses, period);
    }
  }

  lemma ShareOfGains(gains: real, losses: real)
    requires gains >= 0.0 && losses >= 0.0
    ensures losses == 0.0 ==> RsiOf(gains, losses) == 100.0
    ensures losses > 0.0 ==> RsiOf(gains, losses) * (gains + losses) == 100.0 * gains
  {
    if losses > 0.0 {
      RsiRange(gains, losses);
      var ratio := gains / losses;
      assert ratio * losses == gains;
      var rest := 100.0 / (1.0 + ratio);
      assert rest * (1.0 + ratio) == 100.0;
      RestOfLosses(rest, ratio, gains, losses);
    }
  }

  lemma RestOfLosses(rest: real, ratio: real, gains: real, losses: real)
    requires ratio * losses == gains && rest * (1.0 + ratio) == 100.0
    ensures (100.0 - rest) * (gains + losses) == 100.0 * gains
  {
    assert gains + losses == (1.0 + ratio) * losses;
    assert rest * (gains + losses) == rest * (1.0 + ratio) * losses;
  }

  /** Dividing both by the period leaves the share as it is. */
  lemma ShareOfMeans(gains: real, losses: real, period: Period)
    requires gains >= 0.0 && losses >= 0.0
    ensures Mean(gains, period) >= 0.0 && Mean(losses, period) >= 0.0
    ensures RsiOf(Mean(gains, period), Mean(losses, period)) == RsiOf(gains, losses)
  {
    var p := period as real;
    MeanNonNegative(gains, period);
    MeanNonNegative(losses, period);
    if losses > 0.0 {
      assert Mean(losses, period) > 0.0;
      SameQuotient(gains, losses, p);
    }
  }

  lemma SameQuotient(a: real, b: real, p: real)
    requires b > 0.0 && p > 0.0
    ensures b / p > 0.0 && (a / p) / (b / p) == a / b
  {
    var x, y := a / p, b / p;
    assert a == x * p && b == y * p;
    assert x / y * y == x;
    assert x / y * b == a;
  }
}
