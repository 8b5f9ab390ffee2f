/**
  The indicator series: each loop of the engine, and what its value at one bar
  is in terms of the bars up to it. Numbers are reals, a missing value is None,
  and the square root is any function.
 */
module Indicators {
  import opened Outcome

  datatype Candle = Candle(ts: int, open: real, high: real, low: real, close: real, volume: real)

  ghost predicate Ascending(candles: seq<Candle>) {
    forall i, j :: 0 <= i < j < |candles| ==> candles[i].ts < candles[j].ts
  }

  datatype PriceField = FOpen | FHigh | FLow | FClose | FVolume | FHl2 | FHlc3 | FOhlc4

  type Series = seq<Option<real>>

  /** Periods and lookbacks are whole numbers from 1 up, as the strategy catalogue allows them. */
  type Period = p: int | p >= 1 witness 1

  function PriceValue(c: Candle, field: PriceField): real {
    match field
    case FOpen => c.open
    case FHigh => c.high
    case FLow => c.low
    case FClose => c.close
    case FVolume => c.volume
    case FHl2 => (c.high + c.low) / 2.0
    case FHlc3 => (c.high + c.low + c.close) / 3.0
    case FOhlc4 => (c.open + c.high + c.low + c.close) / 4.0
  }

  function Source(candles: seq<Candle>, field: PriceField): (values: seq<real>)
    ensures |values| == |candles|
  {
    seq(|candles|, i requires 0 <= i < |candles| => PriceValue(candles[i], field))
  }

  function Total(s: seq<real>): real {
    if |s| == 0 then 0.0 else Total(s[..|s| - 1]) + s[|s| - 1]
  }

  function MaxOf(s: seq<real>): (m: real)
    requires |s| > 0
    ensures m in s && forall x :: x in s ==> x <= m
  {
    var last := s[|s| - 1];
    if |s| == 1 then last
    else
      var front := MaxOf(s[..|s| - 1]);
      assert s == s[..|s| - 1] + [last];
      if front < last then last else front
  }

  function MinOf(s: seq<real>): (m: real)
    requires |s| > 0
    ensures m in s && forall x :: x in s ==> m <= x
  {
    var last := s[|s| - 1];
    if |s| == 1 then last
    else
      var front := MinOf(s[..|s| - 1]);
      assert s == s[..|s| - 1] + [last];
      if last < front then last else front
  }

  function Max(a: real, b: real): real { if a < b then b else a }

  function Abs(a: real): real { if a < 0.0 then 0.0 - a else a }

  /** The `period` values up to bar i. */
  function Window(values: seq<real>, period: Period, i: nat): seq<real>
    requires period - 1 <= i < |values|
  {
    values[i - period + 1..i + 1]
  }

  function Mean(total: real, period: Period): real {
    total / (period as real)
  }

  /** The weighted average that an exponential average steps by. */
  function Blend(value: real, previous: real, period: Period): real {
    var k := 2.0 / ((period + 1) as real);
    value * k + previous * (1.0 - k)
  }

  /** The running average that RSI and ATR step by. */
  function Smooth(previous: real, value: real, period: Period): (r: real)
    ensures previous >= 0.0 && value >= 0.0 ==> r >= 0.0
  {
    Mean(previous * ((period - 1) as real) + value, period)
  }

  // ----- The value of each indicator at one bar -----

  /** The mean of the window. */
  function SmaAt(values: seq<real>, period: Period, i: nat): Option<real>
    requires i < |values|
  {
    if i < period - 1 then None else Some(Mean(Total(Window(values, period, i)), period))
  }

  /** The mean of the first window, then an exponential average of what follows. */
  function EmaAt(values: seq<real>, period: Period, i: nat): (r: Option<real>)
    requires i < |values|
    ensures r.Some? <==> i >= period - 1
  {
    if i < period - 1 then None
    else if i == period - 1 then Some(Mean(Total(values[..period]), period))
    else Some(Blend(values[i], EmaAt(values, period, i - 1).value, period))
  }

  /** The gain (up) or loss (down) from one bar to the next. */
  function Moved(values: seq<real>, up: bool, i: nat): (r: real)
    requires 0 < i < |values|
    ensures r >= 0.0
  {
    var change := values[i] - values[i - 1];
    Max(if up then change else 0.0 - change, 0.0)
  }

  /** The accumulated gains (up) or losses (down) after bar i, exactly as the loop carries them. */
  function MovesAt(values: seq<real>, period: Period, up: bool, i: nat): (r: real)
    requires i < |values|
    ensures r >= 0.0
  {
    if i == 0 then 0.0
    else
      var before := MovesAt(values, period, up, i - 1);
      if i <= period then before + Moved(values, up, i) else Smooth(before, Moved(values, up, i), period)
  }

  function RsiOf(gains: real, losses: real): (r: real)
    requires gains >= 0.0 && losses >= 0.0
    ensures 0.0 <= r <= 100.0
  {
    if losses == 0.0 then 100.0
    else
      RsiRange(gains, losses);
      100.0 - 100.0 / (1.0 + gains / losses)
  }

  lemma RsiRange(gains: real, losses: real)
    requires gains >= 0.0 && losses > 0.0
    ensures gains / losses >= 0.0 && 0.0 < 100.0 / (1.0 + gains / losses) <= 100.0
  {
  }

  /** The seed bar uses averages; later bars carry on from the undivided sums. */
  function RsiAt(values: seq<real>, period: Period, i: nat): (r: Option<real>)
    requires i < |values|
    ensures r.Some? ==> 0.0 <= r.value <= 100.0
  {
    if i < period then None
    else
      var gains, losses := MovesAt(values, period, true, i), MovesAt(values, period, false, i);
      MeanNonNegative(gains, period);
      MeanNonNegative(losses, period);
      Some(if i == period then RsiOf(Mean(gains, period), Mean(losses, period)) else RsiOf(gains, losses))
  }

  lemma MeanNonNegative(total: real, period: Period)
    requires total >= 0.0
    ensures Mean(total, period) >= 0.0
  {
  }

  function TrueRange(candles: seq<Candle>, i: nat): real
    requires i < |candles|
  {
    var c := candles[i];
    if i == 0 then c.high - c.low
    else
      var previousClose := candles[i - 1].close;
      Max(Max(c.high - c.low, Abs(c.high - previousClose)), Abs(c.low - previousClose))
  }

  function TrueRanges(candles: seq<Candle>): (values: seq<real>)
    ensures |values| == |candles|
  {
    seq(|candles|, i requires 0 <= i < |candles| => TrueRange(candles, i))
  }

  function AtrAt(ranges: seq<real>, period: Period, i: nat): (r: Option<real>)
    requires i < |ranges|
    ensures r.Some? <==> i >= period - 1
  {
    if i < period - 1 then None
    else if i == period - 1 then Some(Mean(Total(ranges[..period]), period))
    else Some(Smooth(AtrAt(ranges, period, i - 1).value, ranges[i], period))
  }

  function RocAt(values: seq<real>, period: Period, i: nat): Option<real>
    requires i < |values|
  {
    if i < period || values[i - period] == 0.0 then None
    else Some((values[i] - values[i - period]) / values[i - period] * 100.0)
  }

  function RollingHighAt(values: seq<real>, lookback: Period, i: nat): Option<real>
    requires i < |values|
  {
    if i < lookback - 1 then None else Some(MaxOf(Window(values, lookback, i)))
  }

  function RollingLowAt(values: seq<real>, lookback: Period, i: nat): Option<real>
    requires i < |values|
  {
    if i < lookback - 1 then None else Some(MinOf(Window(values, lookback, i)))
  }

  /** Where a value lies between two others, in percent. */
  function PositionInRange(value: real, lowest: real, highest: real): real {
    if highest == lowest then 0.0 else (value - lowest) / (highest - lowest) * 100.0
  }

  function RawKAt(candles: seq<Candle>, period: Period, i: nat): Option<real>
    requires i < |candles|
  {
    if i < period - 1 then None
    else
      var highest := MaxOf(Window(Source(candles, FHigh), period, i));
      var lowest := MinOf(Window(Source(candles, FLow), period, i));
      Some(PositionInRange(candles[i].close, lowest, highest))
  }

  function VarianceOf(window: seq<real>, mean: real): real {
    if |window| == 0 then 0.0
    else
      var d := window[|window| - 1] - mean;
      VarianceOf(window[..|window| - 1], mean) + d * d
  }

  function BandOf(sqrt: real -> real, mean: real, variance: real, factor: real): real {
    mean + sqrt(variance) * factor
  }

  /** The middle band moved by `factor` standard deviations. */
  function BandAt(sqrt: real -> real, values: seq<real>, period: Period, factor: real, i: nat): Option<real>
    requires i < |values|
  {
    if i < period - 1 then None
    else
      var mean := Mean(Total(Window(values, period, i)), period);
      var variance := Mean(VarianceOf(Window(values, period, i), mean), period);
      Some(BandOf(sqrt, mean, variance, factor))
  }

  function TradedValue(c: Candle): real {
    PriceValue(c, FHlc3) * c.volume
  }

  function TypicalVolume(candles: seq<Candle>): (values: seq<real>)
    ensures |values| == |candles|
  {
    seq(|candles|, i requires 0 <= i < |candles| => TradedValue(candles[i]))
  }

  /** Traded value over traded volume since the first bar. */
  function VwapAt(candles: seq<Candle>, i: nat): Option<real>
    requires i < |candles|
  {
    var volume := Total(Source(candles, FVolume)[..i + 1]);
    if volume == 0.0 then None else Some(Total(TypicalVolume(candles)[..i + 1]) / volume)
  }

  function BodyPct(c: Candle): real {
    if c.open == 0.0 then 0.0 else Abs(c.close - c.open) / c.open * 100.0
  }

  function Direction(c: Candle): real {
    if c.close > c.open then 1.0 else if c.close < c.open then -1.0 else 0.0
  }

  // ----- Whole series -----

  function SmaSeries(values: seq<real>, period: Period): (r: Series)
    ensures |r| == |values|
  {
    seq(|values|, i requires 0 <= i < |values| => SmaAt(values, period, i))
  }

  function EmaSeries(values: seq<real>, period: Period): (r: Series)
    ensures |r| == |values|
  {
    seq(|values|, i requires 0 <= i < |values| => EmaAt(values, period, i))
  }

  /** `value ?? 0` for every entry. */
  function OrZero(s: Series): (r: seq<real>)
    ensures |r| == |s|
  {
    seq(|s|, i requires 0 <= i < |s| => if s[i].Some? then s[i].value else 0.0)
  }

  /** Blanks a series wherever the mask is blank. */
  function Masked(mask: Series, s: Series): (r: Series)
    requires |mask| == |s|
    ensures |r| == |s|
  {
    seq(|s|, i requires 0 <= i < |s| => if mask[i].None? then None else s[i])
  }

  function Minus(a: Series, b: Series): (r: Series)
    requires |a| == |b|
    ensures |r| == |a|
  {
    seq(|a|, i requires 0 <= i < |a| => if a[i].Some? && b[i].Some? then Some(a[i].value - b[i].value) else None)
  }

  function MacdLine(values: seq<real>, fast: Period, slow: Period): (r: Series)
    ensures |r| == |values|
  {
    Minus(EmaSeries(values, fast), EmaSeries(values, slow))
  }

  function MacdSignal(values: seq<real>, fast: Period, slow: Period, signal: Period): (r: Series)
    ensures |r| == |values|
  {
    var line := MacdLine(values, fast, slow);
    Masked(line, EmaSeries(OrZero(line), signal))
  }

  /** A moving average of a series with its blanks read as zero and put back afterwards. */
  function Smoothed(s: Series, period: Period): (r: Series)
    ensures |r| == |s|
  {
    Masked(s, SmaSeries(OrZero(s), period))
  }

  function RawK(candles: seq<Candle>, period: Period): (r: Series)
    ensures |r| == |candles|
  {
    seq(|candles|, i requires 0 <= i < |candles| => RawKAt(candles, period, i))
  }

  // ----- The loops -----

  lemma {:induction false} TotalDropFirst(s: seq<real>)
    requires |s| > 0
    ensures Total(s) == s[0] + Total(s[1..])
  {
    if |s| > 1 {
      var front := s[..|s| - 1];
      TotalDropFirst(front);
      assert s[1..][..|s| - 2] == front[1..];
    }
  }

  lemma TotalExtend(values: seq<real>, from: nat, to: nat)
    requires from <= to < |values|
    ensures Total(values[from..to + 1]) == Total(values[from..to]) + values[to]
  {
    assert values[from..to + 1][..to - from] == values[from..to];
  }

  /** Where the rolling sum starts once bars up to `index`, exclusive, are in. */
  function RollingFrom(index: nat, period: Period): nat {
    if index < period then 0 else index - period
  }

  /** Taking in one bar and dropping the one that leaves moves the rolling sum to the next window. */
  lemma RollingStep(values: seq<real>, period: Period, index: nat)
    requires index < |values|
    ensures Total(values[RollingFrom(index + 1, period)..index + 1]) ==
            Total(values[RollingFrom(index, period)..index]) + values[index]
            - if index >= period then values[index - period] else 0.0
  {
    var from := RollingFrom(index, period);
    TotalExtend(values, from, index);
    if index >= period {
      TotalDropFirst(values[from..index + 1]);
      assert values[from..index + 1][1..] == values[from + 1..index + 1];
    }
  }

  /** A rolling sum that drops the value leaving the window gives every window's mean. */
  method Sma(values: seq<real>, period: Period) returns (result: Series)
    ensures result == SmaSeries(values, period)
  {
    result := [];
    var rolling := 0.0;
    for index := 0 to |values|
      invariant rolling == Total(values[RollingFrom(index, period)..index])
      invariant |result| == index
      invariant forall i :: 0 <= i < index ==> result[i] == SmaAt(values, period, i)
    {
      RollingStep(values, period, index);
      rolling := rolling + values[index];
      if index >= period {
        rolling := rolling - values[index - period];
      }
      var value := if index >= period - 1 then Some(Mean(rolling, period)) else None;
      assert value == SmaAt(values, period, index);
      result := result + [value];
    }
  }

  method SumOf(values: seq<real>) returns (sum: real)
    ensures sum == Total(values)
  {
    sum := 0.0;
    for index := 0 to |values|
      invariant sum == Total(values[..index])
    {
      assert values[..index + 1][..index] == values[..index];
      sum := sum + values[index];
    }
    assert values[..|values|] == values;
  }

  method Ema(values: seq<real>, period: Period) returns (result: Series)
    ensures result == EmaSeries(values, period)
  {
    result := [];
    var previous: Option<real> := None;
    for index := 0 to |values|
      invariant |result| == index
      invariant forall i :: 0 <= i < index ==> result[i] == EmaAt(values, period, i)
      invariant previous == if index == 0 then None else EmaAt(values, period, index - 1)
    {
      if index == period - 1 {
        var sum := SumOf(values[..period]);
        previous := Some(Mean(sum, period));
        result := result + [previous];
      } else if index < period - 1 || previous.None? {
        result := result + [None];
      } else {
        previous := Some(Blend(values[index], previous.value, period));
        result := result + [previous];
      }
    }
  }

  method Rsi(values: seq<real>, period: Period) returns (result: Series)
    ensures |result| == |values|
    ensures forall i :: 0 <= i < |values| ==> result[i] == RsiAt(values, period, i)
  {
    if |values| == 0 { return []; }
    result := [None];
    var gains, losses := 0.0, 0.0;
    for index := 1 to |values|
      invariant |result| == index
      invariant gains == MovesAt(values, period, true, index - 1) && losses == MovesAt(values, period, false, index - 1)
      invariant forall i :: 0 <= i < index ==> result[i] == RsiAt(values, period, i)
    {
      var change := values[index] - values[index - 1];
      var gain, loss := Max(change, 0.0), Max(0.0 - change, 0.0);
      var value: Option<real> := None;
      if index <= period {
        gains, losses := gains + gain, losses + loss;
        if index == period {
          MeanNonNegative(gains, period);
          MeanNonNegative(losses, period);
          value := Some(RsiOf(Mean(gains, period), Mean(losses, period)));
        }
      } else {
        gains, losses := Smooth(gains, gain, period), Smooth(losses, loss, period);
        value := Some(RsiOf(gains, losses));
      }
      result := result + [value];
    }
  }

  method Atr(candles: seq<Candle>, period: Period) returns (result: Series)
    ensures |result| == |candles|
    ensures forall i :: 0 <= i < |candles| ==> result[i] == AtrAt(TrueRanges(candles), period, i)
  {
    hide Total, Smooth, Mean, TrueRanges;
    var trueRanges := TrueRanges(candles);
    result := [];
    var previous: Option<real> := None;
    for index := 0 to |trueRanges|
      invariant |result| == index
      invariant forall i :: 0 <= i < index ==> result[i] == AtrAt(trueRanges, period, i)
      invariant previous == if index == 0 then None else AtrAt(trueRanges, period, index - 1)
    {
      if index == period - 1 {
        var sum := SumOf(trueRanges[..period]);
        previous := Some(Mean(sum, period));
        result := result + [previous];
      } else if index < period - 1 || previous.None? {
        result := result + [None];
      } else {
        previous := Some(Smooth(previous.value, trueRanges[index], period));
        result := result + [previous];
      }
    }
  }

  /** Cumulative sums carried through a callback. */
  method Vwap(candles: seq<Candle>) returns (result: Series)
    ensures |result| == |candles|
    ensures forall i :: 0 <= i < |candles| ==> result[i] == VwapAt(candles, i)
  {
    result := [];
    var cumulativePV, cumulativeVolume := 0.0, 0.0;
    for index := 0 to |candles|
      invariant |result| == index
      invariant cumulativePV == Total(TypicalVolume(candles)[..index])
      invariant cumulativeVolume == Total(Source(candles, FVolume)[..index])
      invariant forall i :: 0 <= i < index ==> result[i] == VwapAt(candles, i)
    {
      TotalExtend(TypicalVolume(candles), 0, index);
      TotalExtend(Source(candles, FVolume), 0, index);
      cumulativePV := cumulativePV + TradedValue(candles[index]);
      cumulativeVolume := cumulativeVolume + candles[index].volume;
      result := result + [if cumulativeVolume == 0.0 then None else Some(cumulativePV / cumulativeVolume)];
    }
  }

  /** The upper (or, with a negated factor, lower) band. */
  method Band(sqrt: real -> real, values: seq<real>, period: Period, factor: real) returns (result: Series)
    ensures |result| == |values|
    ensures forall i :: 0 <= i < |values| ==> result[i] == BandAt(sqrt, values, period, factor, i)
  {
    var middle := Sma(values, period);
    result := seq(|values|, _ => None);
    for index := if period - 1 <= |values| then period - 1 else |values| to |values|
      invariant |result| == |values|
      invariant forall i :: 0 <= i < index ==> result[i] == BandAt(sqrt, values, period, factor, i)
      invariant forall i :: index <= i < |values| ==> result[i] == None
    {
      var window := Window(values, period, index);
      var mean := middle[index].value;
      var sum := 0.0;
      for j := 0 to |window|
        invariant sum == VarianceOf(window[..j], mean)
      {
        assert window[..j + 1][..j] == window[..j];
        sum := sum + (window[j] - mean) * (window[j] - mean);
      }
      assert window[..|window|] == window;
      result := result[index := Some(BandOf(sqrt, mean, Mean(sum, period), factor))];
    }
  }
}
