/** What the bars of a served page are, in terms of the stored rows, in seconds and prices. */
module PageContents {
  import opened CandlePages
  import opened Candles
  import opened Indicators
  import opened Outcome
  import opened Sums

  /** How long a bar of each interval lasts, in seconds. */
  function Length(interval: Interval): nat {
    match interval
    case M1 => 60
    case M5 => 300
    case M15 => 900
    case H1 => 3_600
    case H4 => 14_400
    case D1 => 86_400
  }

  /** The rows that a page may show: those before the cursor. */
  ghost predicate AreVisible(visible: seq<Candle>, rows: seq<Candle>, beforeTs: Option<int>) {
    && Ascending(visible)
    && forall c :: c in visible <==> c in rows && (beforeTs.Some? ==> c.ts < beforeTs.value)
  }

  /** The bar is made of rows a to b, exclusive. */
  ghost predicate MadeOf(bar: Candle, rows: seq<Candle>, a: nat, b: nat) {
    && a < b <= |rows|
    && bar.open == rows[a].open && bar.close == rows[b - 1].close
    && (forall i :: a <= i < b ==> rows[i].high <= bar.high) && (exists i :: a <= i < b && rows[i].high == bar.high)
    && (forall i :: a <= i < b ==> bar.low <= rows[i].low) && (exists i :: a <= i < b && rows[i].low == bar.low)
    && bar.volume == Total(Volumes(rows[a..b]))
  }

  /** The bar starts on a multiple of its length and is made of all the rows of that time. */
  ghost predicate TakesInAll(bar: Candle, rows: seq<Candle>, length: nat)
    requires length > 0
  {
    && bar.ts % length == 0
    && exists a: nat, b: nat ::
         MadeOf(bar, rows, a, b)
         && forall i :: 0 <= i < |rows| ==> (bar.ts <= rows[i].ts < bar.ts + length <==> a <= i < b)
  }

  // ----- Buckets and groups -----

  lemma BucketMeans(ts: int, length: nat, start: int)
    requires length > 0
    ensures Bucket(ts, length) == start <==> start % length == 0 && start <= ts < start + length
  {
    BucketBounds(ts, length);
    DivUnique(Bucket(ts, length), length, ts / length, 0);
    if start % length == 0 && start <= ts < start + length {
      DivMod(start, length);
      DivUnique(ts, length, start / length, ts - start);
    }
  }

  /** The rows of one bucket lie together. */
  lemma {:induction false} GroupIsSlice(rows: seq<Candle>, length: nat, bucket: int) returns (a: nat, b: nat)
    requires length > 0 && Ascending(rows)
    ensures a <= b <= |rows| && Group(rows, length, bucket) == rows[a..b]
    ensures forall i :: 0 <= i < |rows| ==> (Bucket(rows[i].ts, length) == bucket <==> a <= i < b)
  {
    hide Bucket, Group;
    GroupOfNone(rows, length, bucket);
    if |rows| == 0 {
      a, b := 0, 0;
    } else {
      var front, last := rows[..|rows| - 1], |rows| - 1;
      assert rows == front + [rows[last]];
      a, b := GroupIsSlice(front, length, bucket);
      assert forall i :: 0 <= i < last ==> front[i] == rows[i];
      GroupAppend(front, rows[last], length, bucket);
      if Bucket(rows[last].ts, length) == bucket {
        if a == b {
          a := last;
        } else {
          NothingBetween(rows, length, bucket, b);
        }
        assert rows[a..last + 1] == front[a..last] + [rows[last]];
        b := last + 1;
      } else {
        assert rows[a..b] == front[a..b] + [];
      }
    }
  }

  lemma {:induction false} GroupOfNone(rows: seq<Candle>, length: nat, bucket: int)
    requires length > 0
    ensures |rows| == 0 ==> Group(rows, length, bucket) == []
  {
  }

  /** If the last row and the one before position b are of one bucket, so is the row at b. */
  lemma NothingBetween(rows: seq<Candle>, length: nat, bucket: int, b: nat)
    requires length > 0 && Ascending(rows) && 0 < b < |rows|
    requires Bucket(rows[b - 1].ts, length) == bucket == Bucket(rows[|rows| - 1].ts, length)
    requires b < |rows| - 1 ==> Bucket(rows[b].ts, length) != bucket
    ensures b == |rows| - 1
  {
    hide Bucket;
    BucketMonotone(rows[b - 1].ts, rows[b].ts, length);
    BucketMonotone(rows[b].ts, rows[|rows| - 1].ts, length);
  }

  lemma SliceMakesBar(bar: Candle, rows: seq<Candle>, a: nat, b: nat)
    requires a < b <= |rows| && bar == BarOf(rows[a..b], bar.ts)
    ensures MadeOf(bar, rows, a, b)
  {
    hide Total, Volumes, Highs, Lows, MaxOf, MinOf;
    var group := rows[a..b];
    PricesOfSlice(rows, a, b);
    forall i | a <= i < b ensures rows[i].high <= bar.high && bar.low <= rows[i].low {
      assert Highs(group)[i - a] in Highs(group) && Lows(group)[i - a] in Lows(group);
    }
    var h :| 0 <= h < |group| && Highs(group)[h] == bar.high;
    var l :| 0 <= l < |group| && Lows(group)[l] == bar.low;
    assert rows[a + h].high == bar.high && rows[a + l].low == bar.low;
  }

  lemma BarMakesSlice(bar: Candle, rows: seq<Candle>, a: nat, b: nat)
    requires MadeOf(bar, rows, a, b)
    ensures bar == BarOf(rows[a..b], bar.ts)
  {
    hide Total, Volumes, Highs, Lows, MaxOf, MinOf;
    var group := rows[a..b];
    PricesOfSlice(rows, a, b);
    var h :| a <= h < b && rows[h].high == bar.high;
    var l :| a <= l < b && rows[l].low == bar.low;
    assert Highs(group)[h - a] in Highs(group) && Lows(group)[l - a] in Lows(group);
    assert MaxOf(Highs(group)) == bar.high && MinOf(Lows(group)) == bar.low;
  }

  lemma PricesOfSlice(rows: seq<Candle>, a: nat, b: nat)
    requires a <= b <= |rows|
    ensures |Highs(rows[a..b])| == |Lows(rows[a..b])| == b - a
    ensures forall k :: 0 <= k < b - a ==>
              Highs(rows[a..b])[k] == rows[a + k].high && Lows(rows[a..b])[k] == rows[a + k].low
  {
  }

  /** Being built from all the rows of a bucket is taking in all the rows of that time. */
  lemma BuiltMeansTakesInAll(bar: Candle, rows: seq<Candle>, length: nat)
    requires length > 0 && Ascending(rows)
    ensures BuiltFrom(bar, rows, length) <==> TakesInAll(bar, rows, length)
  {
    hide BarOf, Group, Bucket, MadeOf;
    var a, b := GroupIsSlice(rows, length, bar.ts);
    forall i | 0 <= i < |rows|
      ensures a <= i < b <==> bar.ts % length == 0 && bar.ts <= rows[i].ts < bar.ts + length
    {
      BucketMeans(rows[i].ts, length, bar.ts);
    }
    if BuiltFrom(bar, rows, length) {
      assert bar.ts <= rows[a].ts;
      SliceMakesBar(bar, rows, a, b);
    }
    if TakesInAll(bar, rows, length) {
      var c: nat, d: nat :|
                  MadeOf(bar, rows, c, d)
                  && forall i :: 0 <= i < |rows| ==> (bar.ts <= rows[i].ts < bar.ts + length <==> c <= i < d);
      SomeRows(bar, rows, c, d);
      forall i | 0 <= i < |rows| ensures Within(i, a, b) <==> Within(i, c, d) {
        assert a <= i < b <==> bar.ts <= rows[i].ts < bar.ts + length;
      }
      SameSlice(|rows|, a, b, c, d);
      BarMakesSlice(bar, rows, a, b);
    }
  }

  predicate Within(i: int, a: nat, b: nat) { a <= i < b }

  lemma SameSlice(n: nat, a: nat, b: nat, c: nat, d: nat)
    requires a <= b <= n && c < d <= n
    requires forall i :: 0 <= i < n ==> (Within(i, a, b) <==> Within(i, c, d))
    ensures a == c && b == d
  {
    assert Within(c, a, b) && Within(d - 1, a, b);
    assert Within(a, c, d) && Within(b - 1, c, d);
  }

  lemma SomeRows(bar: Candle, rows: seq<Candle>, a: nat, b: nat)
    requires MadeOf(bar, rows, a, b)
    ensures a < b <= |rows|
  {
  }

  // ----- Pages of longer bars -----

  lemma LengthsAreMinutes(interval: Interval)
    ensures Length(interval) == Seconds(interval) > 0 && MaxGap(interval) == 3 * Length(interval)
  {
  }

  lemma VisibleAreBefore(visible: seq<Candle>, rows: seq<Candle>, beforeTs: Option<int>)
    requires Ascending(rows) && AreVisible(visible, rows, beforeTs)
    ensures Before(rows, beforeTs) == visible
  {
    if beforeTs.Some? {
      SelectKeepsOrder(rows, (row: Candle) => row.ts < beforeTs.value);
    }
    SameCandlesSameList(Before(rows, beforeTs), visible);
  }

  /** The page holds the newest bars, at most `limit` of them and none further than three lengths from the next. */
  ghost predicate IsNewest(page: Page, bars: seq<Candle>, length: nat, limit: int, start: nat) {
    && start < |bars| && page.candles == bars[start..]
    && |bars| - start <= limit
    && (forall i :: start < i < |bars| ==> bars[i].ts - bars[i - 1].ts <= 3 * length)
    && (start == 0 || |bars| - start == limit || bars[start].ts - bars[start - 1].ts > 3 * length)
    && (page.hasMore <==> start > 0)
  }

  lemma PageIsNewest(rows: seq<Candle>, interval: Interval, limit: nat, beforeTs: Option<int>, fallback: Candle,
                     visible: seq<Candle>)
    returns (start: nat)
    requires limit >= 1 && Ascending(rows) && AreVisible(visible, rows, beforeTs)
    requires |visible| > 0 && forall c :: c in visible ==> c.ts % 60 == 0
    ensures |BarsFrom(visible, interval)| > 0
    ensures IsNewest(CandlesPage(rows, interval, limit, beforeTs, fallback), BarsFrom(visible, interval),
                     Length(interval), limit, start)
  {
    hide CandlesPage, Trim, Before, Aggregate, OpenedAll;
    VisibleAreBefore(visible, rows, beforeTs);
    forall i | 0 <= i < |visible| ensures visible[i].ts % 60 == 0 {
      assert visible[i] in visible;
    }
    PageNeedsNoOlderRows(rows, interval, limit, beforeTs, fallback);
    LengthsAreMinutes(interval);
    var bars := BarsFrom(visible, interval);
    LastBar(visible, Length(interval));
    TrimReturnsLongestTail(bars, MaxGap(interval), limit);
    start := PageStart(bars, MaxGap(interval), limit);
    LongestIsNewest(Trim(bars, MaxGap(interval), limit), bars, Length(interval), limit, start);
  }

  lemma LongestIsNewest(page: Page, bars: seq<Candle>, length: nat, limit: int, start: nat)
    requires start < |bars| && page == Page(bars[start..], start > 0)
    requires IsLongestTail(bars, 3 * length, limit, start)
    ensures IsNewest(page, bars, length, limit, start)
  {
    forall i | start < i < |bars| ensures bars[i].ts - bars[i - 1].ts <= 3 * length {
      assert Contiguous(bars, 3 * length, i);
    }
  }

  /**
    The bars of a page of five minutes or more start on multiples of 300, 900,
    3,600, 14,400 or 86,400 seconds, each takes in all the visible rows of that
    time, and they are the newest such bars, in order: each bar there is, from the
    page's first on, is in the page.
   */
  lemma {:induction false} PageBarsAreWhole(rows: seq<Candle>, interval: Interval, limit: nat, beforeTs: Option<int>,
                                            fallback: Candle, visible: seq<Candle>)
    requires interval != M1 && limit >= 1 && Ascending(rows) && AreVisible(visible, rows, beforeTs)
    requires |visible| > 0 && forall c :: c in visible ==> c.ts % 60 == 0
    ensures var page := CandlesPage(rows, interval, limit, beforeTs, fallback);
            var length := Length(interval);
            && 0 < |page.candles| <= limit && Ascending(page.candles)
            && (forall c :: c in page.candles <==>
                              page.candles[0].ts <= c.ts && TakesInAll(c, visible, length))
            && (forall i :: 0 < i < |page.candles| ==> page.candles[i].ts - page.candles[i - 1].ts <= 3 * length)
            && (page.hasMore <==> exists c :: TakesInAll(c, visible, length) && c.ts < page.candles[0].ts)
            && (|page.candles| < limit ==>
                  forall c :: TakesInAll(c, visible, length) && c.ts < page.candles[0].ts ==>
                                page.candles[0].ts - c.ts > 3 * length)
  {
    hide CandlesPage, Aggregate, TakesInAll, BuiltFrom, AreVisible;
    LengthsAreMinutes(interval);
    var length := Length(interval);
    var page, bars := CandlesPage(rows, interval, limit, beforeTs, fallback), Aggregate(visible, length);
    var start := PageIsNewest(rows, interval, limit, beforeTs, fallback, visible);
    assert bars == BarsFrom(visible, interval);
    VisibleAscend(visible, rows, beforeTs);
    BarsAscend(visible, length);
    forall c ensures c in bars <==> TakesInAll(c, visible, length) {
      BarsAreTheBuilt(visible, length, c);
      BuiltMeansTakesInAll(c, visible, length);
    }
    TailOfBars(page, bars, length, limit, start);
  }

  lemma VisibleAscend(visible: seq<Candle>, rows: seq<Candle>, beforeTs: Option<int>)
    requires AreVisible(visible, rows, beforeTs)
    ensures Ascending(visible)
  {
  }

  lemma {:induction false} BarsAscend(rows: seq<Candle>, length: nat)
    requires length > 0 && Ascending(rows)
    ensures Ascending(Aggregate(rows, length))
  {
    AggregationGroups(rows, length);
  }

  lemma TailOfBars(page: Page, bars: seq<Candle>, length: nat, limit: int, start: nat)
    requires Ascending(bars) && IsNewest(page, bars, length, limit, start)
    ensures 0 < |page.candles| <= limit && Ascending(page.candles)
    ensures forall c :: c in page.candles <==> page.candles[0].ts <= c.ts && c in bars
    ensures forall i :: 0 < i < |page.candles| ==> page.candles[i].ts - page.candles[i - 1].ts <= 3 * length
    ensures page.hasMore <==> exists c :: c in bars && c.ts < page.candles[0].ts
    ensures |page.candles| < limit ==>
              forall c :: c in bars && c.ts < page.candles[0].ts ==> page.candles[0].ts - c.ts > 3 * length
  {
    TailIsLater(bars, start);
    var tail := bars[start..];
    forall i | 0 < i < |tail| ensures tail[i].ts - tail[i - 1].ts <= 3 * length {
      assert tail[i] == bars[start + i] && tail[i - 1] == bars[start + i - 1];
    }
    if start > 0 {
      assert bars[start - 1] in bars && bars[start - 1].ts < bars[start].ts;
      forall c | c in bars && c.ts < bars[start].ts ensures c.ts <= bars[start - 1].ts {
        var i :| 0 <= i < |bars| && bars[i] == c;
      }
    }
  }

  /** The tail of ascending bars is those not before its first. */
  lemma TailIsLater(bars: seq<Candle>, start: nat)
    requires Ascending(bars) && start < |bars|
    ensures Ascending(bars[start..])
    ensures forall c :: c in bars[start..] <==> bars[start].ts <= c.ts && c in bars
    ensures start == 0 ==> forall c :: c in bars ==> bars[start].ts <= c.ts
  {
    var tail := bars[start..];
    forall c ensures c in tail <==> bars[start].ts <= c.ts && c in bars {
      if c in bars {
        var i :| 0 <= i < |bars| && bars[i] == c;
        if i >= start { assert tail[i - start] == c; }
      }
    }
  }

  // ----- Pages of minute bars -----

  /** All four prices of the row are one. */
  predicate OnePrice(row: Candle) {
    row.open == row.high == row.low == row.close
  }

  /** The minute bar served for row i: a row of one price opens at the close of the row before, unless that is far. */
  ghost predicate ServedFor(bar: Candle, rows: seq<Candle>, i: nat)
    requires i < |rows|
  {
    if i > 0 && rows[i].ts - rows[i - 1].ts <= 180 && OnePrice(rows[i]) then
      && bar.ts == rows[i].ts && bar.close == rows[i].close && bar.volume == rows[i].volume
      && bar.open == rows[i - 1].close
      && (bar.high == bar.open || bar.high == bar.close) && bar.high >= bar.open && bar.high >= bar.close
      && (bar.low == bar.open || bar.low == bar.close) && bar.low <= bar.open && bar.low <= bar.close
    else bar == rows[i]
  }

  /**
    A page of minutes holds the newest visible rows, one bar for each: a row with
    one price opens at the close of the row before it, if that is at most three
    minutes older, and spans from the one close to the other; any other row is
    served as it is.
   */
  lemma {:induction false} MinutePageServesRows(rows: seq<Candle>, limit: nat, beforeTs: Option<int>, fallback: Candle,
                                                visible: seq<Candle>)
    returns (start: nat)
    requires limit >= 1 && Ascending(rows) && AreVisible(visible, rows, beforeTs)
    requires |visible| > 0 && forall c :: c in visible ==> c.ts % 60 == 0
    ensures var page := CandlesPage(rows, M1, limit, beforeTs, fallback);
            && start < |visible| && |page.candles| == |visible| - start <= limit
            && (forall k :: 0 <= k < |page.candles| ==> ServedFor(page.candles[k], visible, start + k))
            && (forall i :: start < i < |visible| ==> visible[i].ts - visible[i - 1].ts <= 180)
            && (start == 0 || |visible| - start == limit || visible[start].ts - visible[start - 1].ts > 180)
            && (page.hasMore <==> start > 0)
  {
    hide CandlesPage, AreVisible, OpenedAll, ServedFor, IsNewest;
    var bars := OpenedAll(visible, MaxGap(M1));
    start := PageIsNewest(rows, M1, limit, beforeTs, fallback, visible);
    assert bars == BarsFrom(visible, M1);
    forall i | 0 <= i < |visible| ensures bars[i].ts == visible[i].ts && ServedFor(bars[i], visible, i) {
      OpenedIsServed(visible, i);
    }
    TailIsServed(CandlesPage(rows, M1, limit, beforeTs, fallback), bars, visible, limit, start);
  }

  lemma OpenedIsServed(rows: seq<Candle>, i: nat)
    requires i < |rows|
    ensures OpenedAll(rows, MaxGap(M1))[i].ts == rows[i].ts && ServedFor(OpenedAll(rows, MaxGap(M1))[i], rows, i)
  {
  }

  lemma TailIsServed(page: Page, bars: seq<Candle>, visible: seq<Candle>, limit: int, start: nat)
    requires IsNewest(page, bars, Length(M1), limit, start) && |bars| == |visible|
    requires forall i :: 0 <= i < |visible| ==> bars[i].ts == visible[i].ts && ServedFor(bars[i], visible, i)
    ensures start < |visible| && |page.candles| == |visible| - start <= limit
    ensures forall k :: 0 <= k < |page.candles| ==> ServedFor(page.candles[k], visible, start + k)
    ensures forall i :: start < i < |visible| ==> visible[i].ts - visible[i - 1].ts <= 180
    ensures start == 0 || |visible| - start == limit || visible[start].ts - visible[start - 1].ts > 180
    ensures page.hasMore <==> start > 0
  {
    hide ServedFor;
    forall i | start < i < |visible| ensures visible[i].ts - visible[i - 1].ts <= 180 {
      assert bars[i].ts - bars[i - 1].ts <= 3 * Length(M1);
    }
  }

  /** With no visible row the page is the fallback candle alone. */
  lemma EmptyPageFallsBack(rows: seq<Candle>, interval: Interval, limit: int, beforeTs: Option<int>, fallback: Candle)
    requires Ascending(rows) && forall c :: c in rows ==> beforeTs.Some? && c.ts >= beforeTs.value
    ensures CandlesPage(rows, interval, limit, beforeTs, fallback) == Page([fallback], false)
  {
    VisibleAreBefore([], rows, beforeTs);
  }

  /** A limit of -1 fetches nothing, and so serves the fallback; a smaller one fetches all rows and serves no bar. */
  lemma {:induction false} PageOfNegativeLimit(rows: seq<Candle>, interval: Interval, limit: int, beforeTs: Option<int>,
                                               fallback: Candle, visible: seq<Candle>)
    requires limit < 0 && Ascending(rows) && AreVisible(visible, rows, beforeTs)
    ensures CandlesPage(rows, interval, limit, beforeTs, fallback) ==
            if limit == -1 || |visible| == 0 then Page([fallback], false) else Page([], true)
  {
    hide Trim, Aggregate, OpenedAll, Before, AreVisible, CandlePages.Window;
    VisibleAreBefore(visible, rows, beforeTs);
    FetchesAllOrNone(interval, limit);
    if limit < -1 && |visible| > 0 {
      var recent := if interval == M1 then CandlePages.Window(visible, limit) else visible;
      WindowIsNonEmpty(visible, limit);
      LengthsAreMinutes(interval);
      LastBar(recent, Length(interval));
      TrimBelowOne(BarsFrom(recent, interval), MaxGap(interval), limit);
    }
  }

  lemma FetchesAllOrNone(interval: Interval, limit: int)
    requires limit < 0
    ensures if limit == -1 then FetchLimit(interval, limit) == 0 else FetchLimit(interval, limit) < 0
  {
  }

  // ----- Ranges -----

  /** A range returns exactly the bars that start in it and take in all the stored rows of their time. */
  lemma {:induction false} RangeBarsAreWhole(rows: seq<Candle>, size: nat, fromTs: int, toTs: int, c: Candle)
    requires size > 0 && Ascending(rows)
    ensures c in Select(Aggregate(RangeRows(rows, size, fromTs, toTs), size), InRange(fromTs, toTs)) <==>
            fromTs <= c.ts <= toTs && TakesInAll(c, rows, size)
  {
    hide TakesInAll, BuiltFrom, Aggregate;
    RangeBarsAreComplete(rows, size, fromTs, toTs);
    BarsAscend(rows, size);
    SelectKeepsOrder(Aggregate(rows, size), InRange(fromTs, toTs));
    BarsAreTheBuilt(rows, size, c);
    BuiltMeansTakesInAll(c, rows, size);
  }
}
