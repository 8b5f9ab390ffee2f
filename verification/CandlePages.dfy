/** Pages and ranges of candles, and what a caller who sees only a page can rely on. */
module CandlePages {
  import opened Candles
  import opened Indicators
  import opened Outcome
  import opened Sums

  datatype Page = Page(candles: seq<Candle>, hasMore: bool)

  /** Where JavaScript's `slice(start)` starts: a negative start counts from the end. */
  function SliceStart(length: nat, start: int): (from: nat)
    ensures from <= length
  {
    if start < 0 then (if length + start < 0 then 0 else length + start)
    else if start <= length then start
    else length
  }

  function SliceFrom<T>(s: seq<T>, start: int): seq<T> {
    s[SliceStart(|s|, start)..]
  }

  function MaxInt(a: int, b: int): int { if a < b then b else a }

  /** The newest candles the trimming looks at: one more than asked for, and at least two. */
  function Window(candles: seq<Candle>, limit: int): seq<Candle> {
    SliceFrom(candles, 0 - MaxInt(limit + 1, 2))
  }

  /** The backward scan: the first position, from `index` down, that follows a gap. */
  function ContiguousStart(window: seq<Candle>, maxGap: int, index: nat): (start: nat)
    requires index < |window|
    ensures start <= index
  {
    if index == 0 then 0
    else if window[index].ts - window[index - 1].ts > maxGap then index
    else ContiguousStart(window, maxGap, index - 1)
  }

  function Trim(candles: seq<Candle>, maxGap: int, limit: int): Page {
    if |candles| == 0 then Page([], false)
    else
      var window := Window(candles, limit);
      PageFrom(candles, window, ContiguousStart(window, maxGap, |window| - 1), limit)
  }

  /** The page cut from the window at the start of its contiguous part. */
  function PageFrom(candles: seq<Candle>, window: seq<Candle>, start: nat, limit: int): Page
    requires start <= |window|
  {
    var contiguous := window[start..];
    if |contiguous| > limit then Page(SliceFrom(contiguous, 0 - limit), true)
    else Page(contiguous, start > 0 || |candles| > |window|)
  }

  /** The backward loop with its early exit computes that page. */
  method TrimToContiguousTail(candles: seq<Candle>, maxGap: int, limit: int) returns (page: Page)
    ensures page == Trim(candles, maxGap, limit)
  {
    hide SliceFrom, Window;
    if |candles| == 0 {
      return Page([], false);
    }
    WindowIsNonEmpty(candles, limit);
    var recentWindow := Window(candles, limit);
    var contiguousStart := 0;
    var index := |recentWindow| - 1;
    while index > 0
      invariant 0 <= index < |recentWindow|
      invariant ContiguousStart(recentWindow, maxGap, |recentWindow| - 1) ==
                ContiguousStart(recentWindow, maxGap, index)
      invariant contiguousStart == 0
    {
      if recentWindow[index].ts - recentWindow[index - 1].ts > maxGap {
        contiguousStart := index;
        break;
      }
      index := index - 1;
    }
    var contiguousWindow := recentWindow[contiguousStart..];
    if |contiguousWindow| > limit {
      return Page(SliceFrom(contiguousWindow, 0 - limit), true);
    }
    page := Page(contiguousWindow, contiguousStart > 0 || |candles| > |recentWindow|);
  }

  // ----- What a page is -----

  /** The candle at i follows the one before it without a gap. */
  predicate Contiguous(candles: seq<Candle>, maxGap: int, i: int)
    requires 0 < i < |candles|
  {
    candles[i].ts - candles[i - 1].ts <= maxGap
  }

  lemma ContiguousInTail(candles: seq<Candle>, maxGap: int, d: nat, i: nat)
    requires d <= |candles| && 0 < i < |candles| - d
    ensures Contiguous(candles[d..], maxGap, i) <==> Contiguous(candles, maxGap, d + i)
  {
  }

  /** From `start` on there are at most `limit` candles and no gap, and one more candle would break that. */
  ghost predicate IsLongestTail(candles: seq<Candle>, maxGap: int, limit: int, start: nat)
    requires start < |candles|
  {
    && |candles| - start <= limit
    && (forall i :: start < i < |candles| ==> Contiguous(candles, maxGap, i))
    && (start == 0 || |candles| - start == limit || !Contiguous(candles, maxGap, start))
  }

  lemma {:induction false} ScanFindsGap(window: seq<Candle>, maxGap: int, index: nat)
    requires index < |window|
    ensures var start := ContiguousStart(window, maxGap, index);
            && (forall i :: start < i <= index ==> Contiguous(window, maxGap, i))
            && (start > 0 ==> !Contiguous(window, maxGap, start))
  {
    if index > 0 && window[index].ts - window[index - 1].ts <= maxGap {
      ScanFindsGap(window, maxGap, index - 1);
    }
  }

  /** A tail with at most `limit` candles and no gap is no longer than the longest one. */
  lemma TailIsUnique(candles: seq<Candle>, maxGap: int, limit: int, a: nat, b: nat)
    requires a < |candles| && b < |candles|
    requires IsLongestTail(candles, maxGap, limit, a) && |candles| - b <= limit
    requires forall i :: b < i < |candles| ==> Contiguous(candles, maxGap, i)
    ensures a <= b
  {
  }

  lemma WindowIsTail(candles: seq<Candle>, limit: int)
    requires limit >= 1
    ensures var window := Window(candles, limit);
            && |window| == (if |candles| < limit + 1 then |candles| else limit + 1)
            && window == candles[|candles| - |window|..]
  {
  }

  /** In terms of all the candles: where the scan of the window stops, and what it has passed. */
  lemma ScanOfWindow(candles: seq<Candle>, maxGap: int, limit: int)
    requires limit >= 1 && |candles| > 0
    ensures var window := Window(candles, limit);
            && |window| > 0
            && var gap := ContiguousStart(window, maxGap, |window| - 1);
               var g := |candles| - |window| + gap;
               && (forall i :: g < i < |candles| ==> Contiguous(candles, maxGap, i))
               && (gap > 0 ==> !Contiguous(candles, maxGap, g))
  {
    hide Window, ContiguousStart, Contiguous;
    var window := Window(candles, limit);
    WindowIsTail(candles, limit);
    var d := |candles| - |window|;
    var gap := ContiguousStart(window, maxGap, |window| - 1);
    ScanFindsGap(window, maxGap, |window| - 1);
    forall i | d + gap < i < |candles| ensures Contiguous(candles, maxGap, i) {
      ContiguousInTail(candles, maxGap, d, i - d);
    }
    if gap > 0 {
      ContiguousInTail(candles, maxGap, d, gap);
    }
  }

  /** Where the page starts in the list it was cut from. */
  function PageStart(candles: seq<Candle>, maxGap: int, limit: int): int {
    |candles| - |Trim(candles, maxGap, limit).candles|
  }

  function StartOf(candles: seq<Candle>, maxGap: int, limit: int): int
    requires |Window(candles, limit)| > 0
  {
    var window := Window(candles, limit);
    var gap := ContiguousStart(window, maxGap, |window| - 1);
    if |window| - gap > limit then |candles| - limit else |candles| - |window| + gap
  }

  lemma TailOfScan(candles: seq<Candle>, maxGap: int, limit: int, width: nat, gap: nat)
    requires limit >= 1 && width == (if |candles| < limit + 1 then |candles| else limit + 1) && gap < width
    requires forall i :: |candles| - width + gap < i < |candles| ==> Contiguous(candles, maxGap, i)
    requires gap > 0 ==> !Contiguous(candles, maxGap, |candles| - width + gap)
    ensures var start := if width - gap > limit then |candles| - limit else |candles| - width + gap;
            0 <= start < |candles| && IsLongestTail(candles, maxGap, limit, start)
  {
    hide Contiguous;
  }

  lemma StartIsLongest(candles: seq<Candle>, maxGap: int, limit: int)
    requires limit >= 1 && |candles| > 0
    ensures |Window(candles, limit)| > 0
    ensures 0 <= StartOf(candles, maxGap, limit) < |candles|
    ensures IsLongestTail(candles, maxGap, limit, StartOf(candles, maxGap, limit))
  {
    hide Window, ContiguousStart, Contiguous, IsLongestTail;
    WindowIsTail(candles, limit);
    ScanOfWindow(candles, maxGap, limit);
    var window := Window(candles, limit);
    TailOfScan(candles, maxGap, limit, |window|, ContiguousStart(window, maxGap, |window| - 1));
  }

  lemma WindowIsNonEmpty(candles: seq<Candle>, limit: int)
    requires |candles| > 0
    ensures |Window(candles, limit)| > 0
  {
  }

  lemma TrimIsTail(candles: seq<Candle>, maxGap: int, limit: int)
    requires limit >= 1 && |candles| > 0 && |Window(candles, limit)| > 0
    ensures var start := StartOf(candles, maxGap, limit);
            0 <= start < |candles| && Trim(candles, maxGap, limit) == Page(candles[start..], start > 0)
  {
    hide Window, ContiguousStart;
    WindowIsTail(candles, limit);
    var window := Window(candles, limit);
    PageFromTail(candles, window, ContiguousStart(window, maxGap, |window| - 1), limit);
  }

  lemma PageFromTail(candles: seq<Candle>, window: seq<Candle>, gap: nat, limit: int)
    requires limit >= 1 && gap < |window| <= |candles| && window == candles[|candles| - |window|..]
    ensures var start := if |window| - gap > limit then |candles| - limit else |candles| - |window| + gap;
            PageFrom(candles, window, gap, limit) == Page(candles[start..], start > 0)
  {
    assert window[gap..] == candles[|candles| - |window| + gap..];
  }

  /**
    With a limit of at least 1 the page is the longest tail of at most that many
    candles with no gap, and more is promised exactly when a candle was left out.
   */
  lemma TrimReturnsLongestTail(candles: seq<Candle>, maxGap: int, limit: int)
    requires limit >= 1 && |candles| > 0
    ensures var start := PageStart(candles, maxGap, limit);
            && 0 <= start < |candles| && IsLongestTail(candles, maxGap, limit, start)
            && Trim(candles, maxGap, limit) == Page(candles[start..], start > 0)
  {
    hide Window, ContiguousStart, Trim, IsLongestTail;
    WindowIsNonEmpty(candles, limit);
    StartIsLongest(candles, maxGap, limit);
    TrimIsTail(candles, maxGap, limit);
  }

  /** A limit below 1 is never respected: the page of a non-empty list is longer than asked. */
  lemma LimitRespectedFromOneOn(candles: seq<Candle>, maxGap: int, limit: int)
    requires |candles| > 0
    ensures |Trim(candles, maxGap, limit).candles| <= limit <==> limit >= 1
  {
  }

  /** With a limit below 1 the last two candles, if no gap parts them, or else the last, less the first -limit. */
  lemma TrimBelowOne(candles: seq<Candle>, maxGap: int, limit: int)
    requires |candles| > 0 && limit < 1
    ensures var n := |candles|;
            var kept := if n > 1 && Contiguous(candles, maxGap, n - 1) then 2 else 1;
            Trim(candles, maxGap, limit) == Page(if kept + limit <= 0 then [] else candles[n - kept - limit..], true)
  {
    var n := |candles|;
    var window := Window(candles, limit);
    assert window == candles[n - |window|..];
    if n > 1 {
      assert window == [candles[n - 2], candles[n - 1]];
    }
  }

  // ----- One-minute pages -----

  predicate Flat(bar: Candle) {
    bar.open == bar.high && bar.open == bar.low && bar.open == bar.close
  }

  /** A flat bar that follows another closely opens at that one's close. */
  function Opened(previous: Candle, bar: Candle, maxGap: int): Candle {
    if bar.ts - previous.ts > maxGap || !Flat(bar) then bar
    else bar.(open := previous.close, high := Max(previous.close, bar.close), low := Min(previous.close, bar.close))
  }

  function OpenedAll(rows: seq<Candle>, maxGap: int): (r: seq<Candle>)
    ensures |r| == |rows|
  {
    seq(|rows|, i requires 0 <= i < |rows| => if i == 0 then rows[0] else Opened(rows[i - 1], rows[i], maxGap))
  }

  /** The in-place rewrite reads bars it has already rewritten, and gives what the original bars would. */
  method OpenFlatBars(rows: seq<Candle>, maxGap: int) returns (bars: seq<Candle>)
    ensures bars == OpenedAll(rows, maxGap)
  {
    hide Max, Min, Flat, OpenedAll, Opened;
    bars := rows;
    if |rows| == 0 { return; }
    ghost var target := OpenedAll(rows, maxGap);
    FirstStaysAsItIs(rows, maxGap);
    for i := 1 to |rows|
      invariant |bars| == |rows|
      invariant forall k :: 0 <= k < i ==> bars[k] == target[k]
      invariant forall k :: i <= k < |rows| ==> bars[k] == rows[k]
    {
      var bar, previousBar := bars[i], bars[i - 1];
      OpenedFromRewritten(rows, maxGap, i, previousBar);
      if bar.ts - previousBar.ts <= maxGap && Flat(bar) {
        var prevClose := previousBar.close;
        bar := bar.(open := prevClose, high := Max(prevClose, bar.close), low := Min(prevClose, bar.close));
      }
      assert bar == target[i];
      bars := bars[i := bar];
    }
  }

  lemma FirstStaysAsItIs(rows: seq<Candle>, maxGap: int)
    requires |rows| > 0
    ensures OpenedAll(rows, maxGap)[0] == rows[0]
  {
  }

  /** The bar before may already be rewritten: its time and close are what they were. */
  lemma OpenedFromRewritten(rows: seq<Candle>, maxGap: int, i: nat, previousBar: Candle)
    requires 0 < i < |rows| && previousBar == OpenedAll(rows, maxGap)[i - 1]
    ensures OpenedAll(rows, maxGap)[i] ==
            if rows[i].ts - previousBar.ts <= maxGap && Flat(rows[i]) then
              rows[i].(open := previousBar.close, high := Max(previousBar.close, rows[i].close),
                       low := Min(previousBar.close, rows[i].close))
            else rows[i]
  {
    hide Max, Min, Flat;
    KeepsTimeAndClose(rows, maxGap, i - 1);
  }

  lemma KeepsTimeAndClose(rows: seq<Candle>, maxGap: int, i: nat)
    requires i < |rows|
    ensures OpenedAll(rows, maxGap)[i].ts == rows[i].ts && OpenedAll(rows, maxGap)[i].close == rows[i].close
  {
  }

  // ----- Pages read only the newest rows -----

  /** Two lists end alike: the shorter agrees with the end of the longer, but for the body of its first candle. */
  ghost predicate EndAlike(long: seq<Candle>, short: seq<Candle>) {
    && 0 < |short| <= |long|
    && var d := |long| - |short|;
       && long[d + 1..] == short[1..]
       && long[d].ts == short[0].ts
  }

  lemma PagesMatch(long: seq<Candle>, short: seq<Candle>, maxGap: int, limit: int, a: nat, b: nat)
    requires limit >= 1 && EndAlike(long, short) && |short| > limit && a < |long| && b < |short|
    requires IsLongestTail(long, maxGap, limit, a) && IsLongestTail(short, maxGap, limit, b)
    ensures long[a..] == short[b..] && a > 0 && b > 0
  {
    hide Contiguous;
    var d := |long| - |short|;
    ContiguousAlike(long, short, maxGap, b);
    if d + b < a {
      ContiguousAlike(long, short, maxGap, a - d);
    }
    assert a == d + b;
    assert long[a..] == long[d + 1..][b - 1..] && short[b..] == short[1..][b - 1..];
  }

  lemma ContiguousAlike(long: seq<Candle>, short: seq<Candle>, maxGap: int, i: nat)
    requires EndAlike(long, short) && 0 < i < |short|
    ensures Contiguous(short, maxGap, i) <==> Contiguous(long, maxGap, |long| - |short| + i)
  {
    EndAlikeIndex(long, short, i);
    if i > 1 {
      EndAlikeIndex(long, short, i - 1);
    }
  }

  /** A page does not depend on the body of a candle it leaves out. */
  lemma TrimIgnoresTheCut(long: seq<Candle>, short: seq<Candle>, maxGap: int, limit: int)
    requires limit >= 1 && EndAlike(long, short) && |short| > limit
    ensures Trim(long, maxGap, limit) == Trim(short, maxGap, limit)
  {
    TrimReturnsLongestTail(long, maxGap, limit);
    TrimReturnsLongestTail(short, maxGap, limit);
    PagesMatch(long, short, maxGap, limit, PageStart(long, maxGap, limit), PageStart(short, maxGap, limit));
  }

  lemma {:induction false} SuffixAggregatesAlike(older: seq<Candle>, rows: seq<Candle>, size: nat)
    requires size > 0 && |rows| > 0
    ensures EndAlike(Aggregate(older + rows, size), Aggregate(rows, size))
    decreases |rows|
  {
    var front, row := rows[..|rows| - 1], rows[|rows| - 1];
    assert older + rows == (older + front) + [row];
    assert rows == front + [row];
    AggregateAppend(older + front, row, size);
    AggregateAppend(front, row, size);
    if |front| == 0 {
      assert older + front == older;
    } else {
      SuffixAggregatesAlike(older, front, size);
      AddKeepsEndsAlike(Aggregate(older + front, size), Aggregate(front, size), row, size);
    }
  }

  lemma AddKeepsEndsAlike(long: seq<Candle>, short: seq<Candle>, row: Candle, size: nat)
    requires size > 0 && EndAlike(long, short)
    ensures EndAlike(AddRow(long, row, size), AddRow(short, row, size))
  {
    hide Bucket, Merge, NewBar;
    var d := |long| - |short|;
    if |short| > 1 {
      EndAlikeIndex(long, short, |short| - 1);
    }
    var a, b := AddRow(long, row, size), AddRow(short, row, size);
    assert |a| - |b| == d;
    forall k | 0 <= k < |b| - 1 ensures a[d + 1..][k] == b[1..][k] {
      if k + 1 < |short| { EndAlikeIndex(long, short, k + 1); }
    }
    assert a[d + 1..] == b[1..];
  }

  lemma EndAlikeIndex(long: seq<Candle>, short: seq<Candle>, i: nat)
    requires EndAlike(long, short) && 0 < i < |short|
    ensures short[i] == long[|long| - |short| + i]
  {
    assert short[i] == short[1..][i - 1] == long[|long| - |short| + 1..][i - 1];
  }

  /** Rows on whole minutes, strictly ascending. */
  ghost predicate MinuteRows(rows: seq<Candle>) {
    Ascending(rows) && forall i :: 0 <= i < |rows| ==> rows[i].ts % 60 == 0
  }

  /** A bar of `minutes` minutes takes in at most that many rows. */
  lemma {:induction false} BarsHoldFewRows(rows: seq<Candle>, minutes: nat)
    requires minutes > 0 && |rows| > 0 && MinuteRows(rows)
    ensures var bars := Aggregate(rows, minutes * 60);
            && |bars| > 0
            && var late := rows[|rows| - 1].ts - bars[|bars| - 1].ts;
               0 <= late <= (minutes - 1) * 60 && |rows| <= (|bars| - 1) * minutes + late / 60 + 1
  {
    var size := minutes * 60;
    var front, row := rows[..|rows| - 1], rows[|rows| - 1];
    LastBar(rows, size);
    LatenessInBar(row.ts, minutes);
    if |front| > 0 {
      BarsHoldFewRows(front, minutes);
      var before := Aggregate(front, size);
      var previous := front[|front| - 1].ts;
      assert rows[|rows| - 2].ts < rows[|rows| - 1].ts && rows[|rows| - 2].ts % 60 == 0;
      if before[|before| - 1].ts != Bucket(row.ts, size) {
        MulDistributes(|before| - 1, 1, minutes);
      }
    }
  }

  lemma LatenessInBar(ts: int, minutes: nat)
    requires minutes > 0 && ts % 60 == 0
    ensures 0 <= ts - Bucket(ts, minutes * 60) <= (minutes - 1) * 60
    ensures (ts - Bucket(ts, minutes * 60)) % 60 == 0
  {
    var size := minutes * 60;
    DivMod(ts, size);
    var q := ts / size;
    assert q * size == (q * minutes) * 60;
    var m := ts / 60;
    assert ts == m * 60;
    assert ts - q * size == (m - q * minutes) * 60;
    DivUnique(ts - q * size, 60, m - q * minutes, 0);
  }

  datatype Interval = M1 | M5 | M15 | H1 | H4 | D1

  function Minutes(interval: Interval): (m: nat)
    ensures m > 0
  {
    match interval
    case M1 => 1
    case M5 => 5
    case M15 => 15
    case H1 => 60
    case H4 => 240
    case D1 => 1440
  }

  function Seconds(interval: Interval): nat { Minutes(interval) * 60 }

  function MaxGap(interval: Interval): int { Seconds(interval) * 3 }

  function Select(rows: seq<Candle>, keep: Candle -> bool): seq<Candle> {
    if |rows| == 0 then []
    else
      Select(rows[..|rows| - 1], keep) + if keep(rows[|rows| - 1]) then [rows[|rows| - 1]] else []
  }

  function Before(rows: seq<Candle>, beforeTs: Option<int>): seq<Candle> {
    if beforeTs.None? then rows else Select(rows, (row: Candle) => row.ts < beforeTs.value)
  }

  /** The newest rows under SQL's `LIMIT`: a negative one is no limit. */
  function Newest(rows: seq<Candle>, n: int): seq<Candle> {
    if n < 0 || |rows| <= n then rows else rows[|rows| - n..]
  }

  function FetchLimit(interval: Interval, limit: int): int {
    MaxInt((limit + 1) * Minutes(interval), limit + 1)
  }

  /** The bars of an interval made from a list of rows. */
  function BarsFrom(rows: seq<Candle>, interval: Interval): seq<Candle> {
    if interval == M1 then OpenedAll(rows, MaxGap(M1)) else Aggregate(rows, Seconds(interval))
  }

  /** A page: the newest rows the query's row limit allows, turned into bars and trimmed. */
  function CandlesPage(rows: seq<Candle>, interval: Interval, limit: int, beforeTs: Option<int>,
                       fallback: Candle): Page {
    var fetched := Newest(Before(rows, beforeTs), FetchLimit(interval, limit));
    if |fetched| == 0 then Page([fallback], false)
    else
      var recent := if interval == M1 then Window(fetched, limit) else fetched;
      Trim(BarsFrom(recent, interval), MaxGap(interval), limit)
  }

  method GetCandlesPage(rows: seq<Candle>, interval: Interval, limit: int, beforeTs: Option<int>, fallback: Candle)
    returns (page: Page)
    ensures page == CandlesPage(rows, interval, limit, beforeTs, fallback)
  {
    var ascending := Newest(Before(rows, beforeTs), FetchLimit(interval, limit));
    if |ascending| == 0 {
      return Page([fallback], false);
    }
    var bars;
    if interval == M1 {
      bars := OpenFlatBars(Window(ascending, limit), MaxGap(M1));
    } else {
      bars := AggregateRows(ascending, Seconds(interval));
    }
    page := TrimToContiguousTail(bars, MaxGap(interval), limit);
  }

  lemma OpenedEndAlike(older: seq<Candle>, rows: seq<Candle>, maxGap: int)
    requires |rows| > 0
    ensures EndAlike(OpenedAll(older + rows, maxGap), OpenedAll(rows, maxGap))
  {
  }

  /** The fetched rows fill more bars than a page can return. */
  lemma {:induction false} FetchedRowsSuffice(fetched: seq<Candle>, interval: Interval, limit: nat)
    requires MinuteRows(fetched) && |fetched| == FetchLimit(interval, limit)
    ensures |Aggregate(fetched, Seconds(interval))| > limit
  {
    var minutes := Minutes(interval);
    FetchLimitPositive(interval, limit);
    BarsHoldFewRows(fetched, minutes);
    var bars := Aggregate(fetched, minutes * 60);
    assert |fetched| <= |bars| * minutes by { MulDistributes(|bars| - 1, 1, minutes); }
    if |bars| <= limit {
      MulMonotone(minutes, |bars|, limit);
      MulDistributes(limit, 1, minutes);
      assert false;
    }
  }

  lemma WindowOfFew(rows: seq<Candle>, limit: nat)
    requires limit >= 1 && |rows| <= limit + 1
    ensures Window(rows, limit) == rows
  {
  }

  /**
    The row limit of the query never shows: for rows on whole minutes, the page is
    the one that all the stored rows before the cursor would give.
   */
  lemma PageNeedsNoOlderRows(rows: seq<Candle>, interval: Interval, limit: nat, beforeTs: Option<int>, fallback: Candle)
    requires limit >= 1 && MinuteRows(Before(rows, beforeTs)) && |Before(rows, beforeTs)| > 0
    ensures CandlesPage(rows, interval, limit, beforeTs, fallback) ==
            Trim(BarsFrom(Before(rows, beforeTs), interval), MaxGap(interval), limit)
  {
    hide Trim, EndAlike, Window, Aggregate, OpenedAll, Before;
    var all, n := Before(rows, beforeTs), FetchLimit(interval, limit);
    FetchLimitPositive(interval, limit);
    if |all| > n {
      var older, fetched := all[..|all| - n], all[|all| - n..];
      assert all == older + fetched && |fetched| == n;
      if interval == M1 {
        WindowOfFew(fetched, limit);
        OpenedEndAlike(older, fetched, MaxGap(M1));
      } else {
        assert MinuteRows(fetched);
        FetchedRowsSuffice(fetched, interval, limit);
        SuffixAggregatesAlike(older, fetched, Seconds(interval));
      }
      TrimIgnoresTheCut(BarsFrom(all, interval), BarsFrom(fetched, interval), MaxGap(interval), limit);
    } else if interval == M1 {
      WindowOfFew(all, limit);
    }
  }

  lemma FetchLimitPositive(interval: Interval, limit: nat)
    ensures FetchLimit(interval, limit) == (limit + 1) * Minutes(interval) >= limit + 1
    ensures interval == M1 ==> FetchLimit(interval, limit) == limit + 1
  {
  }

  // ----- Ranges -----

  function InRange(fromTs: int, toTs: int): Candle -> bool {
    (c: Candle) => fromTs <= c.ts <= toTs
  }

  /** What the range query fetches: one bucket more than asked for. */
  function RangeRows(rows: seq<Candle>, size: nat, fromTs: int, toTs: int): seq<Candle> {
    Select(rows, (row: Candle) => fromTs <= row.ts < toTs + size)
  }

  /** The range loop pushes a finished bar only when it starts inside the range. */
  method AggregateRange(rows: seq<Candle>, size: nat, fromTs: int, toTs: int) returns (aggregated: seq<Candle>)
    requires size > 1
    ensures aggregated == Select(Aggregate(RangeRows(rows, size, fromTs, toTs), size), InRange(fromTs, toTs))
  {
    var fetched := RangeRows(rows, size, fromTs, toTs);
    aggregated := [];
    var current: Option<Candle> := None;
    var currentBucket := -1;
    ghost var done: seq<Candle> := [];
    for i := 0 to |fetched|
      invariant Aggregate(fetched[..i], size) == done + if current.Some? then [current.value] else []
      invariant aggregated == Select(done, InRange(fromTs, toTs))
      invariant current.None? <==> i == 0
      invariant currentBucket == if current.Some? then current.value.ts else -1
    {
      assert fetched[..i + 1][..i] == fetched[..i];
      var row := fetched[i];
      var bucket := Bucket(row.ts, size);
      BucketIsMultiple(row.ts, size);
      if bucket != currentBucket {
        if current.Some? {
          SelectAppend(done, current.value, InRange(fromTs, toTs));
          done := done + [current.value];
          if fromTs <= current.value.ts <= toTs { aggregated := aggregated + [current.value]; }
        }
        currentBucket := bucket;
        current := Some(NewBar(row, size));
      } else {
        current := Some(Merge(current.value, row));
      }
    }
    assert fetched[..|fetched|] == fetched;
    if current.Some? {
      SelectAppend(done, current.value, InRange(fromTs, toTs));
      if fromTs <= current.value.ts <= toTs { aggregated := aggregated + [current.value]; }
    }
  }

  lemma {:induction false} SelectAppend(rows: seq<Candle>, row: Candle, keep: Candle -> bool)
    ensures Select(rows + [row], keep) == Select(rows, keep) + if keep(row) then [row] else []
  {
  }

  lemma {:induction false} SelectKeepsOrder(rows: seq<Candle>, keep: Candle -> bool)
    requires Ascending(rows)
    ensures Ascending(Select(rows, keep))
    ensures forall c :: c in Select(rows, keep) <==> c in rows && keep(c)
  {
    if |rows| > 0 {
      var front := rows[..|rows| - 1];
      SelectKeepsOrder(front, keep);
      assert rows == front + [rows[|rows| - 1]];
      forall c | c in Select(front, keep) ensures c.ts < rows[|rows| - 1].ts {
        var k :| 0 <= k < |front| && front[k] == c;
        assert rows[k].ts < rows[|rows| - 1].ts;
      }
    }
  }

  /** Ascending lists with the same candles are the same list. */
  lemma {:induction false} SameCandlesSameList(a: seq<Candle>, b: seq<Candle>)
    requires Ascending(a) && Ascending(b) && forall c :: c in a <==> c in b
    ensures a == b
    decreases |a|
  {
    if |a| == 0 {
      if |b| > 0 {
        HasSome(b);
        assert false;
      }
    } else {
      assert a[|a| - 1] in a;
      LastIsLatest(a, b);
      LastIsLatest(b, a);
      var x, y := a[..|a| - 1], b[..|b| - 1];
      assert a == x + [a[|a| - 1]] && b == y + [b[|b| - 1]];
      DropLast(a);
      DropLast(b);
      forall c: Candle ensures c in x <==> c in y {
        assert c in x <==> c in a && c != a[|a| - 1];
        assert c in y <==> c in b && c != b[|b| - 1];
      }
      SameCandlesSameList(x, y);
    }
  }

  lemma HasSome(b: seq<Candle>)
    requires |b| > 0
    ensures exists c :: c in b
  {
    assert b[0] in b;
  }

  lemma LastIsLatest(a: seq<Candle>, b: seq<Candle>)
    requires Ascending(a) && Ascending(b) && |a| > 0 && |b| > 0 && forall c :: c in a <==> c in b
    ensures a[|a| - 1] == b[|b| - 1]
  {
    LatestIsLast(a, b[|b| - 1]);
    LatestIsLast(b, a[|a| - 1]);
  }

  lemma LatestIsLast(a: seq<Candle>, c: Candle)
    requires Ascending(a) && |a| > 0
    ensures a[|a| - 1] in a
    ensures c in a ==> c == a[|a| - 1] || c.ts < a[|a| - 1].ts
  {
  }

  lemma DropLast(a: seq<Candle>)
    requires Ascending(a) && |a| > 0
    ensures forall c :: c in a[..|a| - 1] <==> c in a && c != a[|a| - 1]
  {
  }

  lemma {:induction false} GroupHasRow(rows: seq<Candle>, size: nat, bucket: int)
    requires size > 0 && |Group(rows, size, bucket)| > 0
    ensures exists i :: 0 <= i < |rows| && Bucket(rows[i].ts, size) == bucket
  {
    var n := |rows| - 1;
    if Bucket(rows[n].ts, size) != bucket {
      GroupHasRow(rows[..n], size, bucket);
      var i :| 0 <= i < n && Bucket(rows[..n][i].ts, size) == bucket;
      assert rows[i] == rows[..n][i];
    }
  }

  /** The aggregated bars are exactly the bars built from all the rows of their bucket. */
  lemma {:induction false} BarsAreTheBuilt(rows: seq<Candle>, size: nat, c: Candle)
    requires size > 0 && Ascending(rows)
    ensures c in Aggregate(rows, size) <==> BuiltFrom(c, rows, size)
  {
    var bars := Aggregate(rows, size);
    AggregationGroups(rows, size);
    if BuiltFrom(c, rows, size) {
      GroupHasRow(rows, size, c.ts);
      var i :| 0 <= i < |rows| && Bucket(rows[i].ts, size) == c.ts;
      assert HasBar(bars, Bucket(rows[i].ts, size));
      var k :| 0 <= k < |bars| && bars[k].ts == c.ts;
      assert BuiltFrom(bars[k], rows, size);
    }
  }

  /** A bucket that starts in the range has all its rows fetched. */
  lemma {:induction false} RangeHasWholeGroups(rows: seq<Candle>, size: nat, fromTs: int, toTs: int, bucket: int)
    requires size > 0 && fromTs <= bucket <= toTs
    ensures Group(RangeRows(rows, size, fromTs, toTs), size, bucket) == Group(rows, size, bucket)
  {
    hide Bucket;
    if |rows| > 0 {
      var front, row := rows[..|rows| - 1], rows[|rows| - 1];
      RangeHasWholeGroups(front, size, fromTs, toTs, bucket);
      BucketBounds(row.ts, size);
      if fromTs <= row.ts < toTs + size {
        GroupAppend(RangeRows(front, size, fromTs, toTs), row, size, bucket);
        assert RangeRows(rows, size, fromTs, toTs) == RangeRows(front, size, fromTs, toTs) + [row];
      } else {
        assert RangeRows(rows, size, fromTs, toTs) == RangeRows(front, size, fromTs, toTs);
      }
    }
  }

  /**
    A range returns exactly the bars, starting in it, that aggregating the whole
    history gives: no bar is missing and none is built from part of its rows.
   */
  lemma {:induction false} RangeBarsAreComplete(rows: seq<Candle>, size: nat, fromTs: int, toTs: int)
    requires size > 0 && Ascending(rows)
    ensures Select(Aggregate(RangeRows(rows, size, fromTs, toTs), size), InRange(fromTs, toTs)) ==
            Select(Aggregate(rows, size), InRange(fromTs, toTs))
  {
    var fetched := RangeRows(rows, size, fromTs, toTs);
    SelectKeepsOrder(rows, (row: Candle) => fromTs <= row.ts < toTs + size);
    AggregationGroups(rows, size);
    AggregationGroups(fetched, size);
    SelectKeepsOrder(Aggregate(rows, size), InRange(fromTs, toTs));
    SelectKeepsOrder(Aggregate(fetched, size), InRange(fromTs, toTs));
    forall c: Candle | fromTs <= c.ts <= toTs ensures c in Aggregate(rows, size) <==> c in Aggregate(fetched, size) {
      BarsAreTheBuilt(rows, size, c);
      BarsAreTheBuilt(fetched, size, c);
      RangeHasWholeGroups(rows, size, fromTs, toTs, c.ts);
    }
    SameCandlesSameList(Select(Aggregate(fetched, size), InRange(fromTs, toTs)),
                        Select(Aggregate(rows, size), InRange(fromTs, toTs)));
  }
}
