/**
  Candle aggregation and paging: one pass over ascending rows that keeps the bar
  under construction, and the trimming of a page to its contiguous tail.
 */
module Candles {
  import opened Indicators
  import opened Outcome
  import opened Sums

  // ----- Aggregation -----

  /** The start of the bucket a time falls in. */
  function Bucket(ts: int, size: nat): int
    requires size > 0
  {
    ts / size * size
  }

  function Min(a: real, b: real): real { if b < a then b else a }

  /** A row taken into a bar. */
  function Merge(bar: Candle, row: Candle): Candle {
    Candle(bar.ts, bar.open, Max(bar.high, row.high), Min(bar.low, row.low), row.close, bar.volume + row.volume)
  }

  function NewBar(row: Candle, size: nat): Candle
    requires size > 0
  {
    row.(ts := Bucket(row.ts, size))
  }

  function AddRow(bars: seq<Candle>, row: Candle, size: nat): (next: seq<Candle>)
    requires size > 0
    ensures |next| > 0 && next[|next| - 1].ts == Bucket(row.ts, size)
  {
    if |bars| > 0 && bars[|bars| - 1].ts == Bucket(row.ts, size) then
      bars[..|bars| - 1] + [Merge(bars[|bars| - 1], row)]
    else bars + [NewBar(row, size)]
  }

  function Aggregate(rows: seq<Candle>, size: nat): seq<Candle>
    requires size > 0
  {
    if |rows| == 0 then [] else AddRow(Aggregate(rows[..|rows| - 1], size), rows[|rows| - 1], size)
  }

  /** The loop: a bar under construction, pushed when the bucket changes and once more at the end. */
  method AggregateRows(rows: seq<Candle>, size: nat) returns (aggregated: seq<Candle>)
    requires size > 1
    ensures aggregated == Aggregate(rows, size)
  {
    aggregated := [];
    var current: Option<Candle> := None;
    var currentBucket := -1;
    for i := 0 to |rows|
      invariant Aggregate(rows[..i], size) == aggregated + if current.Some? then [current.value] else []
      invariant current.None? <==> i == 0
      invariant currentBucket == if current.Some? then current.value.ts else -1
    {
      assert rows[..i + 1][..i] == rows[..i];
      var row := rows[i];
      var bucket := Bucket(row.ts, size);
      assert bucket != -1 by { BucketIsMultiple(row.ts, size); }
      if bucket != currentBucket {
        if current.Some? { aggregated := aggregated + [current.value]; }
        currentBucket := bucket;
        current := Some(NewBar(row, size));
      } else {
        current := Some(Merge(current.value, row));
      }
    }
    assert rows[..|rows|] == rows;
    if current.Some? { aggregated := aggregated + [current.value]; }
  }

  lemma BucketIsMultiple(ts: int, size: nat)
    requires size > 1
    ensures Bucket(ts, size) != -1
  {
  }

  lemma BucketBounds(ts: int, size: nat)
    requires size > 0
    ensures Bucket(ts, size) <= ts < Bucket(ts, size) + size
  {
  }

  lemma BucketMonotone(a: int, b: int, size: nat)
    requires size > 0 && a <= b
    ensures Bucket(a, size) <= Bucket(b, size)
  {
    DivMod(a, size);
    DivMod(b, size);
    var p, q := a / size, b / size;
    if p > q {
      MulMonotone(size, q + 1, p);
      MulDistributes(q, 1, size);
      assert false;
    }
    MulMonotone(size, p, q);
  }

  // ----- Aggregation is grouping by bucket -----

  /** The rows of one bucket, in order. */
  function Group(rows: seq<Candle>, size: nat, bucket: int): seq<Candle>
    requires size > 0
  {
    if |rows| == 0 then []
    else
      var last := rows[|rows| - 1];
      Group(rows[..|rows| - 1], size, bucket) + if Bucket(last.ts, size) == bucket then [last] else []
  }

  function Highs(rows: seq<Candle>): seq<real> { seq(|rows|, i requires 0 <= i < |rows| => rows[i].high) }

  function Lows(rows: seq<Candle>): seq<real> { seq(|rows|, i requires 0 <= i < |rows| => rows[i].low) }

  function Volumes(rows: seq<Candle>): seq<real> { seq(|rows|, i requires 0 <= i < |rows| => rows[i].volume) }

  /** First open, highest high, lowest low, last close, total volume. */
  function BarOf(group: seq<Candle>, bucket: int): Candle
    requires |group| > 0
  {
    Candle(bucket, group[0].open, MaxOf(Highs(group)), MinOf(Lows(group)), group[|group| - 1].close,
           Total(Volumes(group)))
  }

  lemma BarOfMore(group: seq<Candle>, row: Candle, bucket: int)
    requires |group| > 0
    ensures BarOf(group + [row], bucket) == Merge(BarOf(group, bucket), row)
  {
    var n := |group|;
    assert Highs(group + [row])[..n] == Highs(group);
    assert Lows(group + [row])[..n] == Lows(group);
    assert Volumes(group + [row])[..n] == Volumes(group);
  }

  lemma BarOfOne(row: Candle, size: nat)
    requires size > 0
    ensures BarOf([row], Bucket(row.ts, size)) == NewBar(row, size)
  {
    assert Highs([row]) == [row.high] && Lows([row]) == [row.low] && Volumes([row]) == [row.volume];
    assert [row.volume][..0] == [];
    assert Total([row.volume]) == row.volume;
    assert MaxOf([row.high]) == row.high && MinOf([row.low]) == row.low;
  }

  /** The bar is made of all the rows of its bucket. */
  ghost predicate BuiltFrom(bar: Candle, rows: seq<Candle>, size: nat)
    requires size > 0
  {
    var group := Group(rows, size, bar.ts);
    |group| > 0 && bar == BarOf(group, bar.ts)
  }

  /** Strictly increasing bars, one for each bucket that has rows, each built from all the bucket's rows. */
  ghost predicate GroupsByBucket(rows: seq<Candle>, size: nat, bars: seq<Candle>)
    requires size > 0
  {
    && Ascending(bars)
    && (forall i :: 0 <= i < |bars| ==> BuiltFrom(bars[i], rows, size))
    && (forall i :: 0 <= i < |rows| ==> HasBar(bars, Bucket(rows[i].ts, size)))
  }

  ghost predicate HasBar(bars: seq<Candle>, ts: int) {
    exists i :: 0 <= i < |bars| && bars[i].ts == ts
  }

  lemma {:induction false} GroupEmpty(rows: seq<Candle>, size: nat, bucket: int)
    requires size > 0 && forall i :: 0 <= i < |rows| ==> Bucket(rows[i].ts, size) != bucket
    ensures Group(rows, size, bucket) == []
  {
    if |rows| > 0 {
      GroupEmpty(rows[..|rows| - 1], size, bucket);
    }
  }

  /** No bar lies beyond the bucket of the last row. */
  lemma {:induction false} LastBar(rows: seq<Candle>, size: nat)
    requires size > 0 && |rows| > 0
    ensures var bars := Aggregate(rows, size);
            |bars| > 0 && bars[|bars| - 1].ts == Bucket(rows[|rows| - 1].ts, size)
  {
  }

  /** The one-pass aggregation of ascending rows is the grouping by bucket. */
  lemma {:induction false} AggregationGroups(rows: seq<Candle>, size: nat)
    requires size > 0 && Ascending(rows)
    ensures GroupsByBucket(rows, size, Aggregate(rows, size))
  {
    hide Bucket, BuiltFrom, HasBar;
    if |rows| > 0 {
      var front, row := rows[..|rows| - 1], rows[|rows| - 1];
      AggregationGroups(front, size);
      assert rows == front + [row];
      if |front| > 0 { LaterRow(front, row, size); }
      var before := Aggregate(front, size);
      if |before| > 0 && before[|before| - 1].ts == Bucket(row.ts, size) {
        MergingKeepsGroups(front, row, size, before);
      } else {
        NewBarKeepsGroups(front, row, size, before);
      }
    }
  }

  lemma {:induction false} GroupAppend(front: seq<Candle>, row: Candle, size: nat, bucket: int)
    requires size > 0
    ensures Group(front + [row], size, bucket) ==
            Group(front, size, bucket) + if Bucket(row.ts, size) == bucket then [row] else []
  {
  }

  lemma RowElsewhere(bar: Candle, front: seq<Candle>, row: Candle, size: nat)
    requires size > 0 && BuiltFrom(bar, front, size) && bar.ts != Bucket(row.ts, size)
    ensures BuiltFrom(bar, front + [row], size)
  {
    GroupAppend(front, row, size, bar.ts);
    assert Group(front, size, bar.ts) + [] == Group(front, size, bar.ts);
  }

  lemma RowInBar(bar: Candle, front: seq<Candle>, row: Candle, size: nat)
    requires size > 0 && BuiltFrom(bar, front, size) && bar.ts == Bucket(row.ts, size)
    ensures BuiltFrom(Merge(bar, row), front + [row], size)
  {
    GroupAppend(front, row, size, bar.ts);
    BarOfMore(Group(front, size, bar.ts), row, bar.ts);
  }

  lemma {:induction false} RowInNewBar(front: seq<Candle>, row: Candle, size: nat)
    requires size > 0 && Group(front, size, Bucket(row.ts, size)) == []
    ensures BuiltFrom(NewBar(row, size), front + [row], size)
  {
    GroupAppend(front, row, size, Bucket(row.ts, size));
    assert [] + [row] == [row];
    BarOfOne(row, size);
  }

  /** A later row's bucket is the last bar's or a new one beyond it. */
  lemma {:induction false} LaterRow(front: seq<Candle>, row: Candle, size: nat)
    requires size > 0 && |front| > 0 && Ascending(front + [row])
    ensures var bars := Aggregate(front, size); |bars| > 0 && bars[|bars| - 1].ts <= Bucket(row.ts, size)
  {
    var rows := front + [row];
    assert rows[|front| - 1].ts < rows[|front|].ts;
    BucketMonotone(front[|front| - 1].ts, row.ts, size);
    LastBar(front, size);
  }

  lemma RowsStillHaveBars(front: seq<Candle>, row: Candle, size: nat, before: seq<Candle>, bars: seq<Candle>)
    requires size > 0
    requires forall i :: 0 <= i < |front| ==> HasBar(before, Bucket(front[i].ts, size))
    requires |before| <= |bars| && forall k :: 0 <= k < |before| ==> bars[k].ts == before[k].ts
    requires HasBar(bars, Bucket(row.ts, size))
    ensures forall i :: 0 <= i < |front + [row]| ==> HasBar(bars, Bucket((front + [row])[i].ts, size))
  {
  }

  lemma MergingKeepsGroups(front: seq<Candle>, row: Candle, size: nat, before: seq<Candle>)
    requires size > 0 && GroupsByBucket(front, size, before)
    requires |before| > 0 && before[|before| - 1].ts == Bucket(row.ts, size)
    ensures GroupsByBucket(front + [row], size, AddRow(before, row, size))
  {
    hide BuiltFrom, Merge, Bucket, HasBar;
    var bucket, bars := Bucket(row.ts, size), AddRow(before, row, size);
    forall i | 0 <= i < |bars| ensures BuiltFrom(bars[i], front + [row], size) {
      if i < |before| - 1 {
        assert bars[i] == before[i] && before[i].ts < before[|before| - 1].ts;
        RowElsewhere(bars[i], front, row, size);
      } else {
        RowInBar(before[|before| - 1], front, row, size);
      }
    }
    assert bars[|bars| - 1].ts == bucket;
    RowsStillHaveBars(front, row, size, before, bars);
  }

  lemma {:induction false} NoRowsBeyond(front: seq<Candle>, size: nat, before: seq<Candle>, bucket: int)
    requires size > 0 && GroupsByBucket(front, size, before)
    requires |before| > 0 ==> before[|before| - 1].ts < bucket
    ensures Group(front, size, bucket) == []
    ensures forall k :: 0 <= k < |before| ==> before[k].ts < bucket
  {
    hide BuiltFrom, Group, Bucket;
    forall i | 0 <= i < |front| ensures Bucket(front[i].ts, size) != bucket {
      assert HasBar(before, Bucket(front[i].ts, size));
    }
    GroupEmpty(front, size, bucket);
  }

  lemma NewBarKeepsGroups(front: seq<Candle>, row: Candle, size: nat, before: seq<Candle>)
    requires size > 0 && GroupsByBucket(front, size, before)
    requires |before| > 0 ==> before[|before| - 1].ts < Bucket(row.ts, size)
    ensures GroupsByBucket(front + [row], size, before + [NewBar(row, size)])
  {
    hide BuiltFrom, Bucket, HasBar;
    var bar := NewBar(row, size);
    var bars := before + [bar];
    NoRowsBeyond(front, size, before, bar.ts);
    forall i | 0 <= i < |before| ensures BuiltFrom(bars[i], front + [row], size) {
      RowElsewhere(before[i], front, row, size);
    }
    RowInNewBar(front, row, size);
    assert bars[|before|] == bar;
    RowsStillHaveBars(front, row, size, before, bars);
  }

  // ----- Aggregating in two steps -----

  lemma CoarserBucket(ts: int, fine: nat, factor: nat)
    requires fine > 0 && factor > 0
    ensures factor * fine > 0 && Bucket(Bucket(ts, fine), factor * fine) == Bucket(ts, factor * fine)
  {
    var q := ts / fine;
    DivDiv(ts, fine, factor);
    DivDiv(q * fine, fine, factor);
    DivUnique(q * fine, fine, q, 0);
    assert fine * factor == factor * fine;
  }

  /** Taking in one row, coarsely, after a bar is taking in the bar with the row merged. */
  lemma AddAfterBar(bars: seq<Candle>, bar: Candle, row: Candle, size: nat)
    requires size > 0 && Bucket(bar.ts, size) == Bucket(row.ts, size)
    ensures AddRow(AddRow(bars, bar, size), row, size) == AddRow(bars, Merge(bar, row), size)
  {
  }

  lemma {:induction false} AggregateAppend(rows: seq<Candle>, row: Candle, size: nat)
    requires size > 0
    ensures Aggregate(rows + [row], size) == AddRow(Aggregate(rows, size), row, size)
  {
    hide AddRow;
    assert (rows + [row])[..|rows|] == rows;
  }

  lemma {:induction false} MergeBeforeAggregating(older: seq<Candle>, bar: Candle, row: Candle, size: nat)
    requires size > 0 && Bucket(bar.ts, size) == Bucket(row.ts, size)
    ensures Aggregate(older + [Merge(bar, row)], size) == AddRow(Aggregate(older + [bar], size), row, size)
  {
    hide Bucket, AddRow;
    AggregateAppend(older, bar, size);
    AggregateAppend(older, Merge(bar, row), size);
    AddAfterBar(Aggregate(older, size), bar, row, size);
  }

  lemma NewBarIsARow(bars: seq<Candle>, row: Candle, fine: nat, factor: nat, coarse: nat)
    requires fine > 0 && factor > 0 && coarse == factor * fine
    ensures coarse > 0 && AddRow(bars, NewBar(row, fine), coarse) == AddRow(bars, row, coarse)
  {
    hide Bucket;
    CoarserBucket(row.ts, fine, factor);
  }

  lemma SameCoarseBucket(a: int, b: int, fine: nat, factor: nat, coarse: nat)
    requires fine > 0 && factor > 0 && coarse == factor * fine && a == Bucket(b, fine)
    ensures coarse > 0 && Bucket(a, coarse) == Bucket(b, coarse)
  {
    CoarserBucket(b, fine, factor);
  }

  /** One more row, taken into fine bars and these into coarse ones, is one more row taken into coarse ones. */
  lemma {:induction false} OneRowComposes(bars: seq<Candle>, row: Candle, fine: nat, factor: nat, coarse: nat)
    requires fine > 0 && factor > 0 && coarse == factor * fine && coarse > 0
    ensures Aggregate(AddRow(bars, row, fine), coarse) == AddRow(Aggregate(bars, coarse), row, coarse)
  {
    hide Bucket, Merge, NewBar, Aggregate;
    if |bars| > 0 && bars[|bars| - 1].ts == Bucket(row.ts, fine) {
      var older, bar := bars[..|bars| - 1], bars[|bars| - 1];
      assert bars == older + [bar];
      SameCoarseBucket(bar.ts, row.ts, fine, factor, coarse);
      MergeBeforeAggregating(older, bar, row, coarse);
    } else {
      AggregateAppend(bars, NewBar(row, fine), coarse);
      NewBarIsARow(Aggregate(bars, coarse), row, fine, factor, coarse);
    }
  }

  lemma {:induction false} ComposesTo(rows: seq<Candle>, fine: nat, factor: nat, coarse: nat)
    requires fine > 0 && factor > 0 && coarse == factor * fine && coarse > 0
    ensures Aggregate(Aggregate(rows, fine), coarse) == Aggregate(rows, coarse)
  {
    hide AddRow;
    if |rows| > 0 {
      var front, row := rows[..|rows| - 1], rows[|rows| - 1];
      ComposesTo(front, fine, factor, coarse);
      OneRowComposes(Aggregate(front, fine), row, fine, factor, coarse);
    }
  }

  /** Aggregating to a fine size and then to a multiple of it is aggregating to the multiple at once. */
  lemma {:induction false} AggregationComposes(rows: seq<Candle>, fine: nat, factor: nat)
    requires fine > 0 && factor > 0
    ensures factor * fine > 0
    ensures Aggregate(Aggregate(rows, fine), factor * fine) == Aggregate(rows, factor * fine)
  {
    hide *;
    assert factor * fine > 0;
    ComposesTo(rows, fine, factor, factor * fine);
  }
}
