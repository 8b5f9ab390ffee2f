/** Exponential averages in closed form: what every single value still weighs. */
module Averages {
  import opened Indicators
  import opened Outcome

  function Power(x: real, n: nat): real {
    if n == 0 then 1.0 else x * Power(x, n - 1)
  }

  /** The n latest values up to bar i, each weighing `weight`, less by the same factor for every bar of its age. */
  function Aged(values: seq<real>, weight: real, i: nat, n: nat): real
    requires n <= i + 1 <= |values|
  {
    if n == 0 then 0.0
    else Aged(values, weight, i, n - 1) + Term(weight, n - 1, values[i - (n - 1)])
  }

  /** What a value of this age still adds. */
  function Term(weight: real, age: nat, value: real): real {
    weight * Power(1.0 - weight, age) * value
  }

  /** A seed, n bars old, and the n values since. */
  function Carried(values: seq<real>, weight: real, seed: real, i: nat, n: nat): real
    requires n <= i + 1 <= |values|
  {
    Aged(values, weight, i, n) + Faded(weight, n, seed)
  }

  /** What a seed of this age still adds. */
  function Faded(weight: real, age: nat, seed: real): real {
    Power(1.0 - weight, age) * seed
  }

  /** An average of the first `period` values, then of every value since with this weight. */
  function Average(values: seq<real>, weight: real, period: Period, i: nat): real
    requires period - 1 <= i < |values|
  {
    Carried(values, weight, Mean(Total(values[..period]), period), i, i - period + 1)
  }

  /** The weight of the newest value in an exponential average of this period, and in a smoothed one. */
  function EmaWeight(period: Period): real { 2.0 / ((period + 1) as real) }

  function SmoothWeight(period: Period): real { 1.0 / (period as real) }

  /** All the weights together: those of n values and what is left for the seed. */
  lemma {:induction false} WeightsAddUp(weight: real, i: nat, n: nat, ones: seq<real>)
    requires n <= i + 1 <= |ones| && forall k :: 0 <= k < |ones| ==> ones[k] == 1.0
    ensures Carried(ones, weight, 1.0, i, n) == 1.0
  {
    if n > 0 {
      WeightsAddUp(weight, i, n - 1, ones);
      OneMoreWeight(weight, Power(1.0 - weight, n - 1));
    }
  }

  lemma OneMoreWeight(weight: real, power: real)
    ensures (1.0 - weight) * power + weight * power == power
  {
  }

  // ----- One step -----

  /** An average takes in one more value. */
  function Next(weight: real, value: real, before: real): real {
    weight * value + (1.0 - weight) * before
  }

  /** What a part of an average is worth one bar later. */
  function Later(weight: real, part: real): real {
    (1.0 - weight) * part
  }

  lemma NextTakesMore(weight: real, value: real, before: real, term: real)
    ensures Next(weight, value, before) + Later(weight, term) == Next(weight, value, before + term)
  {
    Spread(1.0 - weight, before, term);
  }

  lemma TermAges(weight: real, age: nat, value: real)
    ensures Term(weight, age + 1, value) == Later(weight, Term(weight, age, value))
  {
    Reorder(weight, 1.0 - weight, Power(1.0 - weight, age), value);
  }

  lemma Reorder(weight: real, keep: real, power: real, value: real)
    ensures weight * (keep * power) * value == keep * (weight * power * value)
  {
  }

  lemma Spread(a: real, b: real, c: real)
    ensures a * (b + c) == a * b + a * c
  {
  }

  lemma {:induction false} AgedStep(values: seq<real>, weight: real, i: nat, n: nat)
    requires 0 < n <= i < |values|
    ensures Aged(values, weight, i, n) == Next(weight, values[i], Aged(values, weight, i - 1, n - 1))
  {
    hide Next, Term, Later;
    if n == 1 {
      NewestAlone(values, weight, i);
    } else {
      var before, oldest := Aged(values, weight, i - 1, n - 2), values[i - (n - 1)];
      AgedStep(values, weight, i, n - 1);
      NextTakesMore(weight, values[i], before, Term(weight, n - 2, oldest));
      TermAges(weight, n - 2, oldest);
      assert Aged(values, weight, i - 1, n - 1) == before + Term(weight, n - 2, oldest);
    }
  }

  lemma {:induction false} NewestAlone(values: seq<real>, weight: real, i: nat)
    requires 0 < i < |values|
    ensures Aged(values, weight, i, 1) == Next(weight, values[i], Aged(values, weight, i - 1, 0))
  {
    assert Aged(values, weight, i, 1) == Aged(values, weight, i, 0) + Term(weight, 0, values[i]);
  }

  lemma CarriedStep(values: seq<real>, weight: real, seed: real, i: nat, n: nat)
    requires 0 < n <= i < |values|
    ensures Carried(values, weight, seed, i, n) ==
            Next(weight, values[i], Carried(values, weight, seed, i - 1, n - 1))
  {
    hide Next, Aged, Faded, Later;
    AgedStep(values, weight, i, n);
    NextTakesMore(weight, values[i], Aged(values, weight, i - 1, n - 1), Faded(weight, n - 1, seed));
    FadedAges(weight, n - 1, seed);
  }

  lemma FadedAges(weight: real, age: nat, seed: real)
    ensures Faded(weight, age + 1, seed) == Later(weight, Faded(weight, age, seed))
  {
    SeedAges(1.0 - weight, Power(1.0 - weight, age), seed);
  }

  lemma SeedAges(keep: real, power: real, seed: real)
    ensures keep * power * seed == keep * (power * seed)
  {
  }

  lemma CarriedAtOnce(values: seq<real>, weight: real, seed: real, i: nat)
    requires i < |values|
    ensures Carried(values, weight, seed, i, 0) == seed
  {
  }

  // ----- The engine's averages -----

  lemma {:induction false} EmaIsAverage(values: seq<real>, period: Period, i: nat)
    requires period - 1 <= i < |values|
    ensures EmaAt(values, period, i) == Some(Average(values, EmaWeight(period), period, i))
  {
    hide Aged, Power, Total, Mean, Carried, Blend, EmaWeight, Next;
    var weight, seed := EmaWeight(period), Mean(Total(values[..period]), period);
    if i == period - 1 {
      CarriedAtOnce(values, weight, seed, i);
    } else {
      EmaIsAverage(values, period, i - 1);
      CarriedStep(values, weight, seed, i, i - period + 1);
      var before := Average(values, weight, period, i - 1);
      BlendIsStep(values[i], before, period);
      assert before == Carried(values, weight, seed, i - 1, i - period);
      assert EmaAt(values, period, i) == Some(Blend(values[i], before, period));
    }
  }

  lemma BlendIsStep(value: real, previous: real, period: Period)
    ensures var weight := EmaWeight(period);
            Blend(value, previous, period) == Next(weight, value, previous)
  {
  }

  lemma {:induction false} AtrIsAverage(ranges: seq<real>, period: Period, i: nat)
    requires period - 1 <= i < |ranges|
    ensures AtrAt(ranges, period, i) == Some(Average(ranges, SmoothWeight(period), period, i))
  {
    hide Aged, Power, Total, Mean, Carried, Smooth, SmoothWeight, Next;
    var weight, seed := SmoothWeight(period), Mean(Total(ranges[..period]), period);
    if i == period - 1 {
      CarriedAtOnce(ranges, weight, seed, i);
    } else {
      AtrIsAverage(ranges, period, i - 1);
      CarriedStep(ranges, weight, seed, i, i - period + 1);
      var before := Average(ranges, weight, period, i - 1);
      SmoothIsStep(ranges[i], before, period);
      assert before == Carried(ranges, weight, seed, i - 1, i - period);
      assert AtrAt(ranges, period, i) == Some(Smooth(before, ranges[i], period));
    }
  }

  lemma SmoothIsStep(value: real, previous: real, period: Period)
    ensures var weight := SmoothWeight(period);
            Smooth(previous, value, period) == Next(weight, value, previous)
  {
    var p := period as real;
    assert (period - 1) as real == p - 1.0;
    var weight := SmoothWeight(period);
    assert weight * p == 1.0;
    var q := (previous * (p - 1.0) + value) / p;
    assert q * p == previous * (p - 1.0) + value;
    TimesPeriod(weight, p, previous, value);
  }

  lemma TimesPeriod(weight: real, p: real, previous: real, value: real)
    requires p > 0.0 && weight * p == 1.0
    ensures (previous * (p - 1.0) + value) / p == weight * value + (1.0 - weight) * previous
  {
    var r := weight * value + (1.0 - weight) * previous;
    assert r * p == weight * p * value + (p - weight * p) * previous;
    assert r * p == previous * (p - 1.0) + value;
    assert r == (previous * (p - 1.0) + value) / p;
  }

  /** The rises (up) or falls (down) from bar to bar; none into the first. */
  function Moves(values: seq<real>, up: bool): (moves: seq<real>)
    ensures |moves| == |values|
  {
    seq(|values|, i requires 0 <= i < |values| =>
      if i == 0 then 0.0
      else if up then (if values[i] > values[i - 1] then values[i] - values[i - 1] else 0.0)
      else if values[i] < values[i - 1] then values[i - 1] - values[i] else 0.0)
  }

  /** What the index accumulates: the sum of the first `period` moves, faded, and every move since, smoothed. */
  function Accumulated(values: seq<real>, period: Period, up: bool, i: nat): real
    requires period <= i < |values|
  {
    Carried(Moves(values, up), SmoothWeight(period), Total(Moves(values, up)[1..period + 1]), i, i - period)
  }

  lemma {:induction false} FirstMovesAddUp(values: seq<real>, period: Period, up: bool, i: nat)
    requires i <= period && i < |values|
    ensures MovesAt(values, period, up, i) == Total(Moves(values, up)[1..i + 1])
  {
    if i == 0 {
      assert Moves(values, up)[1..1] == [];
    } else {
      FirstMovesAddUp(values, period, up, i - 1);
      assert Moves(values, up)[1..i + 1] == Moves(values, up)[1..i] + [Moves(values, up)[i]];
      assert (Moves(values, up)[1..i] + [Moves(values, up)[i]])[..i - 1] == Moves(values, up)[1..i];
    }
  }

  lemma MoveIsMoved(values: seq<real>, up: bool, i: nat)
    requires 0 < i < |values|
    ensures Moves(values, up)[i] == Moved(values, up, i)
  {
  }

  lemma {:induction false} MovesAreAccumulated(values: seq<real>, period: Period, up: bool, i: nat)
    requires period <= i < |values|
    ensures MovesAt(values, period, up, i) == Accumulated(values, period, up, i)
  {
    hide Aged, Power, Total, Carried, Smooth, SmoothWeight, Next, Moved, Moves;
    var moves, weight := Moves(values, up), SmoothWeight(period);
    var seed := Total(moves[1..period + 1]);
    if i == period {
      FirstMovesAddUp(values, period, up, i);
      CarriedAtOnce(moves, weight, seed, i);
    } else {
      MovesAreAccumulated(values, period, up, i - 1);
      CarriedStep(moves, weight, seed, i, i - period);
      SmoothIsStep(moves[i], Accumulated(values, period, up, i - 1), period);
      MoveIsMoved(values, up, i);
    }
  }
}
