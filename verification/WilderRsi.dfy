/**
  The relative strength index as Wilder defines it, which averages the first
  moves before smoothing, and exactly when the engine's index, which goes on from
  their sums, equals it.
 */
module WilderRsi {
  import opened Indicators
  import opened Outcome

  /** The mean of the first `period` moves, then smoothed. */
  function WilderAt(values: seq<real>, period: Period, up: bool, i: nat): (r: real)
    requires period <= i < |values|
    ensures r >= 0.0
  {
    if i == period then
      MeanNonNegative(MovesAt(values, period, up, period), period);
      Mean(MovesAt(values, period, up, period), period)
    else Smooth(WilderAt(values, period, up, i - 1), Moved(values, up, i), period)
  }

  function WilderRsiAt(values: seq<real>, period: Period, i: nat): Option<real>
    requires i < |values|
  {
    if i < period then None
    else Some(RsiOf(WilderAt(values, period, true, i), WilderAt(values, period, false, i)))
  }

  // ----- What the seed and the later moves contribute -----

  /** The first `period` moves, summed. */
  function Seed(values: seq<real>, period: Period, up: bool): (r: real)
    requires period < |values|
    ensures r >= 0.0
  {
    MovesAt(values, period, up, period)
  }

  /** The moves after the seed, smoothed from nothing. */
  function Later(values: seq<real>, period: Period, up: bool, i: nat): (r: real)
    requires period <= i < |values|
    ensures r >= 0.0
  {
    if i == period then 0.0
    else Smooth(Later(values, period, up, i - 1), Moved(values, up, i), period)
  }

  /** What one step of smoothing leaves of a weight. */
  function Faded(weight: real, period: Period): (r: real)
    ensures weight >= 0.0 ==> r >= 0.0
    ensures weight > 0.0 && period > 1 ==> r > 0.0
  {
    Mean(weight * ((period - 1) as real), period)
  }

  /** The weight a seed still has after some steps of smoothing. */
  function Decay(period: Period, steps: nat): (r: real)
    ensures r >= 0.0
    ensures period > 1 ==> r > 0.0
  {
    if steps == 0 then 1.0 else Faded(Decay(period, steps - 1), period)
  }

  /** What is left of a seed, plus what came later. */
  function Carried(weight: real, seed: real, later: real): real {
    weight * seed + later
  }

  lemma {:induction false} CarriedAtOnce(period: Period, seed: real)
    ensures Carried(Decay(period, 0), seed, 0.0) == seed
  {
  }

  lemma DecayStep(period: Period, steps: nat)
    ensures Decay(period, steps + 1) == Faded(Decay(period, steps), period)
  {
  }

  /** Smoothing is linear in what it smooths. */
  lemma SmoothSplits(weight: real, seed: real, later: real, moved: real, period: Period)
    ensures Smooth(Carried(weight, seed, later), moved, period) ==
            Carried(Faded(weight, period), seed, Smooth(later, moved, period))
  {
    var p, q := period as real, (period - 1) as real;
    Distribute(weight, seed, later, q);
    QuotientOfSum(weight * q * seed, later * q + moved, p);
    QuotientOfProduct(weight * q, seed, p);
  }

  lemma Distribute(weight: real, seed: real, later: real, q: real)
    ensures (weight * seed + later) * q == weight * q * seed + later * q
  {
  }

  lemma QuotientOfSum(a: real, b: real, p: real)
    requires p > 0.0
    ensures (a + b) / p == a / p + b / p
  {
  }

  lemma QuotientOfProduct(a: real, b: real, p: real)
    requires p > 0.0
    ensures (a * b) / p == a / p * b
  {
  }

  /** The engine carries the seed's sum, Wilder its mean; what comes later adds the same to both. */
  lemma {:induction false} BothSplit(values: seq<real>, period: Period, up: bool, i: nat)
    requires period <= i < |values|
    ensures var weight, seed := Decay(period, i - period), Seed(values, period, up);
            && MovesAt(values, period, up, i) == Carried(weight, seed, Later(values, period, up, i))
            && WilderAt(values, period, up, i) == Carried(weight, Mean(seed, period), Later(values, period, up, i))
  {
    hide Smooth, Moved, Mean, Carried, Decay, Faded;
    var seed := Seed(values, period, up);
    if i == period {
      CarriedAtOnce(period, seed);
      CarriedAtOnce(period, Mean(seed, period));
    } else {
      var steps, moved := i - 1 - period, Moved(values, up, i);
      BothSplit(values, period, up, i - 1);
      DecayStep(period, steps);
      SmoothSplits(Decay(period, steps), seed, Later(values, period, up, i - 1), moved, period);
      SmoothSplits(Decay(period, steps), Mean(seed, period), Later(values, period, up, i - 1), moved, period);
      assert MovesAt(values, period, up, i) == Smooth(MovesAt(values, period, up, i - 1), moved, period);
    }
  }

  // ----- When the two indices agree -----

  /** Two indices are equal exactly when gains and losses are in the same proportion. */
  lemma SameIndex(g1: real, l1: real, g2: real, l2: real)
    requires g1 >= 0.0 && l1 >= 0.0 && g2 >= 0.0 && l2 >= 0.0
    requires l1 == 0.0 <==> l2 == 0.0
    ensures RsiOf(g1, l1) == RsiOf(g2, l2) <==> g1 * l2 == g2 * l1
  {
    if l1 > 0.0 {
      RsiRange(g1, l1);
      RsiRange(g2, l2);
      SameReciprocal(1.0 + g1 / l1, 1.0 + g2 / l2);
      SameRatio(g1, l1, g2, l2);
    }
  }

  lemma SameReciprocal(a: real, b: real)
    requires a > 0.0 && b > 0.0
    ensures 100.0 / a == 100.0 / b <==> a == b
  {
    if 100.0 / a == 100.0 / b {
      assert 100.0 == 100.0 / a * a && 100.0 == 100.0 / b * b;
      assert 100.0 / a * (a - b) == 0.0;
    }
  }

  lemma SameRatio(a: real, b: real, c: real, d: real)
    requires b > 0.0 && d > 0.0
    ensures a / b == c / d <==> a * d == c * b
  {
    var x, y := a / b, c / d;
    assert a == x * b && c == y * d;
    assert a * d == x * (b * d) && c * b == y * (b * d);
    assert b * d > 0.0;
    if x * (b * d) == y * (b * d) {
      assert (x - y) * (b * d) == 0.0;
    }
  }

  lemma ZeroProduct(a: real, d: real)
    requires a > 0.0
    ensures a * d == 0.0 <==> d == 0.0
  {
  }

  /** Carrying a seed's mean or its sum gives nothing exactly when both give nothing. */
  lemma NothingCarried(weight: real, p: real, mean: real, later: real)
    requires weight > 0.0 && p > 0.0 && mean >= 0.0 && later >= 0.0
    ensures Carried(weight, mean * p, later) == 0.0 <==> Carried(weight, mean, later) == 0.0
  {
    assert weight * (mean * p) == weight * mean * p;
    assert weight * mean >= 0.0;
    ZeroProduct(p, weight * mean);
  }

  lemma CrossDifference(weight: real, p: real, g: real, l: real, laterGain: real, laterLoss: real)
    ensures Carried(weight, g * p, laterGain) * Carried(weight, l, laterLoss)
            - Carried(weight, g, laterGain) * Carried(weight, l * p, laterLoss)
         == weight * (p - 1.0) * (g * laterLoss - l * laterGain)
  {
  }

  /** With a positive weight, carrying sums or means gives the same proportion exactly when seed and later moves do. */
  lemma SameProportion(weight: real, period: Period, seedGain: real, seedLoss: real, laterGain: real, laterLoss: real)
    requires weight > 0.0 && period > 1
    requires seedGain >= 0.0 && seedLoss >= 0.0 && laterGain >= 0.0 && laterLoss >= 0.0
    ensures var sumGain, sumLoss := Carried(weight, seedGain, laterGain), Carried(weight, seedLoss, laterLoss);
            var meanGain := Carried(weight, Mean(seedGain, period), laterGain);
            var meanLoss := Carried(weight, Mean(seedLoss, period), laterLoss);
            && (sumLoss == 0.0 <==> meanLoss == 0.0)
            && (sumGain * meanLoss == meanGain * sumLoss <==> seedGain * laterLoss == seedLoss * laterGain)
  {
    hide Carried;
    var p := period as real;
    var g, l := Mean(seedGain, period), Mean(seedLoss, period);
    assert seedGain == g * p && seedLoss == l * p && g >= 0.0 && l >= 0.0;
    var d := g * laterLoss - l * laterGain;
    NothingCarried(weight, p, l, laterLoss);
    CrossDifference(weight, p, g, l, laterGain, laterLoss);
    assert weight * (p - 1.0) > 0.0;
    ZeroProduct(weight * (p - 1.0), d);
    assert seedGain * laterLoss - seedLoss * laterGain == p * d;
    ZeroProduct(p, d);
  }

  lemma SeedBarAgrees(values: seq<real>, period: Period)
    requires period < |values|
    ensures RsiAt(values, period, period) == WilderRsiAt(values, period, period)
  {
  }

  lemma {:induction false} PeriodOneForgets(steps: nat)
    requires steps > 0
    ensures Decay(1, steps) == 0.0
  {
  }

  lemma NothingLeft(a: real, b: real, later: real)
    ensures Carried(0.0, a, later) == Carried(0.0, b, later)
  {
  }

  lemma {:induction false} PeriodOneAgrees(values: seq<real>, up: bool, i: nat)
    requires 1 < i < |values|
    ensures MovesAt(values, 1, up, i) == WilderAt(values, 1, up, i)
  {
    hide *;
    BothSplit(values, 1, up, i);
    PeriodOneForgets(i - 1);
    NothingLeft(Seed(values, 1, up), Mean(Seed(values, 1, up), 1), Later(values, 1, up, i));
  }

  /**
    The engine's index equals Wilder's on the seed bar and for a period of 1;
    after that, exactly when the later moves are in the proportion of the seed's.
   */
  lemma {:induction false} RsiIsWilders(values: seq<real>, period: Period, i: nat)
    requires period <= i < |values|
    ensures RsiAt(values, period, i) == WilderRsiAt(values, period, i) <==>
              || period == 1 || i == period
              || Seed(values, period, true) * Later(values, period, false, i) ==
                 Seed(values, period, false) * Later(values, period, true, i)
  {
    hide Smooth, Moved, Mean, Carried, Decay, Later, Seed, MovesAt, WilderAt, RsiOf;
    if i == period {
      SeedBarAgrees(values, period);
    } else if period == 1 {
      PeriodOneAgrees(values, true, i);
      PeriodOneAgrees(values, false, i);
    } else {
      BothSplit(values, period, true, i);
      BothSplit(values, period, false, i);
      SameProportion(Decay(period, i - period), period, Seed(values, period, true), Seed(values, period, false),
                     Later(values, period, true, i), Later(values, period, false, i));
      SameIndex(MovesAt(values, period, true, i), MovesAt(values, period, false, i),
                WilderAt(values, period, true, i), WilderAt(values, period, false, i));
    }
  }

  /** One gain in the seed and one loss after it: the engine says 50, Wilder a third of 100. */
  lemma RsiIsNotWilders()
    ensures var values := [0.0, 1.0, 1.0, 0.0];
            RsiAt(values, 2, 3) == Some(50.0) && WilderRsiAt(values, 2, 3) == Some(100.0 / 3.0)
  {
    var values := [0.0, 1.0, 1.0, 0.0];
    assert MovesAt(values, 2, true, 1) == 1.0 && MovesAt(values, 2, false, 1) == 0.0;
    assert MovesAt(values, 2, true, 2) == 1.0 && MovesAt(values, 2, false, 2) == 0.0;
    assert MovesAt(values, 2, true, 3) == 0.5 && MovesAt(values, 2, false, 3) == 0.5;
    assert WilderAt(values, 2, true, 2) == 0.5 && WilderAt(values, 2, false, 2) == 0.0;
    assert WilderAt(values, 2, true, 3) == 0.25 && WilderAt(values, 2, false, 3) == 0.5;
  }
}
