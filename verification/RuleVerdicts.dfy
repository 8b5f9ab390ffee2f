/** What the verdicts of compiled rules, and the values they compare, mean in numbers. */
module RuleVerdicts {
  import opened IndicatorCatalog
  import opened Indicators
  import opened Outcome
  import opened StrategyRuntime

  predicate Verdict(lookup: Lookup, left: Operand, operator: Operator, right: Operand, index: int) {
    EvalCondition(lookup, CompileRule(Rule(left, operator, right)), index)
  }

  // ----- Comparisons -----

  /** Where both operands have values, six of the operators are the relations of their names on them. */
  lemma ComparisonsMeanRelations(lookup: Lookup, left: Operand, right: Operand, index: int)
    requires lookup(left, index).Some? && lookup(right, index).Some?
    ensures var a, b := lookup(left, index).value, lookup(right, index).value;
            && (Verdict(lookup, left, Gt, right, index) <==> a > b)
            && (Verdict(lookup, left, Ge, right, index) <==> a >= b)
            && (Verdict(lookup, left, Lt, right, index) <==> a < b)
            && (Verdict(lookup, left, Le, right, index) <==> a <= b)
            && (Verdict(lookup, left, EqualTo, right, index) <==> a == b)
            && (Verdict(lookup, left, NotEqualTo, right, index) <==> a != b)
  {
  }

  /** A blank on either side makes every operator false. */
  lemma BlanksAreFalse(lookup: Lookup, left: Operand, operator: Operator, right: Operand, index: int)
    requires lookup(left, index).None? || lookup(right, index).None?
    ensures !Verdict(lookup, left, operator, right, index)
  {
  }

  // ----- Crossings -----

  /** Values for both operands at every bar from i to j. */
  ghost predicate Unbroken(lookup: Lookup, left: Operand, right: Operand, i: nat, j: nat) {
    forall k :: i <= k <= j ==> lookup(left, k).Some? && lookup(right, k).Some?
  }

  /** A crossing is a change from one bar to the next: above from not above, below from not below. */
  lemma CrossingsAreChanges(lookup: Lookup, left: Operand, right: Operand, m: int)
    ensures Verdict(lookup, left, CrossesAbove, right, m) <==>
              m > 0 && Unbroken(lookup, left, right, m - 1, m)
              && lookup(left, m - 1).value <= lookup(right, m - 1).value
              && lookup(left, m).value > lookup(right, m).value
    ensures Verdict(lookup, left, CrossesBelow, right, m) <==>
              m > 0 && Unbroken(lookup, left, right, m - 1, m)
              && lookup(left, m - 1).value >= lookup(right, m - 1).value
              && lookup(left, m).value < lookup(right, m).value
  {
  }

  /** A left operand that is not above the right one, and later is, without blanks between, crosses it on the way. */
  lemma {:induction false} RisingCrosses(lookup: Lookup, left: Operand, right: Operand, i: nat, j: nat)
    requires i < j && Unbroken(lookup, left, right, i, j)
    requires lookup(left, i).value <= lookup(right, i).value && lookup(left, j).value > lookup(right, j).value
    ensures exists m :: i < m <= j && Verdict(lookup, left, CrossesAbove, right, m)
    decreases j
  {
    hide Verdict;
    if lookup(left, j - 1).value <= lookup(right, j - 1).value {
      CrossingsAreChanges(lookup, left, right, j);
    } else {
      RisingCrosses(lookup, left, right, i, j - 1);
    }
  }

  lemma {:induction false} FallingCrosses(lookup: Lookup, left: Operand, right: Operand, i: nat, j: nat)
    requires i < j && Unbroken(lookup, left, right, i, j)
    requires lookup(left, i).value >= lookup(right, i).value && lookup(left, j).value < lookup(right, j).value
    ensures exists m :: i < m <= j && Verdict(lookup, left, CrossesBelow, right, m)
    decreases j
  {
    hide Verdict;
    if lookup(left, j - 1).value >= lookup(right, j - 1).value {
      CrossingsAreChanges(lookup, left, right, j);
    } else {
      FallingCrosses(lookup, left, right, i, j - 1);
    }
  }

  /** Between two crossings from below there is one from above, or the two operands meet and part upwards again. */
  lemma CrossingsAlternate(lookup: Lookup, left: Operand, right: Operand, i: nat, j: nat)
    requires i < j && Unbroken(lookup, left, right, i, j)
    requires Verdict(lookup, left, CrossesAbove, right, i) && Verdict(lookup, left, CrossesAbove, right, j)
    ensures exists m :: i < m < j && (Verdict(lookup, left, CrossesBelow, right, m)
                                      || Verdict(lookup, left, EqualTo, right, m))
  {
    hide Verdict;
    CrossingsAreChanges(lookup, left, right, i);
    CrossingsAreChanges(lookup, left, right, j);
    ComparisonsMeanRelations(lookup, left, right, j - 1);
    if lookup(left, j - 1).value < lookup(right, j - 1).value {
      FallingCrosses(lookup, left, right, i, j - 1);
    }
  }

  // ----- Values -----

  /** Arithmetic on two expressions: blank where either is, or where it would divide by 0. */
  lemma {:induction false} ArithmeticMeans(lookup: Lookup, left: ValueExpression, right: ValueExpression, index: int)
    ensures var a, b := EvalValue(lookup, left, index), EvalValue(lookup, right, index);
            var sum, difference := EvalValue(lookup, Math(Plus, left, right), index),
                                   EvalValue(lookup, Math(Less, left, right), index);
            var product, ratio := EvalValue(lookup, Math(Times, left, right), index),
                                  EvalValue(lookup, Math(Over, left, right), index);
            if a.None? || b.None? then sum.None? && difference.None? && product.None? && ratio.None?
            else
              && sum.Some? && sum.value - b.value == a.value
              && difference.Some? && difference.value + b.value == a.value
              && product.Some? && product.value == a.value * b.value
              && (ratio.None? <==> b.value == 0.0)
              && (ratio.Some? ==> ratio.value * b.value == a.value)
  {
  }

  /** The negative and the absolute value of an expression, blank where it is. */
  lemma {:induction false} SignsMean(lookup: Lookup, e: ValueExpression, index: int)
    ensures var v, negative := EvalValue(lookup, e, index), EvalValue(lookup, Negate(e), index);
            var absolute := EvalValue(lookup, AbsoluteValue(e), index);
            if v.None? then negative.None? && absolute.None?
            else
              && negative.Some? && negative.value + v.value == 0.0
              && absolute.Some? && absolute.value >= 0.0
              && (absolute.value == v.value || absolute.value == negative.value)
  {
  }

  /** References to the past add up, and are blank before the first bar. */
  lemma HistoryAddsUp(lookup: Lookup, e: ValueExpression, m: nat, n: nat, index: int)
    ensures EvalValue(lookup, HistoryRef(HistoryRef(e, m), n), index) == EvalValue(lookup, HistoryRef(e, m + n), index)
    ensures EvalValue(lookup, HistoryRef(e, n), index) ==
            if index < n then None else EvalValue(lookup, e, index - n)
  {
    assert EvalValue(lookup, HistoryRef(HistoryRef(e, m), n), index) ==
           if index - n < 0 then None else EvalValue(lookup, HistoryRef(e, m), index - n);
  }

  /** The bars an offset counts back; one that is missing or negative counts none. */
  function Back(barsAgo: Option<int>): nat {
    if barsAgo.Some? && barsAgo.value > 0 then barsAgo.value else 0
  }

  /** The price of a candle that a field names; the averages are given by what they average. */
  ghost predicate IsPrice(field: PriceField, c: Candle, price: real) {
    match field
    case FOpen => price == c.open
    case FHigh => price == c.high
    case FLow => price == c.low
    case FClose => price == c.close
    case FVolume => price == c.volume
    case FHl2 => price + price == c.high + c.low
    case FHlc3 => price + price + price == c.high + c.low + c.close
    case FOhlc4 => price + price + price + price == c.open + c.high + c.low + c.close
  }

  /**
    An operand reads the bar its offset counts back to: of a price, that candle's;
    of an indicator, its series' entry there; blank before the first bar and after
    the last.
   */
  lemma OperandsReadBack(env: Env, candles: seq<Candle>, operand: Operand, index: nat)
    ensures var v := Recomputed(env, candles)(operand, index);
            match operand
            case ConstantOperand(value) => v == Some(value)
            case PriceOperand(field, barsAgo) =>
              var at := index - Back(barsAgo);
              if 0 <= at < |candles| then v.Some? && IsPrice(field, candles[at], v.value) else v.None?
            case IndicatorOperand(kind, output, params, barsAgo) =>
              var at := index - Back(barsAgo);
              if 0 <= at < |candles| then v == Values(env.sqrt, candles, kind, output, params)[at] else v.None?
  {
  }
}
