/**
  Collecting the indicators a condition needs and computing their series once:
  the evaluator cannot tell the cache from recomputing every indicator, and no
  condition sees a bar later than the one it is evaluated at.
 */
module IndicatorCache {
  import opened IndicatorCatalog
  import opened IndicatorKeys
  import opened Indicators
  import opened Outcome
  import opened StrategyRuntime

  datatype Reference = Reference(kind: Kind, output: Output, params: Params)

  /** The collectors' `Map`, by key. */
  type References = map<string, Reference>

  function CollectOperand(env: Env, operand: Operand, refs: References): References {
    if operand.IndicatorOperand? then
      refs[KeyOf(env, operand) := Reference(operand.kind, operand.output, operand.params)]
    else refs
  }

  function CollectValue(env: Env, e: ValueExpression, refs: References): References {
    match e
    case OperandValue(operand) => CollectOperand(env, operand, refs)
    case HistoryRef(inner, _) => CollectValue(env, inner, refs)
    case Math(_, left, right) => CollectValue(env, right, CollectValue(env, left, refs))
    case Negate(inner) => CollectValue(env, inner, refs)
    case AbsoluteValue(inner) => CollectValue(env, inner, refs)
  }

  function CollectCondition(env: Env, c: Condition, refs: References): References
    decreases c, 1
  {
    match c
    case BooleanConstant(_) => refs
    case Not(inner) => CollectCondition(env, inner, refs)
    case AllOf(conditions) => CollectFirst(env, c, conditions, |conditions|, refs)
    case AnyOf(conditions) => CollectFirst(env, c, conditions, |conditions|, refs)
    case Comparison(_, left, right) => CollectValue(env, right, CollectValue(env, left, refs))
  }

  /** The first n of a condition's parts, in order. */
  function CollectFirst(env: Env, c: Condition, conditions: seq<Condition>, n: nat, refs: References): References
    requires c == AllOf(conditions) || c == AnyOf(conditions)
    requires n <= |conditions|
    decreases c, 0, n
  {
    if n == 0 then refs
    else CollectCondition(env, conditions[n - 1], CollectFirst(env, c, conditions, n - 1, refs))
  }

  function BuildSeriesMap(env: Env, candles: seq<Candle>, refs: References): SeriesMap {
    map key | key in refs :: Values(env.sqrt, candles, refs[key].kind, refs[key].output, refs[key].params)
  }

  // ----- The collectors and the builder, in place -----

  class ReferenceTable {
    var refs: References

    constructor ()
      ensures refs == map[]
    {
      refs := map[];
    }

    method FromOperand(env: Env, operand: Operand)
      modifies this
      ensures refs == CollectOperand(env, operand, old(refs))
    {
      if operand.IndicatorOperand? {
        refs := refs[KeyOf(env, operand) := Reference(operand.kind, operand.output, operand.params)];
      }
    }

    method FromValue(env: Env, e: ValueExpression)
      modifies this
      ensures refs == CollectValue(env, e, old(refs))
      decreases e
    {
      match e
      case OperandValue(operand) => FromOperand(env, operand);
      case HistoryRef(inner, _) => FromValue(env, inner);
      case Math(_, left, right) =>
        FromValue(env, left);
        FromValue(env, right);
      case Negate(inner) => FromValue(env, inner);
      case AbsoluteValue(inner) => FromValue(env, inner);
    }

    method FromCondition(env: Env, c: Condition)
      modifies this
      ensures refs == CollectCondition(env, c, old(refs))
      decreases c
    {
      hide CollectValue, CollectOperand;
      match c
      case BooleanConstant(_) =>
      case Not(inner) => FromCondition(env, inner);
      case Comparison(_, left, right) =>
        FromValue(env, left);
        FromValue(env, right);
      case _ =>
        for i := 0 to |c.conditions|
          invariant refs == CollectFirst(env, c, c.conditions, i, old(refs))
        {
          FromCondition(env, c.conditions[i]);
        }
    }

    method BuildSeries(env: Env, candles: seq<Candle>) returns (series: SeriesMap)
      ensures series == BuildSeriesMap(env, candles, refs)
    {
      series := map[];
      var left := refs.Keys;
      while left != {}
        invariant left <= refs.Keys && series.Keys == refs.Keys - left
        invariant forall key :: key in series ==> series[key] == BuildSeriesMap(env, candles, refs)[key]
        decreases |left|
      {
        var key :| key in left;
        var values := BuildIndicatorValues(env.sqrt, candles, refs[key].kind, refs[key].output, refs[key].params);
        series := series[key := values];
        left := left - {key};
      }
    }
  }

  // ----- Which operands an expression reads -----

  ghost predicate Reads(e: ValueExpression, operand: Operand) {
    match e
    case OperandValue(o) => o == operand
    case HistoryRef(inner, _) => Reads(inner, operand)
    case Math(_, left, right) => Reads(left, operand) || Reads(right, operand)
    case Negate(inner) => Reads(inner, operand)
    case AbsoluteValue(inner) => Reads(inner, operand)
  }

  ghost predicate Mentions(c: Condition, operand: Operand) {
    match c
    case BooleanConstant(_) => false
    case Not(inner) => Mentions(inner, operand)
    case AllOf(conditions) => exists i :: 0 <= i < |conditions| && Mentions(conditions[i], operand)
    case AnyOf(conditions) => exists i :: 0 <= i < |conditions| && Mentions(conditions[i], operand)
    case Comparison(_, left, right) => Reads(left, operand) || Reads(right, operand)
  }

  /** The expression's indicators are given only these numbers. */
  ghost predicate ReadsWithin(e: ValueExpression, numbers: set<real>) {
    forall operand :: Reads(e, operand) ==> OperandNumbers(operand) <= numbers
  }

  ghost predicate MentionsWithin(c: Condition, numbers: set<real>) {
    forall operand :: Mentions(c, operand) ==> OperandNumbers(operand) <= numbers
  }

  lemma CompiledRuleWithin(rule: Rule, numbers: set<real>)
    requires OperandNumbers(rule.left) + OperandNumbers(rule.right) <= numbers
    ensures MentionsWithin(CompileRule(rule), numbers)
  {
  }

  lemma CompiledRulesWithin(rules: seq<Rule>, numbers: set<real>)
    requires forall rule :: rule in rules ==> OperandNumbers(rule.left) + OperandNumbers(rule.right) <= numbers
    ensures MentionsWithin(AllOf(CompileRules(rules)), numbers)
  {
    forall i | 0 <= i < |rules| ensures MentionsWithin(CompileRules(rules)[i], numbers) {
      CompiledRuleWithin(rules[i], numbers);
    }
  }

  lemma {:induction false} PopulatedAreGroups(groups: seq<RuleGroup>)
    ensures forall group :: group in Populated(groups) ==> group in groups
  {
    if |groups| > 0 {
      PopulatedAreGroups(groups[1..]);
    }
  }

  /** Compiled rule groups mention no number that the groups do not. */
  lemma CompiledWithin(groups: seq<RuleGroup>, numbers: set<real>)
    requires NumbersIn(groups) <= numbers
    ensures MentionsWithin(CompileGroups(groups), numbers)
  {
    var populated := Populated(groups);
    PopulatedAreGroups(groups);
    forall group | group in populated ensures MentionsWithin(AllOf(CompileRules(group.rules)), numbers) {
      forall rule, x | rule in group.rules && x in OperandNumbers(rule.left) + OperandNumbers(rule.right)
        ensures x in numbers
      {
        assert x in NumbersIn(groups);
      }
      CompiledRulesWithin(group.rules, numbers);
    }
    if |populated| == 1 && |populated[0].rules| == 1 {
      assert CompileGroups(groups) == CompileRules(populated[0].rules)[0];
      PartMentionsWithin(AllOf(CompileRules(populated[0].rules)), CompileRules(populated[0].rules), 0, numbers);
    } else if |populated| > 1 {
      forall operand | Mentions(CompileGroups(groups), operand) ensures OperandNumbers(operand) <= numbers {
        var i :| 0 <= i < |populated| && Mentions(AllOf(CompileRules(populated[i].rules)), operand);
        assert populated[i] in populated;
      }
    }
  }

  /** Each entry is the reference its key was made from, and is given only these numbers. */
  ghost predicate WellKeyed(env: Env, refs: References, numbers: set<real>) {
    forall key :: key in refs ==>
      && key == IndicatorKey(env.show, refs[key].kind, refs[key].output, refs[key].params)
      && NumbersOf(refs[key].params) <= numbers
  }

  ghost predicate Holds(env: Env, refs: References, operand: Operand) {
    operand.IndicatorOperand? ==> KeyOf(env, operand) in refs
  }

  /** Every indicator the condition mentions has been collected. */
  ghost predicate HoldsAll(env: Env, refs: References, c: Condition) {
    forall operand :: Mentions(c, operand) ==> Holds(env, refs, operand)
  }

  lemma HoldsMore(env: Env, refs: References, more: References, c: Condition)
    requires HoldsAll(env, refs, c) && refs.Keys <= more.Keys
    ensures HoldsAll(env, more, c)
  {
  }

  lemma {:induction false} CollectValueFinds(env: Env, e: ValueExpression, refs: References, numbers: set<real>)
    requires WellKeyed(env, refs, numbers) && ReadsWithin(e, numbers)
    ensures WellKeyed(env, CollectValue(env, e, refs), numbers)
    ensures refs.Keys <= CollectValue(env, e, refs).Keys
    ensures forall operand :: Reads(e, operand) ==> Holds(env, CollectValue(env, e, refs), operand)
  {
    hide IndicatorKey, NumbersOf;
    match e
    case OperandValue(operand) => assert Reads(e, operand);
    case HistoryRef(inner, _) => CollectValueFinds(env, inner, refs, numbers);
    case Math(_, left, right) =>
      CollectValueFinds(env, left, refs, numbers);
      CollectValueFinds(env, right, CollectValue(env, left, refs), numbers);
    case Negate(inner) => CollectValueFinds(env, inner, refs, numbers);
    case AbsoluteValue(inner) => CollectValueFinds(env, inner, refs, numbers);
  }

  /** Every indicator a condition mentions is collected, and nothing collected earlier is lost. */
  lemma {:induction false} CollectConditionFinds(env: Env, c: Condition, refs: References, numbers: set<real>)
    requires WellKeyed(env, refs, numbers) && MentionsWithin(c, numbers)
    ensures WellKeyed(env, CollectCondition(env, c, refs), numbers)
    ensures refs.Keys <= CollectCondition(env, c, refs).Keys
    ensures HoldsAll(env, CollectCondition(env, c, refs), c)
    decreases c, 1
  {
    hide WellKeyed, CollectValue, OperandNumbers, Reads;
    match c
    case BooleanConstant(_) =>
    case Not(inner) => CollectConditionFinds(env, inner, refs, numbers);
    case AllOf(conditions) => CollectFirstFinds(env, c, conditions, |conditions|, refs, numbers);
    case AnyOf(conditions) => CollectFirstFinds(env, c, conditions, |conditions|, refs, numbers);
    case Comparison(_, left, right) =>
      CollectValueFinds(env, left, refs, numbers);
      CollectValueFinds(env, right, CollectValue(env, left, refs), numbers);
  }

  lemma PartMentionsWithin(c: Condition, conditions: seq<Condition>, i: nat, numbers: set<real>)
    requires c == AllOf(conditions) || c == AnyOf(conditions)
    requires i < |conditions| && MentionsWithin(c, numbers)
    ensures MentionsWithin(conditions[i], numbers)
  {
  }

  lemma {:induction false} CollectFirstFinds(env: Env, c: Condition, conditions: seq<Condition>, n: nat,
                                             refs: References, numbers: set<real>)
    requires c == AllOf(conditions) || c == AnyOf(conditions)
    requires n <= |conditions| && WellKeyed(env, refs, numbers) && MentionsWithin(c, numbers)
    ensures WellKeyed(env, CollectFirst(env, c, conditions, n, refs), numbers)
    ensures refs.Keys <= CollectFirst(env, c, conditions, n, refs).Keys
    ensures forall i :: 0 <= i < n ==> HoldsAll(env, CollectFirst(env, c, conditions, n, refs), conditions[i])
    decreases c, 0, n
  {
    hide HoldsAll, WellKeyed, MentionsWithin, CollectCondition;
    if n > 0 {
      var before, after := CollectFirst(env, c, conditions, n - 1, refs), CollectFirst(env, c, conditions, n, refs);
      CollectFirstFinds(env, c, conditions, n - 1, refs, numbers);
      PartMentionsWithin(c, conditions, n - 1, numbers);
      CollectConditionFinds(env, conditions[n - 1], before, numbers);
      forall i | 0 <= i < n - 1 ensures HoldsAll(env, after, conditions[i]) {
        HoldsMore(env, before, after, conditions[i]);
      }
    }
  }

  // ----- Lookups that agree give the same verdicts -----

  lemma {:induction false} ValuesAgree(a: Lookup, b: Lookup, e: ValueExpression, index: int)
    requires forall operand, i :: Reads(e, operand) ==> a(operand, i) == b(operand, i)
    ensures EvalValue(a, e, index) == EvalValue(b, e, index)
  {
    match e
    case OperandValue(operand) => assert Reads(e, operand);
    case HistoryRef(inner, barsAgo) => ValuesAgree(a, b, inner, index - barsAgo);
    case Math(_, left, right) =>
      ValuesAgree(a, b, left, index);
      ValuesAgree(a, b, right, index);
    case Negate(inner) => ValuesAgree(a, b, inner, index);
    case AbsoluteValue(inner) => ValuesAgree(a, b, inner, index);
  }

  lemma {:induction false} VerdictsAgree(a: Lookup, b: Lookup, c: Condition, index: int)
    requires forall operand, i :: Mentions(c, operand) ==> a(operand, i) == b(operand, i)
    ensures EvalCondition(a, c, index) <==> EvalCondition(b, c, index)
  {
    match c
    case BooleanConstant(_) =>
    case Not(inner) => VerdictsAgree(a, b, inner, index);
    case Comparison(_, left, right) =>
      ValuesAgree(a, b, left, index);
      ValuesAgree(a, b, left, index - 1);
      ValuesAgree(a, b, right, index);
      ValuesAgree(a, b, right, index - 1);
    case AllOf(conditions) =>
      forall k | 0 <= k < |conditions|
        ensures EvalCondition(a, conditions[k], index) <==> EvalCondition(b, conditions[k], index)
      {
        assert forall operand :: Mentions(conditions[k], operand) ==> Mentions(c, operand);
        VerdictsAgree(a, b, conditions[k], index);
      }
    case AnyOf(conditions) =>
      forall k | 0 <= k < |conditions|
        ensures EvalCondition(a, conditions[k], index) <==> EvalCondition(b, conditions[k], index)
      {
        assert forall operand :: Mentions(conditions[k], operand) ==> Mentions(c, operand);
        VerdictsAgree(a, b, conditions[k], index);
      }
  }

  /** A collected indicator's cached series is the one its operand asks for. */
  lemma CachedOperand(env: Env, candles: seq<Candle>, refs: References, numbers: set<real>, operand: Operand,
                      index: int)
    requires Prints(env.show, numbers) && WellKeyed(env, refs, numbers)
    requires Holds(env, refs, operand) && OperandNumbers(operand) <= numbers
    ensures ResolveOperand(env, candles, BuildSeriesMap(env, candles, refs), operand, index) ==
            RecomputeOperand(env, candles, operand, index)
  {
    hide IndicatorKey, NumbersOf, Prints, Values;
    if operand.IndicatorOperand? {
      var ref := refs[KeyOf(env, operand)];
      KeysIdentifySeries(env.show, numbers, operand.kind, operand.output, operand.params,
                         ref.kind, ref.output, ref.params);
    }
  }

  /**
    The cache is transparent: with the series of every indicator a condition
    mentions among those collected, its verdict is that of recomputing each
    indicator on the spot.
   */
  lemma {:induction false} CacheIsTransparent(env: Env, candles: seq<Candle>, refs: References, numbers: set<real>,
                                              c: Condition, index: int)
    requires Prints(env.show, numbers) && WellKeyed(env, refs, numbers)
    requires HoldsAll(env, refs, c) && MentionsWithin(c, numbers)
    ensures EvalCondition(Cached(env, candles, BuildSeriesMap(env, candles, refs)), c, index) <==>
            EvalCondition(Recomputed(env, candles), c, index)
  {
    var cached := Cached(env, candles, BuildSeriesMap(env, candles, refs));
    forall operand, i | Mentions(c, operand) ensures cached(operand, i) == Recomputed(env, candles)(operand, i) {
      CachedOperand(env, candles, refs, numbers, operand, i);
    }
    VerdictsAgree(cached, Recomputed(env, candles), c, index);
  }

  // ----- No look-ahead -----

  /** Evaluated at a bar, the expression reads no bar more than `ahead` later. */
  ghost predicate ReadsUpTo(e: ValueExpression, ahead: int)
    decreases e
  {
    match e
    case OperandValue(operand) => operand.ConstantOperand? || TargetIndex(operand, 0) <= ahead
    case HistoryRef(inner, barsAgo) => ReadsUpTo(inner, ahead + barsAgo)
    case Math(_, left, right) => ReadsUpTo(left, ahead) && ReadsUpTo(right, ahead)
    case Negate(inner) => ReadsUpTo(inner, ahead)
    case AbsoluteValue(inner) => ReadsUpTo(inner, ahead)
  }

  ghost predicate NeverAhead(c: Condition) {
    match c
    case BooleanConstant(_) => true
    case Not(inner) => NeverAhead(inner)
    case AllOf(conditions) => forall i :: 0 <= i < |conditions| ==> NeverAhead(conditions[i])
    case AnyOf(conditions) => forall i :: 0 <= i < |conditions| ==> NeverAhead(conditions[i])
    case Comparison(_, left, right) => ReadsUpTo(left, 0) && ReadsUpTo(right, 0)
  }

  ghost predicate HistoryCountsBack(e: ValueExpression) {
    match e
    case OperandValue(_) => true
    case HistoryRef(inner, barsAgo) => barsAgo >= 0 && HistoryCountsBack(inner)
    case Math(_, left, right) => HistoryCountsBack(left) && HistoryCountsBack(right)
    case Negate(inner) => HistoryCountsBack(inner)
    case AbsoluteValue(inner) => HistoryCountsBack(inner)
  }

  /** Non-negative history offsets are enough; an operand's own offset never looks ahead. */
  lemma {:induction false} CountingBackIsNeverAhead(e: ValueExpression, ahead: nat)
    requires HistoryCountsBack(e)
    ensures ReadsUpTo(e, ahead)
  {
    match e
    case OperandValue(_) =>
    case HistoryRef(inner, barsAgo) => CountingBackIsNeverAhead(inner, ahead + barsAgo);
    case Math(_, left, right) =>
      CountingBackIsNeverAhead(left, ahead);
      CountingBackIsNeverAhead(right, ahead);
    case Negate(inner) => CountingBackIsNeverAhead(inner, ahead);
    case AbsoluteValue(inner) => CountingBackIsNeverAhead(inner, ahead);
  }

  function Engine(env: Env, candles: seq<Candle>, refs: References): Lookup {
    Cached(env, candles, BuildSeriesMap(env, candles, refs))
  }

  lemma OperandsSeeOnlyThePast(env: Env, candles: seq<Candle>, n: nat, refs: References, operand: Operand, index: int)
    requires n <= |candles|
    requires operand.ConstantOperand? || TargetIndex(operand, index) < n
    ensures Engine(env, candles[..n], refs)(operand, index) == Engine(env, candles, refs)(operand, index)
  {
    if operand.IndicatorOperand? && KeyOf(env, operand) in refs {
      var ref := refs[KeyOf(env, operand)];
      IndicatorsNeverLookAhead(env.sqrt, candles, n, ref.kind, ref.output, ref.params);
    }
  }

  /** A value that reads no further than bar n is the same over the first n candles as over all of them. */
  lemma {:induction false} ValuesSeeOnlyThePast(env: Env, candles: seq<Candle>, n: nat, refs: References,
                                                e: ValueExpression, ahead: int, index: int)
    requires n <= |candles| && ReadsUpTo(e, ahead) && index + ahead < n
    ensures EvalValue(Engine(env, candles[..n], refs), e, index) == EvalValue(Engine(env, candles, refs), e, index)
    decreases e
  {
    match e
    case OperandValue(operand) => OperandsSeeOnlyThePast(env, candles, n, refs, operand, index);
    case HistoryRef(inner, barsAgo) =>
      ValuesSeeOnlyThePast(env, candles, n, refs, inner, ahead + barsAgo, index - barsAgo);
    case Math(_, left, right) =>
      ValuesSeeOnlyThePast(env, candles, n, refs, left, ahead, index);
      ValuesSeeOnlyThePast(env, candles, n, refs, right, ahead, index);
    case Negate(inner) => ValuesSeeOnlyThePast(env, candles, n, refs, inner, ahead, index);
    case AbsoluteValue(inner) => ValuesSeeOnlyThePast(env, candles, n, refs, inner, ahead, index);
  }

  /** No look-ahead: a verdict at bar i is the same when the series are built from candles 0..i alone. */
  lemma {:induction false} VerdictsSeeOnlyThePast(env: Env, candles: seq<Candle>, refs: References, c: Condition,
                                                  index: nat)
    requires index < |candles| && NeverAhead(c)
    ensures EvalCondition(Engine(env, candles[..index + 1], refs), c, index) <==>
            EvalCondition(Engine(env, candles, refs), c, index)
    decreases c
  {
    match c
    case BooleanConstant(_) =>
    case Not(inner) => VerdictsSeeOnlyThePast(env, candles, refs, inner, index);
    case AllOf(conditions) =>
      forall k | 0 <= k < |conditions|
        ensures EvalCondition(Engine(env, candles[..index + 1], refs), conditions[k], index) <==>
                EvalCondition(Engine(env, candles, refs), conditions[k], index)
      {
        VerdictsSeeOnlyThePast(env, candles, refs, conditions[k], index);
      }
    case AnyOf(conditions) =>
      forall k | 0 <= k < |conditions|
        ensures EvalCondition(Engine(env, candles[..index + 1], refs), conditions[k], index) <==>
                EvalCondition(Engine(env, candles, refs), conditions[k], index)
      {
        VerdictsSeeOnlyThePast(env, candles, refs, conditions[k], index);
      }
    case Comparison(_, left, right) =>
      ValuesSeeOnlyThePast(env, candles, index + 1, refs, left, 0, index);
      ValuesSeeOnlyThePast(env, candles, index + 1, refs, left, 0, index - 1);
      ValuesSeeOnlyThePast(env, candles, index + 1, refs, right, 0, index);
      ValuesSeeOnlyThePast(env, candles, index + 1, refs, right, 0, index - 1);
  }

  /** History references, in any number, around a price. */
  predicate IsPastPrice(e: ValueExpression) {
    match e
    case OperandValue(operand) => operand.PriceOperand?
    case HistoryRef(inner, _) => IsPastPrice(inner)
    case _ => false
  }

  /** How many bars before the present one its price lies: all the offsets together. */
  function BarsBack(e: ValueExpression): int
    requires IsPastPrice(e)
  {
    match e
    case OperandValue(operand) => 0 - TargetIndex(operand, 0)
    case HistoryRef(inner, barsAgo) => barsAgo + BarsBack(inner)
  }

  /** From this bar on, no reference along the way falls before the first bar. */
  function Reach(e: ValueExpression): (bars: nat)
    requires IsPastPrice(e)
    ensures bars >= BarsBack(e)
  {
    match e
    case OperandValue(operand) => 0 - TargetIndex(operand, 0)
    case HistoryRef(inner, barsAgo) => (if barsAgo > 0 then barsAgo else 0) + Reach(inner)
  }

  lemma {:induction false} ReadsItsPrice(env: Env, candles: seq<Candle>, refs: References, e: ValueExpression,
                                         index: int)
    requires IsPastPrice(e) && index >= Reach(e)
    ensures EvalValue(Engine(env, candles, refs), e, index).Some? <==> index - BarsBack(e) < |candles|
    decreases e
  {
    match e
    case OperandValue(_) =>
    case HistoryRef(inner, barsAgo) => ReadsItsPrice(env, candles, refs, inner, index - barsAgo);
  }

  lemma {:induction false} ReadsAsFarAsItsOffsets(e: ValueExpression, ahead: int)
    requires IsPastPrice(e)
    ensures ReadsUpTo(e, ahead) <==> BarsBack(e) >= 0 - ahead
    decreases e
  {
    match e
    case OperandValue(_) =>
    case HistoryRef(inner, barsAgo) => ReadsAsFarAsItsOffsets(inner, ahead + barsAgo);
  }

  predicate SameWithoutTheFuture(env: Env, refs: References, e: ValueExpression, candles: seq<Candle>, index: nat)
    requires index < |candles|
  {
    EvalValue(Engine(env, candles[..index + 1], refs), e, index) == EvalValue(Engine(env, candles, refs), e, index)
  }

  /**
    A price referred to through history looks ahead, at some bar of some candles,
    exactly when its offsets add up to less than nothing.
   */
  lemma {:induction false} NegativeHistoryLooksAhead(env: Env, refs: References, e: ValueExpression)
    requires IsPastPrice(e)
    ensures (forall candles, index: nat | index < |candles| ::
               SameWithoutTheFuture(env, refs, e, candles, index)) <==> BarsBack(e) >= 0
  {
    if BarsBack(e) >= 0 {
      ReadsAsFarAsItsOffsets(e, 0);
      forall candles, index: nat | index < |candles| ensures SameWithoutTheFuture(env, refs, e, candles, index) {
        ValuesSeeOnlyThePast(env, candles, index + 1, refs, e, 0, index);
      }
    } else {
      var index := Reach(e);
      var candles := seq(index - BarsBack(e) + 1, _ => Candle(0, 1.0, 1.0, 1.0, 1.0, 1.0));
      ReadsItsPrice(env, candles, refs, e, index);
      ReadsItsPrice(env, candles[..index + 1], refs, e, index);
      assert !SameWithoutTheFuture(env, refs, e, candles, index);
    }
  }
}
