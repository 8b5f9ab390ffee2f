/**
  Rule groups, the expressions they compile to, and the evaluator. The evaluator
  is written over a lookup of operand values, so that the cached lookup of the
  engine and a direct recomputation can be compared.
 */
module StrategyRuntime {
  import opened IndicatorCatalog
  import opened IndicatorKeys
  import opened Indicators
  import opened Outcome

  datatype Operand =
    | PriceOperand(field: PriceField, barsAgo: Option<int>)
    | IndicatorOperand(kind: Kind, output: Output, params: Params, barsAgo: Option<int>)
    | ConstantOperand(value: real)

  datatype Operator = Gt | Ge | Lt | Le | EqualTo | NotEqualTo | CrossesAbove | CrossesBelow

  datatype Rule = Rule(left: Operand, operator: Operator, right: Operand)

  datatype RuleGroup = RuleGroup(rules: seq<Rule>)

  datatype MathOperator = Plus | Times | Less | Over

  datatype ValueExpression =
    | OperandValue(operand: Operand)
    | HistoryRef(expression: ValueExpression, barsAgo: int)
    | Math(operator: MathOperator, left: ValueExpression, right: ValueExpression)
    | Negate(expression: ValueExpression)
    | AbsoluteValue(expression: ValueExpression)

  datatype Condition =
    | Comparison(operator: Operator, left: ValueExpression, right: ValueExpression)
    | AllOf(conditions: seq<Condition>)
    | AnyOf(conditions: seq<Condition>)
    | Not(condition: Condition)
    | BooleanConstant(value: bool)

  /** How numbers print in cache keys, and the square root. */
  datatype Env = Env(show: NumberText, sqrt: real -> real)

  // ----- Compilation -----

  function CompileRule(rule: Rule): Condition {
    Comparison(rule.operator, OperandValue(rule.left), OperandValue(rule.right))
  }

  function CompileRules(rules: seq<Rule>): seq<Condition> {
    seq(|rules|, i requires 0 <= i < |rules| => CompileRule(rules[i]))
  }

  function Populated(groups: seq<RuleGroup>): seq<RuleGroup> {
    if |groups| == 0 then []
    else (if |groups[0].rules| > 0 then [groups[0]] else []) + Populated(groups[1..])
  }

  function CompileGroups(groups: seq<RuleGroup>): Condition {
    var populated := Populated(groups);
    if |populated| == 0 then BooleanConstant(false)
    else if |populated| == 1 then
      if |populated[0].rules| == 1 then CompileRule(populated[0].rules[0])
      else AllOf(CompileRules(populated[0].rules))
    else AnyOf(seq(|populated|, i requires 0 <= i < |populated| => AllOf(CompileRules(populated[i].rules))))
  }

  // ----- Evaluation -----

  type Lookup = (Operand, int) -> Option<real>

  function EvalMath(operator: MathOperator, left: real, right: real): Option<real> {
    match operator
    case Plus => Some(left + right)
    case Less => Some(left - right)
    case Times => Some(left * right)
    case Over => if right == 0.0 then None else Some(left / right)
  }

  predicate Compare(leftNow: Option<real>, leftBefore: Option<real>, rightNow: Option<real>, rightBefore: Option<real>,
                    operator: Operator)
  {
    leftNow.Some? && rightNow.Some? &&
    match operator
    case Gt => leftNow.value > rightNow.value
    case Ge => leftNow.value >= rightNow.value
    case Lt => leftNow.value < rightNow.value
    case Le => leftNow.value <= rightNow.value
    case EqualTo => leftNow.value == rightNow.value
    case NotEqualTo => leftNow.value != rightNow.value
    case CrossesAbove =>
      leftBefore.Some? && rightBefore.Some? && leftBefore.value <= rightBefore.value && leftNow.value > rightNow.value
    case CrossesBelow =>
      leftBefore.Some? && rightBefore.Some? && leftBefore.value >= rightBefore.value && leftNow.value < rightNow.value
  }

  function EvalValue(lookup: Lookup, e: ValueExpression, index: int): Option<real>
    decreases e
  {
    match e
    case OperandValue(operand) => lookup(operand, index)
    case HistoryRef(inner, barsAgo) => if index - barsAgo < 0 then None else EvalValue(lookup, inner, index - barsAgo)
    case Math(operator, left, right) =>
      var l, r := EvalValue(lookup, left, index), EvalValue(lookup, right, index);
      if l.None? || r.None? then None else EvalMath(operator, l.value, r.value)
    case Negate(inner) =>
      var v := EvalValue(lookup, inner, index);
      if v.None? then None else Some(0.0 - v.value)
    case AbsoluteValue(inner) =>
      var v := EvalValue(lookup, inner, index);
      if v.None? then None else Some(Abs(v.value))
  }

  predicate EvalCondition(lookup: Lookup, c: Condition, index: int)
    decreases c
  {
    match c
    case BooleanConstant(value) => value
    case Not(inner) => !EvalCondition(lookup, inner, index)
    case AllOf(conditions) => forall i :: 0 <= i < |conditions| ==> EvalCondition(lookup, conditions[i], index)
    case AnyOf(conditions) => exists i :: 0 <= i < |conditions| && EvalCondition(lookup, conditions[i], index)
    case Comparison(operator, left, right) =>
      Compare(EvalValue(lookup, left, index), if index > 0 then EvalValue(lookup, left, index - 1) else None,
              EvalValue(lookup, right, index), if index > 0 then EvalValue(lookup, right, index - 1) else None,
              operator)
  }

  /** The bar an operand reads: its own offset counts back, never forward. */
  function TargetIndex(operand: Operand, index: int): int {
    if operand.ConstantOperand? then index
    else
      var barsAgo := if operand.barsAgo.Some? then operand.barsAgo.value else 0;
      index - if barsAgo > 0 then barsAgo else 0
  }

  function EntryAt(series: Series, index: int): Option<real> {
    if 0 <= index < |series| then series[index] else None
  }

  type SeriesMap = map<string, Series>

  function KeyOf(env: Env, operand: Operand): string
    requires operand.IndicatorOperand?
  {
    IndicatorKey(env.show, operand.kind, operand.output, operand.params)
  }

  /** The numbers that end up in an operand's cache key. */
  function OperandNumbers(operand: Operand): set<real> {
    if operand.IndicatorOperand? then NumbersOf(operand.params) else {}
  }

  /** The numbers that the indicators of some rule groups are given. */
  function NumbersIn(groups: seq<RuleGroup>): set<real> {
    set group, rule, x | group in groups && rule in group.rules &&
                         x in OperandNumbers(rule.left) + OperandNumbers(rule.right) :: x
  }

  /** The engine's lookup: indicator values come from the precomputed series. */
  function ResolveOperand(env: Env, candles: seq<Candle>, series: SeriesMap, operand: Operand,
                          index: int): Option<real> {
    var target := TargetIndex(operand, index);
    if target < 0 then None
    else
      match operand
      case ConstantOperand(value) => Some(value)
      case PriceOperand(field, _) => if target < |candles| then Some(PriceValue(candles[target], field)) else None
      case IndicatorOperand(_, _, _, _) =>
        var key := KeyOf(env, operand);
        if key in series then EntryAt(series[key], target) else None
  }

  /** The reference lookup: the indicator is recomputed on the spot. */
  function RecomputeOperand(env: Env, candles: seq<Candle>, operand: Operand, index: int): Option<real> {
    if operand.IndicatorOperand? then
      EntryAt(Values(env.sqrt, candles, operand.kind, operand.output, operand.params), TargetIndex(operand, index))
    else ResolveOperand(env, candles, map[], operand, index)
  }

  function Cached(env: Env, candles: seq<Candle>, series: SeriesMap): Lookup {
    (operand, index) => ResolveOperand(env, candles, series, operand, index)
  }

  function Recomputed(env: Env, candles: seq<Candle>): Lookup {
    (operand, index) => RecomputeOperand(env, candles, operand, index)
  }

  // ----- What a compiled strategy means -----

  predicate RuleHolds(lookup: Lookup, rule: Rule, index: int) {
    Compare(lookup(rule.left, index), if index > 0 then lookup(rule.left, index - 1) else None,
            lookup(rule.right, index), if index > 0 then lookup(rule.right, index - 1) else None,
            rule.operator)
  }

  /** A side's rules read directly: some group that has rules has all of them hold. */
  predicate RulesHold(lookup: Lookup, groups: seq<RuleGroup>, index: int) {
    exists g :: 0 <= g < |groups| && GroupHolds(lookup, groups[g], index)
  }

  predicate GroupHolds(lookup: Lookup, group: RuleGroup, index: int) {
    |group.rules| > 0 && forall r :: 0 <= r < |group.rules| ==> RuleHolds(lookup, group.rules[r], index)
  }

  lemma {:induction false} RuleMeaning(lookup: Lookup, rule: Rule, index: int)
    ensures EvalCondition(lookup, CompileRule(rule), index) <==> RuleHolds(lookup, rule, index)
  {
  }

  lemma {:induction false} RulesMeaning(lookup: Lookup, rules: seq<Rule>, index: int)
    ensures EvalCondition(lookup, AllOf(CompileRules(rules)), index) <==>
            forall r :: 0 <= r < |rules| ==> RuleHolds(lookup, rules[r], index)
  {
    var conditions := CompileRules(rules);
    forall r | 0 <= r < |rules|
      ensures EvalCondition(lookup, conditions[r], index) <==> RuleHolds(lookup, rules[r], index)
    {
      RuleMeaning(lookup, rules[r], index);
    }
  }

  lemma {:induction false} PopulatedMeaning(lookup: Lookup, groups: seq<RuleGroup>, index: int)
    ensures RulesHold(lookup, Populated(groups), index) <==> RulesHold(lookup, groups, index)
    ensures forall g :: 0 <= g < |Populated(groups)| ==> |Populated(groups)[g].rules| > 0
  {
    if |groups| > 0 {
      PopulatedMeaning(lookup, groups[1..], index);
      var rest := Populated(groups[1..]);
      var head := if |groups[0].rules| > 0 then [groups[0]] else [];
      assert Populated(groups) == head + rest;
      if RulesHold(lookup, groups, index) {
        var g :| 0 <= g < |groups| && GroupHolds(lookup, groups[g], index);
        if g > 0 {
          assert GroupHolds(lookup, groups[1..][g - 1], index);
          var h :| 0 <= h < |rest| && GroupHolds(lookup, rest[h], index);
          assert GroupHolds(lookup, Populated(groups)[|head| + h], index);
        } else {
          assert GroupHolds(lookup, Populated(groups)[0], index);
        }
      }
      if RulesHold(lookup, Populated(groups), index) {
        var g :| 0 <= g < |Populated(groups)| && GroupHolds(lookup, Populated(groups)[g], index);
        if g >= |head| {
          assert GroupHolds(lookup, rest[g - |head|], index);
          var h :| 0 <= h < |groups[1..]| && GroupHolds(lookup, groups[1..][h], index);
          assert GroupHolds(lookup, groups[h + 1], index);
        } else {
          assert GroupHolds(lookup, groups[0], index);
        }
      }
    }
  }

  /** Compilation preserves meaning, whatever the operands' values are. */
  lemma {:induction false} CompilationPreservesMeaning(lookup: Lookup, groups: seq<RuleGroup>, index: int)
    ensures EvalCondition(lookup, CompileGroups(groups), index) <==> RulesHold(lookup, groups, index)
  {
    PopulatedMeaning(lookup, groups, index);
    var populated := Populated(groups);
    if |populated| == 1 {
      var rules := populated[0].rules;
      RulesMeaning(lookup, rules, index);
      RuleMeaning(lookup, rules[0], index);
      assert RulesHold(lookup, populated, index) <==> GroupHolds(lookup, populated[0], index);
    } else if |populated| > 1 {
      AnyGroupMeaning(lookup, populated, index);
    }
  }

  lemma {:induction false} AnyGroupMeaning(lookup: Lookup, groups: seq<RuleGroup>, index: int)
    requires forall g :: 0 <= g < |groups| ==> |groups[g].rules| > 0
    ensures var conditions := seq(|groups|, i requires 0 <= i < |groups| => AllOf(CompileRules(groups[i].rules)));
            EvalCondition(lookup, AnyOf(conditions), index) <==> RulesHold(lookup, groups, index)
  {
    var conditions := seq(|groups|, i requires 0 <= i < |groups| => AllOf(CompileRules(groups[i].rules)));
    forall g | 0 <= g < |groups|
      ensures EvalCondition(lookup, conditions[g], index) <==> GroupHolds(lookup, groups[g], index)
    {
      RulesMeaning(lookup, groups[g].rules, index);
    }
  }
}
