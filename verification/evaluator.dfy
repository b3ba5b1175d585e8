/**
 The mechanism evaluator (`treat` in the engine): it walks a raw rule expression and
 gives every node a value together with the explanation subtree that justifies it.

 Leaves are strings read by an external expression parser (variables and comparisons)
 or number literals; inner nodes are objects with exactly one known mechanism key.
 The parser, variable-name completion and fact resolution are parameters (`Context`).
 Every error the engine throws becomes an `Err`; evaluation stops at the first one,
 in the engine's evaluation order.
 */
module Evaluator {
  import opened Wrappers
  import opened JsValues
  import opened NumberText
  import opened RawRules
  import opened Folds

  // ---------------------------------------------------------------------------
  // External collaborators

  /** An operand of a parsed comparison: a variable reference, or any other parser
      object, of which only its `nodeValue` is read. */
  datatype Operand =
    | VariableOperand(fragments: seq<string>)
    | ConstantOperand(nodeValue: Val)

  /** One interpretation of a leaf string by the expression parser, by category. */
  datatype ParseResult =
    | VariableRef(fragments: seq<string>)
    | ComparisonExpr(operator: string, operands: seq<Operand>)
    | ModifiedVariable
    | CalcExpression
    | OtherCategory          // any category outside the four the engine accepts

  /** Everything the evaluator consults besides the rule text.
      `parse` returns every complete interpretation of a string (none when the parser
      rejects it); `completeName` qualifies a dotted partial name relative to a rule;
      `knownVariable`, `evaluateVariable` and `situation` are the fact resolver for the
      current situation; `mechanisms` is the set of known mechanism names. */
  datatype Context = Context(
    parse: string -> seq<ParseResult>,
    completeName: (Rule, string) -> string,
    knownVariable: string -> bool,
    evaluateVariable: string -> Val,
    situation: string -> Val,
    mechanisms: set<string>)

  /** The resolver's promise: a known variable has a value. */
  ghost predicate Consistent(ctx: Context) {
    forall name :: ctx.knownVariable(name) ==> ctx.evaluateVariable(name) != Unknown
  }

  // ---------------------------------------------------------------------------
  // Results

  datatype Error =
    | AmbiguousExpression(expression: string)     // more than one parse of a leaf
    | UnrecognisedExpression(expression: string)  // a parse category the engine does not accept
    | NotStringOrObject                           // a node that is neither string, number nor object
    | MechanismCount                              // not exactly one known mechanism key
    | NotAnArray                                  // a condition list that is not an array
    | NoProposition                               // a numeric logic without propositions
    | BaseNotVariable                             // a multiplication base that is not a variable
    | UnknownMechanism                            // a known mechanism name with no evaluation rule
    | TypeError                                   // a JavaScript TypeError raised by the host

  /** A node of the result tree. Every node carries its value; inner nodes carry the
      nodes of their explanation. */
  datatype Node =
    | NumberNode(nodeValue: Val)
    | VariableNode(nodeValue: Val, fragments: seq<string>, variableName: string, missingVariables: seq<string>)
    | ParsedOperand(nodeValue: Val)
    | ComparisonNode(nodeValue: Val, operator: string, operands: seq<Node>)
    | PercentageNode(nodeValue: Val, percentage: Rate)
    | OneOfNode(nodeValue: Val, children: seq<Node>)
    | AllOfNode(nodeValue: Val, children: seq<Node>)
    | NumericLogicNode(nodeValue: Val, cases: seq<Case>)
    | MultiplicationNode(nodeValue: Val, base: Base, rate: Node)
    | MaxOfNode(nodeValue: Val, children: seq<Node>)

  /** Where a percentage comes from: a rate string, or a node whose value is reused. */
  datatype Rate = RateText(text: string) | RateOf(node: Node)

  /** One proposition of a numeric logic: its contribution, its condition and its consequence. */
  datatype Case = Case(nodeValue: Val, condition: Node, consequence: Node)

  /** The base of a multiplication, read directly from the situation. */
  datatype Base = Base(nodeValue: Val, variableName: string, missingVariables: seq<string>)

  function ValuesOf(ns: seq<Node>): (vs: seq<Val>)
    ensures |vs| == |ns| && forall i :: 0 <= i < |ns| ==> vs[i] == ns[i].nodeValue
  {
    seq(|ns|, i requires 0 <= i < |ns| => ns[i].nodeValue)
  }

  function CaseValues(cs: seq<Case>): (vs: seq<Val>)
    ensures |vs| == |cs| && forall i :: 0 <= i < |cs| ==> vs[i] == cs[i].nodeValue
  {
    seq(|cs|, i requires 0 <= i < |cs| => cs[i].nodeValue)
  }

  /** A percentage node read from a rate string. */
  predicate IsRateText(n: Node) {
    n.PercentageNode? && n.percentage.RateText?
  }

  /** The explanation tree justifies every value in it: each node's value is what its
      mechanism computes from the values of its explanation, and a variable lists
      itself as missing only when its value is unknown. */
  predicate Justified(n: Node)
    decreases n, 1
  {
    match n
    case NumberNode(v) => v.Num?
    case VariableNode(v, _, name, missing) => missing == [] || (missing == [name] && v == Unknown)
    case ParsedOperand(_) => true
    case ComparisonNode(v, op, operands) =>
      && |operands| >= 2
      && (forall i :: 0 <= i < |operands| ==> Justified(operands[i]))
      && (v == Unknown <==> operands[0].nodeValue == Unknown || operands[1].nodeValue == Unknown)
      && (v != Unknown ==> IsOrderingOperator(op) && v == Bool(Holds(op, operands[0].nodeValue, operands[1].nodeValue)))
    case PercentageNode(v, RateText(t)) => v == TransformPercentage(t)
    case PercentageNode(v, RateOf(c)) => Justified(c) && v == c.nodeValue
    case OneOfNode(v, cs) => (forall i :: 0 <= i < |cs| ==> Justified(cs[i])) && v == OrFold(ValuesOf(cs))
    case AllOfNode(v, cs) => (forall i :: 0 <= i < |cs| ==> Justified(cs[i])) && v == AndFold(ValuesOf(cs))
    case NumericLogicNode(v, cases) =>
      && |cases| >= 1
      && (forall i :: 0 <= i < |cases| ==> CaseJustified(cases[i]))
      && v == NumericFold(CaseValues(cases))
    case MultiplicationNode(v, base, rate) =>
      && Justified(rate) && rate.PercentageNode?
      && (base.missingVariables == [] <==> base.nodeValue != Unknown)
      && (base.missingVariables == [] || base.missingVariables == [base.variableName])
      && (rate.nodeValue == Num(0.0) || rate.nodeValue == Bool(false) ==> v == Num(0.0))
      && (v == Unknown ==> rate.nodeValue == Unknown || base.nodeValue == Unknown)
      && (base.nodeValue.Num? && rate.nodeValue.Num? ==> v == Num(base.nodeValue.x * rate.nodeValue.x))
    case MaxOfNode(v, cs) => (forall i :: 0 <= i < |cs| ==> Justified(cs[i])) && v == MaxOf(ValuesOf(cs))
  }

  /** A proposition's contribution follows from its condition and consequence, and the
      consequence is a rate or a nested numeric logic. */
  predicate CaseJustified(c: Case)
    decreases c, 0
  {
    && Justified(c.condition)
    && Justified(c.consequence)
    && (IsRateText(c.consequence) || c.consequence.NumericLogicNode?)
    && c.nodeValue == Contribution(c.condition.nodeValue, c.consequence.nodeValue)
  }

  // ---------------------------------------------------------------------------
  // Leaves

  /** `fragments.join(sep)` */
  function Join(parts: seq<string>, sep: string): string {
    if parts == [] then ""
    else if |parts| == 1 then parts[0]
    else parts[0] + sep + Join(parts[1..], sep)
  }

  /** `fillVariableNode`: the fully qualified name of a referenced variable, its value when
      the situation knows it, and the variable itself as missing when it does not. */
  function VariableLeaf(ctx: Context, rule: Rule, fragments: seq<string>): (n: Node)
    ensures n.VariableNode? && n.fragments == fragments
    ensures n.variableName == ctx.completeName(rule, Join(fragments, " . "))
    ensures ctx.knownVariable(n.variableName) ==> n.nodeValue == ctx.evaluateVariable(n.variableName) && n.missingVariables == []
    ensures !ctx.knownVariable(n.variableName) ==> n.nodeValue == Unknown && n.missingVariables == [n.variableName]
  {
    var name := ctx.completeName(rule, Join(fragments, " . "));
    var known := ctx.knownVariable(name);
    VariableNode(if !known then Unknown else ctx.evaluateVariable(name), fragments, name,
                 if known then [] else [name])
  }

  /** A comparison operand: variables are filled in, other parser objects are kept as they are. */
  function FillOperand(ctx: Context, rule: Rule, o: Operand): Node {
    match o
    case VariableOperand(fragments) => VariableLeaf(ctx, rule, fragments)
    case ConstantOperand(v) => ParsedOperand(v)
  }

  /** A comparison: unknown when either of the first two operands is unknown, otherwise the
      ordering operator applied to them. Fewer than two operands, or an operator outside
      the four known ones applied to known values, is a TypeError. */
  function Comparison(ctx: Context, rule: Rule, op: string, operands: seq<Operand>): (r: Result<Node, Error>)
    ensures r.Ok? ==> Justified(r.value) && r.value.ComparisonNode?
    ensures r.Ok? ==> |r.value.operands| == |operands|
    ensures r.Ok? ==> forall i :: 0 <= i < |operands| ==> r.value.operands[i] == FillOperand(ctx, rule, operands[i])
    ensures r.Err? ==> r.error == TypeError
  {
    var filled := seq(|operands|, i requires 0 <= i < |operands| => FillOperand(ctx, rule, operands[i]));
    if |filled| < 2 then Err(TypeError)
    else
      var a := filled[0].nodeValue;
      var b := filled[1].nodeValue;
      if LooselyNull(a) || LooselyNull(b) then Ok(ComparisonNode(Unknown, op, filled))
      else if !IsOrderingOperator(op) then Err(TypeError)
      else Ok(ComparisonNode(Bool(Holds(op, a, b)), op, filled))
  }

  /** The string branch of `treat`: exactly one parse is required; variables and
      comparisons are evaluated; the other accepted categories are not handled and end
      in the "should be string or object" error. */
  function EvalString(ctx: Context, rule: Rule, s: string): (r: Result<Node, Error>)
    ensures r.Ok? ==> Justified(r.value) && (r.value.VariableNode? || r.value.ComparisonNode?)
  {
    var results := ctx.parse(s);
    if |results| == 0 then Err(TypeError)
    else if |results| > 1 then Err(AmbiguousExpression(s))
    else
      match results[0]
      case VariableRef(fragments) => Ok(VariableLeaf(ctx, rule, fragments))
      case ComparisonExpr(op, operands) => Comparison(ctx, rule, op, operands)
      case ModifiedVariable => Err(NotStringOrObject)
      case CalcExpression => Err(NotStringOrObject)
      case OtherCategory => Err(UnrecognisedExpression(s))
  }

  /** A percentage read from a rate string. */
  function RateFromText(s: string): (n: Node)
    ensures Justified(n) && IsRateText(n)
  {
    PercentageNode(TransformPercentage(s), RateText(s))
  }

  /** The base node of a multiplication for the fact `fact` of variable `name`. */
  function BaseNode(fact: Val, name: string): (b: Base)
    ensures b.variableName == name
    ensures b.nodeValue == Unknown <==> fact == Unknown
    ensures b.missingVariables == (if fact == Unknown then [name] else [])
    ensures fact != Unknown ==> b.nodeValue == ToNumber(fact)
  {
    if LooselyNull(fact) then Base(Unknown, name, [name]) else Base(ToNumber(fact), name, [])
  }

  /** The node of a multiplication whose base fact is `fact` and whose rate node is `rate`. */
  function MultiplicationOf(fact: Val, name: string, rate: Node): (n: Node)
    requires Justified(rate) && rate.PercentageNode?
    ensures Justified(n) && n.MultiplicationNode?
    ensures n.nodeValue == Multiply(rate.nodeValue, fact)
  {
    MultiplyCases(rate.nodeValue, fact);
    MultiplicationNode(Multiply(rate.nodeValue, fact), BaseNode(fact, name), rate)
  }

  // ---------------------------------------------------------------------------
  // The tree walk

  /** `treat`: evaluate one raw node. */
  function Eval(ctx: Context, rule: Rule, raw: Raw): (r: Result<Node, Error>)
    ensures r.Ok? ==> Justified(r.value)
    decreases Size(raw), 0
  {
    match raw
    case JString(s) => EvalString(ctx, rule, s)
    case JNumber(x) => Ok(NumberNode(Num(x)))
    case JBool(_) => Err(NotStringOrObject)
    case JNull => Err(NotStringOrObject)
    case _ =>
      var fs := Properties(raw);
      var ks := MechanismKeys(fs, ctx.mechanisms);
      if |ks| != 1 then Err(MechanismCount)
      else
        assert ks[0] in Keys(fs);
        EvalMechanism(ctx, rule, ks[0], Lookup(fs, ks[0]).value)
  }

  /** Evaluate the body `v` of the mechanism named `k`. */
  function EvalMechanism(ctx: Context, rule: Rule, k: string, v: Raw): (r: Result<Node, Error>)
    ensures r.Ok? ==> Justified(r.value)
    decreases Size(v), 3
  {
    if k == OneOfName then
      if !v.JArray? then Err(NotAnArray)
      else
        var children :- EvalAll(ctx, rule, v.items);
        Ok(OneOfNode(OrFold(ValuesOf(children)), children))
    else if k == AllOfName then
      if !v.JArray? then Err(NotAnArray)
      else
        var children :- EvalAll(ctx, rule, v.items);
        Ok(AllOfNode(AndFold(ValuesOf(children)), children))
    else if k == NumericLogicName then NumericLogic(ctx, rule, v)
    else if k == RateName then EvalRate(ctx, rule, v)
    else if k == MultiplicationName then EvalMultiplication(ctx, rule, v)
    else if k == MaxName then
      if !v.JArray? then Err(TypeError)   // `v.map` is not a function
      else
        var children :- EvalAll(ctx, rule, v.items);
        Ok(MaxOfNode(MaxOf(ValuesOf(children)), children))
    else Err(UnknownMechanism)
  }

  /** Evaluate a list of nodes in order, stopping at the first error. */
  function EvalAll(ctx: Context, rule: Rule, items: seq<Raw>): (r: Result<seq<Node>, Error>)
    ensures r.Ok? ==> |r.value| == |items|
    ensures r.Ok? ==> forall i :: 0 <= i < |items| ==> Justified(r.value[i])
    decreases SizeItems(items), 1
  {
    if items == [] then Ok([])
    else
      var first :- Eval(ctx, rule, items[0]);
      var rest :- EvalAll(ctx, rule, items[1..]);
      Ok([first] + rest)
  }

  /** "taux": a rate string is converted; any other body is evaluated and its value reused. */
  function EvalRate(ctx: Context, rule: Rule, v: Raw): (r: Result<Node, Error>)
    ensures r.Ok? ==> Justified(r.value) && r.value.PercentageNode?
    decreases Size(v), 2
  {
    if v.JString? then Ok(RateFromText(v.s))
    else
      var node :- Eval(ctx, rule, v);
      Ok(PercentageNode(node.nodeValue, RateOf(node)))
  }

  /** `treatNumericalLogicRec`: a rate string, or an object of propositions
      (condition string to consequence), at least one. */
  function NumericLogic(ctx: Context, rule: Rule, v: Raw): (r: Result<Node, Error>)
    ensures r.Ok? ==> Justified(r.value) && (IsRateText(r.value) || r.value.NumericLogicNode?)
    decreases Size(v), 1
  {
    if v.JString? then Ok(RateFromText(v.s))
    else if !IsObjectLike(v) || |Properties(v)| == 0 then Err(NoProposition)
    else
      var cases :- NumericCases(ctx, rule, Properties(v));
      Ok(NumericLogicNode(NumericFold(CaseValues(cases)), cases))
  }

  /** The propositions of a numeric logic, each condition evaluated before its consequence. */
  function NumericCases(ctx: Context, rule: Rule, fs: seq<Field>): (r: Result<seq<Case>, Error>)
    ensures r.Ok? ==> |r.value| == |fs|
    ensures r.Ok? ==> forall i :: 0 <= i < |fs| ==> CaseJustified(r.value[i])
    decreases SizeFields(fs), 2
  {
    if fs == [] then Ok([])
    else
      var condition :- EvalString(ctx, rule, fs[0].key);
      var consequence :- NumericLogic(ctx, rule, fs[0].value);
      var rest :- NumericCases(ctx, rule, fs[1..]);
      Ok([Case(Contribution(condition.nodeValue, consequence.nodeValue), condition, consequence)] + rest)
  }

  /** "multiplication": the base must parse as a variable, whose fact is read straight from
      the situation; the rate is evaluated as the mechanism `{taux: v.taux}`. */
  function EvalMultiplication(ctx: Context, rule: Rule, v: Raw): (r: Result<Node, Error>)
    ensures r.Ok? ==> Justified(r.value) && r.value.MultiplicationNode?
    decreases Size(v), 2
  {
    if v.JNull? then Err(TypeError)
    else
      match Member(v, BaseKey)
      case None => Err(TypeError)
      case Some(base) =>
        if !base.JString? then Err(TypeError)
        else
          var results := ctx.parse(base.s);
          if |results| == 0 then Err(TypeError)
          else if !results[0].VariableRef? then Err(BaseNotVariable)
          else
            var name := ctx.completeName(rule, Join(results[0].fragments, " . "));
            var rate :- RateOfMultiplication(ctx, rule, v);
            Ok(MultiplicationOf(ctx.situation(name), name, rate))
  }

  /** `treat({taux: v['taux']})`: the wrapper object has the single key "taux". */
  function RateOfMultiplication(ctx: Context, rule: Rule, v: Raw): (r: Result<Node, Error>)
    ensures r.Ok? ==> Justified(r.value) && r.value.PercentageNode?
    decreases Size(v), 1
  {
    if RateName !in ctx.mechanisms then Err(MechanismCount)
    else
      match Member(v, RateName)
      case None => Err(NotStringOrObject)
      case Some(t) => EvalRate(ctx, rule, t)
  }
}
