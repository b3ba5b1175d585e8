# Rule-expression evaluator of the social-contributions simulator

This project models the evaluator in `source/engine/traverse.js`, written in Dafny. The
evaluator walks a rule of the YAML catalogue. Its rules are written in prefix notation: objects
with one mechanism key, such as "l'une de ces conditions", "toutes ces conditions",
"logique numérique", "taux", "multiplication" or "le maximum de". The leaves are strings in a
small infix language, or numbers. The evaluator gives every node a value and an explanation
subtree. A value is unknown (`null`), a boolean or a number. The model then proves what each
mechanism computes, and that the explanation justifies the value.

Modules, one per component of the source file:

- `Wrappers`: the `Option` and `Result` types. An exception the engine throws is an `Err`.
- `JsValues`: node values, and the JavaScript operators the engine applies to them. These are
  truthiness, `== null`, `== true`, unary `+`, `*` and the ordering operators. The model also has
  Ramda's binary `R.max`.
- `NumberText`: unary `+` on strings (decimal literals) and `transformPercentage`.
- `RawRules`: the raw structures loaded from YAML, and the object operations the engine uses.
  These are `R.keys`, `R.toPairs`, property access and the intersection with the known mechanisms.
- `Folds`: the reduce steps of the mechanisms, written exactly as in the source. Each comes with
  an independent characterisation:
  - Kleene disjunction;
  - the first value that is not true;
  - the first proposition that applies;
  - the zero-dominant product;
  - the first two contenders.
- `Evaluator`: `treat` and `fillVariableNode`. The model has:
  - the result-tree datatype;
  - the invariant `Justified`, which every successful evaluation satisfies: each node's value
    follows from the values of its explanation;
  - the mutually recursive tree walk.
- `EvaluatorFacts`: what each mechanism computes, stated against the characterisations in
  `Folds`, plus a worked example: 1000 × "12.8%" = 128.
- `RuleRoot`: `treatRuleRoot`, `selectedRules` and `analyseSituation`.

The model's parameters stand in for code that is not part of this model (a `Context`):

- the nearley expression parser, which returns every parse of a string;
- `completeVariableName`, `knownVariable` and `evaluateVariable` from `./expressions`;
- the situation function `situationGate`;
- the known-mechanism list `known-mecanisms.yaml`.

`Consistent` states the one assumption about them: a known variable has a value.

Three behaviours of the code are worth stating plainly, because they are easy to misread:

- "le maximum de" spreads the contenders' values into Ramda's binary `R.max`
  (`source/engine/traverse.js:327`). With two or more contenders only the first two are
  compared; with one contender or none the result is a function object, not a number. See
  `Folds.MaxOfThreeGivesSecond` and `EvaluatorFacts.MaxSemantics`.
- `analyseSituation` maps `treatRuleRoot` over the selected rules without catching
  (`source/engine/traverse.js:392-395`), so one failing rule fails the whole analysis. See
  `RuleRoot.AnalyseSituationPointwise`.
- The formula's `shortCircuit` holds a partially applied `R.pathEq`
  (`source/engine/traverse.js:373`), to be applied to the treated rule. The model states its
  outcome on the treated rule as `RuleRoot.ShortCircuited`.

## Model

| member | source | states |
|---|---|---|
| JsValues.LooselyTrue | source/engine/traverse.js:225 | a value loosely equal to `true` (`true` or `1`) is truthy |
| JsValues.ToNumber | source/engine/traverse.js:310 | unary `+` always gives a number or NaN, and leaves numbers unchanged |
| JsValues.TimesConverts | source/engine/traverse.js:301 | `*` (`Times`) converts both operands to numbers first, and the product does not depend on their order |
| JsValues.DivideUndoesTimes | source/engine/traverse.js:33 | dividing by a non-zero `d` (`Divide`) undoes multiplying by `d`: numbers come back exactly, and NaN stays NaN |
| JsValues.HoldsCompares | source/engine/traverse.js:113-123 | the ordering operators (`Holds`): `<` and `>` are converses, as are `<=` and `>=`; `<=` is `<` or equality; on numbers `<` and `>=` are complements, while NaN makes all four false |
| JsValues.Max2 | source/engine/traverse.js:327 | `R.max(a, b)` returns one of its arguments, and on two numbers one that is at least both |
| NumberText.StringToNumber | source/engine/traverse.js:33-34 | unary `+` on a string is always a number or NaN |
| NumberText.IndexOf | source/engine/traverse.js:33 | `replace` finds the first `%`: the result holds `%` and no `%` comes before it |
| NumberText.RemoveFirstSplit | source/engine/traverse.js:33 | `replace('%', '')` (`RemoveFirst`) removes the first occurrence wherever it sits and keeps the text on both sides of it |
| NumberText.PercentAnywhere | source/engine/traverse.js:31-34 | `transformPercentage` (`TransformPercentage`) of a rate with a `%` anywhere is the number written around its first `%`, divided by 100 |
| NumberText.TwelvePointEight | source/engine/traverse.js:34 | "12.8" is the number 12.8 |
| NumberText.NaturalConverts | source/engine/traverse.js:34 | the decimal spelling of a natural number converts back to that number |
| NumberText.DecimalConverts | source/engine/traverse.js:34 | a literal `w.f` made of digits converts to its exact decimal value |
| NumberText.PercentAppended | source/engine/traverse.js:31-33 | a rate written as a number followed by one `%` is that number divided by 100 |
| NumberText.PercentOfNatural | source/engine/traverse.js:31-33 | "n%" is n / 100 |
| NumberText.PlainRateOfNatural | source/engine/traverse.js:31-34 | a rate without `%` is the number it spells |
| NumberText.TwelvePointEightPercent | source/engine/traverse.js:31-33 | "12.8%" is 0.128 |
| NumberText.DigitsThenPercentNotNumber | source/engine/traverse.js:33-34 | digits followed by a `%` left over in the number text do not spell a number: they convert to NaN |
| NumberText.DoublePercentIsNaN | source/engine/traverse.js:33 | only the first `%` is removed, so "1%%" is NaN |
| RawRules.Properties | source/engine/traverse.js:215 | `R.toPairs` of an object is its fields; of an array, its items keyed by index strings |
| RawRules.Lookup | source/engine/traverse.js:152 | property access finds a value exactly when the key is present, and that value is a field of the object |
| RawRules.MemberIsField | source/engine/traverse.js:284 | `v[k]` (`Member`) is defined exactly when `v` is an object or array with a key `k`, and is then the value of a field named `k` |
| RawRules.Member | source/engine/traverse.js:284 | a property read by `v[k]` is a strict part of `v`, so evaluating it terminates |
| RawRules.MechanismKeys | source/engine/traverse.js:149 | the intersection holds exactly the object's keys that are known mechanisms, each once |
| Folds.OrFoldCharacterised | source/engine/traverse.js:157-174 | the disjunction fold gives the first truthy child; with none, unknown if any child is unknown, else the last child |
| Folds.OrStepIsKleeneOr | source/engine/traverse.js:163-165 | one reduce step (`OrStep`) on three-valued values is Kleene OR of the running value and the next child |
| Folds.OrFoldIsKleeneOr | source/engine/traverse.js:157-174 | on three-valued children, "l'une de ces conditions" is Kleene OR: true if one is true, else unknown if one is unknown, else false |
| Folds.OrFoldSymmetric | source/engine/traverse.js:163-165 | on three-valued children, any rearrangement of the children (equal multisets) gives the same disjunction |
| Folds.OrFoldSound | source/engine/traverse.js:163-165 | a known disjunction of three-valued children stays the same whatever the unknown children turn out to be |
| Folds.AndFoldCharacterised | source/engine/traverse.js:180-195 | the conjunction fold gives the first falsy child, or the last child when all are truthy |
| Folds.AndStepIsFirstNotTrue | source/engine/traverse.js:186 | one reduce step (`AndStep`) on three-valued values is the first of the running value and the next child that is not true |
| Folds.AndFoldIsFirstNotTrue | source/engine/traverse.js:180-195 | on three-valued children, "toutes ces conditions" is the first child that is not true, or true |
| Folds.AndFoldIsOrderSensitive | source/engine/traverse.js:186 | `[null, false]` gives unknown, `[false, null]` gives false, whereas Kleene AND gives false for both |
| Folds.AndFoldSound | source/engine/traverse.js:185-186 | a known conjunction of three-valued children stays the same whatever the unknown children turn out to be |
| Folds.NumericFoldIsFirstApplicable | source/engine/traverse.js:216-253 | the lock rule: the running value is fixed by the first contribution other than false (unknown and 0 included) |
| Folds.NumericStepIsFirstApplicable | source/engine/traverse.js:232-236 | one lock step (`NumericStep`) is, for any values, the first of the running value and the next contribution that is not false |
| Folds.NumericFirstTrueWins | source/engine/traverse.js:221-236 | the first true condition, after known false ones, gives its consequence when that is not false |
| Folds.NumericUnknownLocks | source/engine/traverse.js:221-236 | an unknown condition reached while the value is still false locks the result to unknown |
| Folds.NumericAllFalse | source/engine/traverse.js:221-236 | when every condition is known and not true, the result is false |
| Folds.NumericFoldSound | source/engine/traverse.js:232-236 | a known numeric logic stays the same whatever the unknown contributions turn out to be |
| Folds.MultiplyCases | source/engine/traverse.js:297-301 | the product `Multiply` is zero-dominant: a rate of 0 or false, or a base of 0, gives 0 even when the other factor is unknown; otherwise an unknown factor gives unknown, and two numbers give their product |
| Folds.MultiplySound | source/engine/traverse.js:297-301 | a known product stays the same whatever the unknown factor turns out to be |
| Folds.MaxOfCases | source/engine/traverse.js:324-333 | the maximum (`MaxOf` over the spread `SpreadMax`) is unknown exactly when a contender is; with fewer than two it is a function; with two numeric first contenders it is the larger of those two |
| Folds.MaxOfIgnoresLaterContenders | source/engine/traverse.js:327 | contenders after the second never change the result |
| Folds.MaxOfThreeGivesSecond | source/engine/traverse.js:327 | the maximum of 3, 5 and 9 is 5 |
| Folds.MaxOfSound | source/engine/traverse.js:326-333 | a known maximum stays the same whatever the unknown contenders turn out to be |
| Evaluator.Comparison | source/engine/traverse.js:103-133 | a comparison keeps every parsed operand, each filled in (`FillOperand`), justifies its value from the first two, and fails only with a TypeError |
| Evaluator.EvalString | source/engine/traverse.js:86-101 | a string leaf that evaluates is a justified variable or comparison node |
| Evaluator.RateFromText | source/engine/traverse.js:203-209 | a rate string gives a justified percentage node |
| Evaluator.BaseNode | source/engine/traverse.js:306-314 | the base node is unknown and lists the variable as missing exactly when the fact is unknown, and otherwise holds the numeric conversion of the fact |
| Evaluator.MultiplicationOf | source/engine/traverse.js:296-319 | a multiplication node is justified and worth the zero-dominant product of rate and fact |
| Evaluator.Eval | source/engine/traverse.js:84-152 | every successful evaluation is a justified tree: each node's value follows from its explanation |
| Evaluator.EvalMechanism | source/engine/traverse.js:151-338 | every mechanism that evaluates gives a justified tree |
| Evaluator.EvalAll | source/engine/traverse.js:155-175 | a list of children evaluates to one justified node per item |
| Evaluator.EvalRate | source/engine/traverse.js:260-280 | "taux" gives a justified percentage node |
| Evaluator.NumericLogic | source/engine/traverse.js:200-258 | a numeric logic gives a justified percentage or numeric-logic node |
| Evaluator.NumericCases | source/engine/traverse.js:216-246 | one justified case per proposition, with a rate or nested logic as consequence |
| Evaluator.EvalMultiplication | source/engine/traverse.js:282-321 | a multiplication that evaluates gives a justified multiplication node |
| Evaluator.RateOfMultiplication | source/engine/traverse.js:293-294 | the rate of a multiplication is a justified percentage node |
| EvaluatorFacts.EvalAllPointwise | source/engine/traverse.js:155-175 | the children are the evaluations of the items, one per item and in order; the list fails exactly when an item does, with the first failing item's error |
| EvaluatorFacts.NumericCasesPointwise | source/engine/traverse.js:216-246 | each case holds the evaluation of its condition and of its consequence, in order; a failure is that of the first failing condition or consequence |
| EvaluatorFacts.UnhandledMechanism | source/engine/traverse.js:338 | a known mechanism with no evaluation rule is an error |
| EvaluatorFacts.SingleMechanismKey | source/engine/traverse.js:149 | the intersection of an object's keys with the known mechanisms, when one key at any position is a mechanism, is that key alone |
| EvaluatorFacts.LookupFirst | source/engine/traverse.js:152 | property access reads the first field carrying the key |
| EvaluatorFacts.ObjectIsItsMechanism | source/engine/traverse.js:149-152 | an object whose only known mechanism key sits at any position evaluates as that mechanism on that field's value, its other keys ignored |
| EvaluatorFacts.NoMechanismRejected | source/engine/traverse.js:149-152 | an object none of whose keys is a known mechanism is an error |
| EvaluatorFacts.TwoMechanismsRejected | source/engine/traverse.js:149-150 | an object with two different known mechanism keys, at any positions among its fields, is an error |
| EvaluatorFacts.LeafKinds | source/engine/traverse.js:137-147 | a number is its own value; a boolean or null is rejected |
| EvaluatorFacts.StringLeafCases | source/engine/traverse.js:93-101 | a leaf needs exactly one parse, and only variables and comparisons evaluate; the other accepted categories fall through to the "string or object" error |
| EvaluatorFacts.VariableMissingIffUnknown | source/engine/traverse.js:65-82 | with a consistent resolver, a variable is unknown exactly when it is missing, exactly when the situation does not know it |
| EvaluatorFacts.JoinAppend | source/engine/traverse.js:68 | `fragments.join(' . ')` (`Join`) puts the separator only between consecutive fragments |
| EvaluatorFacts.ComparisonSemantics | source/engine/traverse.js:103-133 | the operands of a comparison are the parsed operands with variables filled in (`FillOperand`), in order; it is unknown exactly when one of the first two is unknown, and otherwise is the ordering operator applied to them |
| EvaluatorFacts.ComparisonOfConstants | source/engine/traverse.js:112-123 | `a < b` on two numbers gives the boolean `a < b` |
| EvaluatorFacts.OneOfSemantics | source/engine/traverse.js:154-176 | one explanation entry per item, in order; on three-valued children the value is Kleene OR; a non-array is an error |
| EvaluatorFacts.AllOfSemantics | source/engine/traverse.js:177-197 | one explanation entry per item, in order; on three-valued children the value is the first one that is not true; a non-array is an error |
| EvaluatorFacts.NumericLogicSemantics | source/engine/traverse.js:200-258 | a rate string is a percentage; an object without propositions is an error; otherwise one case per proposition, in order, and the first contribution other than false |
| EvaluatorFacts.RateSemantics | source/engine/traverse.js:260-280 | a rate string is converted; any other body is evaluated and its value reused |
| EvaluatorFacts.MultiplicationNeedsTextBase | source/engine/traverse.js:284-285 | a missing or non-string base is a TypeError |
| EvaluatorFacts.MultiplicationResult | source/engine/traverse.js:282-321 | when the base parses first as a variable and the rate evaluates, the multiplication is the node built from the completed base name, its fact and that rate |
| EvaluatorFacts.MultiplicationDispatch | source/engine/traverse.js:282 | the "multiplication" mechanism evaluates its body by the multiplication rule |
| EvaluatorFacts.MultiplicationSemantics | source/engine/traverse.js:282-321 | the base must first parse as a variable, and ambiguity is not checked; the base is missing exactly when its fact is unknown; the value is the zero-dominant product |
| EvaluatorFacts.MultiplicationRate | source/engine/traverse.js:293 | the rate is evaluated as the one-key object `{taux: …}` |
| EvaluatorFacts.MaxSemantics | source/engine/traverse.js:323-336 | one explanation entry per item, in order; unknown exactly when a contender is; otherwise `R.max` of the first two, or a function with fewer than two |
| EvaluatorFacts.TwelvePointEightRate | source/engine/traverse.js:260-269 | the rate "12.8%" of a multiplication is the percentage 0.128 |
| EvaluatorFacts.ExampleProduct | source/engine/traverse.js:297-301 | the rate 0.128 times the fact 1000 is 128 |
| EvaluatorFacts.RateTimesBaseBody | source/engine/traverse.js:282-321 | the body of a multiplication of the fact 1000 by "12.8%" is worth 128, with no missing variable |
| EvaluatorFacts.RateTimesBase | source/engine/traverse.js:282-321 | a fact of 1000 times "12.8%" is 128, with no missing variable |
| RuleRoot.EvolveFields | source/engine/traverse.js:342-385 | a treated rule has one field per field of the rule |
| RuleRoot.TreatRuleRoot | source/engine/traverse.js:342-385 | a treated rule has one field per field of the rule |
| RuleRoot.EvolveFieldsPointwise | source/engine/traverse.js:342-385 | each field is treated on its own, in order; the first failing field's error ends the treatment |
| RuleRoot.TreatRuleRootKeepsOtherFields | source/engine/traverse.js:342-385 | a treated rule keeps the keys in order, and every field other than the condition and the formula is unchanged |
| RuleRoot.TreatRuleRootFails | source/engine/traverse.js:347-375 | a rule fails exactly when its condition or its formula fails to evaluate |
| RuleRoot.FormulaEvaluatedEvenWhenNotApplicable | source/engine/traverse.js:364-375 | the formula is evaluated whatever the condition's value, true included, so a failing formula fails the rule |
| RuleRoot.ShortCircuitIffConditionTrue | source/engine/traverse.js:373 | the formula short-circuits (`ShortCircuited`) exactly when the rule's condition evaluates to `true` |
| RuleRoot.SelectedRules | source/engine/traverse.js:20-29 | the selection holds exactly the catalogue rules named by one of the four names |
| RuleRoot.SelectedRulesAppend | source/engine/traverse.js:20-29 | selection distributes over concatenation, so it keeps catalogue order |
| RuleRoot.TreatAll | source/engine/traverse.js:393-395 | one treated rule per rule |
| RuleRoot.TreatAllPointwise | source/engine/traverse.js:393-395 | each rule is treated on its own, in order, and the first failure fails the list |
| RuleRoot.AnalyseSituation | source/engine/traverse.js:392-395 | one result per selected rule |
| RuleRoot.AnalyseSituationPointwise | source/engine/traverse.js:392-395 | the analysis is the treatment of each selected rule in catalogue order, and one failing rule fails it |

## Left out

- The nearley parser and its grammar (`grammar.ne`) are a parameter. A syntax error, which
  nearley throws, is modelled like an empty parse: both end the evaluation with an error.
- `./rules` and `./expressions` are not part of this model. Catalogue loading, `findRuleByName`,
  name completion and fact lookup are parameters.
- `variableType` depends entirely on `findRuleByName` and the rule structure, neither of which is
  modelled.
- The commented-out design notes at the end of the file are not code.
- Numbers are exact reals: IEEE-754 rounding, overflow and infinities are not modelled.
- JsValues.Max2: two function values are compared by JavaScript through their source texts. The
  model reads that comparison as false, so `R.max` keeps its first argument.
- JsValues.Holds: the same reading applies to the ordering operators, and so to
  `Evaluator.Comparison`: a comparison of two function values is false in the model. Facts from
  the resolver are never functions, so only such a value built by the engine could reach it.
- NumberText.StringToNumber: only decimal literals are read as numbers. Hexadecimal, octal and
  binary literals, and `Infinity`, give NaN in the model but a number in JavaScript.
- `null` and `undefined` are one value, `Unknown`. Most tests in the engine are loose
  (`== null`), but `R.contains(null, …)` in "le maximum de" (`source/engine/traverse.js:326`)
  matches `null` only. Merging the two is sound there because every node value the engine
  builds is `null` when unknown, and an `undefined` could only come from the resolver giving
  `undefined` for a known variable, which `Consistent` excludes.
- String-valued facts and operands are not modelled. Node values are unknown, booleans,
  numbers, NaN or functions.
- Display-only fields (`text`, `type`, `category`, `name`, `rulePropType`, `conditionValue`)
  are dropped from the result nodes.
- Evaluator.EvalMultiplication: a base that is an array or an object is fed to the parser as
  is. The model reports a TypeError, because the parser's behaviour on such input is unknown.
- Object keys are taken in enumeration order, as the catalogue's loader produced them. The
  JavaScript rule that integer-like keys enumerate first is not modelled.
- The three `.tsx` pages and components are user interface, and are not part of this model.
