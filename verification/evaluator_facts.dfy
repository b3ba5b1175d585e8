/**
 What each mechanism of the evaluator computes, stated against the independent
 characterisations of the folds: the children of a condition list are the evaluations
 of its items in order, "l'une de ces conditions" is Kleene disjunction on three-valued
 children, a numeric logic takes its first applicable proposition, and so on.
 */
module EvaluatorFacts {
  import opened Wrappers
  import opened JsValues
  import opened NumberText
  import opened RawRules
  import opened Folds
  import opened Evaluator

  // ---------------------------------------------------------------------------
  // Lists of children

  /** Evaluating a list evaluates each item on its own, in order: it succeeds exactly when
      every item does, and otherwise fails with the error of the first failing item. */
  lemma {:induction false} EvalAllPointwise(ctx: Context, rule: Rule, items: seq<Raw>)
    ensures EvalAll(ctx, rule, items).Ok? <==> forall i :: 0 <= i < |items| ==> Eval(ctx, rule, items[i]).Ok?
    ensures var r := EvalAll(ctx, rule, items);
              r.Ok? ==> forall i :: 0 <= i < |items| ==> Eval(ctx, rule, items[i]) == Ok(r.value[i])
    ensures var r := EvalAll(ctx, rule, items);
              r.Err? ==> exists i :: 0 <= i < |items| && Eval(ctx, rule, items[i]) == Err(r.error) &&
                                     forall j :: 0 <= j < i ==> Eval(ctx, rule, items[j]).Ok?
    decreases |items|
  {
    if items != [] {
      var tail := items[1..];
      EvalAllPointwise(ctx, rule, tail);
      assert forall i :: 1 <= i < |items| ==> items[i] == tail[i - 1];
      var first := Eval(ctx, rule, items[0]);
      var rest := EvalAll(ctx, rule, tail);
      if first.Ok? && rest.Err? {
        var i :| 0 <= i < |tail| && Eval(ctx, rule, tail[i]) == Err(rest.error) &&
                 forall j :: 0 <= j < i ==> Eval(ctx, rule, tail[j]).Ok?;
        assert Eval(ctx, rule, items[i + 1]) == Err(rest.error);
      }
    }
  }

  /** One proposition of a numeric logic evaluates: its condition, then its consequence. */
  predicate CaseSucceeds(ctx: Context, rule: Rule, f: Field) {
    EvalString(ctx, rule, f.key).Ok? && NumericLogic(ctx, rule, f.value).Ok?
  }

  /** One proposition of a numeric logic fails with `e`: its condition, or else its consequence. */
  predicate CaseFailsWith(ctx: Context, rule: Rule, f: Field, e: Error) {
    || EvalString(ctx, rule, f.key) == Err(e)
    || (EvalString(ctx, rule, f.key).Ok? && NumericLogic(ctx, rule, f.value) == Err(e))
  }

  /** The propositions are evaluated one by one, in enumeration order; each case pairs the
      evaluated condition with the evaluated consequence. */
  lemma {:induction false} NumericCasesPointwise(ctx: Context, rule: Rule, fs: seq<Field>)
    ensures NumericCases(ctx, rule, fs).Ok? <==> forall i :: 0 <= i < |fs| ==> CaseSucceeds(ctx, rule, fs[i])
    ensures var r := NumericCases(ctx, rule, fs);
              r.Ok? ==> forall i :: 0 <= i < |fs| ==>
                          && EvalString(ctx, rule, fs[i].key) == Ok(r.value[i].condition)
                          && NumericLogic(ctx, rule, fs[i].value) == Ok(r.value[i].consequence)
    ensures var r := NumericCases(ctx, rule, fs);
              r.Err? ==> exists i :: 0 <= i < |fs| && CaseFailsWith(ctx, rule, fs[i], r.error) &&
                                     forall j :: 0 <= j < i ==> CaseSucceeds(ctx, rule, fs[j])
    decreases |fs|
  {
    if fs != [] {
      var tail := fs[1..];
      NumericCasesPointwise(ctx, rule, tail);
      assert forall i :: 1 <= i < |fs| ==> fs[i] == tail[i - 1];
      var rest := NumericCases(ctx, rule, tail);
      if CaseSucceeds(ctx, rule, fs[0]) && rest.Err? {
        var i :| 0 <= i < |tail| && CaseFailsWith(ctx, rule, tail[i], rest.error) &&
                 forall j :: 0 <= j < i ==> CaseSucceeds(ctx, rule, tail[j]);
        assert CaseFailsWith(ctx, rule, fs[i + 1], rest.error);
      }
    }
  }

  // ---------------------------------------------------------------------------
  // Dispatch

  /** The mechanism names the evaluator has a rule for. */
  const HandledMechanisms: set<string> :=
    {OneOfName, AllOfName, NumericLogicName, RateName, MultiplicationName, MaxName}

  /** A known mechanism name without an evaluation rule is an error, whatever its body. */
  lemma UnhandledMechanism(ctx: Context, rule: Rule, k: string, v: Raw)
    requires k !in HandledMechanisms
    ensures EvalMechanism(ctx, rule, k, v) == Err(UnknownMechanism)
  {
  }

  lemma {:induction false} NoMechanismKeys(fs: seq<Field>, mechanisms: set<string>)
    requires forall i :: 0 <= i < |fs| ==> fs[i].key !in mechanisms
    ensures MechanismKeys(fs, mechanisms) == []
    decreases |fs|
  {
    if fs != [] {
      NoMechanismKeys(fs[1..], mechanisms);
    }
  }

  /** The intersection with the known mechanisms of an object with one mechanism key is that key. */
  lemma {:induction false} SingleMechanismKey(fs: seq<Field>, mechanisms: set<string>, i: nat)
    requires i < |fs| && fs[i].key in mechanisms
    requires forall j :: 0 <= j < |fs| && j != i ==> fs[j].key !in mechanisms
    ensures MechanismKeys(fs, mechanisms) == [fs[i].key]
    decreases i
  {
    if i == 0 {
      NoMechanismKeys(fs[1..], mechanisms);
    } else {
      assert fs[1..][i - 1] == fs[i];
      SingleMechanismKey(fs[1..], mechanisms, i - 1);
    }
  }

  /** Property access reads the first field with the key. */
  lemma {:induction false} LookupFirst(fs: seq<Field>, k: string, i: nat)
    requires i < |fs| && fs[i].key == k
    requires forall j :: 0 <= j < i ==> fs[j].key != k
    ensures Lookup(fs, k) == Some(fs[i].value)
    decreases i
  {
    if i > 0 {
      assert fs[1..][i - 1] == fs[i];
      LookupFirst(fs[1..], k, i - 1);
    }
  }

  /** An object is evaluated as its one mechanism, wherever that key sits among the fields:
      its other keys (documentation, say) are ignored. */
  lemma ObjectIsItsMechanism(ctx: Context, rule: Rule, fs: seq<Field>, i: nat)
    requires i < |fs| && fs[i].key in ctx.mechanisms
    requires forall j :: 0 <= j < |fs| && j != i ==> fs[j].key !in ctx.mechanisms
    ensures Eval(ctx, rule, JObject(fs)) == EvalMechanism(ctx, rule, fs[i].key, fs[i].value)
  {
    SingleMechanismKey(fs, ctx.mechanisms, i);
    LookupFirst(fs, fs[i].key, i);
  }

  /** An object without a mechanism key is an error. */
  lemma NoMechanismRejected(ctx: Context, rule: Rule, fs: seq<Field>)
    requires forall i :: 0 <= i < |fs| ==> fs[i].key !in ctx.mechanisms
    ensures Eval(ctx, rule, JObject(fs)) == Err(MechanismCount)
  {
    NoMechanismKeys(fs, ctx.mechanisms);
  }

  /** Two known mechanism keys in one object are an error, wherever they sit among its fields. */
  lemma TwoMechanismsRejected(ctx: Context, rule: Rule, fs: seq<Field>, i: nat, j: nat)
    requires i < |fs| && j < |fs|
    requires fs[i].key in ctx.mechanisms && fs[j].key in ctx.mechanisms && fs[i].key != fs[j].key
    ensures Eval(ctx, rule, JObject(fs)) == Err(MechanismCount)
  {
    var ks := MechanismKeys(fs, ctx.mechanisms);
    assert Keys(fs)[i] == fs[i].key && Keys(fs)[j] == fs[j].key;
    assert fs[i].key in ks && fs[j].key in ks;
  }

  /** Leaves: numbers are their own value, booleans and null are rejected. */
  lemma LeafKinds(ctx: Context, rule: Rule, raw: Raw)
    ensures raw.JNumber? ==> Eval(ctx, rule, raw) == Ok(NumberNode(Num(raw.x)))
    ensures raw.JBool? || raw.JNull? ==> Eval(ctx, rule, raw) == Err(NotStringOrObject)
    ensures raw.JString? ==> Eval(ctx, rule, raw) == EvalString(ctx, rule, raw.s)
  {
  }

  // ---------------------------------------------------------------------------
  // String leaves

  /** A leaf string must have exactly one parse; a second parse is an ambiguity error and
      no parse at all is a host TypeError. Of the accepted categories, only variables and
      comparisons are evaluated. */
  lemma StringLeafCases(ctx: Context, rule: Rule, s: string)
    ensures |ctx.parse(s)| == 0 ==> EvalString(ctx, rule, s) == Err(TypeError)
    ensures |ctx.parse(s)| > 1 ==> EvalString(ctx, rule, s) == Err(AmbiguousExpression(s))
    ensures |ctx.parse(s)| == 1 && ctx.parse(s)[0].OtherCategory? ==>
              EvalString(ctx, rule, s) == Err(UnrecognisedExpression(s))
    ensures |ctx.parse(s)| == 1 && (ctx.parse(s)[0].ModifiedVariable? || ctx.parse(s)[0].CalcExpression?) ==>
              EvalString(ctx, rule, s) == Err(NotStringOrObject)
    ensures |ctx.parse(s)| == 1 && ctx.parse(s)[0].VariableRef? ==>
              EvalString(ctx, rule, s) == Ok(VariableLeaf(ctx, rule, ctx.parse(s)[0].fragments))
  {
  }

  /** `join` puts the separator between consecutive parts only: a further part is appended
      after one more separator. */
  lemma {:induction false} JoinAppend(parts: seq<string>, p: string, sep: string)
    requires parts != []
    ensures Join(parts + [p], sep) == Join(parts, sep) + sep + p
    decreases |parts|
  {
    if |parts| == 1 {
      assert (parts + [p])[1..] == [p];
    } else {
      assert (parts + [p])[1..] == parts[1..] + [p];
      JoinAppend(parts[1..], p, sep);
    }
  }

  /** With a consistent resolver, a variable is unknown exactly when it is listed as
      missing, which is exactly when the situation does not know it. */
  lemma VariableMissingIffUnknown(ctx: Context, rule: Rule, fragments: seq<string>)
    requires Consistent(ctx)
    ensures var n := VariableLeaf(ctx, rule, fragments);
              && (n.nodeValue == Unknown <==> n.missingVariables == [n.variableName])
              && (n.nodeValue == Unknown <==> !ctx.knownVariable(n.variableName))
              && (n.missingVariables == [] <==> ctx.knownVariable(n.variableName))
  {
    var n := VariableLeaf(ctx, rule, fragments);
    if ctx.knownVariable(n.variableName) {
      assert ctx.evaluateVariable(n.variableName) != Unknown;
    }
  }

  /** A comparison leaf is unknown exactly when one of its two operands is unknown; otherwise
      it is the comparison of their numeric values. Only an ordering operator can succeed
      on known operands. */
  lemma ComparisonSemantics(ctx: Context, rule: Rule, s: string, op: string, operands: seq<Operand>)
    requires ctx.parse(s) == [ComparisonExpr(op, operands)]
    ensures |operands| < 2 ==> EvalString(ctx, rule, s) == Err(TypeError)
    ensures var r := EvalString(ctx, rule, s);
              r.Ok? ==> && r.value.ComparisonNode?
                        && |r.value.operands| == |operands| >= 2
                        && (forall i :: 0 <= i < |operands| ==> r.value.operands[i] == FillOperand(ctx, rule, operands[i]))
                        && (r.value.nodeValue == Unknown <==>
                              r.value.operands[0].nodeValue == Unknown || r.value.operands[1].nodeValue == Unknown)
    ensures var r := EvalString(ctx, rule, s);
              r.Ok? && r.value.nodeValue != Unknown ==>
                IsOrderingOperator(op) &&
                r.value.nodeValue == Bool(Holds(op, r.value.operands[0].nodeValue, r.value.operands[1].nodeValue))
    ensures var r := EvalString(ctx, rule, s);
              |operands| >= 2 && !IsOrderingOperator(op) ==> r.Err? || r.value.nodeValue == Unknown
  {
    var r := EvalString(ctx, rule, s);
    assert r == Comparison(ctx, rule, op, operands);
  }

  /** Two constant operands: `2 < 3` holds, `3 < 2` does not. */
  lemma ComparisonOfConstants(ctx: Context, rule: Rule, s: string, a: real, b: real)
    requires ctx.parse(s) == [ComparisonExpr("<", [ConstantOperand(Num(a)), ConstantOperand(Num(b))])]
    ensures EvalString(ctx, rule, s).Ok?
    ensures EvalString(ctx, rule, s).value.nodeValue == Bool(a < b)
  {
    var r := EvalString(ctx, rule, s);
    assert r == Comparison(ctx, rule, "<", [ConstantOperand(Num(a)), ConstantOperand(Num(b))]);
  }

  // ---------------------------------------------------------------------------
  // Mechanisms

  /** "l'une de ces conditions": the children are the evaluations of the items, all of them,
      in order; on three-valued children the value is their Kleene disjunction. */
  lemma OneOfSemantics(ctx: Context, rule: Rule, v: Raw)
    ensures !v.JArray? ==> EvalMechanism(ctx, rule, OneOfName, v) == Err(NotAnArray)
    ensures v.JArray? ==>
              (EvalMechanism(ctx, rule, OneOfName, v).Ok? <==> forall i :: 0 <= i < |v.items| ==> Eval(ctx, rule, v.items[i]).Ok?)
    ensures var r := EvalMechanism(ctx, rule, OneOfName, v);
              r.Ok? ==> && v.JArray? && r.value.OneOfNode?
                        && |r.value.children| == |v.items|
                        && (forall i :: 0 <= i < |v.items| ==> Eval(ctx, rule, v.items[i]) == Ok(r.value.children[i]))
                        && r.value.nodeValue == OrFold(ValuesOf(r.value.children))
                        && (AllThreeValued(ValuesOf(r.value.children)) ==> r.value.nodeValue == KleeneOr(ValuesOf(r.value.children)))
  {
    if v.JArray? {
      EvalAllPointwise(ctx, rule, v.items);
      var r := EvalMechanism(ctx, rule, OneOfName, v);
      if r.Ok? && AllThreeValued(ValuesOf(r.value.children)) {
        OrFoldIsKleeneOr(ValuesOf(r.value.children));
      }
    }
  }

  /** "toutes ces conditions": the children are the evaluations of the items, all of them,
      in order; on three-valued children the value is the first one that is not true. */
  lemma AllOfSemantics(ctx: Context, rule: Rule, v: Raw)
    ensures !v.JArray? ==> EvalMechanism(ctx, rule, AllOfName, v) == Err(NotAnArray)
    ensures v.JArray? ==>
              (EvalMechanism(ctx, rule, AllOfName, v).Ok? <==> forall i :: 0 <= i < |v.items| ==> Eval(ctx, rule, v.items[i]).Ok?)
    ensures var r := EvalMechanism(ctx, rule, AllOfName, v);
              r.Ok? ==> && v.JArray? && r.value.AllOfNode?
                        && |r.value.children| == |v.items|
                        && (forall i :: 0 <= i < |v.items| ==> Eval(ctx, rule, v.items[i]) == Ok(r.value.children[i]))
                        && r.value.nodeValue == AndFold(ValuesOf(r.value.children))
                        && (AllThreeValued(ValuesOf(r.value.children)) ==> r.value.nodeValue == FirstNotTrue(ValuesOf(r.value.children)))
  {
    if v.JArray? {
      EvalAllPointwise(ctx, rule, v.items);
      var r := EvalMechanism(ctx, rule, AllOfName, v);
      if r.Ok? && AllThreeValued(ValuesOf(r.value.children)) {
        AndFoldIsFirstNotTrue(ValuesOf(r.value.children));
      }
    }
  }

  function ConditionValues(cases: seq<Case>): (vs: seq<Val>)
    ensures |vs| == |cases| && forall i :: 0 <= i < |cases| ==> vs[i] == cases[i].condition.nodeValue
  {
    seq(|cases|, i requires 0 <= i < |cases| => cases[i].condition.nodeValue)
  }

  function ConsequenceValues(cases: seq<Case>): (vs: seq<Val>)
    ensures |vs| == |cases| && forall i :: 0 <= i < |cases| ==> vs[i] == cases[i].consequence.nodeValue
  {
    seq(|cases|, i requires 0 <= i < |cases| => cases[i].consequence.nodeValue)
  }

  /** "logique numérique": a rate string is a percentage; an object needs at least one
      proposition; each proposition's condition and consequence are evaluated in order,
      and the value is the first contribution that is not `false`. */
  lemma NumericLogicSemantics(ctx: Context, rule: Rule, v: Raw)
    ensures EvalMechanism(ctx, rule, NumericLogicName, v) == NumericLogic(ctx, rule, v)
    ensures v.JString? ==> NumericLogic(ctx, rule, v) == Ok(PercentageNode(TransformPercentage(v.s), RateText(v.s)))
    ensures !v.JString? && (!IsObjectLike(v) || |Properties(v)| == 0) ==> NumericLogic(ctx, rule, v) == Err(NoProposition)
    ensures var r := NumericLogic(ctx, rule, v);
              r.Ok? && !v.JString? ==>
                && IsObjectLike(v) && r.value.NumericLogicNode?
                && |r.value.cases| == |Properties(v)| >= 1
                && (forall i :: 0 <= i < |Properties(v)| ==>
                      && EvalString(ctx, rule, Properties(v)[i].key) == Ok(r.value.cases[i].condition)
                      && NumericLogic(ctx, rule, Properties(v)[i].value) == Ok(r.value.cases[i].consequence))
                && r.value.nodeValue == FirstApplicable(CaseValues(r.value.cases))
                && r.value.nodeValue == NumericFold(Contributions(ConditionValues(r.value.cases), ConsequenceValues(r.value.cases)))
  {
    var r := NumericLogic(ctx, rule, v);
    if r.Ok? && !v.JString? {
      NumericCasesPointwise(ctx, rule, Properties(v));
      var cases := r.value.cases;
      NumericFoldIsFirstApplicable(CaseValues(cases));
      assert CaseValues(cases) == Contributions(ConditionValues(cases), ConsequenceValues(cases)) by {
        forall i | 0 <= i < |cases|
          ensures CaseJustified(cases[i])
        {
        }
      }
    }
  }

  /** "taux": a string is read as a percentage; any other body is evaluated and its value
      reused, errors included. */
  lemma RateSemantics(ctx: Context, rule: Rule, v: Raw)
    ensures v.JString? ==> EvalMechanism(ctx, rule, RateName, v) == Ok(PercentageNode(TransformPercentage(v.s), RateText(v.s)))
    ensures !v.JString? && Eval(ctx, rule, v).Err? ==> EvalMechanism(ctx, rule, RateName, v) == Err(Eval(ctx, rule, v).error)
    ensures var r := EvalMechanism(ctx, rule, RateName, v);
              !v.JString? && r.Ok? ==> r.value.percentage.RateOf? && Eval(ctx, rule, v) == Ok(r.value.percentage.node) && r.value.nodeValue == r.value.percentage.node.nodeValue
  {
  }

  /** The fully qualified name of the variable a multiplication base refers to. */
  function BaseName(ctx: Context, rule: Rule, b: string): string
    requires |ctx.parse(b)| > 0 && ctx.parse(b)[0].VariableRef?
  {
    ctx.completeName(rule, Join(ctx.parse(b)[0].fragments, " . "))
  }

  /** "multiplication" with a base that is not a string (or absent, or a body that is null) is
      a TypeError. */
  lemma MultiplicationNeedsTextBase(ctx: Context, rule: Rule, v: Raw)
    requires v.JNull? || Member(v, BaseKey).None? || !Member(v, BaseKey).value.JString?
    ensures EvalMechanism(ctx, rule, MultiplicationName, v) == Err(TypeError)
  {
  }

  /** A multiplication whose base parses as a variable and whose rate evaluates. */
  lemma MultiplicationResult(ctx: Context, rule: Rule, v: Raw, b: string, rate: Node)
    requires !v.JNull? && Member(v, BaseKey) == Some(JString(b))
    requires |ctx.parse(b)| > 0 && ctx.parse(b)[0].VariableRef?
    requires RateOfMultiplication(ctx, rule, v) == Ok(rate)
    ensures rate.PercentageNode? && Justified(rate)
    ensures var name := BaseName(ctx, rule, b);
            EvalMultiplication(ctx, rule, v) == Ok(MultiplicationOf(ctx.situation(name), name, rate))
  {
  }

  lemma MultiplicationDispatch(ctx: Context, rule: Rule, v: Raw)
    ensures EvalMechanism(ctx, rule, MultiplicationName, v) == EvalMultiplication(ctx, rule, v)
  {
  }

  /** "multiplication" with a string base: the base must parse as a variable, but only its
      FIRST parse is looked at, so an ambiguous base is not an error. The base fact is read
      straight from the situation; it is listed as missing exactly when it is unknown; the
      value is the zero-dominant product of the rate and the fact. */
  lemma MultiplicationSemantics(ctx: Context, rule: Rule, v: Raw, b: string)
    requires !v.JNull? && Member(v, BaseKey) == Some(JString(b))
    ensures |ctx.parse(b)| == 0 ==> EvalMechanism(ctx, rule, MultiplicationName, v) == Err(TypeError)
    ensures |ctx.parse(b)| > 0 && !ctx.parse(b)[0].VariableRef? ==>
              EvalMechanism(ctx, rule, MultiplicationName, v) == Err(BaseNotVariable)
    ensures |ctx.parse(b)| > 0 && ctx.parse(b)[0].VariableRef? ==>
              (EvalMechanism(ctx, rule, MultiplicationName, v).Ok? <==> RateOfMultiplication(ctx, rule, v).Ok?)
    ensures var r := EvalMechanism(ctx, rule, MultiplicationName, v);
              r.Ok? ==>
                && |ctx.parse(b)| > 0 && ctx.parse(b)[0].VariableRef?
                && r.value.MultiplicationNode?
                && RateOfMultiplication(ctx, rule, v) == Ok(r.value.rate)
                && r.value.base.variableName == BaseName(ctx, rule, b)
                && (r.value.base.missingVariables == [r.value.base.variableName] <==> ctx.situation(r.value.base.variableName) == Unknown)
                && r.value.nodeValue == Multiply(r.value.rate.nodeValue, ctx.situation(r.value.base.variableName))
  {
    MultiplicationDispatch(ctx, rule, v);
    if |ctx.parse(b)| > 0 && ctx.parse(b)[0].VariableRef? && RateOfMultiplication(ctx, rule, v).Ok? {
      MultiplicationResult(ctx, rule, v, b, RateOfMultiplication(ctx, rule, v).value);
    }
  }

  /** The rate of a multiplication is evaluated as the one-key object `{taux: ...}`: it needs
      "taux" to be a known mechanism, and a missing rate is rejected. */
  lemma MultiplicationRate(ctx: Context, rule: Rule, v: Raw)
    ensures RateName !in ctx.mechanisms ==> RateOfMultiplication(ctx, rule, v) == Err(MechanismCount)
    ensures RateName in ctx.mechanisms && Member(v, RateName).None? ==> RateOfMultiplication(ctx, rule, v) == Err(NotStringOrObject)
    ensures RateName in ctx.mechanisms && Member(v, RateName).Some? ==>
              RateOfMultiplication(ctx, rule, v) == Eval(ctx, rule, JObject([Field(RateName, Member(v, RateName).value)]))
  {
    if RateName in ctx.mechanisms && Member(v, RateName).Some? {
      ObjectIsItsMechanism(ctx, rule, [Field(RateName, Member(v, RateName).value)], 0);
    }
  }

  /** "le maximum de": the contenders are the evaluations of the items, all of them, in order;
      the value is unknown exactly when one of them is, and otherwise compares only the
      first two. A body that is not an array is a TypeError. */
  lemma MaxSemantics(ctx: Context, rule: Rule, v: Raw)
    ensures !v.JArray? ==> EvalMechanism(ctx, rule, MaxName, v) == Err(TypeError)
    ensures var r := EvalMechanism(ctx, rule, MaxName, v);
              r.Ok? ==> && v.JArray? && r.value.MaxOfNode?
                        && |r.value.children| == |v.items|
                        && (forall i :: 0 <= i < |v.items| ==> Eval(ctx, rule, v.items[i]) == Ok(r.value.children[i]))
                        && (r.value.nodeValue == Unknown <==> exists i :: 0 <= i < |v.items| && r.value.children[i].nodeValue == Unknown)
                        && (r.value.nodeValue != Unknown && |v.items| < 2 ==> r.value.nodeValue == Fn)
                        && (r.value.nodeValue != Unknown && |v.items| >= 2 ==>
                              r.value.nodeValue == Max2(r.value.children[0].nodeValue, r.value.children[1].nodeValue))
  {
    if v.JArray? {
      EvalAllPointwise(ctx, rule, v.items);
      var r := EvalMechanism(ctx, rule, MaxName, v);
      if r.Ok? {
        var vals := ValuesOf(r.value.children);
        MaxOfCases(vals);
        assert (Unknown in vals) <==> exists i :: 0 <= i < |v.items| && r.value.children[i].nodeValue == Unknown by {
          if Unknown in vals {
            var i :| 0 <= i < |vals| && vals[i] == Unknown;
            assert r.value.children[i].nodeValue == Unknown;
          }
        }
      }
    }
  }

  // ---------------------------------------------------------------------------
  // A worked example

  /** The body `{assiette: b, taux: t}` of a multiplication. */
  function MultiplicationBody(b: string, t: string): Raw {
    JObject([Field(BaseKey, JString(b)), Field(RateName, JString(t))])
  }

  lemma MultiplicationBodyMembers(b: string, t: string)
    ensures Member(MultiplicationBody(b, t), BaseKey) == Some(JString(b))
    ensures Member(MultiplicationBody(b, t), RateName) == Some(JString(t))
  {
    var fs := MultiplicationBody(b, t).fields;
    assert Properties(MultiplicationBody(b, t)) == fs;
    assert fs[0].key != RateName by {
      assert |BaseKey| != |RateName|;
    }
    assert Lookup(fs[1..], RateName) == Some(JString(t));
    assert Lookup(fs, RateName) == Lookup(fs[1..], RateName);
  }

  /** The rate "12.8%" of a multiplication is the percentage 0.128. */
  lemma TwelvePointEightRate(ctx: Context, rule: Rule, b: string)
    requires RateName in ctx.mechanisms
    ensures RateOfMultiplication(ctx, rule, MultiplicationBody(b, "12.8%")) == Ok(PercentageNode(Num(0.128), RateText("12.8%")))
  {
    MultiplicationBodyMembers(b, "12.8%");
    TwelvePointEightPercent();
  }

  /** A one-key multiplication object is evaluated as its body. */
  lemma MultiplicationObject(ctx: Context, rule: Rule, body: Raw)
    requires MultiplicationName in ctx.mechanisms
    ensures Eval(ctx, rule, JObject([Field(MultiplicationName, body)])) == EvalMultiplication(ctx, rule, body)
  {
    ObjectIsItsMechanism(ctx, rule, [Field(MultiplicationName, body)], 0);
  }

  lemma ExampleProduct()
    ensures Multiply(Num(0.128), Num(1000.0)) == Num(128.0)
  {
    MultiplyCases(Num(0.128), Num(1000.0));
    assert 1000.0 * 0.128 == 128.0;
  }

  /** The body of a multiplication of the fact 1000 by the rate "12.8%" is worth 128. */
  lemma RateTimesBaseBody(ctx: Context, rule: Rule, b: string)
    requires RateName in ctx.mechanisms
    requires |ctx.parse(b)| > 0 && ctx.parse(b)[0].VariableRef?
    requires ctx.situation(BaseName(ctx, rule, b)) == Num(1000.0)
    ensures var r := EvalMultiplication(ctx, rule, MultiplicationBody(b, "12.8%"));
              && r.Ok? && r.value.MultiplicationNode?
              && r.value.nodeValue == Num(128.0)
              && r.value.base.missingVariables == []
  {
    MultiplicationBodyMembers(b, "12.8%");
    TwelvePointEightRate(ctx, rule, b);
    MultiplicationResult(ctx, rule, MultiplicationBody(b, "12.8%"), b, RateOfMultiplication(ctx, rule, MultiplicationBody(b, "12.8%")).value);
    ExampleProduct();
  }

  /** A multiplication of the fact 1000 by the rate "12.8%" is worth 128. */
  lemma RateTimesBase(ctx: Context, rule: Rule, b: string)
    requires MultiplicationName in ctx.mechanisms && RateName in ctx.mechanisms
    requires |ctx.parse(b)| > 0 && ctx.parse(b)[0].VariableRef?
    requires ctx.situation(BaseName(ctx, rule, b)) == Num(1000.0)
    ensures var r := Eval(ctx, rule, JObject([Field(MultiplicationName, MultiplicationBody(b, "12.8%"))]));
              && r.Ok? && r.value.MultiplicationNode?
              && r.value.nodeValue == Num(128.0)
              && r.value.base.missingVariables == []
  {
    MultiplicationObject(ctx, rule, MultiplicationBody(b, "12.8%"));
    RateTimesBaseBody(ctx, rule, b);
  }
}
