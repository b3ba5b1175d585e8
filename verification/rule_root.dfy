/**
 The rule level of the engine: treating a whole rule (`treatRuleRoot`), choosing the
 rules to simulate (`selectedRules`) and analysing a situation (`analyseSituation`).

 A rule is treated field by field, in enumeration order (`R.evolve`): the applicability
 condition "non applicable si" and the "formule" are evaluated, every other field is
 kept as it is. The formula carries a short-circuit predicate, to be applied to the
 treated rule: it holds when the rule's condition has the value `true`.
 */
module RuleRoot {
  import opened Wrappers
  import opened JsValues
  import opened RawRules
  import opened Evaluator

  /** A field of a treated rule. */
  datatype RootValue =
    | Untouched(raw: Raw)                              // a field the engine does not treat
    | Condition(nodeValue: Val, explanation: Node)     // "non applicable si"
    | Formula(nodeValue: Val, explanation: Node)       // "formule"

  datatype RootField = RootField(key: string, value: RootValue)

  /** The keys of a rule that the treatment evaluates. */
  predicate IsTreatedKey(k: string) {
    k == NotApplicableKey || k == FormulaKey
  }

  /** The transformation `R.evolve` applies to one field. */
  function EvolveField(ctx: Context, rule: Rule, f: Field): (r: Result<RootField, Error>)
    ensures r.Ok? ==> r.value.key == f.key
    ensures f.key != NotApplicableKey && f.key != FormulaKey ==> r == Ok(RootField(f.key, Untouched(f.value)))
    ensures f.key == NotApplicableKey || f.key == FormulaKey ==> (r.Ok? <==> Eval(ctx, rule, f.value).Ok?)
    ensures f.key == NotApplicableKey && r.Ok? ==>
              r.value.value.Condition? && Eval(ctx, rule, f.value) == Ok(r.value.value.explanation) &&
              r.value.value.nodeValue == r.value.value.explanation.nodeValue
    ensures f.key == FormulaKey && r.Ok? ==>
              r.value.value.Formula? && Eval(ctx, rule, f.value) == Ok(r.value.value.explanation) &&
              r.value.value.nodeValue == r.value.value.explanation.nodeValue
    ensures r.Err? ==> Eval(ctx, rule, f.value) == Err(r.error)
  {
    if f.key == NotApplicableKey then
      var child :- Eval(ctx, rule, f.value);
      Ok(RootField(f.key, Condition(child.nodeValue, child)))
    else if f.key == FormulaKey then
      var child :- Eval(ctx, rule, f.value);
      Ok(RootField(f.key, Formula(child.nodeValue, child)))
    else Ok(RootField(f.key, Untouched(f.value)))
  }

  /** `R.evolve` over the fields of a rule, in order; the first error ends the treatment. */
  function EvolveFields(ctx: Context, rule: Rule, fs: seq<Field>): (r: Result<seq<RootField>, Error>)
    ensures r.Ok? ==> |r.value| == |fs|
  {
    if fs == [] then Ok([])
    else
      var first :- EvolveField(ctx, rule, fs[0]);
      var rest :- EvolveFields(ctx, rule, fs[1..]);
      Ok([first] + rest)
  }

  /** `treatRuleRoot` */
  function TreatRuleRoot(ctx: Context, rule: Rule): (r: Result<seq<RootField>, Error>)
    ensures r.Ok? ==> |r.value| == |rule.fields|
  {
    EvolveFields(ctx, rule, rule.fields)
  }

  /** The value of the first field of a treated rule with key `k`. */
  function LookupRoot(root: seq<RootField>, k: string): Option<RootValue> {
    if root == [] then None
    else if root[0].key == k then Some(root[0].value)
    else LookupRoot(root[1..], k)
  }

  /** The formula's short-circuit predicate (`R.pathEq(['non applicable si', 'nodeValue'], true)`)
      applied to a treated rule: its condition's value equals `true` in the sense of `R.equals`,
      so a condition worth `1` does not short-circuit. */
  predicate ShortCircuited(root: seq<RootField>) {
    match LookupRoot(root, NotApplicableKey)
    case Some(Condition(v, _)) => v == Bool(true)
    case _ => false
  }

  // ---------------------------------------------------------------------------
  // The simulation

  /** The names of the rules the simulation computes. */
  const SelectedNames: seq<string> :=
    ["CIF CDD", "fin de contrat", "majoration ch\U{00F4}mage CDD", "simplifi\U{00E9}e"]

  predicate IsSelected(rule: Rule) {
    RuleName(rule).Some? && RuleName(rule).value in SelectedNames
  }

  /** `selectedRules`: the rules of the catalogue whose name is one of the selected names,
      in catalogue order. */
  function SelectedRules(catalogue: seq<Rule>): (s: seq<Rule>)
    ensures |s| <= |catalogue|
    ensures forall i :: 0 <= i < |s| ==> IsSelected(s[i]) && s[i] in catalogue
    ensures forall i :: 0 <= i < |catalogue| && IsSelected(catalogue[i]) ==> catalogue[i] in s
  {
    if catalogue == [] then []
    else
      var rest := SelectedRules(catalogue[1..]);
      assert forall i :: 1 <= i < |catalogue| ==> catalogue[i] == catalogue[1..][i - 1];
      if IsSelected(catalogue[0]) then [catalogue[0]] + rest else rest
  }

  /** Treat every rule of a list, in order; the first error ends the analysis. */
  function TreatAll(ctx: Context, rules: seq<Rule>): (r: Result<seq<seq<RootField>>, Error>)
    ensures r.Ok? ==> |r.value| == |rules|
  {
    if rules == [] then Ok([])
    else
      var first :- TreatRuleRoot(ctx, rules[0]);
      var rest :- TreatAll(ctx, rules[1..]);
      Ok([first] + rest)
  }

  /** `analyseSituation`: the selected rules of the catalogue, each treated in the situation. */
  function AnalyseSituation(ctx: Context, catalogue: seq<Rule>): (r: Result<seq<seq<RootField>>, Error>)
    ensures r.Ok? ==> |r.value| == |SelectedRules(catalogue)|
  {
    TreatAll(ctx, SelectedRules(catalogue))
  }

  // ---------------------------------------------------------------------------
  // Properties of the treatment

  /** The fields are treated one by one: the treatment succeeds exactly when every field's
      does, and otherwise fails with the error of the first field that fails. */
  lemma {:induction false} EvolveFieldsPointwise(ctx: Context, rule: Rule, fs: seq<Field>)
    ensures EvolveFields(ctx, rule, fs).Ok? <==> forall i :: 0 <= i < |fs| ==> EvolveField(ctx, rule, fs[i]).Ok?
    ensures var r := EvolveFields(ctx, rule, fs);
              r.Ok? ==> forall i :: 0 <= i < |fs| ==> EvolveField(ctx, rule, fs[i]) == Ok(r.value[i])
    ensures var r := EvolveFields(ctx, rule, fs);
              r.Err? ==> exists i :: 0 <= i < |fs| && EvolveField(ctx, rule, fs[i]) == Err(r.error) &&
                                     forall j :: 0 <= j < i ==> EvolveField(ctx, rule, fs[j]).Ok?
    decreases |fs|
  {
    if fs != [] {
      var tail := fs[1..];
      EvolveFieldsPointwise(ctx, rule, tail);
      assert forall i :: 1 <= i < |fs| ==> fs[i] == tail[i - 1];
      var rest := EvolveFields(ctx, rule, tail);
      if EvolveField(ctx, rule, fs[0]).Ok? && rest.Err? {
        var i :| 0 <= i < |tail| && EvolveField(ctx, rule, tail[i]) == Err(rest.error) &&
                 forall j :: 0 <= j < i ==> EvolveField(ctx, rule, tail[j]).Ok?;
        assert EvolveField(ctx, rule, fs[i + 1]) == Err(rest.error);
      }
    }
  }

  /** A treated rule has the same keys in the same order, and every field other than the
      condition and the formula is kept unchanged. */
  lemma TreatRuleRootKeepsOtherFields(ctx: Context, rule: Rule)
    ensures var r := TreatRuleRoot(ctx, rule);
              r.Ok? ==> forall i :: 0 <= i < |rule.fields| ==> r.value[i].key == rule.fields[i].key
    ensures var r := TreatRuleRoot(ctx, rule);
              r.Ok? ==> forall i :: 0 <= i < |rule.fields| &&
                                    rule.fields[i].key != NotApplicableKey && rule.fields[i].key != FormulaKey ==>
                                    r.value[i].value == Untouched(rule.fields[i].value)
  {
    EvolveFieldsPointwise(ctx, rule, rule.fields);
  }

  /** Treating a rule fails exactly when evaluating its condition or its formula fails, and
      then with the error of the first of them in field order. */
  lemma TreatRuleRootFails(ctx: Context, rule: Rule)
    ensures var r := TreatRuleRoot(ctx, rule);
              r.Err? ==> exists i :: && 0 <= i < |rule.fields|
                                     && IsTreatedKey(rule.fields[i].key)
                                     && Eval(ctx, rule, rule.fields[i].value) == Err(r.error)
    ensures (forall i :: 0 <= i < |rule.fields| && IsTreatedKey(rule.fields[i].key) ==> Eval(ctx, rule, rule.fields[i].value).Ok?)
              ==> TreatRuleRoot(ctx, rule).Ok?
  {
    EvolveFieldsPointwise(ctx, rule, rule.fields);
  }

  /** The formula is evaluated even when the rule is not applicable: a failing formula makes the
      whole rule fail, whatever the value of its condition (`true` included). */
  lemma FormulaEvaluatedEvenWhenNotApplicable(ctx: Context, rule: Rule, c: Raw, f: Raw)
    requires rule.fields == [Field(NotApplicableKey, c), Field(FormulaKey, f)]
    requires Eval(ctx, rule, c).Ok?
    requires Eval(ctx, rule, f).Err?
    ensures TreatRuleRoot(ctx, rule) == Err(Eval(ctx, rule, f).error)
  {
    EvolveFieldsPointwise(ctx, rule, rule.fields);
    assert rule.fields[1..] == [Field(FormulaKey, f)];
    assert |NotApplicableKey| != |FormulaKey|;
  }

  /** The condition of a rule holds: its first "non applicable si" field evaluates to `true`. */
  predicate ConditionHolds(ctx: Context, rule: Rule) {
    match Lookup(rule.fields, NotApplicableKey)
    case None => false
    case Some(c) => Eval(ctx, rule, c).Ok? && Eval(ctx, rule, c).value.nodeValue == Bool(true)
  }

  lemma {:induction false} LookupAfterEvolve(ctx: Context, rule: Rule, fs: seq<Field>, root: seq<RootField>)
    requires EvolveFields(ctx, rule, fs) == Ok(root)
    ensures Lookup(fs, NotApplicableKey).None? <==> LookupRoot(root, NotApplicableKey).None?
    ensures Lookup(fs, NotApplicableKey).Some? ==>
              EvolveField(ctx, rule, Field(NotApplicableKey, Lookup(fs, NotApplicableKey).value)) ==
              Ok(RootField(NotApplicableKey, LookupRoot(root, NotApplicableKey).value))
    decreases |fs|
  {
    if fs != [] {
      var first := EvolveField(ctx, rule, fs[0]);
      var rest := EvolveFields(ctx, rule, fs[1..]);
      assert first.Ok? && rest.Ok? && root == [first.value] + rest.value;
      assert root[1..] == rest.value;
      assert Keys(fs) == [fs[0].key] + Keys(fs[1..]);
      if fs[0].key != NotApplicableKey {
        LookupAfterEvolve(ctx, rule, fs[1..], rest.value);
      } else {
        assert fs[0] == Field(NotApplicableKey, fs[0].value);
      }
    }
  }

  /** The formula short-circuits exactly when the rule's condition evaluates to `true`. */
  lemma ShortCircuitIffConditionTrue(ctx: Context, rule: Rule)
    requires TreatRuleRoot(ctx, rule).Ok?
    ensures ShortCircuited(TreatRuleRoot(ctx, rule).value) <==> ConditionHolds(ctx, rule)
  {
    LookupAfterEvolve(ctx, rule, rule.fields, TreatRuleRoot(ctx, rule).value);
  }

  // ---------------------------------------------------------------------------
  // Properties of the simulation

  /** Selection is a filter: it distributes over concatenation of catalogues. */
  lemma {:induction false} SelectedRulesAppend(a: seq<Rule>, b: seq<Rule>)
    ensures SelectedRules(a + b) == SelectedRules(a) + SelectedRules(b)
    decreases |a|
  {
    if a != [] {
      assert (a + b)[1..] == a[1..] + b;
      SelectedRulesAppend(a[1..], b);
    } else {
      assert a + b == b;
    }
  }

  lemma {:induction false} TreatAllPointwise(ctx: Context, rules: seq<Rule>)
    ensures TreatAll(ctx, rules).Ok? <==> forall i :: 0 <= i < |rules| ==> TreatRuleRoot(ctx, rules[i]).Ok?
    ensures var r := TreatAll(ctx, rules);
              r.Ok? ==> forall i :: 0 <= i < |rules| ==> TreatRuleRoot(ctx, rules[i]) == Ok(r.value[i])
    ensures var r := TreatAll(ctx, rules);
              r.Err? ==> exists i :: 0 <= i < |rules| && TreatRuleRoot(ctx, rules[i]) == Err(r.error) &&
                                     forall j :: 0 <= j < i ==> TreatRuleRoot(ctx, rules[j]).Ok?
    decreases |rules|
  {
    if rules != [] {
      var tail := rules[1..];
      TreatAllPointwise(ctx, tail);
      assert forall i :: 1 <= i < |rules| ==> rules[i] == tail[i - 1];
      var rest := TreatAll(ctx, tail);
      if TreatRuleRoot(ctx, rules[0]).Ok? && rest.Err? {
        var i :| 0 <= i < |tail| && TreatRuleRoot(ctx, tail[i]) == Err(rest.error) &&
                 forall j :: 0 <= j < i ==> TreatRuleRoot(ctx, tail[j]).Ok?;
        assert TreatRuleRoot(ctx, rules[i + 1]) == Err(rest.error);
      }
    }
  }

  /** The analysis holds one treated rule per selected rule, in catalogue order; one rule that
      fails makes the whole analysis fail. */
  lemma AnalyseSituationPointwise(ctx: Context, catalogue: seq<Rule>)
    ensures var sel := SelectedRules(catalogue);
              AnalyseSituation(ctx, catalogue).Ok? <==> forall i :: 0 <= i < |sel| ==> TreatRuleRoot(ctx, sel[i]).Ok?
    ensures var sel := SelectedRules(catalogue);
            var r := AnalyseSituation(ctx, catalogue);
              r.Ok? ==> forall i :: 0 <= i < |sel| ==> TreatRuleRoot(ctx, sel[i]) == Ok(r.value[i])
    ensures var sel := SelectedRules(catalogue);
            var r := AnalyseSituation(ctx, catalogue);
              r.Err? ==> exists i :: 0 <= i < |sel| && TreatRuleRoot(ctx, sel[i]) == Err(r.error)
  {
    TreatAllPointwise(ctx, SelectedRules(catalogue));
  }
}
