/**
 How the mechanisms combine the values of their children, separated from the tree walk:
 the reduce steps of "l'une de ces conditions" and "toutes ces conditions", the lock
 rule of "logique numérique", the zero-dominant product of "multiplication", and the
 spread `R.max` of "le maximum de".

 Each fold is written exactly as the engine's reduce step is (JavaScript truthiness and
 loose equality included) and is paired with an independent characterisation:
 Kleene disjunction, "first value that is not true", "first branch that is not false".
 */
module Folds {
  import opened JsValues

  // ---------------------------------------------------------------------------
  // Shared vocabulary

  predicate AllThreeValued(vals: seq<Val>) {
    forall i :: 0 <= i < |vals| ==> ThreeValued(vals[i])
  }

  predicate AnyTruthy(vals: seq<Val>) {
    exists i :: 0 <= i < |vals| && Truthy(vals[i])
  }

  /** The position of the first truthy value. */
  function FirstTruthy(vals: seq<Val>): (i: nat)
    requires AnyTruthy(vals)
    ensures i < |vals| && Truthy(vals[i])
    ensures forall j :: 0 <= j < i ==> !Truthy(vals[j])
  {
    if Truthy(vals[0]) then 0
    else
      assert AnyTruthy(vals[1..]) by {
        var k :| 0 <= k < |vals| && Truthy(vals[k]);
        assert vals[1..][k - 1] == vals[k];
      }
      1 + FirstTruthy(vals[1..])
  }

  /** The position of the first value that is not truthy. */
  function FirstFalsy(vals: seq<Val>): (i: nat)
    requires exists k :: 0 <= k < |vals| && !Truthy(vals[k])
    ensures i < |vals| && !Truthy(vals[i])
    ensures forall j :: 0 <= j < i ==> Truthy(vals[j])
  {
    if !Truthy(vals[0]) then 0
    else
      assert exists k :: 0 <= k < |vals[1..]| && !Truthy(vals[1..][k]) by {
        var k :| 0 <= k < |vals| && !Truthy(vals[k]);
        assert vals[1..][k - 1] == vals[k];
      }
      1 + FirstFalsy(vals[1..])
  }

  /** `b` is obtained from `a` by learning some of the unknown values. */
  predicate Completes(a: seq<Val>, b: seq<Val>) {
    |a| == |b| && forall i :: 0 <= i < |a| ==> a[i] == Unknown || a[i] == b[i]
  }

  // ---------------------------------------------------------------------------
  // "l'une de ces conditions"

  /** `nodeValue || nextValue || (nodeValue == null ? null : nextValue)` */
  function OrStep(acc: Val, next: Val): Val {
    if Truthy(acc) then acc
    else if Truthy(next) then next
    else if LooselyNull(acc) then Unknown
    else next
  }

  function OrFrom(acc: Val, vals: seq<Val>): Val
    decreases |vals|
  {
    if vals == [] then acc else OrFrom(OrStep(acc, vals[0]), vals[1..])
  }

  /** The reduce of "l'une de ces conditions", started at `false`. */
  function OrFold(vals: seq<Val>): Val {
    OrFrom(Bool(false), vals)
  }

  /** Kleene's three-valued disjunction. */
  function KleeneOr(vals: seq<Val>): Val {
    if Bool(true) in vals then Bool(true)
    else if Unknown in vals then Unknown
    else Bool(false)
  }

  /** Once truthy, the running value of the disjunction never changes. */
  lemma {:induction false} OrFromTruthy(acc: Val, vals: seq<Val>)
    requires Truthy(acc)
    ensures OrFrom(acc, vals) == acc
    decreases |vals|
  {
    if vals != [] {
      OrFromTruthy(OrStep(acc, vals[0]), vals[1..]);
    }
  }

  /** From a falsy running value: the first truthy value wins; failing that the result is
      unknown if anything met was unknown; failing that it is the last value met. */
  lemma {:induction false} OrFromFalsy(acc: Val, vals: seq<Val>)
    requires !Truthy(acc)
    ensures AnyTruthy(vals) ==> OrFrom(acc, vals) == vals[FirstTruthy(vals)]
    ensures !AnyTruthy(vals) && (acc == Unknown || Unknown in vals) ==> OrFrom(acc, vals) == Unknown
    ensures !AnyTruthy(vals) && acc != Unknown && Unknown !in vals ==>
              OrFrom(acc, vals) == if vals == [] then acc else vals[|vals| - 1]
    decreases |vals|
  {
    if vals != [] {
      var v := vals[0];
      var rest := vals[1..];
      assert vals == [v] + rest;
      if Truthy(v) {
        OrFromTruthy(v, rest);
      } else {
        var acc' := OrStep(acc, v);
        OrFromFalsy(acc', rest);
        assert AnyTruthy(vals) ==> AnyTruthy(rest) && FirstTruthy(vals) == 1 + FirstTruthy(rest) by {
          if AnyTruthy(vals) {
            var k :| 0 <= k < |vals| && Truthy(vals[k]);
            assert rest[k - 1] == vals[k];
          }
        }
        assert AnyTruthy(rest) ==> AnyTruthy(vals) by {
          if AnyTruthy(rest) {
            var k :| 0 <= k < |rest| && Truthy(rest[k]);
            assert vals[k + 1] == rest[k];
          }
        }
      }
    }
  }

  /** What the disjunction computes for any values: the first truthy value, else unknown
      if some value is unknown, else the last value (`false` when there is none). */
  lemma OrFoldCharacterised(vals: seq<Val>)
    ensures AnyTruthy(vals) ==> OrFold(vals) == vals[FirstTruthy(vals)]
    ensures !AnyTruthy(vals) && Unknown in vals ==> OrFold(vals) == Unknown
    ensures !AnyTruthy(vals) && Unknown !in vals ==>
              OrFold(vals) == if vals == [] then Bool(false) else vals[|vals| - 1]
  {
    OrFromFalsy(Bool(false), vals);
  }

  /** On three-valued children the disjunction is exactly Kleene's OR: true if any child is
      true, else unknown if any child is unknown, else false. */
  lemma OrFoldIsKleeneOr(vals: seq<Val>)
    requires AllThreeValued(vals)
    ensures OrFold(vals) == KleeneOr(vals)
  {
    OrFoldCharacterised(vals);
    if AnyTruthy(vals) {
      assert vals[FirstTruthy(vals)] == Bool(true);
    } else if Unknown !in vals && vals != [] {
      assert ThreeValued(vals[|vals| - 1]);
    }
  }

  /** One step of the disjunction is Kleene's OR of the running value and the next child. */
  lemma OrStepIsKleeneOr(acc: Val, next: Val)
    requires ThreeValued(acc) && ThreeValued(next)
    ensures OrStep(acc, next) == KleeneOr([acc, next])
  {
  }

  /** The disjunction of three-valued conditions does not depend on their order: any
      rearrangement of the children gives the same value. */
  lemma OrFoldSymmetric(a: seq<Val>, b: seq<Val>)
    requires AllThreeValued(a) && multiset(a) == multiset(b)
    ensures OrFold(a) == OrFold(b)
  {
    assert forall v :: v in a <==> v in b by {
      forall v
        ensures v in a <==> v in b
      {
        assert v in a <==> v in multiset(a);
        assert v in b <==> v in multiset(b);
      }
    }
    assert AllThreeValued(b) by {
      forall i | 0 <= i < |b|
        ensures ThreeValued(b[i])
      {
        assert b[i] in multiset(b);
        assert b[i] in a;
      }
    }
    OrFoldIsKleeneOr(a);
    OrFoldIsKleeneOr(b);
  }

  /** A known disjunction stays the same whatever the unknown children turn out to be. */
  lemma OrFoldSound(a: seq<Val>, b: seq<Val>)
    requires AllThreeValued(a) && AllThreeValued(b) && Completes(a, b)
    requires OrFold(a) != Unknown
    ensures OrFold(b) == OrFold(a)
  {
    OrFoldIsKleeneOr(a);
    OrFoldIsKleeneOr(b);
    if Bool(true) in a {
      var k :| 0 <= k < |a| && a[k] == Bool(true);
      assert b[k] == Bool(true);
    } else {
      assert a == b;
    }
  }

  // ---------------------------------------------------------------------------
  // "toutes ces conditions"

  /** `!nodeValue ? nodeValue : nextValue` */
  function AndStep(acc: Val, next: Val): Val {
    if !Truthy(acc) then acc else next
  }

  function AndFrom(acc: Val, vals: seq<Val>): Val
    decreases |vals|
  {
    if vals == [] then acc else AndFrom(AndStep(acc, vals[0]), vals[1..])
  }

  /** The reduce of "toutes ces conditions", started at `true`. */
  function AndFold(vals: seq<Val>): Val {
    AndFrom(Bool(true), vals)
  }

  /** The conjunction as the engine means it on three-valued children: the first child that
      is not true decides, and all children true gives true. */
  function FirstNotTrue(vals: seq<Val>): Val {
    if vals == [] then Bool(true)
    else if vals[0] != Bool(true) then vals[0]
    else FirstNotTrue(vals[1..])
  }

  /** Kleene's three-valued conjunction, which the engine does NOT compute. */
  function KleeneAnd(vals: seq<Val>): Val {
    if Bool(false) in vals then Bool(false)
    else if Unknown in vals then Unknown
    else Bool(true)
  }

  /** One step of the conjunction is the first of the running value and the next child
      that is not true. */
  lemma AndStepIsFirstNotTrue(acc: Val, next: Val)
    requires ThreeValued(acc) && ThreeValued(next)
    ensures AndStep(acc, next) == FirstNotTrue([acc, next])
  {
    assert [acc, next][1..] == [next];
    assert [next][1..] == [];
    assert FirstNotTrue([next]) == next;
  }

  lemma {:induction false} AndFromFalsy(acc: Val, vals: seq<Val>)
    requires !Truthy(acc)
    ensures AndFrom(acc, vals) == acc
    decreases |vals|
  {
    if vals != [] {
      AndFromFalsy(AndStep(acc, vals[0]), vals[1..]);
    }
  }

  /** From a truthy running value the first falsy child freezes the result; with none, the
      result is the last child (the running value when there is none). */
  lemma {:induction false} AndFromTruthy(acc: Val, vals: seq<Val>)
    requires Truthy(acc)
    ensures (exists k :: 0 <= k < |vals| && !Truthy(vals[k])) ==> AndFrom(acc, vals) == vals[FirstFalsy(vals)]
    ensures (forall k :: 0 <= k < |vals| ==> Truthy(vals[k])) ==>
              AndFrom(acc, vals) == if vals == [] then acc else vals[|vals| - 1]
    decreases |vals|
  {
    if vals != [] {
      var v := vals[0];
      var rest := vals[1..];
      if !Truthy(v) {
        AndFromFalsy(v, rest);
      } else {
        AndFromTruthy(v, rest);
        if exists k :: 0 <= k < |vals| && !Truthy(vals[k]) {
          var k :| 0 <= k < |vals| && !Truthy(vals[k]);
          assert rest[k - 1] == vals[k];
          assert FirstFalsy(vals) == 1 + FirstFalsy(rest);
        } else {
          assert forall k :: 0 <= k < |rest| ==> rest[k] == vals[k + 1];
        }
      }
    }
  }

  /** What the conjunction computes for any values: the first falsy child, else the last
      child (`true` when there is none). */
  lemma AndFoldCharacterised(vals: seq<Val>)
    ensures (exists k :: 0 <= k < |vals| && !Truthy(vals[k])) ==> AndFold(vals) == vals[FirstFalsy(vals)]
    ensures (forall k :: 0 <= k < |vals| ==> Truthy(vals[k])) ==>
              AndFold(vals) == if vals == [] then Bool(true) else vals[|vals| - 1]
  {
    AndFromTruthy(Bool(true), vals);
  }

  lemma {:induction false} FirstNotTrueIsFirstFalsy(vals: seq<Val>)
    requires AllThreeValued(vals)
    ensures (exists k :: 0 <= k < |vals| && !Truthy(vals[k])) ==> FirstNotTrue(vals) == vals[FirstFalsy(vals)]
    ensures (forall k :: 0 <= k < |vals| ==> Truthy(vals[k])) ==> FirstNotTrue(vals) == Bool(true)
    decreases |vals|
  {
    if vals != [] {
      var rest := vals[1..];
      assert forall k :: 0 <= k < |rest| ==> rest[k] == vals[k + 1];
      FirstNotTrueIsFirstFalsy(rest);
      if vals[0] == Bool(true) {
        if exists k :: 0 <= k < |vals| && !Truthy(vals[k]) {
          var k :| 0 <= k < |vals| && !Truthy(vals[k]);
          assert rest[k - 1] == vals[k];
          assert FirstFalsy(vals) == 1 + FirstFalsy(rest);
        } else {
          assert forall k :: 0 <= k < |rest| ==> rest[k] == vals[k + 1];
        }
      } else {
        assert ThreeValued(vals[0]);
      }
    }
  }

  /** On three-valued children the conjunction starts at true and is frozen by the first
      child that is not true: `[null, false]` gives null and `[false, null]` gives false. */
  lemma AndFoldIsFirstNotTrue(vals: seq<Val>)
    requires AllThreeValued(vals)
    ensures AndFold(vals) == FirstNotTrue(vals)
  {
    AndFoldCharacterised(vals);
    FirstNotTrueIsFirstFalsy(vals);
    if forall k :: 0 <= k < |vals| ==> Truthy(vals[k]) {
      if vals != [] {
        assert ThreeValued(vals[|vals| - 1]) && Truthy(vals[|vals| - 1]);
      }
    }
  }

  /** The lock rule makes the conjunction depend on the order of its children, and makes it
      answer unknown where Kleene's AND already knows the answer is false. */
  lemma AndFoldIsOrderSensitive()
    ensures AndFold([Unknown, Bool(false)]) == Unknown
    ensures AndFold([Bool(false), Unknown]) == Bool(false)
    ensures KleeneAnd([Unknown, Bool(false)]) == Bool(false)
    ensures KleeneAnd([Bool(false), Unknown]) == Bool(false)
  {
    assert Bool(false) in [Bool(false), Unknown];
    AndFoldIsFirstNotTrue([Unknown, Bool(false)]);
    AndFoldIsFirstNotTrue([Bool(false), Unknown]);
    assert Bool(false) in [Unknown, Bool(false)];
  }

  /** A known conjunction stays the same whatever the unknown children turn out to be. */
  lemma AndFoldSound(a: seq<Val>, b: seq<Val>)
    requires AllThreeValued(a) && AllThreeValued(b) && Completes(a, b)
    requires AndFold(a) != Unknown
    ensures AndFold(b) == AndFold(a)
  {
    AndFoldIsFirstNotTrue(a);
    AndFoldIsFirstNotTrue(b);
    FirstNotTrueSound(a, b);
  }

  lemma {:induction false} FirstNotTrueSound(a: seq<Val>, b: seq<Val>)
    requires Completes(a, b)
    requires FirstNotTrue(a) != Unknown
    ensures FirstNotTrue(b) == FirstNotTrue(a)
    decreases |a|
  {
    if a != [] && a[0] == Bool(true) {
      assert b[0] == Bool(true);
      assert forall i :: 0 <= i < |a[1..]| ==> a[1..][i] == a[i + 1] && b[1..][i] == b[i + 1];
      FirstNotTrueSound(a[1..], b[1..]);
    }
  }

  // ---------------------------------------------------------------------------
  // "logique numérique"

  /** What one proposition offers: unknown when its condition is unknown, its consequence's
      value when the condition is (loosely) true, `false` ("does not apply") otherwise. */
  function Contribution(condition: Val, consequence: Val): (c: Val)
    ensures LooselyNull(condition) ==> c == Unknown
    ensures !LooselyNull(condition) && LooselyTrue(condition) ==> c == consequence
    ensures !LooselyNull(condition) && !LooselyTrue(condition) ==> c == Bool(false)
  {
    if LooselyNull(condition) then Unknown
    else if LooselyTrue(condition) then consequence
    else Bool(false)
  }

  /** `nodeValue == null ? null : nodeValue !== false ? nodeValue : nextNodeValue` */
  function NumericStep(acc: Val, next: Val): Val {
    if LooselyNull(acc) then Unknown
    else if acc != Bool(false) then acc
    else next
  }

  function NumericFrom(acc: Val, cs: seq<Val>): Val
    decreases |cs|
  {
    if cs == [] then acc else NumericFrom(NumericStep(acc, cs[0]), cs[1..])
  }

  /** The reduce of "logique numérique" over the propositions' contributions, started at `false`. */
  function NumericFold(cs: seq<Val>): Val {
    NumericFrom(Bool(false), cs)
  }

  /** The first contribution other than `false`, or `false` when there is none. */
  function FirstApplicable(cs: seq<Val>): Val {
    if cs == [] then Bool(false)
    else if cs[0] != Bool(false) then cs[0]
    else FirstApplicable(cs[1..])
  }

  /** One step of the lock rule is the first of the running value and the next contribution
      that is not `false`, for any values. */
  lemma NumericStepIsFirstApplicable(acc: Val, next: Val)
    ensures NumericStep(acc, next) == FirstApplicable([acc, next])
  {
    assert [acc, next][1..] == [next];
    assert [next][1..] == [];
    assert FirstApplicable([next]) == next;
  }

  lemma {:induction false} NumericFromLocked(acc: Val, cs: seq<Val>)
    requires acc != Bool(false)
    ensures NumericFrom(acc, cs) == acc
    decreases |cs|
  {
    if cs != [] {
      NumericFromLocked(NumericStep(acc, cs[0]), cs[1..]);
    }
  }

  /** The lock rule: the first proposition whose contribution is not `false` (an unknown
      condition, or a true condition with any consequence, `0` included) fixes the result. */
  lemma {:induction false} NumericFoldIsFirstApplicable(cs: seq<Val>)
    ensures NumericFold(cs) == FirstApplicable(cs)
    decreases |cs|
  {
    if cs != [] {
      if cs[0] != Bool(false) {
        NumericFromLocked(cs[0], cs[1..]);
      } else {
        NumericFoldIsFirstApplicable(cs[1..]);
      }
    }
  }

  /** The contributions of propositions with condition values `conds` and consequence values `conseqs`. */
  function Contributions(conds: seq<Val>, conseqs: seq<Val>): (cs: seq<Val>)
    requires |conds| == |conseqs|
    ensures |cs| == |conds|
    ensures forall i :: 0 <= i < |cs| ==> cs[i] == Contribution(conds[i], conseqs[i])
  {
    seq(|conds|, i requires 0 <= i < |conds| => Contribution(conds[i], conseqs[i]))
  }

  /** No proposition before `i` applies: each condition is known and not true. */
  predicate NoneApplyBefore(conds: seq<Val>, i: nat)
    requires i <= |conds|
  {
    forall j :: 0 <= j < i ==> !LooselyNull(conds[j]) && !LooselyTrue(conds[j])
  }

  lemma {:induction false} FirstApplicableAt(cs: seq<Val>, i: nat)
    requires i < |cs|
    requires forall j :: 0 <= j < i ==> cs[j] == Bool(false)
    ensures FirstApplicable(cs) == FirstApplicable(cs[i..])
    decreases i
  {
    if i > 0 {
      assert cs[1..][i - 1..] == cs[i..];
      FirstApplicableAt(cs[1..], i - 1);
    }
  }

  /** The first proposition whose condition is true and whose consequence is not `false`
      decides the result, even when that consequence is 0 and a later condition is true too. */
  lemma NumericFirstTrueWins(conds: seq<Val>, conseqs: seq<Val>, i: nat)
    requires |conds| == |conseqs| && i < |conds|
    requires NoneApplyBefore(conds, i)
    requires LooselyTrue(conds[i]) && conseqs[i] != Bool(false)
    ensures NumericFold(Contributions(conds, conseqs)) == conseqs[i]
  {
    var cs := Contributions(conds, conseqs);
    NumericFoldIsFirstApplicable(cs);
    FirstApplicableAt(cs, i);
  }

  /** An unknown condition met while no earlier proposition applies makes the whole
      result unknown, whatever the later propositions say. */
  lemma NumericUnknownLocks(conds: seq<Val>, conseqs: seq<Val>, i: nat)
    requires |conds| == |conseqs| && i < |conds|
    requires NoneApplyBefore(conds, i)
    requires LooselyNull(conds[i])
    ensures NumericFold(Contributions(conds, conseqs)) == Unknown
  {
    var cs := Contributions(conds, conseqs);
    NumericFoldIsFirstApplicable(cs);
    FirstApplicableAt(cs, i);
  }

  lemma {:induction false} FirstApplicableAllFalse(cs: seq<Val>)
    requires forall j :: 0 <= j < |cs| ==> cs[j] == Bool(false)
    ensures FirstApplicable(cs) == Bool(false)
    decreases |cs|
  {
    if cs != [] {
      FirstApplicableAllFalse(cs[1..]);
    }
  }

  /** When every condition is false the result is `false`. */
  lemma NumericAllFalse(conds: seq<Val>, conseqs: seq<Val>)
    requires |conds| == |conseqs|
    requires NoneApplyBefore(conds, |conds|)
    ensures NumericFold(Contributions(conds, conseqs)) == Bool(false)
  {
    var cs := Contributions(conds, conseqs);
    NumericFoldIsFirstApplicable(cs);
    FirstApplicableAllFalse(cs);
  }

  /** A known result stays the same whatever the unknown contributions turn out to be. */
  lemma {:induction false} NumericFoldSound(a: seq<Val>, b: seq<Val>)
    requires Completes(a, b)
    requires NumericFold(a) != Unknown
    ensures NumericFold(b) == NumericFold(a)
    decreases |a|
  {
    NumericFoldIsFirstApplicable(a);
    NumericFoldIsFirstApplicable(b);
    if a != [] && a[0] == Bool(false) {
      assert b[0] == Bool(false);
      assert forall i :: 0 <= i < |a[1..]| ==> a[1..][i] == a[i + 1] && b[1..][i] == b[i + 1];
      NumericFoldIsFirstApplicable(a[1..]);
      NumericFoldIsFirstApplicable(b[1..]);
      NumericFoldSound(a[1..], b[1..]);
    }
  }

  // ---------------------------------------------------------------------------
  // "multiplication"

  /** The product of a rate and a base fact:
      `(rate === 0 || rate === false || base === 0) ? 0
       : (rate == null || base == null) ? null : +base * rate` */
  function Multiply(rate: Val, base: Val): Val {
    if rate == Num(0.0) || rate == Bool(false) || base == Num(0.0) then Num(0.0)
    else if LooselyNull(rate) || LooselyNull(base) then Unknown
    else Times(ToNumber(base), rate)
  }

  /** Zero dominates: a zero rate, a `false` rate or a zero base gives 0, even when the
      other factor is unknown. Otherwise an unknown factor gives unknown, and two known
      numbers give their product. */
  lemma MultiplyCases(rate: Val, base: Val)
    ensures rate == Num(0.0) || rate == Bool(false) || base == Num(0.0) ==> Multiply(rate, base) == Num(0.0)
    ensures rate != Num(0.0) && rate != Bool(false) && base != Num(0.0) ==>
              (Multiply(rate, base) == Unknown <==> rate == Unknown || base == Unknown)
    ensures rate.Num? && base.Num? ==> Multiply(rate, base) == Num(base.x * rate.x)
  {
  }

  /** Zero dominance never guesses: a known product stays the same whatever the unknown
      factor turns out to be. */
  lemma MultiplySound(rate: Val, base: Val, rate': Val, base': Val)
    requires rate == Unknown || rate' == rate
    requires base == Unknown || base' == base
    requires Multiply(rate, base) != Unknown
    ensures Multiply(rate', base') == Multiply(rate, base)
  {
  }

  // ---------------------------------------------------------------------------
  // "le maximum de"

  /** `R.max(...values)`: Ramda's `max` is curried on two arguments, so with two or more
      values only the first two are compared, and with fewer it returns a function. */
  function SpreadMax(vals: seq<Val>): Val {
    if |vals| < 2 then Fn else Max2(vals[0], vals[1])
  }

  /** `stopEverything ? null : maxValue` */
  function MaxOf(vals: seq<Val>): Val {
    if Unknown in vals then Unknown else SpreadMax(vals)
  }

  /** The maximum is unknown exactly when one of the contenders is unknown; with two or more
      numeric contenders it is the larger of the FIRST TWO. */
  lemma MaxOfCases(vals: seq<Val>)
    ensures MaxOf(vals) == Unknown <==> Unknown in vals
    ensures Unknown !in vals && |vals| < 2 ==> MaxOf(vals) == Fn
    ensures Unknown !in vals && |vals| >= 2 && vals[0].Num? && vals[1].Num? ==>
              MaxOf(vals).Num? && MaxOf(vals).x == (if vals[0].x >= vals[1].x then vals[0].x else vals[1].x)
  {
  }

  /** Contenders after the second never influence the result. */
  lemma MaxOfIgnoresLaterContenders(vals: seq<Val>, later: seq<Val>)
    requires |vals| >= 2 && Unknown !in vals && Unknown !in later
    ensures MaxOf(vals + later) == MaxOf(vals[..2])
  {
    assert (vals + later)[0] == vals[0] && (vals + later)[1] == vals[1];
  }

  /** `[3, 5, 9]` gives 5, not 9. */
  lemma MaxOfThreeGivesSecond()
    ensures MaxOf([Num(3.0), Num(5.0), Num(9.0)]) == Num(5.0)
  {
  }

  /** The maximum is known only when every contender is known, so it never guesses. */
  lemma MaxOfSound(a: seq<Val>, b: seq<Val>)
    requires Completes(a, b)
    requires MaxOf(a) != Unknown
    ensures MaxOf(b) == MaxOf(a)
  {
    assert a == b by {
      forall i | 0 <= i < |a|
        ensures a[i] == b[i]
      {
        assert a[i] != Unknown;
      }
    }
  }
}
