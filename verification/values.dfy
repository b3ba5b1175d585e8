/**
 The values a node of the evaluator can carry (`nodeValue` in the engine), and the
 JavaScript operators the engine applies to them: truthiness (`||`, `!`), loose
 equality with `null` and with `true`, strict equality with `0` and `false`, numeric
 conversion (unary `+`), multiplication and the ordering operators.

 Numbers are exact reals: rounding of IEEE-754 doubles is not modelled.
 */
module JsValues {

  datatype Val =
    | Unknown          // `null` (or `undefined`): a fact is missing
    | Bool(b: bool)
    | Num(x: real)     // a finite number
    | NaN              // the number NaN, e.g. `+"abc"`
    | Fn               // a function object, e.g. what `R.max` returns when given fewer than two arguments

  /** The three values of the engine's three-valued logic. */
  predicate ThreeValued(v: Val) {
    v.Unknown? || v.Bool?
  }

  /** JavaScript truthiness (`!!v`). */
  predicate Truthy(v: Val) {
    match v
    case Unknown => false
    case Bool(b) => b
    case Num(x) => x != 0.0
    case NaN => false
    case Fn => true
  }

  /** `v == null` */
  predicate LooselyNull(v: Val) {
    v.Unknown?
  }

  /** `v == true`: `true` is converted to the number 1 before comparing. */
  predicate LooselyTrue(v: Val)
    ensures LooselyTrue(v) ==> Truthy(v)
  {
    v == Bool(true) || v == Num(1.0)
  }

  /** Unary `+`: the numeric conversion, always a `Num` or `NaN`.
      `null` converts to 0; a function converts through its source text, which is never numeric. */
  function ToNumber(v: Val): (n: Val)
    ensures n.Num? || n.NaN?
    ensures v.Num? ==> n == v
  {
    match v
    case Unknown => Num(0.0)
    case Bool(b) => Num(if b then 1.0 else 0.0)
    case Num(x) => Num(x)
    case NaN => NaN
    case Fn => NaN
  }

  /** `a * b` */
  function Times(a: Val, b: Val): (r: Val)
    ensures r.Num? || r.NaN?
    ensures r.Num? <==> ToNumber(a).Num? && ToNumber(b).Num?
    ensures r.Num? ==> r.x == ToNumber(a).x * ToNumber(b).x
  {
    match (ToNumber(a), ToNumber(b))
    case (Num(x), Num(y)) => Num(x * y)
    case _ => NaN
  }

  /** `a / b` for a non-zero real divisor. */
  function Divide(a: Val, d: real): (r: Val)
    requires d != 0.0
    ensures a.Num? ==> r == Num(a.x / d)
    ensures !a.Num? ==> r == NaN
  {
    if a.Num? then Num(a.x / d) else NaN
  }

  /** The four ordering operators the engine knows (`R.lt`, `R.lte`, `R.gt`, `R.gte`). */
  predicate IsOrderingOperator(op: string) {
    op == "<" || op == "<=" || op == ">" || op == ">="
  }

  /** `a op b` for one of the ordering operators: both sides are converted to numbers,
      and any comparison with NaN is false. */
  predicate Holds(op: string, a: Val, b: Val)
    requires IsOrderingOperator(op)
  {
    var na := ToNumber(a);
    var nb := ToNumber(b);
    na.Num? && nb.Num? &&
    (if op == "<" then na.x < nb.x
     else if op == "<=" then na.x <= nb.x
     else if op == ">" then na.x > nb.x
     else na.x >= nb.x)
  }

  /** `*` converts both operands first and does not depend on their order. */
  lemma TimesConverts(a: Val, b: Val)
    ensures Times(a, b) == Times(ToNumber(a), ToNumber(b))
    ensures Times(a, b) == Times(b, a)
  {
  }

  /** Dividing by `d` undoes multiplying by `d`: the division is exact on numbers and keeps NaN. */
  lemma DivideUndoesTimes(a: Val, d: real)
    requires d != 0.0
    ensures Divide(Times(a, Num(d)), d) == ToNumber(a)
  {
    if ToNumber(a).Num? {
      var x := ToNumber(a).x;
      assert x * d / d == x;
    }
  }

  /** The ordering operators on converted operands: `<` and `>` are converses, as are `<=`
      and `>=`; `<=` is `<` or equality; on two numbers `<` and `>=` are complements; and
      NaN compares false with everything, so there they are not. */
  lemma HoldsCompares(a: Val, b: Val)
    ensures Holds("<", a, b) == Holds(">", b, a)
    ensures Holds("<=", a, b) == Holds(">=", b, a)
    ensures Holds("<=", a, b) <==> Holds("<", a, b) || (ToNumber(a).Num? && ToNumber(a) == ToNumber(b))
    ensures ToNumber(a).Num? && ToNumber(b).Num? ==> (Holds("<", a, b) <==> !Holds(">=", a, b))
    ensures ToNumber(a).NaN? || ToNumber(b).NaN? ==>
              !Holds("<", a, b) && !Holds("<=", a, b) && !Holds(">", a, b) && !Holds(">=", a, b)
  {
  }

  /** `R.max(a, b)`, which Ramda defines as `b > a ? b : a`. */
  function Max2(a: Val, b: Val): (r: Val)
    ensures r == a || r == b
    ensures a.Num? && b.Num? ==> r.Num? && r.x >= a.x && r.x >= b.x
  {
    if Holds(">", b, a) then b else a
  }
}
