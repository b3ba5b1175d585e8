/**
 Conversion of rate strings to numbers: the unary `+` the engine applies to a string
 (`+s`, JavaScript's StringToNumber) and `transformPercentage`, which turns
 `"12.8%"` into 0.128 and `"5"` into 5.
 */
module NumberText {
  import opened Wrappers
  import opened JsValues

  predicate IsDigit(c: char) {
    '0' <= c <= '9'
  }

  predicate AllDigits(s: string) {
    forall i :: 0 <= i < |s| ==> IsDigit(s[i])
  }

  function DigitValue(c: char): nat
    requires IsDigit(c)
  {
    (c as int - '0' as int) as nat
  }

  function DigitChar(d: nat): (c: char)
    requires d < 10
    ensures IsDigit(c) && DigitValue(c) == d
  {
    ('0' as int + d) as char
  }

  /** The number a string of decimal digits denotes (0 for the empty string). */
  function DigitsValue(s: string): nat
    requires AllDigits(s)
    decreases |s|
  {
    if s == [] then 0 else DigitsValue(s[..|s| - 1]) * 10 + DigitValue(s[|s| - 1])
  }

  function Pow10(n: nat): (p: nat)
    ensures p >= 1
  {
    if n == 0 then 1 else 10 * Pow10(n - 1)
  }

  /** 10 raised to an integer exponent. */
  function Scale(e: int): (r: real)
    ensures r > 0.0
  {
    if e >= 0 then Pow10(e) as real else 1.0 / Pow10(-e) as real
  }

  /** The decimal spelling of a natural number, without leading zeros; this is also
      how JavaScript names the index properties of an array ("0", "1", ...). */
  function NatToString(n: nat): (s: string)
    ensures |s| >= 1 && AllDigits(s)
  {
    if n < 10 then [DigitChar(n)] else NatToString(n / 10) + [DigitChar(n % 10)]
  }

  /** The length of the longest prefix of `s` made of digits. */
  function DigitRun(s: string): (n: nat)
    ensures n <= |s| && AllDigits(s[..n])
    ensures n < |s| ==> !IsDigit(s[n])
  {
    if s == [] || !IsDigit(s[0]) then 0
    else
      var n := 1 + DigitRun(s[1..]);
      assert s[..n] == [s[0]] + s[1..][..n - 1];
      n
  }

  /** The white space and line terminators JavaScript strips before converting a string. */
  predicate IsJsSpace(c: char) {
    c == ' ' || c == '\t' || c == '\n' || c == '\r' || c == '\U{000B}' || c == '\U{000C}'
    || c == '\U{00A0}' || c == '\U{1680}' || ('\U{2000}' <= c <= '\U{200A}')
    || c == '\U{2028}' || c == '\U{2029}' || c == '\U{202F}' || c == '\U{205F}'
    || c == '\U{3000}' || c == '\U{FEFF}'
  }

  function TrimStart(s: string): (t: string)
    ensures t == [] || !IsJsSpace(t[0])
    ensures |t| <= |s| && t == s[|s| - |t|..]
  {
    if s != [] && IsJsSpace(s[0]) then TrimStart(s[1..]) else s
  }

  function TrimEnd(s: string): (t: string)
    ensures t == [] || !IsJsSpace(t[|t| - 1])
    ensures |t| <= |s| && t == s[..|t|]
  {
    if s != [] && IsJsSpace(s[|s| - 1]) then TrimEnd(s[..|s| - 1]) else s
  }

  function Trim(s: string): string {
    TrimEnd(TrimStart(s))
  }

  /** An exponent part `e12`, `E-3`, `e+0`: the letter, an optional sign, at least one digit. */
  function ParseExponent(s: string): Option<int> {
    if |s| < 2 || (s[0] != 'e' && s[0] != 'E') then None
    else
      var body := s[1..];
      var digits := if body[0] == '+' || body[0] == '-' then body[1..] else body;
      if digits == [] || !AllDigits(digits) then None
      else if body[0] == '-' then Some(-(DigitsValue(digits) as int))
      else Some(DigitsValue(digits))
  }

  /** The value of `whole.frac`. */
  function Mantissa(whole: string, frac: string): real
    requires AllDigits(whole) && AllDigits(frac)
  {
    DigitsValue(whole) as real + DigitsValue(frac) as real / Pow10(|frac|) as real
  }

  /** The rest of a decimal literal once its integer digits and fraction digits are read:
      nothing, or an exponent part. At least one digit must have been read. */
  function ParseTail(whole: string, frac: string, rest: string): Option<real>
    requires AllDigits(whole) && AllDigits(frac)
  {
    if |whole| + |frac| == 0 then None
    else if rest == [] then Some(Mantissa(whole, frac))
    else
      match ParseExponent(rest)
      case None => None
      case Some(e) => Some(Mantissa(whole, frac) * Scale(e))
  }

  /** The part of a decimal literal after its integer digits: an optional `.` and fraction. */
  function ParseAfterWhole(whole: string, after: string): Option<real>
    requires AllDigits(whole)
  {
    if |after| > 0 && after[0] == '.' then
      var j := DigitRun(after[1..]);
      ParseTail(whole, after[1..][..j], after[1..][j..])
    else
      ParseTail(whole, "", after)
  }

  /** An unsigned decimal literal, `12`, `12.`, `12.8`, `.8`, each with an optional
      exponent part; `None` when the whole string is not one. */
  function ParseUnsigned(t: string): Option<real> {
    var i := DigitRun(t);
    ParseAfterWhole(t[..i], t[i..])
  }

  /** A trimmed, non-empty string: an optional sign then an unsigned decimal literal. */
  function ParseSigned(t: string): Val
    requires t != []
  {
    if t[0] == '+' || t[0] == '-' then
      match ParseUnsigned(t[1..])
      case Some(x) => Num(if t[0] == '-' then -x else x)
      case None => NaN
    else
      match ParseUnsigned(t)
      case Some(x) => Num(x)
      case None => NaN
  }

  /** Unary `+` on a string: surrounding white space is ignored, the empty string is 0,
      a signed decimal literal is its value, anything else is NaN. */
  function StringToNumber(s: string): (n: Val)
    ensures n.Num? || n.NaN?
  {
    var t := Trim(s);
    if t == [] then Num(0.0) else ParseSigned(t)
  }

  /** The position of the first occurrence of `c` in `s`. */
  function IndexOf(s: string, c: char): (i: nat)
    requires c in s
    ensures i < |s| && s[i] == c && c !in s[..i]
  {
    if s[0] == c then 0
    else
      var i := 1 + IndexOf(s[1..], c);
      assert s[..i] == [s[0]] + s[1..][..i - 1];
      i
  }

  /** `s.replace(c, '')` with a one-character pattern: only the FIRST occurrence is removed. */
  function RemoveFirst(s: string, c: char): string {
    if c in s then s[..IndexOf(s, c)] + s[IndexOf(s, c) + 1..] else s
  }

  /** `transformPercentage`: a rate containing `%` is the number written without its
      first `%`, divided by 100; any other rate is the number written. */
  function TransformPercentage(s: string): Val {
    if '%' in s then Divide(StringToNumber(RemoveFirst(s, '%')), 100.0) else StringToNumber(s)
  }

  // ---------------------------------------------------------------------------
  // Properties

  lemma {:induction false} DigitsValueOfNatToString(n: nat)
    ensures DigitsValue(NatToString(n)) == n
  {
    if n >= 10 {
      var s := NatToString(n / 10);
      var t := s + [DigitChar(n % 10)];
      assert t[..|t| - 1] == s;
      DigitsValueOfNatToString(n / 10);
    }
  }

  lemma {:induction false} DigitsValueAppend(s: string, c: char)
    requires AllDigits(s) && IsDigit(c)
    ensures AllDigits(s + [c])
    ensures DigitsValue(s + [c]) == DigitsValue(s) * 10 + DigitValue(c)
  {
    assert (s + [c])[..|s + [c]| - 1] == s;
  }

  /** A run of digits followed by a non-digit (or nothing) is read up to its end. */
  lemma {:induction false} DigitRunOfDigitsThen(w: string, rest: string)
    requires AllDigits(w)
    requires rest == [] || !IsDigit(rest[0])
    ensures DigitRun(w + rest) == |w|
  {
    if w != [] {
      assert (w + rest)[1..] == w[1..] + rest;
      DigitRunOfDigitsThen(w[1..], rest);
    } else {
      assert w + rest == rest;
    }
  }

  /** A string whose ends are not white space is its own trim. */
  lemma TrimOfSolid(t: string)
    requires t != [] && !IsJsSpace(t[0]) && !IsJsSpace(t[|t| - 1])
    ensures Trim(t) == t
  {
  }

  /** A literal with no fraction and no exponent denotes its digits' value. */
  lemma WholeOnly(w: string)
    requires AllDigits(w) && |w| >= 1
    ensures ParseAfterWhole(w, []) == Some(DigitsValue(w) as real)
  {
    assert DigitsValue("") == 0 && Pow10(0) == 1;
  }

  /** A non-empty digit string is an unsigned literal denoting its digits' value. */
  lemma UnsignedOfDigits(t: string)
    requires AllDigits(t) && |t| >= 1
    ensures ParseUnsigned(t) == Some(DigitsValue(t) as real)
  {
    DigitRunOfDigitsThen(t, []);
    assert t + [] == t;
    assert t[..|t|] == t && t[|t|..] == [];
    WholeOnly(t);
  }

  /** `w.f` is an unsigned literal denoting its mantissa. */
  lemma UnsignedOfDecimal(w: string, f: string)
    requires AllDigits(w) && AllDigits(f) && |w| >= 1
    ensures ParseUnsigned(w + "." + f) == Some(Mantissa(w, f))
  {
    var after := "." + f;
    var t := w + after;
    assert w + "." + f == t;
    DigitRunOfDigitsThen(w, after);
    assert t[..|w|] == w && t[|w|..] == after;
    assert after[1..] == f + [];
    DigitRunOfDigitsThen(f, []);
    assert f + [] == f;
    assert f[..|f|] == f && f[|f|..] == [];
  }

  /** A string that starts with a digit and whose ends are not white space converts
      as an unsigned literal. */
  lemma ConvertsUnsigned(t: string)
    requires t != [] && IsDigit(t[0]) && !IsJsSpace(t[|t| - 1])
    ensures StringToNumber(t) == (match ParseUnsigned(t) case Some(x) => Num(x) case None => NaN)
  {
    TrimOfSolid(t);
  }

  /** A digit string with a fraction converts to its exact decimal value. */
  lemma DecimalConverts(w: string, f: string)
    requires AllDigits(w) && AllDigits(f) && |w| >= 1
    ensures StringToNumber(w + "." + f) == Num(Mantissa(w, f))
  {
    var t := w + "." + f;
    assert t[0] == w[0];
    assert t[|t| - 1] == (if f == [] then '.' else f[|f| - 1]);
    ConvertsUnsigned(t);
    UnsignedOfDecimal(w, f);
  }

  lemma NaturalConverts(n: nat)
    ensures StringToNumber(NatToString(n)) == Num(n as real)
  {
    var t := NatToString(n);
    ConvertsUnsigned(t);
    UnsignedOfDigits(t);
    DigitsValueOfNatToString(n);
  }

  lemma NoPercentInDigits(s: string)
    requires AllDigits(s)
    ensures '%' !in s
  {
  }

  /** `"<n>%"` is the rate n / 100. */
  lemma PercentOfNatural(n: nat)
    ensures TransformPercentage(NatToString(n) + "%") == Num(n as real / 100.0)
  {
    var s := NatToString(n);
    NoPercentInDigits(s);
    calc {
      TransformPercentage(s + "%");
    == { PercentAppended(s); }
      Divide(StringToNumber(s), 100.0);
    == { NaturalConverts(n); }
      Divide(Num(n as real), 100.0);
    ==
      Num(n as real / 100.0);
    }
  }

  /** A rate without `%` is the plain number it spells. */
  lemma PlainRateOfNatural(n: nat)
    ensures TransformPercentage(NatToString(n)) == Num(n as real)
  {
    NoPercentInDigits(NatToString(n));
    NaturalConverts(n);
  }

  lemma MantissaTwelvePointEight()
    ensures AllDigits("12") && AllDigits("8")
    ensures Mantissa("12", "8") == 12.8
  {
    DigitsValueAppend("1", '2');
    assert "1" + ['2'] == "12";
    DigitsValueAppend("", '1');
    assert "" + ['1'] == "1";
    DigitsValueAppend("", '8');
    assert "" + ['8'] == "8";
    assert Pow10(1) == 10;
  }

  /** `"12.8"` is the number 12.8. */
  lemma TwelvePointEight()
    ensures StringToNumber("12.8") == Num(12.8)
  {
    MantissaTwelvePointEight();
    DecimalConverts("12", "8");
    assert "12" + "." + "8" == "12.8";
  }

  /** `"12.8%"` is the rate 0.128. */
  lemma TwelvePointEightPercent()
    ensures TransformPercentage("12.8%") == Num(0.128)
  {
    var t := "12.8%";
    assert IndexOf(t, '%') == 4 by {
      assert t[..4] == "12.8";
    }
    assert RemoveFirst(t, '%') == "12.8";
    TwelvePointEight();
  }

  /** `replace` removes the FIRST occurrence, wherever it is: the text before it has none. */
  lemma RemoveFirstSplit(a: string, c: char, b: string)
    requires c !in a
    ensures RemoveFirst(a + [c] + b, c) == a + b
  {
    var t := a + [c] + b;
    assert t[|a|] == c;
    assert t[..|a|] == a;
    assert IndexOf(t, c) == |a|;
    assert t[|a| + 1..] == b;
  }

  /** A rate with a `%` anywhere is the number written around its first `%`, divided by 100. */
  lemma PercentAnywhere(a: string, b: string)
    requires '%' !in a
    ensures TransformPercentage(a + "%" + b) == Divide(StringToNumber(a + b), 100.0)
  {
    assert (a + "%" + b)[|a|] == '%';
    RemoveFirstSplit(a, '%', b);
  }

  /** A rate written as a number followed by one `%` is that number divided by 100. */
  lemma {:induction false} PercentAppended(body: string)
    requires '%' !in body
    ensures TransformPercentage(body + "%") == Divide(StringToNumber(body), 100.0)
  {
    var t := body + "%";
    assert t[|body|] == '%';
    assert t[..|body|] == body;
    assert IndexOf(t, '%') == |body|;
    assert RemoveFirst(t, '%') == body;
  }

  lemma UnsignedOfDigitsThenPercent(w: string)
    requires AllDigits(w) && |w| >= 1
    ensures ParseUnsigned(w + "%") == None
  {
    var t := w + "%";
    DigitRunOfDigitsThen(w, "%");
    assert t[..|w|] == w && t[|w|..] == "%";
  }

  /** Digits followed by a `%` are not a number. */
  lemma DigitsThenPercentNotNumber(w: string)
    requires AllDigits(w) && |w| >= 1
    ensures StringToNumber(w + "%") == NaN
  {
    var t := w + "%";
    assert t[0] == w[0] && t[|t| - 1] == '%';
    ConvertsUnsigned(t);
    UnsignedOfDigitsThenPercent(w);
  }

  /** Only the first `%` is removed: `"1%%"` is not a number. */
  lemma DoublePercentIsNaN()
    ensures TransformPercentage("1%%") == NaN
  {
    var t := "1%%";
    assert IndexOf(t, '%') == 1;
    assert RemoveFirst(t, '%') == "1" + "%";
    DigitsThenPercentNotNumber("1");
  }
}
