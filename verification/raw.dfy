/**
 The raw rule structures the engine walks: what the YAML rule catalogue loads into
 (strings, numbers, booleans, null, arrays and objects), the names the engine reads
 in them, and the object operations it uses (`R.keys`, `R.toPairs`, property access).

 An object is the sequence of its own enumerable properties in enumeration order;
 property access reads the first field with the key (JavaScript objects have
 distinct keys, so there is only one). An array behaves as an object whose keys are
 the decimal spellings of its indices, as `R.keys` and `R.toPairs` see it.
 */
module RawRules {
  import opened Wrappers
  import opened NumberText

  datatype Raw =
    | JString(s: string)
    | JNumber(x: real)
    | JBool(b: bool)
    | JNull
    | JArray(items: seq<Raw>)
    | JObject(fields: seq<Field>)

  datatype Field = Field(key: string, value: Raw)

  /** A rule of the catalogue: an object whose fields include its `name`. */
  datatype Rule = Rule(fields: seq<Field>)

  // Names the engine reads in rules.
  const OneOfName: string := "l'une de ces conditions"
  const AllOfName: string := "toutes ces conditions"
  const NumericLogicName: string := "logique num\U{00E9}rique"
  const RateName: string := "taux"
  const MultiplicationName: string := "multiplication"
  const MaxName: string := "le maximum de"
  const BaseKey: string := "assiette"
  const NotApplicableKey: string := "non applicable si"
  const FormulaKey: string := "formule"
  const NameKey: string := "name"

  /** A measure of a raw structure, decreasing into its parts. */
  function Size(r: Raw): (n: nat)
    ensures n >= 1
  {
    match r
    case JArray(items) => 1 + SizeItems(items)
    case JObject(fields) => 1 + SizeFields(fields)
    case _ => 1
  }

  function SizeItems(items: seq<Raw>): nat {
    if items == [] then 0 else Size(items[0]) + SizeItems(items[1..])
  }

  function SizeFields(fields: seq<Field>): nat {
    if fields == [] then 0 else Size(fields[0].value) + SizeFields(fields[1..])
  }

  /** Whether JavaScript sees the value as an object (`R.is(Object)`): arrays and objects. */
  predicate IsObjectLike(r: Raw) {
    r.JArray? || r.JObject?
  }

  /** The fields of an array seen as an object, its first index being `start`. */
  function IndexFields(items: seq<Raw>, start: nat): (fs: seq<Field>)
    ensures |fs| == |items|
    ensures forall i :: 0 <= i < |fs| ==> fs[i] == Field(NatToString(start + i), items[i])
    ensures SizeFields(fs) == SizeItems(items)
  {
    if items == [] then []
    else
      var rest := IndexFields(items[1..], start + 1);
      var fs := [Field(NatToString(start), items[0])] + rest;
      assert fs[1..] == rest;
      fs
  }

  /** `R.toPairs` of an object-like value: its key/value pairs in enumeration order. */
  function Properties(r: Raw): (fs: seq<Field>)
    requires IsObjectLike(r)
    ensures SizeFields(fs) < Size(r)
    ensures r.JObject? ==> fs == r.fields
    ensures r.JArray? ==> |fs| == |r.items|
    ensures r.JArray? ==> forall i :: 0 <= i < |fs| ==> fs[i] == Field(NatToString(i), r.items[i])
  {
    match r
    case JObject(fields) => fields
    case JArray(items) => IndexFields(items, 0)
  }

  function Keys(fs: seq<Field>): (ks: seq<string>)
    ensures |ks| == |fs| && forall i :: 0 <= i < |fs| ==> ks[i] == fs[i].key
  {
    seq(|fs|, i requires 0 <= i < |fs| => fs[i].key)
  }

  /** The value of the first field with key `k`, if any. */
  function Lookup(fs: seq<Field>, k: string): (o: Option<Raw>)
    ensures o.Some? <==> k in Keys(fs)
    ensures o.Some? ==> Size(o.value) <= SizeFields(fs)
    ensures o.Some? ==> exists i :: 0 <= i < |fs| && fs[i] == Field(k, o.value)
  {
    if fs == [] then None
    else if fs[0].key == k then Some(fs[0].value)
    else
      assert Keys(fs) == [fs[0].key] + Keys(fs[1..]);
      var o := Lookup(fs[1..], k);
      assert o.Some? ==> exists i :: 0 <= i < |fs| && fs[i] == Field(k, o.value) by {
        if o.Some? {
          var i :| 0 <= i < |fs[1..]| && fs[1..][i] == Field(k, o.value);
          assert fs[i + 1] == Field(k, o.value);
        }
      }
      o
  }

  /** `R.intersection(R.keys(node), knownMecanisms)`: the distinct keys of the node that are
      mechanism names, in enumeration order. */
  function MechanismKeys(fs: seq<Field>, mechanisms: set<string>): (ks: seq<string>)
    ensures forall k :: k in ks <==> k in Keys(fs) && k in mechanisms
    ensures forall i, j :: 0 <= i < j < |ks| ==> ks[i] != ks[j]
  {
    if fs == [] then []
    else
      var rest := MechanismKeys(fs[1..], mechanisms);
      assert Keys(fs) == [fs[0].key] + Keys(fs[1..]);
      if fs[0].key in mechanisms && fs[0].key !in rest then [fs[0].key] + rest else rest
  }

  /** Property access `r[k]` on a value that is not null: `None` stands for `undefined`. */
  function Member(r: Raw, k: string): (o: Option<Raw>)
    ensures o.Some? ==> Size(o.value) < Size(r)
  {
    if IsObjectLike(r) then Lookup(Properties(r), k) else None
  }

  /** Property access reads a field named `k` of the object or array, and finds one exactly
      when the key is present. */
  lemma MemberIsField(r: Raw, k: string)
    ensures Member(r, k).Some? <==> IsObjectLike(r) && k in Keys(Properties(r))
    ensures Member(r, k).Some? ==>
              exists i :: 0 <= i < |Properties(r)| && Properties(r)[i] == Field(k, Member(r, k).value)
  {
  }

  /** The rule's name, when it is a string. */
  function RuleName(rule: Rule): Option<string> {
    match Lookup(rule.fields, NameKey)
    case Some(JString(n)) => Some(n)
    case _ => None
  }
}
