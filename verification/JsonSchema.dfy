/** The vendored, fail-closed JSON Schema evaluator, and the satisfaction relation it decides.

A schema is itself a decoded JSON document, so every `isinstance` test of the evaluator is kept: a
keyword with a value of another shape is ignored. Numbers are compared by their real value. */
module JsonSchema {
  import opened Wrappers
  import Decimal

  datatype Json =
    | Null
    | Bool(b: bool)
    | Int(n: int)
    | Float(r: real)
    | Str(s: string)
    | Arr(items: seq<Json>)
    | Obj(fields: map<string, Json>)

  // ---------------------------------------------------------------------------------------------
  // Equality of decoded documents
  // ---------------------------------------------------------------------------------------------

  predicate IsNumber(v: Json) { v.Int? || v.Float? }

  function NumberOf(v: Json): real
    requires IsNumber(v)
  {
    if v.Int? then v.n as real else v.r
  }

  /** `_json_equal`: booleans are not numbers, integers and floats compare by value. */
  predicate JsonEqual(left: Json, right: Json)
    decreases left
  {
    if left.Bool? || right.Bool? then left == right
    else if IsNumber(left) && IsNumber(right) then NumberOf(left) == NumberOf(right)
    else match left
      case Obj(fields) =>
        && right.Obj? && fields.Keys == right.fields.Keys
        && forall k :: k in fields ==> JsonEqual(fields[k], right.fields[k])
      case Arr(items) =>
        && right.Arr? && |items| == |right.items|
        && forall i :: 0 <= i < |items| ==> JsonEqual(items[i], right.items[i])
      case _ => left == right
  }

  /** The document with every integer replaced by the equal float. */
  function NumericImage(v: Json): Json
    decreases v
  {
    match v
    case Int(n) => Float(n as real)
    case Arr(items) => Arr(seq(|items|, i requires 0 <= i < |items| => NumericImage(items[i])))
    case Obj(fields) => Obj(map k | k in fields :: NumericImage(fields[k]))
    case _ => v
  }

  /** Equality is having the same numeric image, hence an equivalence relation. */
  lemma {:induction false} JsonEqualIsImageEquality(left: Json, right: Json)
    ensures JsonEqual(left, right) <==> NumericImage(left) == NumericImage(right)
    decreases left
  {
    if left.Obj? && right.Obj? {
      var a, b := NumericImage(left).fields, NumericImage(right).fields;
      assert a.Keys == left.fields.Keys && b.Keys == right.fields.Keys;
      forall k | k in left.fields && k in right.fields
        ensures JsonEqual(left.fields[k], right.fields[k]) <==> a[k] == b[k]
      {
        JsonEqualIsImageEquality(left.fields[k], right.fields[k]);
      }
      assert JsonEqual(left, right) ==> a == b;
    } else if left.Arr? && right.Arr? {
      var a, b := NumericImage(left).items, NumericImage(right).items;
      forall i | 0 <= i < |left.items| && i < |right.items|
        ensures JsonEqual(left.items[i], right.items[i]) <==> a[i] == b[i]
      {
        JsonEqualIsImageEquality(left.items[i], right.items[i]);
      }
      assert JsonEqual(left, right) ==> a == b;
    }
  }

  lemma JsonEqualEquivalence(a: Json, b: Json, c: Json)
    ensures JsonEqual(a, a)
    ensures JsonEqual(a, b) <==> JsonEqual(b, a)
    ensures JsonEqual(a, b) && JsonEqual(b, c) ==> JsonEqual(a, c)
  {
    JsonEqualIsImageEquality(a, a);
    JsonEqualIsImageEquality(a, b);
    JsonEqualIsImageEquality(b, a);
    JsonEqualIsImageEquality(b, c);
    JsonEqualIsImageEquality(a, c);
  }

  // ---------------------------------------------------------------------------------------------
  // Schemas
  // ---------------------------------------------------------------------------------------------

  /** The string predicates left abstract: `re.search` and the date-time parser. */
  datatype Strings = Strings(matches: (string, string) -> bool, isDateTime: string -> bool)

  type Schema = s: Json | s.Obj? witness Obj(map[])

  function Get(s: Schema, keyword: string): Option<Json> {
    if keyword in s.fields then Some(s.fields[keyword]) else None
  }

  /** The sub-schema under a keyword, if an object stands there. */
  function Sub(s: Schema, keyword: string): (r: Option<Schema>)
    ensures r.Some? ==> r.value < s
  {
    if keyword in s.fields && s.fields[keyword].Obj? then Some(s.fields[keyword]) else None
  }

  function PropertySchema(s: Schema, name: string): (r: Option<Schema>)
    ensures r.Some? ==> r.value < s
  {
    var properties := Sub(s, "properties");
    if properties.Some? then Sub(properties.value, name) else None
  }

  function Listed(s: Schema, keyword: string): (r: seq<Json>)
    ensures forall x :: x in r ==> x < s
  {
    if keyword in s.fields && s.fields[keyword].Arr? then s.fields[keyword].items else []
  }

  /** A Python `int`, which a boolean also is. */
  function IntOf(v: Option<Json>): Option<int> {
    match v
    case Some(Int(n)) => Some(n)
    case Some(Bool(b)) => Some(if b then 1 else 0)
    case _ => None
  }

  function BoundOf(v: Option<Json>): Option<real> {
    match v
    case Some(Float(r)) => Some(r)
    case _ => if IntOf(v).Some? then Some(IntOf(v).value as real) else None
  }

  const TYPE_NAMES: set<string> := {"null", "boolean", "integer", "number", "string", "array", "object"}

  predicate MatchesType(v: Json, name: string) {
    || (name == "null" && v.Null?)
    || (name == "boolean" && v.Bool?)
    || (name == "integer" && v.Int?)
    || (name == "number" && IsNumber(v))
    || (name == "string" && v.Str?)
    || (name == "array" && v.Arr?)
    || (name == "object" && v.Obj?)
  }

  // ---------------------------------------------------------------------------------------------
  // The satisfaction relation
  // ---------------------------------------------------------------------------------------------

  predicate TypeOk(v: Json, s: Schema) {
    match Get(s, "type")
    case None => true
    case Some(Null) => true
    case Some(Str(name)) => MatchesType(v, name)
    case Some(Arr(names)) => exists i :: 0 <= i < |names| && names[i].Str? && MatchesType(v, names[i].s)
    case _ => false
  }

  predicate EnumOk(v: Json, s: Schema) {
    "enum" in s.fields && s.fields["enum"].Arr? ==> exists x :: x in Listed(s, "enum") && JsonEqual(v, x)
  }

  predicate ConstOk(v: Json, s: Schema) {
    "const" in s.fields ==> JsonEqual(v, s.fields["const"])
  }

  predicate RequiredOk(v: Json, s: Schema) {
    v.Obj? ==> forall x :: x in Listed(s, "required") && x.Str? ==> x.s in v.fields
  }

  predicate MinItemsOk(v: Json, s: Schema) {
    v.Arr? && IntOf(Get(s, "minItems")).Some? ==> |v.items| >= IntOf(Get(s, "minItems")).value
  }

  predicate UniqueItemsOk(v: Json, s: Schema) {
    v.Arr? && Get(s, "uniqueItems") == Some(Bool(true)) ==>
      forall i, j :: 0 <= i < j < |v.items| ==> !JsonEqual(v.items[i], v.items[j])
  }

  predicate ScalarOk(strings: Strings, v: Json, s: Schema) {
    && (v.Str? ==>
          && (IntOf(Get(s, "minLength")).Some? ==> |v.s| >= IntOf(Get(s, "minLength")).value)
          && (Get(s, "pattern").Some? && Get(s, "pattern").value.Str? ==>
                strings.matches(Get(s, "pattern").value.s, v.s))
          && (Get(s, "format") == Some(Str("date-time")) ==> strings.isDateTime(v.s)))
    && (IsNumber(v) ==>
          && (BoundOf(Get(s, "minimum")).Some? ==> NumberOf(v) >= BoundOf(Get(s, "minimum")).value)
          && (BoundOf(Get(s, "exclusiveMinimum")).Some? ==> NumberOf(v) > BoundOf(Get(s, "exclusiveMinimum")).value))
  }

  ghost predicate PropertyOk(strings: Strings, v: Json, s: Schema, name: string)
    requires v.Obj? && name in v.fields
    decreases s, 0
  {
    if PropertySchema(s, name).Some? then Satisfies(strings, v.fields[name], PropertySchema(s, name).value)
    else
      && Get(s, "additionalProperties") != Some(Bool(false))
      && (Sub(s, "additionalProperties").Some? ==>
            Satisfies(strings, v.fields[name], Sub(s, "additionalProperties").value))
  }

  ghost predicate ItemsOk(strings: Strings, v: Json, s: Schema)
    decreases s, 0
  {
    v.Arr? && Sub(s, "items").Some? ==>
      forall i :: 0 <= i < |v.items| ==> Satisfies(strings, v.items[i], Sub(s, "items").value)
  }

  ghost predicate ContainsOk(strings: Strings, v: Json, s: Schema)
    decreases s, 0
  {
    v.Arr? && Sub(s, "contains").Some? ==>
      exists i :: 0 <= i < |v.items| && Satisfies(strings, v.items[i], Sub(s, "contains").value)
  }

  ghost predicate AllOfOk(strings: Strings, v: Json, s: Schema)
    decreases s, 0
  {
    forall x :: x in Listed(s, "allOf") && x.Obj? ==> Satisfies(strings, v, x)
  }

  /** `then` applies where `if` is satisfied, `else` where it is not; neither without an `if`. */
  ghost predicate ConditionalOk(strings: Strings, v: Json, s: Schema)
    decreases s, 0
  {
    Sub(s, "if").Some? ==>
      var branch := if Satisfies(strings, v, Sub(s, "if").value) then "then" else "else";
      Sub(s, branch).Some? ==> Satisfies(strings, v, Sub(s, branch).value)
  }

  ghost predicate NotOk(strings: Strings, v: Json, s: Schema)
    decreases s, 0
  {
    Sub(s, "not").Some? ==> !Satisfies(strings, v, Sub(s, "not").value)
  }

  /** A document satisfies a schema when it satisfies every keyword. */
  ghost predicate Satisfies(strings: Strings, v: Json, s: Schema)
    decreases s, 2
  {
    && TypeOk(v, s) && EnumOk(v, s) && ConstOk(v, s)
    && KindOk(strings, v, s) && CombinedOk(strings, v, s)
  }

  ghost predicate KindOk(strings: Strings, v: Json, s: Schema)
    decreases s, 1
  {
    && RequiredOk(v, s)
    && (v.Obj? ==> forall name :: name in v.fields ==> PropertyOk(strings, v, s, name))
    && MinItemsOk(v, s) && UniqueItemsOk(v, s) && ItemsOk(strings, v, s) && ContainsOk(strings, v, s)
    && ScalarOk(strings, v, s)
  }

  ghost predicate CombinedOk(strings: Strings, v: Json, s: Schema)
    decreases s, 1
  {
    AllOfOk(strings, v, s) && ConditionalOk(strings, v, s) && NotOk(strings, v, s)
  }

  // ---------------------------------------------------------------------------------------------
  // What each keyword asks of a document
  // ---------------------------------------------------------------------------------------------

  /** The type names of a document: an integer is also a number, a boolean is neither. */
  function TypeNamesOf(v: Json): set<string> {
    match v
    case Null => {"null"}
    case Bool(_) => {"boolean"}
    case Int(_) => {"integer", "number"}
    case Float(_) => {"number"}
    case Str(_) => {"string"}
    case Arr(_) => {"array"}
    case Obj(_) => {"object"}
  }

  lemma MatchesTypeExactly(v: Json, name: string)
    ensures MatchesType(v, name) <==> name in TypeNamesOf(v)
    ensures MatchesType(v, name) ==> name in TYPE_NAMES
  {
  }

  /** The known names are those of the seven kinds of document. */
  lemma TypeNamesExactly(name: string)
    ensures name in TYPE_NAMES <==>
              || name in TypeNamesOf(Null) || name in TypeNamesOf(Bool(true)) || name in TypeNamesOf(Int(0))
              || name in TypeNamesOf(Str("")) || name in TypeNamesOf(Arr([])) || name in TypeNamesOf(Obj(map[]))
  {
  }

  lemma TypeMeans(v: Json, s: Schema)
    ensures TypeOk(v, s) <==>
              ("type" in s.fields ==>
                 match s.fields["type"]
                 case Null => true
                 case Str(name) => name in TypeNamesOf(v)
                 case Arr(names) => exists i :: 0 <= i < |names| && names[i].Str? && names[i].s in TypeNamesOf(v)
                 case _ => false)
  {
    if Get(s, "type").Some? && Get(s, "type").value.Arr? {
      var names := Get(s, "type").value.items;
      forall i | 0 <= i < |names| && names[i].Str?
        ensures MatchesType(v, names[i].s) <==> names[i].s in TypeNamesOf(v)
      {
        MatchesTypeExactly(v, names[i].s);
      }
    } else if Get(s, "type").Some? && Get(s, "type").value.Str? {
      MatchesTypeExactly(v, Get(s, "type").value.s);
    }
  }

  /** An object under a keyword, and nothing else, is a sub-schema. */
  lemma SubMeans(s: Schema, keyword: string, c: Json)
    ensures Sub(s, keyword) == Some(c) <==> keyword in s.fields && s.fields[keyword] == c && c.Obj?
  {
  }

  lemma PropertySchemaMeans(s: Schema, name: string, c: Json)
    ensures PropertySchema(s, name) == Some(c) <==>
              && "properties" in s.fields && s.fields["properties"].Obj?
              && name in s.fields["properties"].fields && s.fields["properties"].fields[name] == c && c.Obj?
  {
  }

  lemma ListedMeans(s: Schema, keyword: string, x: Json)
    ensures x in Listed(s, keyword) <==> keyword in s.fields && s.fields[keyword].Arr? && x in s.fields[keyword].items
  {
  }

  lemma RequiredMeans(v: Json, s: Schema)
    ensures RequiredOk(v, s) <==>
              (v.Obj? && "required" in s.fields && s.fields["required"].Arr? ==>
                 forall x :: x in s.fields["required"].items && x.Str? ==> x.s in v.fields)
  {
  }

  lemma EnumMeans(v: Json, s: Schema)
    ensures EnumOk(v, s) <==>
              ("enum" in s.fields && s.fields["enum"].Arr? ==>
                 exists x :: x in s.fields["enum"].items && JsonEqual(v, x))
    ensures ConstOk(v, s) <==> ("const" in s.fields ==> JsonEqual(v, s.fields["const"]))
  {
  }

  /** A bound of integer type, which a boolean also is: 1 or 0. */
  predicate AtLeast(n: nat, bound: Json) {
    match bound
    case Int(m) => n >= m
    case Bool(b) => b ==> n >= 1
    case _ => true
  }

  lemma ArrayBoundsMean(v: Json, s: Schema)
    ensures MinItemsOk(v, s) <==> (v.Arr? && "minItems" in s.fields ==> AtLeast(|v.items|, s.fields["minItems"]))
    ensures UniqueItemsOk(v, s) <==>
              (v.Arr? && "uniqueItems" in s.fields && s.fields["uniqueItems"] == Bool(true) ==>
                 forall i, j :: 0 <= i < j < |v.items| ==> !JsonEqual(v.items[i], v.items[j]))
  {
  }

  /** The difference of a number and a bound of either number type, or nothing to compare. */
  function Excess(v: Json, bound: Json): Option<real>
    requires v.Int? || v.Float?
  {
    var x := match v case Int(n) => n as real case Float(r) => r;
    match bound
    case Int(n) => Some(x - n as real)
    case Float(r) => Some(x - r)
    case Bool(b) => Some(if b then x - 1.0 else x)
    case _ => None
  }

  lemma NumberBoundsMean(strings: Strings, v: Json, s: Schema)
    requires v.Int? || v.Float?
    ensures ScalarOk(strings, v, s) <==>
              && ("minimum" in s.fields && Excess(v, s.fields["minimum"]).Some? ==>
                    Excess(v, s.fields["minimum"]).value >= 0.0)
              && ("exclusiveMinimum" in s.fields && Excess(v, s.fields["exclusiveMinimum"]).Some? ==>
                    Excess(v, s.fields["exclusiveMinimum"]).value > 0.0)
  {
  }

  lemma StringBoundsMean(strings: Strings, v: Json, s: Schema)
    requires !v.Int? && !v.Float?
    ensures ScalarOk(strings, v, s) <==>
              (v.Str? ==>
                 && ("minLength" in s.fields ==> AtLeast(|v.s|, s.fields["minLength"]))
                 && ("pattern" in s.fields && s.fields["pattern"].Str? ==>
                       strings.matches(s.fields["pattern"].s, v.s))
                 && ("format" in s.fields && s.fields["format"] == Str("date-time") ==> strings.isDateTime(v.s)))
  {
  }

  // ---------------------------------------------------------------------------------------------
  // Sub-schemas, supported keywords, well-formedness
  // ---------------------------------------------------------------------------------------------

  const SUPPORTED_KEYWORDS: set<string> := {
    "$id", "$schema", "additionalProperties", "allOf", "const", "contains", "description", "else",
    "enum", "exclusiveMinimum", "format", "if", "items", "minItems", "minLength", "minimum", "not",
    "pattern", "properties", "required", "then", "title", "type", "uniqueItems"
  }

  const SCHEMA_KEYWORDS: seq<string> :=
    ["items", "additionalProperties", "if", "then", "else", "not", "contains"]

  /** The keywords that evaluation reads. */
  const EVALUATED_KEYWORDS: set<string> := {
    "type", "enum", "const", "required", "properties", "additionalProperties", "minItems", "uniqueItems", "items",
    "contains", "minLength", "pattern", "format", "minimum", "exclusiveMinimum", "allOf", "if", "then", "else", "not"
  }

  /** The schemas agree on every keyword that evaluation reads. */
  ghost predicate SameEvaluated(s: Schema, t: Schema) {
    forall k :: k in EVALUATED_KEYWORDS ==> Get(s, k) == Get(t, k)
  }

  /** Supported keywords are evaluated, or one of the four annotations. */
  lemma SupportedKeywordsExactly()
    ensures SUPPORTED_KEYWORDS == EVALUATED_KEYWORDS + {"$id", "$schema", "title", "description"}
  {
  }

  /** No other keyword has an influence on the verdict. */
  lemma OnlyEvaluatedMatters(strings: Strings, v: Json, s: Schema, t: Schema)
    requires SameEvaluated(s, t)
    ensures Satisfies(strings, v, s) <==> Satisfies(strings, v, t)
  {
    assert TypeOk(v, s) == TypeOk(v, t) && EnumOk(v, s) == EnumOk(v, t) && ConstOk(v, s) == ConstOk(v, t);
    SameKind(strings, v, s, t);
    SameCombined(strings, v, s, t);
  }

  lemma SameKind(strings: Strings, v: Json, s: Schema, t: Schema)
    requires SameEvaluated(s, t)
    ensures KindOk(strings, v, s) <==> KindOk(strings, v, t)
  {
    if v.Obj? {
      forall name | name in v.fields ensures PropertyOk(strings, v, s, name) == PropertyOk(strings, v, t, name) {
        SameProperty(strings, v, s, t, name);
      }
    }
    SameBounds(strings, v, s, t);
    SameItems(strings, v, s, t);
  }

  lemma SameProperty(strings: Strings, v: Json, s: Schema, t: Schema, name: string)
    requires SameEvaluated(s, t) && v.Obj? && name in v.fields
    ensures PropertyOk(strings, v, s, name) == PropertyOk(strings, v, t, name)
  {
    SameSub(s, t, "properties");
    SameSub(s, t, "additionalProperties");
    assert PropertySchema(s, name) == PropertySchema(t, name);
    assert Get(s, "additionalProperties") == Get(t, "additionalProperties");
  }

  lemma SameItems(strings: Strings, v: Json, s: Schema, t: Schema)
    requires SameEvaluated(s, t)
    ensures ItemsOk(strings, v, s) == ItemsOk(strings, v, t)
    ensures ContainsOk(strings, v, s) == ContainsOk(strings, v, t)
  {
    SameSub(s, t, "items");
    SameSub(s, t, "contains");
  }

  lemma SameBounds(strings: Strings, v: Json, s: Schema, t: Schema)
    requires SameEvaluated(s, t)
    ensures RequiredOk(v, s) == RequiredOk(v, t)
    ensures MinItemsOk(v, s) == MinItemsOk(v, t) && UniqueItemsOk(v, s) == UniqueItemsOk(v, t)
    ensures ScalarOk(strings, v, s) == ScalarOk(strings, v, t)
  {
    assert Listed(s, "required") == Listed(t, "required") by {
      assert Get(s, "required") == Get(t, "required");
    }
  }

  lemma SameCombined(strings: Strings, v: Json, s: Schema, t: Schema)
    requires SameEvaluated(s, t)
    ensures CombinedOk(strings, v, s) <==> CombinedOk(strings, v, t)
  {
    SameAllOf(strings, v, s, t);
    SameConditional(strings, v, s, t);
    SameNot(strings, v, s, t);
  }

  lemma SameAllOf(strings: Strings, v: Json, s: Schema, t: Schema)
    requires SameEvaluated(s, t)
    ensures AllOfOk(strings, v, s) == AllOfOk(strings, v, t)
  {
    assert Get(s, "allOf") == Get(t, "allOf");
    assert Listed(s, "allOf") == Listed(t, "allOf");
  }

  lemma SameNot(strings: Strings, v: Json, s: Schema, t: Schema)
    requires SameEvaluated(s, t)
    ensures NotOk(strings, v, s) == NotOk(strings, v, t)
  {
    SameSub(s, t, "not");
  }

  lemma SameConditional(strings: Strings, v: Json, s: Schema, t: Schema)
    requires SameEvaluated(s, t)
    ensures ConditionalOk(strings, v, s) <==> ConditionalOk(strings, v, t)
  {
    SameSub(s, t, "if");
    SameSub(s, t, "then");
    SameSub(s, t, "else");
  }

  lemma SameSub(s: Schema, t: Schema, keyword: string)
    requires keyword in EVALUATED_KEYWORDS && SameEvaluated(s, t)
    ensures Sub(s, keyword) == Sub(t, keyword)
  {
    assert Get(s, keyword) == Get(t, keyword);
  }

  /** A schema directly inside another. */
  ghost predicate IsChild(s: Schema, child: Json) {
    && child.Obj? && child < s
    && (|| (exists name: string :: PropertySchema(s, name) == Some(child))
        || (exists keyword :: keyword in SCHEMA_KEYWORDS && Sub(s, keyword) == Some(child))
        || child in Listed(s, "allOf"))
  }

  /** A schema inside another at any depth, or the schema itself. */
  ghost predicate Inside(s: Schema, inner: Json)
    decreases s
  {
    inner == s || exists child: Schema :: IsChild(s, child) && Inside(child, inner)
  }

  /** `assert_supported_schema` returns. */
  ghost predicate Supported(s: Schema)
    decreases s
  {
    s.fields.Keys <= SUPPORTED_KEYWORDS && forall child: Schema :: IsChild(s, child) ==> Supported(child)
  }

  /** Accepted schemas contain only supported keywords, at every depth; and only those are accepted. */
  lemma {:induction false} SupportedExactly(s: Schema)
    ensures Supported(s) <==>
              forall inner: Schema :: Inside(s, inner) ==> inner.fields.Keys <= SUPPORTED_KEYWORDS
    decreases s
  {
    forall child: Schema | IsChild(s, child)
      ensures Supported(child) <==>
                forall inner: Schema :: Inside(child, inner) ==> inner.fields.Keys <= SUPPORTED_KEYWORDS
    {
      SupportedExactly(child);
    }
    assert Inside(s, s);
  }

  predicate TypeSupported(s: Schema) {
    match Get(s, "type")
    case None => true
    case Some(Null) => true
    case Some(Str(name)) => name in TYPE_NAMES
    case Some(Arr(names)) => forall i :: 0 <= i < |names| ==> names[i].Str? && names[i].s in TYPE_NAMES
    case _ => false
  }

  /** Type names are known and `properties` is an object, at every depth. */
  ghost predicate WellFormed(s: Schema)
    decreases s
  {
    && TypeSupported(s)
    && ("properties" in s.fields ==> s.fields["properties"].Obj?)
    && forall child: Schema :: IsChild(s, child) ==> WellFormed(child)
  }

  lemma SubIsChild(s: Schema, keyword: string)
    requires keyword in SCHEMA_KEYWORDS && Sub(s, keyword).Some?
    ensures IsChild(s, Sub(s, keyword).value)
  {
  }

  /** `assert_supported_schema`: whether it returns rather than raises. */
  method AssertSupportedSchema(s: Schema) returns (ok: bool)
    ensures ok <==> Supported(s)
    decreases s
  {
    if !(s.fields.Keys <= SUPPORTED_KEYWORDS) {
      return false;
    }
    var properties := Sub(s, "properties");
    if properties.Some? {
      var names := properties.value.fields.Keys;
      while names != {}
        invariant names <= properties.value.fields.Keys
        invariant forall name :: name in properties.value.fields && name !in names && PropertySchema(s, name).Some? ==>
                    Supported(PropertySchema(s, name).value)
        decreases names
      {
        var name :| name in names;
        names := names - {name};
        var child := PropertySchema(s, name);
        if child.Some? {
          assert IsChild(s, child.value);
          var childOk := AssertSupportedSchema(child.value);
          if !childOk {
            return false;
          }
        }
      }
    }
    for i := 0 to |SCHEMA_KEYWORDS|
      invariant forall j :: 0 <= j < i && Sub(s, SCHEMA_KEYWORDS[j]).Some? ==>
          Supported(Sub(s, SCHEMA_KEYWORDS[j]).value)
    {
      var child := Sub(s, SCHEMA_KEYWORDS[i]);
      if child.Some? {
        SubIsChild(s, SCHEMA_KEYWORDS[i]);
        var childOk := AssertSupportedSchema(child.value);
        if !childOk {
          return false;
        }
      }
    }
    var all := Listed(s, "allOf");
    for i := 0 to |all|
      invariant forall j :: 0 <= j < i && all[j].Obj? ==> Supported(all[j])
    {
      if all[i].Obj? {
        assert IsChild(s, all[i]);
        var childOk := AssertSupportedSchema(all[i]);
        if !childOk {
          return false;
        }
      }
    }
    return true;
  }

  // ---------------------------------------------------------------------------------------------
  // The evaluator
  // ---------------------------------------------------------------------------------------------

  datatype Error = Error(path: string, keyword: string)

  /** Raised for a schema the evaluator does not handle. */
  datatype UnsupportedSchema = UnsupportedSchema(path: string)

  type Outcome = Result<seq<Error>, UnsupportedSchema>

  function ItemPath(path: string, index: nat): string { path + "[" + Decimal.Text(index) + "]" }

  /** A `type` of another shape, or an unknown name that no earlier name spares from being looked at. */
  predicate TypeRaises(v: Json, s: Schema) {
    match Get(s, "type")
    case None => false
    case Some(Null) => false
    case Some(Str(name)) => name !in TYPE_NAMES
    case Some(Arr(names)) =>
      || (exists i :: 0 <= i < |names| && !names[i].Str?)
      || (exists i :: 0 <= i < |names| && names[i].Str? && names[i].s !in TYPE_NAMES
                      && forall j :: 0 <= j < i && names[j].Str? ==> !MatchesType(v, names[j].s))
    case _ => true
  }

  method TypeErrors(value: Json, s: Schema, path: string) returns (r: Outcome)
    ensures r.Failure? <==> TypeRaises(value, s)
    ensures r.Success? ==> (r.value == [] <==> TypeOk(value, s))
    ensures TypeSupported(s) ==> r.Success?
    ensures r.Success? && "type" in s.fields && s.fields["type"].Str? ==>
              (r.value == [] <==> s.fields["type"].s in TypeNamesOf(value))
  {
    TypeMeans(value, s);
    var expected := Get(s, "type");
    if expected == None || expected == Some(Null) {
      return Success([]);
    }
    var checked: seq<Json>;
    if expected.value.Str? {
      checked := [expected.value];
    } else if expected.value.Arr? && forall i :: 0 <= i < |expected.value.items| ==> expected.value.items[i].Str? {
      checked := expected.value.items;
    } else {
      return Failure(UnsupportedSchema(path));
    }
    for i := 0 to |checked|
      invariant forall j :: 0 <= j < i ==> checked[j].s in TYPE_NAMES && !MatchesType(value, checked[j].s)
    {
      if checked[i].s !in TYPE_NAMES {
        return Failure(UnsupportedSchema(path));
      }
      if MatchesType(value, checked[i].s) {
        return Success([]);
      }
    }
    assert expected.value.Str? ==> checked[0] == expected.value;
    return Success([Error(path, "type")]);
  }

  // ---------------------------------------------------------------------------------------------
  // Which evaluations one evaluation leads to, and when it raises
  // ---------------------------------------------------------------------------------------------

  /** How evaluations answer: `contains` stops and `if` chooses by it. */
  type Answers = (Json, Schema) -> bool

  ghost function AnswersOf(strings: Strings): Answers { (v: Json, s: Schema) => Satisfies(strings, v, s) }

  /** The keywords under which the evaluator evaluates another schema. */
  datatype Applicator = Members | Items | Contains | AllOf | Condition | Negation

  /** The schema for a member: the one under its name, else the one for additional properties. */
  function MemberSchema(s: Schema, name: string): Option<Schema> {
    if PropertySchema(s, name).Some? then PropertySchema(s, name) else Sub(s, "additionalProperties")
  }

  ghost predicate CallsMember(v: Json, s: Schema, u: Json, c: Schema) {
    v.Obj? && exists name :: name in v.fields && u == v.fields[name] && MemberSchema(s, name) == Some(c)
  }

  /** `contains` stops at the first item that satisfies it. */
  ghost predicate CallsContains(meets: Answers, v: Json, s: Schema, u: Json, c: Schema) {
    && v.Arr? && Sub(s, "contains") == Some(c)
    && exists i :: 0 <= i < |v.items| && u == v.items[i] && NoneMeets(meets, v.items, i, c)
  }

  ghost predicate NoneMeets(meets: Answers, items: seq<Json>, n: nat, c: Schema)
    requires n <= |items|
  {
    forall j :: 0 <= j < n ==> !meets(items[j], c)
  }

  ghost function ChosenBranch(meets: Answers, v: Json, s: Schema): string
    requires Sub(s, "if").Some?
  {
    if meets(v, Sub(s, "if").value) then "then" else "else"
  }

  /** The condition itself, and the branch it chooses. */
  ghost predicate CallsBranch(meets: Answers, v: Json, s: Schema, c: Schema) {
    && Sub(s, "if").Some?
    && (|| Sub(s, "if").value == c
        || Sub(s, ChosenBranch(meets, v, s)) == Some(c))
  }

  /** Evaluating `v` against `s` evaluates `u` against `c` next, on behalf of the keyword. */
  ghost predicate Calls(meets: Answers, keyword: Applicator, v: Json, s: Schema, u: Json, c: Schema) {
    match keyword
    case Members => CallsMember(v, s, u, c)
    case Items => v.Arr? && u in v.items && Sub(s, "items") == Some(c)
    case Contains => CallsContains(meets, v, s, u, c)
    case AllOf => u == v && c in Listed(s, "allOf")
    case Condition => u == v && CallsBranch(meets, v, s, c)
    case Negation => u == v && Sub(s, "not") == Some(c)
  }

  lemma CallsChild(meets: Answers, keyword: Applicator, v: Json, s: Schema, u: Json, c: Schema)
    requires Calls(meets, keyword, v, s, u, c)
    ensures IsChild(s, c)
  {
    if keyword.Members? {
      var name :| name in v.fields && u == v.fields[name] && MemberSchema(s, name) == Some(c);
      if PropertySchema(s, name).None? {
        SubIsChild(s, "additionalProperties");
      }
    } else if keyword.Items? {
      SubIsChild(s, "items");
    } else if keyword.Contains? {
      SubIsChild(s, "contains");
    } else if keyword.Condition? {
      SubIsChild(s, if Sub(s, "if").value == c then "if" else ChosenBranch(meets, v, s));
    } else if keyword.Negation? {
      SubIsChild(s, "not");
    }
  }

  /** Evaluating `v` against `s` comes to evaluating `u` against `t`; a type error ends the descent. */
  ghost predicate Evaluates(meets: Answers, v: Json, s: Schema, u: Json, t: Json)
    decreases s
  {
    || (u == v && t == s)
    || (TypeOk(v, s) && exists keyword, w: Json, c: Schema ::
          Calls(meets, keyword, v, s, w, c) && c < s && Evaluates(meets, w, c, u, t))
  }

  ghost predicate EvaluatesVia(meets: Answers, keyword: Applicator, v: Json, s: Schema, u: Json, t: Json) {
    exists w: Json, c: Schema :: Calls(meets, keyword, v, s, w, c) && Evaluates(meets, w, c, u, t)
  }

  /** The first evaluation on the way. */
  lemma EvaluatesFirst(meets: Answers, v: Json, s: Schema, u: Json, t: Json)
    returns (keyword: Applicator, w: Json, c: Schema)
    requires Evaluates(meets, v, s, u, t) && (u != v || t != s)
    ensures TypeOk(v, s) && Calls(meets, keyword, v, s, w, c) && Evaluates(meets, w, c, u, t)
    ensures IsChild(s, c)
  {
    keyword, w, c :| Calls(meets, keyword, v, s, w, c) && c < s && Evaluates(meets, w, c, u, t);
    CallsChild(meets, keyword, v, s, w, c);
  }

  lemma EvaluatesNext(meets: Answers, keyword: Applicator, v: Json, s: Schema, w: Json, c: Schema, u: Json, t: Json)
    requires TypeOk(v, s) && Calls(meets, keyword, v, s, w, c) && Evaluates(meets, w, c, u, t)
    ensures Evaluates(meets, v, s, u, t)
  {
    CallsChild(meets, keyword, v, s, w, c);
  }

  predicate PropertiesMalformed(v: Json, s: Schema) {
    v.Obj? && "properties" in s.fields && !s.fields["properties"].Obj?
  }

  /** The evaluation raises on its own account. */
  predicate RaisesHere(v: Json, s: Schema) {
    TypeRaises(v, s) || (TypeOk(v, s) && PropertiesMalformed(v, s))
  }

  /** Some evaluation this one comes to raises. */
  ghost predicate Raises(meets: Answers, v: Json, s: Schema) {
    exists u: Json, t: Schema :: Evaluates(meets, v, s, u, t) && RaisesHere(u, t)
  }

  ghost predicate RaisesVia(meets: Answers, keywords: set<Applicator>, v: Json, s: Schema) {
    exists keyword, w: Json, c: Schema ::
      keyword in keywords && Calls(meets, keyword, v, s, w, c) && Raises(meets, w, c)
  }

  const KIND_KEYWORDS: set<Applicator> := {Members, Items, Contains}
  const COMBINING_KEYWORDS: set<Applicator> := {AllOf, Condition, Negation}

  /** A type error ends the evaluation; otherwise what raises is `properties` or a further evaluation. */
  lemma RaisesStep(meets: Answers, v: Json, s: Schema)
    ensures Raises(meets, v, s) <==>
              || TypeRaises(v, s)
              || (TypeOk(v, s) && PropertiesMalformed(v, s))
              || (TypeOk(v, s) && RaisesVia(meets, KIND_KEYWORDS, v, s))
              || (TypeOk(v, s) && RaisesVia(meets, COMBINING_KEYWORDS, v, s))
  {
    if Raises(meets, v, s) && !RaisesHere(v, s) {
      RaisesFurther(meets, v, s);
    }
    if RaisesHere(v, s) {
      assert Evaluates(meets, v, s, v, s);
    }
    if keyword, w: Json, c: Schema :| TypeOk(v, s) && Calls(meets, keyword, v, s, w, c) && Raises(meets, w, c) {
      RaisesNext(meets, keyword, v, s, w, c);
    }
  }

  lemma RaisesFurther(meets: Answers, v: Json, s: Schema)
    requires Raises(meets, v, s) && !RaisesHere(v, s)
    ensures TypeOk(v, s)
    ensures RaisesVia(meets, KIND_KEYWORDS, v, s) || RaisesVia(meets, COMBINING_KEYWORDS, v, s)
  {
    var u: Json, t: Schema :| Evaluates(meets, v, s, u, t) && RaisesHere(u, t);
    var keyword, w, c := EvaluatesFirst(meets, v, s, u, t);
    assert Raises(meets, w, c);
    KeywordKinds(keyword);
  }

  lemma KeywordKinds(keyword: Applicator)
    ensures keyword in KIND_KEYWORDS || keyword in COMBINING_KEYWORDS
  {
  }

  lemma RaisesNext(meets: Answers, keyword: Applicator, v: Json, s: Schema, w: Json, c: Schema)
    requires TypeOk(v, s) && Calls(meets, keyword, v, s, w, c) && Raises(meets, w, c)
    ensures Raises(meets, v, s)
  {
    var u: Json, t: Schema :| Evaluates(meets, w, c, u, t) && RaisesHere(u, t);
    EvaluatesNext(meets, keyword, v, s, w, c, u, t);
  }

  /** Whatever document is evaluated, only schemas inside the given one are. */
  lemma {:induction false} EvaluatesInside(meets: Answers, v: Json, s: Schema, u: Json, t: Json)
    requires Evaluates(meets, v, s, u, t)
    ensures t.Obj? && Inside(s, t)
    decreases s
  {
    if u != v || t != s {
      var keyword, w, c := EvaluatesFirst(meets, v, s, u, t);
      EvaluatesInside(meets, w, c, u, t);
    }
  }

  lemma {:induction false} WellFormedInside(s: Schema, t: Schema)
    requires WellFormed(s) && Inside(s, t)
    ensures WellFormed(t)
    decreases s
  {
    if t != s {
      var child: Schema :| IsChild(s, child) && Inside(child, t);
      WellFormedInside(child, t);
    }
  }

  /** A well-formed schema raises on no document. */
  lemma WellFormedNeverRaises(meets: Answers, v: Json, s: Schema)
    requires WellFormed(s)
    ensures !Raises(meets, v, s)
  {
    forall u: Json, t: Schema | Evaluates(meets, v, s, u, t) ensures !RaisesHere(u, t) {
      EvaluatesInside(meets, v, s, u, t);
      WellFormedInside(s, t);
    }
  }

  // ---------------------------------------------------------------------------------------------
  // The evaluator's methods
  // ---------------------------------------------------------------------------------------------

  /** The pairs of a document and a schema that an evaluation went through. */
  type Visited = set<(Json, Json)>

  /** All of them are evaluations it comes to, and once it has completed they are all of those. */
  ghost predicate Records(meets: Answers, v: Json, s: Schema, visited: Visited, completed: bool) {
    && (forall u, t :: (u, t) in visited ==> Evaluates(meets, v, s, u, t))
    && (completed ==> forall u, t :: Evaluates(meets, v, s, u, t) ==> (u, t) in visited)
  }

  /** The same for the evaluations under some of the keywords, none of which has raised. */
  ghost predicate RecordsVia(meets: Answers, keywords: set<Applicator>, v: Json, s: Schema, visited: Visited,
                             completed: bool)
  {
    && Within(meets, keywords, v, s, visited)
    && (completed ==>
          forall keyword, w: Json, c: Schema :: keyword in keywords && Calls(meets, keyword, v, s, w, c) ==>
            Done(meets, w, c, visited))
  }

  ghost predicate Within(meets: Answers, keywords: set<Applicator>, v: Json, s: Schema, visited: Visited) {
    forall u, t :: (u, t) in visited ==>
      exists keyword :: keyword in keywords && EvaluatesVia(meets, keyword, v, s, u, t)
  }

  ghost predicate Done(meets: Answers, w: Json, c: Schema, visited: Visited) {
    !Raises(meets, w, c) && forall u, t :: Evaluates(meets, w, c, u, t) ==> (u, t) in visited
  }

  ghost predicate MemberDone(meets: Answers, v: Json, s: Schema, name: string, visited: Visited)
    requires v.Obj? && name in v.fields
  {
    MemberSchema(s, name).Some? ==> Done(meets, v.fields[name], MemberSchema(s, name).value, visited)
  }

  /** One further evaluation: what it went through counts, and if it raised, so does its keyword. */
  lemma ChildRecorded(meets: Answers, keyword: Applicator, v: Json, s: Schema, w: Json, c: Schema, visited: Visited,
                      completed: bool)
    requires Calls(meets, keyword, v, s, w, c) && Records(meets, w, c, visited, completed)
    requires completed <==> !Raises(meets, w, c)
    ensures Within(meets, {keyword}, v, s, visited)
    ensures if completed then Done(meets, w, c, visited) else RaisesVia(meets, {keyword}, v, s)
  {
    CallsChild(meets, keyword, v, s, w, c);
  }

  /** All further evaluations of one keyword are done. */
  lemma KeywordRecorded(meets: Answers, keyword: Applicator, v: Json, s: Schema, visited: Visited)
    requires Within(meets, {keyword}, v, s, visited)
    requires forall w: Json, c: Schema :: Calls(meets, keyword, v, s, w, c) ==> Done(meets, w, c, visited)
    ensures RecordsVia(meets, {keyword}, v, s, visited, true) && !RaisesVia(meets, {keyword}, v, s)
  {
  }

  lemma ItemsRecorded(meets: Answers, v: Json, s: Schema, visited: Visited)
    requires v.Arr? && Within(meets, {Items}, v, s, visited)
    requires Sub(s, "items").Some? ==>
               forall j :: 0 <= j < |v.items| ==> Done(meets, v.items[j], Sub(s, "items").value, visited)
    ensures RecordsVia(meets, {Items}, v, s, visited, true) && !RaisesVia(meets, {Items}, v, s)
  {
    KeywordRecorded(meets, Items, v, s, visited);
  }

  /** The items up to the first that satisfies `contains`, or all of them. */
  lemma ContainsRecorded(meets: Answers, v: Json, s: Schema, c: Schema, n: nat, visited: Visited)
    requires v.Arr? && n <= |v.items| && Within(meets, {Contains}, v, s, visited)
    requires Sub(s, "contains") == Some(c)
    requires n < |v.items| ==> n > 0 && meets(v.items[n - 1], c)
    requires forall j :: 0 <= j < n ==> Done(meets, v.items[j], c, visited)
    ensures RecordsVia(meets, {Contains}, v, s, visited, true) && !RaisesVia(meets, {Contains}, v, s)
  {
    forall w: Json, d: Schema | Calls(meets, Contains, v, s, w, d) ensures Done(meets, w, d, visited) {
      var i :| 0 <= i < |v.items| && w == v.items[i] && NoneMeets(meets, v.items, i, c);
      assert i < n;
    }
    KeywordRecorded(meets, Contains, v, s, visited);
  }

  lemma AllOfRecorded(meets: Answers, v: Json, s: Schema, visited: Visited)
    requires Within(meets, {AllOf}, v, s, visited)
    requires forall x :: x in Listed(s, "allOf") && x.Obj? ==> Done(meets, v, x, visited)
    ensures RecordsVia(meets, {AllOf}, v, s, visited, true) && !RaisesVia(meets, {AllOf}, v, s)
  {
    KeywordRecorded(meets, AllOf, v, s, visited);
  }

  lemma ConditionRecorded(meets: Answers, v: Json, s: Schema, branch: string, visited: Visited)
    requires Within(meets, {Condition}, v, s, visited)
    requires Sub(s, "if").Some? && Done(meets, v, Sub(s, "if").value, visited)
    requires branch == ChosenBranch(meets, v, s)
    requires Sub(s, branch).Some? ==> Done(meets, v, Sub(s, branch).value, visited)
    ensures RecordsVia(meets, {Condition}, v, s, visited, true) && !RaisesVia(meets, {Condition}, v, s)
  {
    KeywordRecorded(meets, Condition, v, s, visited);
  }

  lemma WithinEvaluates(meets: Answers, keywords: set<Applicator>, v: Json, s: Schema, visited: Visited)
    requires TypeOk(v, s) && Within(meets, keywords, v, s, visited)
    ensures forall u, t :: (u, t) in visited ==> Evaluates(meets, v, s, u, t)
  {
    forall u, t | (u, t) in visited ensures Evaluates(meets, v, s, u, t) {
      var keyword :| keyword in keywords && EvaluatesVia(meets, keyword, v, s, u, t);
      var w: Json, c: Schema :| Calls(meets, keyword, v, s, w, c) && Evaluates(meets, w, c, u, t);
      EvaluatesNext(meets, keyword, v, s, w, c, u, t);
    }
  }

  lemma RecordsTogether(meets: Answers, v: Json, s: Schema, kind: Visited, combined: Visited, completed: bool)
    requires TypeOk(v, s)
    requires RecordsVia(meets, KIND_KEYWORDS, v, s, kind, true) || (!completed && combined == {})
    requires Within(meets, KIND_KEYWORDS, v, s, kind)
    requires RecordsVia(meets, COMBINING_KEYWORDS, v, s, combined, completed)
    ensures Records(meets, v, s, {(v, s)} + kind + combined, completed)
  {
    WithinEvaluates(meets, KIND_KEYWORDS, v, s, kind);
    WithinEvaluates(meets, COMBINING_KEYWORDS, v, s, combined);
    if completed {
      forall u, t | Evaluates(meets, v, s, u, t) ensures (u, t) in {(v, s)} + kind + combined {
        if u != v || t != s {
          var keyword, w, c := EvaluatesFirst(meets, v, s, u, t);
          KeywordKinds(keyword);
        }
      }
    }
  }

  method ObjectErrors(strings: Strings, value: Json, s: Schema, path: string)
    returns (r: Outcome, ghost visited: Visited)
    requires value.Obj?
    ensures r.Success? ==>
              (r.value == [] <==>
                 RequiredOk(value, s) && forall name :: name in value.fields ==> PropertyOk(strings, value, s, name))
    ensures r.Failure? <==> PropertiesMalformed(value, s) || RaisesVia(AnswersOf(strings), {Members}, value, s)
    ensures RecordsVia(AnswersOf(strings), {Members}, value, s, visited, r.Success?)
    decreases s, 1
  {
    visited := {};
    var errors: seq<Error> := [];
    var required := Listed(s, "required");
    for i := 0 to |required|
      invariant errors == [] <==> forall j :: 0 <= j < i && required[j].Str? ==> required[j].s in value.fields
    {
      if required[i].Str? && required[i].s !in value.fields {
        errors := errors + [Error(path, "required")];
      }
    }
    assert errors == [] <==> RequiredOk(value, s);
    if "properties" in s.fields && !s.fields["properties"].Obj? {
      return Failure(UnsupportedSchema(path)), visited;
    }
    var additional := Get(s, "additionalProperties");
    var names := value.fields.Keys;
    while names != {}
      invariant names <= value.fields.Keys
      invariant errors == [] <==>
                  RequiredOk(value, s)
                  && forall name :: name in value.fields && name !in names ==> PropertyOk(strings, value, s, name)
      invariant Within(AnswersOf(strings), {Members}, value, s, visited)
      invariant forall name :: name in value.fields && name !in names ==>
          MemberDone(AnswersOf(strings), value, s, name, visited)
      decreases names
    {
      var name :| name in names;
      names := names - {name};
      var childPath := path + "." + name;
      var property := PropertySchema(s, name);
      var more: seq<Error> := [];
      if property.Some? {
        assert MemberSchema(s, name) == property;
        var childOutcome, childVisited := ValidationErrors(strings, value.fields[name], property.value, childPath);
        ChildRecorded(AnswersOf(strings), Members, value, s, value.fields[name], property.value, childVisited,
                      childOutcome.Success?);
        visited := visited + childVisited;
        if childOutcome.Failure? {
          return childOutcome, visited;
        }
        more := childOutcome.value;
      } else if additional == Some(Bool(false)) {
        more := [Error(childPath, "additionalProperties")];
      } else if additional.Some? && additional.value.Obj? {
        assert MemberSchema(s, name) == Some(additional.value);
        var childOutcome, childVisited := ValidationErrors(strings, value.fields[name], additional.value, childPath);
        ChildRecorded(AnswersOf(strings), Members, value, s, value.fields[name], additional.value, childVisited,
                      childOutcome.Success?);
        visited := visited + childVisited;
        if childOutcome.Failure? {
          return childOutcome, visited;
        }
        more := childOutcome.value;
      }
      assert more == [] <==> PropertyOk(strings, value, s, name);
      errors := errors + more;
    }
    return Success(errors), visited;
  }

  method UniqueErrors(value: Json, s: Schema, path: string) returns (errors: seq<Error>)
    requires value.Arr?
    ensures errors == [] <==> MinItemsOk(value, s) && UniqueItemsOk(value, s)
  {
    errors := [];
    var minimum := IntOf(Get(s, "minItems"));
    if minimum.Some? && |value.items| < minimum.value {
      errors := errors + [Error(path, "minItems")];
    }
    ghost var short := errors != [];
    if Get(s, "uniqueItems") == Some(Bool(true)) {
      for i := 0 to |value.items|
        invariant errors == [] <==>
                    !short && forall a, b :: 0 <= a < b < i ==> !JsonEqual(value.items[a], value.items[b])
      {
        forall a | 0 <= a < i
          ensures JsonEqual(value.items[i], value.items[a]) <==> JsonEqual(value.items[a], value.items[i])
        {
          JsonEqualEquivalence(value.items[i], value.items[a], value.items[a]);
        }
        if exists a :: 0 <= a < i && JsonEqual(value.items[i], value.items[a]) {
          errors := errors + [Error(ItemPath(path, i), "uniqueItems")];
        }
      }
    }
  }

  method ItemsErrors(strings: Strings, value: Json, s: Schema, path: string)
    returns (r: Outcome, ghost visited: Visited)
    requires value.Arr?
    ensures r.Success? ==> (r.value == [] <==> ItemsOk(strings, value, s))
    ensures r.Failure? <==> RaisesVia(AnswersOf(strings), {Items}, value, s)
    ensures RecordsVia(AnswersOf(strings), {Items}, value, s, visited, r.Success?)
    decreases s, 1
  {
    visited := {};
    var errors: seq<Error> := [];
    var items := Sub(s, "items");
    if items.None? {
      return Success([]), visited;
    }
    for i := 0 to |value.items|
      invariant errors == [] <==> forall j :: 0 <= j < i ==> Satisfies(strings, value.items[j], items.value)
      invariant Within(AnswersOf(strings), {Items}, value, s, visited)
      invariant forall j :: 0 <= j < i ==> Done(AnswersOf(strings), value.items[j], items.value, visited)
    {
      var childOutcome, childVisited := ValidationErrors(strings, value.items[i], items.value, ItemPath(path, i));
      ChildRecorded(AnswersOf(strings), Items, value, s, value.items[i], items.value, childVisited,
                    childOutcome.Success?);
      visited := visited + childVisited;
      if childOutcome.Failure? {
        return childOutcome, visited;
      }
      errors := errors + childOutcome.value;
    }
    ItemsRecorded(AnswersOf(strings), value, s, visited);
    return Success(errors), visited;
  }

  method ContainsErrors(strings: Strings, value: Json, s: Schema, path: string)
    returns (r: Outcome, ghost visited: Visited)
    requires value.Arr?
    ensures r.Success? ==> (r.value == [] <==> ContainsOk(strings, value, s))
    ensures r.Failure? <==> RaisesVia(AnswersOf(strings), {Contains}, value, s)
    ensures RecordsVia(AnswersOf(strings), {Contains}, value, s, visited, r.Success?)
    decreases s, 1
  {
    visited := {};
    var contains := Sub(s, "contains");
    if contains.None? {
      return Success([]), visited;
    }
    var found, i := false, 0;
    while i < |value.items| && !found
      invariant i <= |value.items|
      invariant found ==> i > 0 && Satisfies(strings, value.items[i - 1], contains.value)
      invariant !found ==> forall j :: 0 <= j < i ==> !Satisfies(strings, value.items[j], contains.value)
      invariant Within(AnswersOf(strings), {Contains}, value, s, visited)
      invariant forall j :: 0 <= j < i ==> Done(AnswersOf(strings), value.items[j], contains.value, visited)
    {
      var childOutcome, childVisited := ValidationErrors(strings, value.items[i], contains.value, ItemPath(path, i));
      assert Calls(AnswersOf(strings), Contains, value, s, value.items[i], contains.value);
      ChildRecorded(AnswersOf(strings), Contains, value, s, value.items[i], contains.value, childVisited,
                    childOutcome.Success?);
      visited := visited + childVisited;
      if childOutcome.Failure? {
        return childOutcome, visited;
      }
      found := childOutcome.value == [];
      i := i + 1;
    }
    ContainsRecorded(AnswersOf(strings), value, s, contains.value, i, visited);
    return Success(if found then [] else [Error(path, "contains")]), visited;
  }

  method ArrayErrors(strings: Strings, value: Json, s: Schema, path: string)
    returns (r: Outcome, ghost visited: Visited)
    requires value.Arr?
    ensures r.Success? ==>
              (r.value == [] <==>
                 && MinItemsOk(value, s) && UniqueItemsOk(value, s)
                 && ItemsOk(strings, value, s) && ContainsOk(strings, value, s))
    ensures r.Failure? <==> RaisesVia(AnswersOf(strings), {Items, Contains}, value, s)
    ensures RecordsVia(AnswersOf(strings), {Items, Contains}, value, s, visited, r.Success?)
    decreases s, 2
  {
    var errors := UniqueErrors(value, s, path);
    r, visited := ItemsErrors(strings, value, s, path);
    if r.Failure? {
      return;
    }
    errors := errors + r.value;
    ghost var containsVisited;
    r, containsVisited := ContainsErrors(strings, value, s, path);
    visited := visited + containsVisited;
    if r.Success? {
      r := Success(errors + r.value);
    }
  }

  method ScalarErrors(strings: Strings, value: Json, s: Schema, path: string) returns (errors: seq<Error>)
    ensures errors == [] <==> ScalarOk(strings, value, s)
  {
    errors := [];
    if value.Str? {
      var minimum := IntOf(Get(s, "minLength"));
      if minimum.Some? && |value.s| < minimum.value {
        errors := errors + [Error(path, "minLength")];
      }
      var pattern := Get(s, "pattern");
      if pattern.Some? && pattern.value.Str? && !strings.matches(pattern.value.s, value.s) {
        errors := errors + [Error(path, "pattern")];
      }
      if Get(s, "format") == Some(Str("date-time")) && !strings.isDateTime(value.s) {
        errors := errors + [Error(path, "format")];
      }
    }
    if IsNumber(value) {
      var minimum := BoundOf(Get(s, "minimum"));
      if minimum.Some? && NumberOf(value) < minimum.value {
        errors := errors + [Error(path, "minimum")];
      }
      var exclusive := BoundOf(Get(s, "exclusiveMinimum"));
      if exclusive.Some? && NumberOf(value) <= exclusive.value {
        errors := errors + [Error(path, "exclusiveMinimum")];
      }
    }
  }

  method AllOfErrors(strings: Strings, value: Json, s: Schema, path: string)
    returns (r: Outcome, ghost visited: Visited)
    ensures r.Success? ==> (r.value == [] <==> AllOfOk(strings, value, s))
    ensures r.Failure? <==> RaisesVia(AnswersOf(strings), {AllOf}, value, s)
    ensures RecordsVia(AnswersOf(strings), {AllOf}, value, s, visited, r.Success?)
    decreases s, 1
  {
    visited := {};
    var errors: seq<Error> := [];
    var all := Listed(s, "allOf");
    for i := 0 to |all|
      invariant errors == [] <==> forall j :: 0 <= j < i && all[j].Obj? ==> Satisfies(strings, value, all[j])
      invariant Within(AnswersOf(strings), {AllOf}, value, s, visited)
      invariant forall j :: 0 <= j < i && all[j].Obj? ==> Done(AnswersOf(strings), value, all[j], visited)
    {
      if all[i].Obj? {
        var childOutcome, childVisited := ValidationErrors(strings, value, all[i], path);
        ChildRecorded(AnswersOf(strings), AllOf, value, s, value, all[i], childVisited, childOutcome.Success?);
        visited := visited + childVisited;
        if childOutcome.Failure? {
          return childOutcome, visited;
        }
        errors := errors + childOutcome.value;
      }
    }
    AllOfRecorded(AnswersOf(strings), value, s, visited);
    return Success(errors), visited;
  }

  method ConditionalErrors(strings: Strings, value: Json, s: Schema, path: string)
    returns (r: Outcome, ghost visited: Visited)
    ensures r.Success? ==> (r.value == [] <==> ConditionalOk(strings, value, s))
    ensures r.Failure? <==> RaisesVia(AnswersOf(strings), {Condition}, value, s)
    ensures RecordsVia(AnswersOf(strings), {Condition}, value, s, visited, r.Success?)
    decreases s, 1
  {
    visited := {};
    var condition := Sub(s, "if");
    if condition.None? {
      return Success([]), visited;
    }
    r, visited := ValidationErrors(strings, value, condition.value, path);
    ChildRecorded(AnswersOf(strings), Condition, value, s, value, condition.value, visited, r.Success?);
    if r.Failure? {
      return;
    }
    var branch := if r.value == [] then "then" else "else";
    assert branch == ChosenBranch(AnswersOf(strings), value, s);
    var branchSchema := Sub(s, branch);
    if branchSchema.None? {
      ConditionRecorded(AnswersOf(strings), value, s, branch, visited);
      return Success([]), visited;
    }
    ghost var branchVisited;
    r, branchVisited := ValidationErrors(strings, value, branchSchema.value, path);
    ChildRecorded(AnswersOf(strings), Condition, value, s, value, branchSchema.value, branchVisited, r.Success?);
    visited := visited + branchVisited;
    if r.Success? {
      ConditionRecorded(AnswersOf(strings), value, s, branch, visited);
    }
  }

  method NotErrors(strings: Strings, value: Json, s: Schema, path: string)
    returns (r: Outcome, ghost visited: Visited)
    ensures r.Success? ==> (r.value == [] <==> NotOk(strings, value, s))
    ensures r.Failure? <==> RaisesVia(AnswersOf(strings), {Negation}, value, s)
    ensures RecordsVia(AnswersOf(strings), {Negation}, value, s, visited, r.Success?)
    decreases s, 1
  {
    visited := {};
    var negated := Sub(s, "not");
    if negated.None? {
      return Success([]), visited;
    }
    r, visited := ValidationErrors(strings, value, negated.value, path);
    ChildRecorded(AnswersOf(strings), Negation, value, s, value, negated.value, visited, r.Success?);
    if r.Success? {
      r := Success(if r.value == [] then [Error(path, "not")] else []);
    }
  }

  /** The keywords of the document's own kind. */
  method KindErrors(strings: Strings, value: Json, s: Schema, path: string)
    returns (r: Outcome, ghost visited: Visited)
    ensures r.Success? ==> (r.value == [] <==> KindOk(strings, value, s))
    ensures r.Failure? <==> PropertiesMalformed(value, s) || RaisesVia(AnswersOf(strings), KIND_KEYWORDS, value, s)
    ensures RecordsVia(AnswersOf(strings), KIND_KEYWORDS, value, s, visited, r.Success?)
    decreases s, 3
  {
    visited := {};
    if value.Obj? {
      r, visited := ObjectErrors(strings, value, s, path);
    } else if value.Arr? {
      r, visited := ArrayErrors(strings, value, s, path);
    } else {
      var errors := ScalarErrors(strings, value, s, path);
      r := Success(errors);
    }
  }

  /** The keywords that combine sub-schemas. */
  method CombinedErrors(strings: Strings, value: Json, s: Schema, path: string)
    returns (r: Outcome, ghost visited: Visited)
    ensures r.Success? ==> (r.value == [] <==> CombinedOk(strings, value, s))
    ensures r.Failure? <==> RaisesVia(AnswersOf(strings), COMBINING_KEYWORDS, value, s)
    ensures RecordsVia(AnswersOf(strings), COMBINING_KEYWORDS, value, s, visited, r.Success?)
    decreases s, 3
  {
    ghost var childVisited: Visited;
    r, visited := AllOfErrors(strings, value, s, path);
    if r.Failure? {
      return;
    }
    var errors := r.value;
    r, childVisited := ConditionalErrors(strings, value, s, path);
    visited := visited + childVisited;
    if r.Failure? {
      return;
    }
    errors := errors + r.value;
    r, childVisited := NotErrors(strings, value, s, path);
    visited := visited + childVisited;
    if r.Success? {
      r := Success(errors + r.value);
    }
  }

  /** The evaluator reports no error exactly when the document satisfies the schema, raises exactly when
  an evaluation it comes to raises, and goes through exactly the evaluations it comes to. */
  method ValidationErrors(strings: Strings, value: Json, s: Schema, path: string)
    returns (r: Outcome, ghost visited: Visited)
    ensures r.Failure? <==> Raises(AnswersOf(strings), value, s)
    ensures r.Success? ==> (r.value == [] <==> Satisfies(strings, value, s))
    ensures Records(AnswersOf(strings), value, s, visited, r.Success?)
    ensures WellFormed(s) ==> r.Success?
    decreases s, 4
  {
    RaisesStep(AnswersOf(strings), value, s);
    if WellFormed(s) {
      WellFormedNeverRaises(AnswersOf(strings), value, s);
    }
    visited := {(value, s)};
    var typeOutcome := TypeErrors(value, s, path);
    if typeOutcome.Failure? || typeOutcome.value != [] {
      return typeOutcome, visited;
    }
    var errors := typeOutcome.value;
    var enum := Get(s, "enum");
    if enum.Some? && enum.value.Arr? && !exists x :: x in enum.value.items && JsonEqual(value, x) {
      errors := errors + [Error(path, "enum")];
    }
    if "const" in s.fields && !JsonEqual(value, s.fields["const"]) {
      errors := errors + [Error(path, "const")];
    }
    var kindOutcome, kindVisited := KindErrors(strings, value, s, path);
    visited := visited + kindVisited;
    if kindOutcome.Failure? {
      RecordsTogether(AnswersOf(strings), value, s, kindVisited, {}, false);
      return kindOutcome, visited;
    }
    var combinedOutcome, combinedVisited := CombinedErrors(strings, value, s, path);
    visited := visited + combinedVisited;
    RecordsTogether(AnswersOf(strings), value, s, kindVisited, combinedVisited, combinedOutcome.Success?);
    if combinedOutcome.Failure? {
      return combinedOutcome, visited;
    }
    return Success(errors + kindOutcome.value + combinedOutcome.value), visited;
  }

  /** Fail-closed coverage: on an accepted schema, the evaluator never meets an unsupported keyword. */
  method ValidateSupported(strings: Strings, value: Json, s: Schema)
    returns (accepted: bool, r: Outcome, ghost visited: Visited)
    ensures accepted <==> Supported(s)
    ensures accepted ==> (r.Failure? <==> Raises(AnswersOf(strings), value, s))
    ensures accepted && r.Success? ==> (r.value == [] <==> Satisfies(strings, value, s))
    ensures accepted ==> Records(AnswersOf(strings), value, s, visited, r.Success?)
    ensures accepted ==> forall u, t :: (u, t) in visited ==> t.Obj? && t.fields.Keys <= SUPPORTED_KEYWORDS
  {
    visited := {};
    r := Failure(UnsupportedSchema("$"));
    accepted := AssertSupportedSchema(s);
    if accepted {
      r, visited := ValidationErrors(strings, value, s, "$");
      SupportedExactly(s);
      forall u, t | (u, t) in visited ensures t.Obj? && t.fields.Keys <= SUPPORTED_KEYWORDS {
        EvaluatesInside(AnswersOf(strings), value, s, u, t);
      }
    }
  }
}
