/**
 * A menu-item modifier: a name and its list of options. The class binds its
 * JSON properties to fields, so reading it never enforces the declared
 * `required = true`: a missing property, like a `null` one, leaves the field
 * null, and a `null` option is kept as a null element. The bean-validation
 * constraints then demand both fields non-null, and `@Min(1)` on the options
 * list is taken to mean at least one option.
 */
module Modifiers {
  import opened Wrappers
  import opened JsonValues
  import opened JavaErrors

  datatype Modifier = Modifier(name: JavaString, options: Option<seq<JavaString>>)

  /** The declared constraints: both fields non-null, and at least one option. */
  predicate Valid(m: Modifier) {
    && m.name.Some?
    && m.options.Some? && |m.options.value| >= 1
  }

  const NotNullMessage: string := "must not be null"
  const MinOneMessage: string := "must be greater than or equal to 1"

  /** The constraint violations, in declaration order, with their default messages. */
  function Violations(m: Modifier): (r: seq<FieldError>)
    ensures r == [] <==> Valid(m)
    ensures |r| <= 2
    ensures m.name.None? ==> r[0] == FieldError("name", Some(NotNullMessage))
  {
    (if m.name.None? then [FieldError("name", Some(NotNullMessage))] else [])
    + (if m.options.None? then [FieldError("options", Some(NotNullMessage))]
       else if |m.options.value| < 1 then [FieldError("options", Some(MinOneMessage))]
       else [])
  }

  /** A `String` property read from JSON: text, or `null`; any other value fails. */
  function StringValue(v: Json): Option<JavaString> {
    match v
    case JNull => Some(None)
    case JStr(text) => Some(Some(text))
    case _ => None
  }

  /** The elements of an options array, each a string or `null`. */
  function StringElements(elems: seq<Json>): (r: Option<seq<JavaString>>)
    ensures r.Some? ==> |r.value| == |elems|
    ensures r.Some? ==> forall i :: 0 <= i < |elems| ==> StringValue(elems[i]) == Some(r.value[i])
    ensures r.None? ==> exists i :: 0 <= i < |elems| && StringValue(elems[i]).None?
  {
    if elems == [] then Some([])
    else if StringValue(elems[0]).None? then None
    else
      match StringElements(elems[1..])
      case None => None
      case Some(rest) => Some([StringValue(elems[0]).value] + rest)
  }

  /** A property that is missing reads as `null`. */
  function PropertyOrNull(obj: map<string, Json>, key: string): Json {
    if key in obj then obj[key] else JNull
  }

  /**
   * Reading a modifier: a missing or `null` property leaves its field null;
   * a property of the wrong type is a decoding failure.
   */
  function Decode(obj: map<string, Json>): (r: Option<Modifier>)
    ensures r.Some? ==> (r.value.name.None? <==> PropertyOrNull(obj, "name") == JNull)
    ensures r.Some? ==> (r.value.options.None? <==> PropertyOrNull(obj, "options") == JNull)
    ensures r.None? <==>
              || StringValue(PropertyOrNull(obj, "name")).None?
              || !(PropertyOrNull(obj, "options").JNull? || PropertyOrNull(obj, "options").JArr?)
              || (PropertyOrNull(obj, "options").JArr? && StringElements(PropertyOrNull(obj, "options").elems).None?)
  {
    var name := StringValue(PropertyOrNull(obj, "name"));
    var options: Option<Option<seq<JavaString>>> :=
      match PropertyOrNull(obj, "options")
      case JNull => Some(None)
      case JArr(elems) => (match StringElements(elems) case None => None case Some(texts) => Some(Some(texts)))
      case _ => None;
    if name.None? || options.None? then None
    else Some(Modifier(name.value, options.value))
  }

  /** A `String` as JSON. */
  function StringJson(s: JavaString): Json {
    if s.Some? then JStr(s.value) else JNull
  }

  function Encode(m: Modifier): map<string, Json> {
    map["name" := StringJson(m.name),
        "options" := if m.options.Some? then JArr(Strings(m.options.value)) else JNull]
  }

  function Strings(texts: seq<JavaString>): (r: seq<Json>)
    ensures |r| == |texts| && forall i :: 0 <= i < |texts| ==> r[i] == StringJson(texts[i])
  {
    if texts == [] then [] else [StringJson(texts[0])] + Strings(texts[1..])
  }

  lemma {:induction false} StringElementsOfStrings(texts: seq<JavaString>)
    ensures StringElements(Strings(texts)) == Some(texts)
  {
    if texts != [] {
      StringElementsOfStrings(texts[1..]);
      assert Strings(texts)[1..] == Strings(texts[1..]);
      assert [texts[0]] + texts[1..] == texts;
    } else {
      assert Strings(texts) == [];
    }
  }

  /** Reading back what was written gives the same modifier. */
  lemma DecodeEncode(m: Modifier)
    ensures Decode(Encode(m)) == Some(m)
  {
    if m.options.Some? {
      StringElementsOfStrings(m.options.value);
    }
  }

  /**
   * The declared `required = true` is not what rejects a modifier without a
   * name: it is read with a null name, which `@NotNull` then reports.
   */
  lemma MissingNameCaughtByValidation(option: string)
    ensures Decode(map["options" := JArr([JStr(option)])]) == Some(Modifier(None, Some([Some(option)])))
    ensures Violations(Modifier(None, Some([Some(option)]))) == [FieldError("name", Some(NotNullMessage))]
  {
    var obj := map["options" := JArr([JStr(option)])];
    assert "name"[0] != "options"[0];
    assert PropertyOrNull(obj, "name") == JNull;
    assert PropertyOrNull(obj, "options") == JArr([JStr(option)]);
    assert [JStr(option)][1..] == [];
    assert StringElements([JStr(option)]) == Some([Some(option)] + []);
    assert StringValue(PropertyOrNull(obj, "name")) == Some(None);
    assert [Some(option)] + [] == [Some(option)];
    assert Decode(obj) == Some(Modifier(None, Some([Some(option)])));
  }
}
