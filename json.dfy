/**
 * JSON values as the server reads them through Jackson's JsonNode and as the
 * browser client reads them after JSON.parse.
 */
module Json {
  import opened Wrappers
  import opened Text

  datatype Json =
    | JNull
    | JBool(b: bool)
    | JNum(n: int)
    | JStr(s: string)
    | JArr(items: seq<Json>)
    | JObj(fields: map<string, Json>)

  /** An ordered list of written fields, as a JsonGenerator emits them. */
  type FieldList = seq<(string, Json)>

  /** The value a written field list denotes, when its keys are distinct. */
  function FieldValue(fields: FieldList, key: string): Option<Json>
  {
    if fields == [] then None
    else if fields[0].0 == key then Some(fields[0].1)
    else FieldValue(fields[1..], key)
  }

  function Keys(fields: FieldList): seq<string>
  {
    if fields == [] then [] else [fields[0].0] + Keys(fields[1..])
  }

  /**
   * The object a reader parses from a written field list. A key written
   * twice keeps its first value here; every list written in this model has
   * distinct keys.
   */
  function ObjectOf(fields: FieldList): (m: map<string, Json>)
    ensures forall k :: k in m <==> FieldValue(fields, k).Some?
    ensures forall k :: k in m ==> FieldValue(fields, k) == Some(m[k])
  {
    if fields == [] then map[]
    else ObjectOf(fields[1..])[fields[0].0 := fields[0].1]
  }

  lemma FieldValueCons(head: (string, Json), rest: FieldList, key: string)
    ensures FieldValue([head] + rest, key) == if head.0 == key then Some(head.1) else FieldValue(rest, key)
    ensures Keys([head] + rest) == [head.0] + Keys(rest)
  {
    assert ([head] + rest)[1..] == rest;
  }

  // ---------------------------------------------------------------- Jackson

  /** JsonNode.has(key): only an object node has named fields; a JSON null value still counts. */
  predicate Has(node: Json, key: string)
  {
    node.JObj? && key in node.fields
  }

  /** JsonNode.get(key): None stands for Java null, the answer for an absent key. */
  function Get(node: Json, key: string): (r: Option<Json>)
    ensures r.Some? <==> Has(node, key)
    ensures r.Some? ==> r.value == node.fields[key]
  {
    if Has(node, key) then Some(node.fields[key]) else None
  }

  /** JsonNode.asText(). */
  function AsText(node: Json): string
  {
    match node
    case JStr(s) => s
    case JNum(n) => IntToDecimal(n)
    case JBool(b) => if b then "true" else "false"
    case JNull => "null"
    case JArr(_) => ""
    case JObj(_) => ""
  }

  /** JsonNode.path(key).asText(): a missing node reads as the empty string. */
  function PathText(node: Json, key: string): (r: string)
    ensures !Has(node, key) ==> r == ""
    ensures Has(node, key) ==> r == AsText(node.fields[key])
  {
    match Get(node, key)
    case None => ""
    case Some(v) => AsText(v)
  }

  // ------------------------------------------------------------- JavaScript

  /**
   * A JavaScript exception: a TypeError or a ReferenceError (an undeclared
   * identifier) the runtime throws, or a value some function body throws,
   * by identity.
   */
  datatype JsError = TypeError | ReferenceError | Thrown(value: nat)

  /**
   * data[key] together with data.hasOwnProperty(key) for a value produced by
   * JSON.parse: None is undefined (no own property). Reading a property of
   * null throws a TypeError. Arrays and strings own their indices and length;
   * numbers and booleans own nothing.
   */
  function OwnProperty(data: Json, key: string): (r: Result<Option<Json>, JsError>)
    ensures r.Err? <==> data.JNull?
    ensures data.JObj? ==> r == Ok(if key in data.fields then Some(data.fields[key]) else None)
  {
    match data
    case JNull => Err(TypeError)
    case JBool(_) => Ok(None)
    case JNum(_) => Ok(None)
    case JObj(fields) => Ok(if key in fields then Some(fields[key]) else None)
    case JArr(items) =>
      if key == "length" then Ok(Some(JNum(|items|)))
      else (match CanonicalIndex(key)
        case Some(i) => if i < |items| then Ok(Some(items[i])) else Ok(None)
        case None => Ok(None))
    case JStr(s) =>
      if key == "length" then Ok(Some(JNum(|s|)))
      else (match CanonicalIndex(key)
        case Some(i) => if i < |s| then Ok(Some(JStr([s[i]]))) else Ok(None)
        case None => Ok(None))
  }

  predicate IsPrimitive(v: Json) { !v.JArr? && !v.JObj? }

  /**
   * a === b for a value JSON.parse just produced against another value:
   * primitives compare by value; a freshly parsed array or object is identical
   * to nothing else.
   */
  predicate StrictEquals(a: Json, b: Json)
  {
    IsPrimitive(a) && a == b
  }

  /** JSON.stringify of an object literal: properties holding undefined are dropped. */
  function Stringify(props: seq<(string, Option<Json>)>): (r: FieldList)
    ensures |r| <= |props|
    ensures forall k :: FieldValue(r, k) == Lookup(props, k)
  {
    if props == [] then []
    else match props[0].1
      case None => Stringify(props[1..])
      case Some(v) => [(props[0].0, v)] + Stringify(props[1..])
  }

  /** The first defined value of a key in a property list. */
  function Lookup(props: seq<(string, Option<Json>)>, key: string): Option<Json>
  {
    if props == [] then None
    else if props[0].0 == key && props[0].1.Some? then props[0].1
    else Lookup(props[1..], key)
  }

  /** JsonNode.asText() on a number gives back the decimal text a JavaScript client parses. */
  lemma NumberTextRoundTrip(n: nat)
    ensures AllDigits(AsText(JNum(n))) && ParseDecimal(AsText(JNum(n))) == n
  {
    DecimalRoundTrip(n);
  }

  /** Every array index that exists is an own property holding that element. */
  lemma ArrayIndexIsOwn(items: seq<Json>, i: nat)
    requires i < |items|
    ensures OwnProperty(JArr(items), NatToDecimal(i)) == Ok(Some(items[i]))
  {
    IndexRoundTrip(i);
    DecimalRoundTrip(i);
    assert NatToDecimal(i) != "length" by {
      assert IsDigit(NatToDecimal(i)[0]);
    }
  }
}
