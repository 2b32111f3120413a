/**
 * The values `JSON.parse` produces, JavaScript truthiness and property access on them,
 * and what RFC 8259 says about which texts decode. The decoder itself and the
 * host's number-to-string conversion are supplied by a `JsRuntime` value.
 */
module Json {
  import opened Wrappers
  import opened JsText

  /** A decoded JSON value. Numbers are kept as exact reals (floating point is not modelled). */
  datatype JsonValue =
    | JNull
    | JBool(b: bool)
    | JNumber(n: real)
    | JString(s: string)
    | JArray(items: seq<JsonValue>)
    | JObject(fields: map<string, JsonValue>)

  /**
   * The two host services the parser uses: `JSON.parse` (None when it throws) and the
   * ECMAScript Number::toString rendering that `join` applies to numeric elements.
   */
  datatype JsRuntime = JsRuntime(parse: string -> Option<JsonValue>, numberToString: real -> string)

  /** ToBoolean: false exactly for null, false, 0 and the empty string. */
  predicate Truthy(v: JsonValue) {
    match v
    case JNull => false
    case JBool(b) => b
    case JNumber(n) => n != 0.0
    case JString(s) => s != ""
    case JArray(_) => true
    case JObject(_) => true
  }

  /** Truthiness of a property read, where None (`undefined`) is falsy. */
  predicate FieldTruthy(o: Option<JsonValue>) {
    o.Some? && Truthy(o.value)
  }

  /**
   * `v.key` for a non-null decoded value: an object's own member, and `undefined`
   * for every other kind of value (none of the keys read here names a built-in
   * property of strings, numbers, booleans, arrays or objects). On `null` the access
   * throws, which callers handle before calling.
   */
  function Get(v: JsonValue, key: string): Option<JsonValue>
    requires v != JNull
  {
    if v.JObject? && key in v.fields then Some(v.fields[key]) else None
  }

  /**
   * ToString of an element, as `Array.prototype.join` applies it; None when it throws.
   * Null becomes the empty string and a nested array is joined with ",". An object
   * goes through OrdinaryToPrimitive: a decoded object has no callable members, so an
   * own "toString" member hides `Object.prototype.toString`, `valueOf` then returns
   * the object itself, and a TypeError is thrown; without that member it prints as
   * "[object Object]".
   */
  function ElementText(rt: JsRuntime, v: JsonValue): Option<string>
    decreases v, 1
  {
    match v
    case JNull => Some("")
    case JBool(b) => Some(if b then "true" else "false")
    case JNumber(n) => Some(rt.numberToString(n))
    case JString(s) => Some(s)
    case JArray(items) => JoinValues(rt, items, ",")
    case JObject(fields) => if "toString" in fields then None else Some("[object Object]")
  }

  /** `items.join(sep)` on decoded values; None when converting some element throws. */
  function JoinValues(rt: JsRuntime, items: seq<JsonValue>, sep: string): Option<string>
    decreases JArray(items), 0
  {
    if exists i :: 0 <= i < |items| && ElementText(rt, items[i]).None? then None
    else Some(Join(seq(|items|, i requires 0 <= i < |items| => ElementText(rt, items[i]).value), sep))
  }

  /** An element object with its own "toString" member makes the whole `join` throw. */
  lemma OwnToStringThrows(rt: JsRuntime, items: seq<JsonValue>, sep: string, i: nat)
    requires i < |items| && items[i].JObject? && "toString" in items[i].fields
    ensures JoinValues(rt, items, sep) == None
  {
    assert ElementText(rt, items[i]).None?;
  }

  /** A list of strings joins to the strings with the separator between them. */
  lemma {:induction false} JoinStrings(rt: JsRuntime, items: seq<JsonValue>, sep: string, parts: seq<string>)
    requires |items| == |parts| && forall i :: 0 <= i < |items| ==> items[i] == JString(parts[i])
    ensures JoinValues(rt, items, sep) == Some(Join(parts, sep))
  {
    forall i | 0 <= i < |items|
      ensures ElementText(rt, items[i]) == Some(parts[i])
    {
    }
    assert seq(|items|, i requires 0 <= i < |items| => ElementText(rt, items[i]).value) == parts;
  }

  /** The insignificant whitespace of RFC 8259, section 2. */
  predicate IsJsonSpace(c: char) {
    c == ' ' || c == '\t' || c == '\n' || c == '\r'
  }

  predicate AllJsonSpace(s: string) {
    forall i :: 0 <= i < |s| ==> IsJsonSpace(s[i])
  }

  /** A character that can open a JSON text: whitespace, or the first character of a value. */
  predicate CanStartJsonText(c: char) {
    IsJsonSpace(c) || c in "{[\"-tfn" || '0' <= c <= '9'
  }

  /** RFC 8259, section 2: whitespace around the value does not change what a text decodes to. */
  ghost predicate IgnoresSurroundingSpace(parse: string -> Option<JsonValue>) {
    forall w, s :: AllJsonSpace(w) ==> parse(w + s) == parse(s) && parse(s + w) == parse(s)
  }

  /** RFC 8259, section 2: a text whose first character cannot open a JSON text is rejected. */
  ghost predicate RejectsBadStart(parse: string -> Option<JsonValue>) {
    forall s :: s != [] && !CanStartJsonText(s[0]) ==> parse(s) == None
  }

  /** JSON whitespace is also JavaScript whitespace, so `trim()` and `\s` remove it. */
  lemma JsonSpaceIsSpace(s: string)
    requires AllJsonSpace(s)
    ensures AllSpace(s)
  {
  }
}
