/** JavaScript values as they come out of `JSON.parse`, with the two pieces
    of JavaScript semantics the route applies to them: truthiness (`!x`,
    `x && ...`) and string conversion (template literals). An absent
    property (`undefined`) is `None`. */
module JsValue {
  import opened Wrappers
  import Search

  datatype Json =
    | JNull
    | JBool(b: bool)
    | JNum(n: real)
    | JStr(s: string)
    | JArr(elems: seq<Json>)
    | JObj(fields: map<string, Json>)

  /** Truthiness of a possibly-undefined value: `undefined`, `null`,
      `false`, `0` and `""` are falsy; every other value, including every
      array and object, is truthy. JSON never produces `NaN`. */
  predicate Truthy(v: Option<Json>)
    ensures !Truthy(v) <==>
      || v == None || v == Some(JNull) || v == Some(JBool(false))
      || v == Some(JNum(0.0)) || v == Some(JStr(""))
  {
    match v
    case None => false
    case Some(JNull) => false
    case Some(JBool(b)) => b
    case Some(JNum(n)) => n != 0.0
    case Some(JStr(s)) => s != ""
    case Some(JArr(_)) => true
    case Some(JObj(_)) => true
  }

  /** Property read `v.key` on a destructured value: only an object has
      own properties; on `null`, a primitive or an array every field the
      route reads is `undefined`. */
  function Property(v: Json, key: string): (r: Option<Json>)
    ensures r.Some? <==> v.JObj? && key in v.fields
    ensures r.Some? ==> r.value == v.fields[key]
  {
    match v
    case JObj(m) => if key in m then Some(m[key]) else None
    case _ => None
  }

  /** Values joined by `,` as `Array.prototype.join` does. */
  function JoinWithCommas(parts: seq<string>): (r: string)
    ensures |parts| == 0 ==> r == ""
    ensures |parts| > 0 ==> |r| >= |parts[0]| && r[..|parts[0]|] == parts[0]
    decreases |parts|
  {
    if |parts| == 0 then ""
    else if |parts| == 1 then parts[0]
    else parts[0] + "," + JoinWithCommas(parts[1..])
  }

  predicate IsComma(c: char) {
    c == ','
  }

  /** `s.split(",")`: the pieces between commas, in order. */
  function SplitOnCommas(s: string): (parts: seq<string>)
    ensures |parts| > 0
    ensures forall i :: 0 <= i < |parts| ==> ',' !in parts[i]
    decreases |s|
  {
    match Search.FirstIndex(s, IsComma)
    case None => [s]
    case Some(k) => [s[..k]] + SplitOnCommas(s[k + 1..])
  }

  /** The split of a comma-free piece, a comma and the rest starts with
      that piece and continues with the split of the rest. */
  lemma SplitAfterFirstComma(p: string, rest: string)
    requires ',' !in p
    ensures SplitOnCommas(p + "," + rest) == [p] + SplitOnCommas(rest)
  {
    var s := p + "," + rest;
    assert forall j :: 0 <= j < |p| ==> s[j] == p[j];
    assert s[|p|] == ',';
    Search.FirstIndexUnique(s, IsComma, |p|);
    assert s[..|p|] == p;
    assert s[|p| + 1..] == rest;
  }

  /** Joining is lossless when no part contains a comma: splitting the
      joined text gives the parts back. */
  lemma {:induction false} SplitJoin(parts: seq<string>)
    requires |parts| > 0
    requires forall i :: 0 <= i < |parts| ==> ',' !in parts[i]
    ensures SplitOnCommas(JoinWithCommas(parts)) == parts
    decreases |parts|
  {
    if |parts| == 1 {
      assert Search.NoneMatch(parts[0], IsComma);
    } else {
      var rest := parts[1..];
      assert JoinWithCommas(parts) == parts[0] + "," + JoinWithCommas(rest);
      SplitAfterFirstComma(parts[0], JoinWithCommas(rest));
      assert forall i :: 0 <= i < |rest| ==> rest[i] == parts[i + 1];
      SplitJoin(rest);
      assert [parts[0]] + rest == parts;
    }
  }

  /** Whether the template literal can turn `v` into text. A parsed object
      inherits `Object.prototype.toString` unless it has an own `toString`
      key; that key's value is never callable and the inherited `valueOf`
      returns the object itself, so the conversion throws a TypeError. An
      array converts each element, so such an object inside it throws too. */
  predicate ConvertsToString(v: Json)
    decreases v
  {
    match v
    case JArr(es) => forall i :: 0 <= i < |es| ==> ConvertsToString(es[i])
    case JObj(m) => "toString" !in m
    case _ => true
  }

  /** The message of the TypeError a failed conversion throws. */
  const ToPrimitiveErrorText := "Cannot convert object to primitive value"

  /** `String(v)`, as a template literal applies it, or the TypeError it
      throws. Number formatting belongs to the JavaScript engine and is the
      parameter `numberText`; an array joins its elements, writing `null`
      elements as empty. */
  function ToJsString(v: Json, numberText: real -> string): (r: Result<string, string>)
    ensures r.Success? <==> ConvertsToString(v)
    ensures r.Failure? ==> r.error == ToPrimitiveErrorText
    ensures v.JStr? ==> r == Success(v.s)
    ensures v.JNum? ==> r == Success(numberText(v.n))
    ensures v == JNull ==> r == Success("null")
    ensures v.JBool? ==> r == Success(if v.b then "true" else "false")
    ensures v.JObj? && "toString" !in v.fields ==> r == Success("[object Object]")
    decreases v, 0
  {
    match v
    case JNull => Success("null")
    case JBool(b) => Success(if b then "true" else "false")
    case JNum(n) => Success(numberText(n))
    case JStr(s) => Success(s)
    case JArr(es) =>
      if exists i :: 0 <= i < |es| && !ConvertsToString(es[i]) then Failure(ToPrimitiveErrorText)
      else Success(JoinWithCommas(seq(|es|, i requires 0 <= i < |es| => ElementText(es[i], numberText).value)))
    case JObj(m) => if "toString" in m then Failure(ToPrimitiveErrorText) else Success("[object Object]")
  }

  /** An array element as `join` writes it: `null` as empty text. */
  function ElementText(e: Json, numberText: real -> string): (r: Result<string, string>)
    ensures r.Success? <==> ConvertsToString(e)
    ensures e != JNull ==> r == ToJsString(e, numberText)
    decreases e, 1
  {
    if e.JNull? then Success("") else ToJsString(e, numberText)
  }

  /** An array of one non-null element reads as that element: `String([29])`
      is `String(29)`, nesting such arrays changes nothing, and an element
      that cannot be converted makes the array fail the same way. */
  lemma SingletonArrayText(x: Json, numberText: real -> string)
    requires x != JNull
    ensures ToJsString(JArr([x]), numberText) == ToJsString(x, numberText)
    ensures ToJsString(JArr([JArr([x])]), numberText) == ToJsString(x, numberText)
  {
  }

  /** An array of several values converts to their texts joined by commas:
      when no element's text contains a comma, splitting the array's text
      on commas gives back each element's text, in order (`null` as empty). */
  lemma ArrayTextSplits(es: seq<Json>, numberText: real -> string)
    requires |es| > 0
    requires forall i :: 0 <= i < |es| ==> ConvertsToString(es[i])
    requires forall i :: 0 <= i < |es| ==> ',' !in ElementText(es[i], numberText).value
    ensures ToJsString(JArr(es), numberText).Success?
    ensures SplitOnCommas(ToJsString(JArr(es), numberText).value)
         == seq(|es|, i requires 0 <= i < |es| => ElementText(es[i], numberText).value)
  {
    var parts := seq(|es|, i requires 0 <= i < |es| => ElementText(es[i], numberText).value);
    SplitJoin(parts);
  }

  /** `${[1, "USD"]}` is the engine's text for 1, a comma, then `USD`. */
  lemma TwoElementArrayText(numberText: real -> string)
    ensures ToJsString(JArr([JNum(1.0), JStr("USD")]), numberText) == Success(numberText(1.0) + ",USD")
  {
    var es := [JNum(1.0), JStr("USD")];
    var texts := seq(|es|, i requires 0 <= i < |es| => ElementText(es[i], numberText).value);
    assert ToJsString(JArr(es), numberText) == Success(JoinWithCommas(texts));
    assert texts == [numberText(1.0), "USD"];
    assert JoinWithCommas(texts) == numberText(1.0) + "," + "USD";
    assert numberText(1.0) + "," + "USD" == numberText(1.0) + ",USD";
  }
}
