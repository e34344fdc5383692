/**
 * The JavaScript values a parsed JSON request body can hold, with the
 * language rules the chat handler depends on: truthiness, property access,
 * `typeof x === "object"` and conversion to a string in a template literal.
 */
module JsValues {
  import opened Wrappers
  import opened Strings

  datatype JsValue =
    | Undefined                          // a property the object does not have
    | Null
    | Bool(b: bool)
    | Num(n: int)                        // only integral numbers are modelled
    | Str(s: string)
    | Arr(elems: seq<JsValue>)
    | Obj(fields: map<string, JsValue>)

  /** `!!v`: undefined, null, false, 0 and "" are falsy. */
  predicate Truthy(v: JsValue) {
    match v
    case Undefined => false
    case Null => false
    case Bool(b) => b
    case Num(n) => n != 0
    case Str(s) => s != ""
    case Arr(_) => true
    case Obj(_) => true
  }

  /** `typeof v === "object"`: null, arrays and objects. */
  predicate IsObjectType(v: JsValue) {
    v.Null? || v.Arr? || v.Obj?
  }

  /** `v[name]` for the property names the handler reads (none of them an Object.prototype member). */
  function Field(v: JsValue, name: string): JsValue {
    if v.Obj? && name in v.fields then v.fields[name] else Undefined
  }

  /**
   * Converting `v` to a string throws a TypeError: a parsed object with an
   * own "toString" key has a non-callable `toString`, and its `valueOf`
   * gives back the object itself, so no primitive is found. An array
   * converts by joining its elements, and throws when one of them does.
   */
  predicate ConversionThrows(v: JsValue) {
    match v
    case Obj(fields) => "toString" in fields
    case Arr(elems) => exists i :: 0 <= i < |elems| && ConversionThrows(elems[i])
    case _ => false
  }

  /** `${v}`: the string a template literal inserts for `v`, or None when the conversion throws. */
  function ToText(v: JsValue): (r: Option<string>)
    ensures r.None? <==> ConversionThrows(v)
    ensures v.Str? ==> r == Some(v.s)
    ensures v.Obj? && !ConversionThrows(v) ==> r == Some("[object Object]")
    decreases v, 1
  {
    match v
    case Undefined => Some("undefined")
    case Null => Some("null")
    case Bool(b) => Some(if b then "true" else "false")
    case Num(n) => Some(IntToString(n))
    case Str(s) => Some(s)
    case Arr(elems) => Join(elems, ",")
    case Obj(fields) => if "toString" in fields then None else Some("[object Object]")
  }

  /** `elems.join(sep)`: null and undefined elements become the empty string; None when an element's conversion throws. */
  function Join(elems: seq<JsValue>, sep: string): (r: Option<string>)
    ensures r.None? <==> exists i :: 0 <= i < |elems| && ConversionThrows(elems[i])
    decreases elems, 0
  {
    if elems == [] then Some("")
    else
      var first := if elems[0].Undefined? || elems[0].Null? then Some("") else ToText(elems[0]);
      var rest := if |elems| == 1 then Some("") else Join(elems[1..], sep);
      assert (exists i :: 0 <= i < |elems| && ConversionThrows(elems[i])) <==>
             ConversionThrows(elems[0]) || exists i :: 0 <= i < |elems| - 1 && ConversionThrows(elems[1..][i]) by {
        if exists i :: 0 <= i < |elems| && ConversionThrows(elems[i]) {
          var i :| 0 <= i < |elems| && ConversionThrows(elems[i]);
          if i > 0 { assert elems[1..][i - 1] == elems[i]; }
        }
      }
      if first.None? || rest.None? then None
      else if |elems| == 1 then first
      else Some(first.value + sep + rest.value)
  }
}
