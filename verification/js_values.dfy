/**
 * The JavaScript values that flow through the HTTP layer as request bodies, query parameters and
 * response bodies, with JavaScript's truthiness and `JSON.stringify`. Numbers are integers here.
 */
module JsValues {
  import opened Strings

  datatype JsValue =
    | Undefined
    | Null
    | Bool(b: bool)
    | Num(n: int)
    | Str(s: string)
    | Arr(items: seq<JsValue>)
    | Obj(fields: seq<(string, JsValue)>)

  /** JavaScript's `Boolean(v)`: `undefined`, `null`, `false`, `0` and `""` are falsy; every array and object is truthy. */
  predicate Truthy(v: JsValue) {
    match v
    case Undefined => false
    case Null => false
    case Bool(b) => b
    case Num(n) => n != 0
    case Str(s) => s != ""
    case Arr(_) => true
    case Obj(_) => true
  }

  /** `a || b`: the left operand when it is truthy, the right one otherwise. */
  function Or(a: JsValue, b: JsValue): (r: JsValue)
    ensures Truthy(r) <==> Truthy(a) || Truthy(b)
    ensures r == a || r == b
  {
    if Truthy(a) then a else b
  }

  /** The empty object literal `{}`. */
  const EmptyObject: JsValue := Obj([])

  /**
   * Property access `v?.name`: the last field called `name` of an object (as `JSON.parse` keeps the
   * last of duplicate keys); `undefined` for anything that is not an object.
   */
  function Field(v: JsValue, name: string): (r: JsValue)
    ensures !v.Obj? ==> r == Undefined
    ensures r != Undefined ==> exists i :: 0 <= i < |v.fields| && v.fields[i] == (name, r)
    decreases if v.Obj? then |v.fields| else 0
  {
    if !v.Obj? || v.fields == [] then Undefined
    else
      var last := v.fields[|v.fields| - 1];
      if last.0 == name then last.1
      else Field(Obj(v.fields[..|v.fields| - 1]), name)
  }

  /** A JSON string literal: the text in double quotes, with `"` and `\` escaped. */
  function Quote(s: string): string {
    "\"" + Escaped(s) + "\""
  }

  function Escaped(s: string): string {
    if s == [] then ""
    else (if s[0] == '"' then "\\\"" else if s[0] == '\\' then "\\\\" else [s[0]]) + Escaped(s[1..])
  }

  /**
   * `JSON.stringify(v)` for a value that is not `undefined`: `undefined` array elements become
   * `null` and object fields holding `undefined` are skipped, as in JavaScript.
   */
  function Stringify(v: JsValue): string
    requires !v.Undefined?
  {
    match v
    case Null => "null"
    case Bool(b) => if b then "true" else "false"
    case Num(n) => IntToString(n)
    case Str(s) => Quote(s)
    case Arr(items) =>
      "[" + Join(",", seq(|items|, i requires 0 <= i < |items| =>
                            if items[i].Undefined? then "null" else Stringify(items[i]))) + "]"
    case Obj(fields) =>
      var kept := DefinedFields(fields);
      "{" + Join(",", seq(|kept|, i requires 0 <= i < |kept| =>
                            Quote(kept[i].0) + ":" + Stringify(kept[i].1))) + "}"
  }

  /** The fields of an object literal whose value is not `undefined`, in order. */
  function DefinedFields(fields: seq<(string, JsValue)>): (r: seq<(string, JsValue)>)
    ensures |r| <= |fields|
    ensures forall i :: 0 <= i < |r| ==> !r[i].1.Undefined? && r[i] in fields
  {
    if fields == [] then []
    else (if fields[0].1.Undefined? then [] else [fields[0]]) + DefinedFields(fields[1..])
  }

  /** `JSON.stringify(v || {})`, the serialisation both request keys use. */
  function SerializeOrEmpty(v: JsValue): (r: string)
    ensures !Truthy(v) ==> r == "{}"
  {
    Stringify(Or(v, EmptyObject))
  }
}
