/** JavaScript values as the pages see them: the `detail` of a failed
    request, a response's `task_id`, an error's `message`, the props handed
    to a component. Only the operators the pages apply are modelled. */
module Js {
  import opened Text

  /** An optional field: absent (or null) versus present. */
  datatype Option<+T> = None | Some(value: T)

  /** Numbers are reals: NaN, infinities and rounding are not modelled. */
  datatype Value =
    | Undefined
    | Null
    | Bool(b: bool)
    | Num(n: real)
    | Str(s: string)
    | Arr(items: seq<Value>)
    | Obj(fields: map<string, Value>)

  /** The built-ins whose exact output the pages never inspect. */
  datatype Host = Host(
    stringify: Value -> string,    // JSON.stringify
    numberText: real -> string,    // Number.prototype.toString
    encodeUri: string -> string)   // encodeURIComponent

  /** ECMAScript ToBoolean. */
  predicate Truthy(v: Value) {
    match v
    case Undefined => false
    case Null => false
    case Bool(b) => b
    case Num(n) => n != 0.0
    case Str(s) => s != []
    case Arr(_) => true
    case Obj(_) => true
  }

  predicate IsNullish(v: Value) {
    v.Undefined? || v.Null?
  }

  /** `typeof v === 'object'`, which holds for null and arrays too. */
  predicate IsObjectType(v: Value) {
    v.Null? || v.Arr? || v.Obj?
  }

  /** `a || b`: the first operand when it is truthy, else the second. */
  function Or(a: Value, b: Value): (r: Value)
    ensures Truthy(r) <==> Truthy(a) || Truthy(b)
    ensures Truthy(a) ==> r == a
  {
    if Truthy(a) then a else b
  }

  /** Property read `v.name` on a value that is not null or undefined (a
      read on those throws). Primitives and arrays carry none of the
      fields the pages read. */
  function Get(v: Value, name: string): Value
    requires !IsNullish(v)
  {
    match v
    case Obj(fields) => if name in fields then fields[name] else Undefined
    case _ => Undefined
  }

  /** `String(v)`, as used by template literals and `join`. */
  function ToText(h: Host, v: Value): string
    decreases v, 2
  {
    match v
    case Undefined => "undefined"
    case Null => "null"
    case Bool(b) => if b then "true" else "false"
    case Num(n) => h.numberText(n)
    case Str(s) => s
    case Arr(items) => JoinWith(ElementTexts(h, items), ",")
    case Obj(_) => "[object Object]"
  }

  /** How `join` renders one element: null and undefined become empty. */
  function ElementText(h: Host, v: Value): (r: string)
    decreases v, 3
  {
    if IsNullish(v) then [] else ToText(h, v)
  }

  function ElementTexts(h: Host, items: seq<Value>): (r: seq<string>)
    decreases Arr(items), 1
  {
    seq(|items|, i requires 0 <= i < |items| => ElementText(h, items[i]))
  }
}
