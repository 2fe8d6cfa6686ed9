/** JSON values as Python sees them after decoding, and the conversions the parser and the codec apply. */
module Json {
  import opened Wrappers

  datatype Json =
    | JNull
    | JBool(flag: bool)
    | JInt(n: int)
    | JStr(text: string)
    | JArr(items: seq<Json>)
    | JObj(fields: map<string, Json>)

  /** `o.get(name, default)` */
  function Get(o: map<string, Json>, name: string, default: Json): Json {
    if name in o then o[name] else default
  }

  function Truthy(v: Json): bool {
    match v
    case JNull => false
    case JBool(flag) => flag
    case JInt(n) => n != 0
    case JStr(text) => text != ""
    case JArr(items) => items != []
    case JObj(fields) => fields != map[]
  }

  /** `int(v)`; None where Python raises. */
  function Int(v: Json): Option<int> {
    match v
    case JInt(n) => Some(n)
    case JBool(flag) => Some(if flag then 1 else 0)
    case _ => None
  }

  /** `int(o.get(name, 0) or 0)` */
  function IntOrZero(o: map<string, Json>, name: string): Option<int> {
    var v := Get(o, name, JInt(0));
    if Truthy(v) then Int(v) else Some(0)
  }

  function Digits(n: nat): string {
    if n < 10 then [('0' as int + n) as char]
    else Digits(n / 10) + [('0' as int + n % 10) as char]
  }

  /** `str(v)` of the values that stand for ids and names. */
  function Str(v: Json): string {
    match v
    case JStr(text) => text
    case JNull => "None"
    case JBool(flag) => if flag then "True" else "False"
    case JInt(n) => if n < 0 then "-" + Digits(-n) else Digits(n)
    case _ => ""
  }

  /** `isinstance(v, int)`; a Python bool is an int. */
  predicate IsInt(v: Json) {
    v.JInt? || v.JBool?
  }

  /** All values present, or the failure of the first one that is not. */
  function Sequence<T>(s: seq<Option<T>>): Option<seq<T>> {
    if s == [] then Some([])
    else
      var front := Sequence(s[..|s| - 1]);
      if front.Some? && s[|s| - 1].Some? then Some(front.value + [s[|s| - 1].value]) else None
  }
}
