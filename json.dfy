/** A decoded JSON value, as Python's `json.loads` returns it, together with
    the two Python operations the core applies to such values without
    knowing their type: truthiness (`if c`) and `str(c)`. Numbers are
    integers here. */
module Json {

  import opened Text
  import opened Dicts

  datatype Json =
    | Null
    | Bool(b: bool)
    | Num(n: int)
    | Str(s: string)
    | Arr(items: seq<Json>)
    | Obj(fields: Dict<Json>)

  /** Python's `bool(v)`: `None`, `False`, `0`, `""`, `[]` and `{}` are false. */
  predicate Truthy(v: Json) {
    match v
    case Null => false
    case Bool(b) => b
    case Num(n) => n != 0
    case Str(s) => s != ""
    case Arr(items) => items != []
    case Obj(fields) => fields.keys != []
  }

  /** Python's `str(v)`: a string is itself, everything else is its repr. */
  function PyStr(v: Json): (r: string)
    ensures v.Str? ==> r == v.s
    ensures v.Num? ==> r == IntString(v.n)
  {
    if v.Str? then v.s else Repr(v)
  }

  /** Python's `repr(v)`, with strings always between single quotes (the
      escaping of quotes, backslashes and control characters is not
      modelled). */
  function Repr(v: Json): string
    decreases v, 1
  {
    match v
    case Null => "None"
    case Bool(b) => if b then "True" else "False"
    case Num(n) => IntString(n)
    case Str(s) => "'" + s + "'"
    case Arr(items) => "[" + ReprItems(v, items) + "]"
    case Obj(fields) => "{" + ReprFields(v, fields, fields.keys) + "}"
  }

  function ReprItems(ghost parent: Json, items: seq<Json>): string
    requires forall i :: 0 <= i < |items| ==> items[i] < parent
    decreases parent, 0, |items|
  {
    if |items| == 0 then ""
    else if |items| == 1 then Repr(items[0])
    else Repr(items[0]) + ", " + ReprItems(parent, items[1..])
  }

  function ReprFields(ghost parent: Json, fields: Dict<Json>, ks: seq<string>): string
    requires forall k :: k in ks ==> k in fields.items && fields.items[k] < parent
    decreases parent, 0, |ks|
  {
    if |ks| == 0 then ""
    else
      var entry := "'" + ks[0] + "': " + Repr(fields.items[ks[0]]);
      if |ks| == 1 then entry else entry + ", " + ReprFields(parent, fields, ks[1..])
  }
}
