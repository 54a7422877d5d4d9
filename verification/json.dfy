/**
 JSON values as the scripts build and read them (Python dicts, lists,
 strings, numbers, booleans and None), and Python's item lookup on them.
 Numbers are kept as their decimal text: the scripts only pass them through.
 */
module Json {
  import opened Errors
  import opened Wrappers

  datatype Json =
    | JNull
    | JBool(b: bool)
    | JNum(repr: string)
    | JStr(s: string)
    | JArr(items: seq<Json>)
    | JObj(fields: map<string, Json>)

  /** One step of an item lookup: `x["name"]` or `x[0]`. */
  datatype Key = Field(name: string) | Index(i: int)

  /** `x[k]` on a dict, a list or a string, with Python's errors: a list or
      a string takes an integer index, counted from the end when negative,
      and a string yields the one-character string at that index. */
  function Item(x: Json, k: Key): (r: Result<Json>)
    ensures x.JObj? && k.Field? && k.name in x.fields ==> r == Ok(x.fields[k.name])
    ensures x.JObj? && (k.Index? || k.name !in x.fields) ==> r.Err? && r.exc.KeyError?
    ensures x.JArr? && k.Index? && 0 <= k.i < |x.items| ==> r == Ok(x.items[k.i])
    ensures x.JArr? && k.Index? && -|x.items| <= k.i < 0 ==> r == Ok(x.items[|x.items| + k.i])
    ensures x.JStr? && k.Index? && 0 <= k.i < |x.s| ==> r == Ok(JStr([x.s[k.i]]))
    ensures x.JStr? && k.Index? && -|x.s| <= k.i < 0 ==> r == Ok(JStr([x.s[|x.s| + k.i]]))
    ensures (x.JArr? || x.JStr?) && k.Index? && r.Err? ==> r == Err(IndexError)
    ensures (x.JArr? || x.JStr?) && k.Index? ==> (r.Ok? <==> -(Len(x).value as int) <= k.i < Len(x).value)
    ensures (x.JArr? || x.JStr?) && k.Field? ==> r == Err(TypeError)
    ensures !x.JObj? && !x.JArr? && !x.JStr? ==> r == Err(TypeError)
  {
    match x
    case JObj(fields) =>
      (match k
       case Field(name) => if name in fields then Ok(fields[name]) else Err(KeyError(name))
       case Index(_) => Err(KeyError("<int>")))
    case JArr(items) =>
      (match k
       case Index(i) =>
         if 0 <= i < |items| then Ok(items[i])
         else if -|items| <= i < 0 then Ok(items[|items| + i])
         else Err(IndexError)
       case Field(_) => Err(TypeError))
    case JStr(s) =>
      (match k
       case Index(i) =>
         if 0 <= i < |s| then Ok(JStr([s[i]]))
         else if -|s| <= i < 0 then Ok(JStr([s[|s| + i]]))
         else Err(IndexError)
       case Field(_) => Err(TypeError))
    case _ => Err(TypeError)
  }

  /** `x[k1][k2]...[kn]`, the walk `check_field_len` makes. */
  function Lookup(x: Json, path: seq<Key>): Result<Json>
    decreases |path|
  {
    if |path| == 0 then Ok(x)
    else
      match Item(x, path[0])
      case Ok(y) => Lookup(y, path[1..])
      case Err(e) => Err(e)
  }

  /** `len(x)` */
  function Len(x: Json): Result<nat> {
    match x
    case JStr(s) => Ok(|s|)
    case JArr(items) => Ok(|items|)
    case JObj(fields) => Ok(|fields|)
    case _ => Err(TypeError)
  }

  /** `d.get(key, default)` on a dict; any other value has no `.get`. */
  function Get(x: Json, key: string, default: Json): (r: Result<Json>)
    ensures r.Ok? <==> x.JObj?
    ensures x.JObj? && key in x.fields ==> r == Ok(x.fields[key])
    ensures x.JObj? && key !in x.fields ==> r == Ok(default)
  {
    match x
    case JObj(fields) => Ok(if key in fields then fields[key] else default)
    case _ => Err(AttributeError("get"))
  }

  /** A JSON list of strings. */
  function StrArr(xs: seq<string>): (r: Json)
    ensures r.JArr? && |r.items| == |xs|
    ensures forall i :: 0 <= i < |xs| ==> r.items[i] == JStr(xs[i])
  {
    JArr(seq(|xs|, i requires 0 <= i < |xs| => JStr(xs[i])))
  }
}
