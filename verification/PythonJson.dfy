// JSON values as Python holds them, and the conversions the gate scripts apply to them.
module PythonJson {
  import opened Prelude
  import opened IsoTime

  /** A dict keeps its entries in insertion order; no key occurs twice (`IsDict`). */
  datatype Json =
    | Null
    | Bool(flag: bool)
    | Num(number: real)
    | Str(text: string)
    | Arr(items: seq<Json>)
    | Obj(fields: Fields)

  type Fields = seq<(string, Json)>

  predicate IsDict(d: Fields) { forall i, j :: 0 <= i < j < |d| ==> d[i].0 != d[j].0 }

  /** `d.get(key)`: the first entry counts, so `over + base` looks up as `{**base, **over}`. */
  function Get(d: Fields, key: string): Option<Json> {
    if d == [] then None
    else if d[0].0 == key then Some(d[0].1)
    else Get(d[1..], key)
  }

  function GetOr(d: Fields, key: string, otherwise: Json): Json {
    match Get(d, key)
    case Some(value) => value
    case None => otherwise
  }

  /** `bool(j)`. */
  predicate Truthy(j: Json) {
    match j
    case Null => false
    case Bool(b) => b
    case Num(n) => n != 0.0
    case Str(s) => s != ""
    case Arr(items) => items != []
    case Obj(fields) => fields != []
  }

  predicate GetBool(d: Fields, key: string, otherwise: bool) { Truthy(GetOr(d, key, Bool(otherwise))) }

  /** `d.get(key) or {}`. */
  function GetOrEmpty(d: Fields, key: string): Json {
    var value := GetOr(d, key, Null);
    if Truthy(value) then value else Obj([])
  }

  /** The Python library functions the scripts call. `text` is `str` on non-strings; `instant` is
      `datetime.fromisoformat` moved to UTC, nothing for a malformed or naive text. */
  datatype Library = Library(
    text: Json -> string,
    strip: string -> string,
    lower: string -> string,
    integer: string -> Option<int>,
    decimal: string -> Option<real>,
    instant: string -> Option<UtcStamp>,
    path: string -> string,
    matches: (string, string) -> bool,
    releaseTag: string -> bool)

  function Text(lib: Library, j: Json): string { if j.Str? then j.text else lib.text(j) }

  function Stripped(lib: Library, d: Fields, key: string): string { lib.strip(Text(lib, GetOr(d, key, Str("")))) }

  /** `int(j)`: truncates a number; nothing when Python raises. */
  function AsInt(lib: Library, j: Json): Option<int> {
    match j
    case Bool(b) => Some(if b then 1 else 0)
    case Num(n) => Some(if n >= 0.0 then n.Floor else -((-n).Floor))
    case Str(s) => lib.integer(s)
    case Null => None
    case Arr(_) => None
    case Obj(_) => None
  }

  /** `float(j)`; nothing when Python raises. */
  function AsFloat(lib: Library, j: Json): Option<real> {
    match j
    case Bool(b) => Some(if b then 1.0 else 0.0)
    case Num(n) => Some(n)
    case Str(s) => lib.decimal(s)
    case Null => None
    case Arr(_) => None
    case Obj(_) => None
  }

  /** `for item in j`: characters of a string, keys of a dict; nothing when Python raises. */
  function Iterate(j: Json): Option<seq<Json>> {
    match j
    case Arr(items) => Some(items)
    case Str(s) => Some(seq(|s|, i requires 0 <= i < |s| => Str([s[i]])))
    case Obj(d) => Some(seq(|d|, i requires 0 <= i < |d| => Str(d[i].0)))
    case Null => None
    case Bool(_) => None
    case Num(_) => None
  }

  lemma {:induction false} GetAppend(over: Fields, base: Fields, key: string)
    ensures Get(over + base, key) == if Get(over, key).Some? then Get(over, key) else Get(base, key)
  {
    if over == [] {
      assert over + base == base;
    } else {
      assert (over + base)[1..] == over[1..] + base;
      GetAppend(over[1..], base, key);
    }
  }

  lemma {:induction false} GetAt(d: Fields, i: nat)
    requires IsDict(d) && i < |d|
    ensures Get(d, d[i].0) == Some(d[i].1)
  {
    if i > 0 { GetAt(d[1..], i - 1); }
  }
}
