/** Values shared by all the other modules: optional values and decoded JSON. */
module Values {

  datatype Option<+T> = None | Some(value: T) {
    function GetOr(default: T): T {
      if Some? then value else default
    }
  }

  /** A decoded JSON document. Numbers are kept abstract: no modelled code computes with them. */
  datatype Json =
    | Null
    | Bool(b: bool)
    | Num(n: real)
    | Str(s: string)
    | Arr(items: seq<Json>)
    | Obj(fields: map<string, Json>)

  type Fields = map<string, Json>

  /** Lower case of the ASCII letters. */
  function ToLower(s: string): (lower: string)
    ensures |lower| == |s|
  {
    seq(|s|, i requires 0 <= i < |s| => if 'A' <= s[i] <= 'Z' then (s[i] as int + 32) as char else s[i])
  }

  function Lookup(m: Fields, key: string): Option<Json> {
    if key in m then Some(m[key]) else None
  }

  /** The string stored under `key`, when there is one. */
  function StrAt(m: Fields, key: string): Option<string> {
    if key in m && m[key].Str? then Some(m[key].s) else None
  }

  /** The nested object stored under `key`, when there is one. */
  function ObjAt(m: Fields, key: string): Option<Fields> {
    if key in m && m[key].Obj? then Some(m[key].fields) else None
  }
}
