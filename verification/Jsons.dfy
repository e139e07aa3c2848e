/** JSON values; an object is a map, and a missing entry is JavaScript's undefined. */
module Jsons {
  import opened Options

  datatype Json =
    | Null | Bool(b: bool) | Num(n: int) | Str(s: string)
    | Arr(items: seq<Json>)
    | Obj(entries: map<string, Json>)

  type Payload = map<string, Json>

  function Get(p: Payload, key: string): Option<Json> { if key in p then Some(p[key]) else None }

  /** `a ?? b`. */
  function Coalesce(a: Option<Json>, b: Option<Json>): Option<Json> { if a == None || a == Some(Null) then b else a }
}
