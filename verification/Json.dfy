/** JSON values as `json.loads` returns them. */
module Json {
  import opened Wrappers

  datatype Json =
    | Null
    | Bool(b: bool)
    | Number(n: int)
    | Str(s: string)
    | Arr(items: seq<Json>)
    | Obj(fields: map<string, Json>)

  type Bytes = seq<Byte>

  type Byte = n: int | 0 <= n < 256

  /** `_json_loads_strict`: strict UTF-8 decoding followed by JSON parsing. Which
      byte strings are JSON texts, and for which values, is left arbitrary. */
  const Loads: Bytes -> Option<Json>

  /** `dict.get(key)` with JSON `null` standing for the absent key. */
  function Get(fields: map<string, Json>, key: string): Json {
    if key in fields then fields[key] else Null
  }
}
