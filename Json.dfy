/**
 * Decoded JSON documents: what the Go code holds after unmarshalling into
 * `interface{}` or `map[string]interface{}`.  Numbers are integers here,
 * where `encoding/json` decodes every number to a float64.  The one number
 * the core writes itself, `manifest_version` 1, is exact either way.
 */
module Json {

  datatype Value =
    | JNull
    | JBool(b: bool)
    | JNum(n: int)
    | JStr(s: string)
    | JArr(items: seq<Value>)
    | JObj(fields: map<string, Value>)

  /** A JSON object after decoding into `map[string]interface{}`. */
  type Object = map<string, Value>

  /** `m[key].(string)` with the comma-ok form: the string, if the key holds one. */
  predicate HasString(m: Object, key: string, s: string)
  {
    key in m && m[key] == JStr(s)
  }

  /** The strings of a decoded `[]string` list, re-encoded. */
  function Strings(ss: seq<string>): (r: seq<Value>)
    ensures |r| == |ss|
    ensures forall i :: 0 <= i < |ss| ==> r[i] == JStr(ss[i])
  {
    if ss == [] then [] else [JStr(ss[0])] + Strings(ss[1..])
  }
}
