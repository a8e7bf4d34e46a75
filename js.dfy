/** JavaScript values as the subprocess helper sees them, and the host
    runtime's built-ins that the helper calls but does not define. */
module Js {

  datatype Option<+T> = None | Some(value: T)

  /** A JavaScript value, restricted to what the helper distinguishes:
      the primitives, byte arrays (`Uint8Array`), arrays and plain objects.
      Numbers are integers in this model. */
  datatype Value =
    | Undefined
    | Null
    | Bool(b: bool)
    | Num(n: int)
    | Str(s: string)
    | Bytes(data: seq<bv8>)
    | Arr(items: seq<Value>)
    | Obj(fields: map<string, Value>)

  /** A plain object (an options record), keyed by property name. */
  type Object = map<string, Value>

  /** Property read `obj[key]`: a missing property reads as `undefined`. */
  function Get(obj: Object, key: string): (v: Value)
    ensures key !in obj ==> v == Undefined
    ensures key in obj ==> v == obj[key]
  {
    if key in obj then obj[key] else Undefined
  }

  /** JavaScript truthiness, as used by `!v` and `a && b`. Objects, arrays
      and byte arrays are truthy even when empty. */
  predicate Truthy(v: Value)
  {
    match v
    case Undefined => false
    case Null => false
    case Bool(b) => b
    case Num(n) => n != 0
    case Str(s) => s != ""
    case _ => true
  }

  /** An array of strings, as a JavaScript value. */
  function StrArray(ss: seq<string>): (v: Value)
    ensures v.Arr? && |v.items| == |ss|
    ensures forall i :: 0 <= i < |ss| ==> v.items[i] == Str(ss[i])
  {
    Arr(seq(|ss|, i requires 0 <= i < |ss| => Str(ss[i])))
  }

  /** The runtime built-ins the helper relies on, kept abstract:
      `JSON.parse` (None where it throws), `JSON.stringify(v, null, indent)`,
      `TextDecoder.decode` and `TextEncoder.encode`. */
  datatype Host = Host(
    parse: string -> Option<Value>,
    stringify: (Value, nat) -> string,
    decode: seq<bv8> -> string,
    encode: string -> seq<bv8>)
}
