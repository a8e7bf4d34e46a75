/** The small helpers of src/fn.ts: type tests, byte-to-text conversion,
    safe JSON parsing, JSON rendering and copying an object without some of
    its keys. */
module Fn {
  import opened Js
  import opened Text

  /** `typeof s === "string"`. */
  predicate IsString(v: Value)
  {
    v.Str?
  }

  /** `s instanceof Uint8Array`. */
  predicate IsUint8Array(v: Value)
  {
    v.Bytes?
  }

  /** No value is both a string and a byte array. */
  lemma NeverBoth(v: Value)
    ensures !(IsString(v) && IsUint8Array(v))
  {
  }

  /** The argument of `asString`: a byte array, `null` or `undefined`. */
  datatype Buffer = NullBuffer | UndefinedBuffer | Present(bytes: seq<bv8>)

  /** `asString(buf)`: the decoded, trimmed text of the bytes; `null` and
      `undefined` give the empty string. A byte array is always truthy, so
      an empty one is decoded like any other. */
  function AsString(decode: seq<bv8> -> string, buf: Buffer): (r: string)
    ensures Trimmed(r)
    ensures !buf.Present? ==> r == ""
    ensures buf.Present? ==> (r == "" <==> AllWhitespace(decode(buf.bytes)))
    ensures buf.Present? ==> |r| <= |decode(buf.bytes)|
    ensures buf.Present? ==> r == Trim(decode(buf.bytes))
  {
    if !buf.Present? then "" else Trim(decode(buf.bytes))
  }

  /** What `asString` returns is left unchanged by another trim. */
  lemma AsStringStable(decode: seq<bv8> -> string, buf: Buffer)
    ensures Trim(AsString(decode, buf)) == AsString(decode, buf)
  {
    TrimOfTrimmed(AsString(decode, buf));
  }

  /** The indentation `j` uses when none is given. */
  const DefaultIndentation: nat := 2

  /** `j(obj, indentation = 2)`: `JSON.stringify(obj, null, indentation)`,
      where an omitted indentation means two spaces. */
  function J(host: Host, obj: Value, indentation: Option<nat>): (r: string)
    ensures indentation.None? ==> r == host.stringify(obj, DefaultIndentation)
    ensures indentation.Some? ==> r == host.stringify(obj, indentation.value)
  {
    host.stringify(obj, if indentation.Some? then indentation.value else DefaultIndentation)
  }

  /** `parseJsonSafe(input)`: a string that parses becomes the parsed value;
      anything else (a string that does not parse, or a value that is not a
      string) comes back unchanged. It never throws. */
  function ParseJsonSafe(parse: string -> Option<Value>, input: Value): (r: Value)
    ensures !IsString(input) ==> r == input
    ensures IsString(input) && parse(input.s).Some? ==> r == parse(input.s).value
    ensures IsString(input) && parse(input.s).None? ==> r == input
    ensures r != input ==> IsString(input) && parse(input.s) == Some(r)
  {
    if IsString(input) then
      match parse(input.s)
      case Some(v) => v
      case None => input
    else input
  }

  /** The copy `omit(obj, omitKeys)` builds: exactly the keys of `obj` that
      are not listed, each with its value in `obj`. */
  function Omitted(obj: Object, omitKeys: seq<string>): (r: Object)
    ensures r.Keys == obj.Keys - set k | k in omitKeys
    ensures forall k :: k in r ==> r[k] == obj[k]
  {
    map k | k in obj && k !in omitKeys :: obj[k]
  }

  /** `omit(obj, omitKeys)`: walks the keys of `obj` and copies each one that
      is not listed into a fresh record. `obj` itself is a value here and is
      never changed. */
  method Omit(obj: Object, omitKeys: seq<string>) returns (result: Object)
    ensures result.Keys == obj.Keys - set k | k in omitKeys
    ensures forall k :: k in result ==> result[k] == obj[k]
    ensures result == Omitted(obj, omitKeys)
  {
    result := map[];
    var keys := obj.Keys;
    while keys != {}
      invariant keys <= obj.Keys
      invariant result.Keys == (obj.Keys - keys) - set k | k in omitKeys
      invariant forall k :: k in result ==> result[k] == obj[k]
      decreases keys
    {
      var key :| key in keys;
      if key !in omitKeys {
        result := result[key := obj[key]];
      }
      keys := keys - {key};
    }
  }
}
