/**
 * JavaScript values as the decoder sees them after `JSON.parse`, together
 * with the two operations it applies to them: reading a named property and
 * copying an object's own properties with the spread syntax `{...v}`.
 * Numbers are kept as integers; nothing in the modelled code computes with them.
 */
module JsValues {
  import opened Wrappers

  datatype Value =
    | Undefined
    | Null
    | Bool(b: bool)
    | Num(n: int)
    | Str(s: string)
    | Arr(items: seq<Value>)
    | Obj(fields: map<string, Value>)

  /**
   * `v.key` for a key that names no own property of arrays, strings,
   * numbers or booleans (the decoder reads only `topic`, `message` and `e`):
   * an object yields the field or `undefined`, every other value yields
   * `undefined`, and `undefined` and `null` throw a TypeError (`None`).
   */
  function Get(v: Value, key: string): (r: Option<Value>)
    ensures r.None? <==> v.Undefined? || v.Null?
    ensures v.Obj? && key in v.fields ==> r == Some(v.fields[key])
    ensures v.Obj? && key !in v.fields ==> r == Some(Undefined)
  {
    match v
    case Undefined => None
    case Null => None
    case Obj(fields) => Some(if key in fields then fields[key] else Undefined)
    case _ => Some(Undefined)
  }

  function DigitChar(d: nat): char
    requires d < 10
  {
    ('0' as int + d) as char
  }

  /** The decimal property key of an array or string index. */
  function IndexKey(n: nat): string
  {
    if n < 10 then [DigitChar(n)] else IndexKey(n / 10) + [DigitChar(n % 10)]
  }

  /** The own properties of an array-like value: index keys `"0"`, `"1"`, ... */
  function IndexedFields(items: seq<Value>): map<string, Value>
    decreases |items|
  {
    if |items| == 0 then map[]
    else IndexedFields(items[..|items| - 1])[IndexKey(|items| - 1) := items[|items| - 1]]
  }

  /**
   * The own enumerable properties that `{...v}` copies: an object's fields,
   * the elements of an array and the characters of a string under their
   * index keys, and nothing for any other value. JavaScript indexes a string
   * by UTF-16 code units, so a character outside the Basic Multilingual
   * Plane would take two keys there and takes one here; the decoder spreads
   * only the raw events, which are objects in every well-formed message.
   */
  function Spread(v: Value): map<string, Value>
  {
    match v
    case Obj(fields) => fields
    case Arr(items) => IndexedFields(items)
    case Str(s) => IndexedFields(seq(|s|, k requires 0 <= k < |s| => Str([s[k]])))
    case _ => map[]
  }
}
