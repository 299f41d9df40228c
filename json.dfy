/** The JavaScript values that flow through the nodes: request bodies, form
    fields, API responses and the JSON part of output items. */
module Json {
  import opened Wrappers

  datatype Value =
    | Undefined
    | Null
    | Bool(b: bool)
    | Num(n: real)
    | Str(s: string)
    | Arr(elems: seq<Value>)
    | Obj(fields: map<string, Value>)
      /** A multipart file field `{value: buffer, options: {filename, contentType}}`. */
    | Upload(data: seq<bv8>, filename: string, contentType: Option<string>)

  /** JavaScript truthiness, as used by `if (x)` and `x || y`. */
  predicate Truthy(v: Value)
  {
    match v
    case Undefined => false
    case Null => false
    case Bool(b) => b
    case Num(n) => n != 0.0
    case Str(s) => s != ""
    case _ => true
  }

  /** The values JavaScript treats as false (NaN and negative zero are not
      among the modelled numbers' special cases). */
  lemma FalsyValues(v: Value)
    ensures !Truthy(v) <==> v == Undefined || v == Null || v == Bool(false) || v == Num(0.0) || v == Str("")
  {
  }

  /** `if (options.x)` on an optional string parameter: defined and non-empty. */
  predicate NonEmpty(o: Option<string>)
  {
    o.Some? && o.value != ""
  }

  /** An optional string as the JavaScript value it stands for. */
  function OptStr(o: Option<string>): Value
  {
    if o.Some? then Str(o.value) else Undefined
  }

  /** Testing an optional string for non-emptiness is testing the value it
      stands for for truthiness. */
  lemma NonEmptyIsTruthy(o: Option<string>)
    ensures NonEmpty(o) <==> Truthy(OptStr(o))
  {
  }

  /** A record literal `{...}` with one key per defined optional member:
      `Extend(m, k, Some(v))` adds `k: v`, `Extend(m, k, None)` leaves `m` as is. */
  function Extend(m: map<string, Value>, k: string, v: Option<Value>): map<string, Value>
  {
    if v.Some? then m[k := v.value] else m
  }
}
