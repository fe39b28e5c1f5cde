/**
 The few JavaScript value notions the store relies on: optional fields,
 string truthiness and strict equality against `null`.
 */
module JsCore {

  datatype Option<T> = None | Some(value: T)

  /** Identifiers are strings (the source renders them from the clock and a random number). */
  type Id = string

  /** A timestamp as produced by `new Date().toISOString()`; its text is not interpreted. */
  type Time = string

  /** JavaScript truthiness of an optional string: `undefined` and `""` are falsy. */
  predicate Truthy(s: Option<string>)
  {
    s.Some? && s.value != ""
  }

  /** The JavaScript values a stored optional string is compared with by `===`. */
  datatype JsValue = Undefined | Null | Str(s: string)

  /** An optional string field as a JavaScript value: a missing field reads as `undefined`. */
  function AsJs(s: Option<string>): (v: JsValue)
    ensures v != Null
    ensures v == Undefined <==> s.None?
    ensures s.Some? ==> v == Str(s.value)
  {
    match s
    case None => Undefined
    case Some(x) => Str(x)
  }

  /** The expression `s || null`. */
  function OrNull(s: Option<string>): (v: JsValue)
    ensures v != Undefined
    ensures v == Null <==> !Truthy(s)
    ensures Truthy(s) ==> v == Str(s.value)
  {
    if Truthy(s) then Str(s.value) else Null
  }
}
