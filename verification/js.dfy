/**
 * The fragment of JavaScript semantics the note handler relies on: values
 * produced by `JSON.parse`, what a `throw` can carry, the truthiness test
 * `!x`, and reading the `content` property of a parsed body.
 */
module Js {
  import opened Wrappers

  /** A value as `JSON.parse` can produce it. Numbers are kept as exact reals. */
  datatype Value =
    | JNull
    | JBool(b: bool)
    | JNum(n: real)
    | JStr(s: string)
    | JArr(items: seq<Value>)
    | JObj(fields: map<string, Value>)

  /**
   * What a `throw` delivers to a `catch`: either an instance of `Error`
   * (which always has a `message`, possibly empty) or some other value.
   */
  datatype Thrown = ErrorObject(message: string) | OtherValue

  /** The message V8 gives the TypeError raised by reading `content` of `null`. */
  const NullContentMessage: string := "Cannot read properties of null (reading 'content')"

  /**
   * JavaScript's ToBoolean on a property read: `undefined` (None), `null`,
   * `false`, zero (either sign) and the empty string are falsy; every other
   * value, including every array and object, is truthy.
   */
  predicate Truthy(x: Option<Value>) {
    match x
    case None => false
    case Some(v) =>
      match v
      case JNull => false
      case JBool(b) => b
      case JNum(n) => n != 0.0
      case JStr(s) => s != ""
      case JArr(_) => true
      case JObj(_) => true
  }

  /** The falsy values, listed one by one: the reference for `Truthy`. */
  lemma FalsyValues(x: Option<Value>)
    ensures !Truthy(x) <==>
      x == None || x == Some(JNull) || x == Some(JBool(false)) ||
      x == Some(JNum(0.0)) || x == Some(JStr(""))
  {
  }

  /**
   * Evaluates `v.content`. Reading a property of `null` throws a TypeError;
   * an object yields its own `content` field if present; strings, numbers,
   * booleans and arrays have no `content` property, so the read yields
   * `undefined`.
   */
  function ContentOf(v: Value): Result<Option<Value>, Thrown> {
    match v
    case JNull => Failure(ErrorObject(NullContentMessage))
    case JObj(fields) => Success(if "content" in fields then Some(fields["content"]) else None)
    case _ => Success(None)
  }
}
