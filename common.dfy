/** Values shared by every part of the model: optional values, the error values
    that travel through callbacks, and the JavaScript coercions the source relies on. */
module Common {

  datatype Option<+T> = None | Some(value: T)

  /** The extra fields a DeployR API error carries (`err.get('call')`,
      `err.get('errorCode')`, `err.get('error')`). */
  datatype ApiFault = ApiFault(call: string, code: int, error: string)

  /** An error handed to a callback. A plain string error (such as
      'Three failed login attempts.') has no stack and no DeployR part. */
  datatype Error = Error(message: string, stack: Option<string>, deployr: Option<ApiFault>)

  /** One invocation of a command callback: `callback(err, shallow)`;
      `callback()` is `Reply(None, false)`. */
  datatype Reply = Reply(err: Option<Error>, shallow: bool)

  /** A string error as the source builds it from a literal. */
  function Plain(message: string): (e: Error)
    ensures e.stack == None && e.deployr == None && e.message == message
  {
    Error(message, None, None)
  }

  /** JavaScript truthiness of an optional string: `undefined`, `null` and `''` are falsy. */
  predicate Truthy(v: Option<string>)
  {
    v.Some? && v.value != ""
  }

  /** `'...' + v` for a value that may be undefined: JavaScript writes "undefined". */
  function JsText(v: Option<string>): (s: string)
    ensures v.None? ==> s == "undefined"
    ensures v.Some? ==> s == v.value
  {
    match v
    case Some(t) => t
    case None => "undefined"
  }

  /** `a || b` on optional strings. */
  function Or(a: Option<string>, b: Option<string>): (r: Option<string>)
    ensures Truthy(a) ==> r == a
    ensures !Truthy(a) ==> r == b
  {
    if Truthy(a) then a else b
  }
}
