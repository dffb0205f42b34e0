/** Small value types shared by every module of the model: optional values,
    outcomes of remote calls, and fields of partial updates. */
module Wrappers {

  /** A value that may be absent (`undefined` or `null` in the application). */
  datatype Option<+T> = None | Some(value: T) {

    /** The value, or `default` when absent. */
    function GetOr(default: T): (r: T)
      ensures Some? ==> r == value
      ensures None? ==> r == default
    {
      match this
      case Some(v) => v
      case None => default
    }
  }

  /** The outcome of a remote call that returns data: the data, or an error. */
  datatype Response<+T> = Ok(value: T) | Err

  /** The outcome of a remote call that only acknowledges (insert, update, delete). */
  datatype Ack = Acked | Rejected

  /** One field of a partial record (`Partial<T>` spread over a record): either the key
      is absent from the patch, or it is present with a value. A key that is present
      with the value `undefined` is `Present(None)` for an optional field; a spread
      copies it like any other value. */
  datatype Field<+T> = Absent | Present(value: T) {

    /** The field after overlaying this patch entry on `prior`. */
    function Apply(prior: T): (r: T)
      ensures Absent? ==> r == prior
      ensures Present? ==> r == value
    {
      if Present? then value else prior
    }
  }

  /** JavaScript truthiness of an optional string: `undefined` and "" are falsy. */
  predicate Truthy(s: Option<string>)
  {
    s.Some? && s.value != ""
  }

  /** `s || d` for an optional string. */
  function OrElse(s: Option<string>, d: string): (r: string)
    ensures Truthy(s) ==> r == s.value
    ensures !Truthy(s) ==> r == d
  {
    if Truthy(s) then s.value else d
  }

  /** `s || undefined`: a falsy string (absent or "") becomes absent. */
  function OrUndefined(s: Option<string>): (r: Option<string>)
    ensures r.Some? <==> Truthy(s)
    ensures r.Some? ==> r == s
  {
    if Truthy(s) then s else None
  }
}
