/** Values shared by every part of the chat server model. */
module Common {

  /** An optional value; `None` stands for a missing key or a JSON `null`. */
  datatype Option<+T> = None | Some(value: T)

  /** Python truthiness of an optional string: `None` and `""` are falsy. */
  predicate Truthy(o: Option<string>)
  {
    o.Some? && o.value != ""
  }

  /** How a call into a remote service can fail. The server's handler tells
      apart only `requests.HTTPError` (raised by `raise_for_status`) from
      every other exception; `detail` is the text of `str(e)`. */
  datatype Failure = HttpError(detail: string) | OtherError(detail: string)

  /** The result of a step that may raise. */
  datatype Outcome<+T> = Ok(value: T) | Fail(failure: Failure)

  function Min(a: int, b: int): int
  {
    if a <= b then a else b
  }
}
