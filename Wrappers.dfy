/** The optional and fallible values the TypeScript code expresses with
    `null`/`undefined` and with thrown errors. */
module Wrappers {

  datatype Option<+T> = None | Some(value: T)

  datatype Result<+T, +E> = Success(value: T) | Failure(error: E)

  /** The message a page shows for a caught error: the error's own message,
      or the page's fallback text when the thrown value is not an `Error`
      object (`None`). */
  function ErrorMessage(thrown: Option<string>, fallback: string): string
  {
    if thrown.Some? then thrown.value else fallback
  }
}
