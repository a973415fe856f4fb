/** Optional values, results and the exceptions the answer path can raise. */
module Errors {

  datatype Option<T> = None | Some(value: T)

  /** An exception raised by a step, or its value. */
  datatype Result<T> = Ok(value: T) | Err(error: Error)

  /** The exceptions of the answer path, grouped by where they are raised. */
  datatype Error =
    | Configuration(msg: string)   // a client library is not installed or its API key is not set
    | UnknownProvider(name: string) // a provider name outside the fixed two
    | Backend(msg: string)         // the remote model call failed
    | Retrieval(msg: string)       // ingest, load or retrieve failed

  /** `str(e)`: the text an exception renders as in an f-string. */
  function ErrorText(e: Error): string {
    match e
    case Configuration(m) => m
    case UnknownProvider(n) => "Unknown provider: " + n
    case Backend(m) => m
    case Retrieval(m) => m
  }

  /** Python truthiness of an optional string: present and not empty. */
  predicate Truthy(o: Option<string>) {
    o.Some? && o.value != ""
  }
}
