/**
 * What the browser side gets back from a request: the parsed JSON, or the
 * value the request threw. A thrown `Error` carries a message; anything
 * else thrown carries none.
 */
module Client {
  import opened Wrappers

  datatype Outcome<T> = Ok(value: T) | Thrown(message: Option<string>)

  /** `err instanceof Error ? err.message : fallback`. */
  function ErrorText(message: Option<string>, fallback: string): (r: string)
    ensures message.Some? ==> r == message.value
    ensures message.None? ==> r == fallback
  {
    message.GetOr(fallback)
  }
}
