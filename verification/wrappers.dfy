/** Small value wrappers shared by the whole model. */
module Wrappers {

  /** A value that may be absent (`undefined` or `null` in the source). */
  datatype Option<+T> = None | Some(value: T) {
    function GetOr(default: T): T {
      match this
      case Some(v) => v
      case None => default
    }
  }

  /** The outcome of a rendering step that may throw: either a value or an exception
      that nobody catches locally. */
  datatype Render<+T> = Rendered(view: T) | RenderError

  /** The outcome of a content-store query: the decoded payload, or a failure
      (network error, malformed response) reported by the client. */
  datatype FetchOutcome<+T> = Fetched(data: seq<T>) | FetchFailed
}
