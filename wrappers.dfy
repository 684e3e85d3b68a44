/** Optional values, results and the failures the dashboard's backend raises. */
module Wrappers {

  /** A value that may be absent: a JavaScript `undefined`/`null` field. */
  datatype Option<+T> = None | Some(value: T) {
    function GetOr(default: T): T {
      match this
      case Some(v) => v
      case None => default
    }
  }

  /** The kinds of exception the modelled services throw. */
  datatype Error =
    | NotAuthenticated            // no credential row is stored
    | RefreshCallFailed           // the refresh-token grant itself threw
    | RefreshIncomplete           // the grant answered without access token or expiry
    | UpstreamFailed              // an HTTP call to an external API threw
    | UpstreamStatus(status: string)  // the Distance Matrix answered with a non-OK status
    | MalformedResponse           // parsing the answer threw (a TypeError in the source)
    | StorageFailed               // a database or device-storage write threw

  /** The outcome of an async call: its value, or the exception it threw. */
  datatype Result<+T> = Ok(value: T) | Err(error: Error)
}
