/**
 * The boundary of the FPL client: one HTTP response per request, and the
 * failures the client raises.
 */
module Api {
  import opened Wrappers
  import opened Json

  /**
   * An HTTP response as the client reads it: the status code and the body
   * parsed as JSON. `body == None` means the body is not valid JSON, so
   * `resp.json()` raises.
   */
  datatype Response = Response(status: int, body: Option<Json>)

  /** The failures of the client, one per exception it can raise. */
  datatype Error =
    | AuthFailed            // the /api/me/ status was not 200
    | NoEntryId             // the /api/me/ body has no player entry
    | NotAuthenticated      // team requested before a truthy entry id was set
    | TeamFetchFailed       // the picks status was not 200
    | BootstrapFetchFailed  // the bootstrap status was not 200
    | Malformed             // a body of an unexpected shape (TypeError, KeyError, ...)

  /** The message each raised exception carries. */
  function Message(e: Error): (m: string)
    ensures m != ""
  {
    match e
    case AuthFailed => "Failed to authenticate with provided cookie."
    case NoEntryId => "No entry ID found in /api/me response."
    case NotAuthenticated => "Must authenticate first."
    case TeamFetchFailed => "Failed to fetch team data"
    case BootstrapFetchFailed => "Failed to fetch bootstrap data"
    case Malformed => "unexpected response shape"
  }

  /** Each failure is told apart by its message. */
  lemma MessagesDistinct(a: Error, b: Error)
    requires a != b
    ensures Message(a) != Message(b)
  {
  }
}
