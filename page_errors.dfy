/**
 * The error text the sign-in and sign-up pages show when their submit fails.
 */
module PageErrors {

  import opened Wrappers
  import opened HttpClient
  import Text

  const NetworkMessage := "Network error. Please check that the backend server is running."

  /** The marker the HTTP library puts in the message of a request that got no answer. */
  const NetworkMarker := "Network Error"

  /** The rejection came with no answer from the server: its message is truthy and mentions the marker. */
  predicate NetworkFailure(err: JsError) {
    err.message != "" && Text.Includes(err.message, NetworkMarker)
  }

  /**
   * The text shown for a failed submit: the server's `error` field when it is truthy,
   * else the network message for a network failure, else the page's own fallback.
   */
  function SubmitError(err: JsError, fallback: string): (m: string)
    ensures ServerError(err).Some? ==> m == ServerError(err).value
    ensures ServerError(err).None? && NetworkFailure(err) ==> m == NetworkMessage
    ensures ServerError(err).None? && !NetworkFailure(err) ==> m == fallback
  {
    match ServerError(err)
    case Some(text) => text
    case None => if NetworkFailure(err) then NetworkMessage else fallback
  }

  /** A server that answered never produces the network message unless it said so itself. */
  lemma AnsweredIsNotNetwork(message: string, status: int, errorText: Option<string>, fallback: string)
    requires Truthy(errorText)
    ensures SubmitError(JsError(message, Some(ErrorResponse(status, errorText))), fallback) == errorText.value
  {
  }

  /** The Error the auth context throws for a reply without a token is shown as the fallback text. */
  lemma InvalidResponseShowsFallback(fallback: string)
    ensures SubmitError(JsError("Invalid response from server", None), fallback) == fallback
  {
    Text.NotIncludedWithoutFirst("Invalid response from server", NetworkMarker);
  }
}
