/**
 * The link-error page: the `reason` query parameter, when there is one,
 * chooses the message shown.
 */
module InvalidPage {
  import opened JsText

  const Reasons: seq<string> := ["not_found", "inactive", "expired", "invalid_code", "server_error"]
  const Messages: seq<string> := [
    "This link does not exist.",
    "This link is currently inactive.",
    "This link has expired.",
    "The provided code is invalid.",
    "A server error occurred. Please try again later."]
  const UnknownMessage: string := "An unknown error occurred."

  /** `getMessage` over `query.get("reason")`, which is `None` when the
      parameter is absent. */
  function GetMessage(reason: Option<string>): (r: string)
    ensures forall k :: 0 <= k < |Reasons| && reason == Some(Reasons[k]) ==> r == Messages[k]
    ensures r == UnknownMessage <==> reason.None? || reason.value !in Reasons
  {
    if reason.None? then UnknownMessage
    else match reason.value
      case "not_found" => "This link does not exist."
      case "inactive" => "This link is currently inactive."
      case "expired" => "This link has expired."
      case "invalid_code" => "The provided code is invalid."
      case "server_error" => "A server error occurred. Please try again later."
      case _ => UnknownMessage
  }

  /** Distinct known reasons, and a known reason against the fallback, never
      share a message: the page always tells the cases apart. */
  lemma MessagesTellReasonsApart(a: Option<string>, b: Option<string>)
    requires a.Some? && a.value in Reasons
    ensures GetMessage(a) == GetMessage(b) <==> b == a
  {
  }
}
