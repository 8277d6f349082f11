/** The cross-origin rule of the application: the allowed-origin list read from `FRONTEND_URL` and the
    `origin` callback that admits or refuses a request's origin. The environment variable is a
    parameter. */
module Cors {
  import opened Wrappers
  import opened JsText

  /** The allowed origins: none when the variable is unset or empty, otherwise its comma-separated
      pieces in order, each with surrounding whitespace removed. */
  function AllowedOrigins(frontendUrl: Option<string>): (allowed: seq<string>)
    ensures frontendUrl.None? || frontendUrl == Some("") ==> allowed == []
    ensures frontendUrl.Some? && frontendUrl.value != "" ==>
              && |allowed| == |Split(frontendUrl.value, ',')|
              && forall k :: 0 <= k < |allowed| ==> allowed[k] == Trim(Split(frontendUrl.value, ',')[k])
  {
    if frontendUrl.None? || frontendUrl.value == "" then []
    else
      var parts := Split(frontendUrl.value, ',');
      seq(|parts|, k requires 0 <= k < |parts| => Trim(parts[k]))
  }

  /** What the callback answers: `callback(null, true)` or `callback(new Error(message))`. */
  datatype CorsDecision = Allow | Reject(message: string)

  const NotAllowedMessage := "Not allowed by CORS"

  /** The `origin` callback. A missing or empty origin is admitted; an empty list admits everything;
      otherwise only a listed origin is admitted. */
  function DecideOrigin(allowed: seq<string>, origin: Option<string>): (d: CorsDecision)
    ensures origin.None? || origin == Some("") ==> d == Allow
    ensures allowed == [] ==> d == Allow
    ensures origin.Some? && origin.value != "" && allowed != [] ==> (d == Allow <==> origin.value in allowed)
    ensures d.Reject? ==> d.message == NotAllowedMessage
  {
    if origin.None? || origin.value == "" then Allow
    else if |allowed| == 0 then Allow
    else if origin.value in allowed then Allow
    else Reject(NotAllowedMessage)
  }

  /** Every origin is admitted only when `FRONTEND_URL` is unset or empty: once it holds anything, even
      only spaces, the list is non-empty and an unlisted origin is refused. */
  lemma ConfiguredUrlRestricts(frontendUrl: string, origin: string)
    requires frontendUrl != "" && origin != ""
    requires origin !in AllowedOrigins(Some(frontendUrl))
    ensures DecideOrigin(AllowedOrigins(Some(frontendUrl)), Some(origin)) == Reject(NotAllowedMessage)
  {
    assert |Split(frontendUrl, ',')| >= 1;
  }

  /** The list has one (trimmed) entry per comma-separated piece of `FRONTEND_URL`. */
  lemma AllowedOriginsCount(frontendUrl: string)
    requires frontendUrl != ""
    ensures |AllowedOrigins(Some(frontendUrl))| == Occurrences(frontendUrl, ',') + 1
  {
    SplitCount(frontendUrl, ',');
  }

  /** Each configured origin, written with surrounding spaces or not, is admitted once trimmed. */
  lemma ListedOriginAdmitted(frontendUrl: string, k: nat)
    requires frontendUrl != ""
    requires k < |Split(frontendUrl, ',')|
    ensures DecideOrigin(AllowedOrigins(Some(frontendUrl)), Some(Trim(Split(frontendUrl, ',')[k]))) == Allow
  {
    var allowed := AllowedOrigins(Some(frontendUrl));
    assert allowed[k] == Trim(Split(frontendUrl, ',')[k]);
  }
}
