/**
 * The bearer-token gate. The configured key is read once when the module
 * loads; here it is a parameter, and loading refuses an absent or empty key.
 */
module Auth {
  import opened Wrappers
  import opened Errors
  import opened AppConstants
  import Text

  const API_KEY_REQUIRED: string := "API_KEY environment variable is required"
  const MISSING_HEADER: string := "Missing authorization header"
  const NOT_BEARER: string := "Authorization header must use Bearer format"
  const INVALID_API_KEY: string := "Invalid API key"

  /** The load-time check: the module only loads with a non-empty key. */
  function LoadApiKey(env: Option<string>): (r: Result<string, string>)
    ensures r.Ok? <==> env.Some? && env.value != ""
    ensures r.Ok? ==> r.value == env.value
    ensures r.Err? ==> r.error == API_KEY_REQUIRED
  {
    if env.None? || env.value == "" then Err(API_KEY_REQUIRED) else Ok(env.value)
  }

  /** The credential a Bearer header presents: the text after the prefix, trimmed. */
  function PresentedKey(header: string): (key: string)
    requires Text.StartsWith(header, BEARER_PREFIX)
    ensures Text.HasTrimmedEnds(key)
    ensures key == [] <==> Text.IsBlank(header[|BEARER_PREFIX|..])
    ensures |key| <= |header| - |BEARER_PREFIX|
  {
    Text.Trim(header[|BEARER_PREFIX|..])
  }

  /**
   * `validateApiKey`: three checks in order (a header is present, it uses
   * the Bearer prefix, the presented key is the configured one); the first
   * that fails alone decides the error.
   */
  function ValidateApiKey(apiKey: string, header: Option<string>): (r: Result<(), AppError>)
    requires apiKey != ""
    ensures r.Err? ==> r.error.Unauthorized?
    ensures header.None? || header.value == "" ==> r == Err(Unauthorized(MISSING_HEADER))
    ensures (header.Some? && header.value != "" && !Text.StartsWith(header.value, BEARER_PREFIX))
              ==> r == Err(Unauthorized(NOT_BEARER))
    ensures (header.Some? && Text.StartsWith(header.value, BEARER_PREFIX))
              ==> r == (if PresentedKey(header.value) == apiKey then Ok(()) else Err(Unauthorized(INVALID_API_KEY)))
  {
    if header.None? || header.value == "" then Err(Unauthorized(MISSING_HEADER))
    else if !Text.StartsWith(header.value, BEARER_PREFIX) then Err(Unauthorized(NOT_BEARER))
    else
      var key := PresentedKey(header.value);
      if key == [] || key != apiKey then Err(Unauthorized(INVALID_API_KEY)) else Ok(())
  }

  /** A request is let through exactly when it presents the configured key behind the Bearer prefix. */
  lemma AcceptedIff(apiKey: string, header: Option<string>)
    requires apiKey != ""
    ensures ValidateApiKey(apiKey, header).Ok?
        <==> header.Some? && Text.StartsWith(header.value, BEARER_PREFIX) && PresentedKey(header.value) == apiKey
  {
  }

  /** Whitespace around the key, after the prefix, is tolerated. */
  lemma SurroundingWhitespaceTolerated(apiKey: string, before: string, after: string)
    requires apiKey != "" && Text.HasTrimmedEnds(apiKey)
    requires Text.IsBlank(before) && Text.IsBlank(after)
    ensures ValidateApiKey(apiKey, Some(BEARER_PREFIX + before + apiKey + after)) == Ok(())
  {
    var header := BEARER_PREFIX + before + apiKey + after;
    assert Text.StartsWith(header, BEARER_PREFIX);
    assert header[|BEARER_PREFIX|..] == before + apiKey + after;
    Text.TrimSurrounded(before, apiKey, after);
  }

  /** The prefix is case-sensitive: a lower-case scheme is not Bearer format. */
  lemma PrefixCaseSensitive(apiKey: string)
    requires apiKey != ""
    ensures ValidateApiKey(apiKey, Some("bearer " + apiKey)) == Err(Unauthorized(NOT_BEARER))
  {
    assert ("bearer " + apiKey)[0] != BEARER_PREFIX[0];
  }

  /**
   * A configured key that itself begins or ends with whitespace can never be
   * presented, since the presented key is always trimmed.
   */
  lemma UntrimmedKeyRejectsAll(apiKey: string, header: Option<string>)
    requires apiKey != "" && !Text.HasTrimmedEnds(apiKey)
    ensures ValidateApiKey(apiKey, header).Err?
  {
  }
}
