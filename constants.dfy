/** The MCP server's frozen configuration constants and its token masking
    helper (`config/constants.py`).  Durations are integer milliseconds:
    the source's `0.5` seconds is `500` here. */
module Constants {
  import opened Wrappers

  // NetworkConfig
  const DefaultCommandTimeoutMs: int := 30_000
  const WebSocketOpenTimeoutMs: int := 10_000
  const WebSocketCloseTimeoutMs: int := 10_000
  const MaxMessageSize: int := 10 * 1024 * 1024
  const MaxPingFailures: int := 3

  // RetryConfig
  const QuickRetryAttempts: int := 3
  const BackoffBaseDelayMs: int := 500
  const MinRetryDelayMs: int := 1000

  // SecurityConfig
  const TokenVisibleChars: int := 4
  const TokenMask: string := "****"

  /** `mask_token`: "not set" for a missing or empty token, "****" followed
      by the last four characters for a longer token, "set" otherwise. */
  function MaskToken(token: Option<string>): (r: string)
    ensures r == "not set" <==> token.None? || |token.value| == 0
    ensures r == "set" <==> token.Some? && 0 < |token.value| <= TokenVisibleChars
    ensures token.Some? && |token.value| > TokenVisibleChars ==>
              |r| == 8 && r[..4] == TokenMask && r[4..] == token.value[|token.value| - TokenVisibleChars..]
    ensures |r| <= 8
  {
    match token
    case None => "not set"
    case Some(t) =>
      if |t| == 0 then "not set"
      else if |t| > TokenVisibleChars then TokenMask + t[|t| - TokenVisibleChars..]
      else "set"
  }

  /** The mask reveals nothing but the token's length class and its last four
      characters: two tokens that agree on those mask alike, however much
      their leading characters differ. */
  lemma MaskRevealsOnlyTail(a: string, b: string)
    requires (|a| == 0) == (|b| == 0)
    requires (|a| > TokenVisibleChars) == (|b| > TokenVisibleChars)
    requires |a| > TokenVisibleChars ==> a[|a| - 4..] == b[|b| - 4..]
    ensures MaskToken(Some(a)) == MaskToken(Some(b))
  {
    if |a| > TokenVisibleChars {
      assert MaskToken(Some(a)) == TokenMask + a[|a| - TokenVisibleChars..];
      assert MaskToken(Some(b)) == TokenMask + b[|b| - TokenVisibleChars..];
    }
  }

  /** A character of the token that is not among the last four never shows
      up at any position of the mask. */
  lemma MaskHidesPrefix(t: string, i: int, c: char)
    requires 0 <= i < |t| - TokenVisibleChars
    ensures MaskToken(Some(t[i := c])) == MaskToken(Some(t))
  {
    assert t[i := c][|t| - 4..] == t[|t| - 4..];
  }
}
