/**
 * The API key gate of server/middleware/auth.ts: a request passes only when
 * its `x-api-key` header is present, non-empty and equal to the configured
 * key; otherwise it is answered with 401 and the chain stops.
 */
module Auth {
  import opened Wrappers
  import opened YouTubeTypes
  import opened Http

  const UNAUTHORIZED := "Unauthorized"

  /**
   * The accept rule, the negation of `!apiKey || apiKey !== expected`. The
   * expected key is optional because server/index.js reads it straight from
   * the environment, where it may be unset.
   */
  function KeyAccepted(key: Option<string>, expected: Option<string>): (ok: bool)
    ensures ok <==> key.Some? && key.value != "" && expected == key
  {
    Truthy(key) && key == expected
  }

  /** An absent or empty header is rejected whatever key is configured. */
  lemma MissingKeyRejected(key: Option<string>, expected: Option<string>)
    requires key == None || key == Some("")
    ensures !KeyAccepted(key, expected)
  {
  }

  /** With no key configured, every request is rejected. */
  lemma UnsetKeyRejectsAll(key: Option<string>)
    ensures !KeyAccepted(key, None)
  {
  }

  /** With a non-empty key configured, exactly that key is accepted. */
  lemma OnlyTheConfiguredKey(key: Option<string>, configured: string)
    requires configured != ""
    ensures KeyAccepted(key, Some(configured)) <==> key == Some(configured)
  {
  }

  /**
   * `validateApiKey(req, res, next)`: `next` reports whether the next handler
   * is called. Exactly one of the two happens: either the chain goes on with
   * the response untouched, or the response is a finished 401.
   */
  method ValidateApiKey(res: Response, key: Option<string>, configured: string) returns (next: bool)
    requires res.Valid() && !res.headersSent
    modifies res
    ensures next == KeyAccepted(key, Some(configured))
    ensures next <==> !res.finished
    ensures next ==> res.State() == old(res.State())
    ensures !next ==> res.State() == Replied(old(res.State()), 401, ErrorJson(UNAUTHORIZED))
  {
    if !Truthy(key) || key != Some(configured) {
      res.Status(401);
      res.Json(ErrorJson(UNAUTHORIZED));
      return false;
    }
    return true;
  }
}
