/** The API-key gate of app/middleware/api-auth.ts: a decision over the
    Referer, Host and Authorization headers of a request. */
module ApiAuth {
  import opened Wrappers
  import opened Text

  /** The request headers the gate reads; `None` is a header that is absent. */
  datatype Headers = Headers(referer: Option<string>, host: Option<string>, authorization: Option<string>)

  /** The verification record: `error` is set exactly on rejection. */
  datatype Verification = Verification(valid: bool, error: Option<string>, status: nat)

  const LocalOrigin: string := "localhost:3000"
  const DeployedOrigin: string := "webscraper-eosin.vercel.app"
  const BearerPrefix: string := "Bearer "
  const HeaderRequired: string := "Authorization header is required"
  const BadFormat: string := "Invalid authorization format. Use: Bearer YOUR_API_KEY"

  /** A request counts as internal when its referer mentions the host header
      or one of the two known origins. */
  predicate IsInternal(h: Headers) {
    var referer := h.referer.GetOr("");
    Contains(referer, h.host.GetOr("")) || Contains(referer, LocalOrigin) || Contains(referer, DeployedOrigin)
  }

  /** The token: the Authorization header with its first "Bearer " removed. */
  function Token(authorization: string): string {
    ReplaceFirst(authorization, BearerPrefix)
  }

  /** `verifyApiKey`. Internal requests pass; otherwise an absent or empty
      Authorization header, or an empty token, is refused with 401, and any
      other token is accepted without a lookup. */
  function VerifyApiKey(h: Headers): (v: Verification)
    ensures v.valid ==> v.status == 200 && v.error.None?
    ensures !v.valid ==> v.status == 401 && v.error.Some?
  {
    if IsInternal(h) then Verification(true, None, 200)
    else if h.authorization.None? || h.authorization.value == "" then
      Verification(false, Some(HeaderRequired), 401)
    else if Token(h.authorization.value) == "" then
      Verification(false, Some(BadFormat), 401)
    else Verification(true, None, 200)
  }

  /** Every string contains the empty string, so a request without a Host
      header is treated as internal and passes, whatever else it carries. */
  lemma AbsentHostPasses(h: Headers)
    requires h.host.None?
    ensures VerifyApiKey(h) == Verification(true, None, 200)
  {
    assert StartsWith(h.referer.GetOr(""), "");
  }

  /** For an external request the verdict depends on the Authorization header
      alone: it passes exactly when that header is present and is neither
      empty nor exactly "Bearer ". */
  lemma ExternalVerdict(h: Headers)
    requires !IsInternal(h)
    ensures VerifyApiKey(h).valid <==>
      h.authorization.Some? && h.authorization.value != "" && h.authorization.value != BearerPrefix
  {
    if h.authorization.Some? {
      ReplaceFirstEmpty(h.authorization.value, BearerPrefix);
    }
  }

  /** The three refusals, with their messages. */
  lemma ExternalRefusals(h: Headers)
    requires !IsInternal(h)
    ensures h.authorization.None? ==> VerifyApiKey(h) == Verification(false, Some(HeaderRequired), 401)
    ensures h.authorization == Some("") ==> VerifyApiKey(h) == Verification(false, Some(HeaderRequired), 401)
    ensures h.authorization == Some(BearerPrefix) ==> VerifyApiKey(h) == Verification(false, Some(BadFormat), 401)
  {
    ReplaceFirstEmpty(BearerPrefix, BearerPrefix);
  }
}
