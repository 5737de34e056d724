/** The guard chains of the API routes (src/lib/api/middleware.ts).

    Each guard returns early with an error response; the database and
    authentication lookups it makes are parameters (a lookup that errors and
    one that finds nothing are the same `None`).  Response bodies are reduced
    to a status and a message; timestamps and `NextResponse` are left out. */
module Middleware {
  import opened Text
  import Schemas
  import RateLimit
  import PresignedUrls

  /** `errorResponse(message, status)`. */
  datatype ApiError = ApiError(status: int, message: string)

  // ---------------------------------------------------------------------------
  // Rate limiting
  // ---------------------------------------------------------------------------

  /** The 429 response of `applyRateLimit`. */
  datatype RateLimitDenial = RateLimitDenial(status: int, error: string, retryAfter: int,
                                             retryAfterHeader: string, limitHeader: string,
                                             remainingHeader: string)

  /** The response `applyRateLimit` builds from a limiter answer: none when the
      request was admitted, else a 429 with the seconds to wait rounded up. */
  function RateLimitResponse(result: RateLimit.RateLimitResult, config: RateLimit.RateLimitConfig, now: int)
    : (d: Option<RateLimitDenial>)
    ensures d.None? <==> result.success
    ensures d.Some? ==>
      d.value.status == 429 && d.value.remainingHeader == "0"
      && (d.value.retryAfter - 1) * 1000 < result.resetTime - now <= d.value.retryAfter * 1000
      && d.value.retryAfterHeader == IntToString(d.value.retryAfter)
      && d.value.limitHeader == IntToString(config.maxRequests)
    ensures d.Some? ==>
      (if result.message.Some? && result.message.value != "" then d.value.error == result.message.value
       else d.value.error == "Rate limit exceeded")
  {
    if result.success then None
    else
      var retryAfter := CeilDiv(result.resetTime - now, 1000);
      var error := if result.message.Some? && result.message.value != "" then result.message.value else "Rate limit exceeded";
      Some(RateLimitDenial(429, error, retryAfter, IntToString(retryAfter), IntToString(config.maxRequests), "0"))
  }

  /** A refusal by the limiter is for a window that is still open, so the
      advertised wait is never negative, and it carries the limiter's message. */
  lemma RefusalWaitIsNonNegative(store: map<string, RateLimit.Entry>, identifier: string,
                                 config: RateLimit.RateLimitConfig, now: int)
    requires !RateLimit.Check(store, identifier, config, now).result.success
    ensures var d := RateLimitResponse(RateLimit.Check(store, identifier, config, now).result, config, now);
      d.Some? && d.value.retryAfter >= 0
      && d.value.error == RateLimit.ExceededMessage(RateLimit.Check(store, identifier, config, now).result.resetTime, now)
  {
    var key := RateLimit.StoreKey(identifier, config.windowSeconds);
    assert RateLimit.Exhausted(store, key, config, now);
  }

  /** `applyRateLimit`: the client is identified from the request headers and
      counted against the shared table; `identifier` and `result` are the
      intermediate values the source computes. */
  method ApplyRateLimit(limiter: RateLimit.RateLimiter, h: RateLimit.ClientHeaders,
                        config: RateLimit.RateLimitConfig, now: int, cleanupRoll: bool)
    returns (identifier: string, result: RateLimit.RateLimitResult, denial: Option<RateLimitDenial>)
    modifies limiter
    ensures var before := if cleanupRoll then RateLimit.Unexpired(old(limiter.store), now) else old(limiter.store);
      RateLimit.Check(before, identifier, config, now) == RateLimit.Outcome(limiter.store, result)
    ensures denial == RateLimitResponse(result, config, now)
  {
    identifier := RateLimit.GetClientIdentifier(h);
    result := limiter.CheckRateLimit(identifier, config, now, cleanupRoll);
    denial := RateLimitResponse(result, config, now);
  }

  // ---------------------------------------------------------------------------
  // Test tokens
  // ---------------------------------------------------------------------------

  /** A `test_links` row: `expiresAt` is `None` when `expires_at` is null. */
  datatype TestLink = TestLink(isActive: bool, expiresAt: Option<int>, testId: string)

  datatype TokenCheck = TokenValid(link: TestLink) | TokenRejected(error: ApiError)

  /** Whether a link has passed its expiry instant; a link without one never expires. */
  predicate LinkExpired(link: TestLink, now: int)
    ensures link.expiresAt.None? ==> !LinkExpired(link, now)
    ensures link.expiresAt.Some? ==> (LinkExpired(link, now) <==> now > link.expiresAt.value)
  {
    link.expiresAt.Some? && link.expiresAt.value < now
  }

  /** `verifyTestToken`: format, then existence, then activity, then expiry.  The
      format test is the same regular expression as `isValidUUID`; `links` is the
      `test_links` lookup by token. */
  function VerifyTestToken(token: string, links: string -> Option<TestLink>, now: int): (r: TokenCheck)
    ensures r == TokenRejected(ApiError(400, "Invalid token format")) <==> !Schemas.IsValidUUID(token)
    ensures r == TokenRejected(ApiError(404, "Invalid or expired test link")) <==>
      Schemas.IsValidUUID(token) && links(token).None?
    ensures r == TokenRejected(ApiError(403, "This test link has been deactivated")) <==>
      Schemas.IsValidUUID(token) && links(token).Some? && !links(token).value.isActive
    ensures r == TokenRejected(ApiError(403, "This test link has expired")) <==>
      Schemas.IsValidUUID(token) && links(token).Some? && links(token).value.isActive
      && LinkExpired(links(token).value, now)
    ensures r.TokenValid? <==>
      Schemas.IsValidUUID(token) && links(token).Some? && links(token).value.isActive
      && !LinkExpired(links(token).value, now)
    ensures r.TokenValid? ==> r.link == links(token).value
  {
    if !Schemas.IsValidUUID(token) then TokenRejected(ApiError(400, "Invalid token format"))
    else match links(token)
      case None => TokenRejected(ApiError(404, "Invalid or expired test link"))
      case Some(link) =>
        if !link.isActive then TokenRejected(ApiError(403, "This test link has been deactivated"))
        else if link.expiresAt.Some? && link.expiresAt.value < now then
          TokenRejected(ApiError(403, "This test link has expired"))
        else TokenValid(link)
  }

  /** A link accepted now is accepted at every earlier instant, and a link with
      no expiry is accepted at every instant once it is accepted at one. */
  lemma TokenAcceptanceOverTime(token: string, links: string -> Option<TestLink>, now: int, earlier: int)
    requires earlier <= now && VerifyTestToken(token, links, now).TokenValid?
    ensures VerifyTestToken(token, links, earlier).TokenValid?
    ensures links(token).value.expiresAt.None? ==> forall t :: VerifyTestToken(token, links, t).TokenValid?
  {
  }

  // ---------------------------------------------------------------------------
  // Authentication
  // ---------------------------------------------------------------------------

  datatype AuthCheck = Authenticated(userId: string, role: string) | AuthRejected(error: ApiError)

  /** `verifyAuth`: `user` is the signed-in user's id, and `roleOf` the `users`
      table lookup.  A required role that is absent (or empty) admits any role. */
  function VerifyAuth(requiredRole: Option<string>, user: Option<string>, roleOf: string -> Option<string>)
    : (r: AuthCheck)
    ensures user.None? <==> r == AuthRejected(ApiError(401, "Unauthorized"))
    ensures r == AuthRejected(ApiError(404, "User not found")) <==> user.Some? && roleOf(user.value).None?
    ensures r == AuthRejected(ApiError(403, "Forbidden")) <==>
      user.Some? && roleOf(user.value).Some? && requiredRole.Some? && requiredRole.value != ""
      && roleOf(user.value).value != requiredRole.value
    ensures r.Authenticated? ==>
      user == Some(r.userId) && roleOf(r.userId) == Some(r.role)
      && (requiredRole.Some? && requiredRole.value != "" ==> r.role == requiredRole.value)
    ensures user.Some? && roleOf(user.value).Some? && (requiredRole.None? || requiredRole == Some("")) ==>
      r == Authenticated(user.value, roleOf(user.value).value)
  {
    match user
    case None => AuthRejected(ApiError(401, "Unauthorized"))
    case Some(id) =>
      match roleOf(id)
      case None => AuthRejected(ApiError(404, "User not found"))
      case Some(role) =>
        if requiredRole.Some? && requiredRole.value != "" && role != requiredRole.value then
          AuthRejected(ApiError(403, "Forbidden"))
        else Authenticated(id, role)
  }

  // ---------------------------------------------------------------------------
  // Submission ownership
  // ---------------------------------------------------------------------------

  datatype AccessCheck = Allowed | Denied(error: ApiError)

  /** `verifySubmissionAccess`.  `owner` is the submission lookup: `None` when no
      row is found, `Some(None)` when it has no test owner, else the owner's id.
      An admin is let through without a lookup; anyone else must own the test. */
  function VerifySubmissionAccess(userId: string, userRole: string, owner: Option<Option<string>>): (r: AccessCheck)
    ensures userRole == "admin" ==> r == Allowed
    ensures userRole != "admin" ==>
      (r == Denied(ApiError(404, "Submission not found")) <==> owner.None?)
    ensures userRole != "admin" ==>
      (r == Denied(ApiError(403, "Forbidden")) <==> owner.Some? && owner.value != Some(userId))
    ensures r == Allowed <==> userRole == "admin" || owner == Some(Some(userId))
  {
    if userRole == "admin" then Allowed
    else match owner
      case None => Denied(ApiError(404, "Submission not found"))
      case Some(recruiterId) =>
        if recruiterId != Some(userId) then Denied(ApiError(403, "Forbidden")) else Allowed
  }

  /** For admins and recruiters the route guard and `canAccessRecording` agree;
      for any other role the guard still admits the owner of the test, which
      `canAccessRecording` never does. */
  lemma SubmissionAccessAgreesWithRecordingAccess(userId: string, userRole: string, owner: Option<Option<string>>)
    ensures userRole == "admin" || userRole == "recruiter" ==>
      (VerifySubmissionAccess(userId, userRole, owner) == Allowed
       <==> PresignedUrls.CanAccessRecording(userId, userRole, owner))
    ensures userRole != "admin" && userRole != "recruiter" && owner == Some(Some(userId)) ==>
      VerifySubmissionAccess(userId, userRole, owner) == Allowed
      && !PresignedUrls.CanAccessRecording(userId, userRole, owner)
  {
  }
}
