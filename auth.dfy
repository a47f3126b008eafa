/** Cookie-based bearer-token authentication (lambda/utils/auth.ts) and the
    pieces of it the mutating handlers share. The cookie parser and the token
    verifier live in code that is not part of this model; they enter as the
    parser's result and as a function parameter. */
module Auth {
  import opened Wrappers

  /** Cookie name to cookie value, as the cookie parser returns it. */
  type CookieMap = map<string, string>

  /** The process configuration the verifier is called with (`USER_POOL_ID`,
      `REGION`); either may be unset. */
  datatype Config = Config(userPoolId: Option<string>, region: Option<string>)

  /** The arguments of one `verifyToken(token, userPoolId, region)` call. */
  datatype VerifyRequest = VerifyRequest(token: Option<string>, userPoolId: Option<string>, region: Option<string>)

  /** The verified claims the handlers use: the subject, which may be absent. */
  datatype Jwt = Jwt(sub: Option<string>)

  /** How the awaited `verifyToken` call settles: with claims, with a nullish
      value, or by throwing. */
  datatype Verification = Verified(jwt: Jwt) | Nullish | Threw(error: string)

  /** `cookies.token`. */
  function TokenOf(cookies: CookieMap): (t: Option<string>)
    ensures t.Some? <==> "token" in cookies
    ensures t.Some? ==> t.value == cookies["token"]
  {
    if "token" in cookies then Some(cookies["token"]) else None
  }

  /** The verifier call every caller makes: the cookie's token, the pool id
      and the region, unmodified. */
  function VerifyRequestFor(cookies: CookieMap, config: Config): (req: VerifyRequest)
    ensures req.token == TokenOf(cookies)
    ensures req.userPoolId == config.userPoolId && req.region == config.region
  {
    VerifyRequest(TokenOf(cookies), config.userPoolId, config.region)
  }

  /** `!cookies.token`: no token, or the empty token. */
  predicate LacksToken(cookies: CookieMap) {
    TokenOf(cookies) == None || TokenOf(cookies) == Some("")
  }

  /** `authenticate(event)`: no cookies or no usable token gives `null`
      without consulting the verifier; otherwise the verifier's answer is
      passed through, and a verifier that throws also gives `null`. */
  function Authenticate(cookies: Option<CookieMap>, config: Config, verify: VerifyRequest -> Verification): (r: Option<Jwt>)
    ensures cookies.None? ==> r.None?
    ensures cookies.Some? && LacksToken(cookies.value) ==> r.None?
    ensures r.Some? ==> cookies.Some? && !LacksToken(cookies.value)
                        && verify(VerifyRequestFor(cookies.value, config)) == Verified(r.value)
    ensures cookies.Some? && !LacksToken(cookies.value) ==>
              (r.Some? <==> verify(VerifyRequestFor(cookies.value, config)).Verified?)
  {
    match cookies
    case None => None
    case Some(c) =>
      if LacksToken(c) then None
      else
        match verify(VerifyRequestFor(c, config))
        case Verified(jwt) => Some(jwt)
        case Nullish => None
        case Threw(_) => None
  }

  /** Without a usable token the verifier is never consulted: the result is
      the same whatever the verifier would have answered. */
  lemma AuthenticateWithoutTokenIgnoresVerifier(cookies: Option<CookieMap>, config: Config,
                                                v1: VerifyRequest -> Verification, v2: VerifyRequest -> Verification)
    requires cookies.None? || LacksToken(cookies.value)
    ensures Authenticate(cookies, config, v1) == Authenticate(cookies, config, v2) == None
  {
  }

  /** With a usable token, the only thing the result depends on is the
      verifier's answer to that one request. */
  lemma AuthenticateDependsOnOneCall(cookies: CookieMap, config: Config,
                                     v1: VerifyRequest -> Verification, v2: VerifyRequest -> Verification)
    requires v1(VerifyRequestFor(cookies, config)) == v2(VerifyRequestFor(cookies, config))
    ensures Authenticate(Some(cookies), config, v1) == Authenticate(Some(cookies), config, v2)
  {
  }

  /** `verifiedJwt?.sub`: the subject of a verification that did not throw. */
  function SubjectOf(v: Verification): (sub: Option<string>)
    requires !v.Threw?
    ensures sub.Some? ==> v.Verified? && v.jwt.sub == sub
    ensures v.Verified? ==> sub == v.jwt.sub
    ensures v.Nullish? ==> sub.None?
  {
    match v
    case Verified(jwt) => jwt.sub
    case Nullish => None
  }
}
