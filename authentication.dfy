/**
 * The `Authenticate` middleware of the API server. A request is
 * authenticated from the `eclaut-access-token` cookie (a user) or else from
 * the `Authorization` header (a client), unless an earlier middleware has
 * already decided; the outcome is the application context handed to the next
 * handler, or an `UnauthorizedError`.
 *
 * Verifying a token (the JWT check followed by the schema parse of its
 * claims) is an oracle: it yields the claims or fails. The secret store is
 * one too: each fetch resolves to a secret, to nothing, or rejects. A
 * secret that resolved to nothing makes every undecided request fail: the
 * auth service is created from `jwtSecret.seed` before any token is read
 * (`createAuthService` in `create-auth-service.ts`), and reading `seed` of
 * `undefined` throws a TypeError.
 */
module Authentication {
  import opened Wrappers
  import opened JsStrings

  datatype AuthenticationOptions = AuthenticationOptions(passThrough: Option<bool>)

  /** `options?.passThrough` is truthy. */
  predicate PassThrough(options: Option<AuthenticationOptions>) {
    options.Some? && options.value.passThrough == Some(true)
  }

  datatype JwtSecret = JwtSecret(seed: string)

  /** The claims a user access token must carry. */
  datatype UserClaims = UserClaims(
    userId: string,
    email: string,
    securityGroup: string,
    tenantId: string,
    locationIds: seq<string>)

  /** The claims a client access token must carry; tenant and locations may be missing or null. */
  datatype ClientClaims = ClientClaims(
    clientId: string,
    tenantId: Option<string>,
    locationIds: Option<seq<string>>,
    securityGroup: string)

  /**
   * Token verification under the fetched secret: `None` when the JWT check
   * or the schema parse throws.
   */
  datatype TokenVerifier = TokenVerifier(
    user: (JwtSecret, string) -> Option<UserClaims>,
    client: (JwtSecret, string) -> Option<ClientClaims>)

  datatype AuthType = User | Client

  datatype AuthInfo = AuthInfo(
    userId: Option<string>,
    clientId: Option<string>,
    email: Option<string>,
    securityGroup: string,
    tenantId: string,
    locationIds: seq<string>,
    isElaut: bool,
    authType: AuthType)

  /** The application context; `rest` stands for every other property, which the middleware copies unchanged. */
  datatype AppContext = AppContext(isAuthenticated: Option<bool>, auth: Option<AuthInfo>, rest: map<string, string>)

  /** What the middleware reads from a request: the access-token cookie and the `Authorization` header. */
  datatype Request = Request(accessTokenCookie: Option<string>, authorizationHeader: Option<string>)

  /**
   * `next()` runs with the given context, or the middleware throws: an
   * `UnauthorizedError`, the secret store's rejection, or the TypeError of
   * creating the auth service without a secret.
   */
  datatype Outcome = Next(ctx: AppContext) | Unauthorized(message: string) | SecretRejected | SecretMissing

  /** The header's first `Bearer ` removed, or nothing when the header is missing or empty. */
  function HeaderAccessToken(header: Option<string>): (r: Option<string>)
    ensures r.None? <==> !Truthy(header)
    ensures r.Some? ==> |r.value| <= |header.value|
    ensures r.Some? && (forall j :: !OccursAt(header.value, "Bearer ", j)) ==> r.value == header.value
  {
    if Truthy(header) then Some(ReplaceFirst(header.value, "Bearer ", "")) else None
  }

  /** The context written after a verification failure in pass-through mode. */
  function Unauthenticated(ctx: AppContext): AppContext {
    ctx.(auth := None, isAuthenticated := Some(false))
  }

  /** The identity of a verified user token: every claim, type USER, no client, Elaut by security-group prefix. */
  function UserAuth(c: UserClaims): (a: AuthInfo)
    ensures a.authType == User && a.userId == Some(c.userId) && a.clientId.None? && a.email == Some(c.email)
    ensures a.securityGroup == c.securityGroup && a.tenantId == c.tenantId && a.locationIds == c.locationIds
    ensures a.isElaut <==> StartsWith(ToLowerAscii(c.securityGroup), "elaut")
  {
    AuthInfo(Some(c.userId), None, Some(c.email), c.securityGroup, c.tenantId, c.locationIds,
             StartsWith(ToLowerAscii(c.securityGroup), "elaut"), User)
  }

  /** The identity of a verified client token: type CLIENT, no user, never Elaut, tenant and locations defaulted. */
  function ClientAuth(c: ClientClaims): (a: AuthInfo)
    ensures a.authType == Client && a.userId.None? && a.clientId == Some(c.clientId) && a.email.None?
    ensures a.securityGroup == c.securityGroup && !a.isElaut
    ensures a.tenantId == if c.tenantId.Some? then c.tenantId.value else "NO_TENANT_CLIENT"
    ensures a.locationIds == if c.locationIds.Some? then c.locationIds.value else []
  {
    AuthInfo(None, Some(c.clientId), None, c.securityGroup, c.tenantId.GetOr("NO_TENANT_CLIENT"),
             c.locationIds.GetOr([]), false, Client)
  }

  /** A verification failure: continue unauthenticated in pass-through mode, otherwise reject. */
  function Failure(options: Option<AuthenticationOptions>, ctx: AppContext, message: string): Outcome {
    if PassThrough(options) then Next(Unauthenticated(ctx)) else Unauthorized(message)
  }

  /**
   * The middleware's decision once the secret fetch has resolved. Each
   * `ensures` states one rule of the middleware: an earlier decision stands,
   * an undecided request without a secret fails before any token is read,
   * the cookie is tried first and the header only without a cookie token, a
   * success writes a user or client identity, a failure continues
   * unauthenticated or throws, and no token at all leaves the context as it is.
   */
  function Decide(options: Option<AuthenticationOptions>, verifier: TokenVerifier, secret: Option<JwtSecret>,
                  ctx: AppContext, req: Request): (o: Outcome)
    // an earlier decision, true or false, stands
    ensures ctx.isAuthenticated.Some? ==> o == Next(ctx)
    // without a secret every undecided request throws, whatever its tokens and the options
    ensures o == SecretMissing <==> ctx.isAuthenticated.None? && secret.None?
    // no token at all: the context passes unchanged
    ensures secret.Some? && !Truthy(req.accessTokenCookie) && !Truthy(HeaderAccessToken(req.authorizationHeader))
        ==> o == Next(ctx)
    // the other properties of the context are always carried over
    ensures o.Next? ==> o.ctx.rest == ctx.rest
    // a context that changed was undecided, had a secret, and is now decided
    ensures o.Next? && o.ctx != ctx ==> ctx.isAuthenticated.None? && secret.Some? && o.ctx.isAuthenticated.Some?
    // authenticated exactly when an identity is attached
    ensures o.Next? && ctx.isAuthenticated.None? && o.ctx.isAuthenticated.Some?
        ==> (o.ctx.isAuthenticated == Some(true) <==> o.ctx.auth.Some?)
    // a user identity comes only from a cookie token that verified, with isElaut from its security group
    ensures o.Next? && ctx.isAuthenticated.None? && o.ctx.isAuthenticated == Some(true) && o.ctx.auth.value.authType == User
        ==> (&& secret.Some? && Truthy(req.accessTokenCookie)
             && verifier.user(secret.value, req.accessTokenCookie.value).Some?
             && var c := verifier.user(secret.value, req.accessTokenCookie.value).value;
             && o.ctx.auth.value.userId == Some(c.userId) && o.ctx.auth.value.clientId.None?
             && (o.ctx.auth.value.isElaut <==> StartsWith(ToLowerAscii(c.securityGroup), "elaut")))
    // a client identity comes only from a header token that verified, without a cookie token, and is never Elaut
    ensures o.Next? && ctx.isAuthenticated.None? && o.ctx.isAuthenticated == Some(true) && o.ctx.auth.value.authType == Client
        ==> (&& secret.Some? && !Truthy(req.accessTokenCookie) && Truthy(HeaderAccessToken(req.authorizationHeader))
             && verifier.client(secret.value, HeaderAccessToken(req.authorizationHeader).value).Some?
             && !o.ctx.auth.value.isElaut && o.ctx.auth.value.userId.None?)
    // a rejection happens only without pass-through, and names the token that failed
    ensures o.Unauthorized? ==> !PassThrough(options) && ctx.isAuthenticated.None? && secret.Some?
    ensures o.Unauthorized? && Truthy(req.accessTokenCookie)
        ==> (&& secret.Some? && o.message == "Invalid access token"
             && verifier.user(secret.value, req.accessTokenCookie.value).None?)
    ensures o.Unauthorized? && !Truthy(req.accessTokenCookie)
        ==> (&& secret.Some? && o.message == "Invalid header access token"
             && verifier.client(secret.value, HeaderAccessToken(req.authorizationHeader).value).None?)
    ensures !o.SecretRejected?
  {
    if ctx.isAuthenticated.Some? then Next(ctx)
    else if secret.None? then SecretMissing
    else if Truthy(req.accessTokenCookie) then
      match verifier.user(secret.value, req.accessTokenCookie.value)
      case Some(c) => Next(ctx.(isAuthenticated := Some(true), auth := Some(UserAuth(c))))
      case None => Failure(options, ctx, "Invalid access token")
    else
      var headerToken := HeaderAccessToken(req.authorizationHeader);
      if Truthy(headerToken) then
        match verifier.client(secret.value, headerToken.value)
        case Some(c) => Next(ctx.(isAuthenticated := Some(true), auth := Some(ClientAuth(c))))
        case None => Failure(options, ctx, "Invalid header access token")
      else Next(ctx)
  }

  /** An earlier decision is kept without looking at the request or verifying anything. */
  lemma AlreadyAuthenticatedIgnoresRequest(options: Option<AuthenticationOptions>, v1: TokenVerifier, v2: TokenVerifier,
                                           secret: Option<JwtSecret>, ctx: AppContext, r1: Request, r2: Request)
    requires ctx.isAuthenticated.Some?
    ensures Decide(options, v1, secret, ctx, r1) == Decide(options, v2, secret, ctx, r2) == Next(ctx)
  {
  }

  /**
   * With a cookie token present the header is never examined: requests that
   * differ only in the header, and verifiers that differ only for clients,
   * get the same outcome, even when the cookie token fails.
   */
  lemma CookieTakesPrecedence(options: Option<AuthenticationOptions>, v1: TokenVerifier, v2: TokenVerifier,
                              secret: Option<JwtSecret>, ctx: AppContext, r1: Request, r2: Request)
    requires Truthy(r1.accessTokenCookie) && r1.accessTokenCookie == r2.accessTokenCookie
    requires v1.user == v2.user
    ensures Decide(options, v1, secret, ctx, r1) == Decide(options, v2, secret, ctx, r2)
  {
  }

  /** A user success attaches every claim of the token and marks the request authenticated. */
  lemma UserSuccess(options: Option<AuthenticationOptions>, verifier: TokenVerifier, secret: JwtSecret,
                    ctx: AppContext, req: Request, c: UserClaims)
    requires ctx.isAuthenticated.None? && Truthy(req.accessTokenCookie)
    requires verifier.user(secret, req.accessTokenCookie.value) == Some(c)
    ensures var o := Decide(options, verifier, Some(secret), ctx, req);
      && o.Next? && o.ctx.isAuthenticated == Some(true) && o.ctx.auth.Some?
      && var a := o.ctx.auth.value;
      && a.authType == User && a.userId == Some(c.userId) && a.clientId.None? && a.email == Some(c.email)
      && a.securityGroup == c.securityGroup && a.tenantId == c.tenantId && a.locationIds == c.locationIds
      && (a.isElaut <==> StartsWith(ToLowerAscii(c.securityGroup), "elaut"))
  {
  }

  /** A client success defaults a missing tenant to `NO_TENANT_CLIENT` and missing locations to none. */
  lemma ClientSuccess(options: Option<AuthenticationOptions>, verifier: TokenVerifier, secret: JwtSecret,
                      ctx: AppContext, req: Request, c: ClientClaims)
    requires ctx.isAuthenticated.None? && !Truthy(req.accessTokenCookie)
    requires Truthy(HeaderAccessToken(req.authorizationHeader))
    requires verifier.client(secret, HeaderAccessToken(req.authorizationHeader).value) == Some(c)
    ensures var o := Decide(options, verifier, Some(secret), ctx, req);
      && o.Next? && o.ctx.isAuthenticated == Some(true) && o.ctx.auth.Some?
      && var a := o.ctx.auth.value;
      && a.authType == Client && a.userId.None? && a.clientId == Some(c.clientId) && !a.isElaut
      && a.securityGroup == c.securityGroup
      && (c.tenantId.Some? ==> a.tenantId == c.tenantId.value)
      && (c.tenantId.None? ==> a.tenantId == "NO_TENANT_CLIENT")
      && (c.locationIds.Some? ==> a.locationIds == c.locationIds.value)
      && (c.locationIds.None? ==> a.locationIds == [])
  {
  }

  /**
   * A token that fails verification lets the request continue with no
   * identity and `isAuthenticated` false in pass-through mode, and is
   * rejected otherwise.
   */
  lemma FailureOutcome(options: Option<AuthenticationOptions>, verifier: TokenVerifier, secret: JwtSecret,
                       ctx: AppContext, req: Request)
    requires ctx.isAuthenticated.None?
    requires || (Truthy(req.accessTokenCookie) && verifier.user(secret, req.accessTokenCookie.value).None?)
             || (!Truthy(req.accessTokenCookie) && Truthy(HeaderAccessToken(req.authorizationHeader))
                 && verifier.client(secret, HeaderAccessToken(req.authorizationHeader).value).None?)
    ensures var o := Decide(options, verifier, Some(secret), ctx, req);
      && (PassThrough(options) ==> o == Next(ctx.(auth := None, isAuthenticated := Some(false))))
      && (!PassThrough(options) ==> o.Unauthorized?)
  {
  }

  /** A header of exactly `Bearer ` carries no token. */
  lemma BareBearerIsNoToken()
    ensures !Truthy(HeaderAccessToken(Some("Bearer ")))
  {
    ReplaceFirstOfPrefix("Bearer ", "Bearer ");
  }

  /** A header starting with `Bearer ` yields the rest of it as the token. */
  lemma BearerPrefixStripped(header: string)
    requires StartsWith(header, "Bearer ")
    ensures HeaderAccessToken(Some(header)) == Some(header[7..])
  {
    ReplaceFirstOfPrefix(header, "Bearer ");
  }

  /** A header without `Bearer ` anywhere is the token itself. */
  lemma HeaderWithoutBearer(header: string)
    requires header != ""
    requires forall j :: !OccursAt(header, "Bearer ", j)
    ensures HeaderAccessToken(Some(header)) == Some(header)
  {
    ReplaceFirstAbsent(header, "Bearer ");
  }

  /** One fetch of the secret store: it resolves to the secret or to `undefined` (`None`), or it rejects. */
  datatype SecretFetch = Resolved(value: Option<JwtSecret>) | Rejected

  /**
   * One `Authenticate(options)` instance: the options it was created with
   * and the secret it caches across requests.
   */
  class AuthenticateMiddleware {
    const options: Option<AuthenticationOptions>
    var secret: Option<JwtSecret>
    /** How many fetches resolved to a secret. */
    ghost var secretsFetched: nat

    /** The store is fetched successfully at most once: exactly once when a secret is cached, never otherwise. */
    ghost predicate Valid()
      reads this
    {
      secretsFetched == if secret.Some? then 1 else 0
    }

    constructor(options: Option<AuthenticationOptions>)
      ensures this.options == options && secret.None?
      ensures Valid()
    {
      this.options := options;
      secret := None;
      secretsFetched := 0;
    }

    /**
     * `getSecret`: a cached secret is returned without fetching; otherwise
     * the store is fetched and its answer kept. A rejected fetch rejects
     * (`None`) and keeps nothing.
     */
    method GetSecret(fetch: SecretFetch) returns (r: Option<Option<JwtSecret>>)
      requires Valid()
      modifies this
      ensures Valid()
      ensures old(secret).Some? ==> secret == old(secret) && r == Some(old(secret))
      ensures old(secret).None? && fetch.Resolved? ==> secret == fetch.value && r == Some(fetch.value)
      ensures old(secret).None? && fetch.Rejected? ==> secret.None? && r.None?
    {
      if secret.Some? {
        return Some(secret);
      }
      match fetch {
        case Rejected =>
          r := None;
        case Resolved(v) =>
          secret := v;
          if v.Some? {
            secretsFetched := secretsFetched + 1;
          }
          r := Some(v);
      }
    }

    /**
     * The middleware on one request: the secret is obtained first, even
     * when the request turns out to be already authenticated, and then the
     * decision is taken. A fetch that resolved to nothing caches nothing and
     * makes an undecided request throw.
     */
    method Handle(fetch: SecretFetch, verifier: TokenVerifier, ctx: AppContext, req: Request) returns (o: Outcome)
      requires Valid()
      modifies this
      ensures Valid()
      ensures old(secret).Some? ==> secret == old(secret) && o == Decide(options, verifier, secret, ctx, req)
      ensures old(secret).None? && fetch.Resolved?
          ==> secret == fetch.value && o == Decide(options, verifier, fetch.value, ctx, req)
      ensures old(secret).None? && fetch.Rejected? ==> secret.None? && o == SecretRejected
      ensures old(secret).None? && fetch == Resolved(None) && ctx.isAuthenticated.None? ==> o == SecretMissing
    {
      var jwtSecret := GetSecret(fetch);
      if jwtSecret.None? {
        return SecretRejected;
      }
      o := Decide(options, verifier, jwtSecret.value, ctx, req);
    }
  }
}
