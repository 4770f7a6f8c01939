/**
 * `createPrivateAppRoute(claims, options)(routeConfig)`: a route that needs
 * an authenticated caller holding `claims`. Authentication and authorization
 * run before the route's own middleware, the route documents the three
 * security schemes, and the 401 and 403 responses are always announced.
 */
module CreatePrivateAppRoute {
  import opened Wrappers
  import opened Authentication
  import opened CreateAppRoute

  /** The authentication options plus whether the route may answer 400. */
  datatype PrivateRouteOptions = PrivateRouteOptions(passThrough: Option<bool>, canThrowBadRequest: Option<bool>)

  /** The caller's `middleware`: nothing, the list itself, or the single handler as a list. */
  function NormalizeMiddleware(arg: Option<MiddlewareArg>): (ms: seq<Middleware>)
    ensures arg.None? ==> ms == []
    ensures arg.Some? && arg.value.List? ==> ms == arg.value.handlers
    ensures arg.Some? && arg.value.Single? ==> ms == [arg.value.handler]
  {
    match arg
    case None => []
    case Some(List(handlers)) => handlers
    case Some(Single(handler)) => [handler]
  }

  /** What `Authenticate(options)` reads of the options: `passThrough`. */
  function AuthOptions(options: Option<PrivateRouteOptions>): Option<AuthenticationOptions> {
    match options
    case None => None
    case Some(o) => Some(AuthenticationOptions(o.passThrough))
  }

  /** `{canThrowUnauthorized: true, canThrowForbidden: true, ...options}`. */
  function MergedOptions(options: Option<PrivateRouteOptions>): (merged: AppRouteOptions)
    ensures CanThrowUnauthorized(Some(merged)) && CanThrowForbidden(Some(merged))
    ensures CanThrowBadRequest(Some(merged)) <==> options.Some? && options.value.canThrowBadRequest == Some(true)
  {
    AppRouteOptions(Some(true), Some(true), if options.Some? then options.value.canThrowBadRequest else None)
  }

  /** The three security requirements, each needing `claims`. */
  function PrivateSecurity(claims: seq<string>): seq<SecurityRequirement> {
    [SecurityRequirement(CookieAuth, [claims]), SecurityRequirement(OAuth2, [claims]),
     SecurityRequirement(BearerAuth, [claims])]
  }

  /**
   * The config handed to `createAppRoute`: the caller's config with its
   * security replaced by the three schemes and its middleware preceded by
   * authentication and then authorization for `claims`.
   */
  function PrivateRouteConfig(claims: seq<string>, options: Option<PrivateRouteOptions>, config: RouteConfig)
    : (r: RouteConfig)
    ensures r.httpMethod == config.httpMethod && r.path == config.path
    ensures r.responses == config.responses && r.rest == config.rest
    ensures r.middleware.Some? && r.middleware.value.List?
    ensures var ms := r.middleware.value.handlers;
      && |ms| == 2 + |NormalizeMiddleware(config.middleware)|
      && ms[0] == Authenticate(AuthOptions(options))
      && ms[1] == Authorize(claims)
      && ms[2..] == NormalizeMiddleware(config.middleware)
    ensures r.security.Some? && |r.security.value| == 3
    ensures forall k :: 0 <= k < 3 ==> r.security.value[k].scopes == [claims]
    ensures r.security.value[0].scheme == CookieAuth && r.security.value[1].scheme == OAuth2
      && r.security.value[2].scheme == BearerAuth
  {
    config.(
      security := Some(PrivateSecurity(claims)),
      middleware := Some(List([Authenticate(AuthOptions(options)), Authorize(claims)]
                              + NormalizeMiddleware(config.middleware))))
  }

  /** A claims list that is not passed is empty. */
  function ClaimsOrDefault(claims: Option<seq<string>>): seq<string> {
    claims.GetOr([])
  }

  /**
   * `createPrivateAppRoute(claims, options)(config)`: `createAppRoute` with
   * 401 and 403 always on and 400 as `options` says, applied to the private
   * config. The caller's responses object, if any, receives the defaults.
   */
  method CreatePrivateAppRoute(claims: Option<seq<string>>, options: Option<PrivateRouteOptions>, config: RouteConfig)
    returns (route: RouteConfig)
    modifies if config.responses.Some? then {config.responses.value} else {}
    ensures route == PrivateRouteConfig(ClaimsOrDefault(claims), options, config).(responses := route.responses)
    ensures route.responses.Some?
    ensures config.responses.Some? ==> route.responses == config.responses
    ensures config.responses.Some?
        ==> route.responses.value.entries
            == WithDefaultResponses(Some(MergedOptions(options)), old(config.responses.value.entries))
    ensures config.responses.None?
        ==> (&& fresh(route.responses.value)
             && route.responses.value.entries == WithDefaultResponses(Some(MergedOptions(options)), map[]))
  {
    var privateConfig := PrivateRouteConfig(ClaimsOrDefault(claims), options, config);
    route := CreateAppRoute.CreateAppRoute(Some(MergedOptions(options)), privateConfig);
  }

  /** A private route always documents 401 and 403, keeping any response the route declares for them. */
  lemma PrivateRouteAnnouncesAuthErrors(options: Option<PrivateRouteOptions>, responses: map<string, ResponseConfig>)
    ensures var r := WithDefaultResponses(Some(MergedOptions(options)), responses);
      && "401" in r && "403" in r
      && ("401" !in responses ==> r["401"] == DefaultUnauthorizedResponse)
      && ("403" !in responses ==> r["403"] == DefaultForbiddenResponse)
      && ("400" in r <==> "400" in responses || (options.Some? && options.value.canThrowBadRequest == Some(true)))
  {
  }
}
