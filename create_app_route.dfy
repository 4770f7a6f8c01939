/**
 * `createAppRoute(options)(routeConfig)`: before the route is registered,
 * the default error responses its options announce (401, 403, 400) are
 * added to the route's responses, where the route declares none for that
 * status. The caller's responses object is changed in place; a route
 * without one gets a new object.
 */
module CreateAppRoute {
  import opened Wrappers
  import opened Authentication

  /** The error body a default response shows as its example. */
  datatype ApiError = ApiError(status: nat, title: string, message: string)

  /** One documented response; the JSON schema every default response uses is not modelled. */
  datatype ResponseConfig = ResponseConfig(summary: Option<string>, description: string, example: Option<ApiError>)

  const DefaultUnauthorizedResponse: ResponseConfig :=
    ResponseConfig(Some("Unauthorized"), "Unauthorized", Some(ApiError(401, "Unauthorized", "Unauthorized")))

  const DefaultForbiddenResponse: ResponseConfig :=
    ResponseConfig(Some("Forbidden"), "Forbidden", Some(ApiError(403, "Forbidden", "Forbidden")))

  const DefaultBadRequestResponse: ResponseConfig :=
    ResponseConfig(Some("Bad Request"), "Incorrect parameters provided",
                   Some(ApiError(400, "Bad Request", "Incorrect parameters provided")))

  /** A route's responses object, keyed by status code; it is shared with whoever built the route config. */
  class ResponsesObject {
    var entries: map<string, ResponseConfig>

    constructor(entries: map<string, ResponseConfig>)
      ensures this.entries == entries
    {
      this.entries := entries;
    }
  }

  /** A middleware of a route: authentication, authorization, or one of the route's own. */
  datatype Middleware =
    | Authenticate(options: Option<AuthenticationOptions>)
    | Authorize(scopes: seq<string>)
    | Custom(name: string)

  /** A route's `middleware`, which may be a single handler or a list. */
  datatype MiddlewareArg = Single(handler: Middleware) | List(handlers: seq<Middleware>)

  /** The OpenAPI security schemes the server registers. */
  datatype SecurityScheme = CookieAuth | OAuth2 | BearerAuth

  /** One security requirement: a scheme and, per alternative, the scopes it needs. */
  datatype SecurityRequirement = SecurityRequirement(scheme: SecurityScheme, scopes: seq<seq<string>>)

  /** The parts of a route config that route creation reads or writes; `rest` stands for every other property. */
  datatype RouteConfig = RouteConfig(
    httpMethod: string,
    path: string,
    responses: Option<ResponsesObject>,
    middleware: Option<MiddlewareArg>,
    security: Option<seq<SecurityRequirement>>,
    rest: map<string, string>)

  datatype AppRouteOptions = AppRouteOptions(
    canThrowUnauthorized: Option<bool>,
    canThrowForbidden: Option<bool>,
    canThrowBadRequest: Option<bool>)

  predicate CanThrowUnauthorized(options: Option<AppRouteOptions>) {
    options.Some? && options.value.canThrowUnauthorized == Some(true)
  }

  predicate CanThrowForbidden(options: Option<AppRouteOptions>) {
    options.Some? && options.value.canThrowForbidden == Some(true)
  }

  predicate CanThrowBadRequest(options: Option<AppRouteOptions>) {
    options.Some? && options.value.canThrowBadRequest == Some(true)
  }

  /** `responses[status] ??= response` for a key that is either absent or holds a response. */
  function SetIfAbsent(responses: map<string, ResponseConfig>, status: string, response: ResponseConfig)
    : (r: map<string, ResponseConfig>)
    ensures status in r && r[status] == if status in responses then responses[status] else response
    ensures forall k :: k != status ==> (k in r <==> k in responses)
    ensures forall k :: k != status && k in responses ==> r[k] == responses[k]
  {
    if status in responses then responses else responses[status := response]
  }

  /**
   * The responses after the three guarded `??=` steps: every declared entry
   * is kept as it is, a default is added exactly for an announced status the
   * route leaves undeclared, and nothing else appears.
   */
  function WithDefaultResponses(options: Option<AppRouteOptions>, responses: map<string, ResponseConfig>)
    : (r: map<string, ResponseConfig>)
    ensures forall status :: status in responses ==> status in r && r[status] == responses[status]
    ensures "401" in r <==> CanThrowUnauthorized(options) || "401" in responses
    ensures "403" in r <==> CanThrowForbidden(options) || "403" in responses
    ensures "400" in r <==> CanThrowBadRequest(options) || "400" in responses
    ensures "401" !in responses && CanThrowUnauthorized(options) ==> r["401"] == DefaultUnauthorizedResponse
    ensures "403" !in responses && CanThrowForbidden(options) ==> r["403"] == DefaultForbiddenResponse
    ensures "400" !in responses && CanThrowBadRequest(options) ==> r["400"] == DefaultBadRequestResponse
    ensures r.Keys <= responses.Keys + {"401", "403", "400"}
  {
    var with401 := if CanThrowUnauthorized(options) then SetIfAbsent(responses, "401", DefaultUnauthorizedResponse) else responses;
    var with403 := if CanThrowForbidden(options) then SetIfAbsent(with401, "403", DefaultForbiddenResponse) else with401;
    if CanThrowBadRequest(options) then SetIfAbsent(with403, "400", DefaultBadRequestResponse) else with403
  }

  /** Adding the defaults a second time changes nothing. */
  lemma WithDefaultResponsesIdempotent(options: Option<AppRouteOptions>, responses: map<string, ResponseConfig>)
    ensures WithDefaultResponses(options, WithDefaultResponses(options, responses)) == WithDefaultResponses(options, responses)
  {
    var once := WithDefaultResponses(options, responses);
    var twice := WithDefaultResponses(options, once);
    assert twice.Keys == once.Keys;
  }

  /**
   * `createAppRoute(options)(config)`: the route is `config` with only its
   * responses replaced. When `config` has a responses object, that same
   * object now holds the defaults (so the caller's object changes too);
   * otherwise a new object holds just the defaults.
   */
  method CreateAppRoute(options: Option<AppRouteOptions>, config: RouteConfig) returns (route: RouteConfig)
    modifies if config.responses.Some? then {config.responses.value} else {}
    ensures route == config.(responses := route.responses)
    ensures route.responses.Some?
    ensures config.responses.Some? ==> route.responses == config.responses
    ensures config.responses.Some?
        ==> route.responses.value.entries == WithDefaultResponses(options, old(config.responses.value.entries))
    ensures config.responses.None?
        ==> fresh(route.responses.value) && route.responses.value.entries == WithDefaultResponses(options, map[])
  {
    var responses: ResponsesObject;
    if config.responses.Some? {
      responses := config.responses.value;
    } else {
      responses := new ResponsesObject(map[]);
    }
    if CanThrowUnauthorized(options) {
      responses.entries := SetIfAbsent(responses.entries, "401", DefaultUnauthorizedResponse);
    }
    if CanThrowForbidden(options) {
      responses.entries := SetIfAbsent(responses.entries, "403", DefaultForbiddenResponse);
    }
    if CanThrowBadRequest(options) {
      responses.entries := SetIfAbsent(responses.entries, "400", DefaultBadRequestResponse);
    }
    route := config.(responses := Some(responses));
  }
}
