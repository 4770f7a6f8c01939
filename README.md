# Machine ingestion and API route plumbing, modelled in Dafny

This project models two parts of the eclaut backend.

**The machine-message ingestion path** (`machine-sqs-lambda`) has three parts:

- **The decoder** `getMachineMessagesFromSQSMessage`. It turns one SQS message into domain events. It reads the cabinet and playfield ids from the MQTT topic by position. It unwraps the three shapes of the `message` field and stamps the ids onto every raw event. It collapses every failure to no events.
- **The Lambda handler.** It hands each record's events to the machine-message service, one after another. It reports the records with a failed event in the partial-batch failure report.
- **The local poller callbacks.** `handleSQSMessage` returns true only if the message had events and all of them were handled. `handleSQSMessageError` passes each event to `handleFailedMessage` and stops at the first rejection.

**The API server's request and route plumbing** has five parts:

- **The `Authenticate` middleware.** It keeps an earlier decision and tries the cookie token before the `Authorization` header. On failure it either passes through or rejects. It caches the JWT secret.
- **`createAppRoute`.** It adds the default 401/403/400 responses into the route's own responses object, in place.
- **`createPrivateAppRoute`.** It assembles the middleware list, the security list and the options.
- **The statistics date-window check** and the global statistics route.
- **The query transforms.** These are the playfield listings' camelCase→snake_case `orderBy` rewrite and the user-listing query schema. The schema turns flag strings into booleans and bounds `limit` and `offset`.

Code that depends on outside systems is abstracted:

- **Oracles.** JSON parsing, `MachineMessage.fromMachineInput`, the machine-message service, JWT verification with the claim schema, the secret store and `Number(...)` are parameters. Each is a function value that yields a result or `None` for "throws". The Lambda Service oracle sees the messages it has already handled, so a stateful service is covered.
- **Handler results.** Each handler returns the exact sequence of events it handed to the service. Its contract ties that sequence, and the answer, to specification functions.
- **Imperative code stays imperative.** The failure list, the in-place `responses` object, the cached secret and the in-place `orderBy` rules are loops, classes and fields.

## Model

| member | source | states |
|---|---|---|
| `JsStrings.IndexOf` | api/functions/machine-sqs-lambda/src/sqs-message.ts:10 | `indexOf`: -1 exactly when the element is absent, otherwise a position holding it with no earlier occurrence |
| `JsStrings.Split` | api/functions/machine-sqs-lambda/src/sqs-message.ts:15 | `split('/')` gives at least one part, exactly one when there is no separator, and no part contains the separator |
| `JsStrings.JoinSplit` | api/functions/machine-sqs-lambda/src/sqs-message.ts:15 | joining the parts of a split with the separator gives back the original string |
| `JsStrings.SplitJoin` | api/functions/machine-sqs-lambda/src/sqs-message.ts:15 | splitting a join of separator-free parts gives back the parts |
| `JsStrings.SplitHead` | api/functions/machine-sqs-lambda/src/sqs-message.ts:19 | the first part is the text before the first separator, or the whole string |
| `JsStrings.SplitSecond` | api/functions/machine-sqs-lambda/src/sqs-message.ts:16 | the second part is the text between the first and the next separator (or the end) |
| `JsStrings.IndexOfSubstring` | api/server/src/middlewares/authentication.ts:50 | `indexOf` of a string pattern finds an occurrence at or after the start, and none occurs before it |
| `JsStrings.ReplaceFirst` | api/server/src/middlewares/authentication.ts:50 | `replace` with a string pattern leaves a string without the pattern unchanged, and otherwise replaces exactly the first occurrence |
| `JsStrings.ReplaceFirstOfPrefix` | api/server/src/middlewares/authentication.ts:50 | replacing a leading pattern by nothing removes exactly that prefix |
| `JsStrings.ReplaceFirstAbsent` | api/server/src/middlewares/authentication.ts:50 | replacing a pattern that does not occur leaves the string unchanged |
| `JsStrings.LowerChar` | api/server/src/routes/playfield.routes.ts:122 | lower-casing a character never yields a capital; a capital becomes its own lower-case letter (code point plus 32) and every other character is kept |
| `JsStrings.ToLowerAscii` | api/server/src/routes/playfield.routes.ts:122 | `toLowerCase` keeps the length, lower-cases each character in place and leaves no capital |
| `JsStrings.ToLowerAsciiConcat` | api/server/src/routes/playfield.routes.ts:122 | lower-casing a concatenation is the concatenation of the lower-cased parts |
| `JsStrings.ToLowerAsciiIdentity` | api/server/src/routes/playfield.routes.ts:122 | a string without capitals is unchanged by lower-casing |
| `JsValues.Get` | api/functions/machine-sqs-lambda/src/sqs-message.ts:36-39 | a property read throws exactly on `undefined`/`null`, yields the field of an object and `undefined` when it is missing |
| `MachineMessageService.AllSucceedExtend` | api/functions/machine-sqs-lambda/src/handler.ts:40-52 | handling one more event keeps "all succeeded" exactly when that event's call resolved to true |
| `SqsMessage.GetPropertyFromMqttTopic` | api/functions/machine-sqs-lambda/src/sqs-message.ts:9-12 | the directory after the first occurrence of the property, `null` past the end, and the first directory when the property is absent |
| `SqsMessage.AbsentPropertyReadsFirstDirectory` | api/functions/machine-sqs-lambda/src/sqs-message.ts:10-11 | for a topic lacking the property, the lookup answers the cabinet directory instead of `null` |
| `SqsMessage.GetPropertyAfter` | api/functions/machine-sqs-lambda/src/sqs-message.ts:9-12 | the intended lookup: a value exactly when the property occurs before the last directory, namely the directory right after its first occurrence |
| `SqsMessage.GetPropertiesFromMqttTopic` | api/functions/machine-sqs-lambda/src/sqs-message.ts:14-25 | the cabinet id is the topic text before the first `/` (the whole topic without `/`), the playfield id the text up to the next `/`, and missing without `/` |
| `SqsMessage.TopicOfScenario` | api/functions/machine-sqs-lambda/src/sqs-message.ts:14-25 | a topic `cabinet/playfield/rest` yields that cabinet and playfield |
| `SqsMessage.BodyText` | api/functions/machine-sqs-lambda/src/sqs-message.ts:28-35 | no text exactly when both `Body` and `body` are missing or empty; otherwise `Body` when it is non-empty, else `body` |
| `SqsMessage.RawEvents` | api/functions/machine-sqs-lambda/src/sqs-message.ts:38-45 | reading `message.e` throws on a missing or null message; a nested `{e: [...]}` yields its array, an array is kept, anything else becomes a one-element list |
| `SqsMessage.WithProps` | api/functions/machine-sqs-lambda/src/sqs-message.ts:46-50 | the stamped event holds `c` = cabinet id and `p` = playfield id and every other own property of the raw event unchanged |
| `SqsMessage.StampAll` | api/functions/machine-sqs-lambda/src/sqs-message.ts:46-50 | one stamped event per raw event, in the same order |
| `SqsMessage.EmptyBodyDecodesToNothing` | api/functions/machine-sqs-lambda/src/sqs-message.ts:28-30 | a message without a non-empty body decodes to no events, whatever the parser says |
| `SqsMessage.DecodeFailuresYieldNothing` | api/functions/machine-sqs-lambda/src/sqs-message.ts:32-56 | a syntax error, a null or non-object body, a non-string topic, a missing or null message, or a throwing `fromMachineInput` all give no events |
| `SqsMessage.DecodeWellFormed` | api/functions/machine-sqs-lambda/src/sqs-message.ts:27-57 | for a well-formed body the normaliser receives the message's raw events stamped with the topic ids, same length and order, and its answer is the result |
| `SqsMessage.MachineInputs` | api/functions/machine-sqs-lambda/src/sqs-message.ts:32-50 | a list for `fromMachineInput` exists exactly when the body parses to an object with a string `topic` and a `message` that is neither missing nor `null` |
| `SqsMessage.GetMachineMessagesFromSqsMessage` | api/functions/machine-sqs-lambda/src/sqs-message.ts:27-57 | events come only from a body that decoded all the way through `fromMachineInput`, and such a body yields exactly what `fromMachineInput` returned |
| `SqsMessage.InputsOfBody` | api/functions/machine-sqs-lambda/src/sqs-message.ts:33-50 | a parsed body with a string topic and a message yields the stamped raw events of that message |
| `SqsMessage.NestedTwoEvents` | api/functions/machine-sqs-lambda/src/sqs-message.ts:38-50 | a nested message with two events yields two inputs in order, each stamped with the topic's cabinet and playfield |
| `SqsMessage.SingleEventWithTypeString` | api/functions/machine-sqs-lambda/test/unit/handler.test.ts:19-29 | an event whose `e` is its type string is not taken for the nested form and yields one stamped input |
| `Handler.Report` | api/functions/machine-sqs-lambda/src/handler.ts:28-32 | the pushed entries are never more than the records, and there are none exactly when no record is flagged |
| `Handler.FailureReport` | api/functions/machine-sqs-lambda/src/handler.ts:54-62 | the batch's report is never longer than the batch, and it is empty exactly when no record failed |
| `Handler.ProcessRecord` | api/functions/machine-sqs-lambda/src/handler.ts:35-53 | every decoded event of the record is handed to the service in order, and the result is true exactly when every call resolved to true |
| `Handler.ProcessEvents` | api/functions/machine-sqs-lambda/src/handler.ts:38-52 | the loop hands every event to the service in order, and its result is true exactly when every call resolved to true |
| `Handler.FailedFlags` | api/functions/machine-sqs-lambda/src/handler.ts:54-56 | one flag per record, set exactly when that record failed |
| `Handler.HandleBatch` | api/functions/machine-sqs-lambda/src/handler.ts:24-62 | the service receives all records' events record after record, and `batchItemFailures` is one entry per failed record, in record order |
| `Handler.AllMessagesStep` | api/functions/machine-sqs-lambda/src/handler.ts:34-36 | one more record appends exactly its own decoded events to what the service has seen |
| `Handler.ReportStep` | api/functions/machine-sqs-lambda/src/handler.ts:54-56 | one more record appends its entry to the report exactly when it is flagged |
| `Handler.FlagAt` | api/functions/machine-sqs-lambda/src/handler.ts:54-56 | a record is flagged exactly when its task's result was false |
| `Handler.ReportMembership` | api/functions/machine-sqs-lambda/src/handler.ts:28-56 | an id is in the report exactly when some flagged record carries it |
| `Handler.ReportLength` | api/functions/machine-sqs-lambda/src/handler.ts:28-56 | the report has one entry per flagged record and never more entries than records |
| `Handler.FailedIndices` | api/functions/machine-sqs-lambda/src/handler.ts:54-56 | the set of positions of the records that failed |
| `Handler.ReportedIffFailed` | api/functions/machine-sqs-lambda/src/handler.ts:34-62 | a `messageId` is reported exactly when a record carrying it had an event that resolved to false or rejected |
| `Handler.ReportCountsFailedRecords` | api/functions/machine-sqs-lambda/src/handler.ts:34-62 | the report length equals the number of failed records and is at most the batch size |
| `Handler.EmptyRecordNotReported` | api/functions/machine-sqs-lambda/src/handler.ts:38-56 | a record that decodes to no events is never reported |
| `LocalHandler.HandleSqsMessage` | api/functions/machine-sqs-lambda/src/handler.local.ts:23-53 | every decoded event is handed to the service in order, and the answer is true exactly when there were events and every call resolved to true |
| `LocalHandler.HandleEvents` | api/functions/machine-sqs-lambda/src/handler.local.ts:30-52 | the loop hands every event to the service in order, and the answer is true exactly when every call resolved to true |
| `LocalHandler.FirstThrowFrom` | api/functions/machine-sqs-lambda/src/handler.local.ts:64-66 | the first position whose failed-message call rejects, or -1 when none does |
| `LocalHandler.HandleFailedEvents` | api/functions/machine-sqs-lambda/src/handler.local.ts:64-66 | the loop hands the events over in order up to and including the first rejecting one, or all of them, and rejects exactly when one did |
| `LocalHandler.HandleSqsMessageError` | api/functions/machine-sqs-lambda/src/handler.local.ts:55-67 | the events up to and including the first rejecting one are handed over, or all of them when none rejects, and the call rejects exactly when one did |
| `Authentication.Decide` | api/server/src/middlewares/authentication.ts:33-185 | an earlier decision stands; otherwise a missing secret throws (`createAuthService` reads `jwtSecret.seed`), and exactly then the outcome is the secret error; with a secret, no token leaves the context unchanged; identities come only from a verified cookie (user) or, without a cookie, a verified header (client); a rejection happens only without pass-through and names the failed token |
| `Authentication.HeaderAccessToken` | api/server/src/middlewares/authentication.ts:48-51 | no header token exactly when the header is missing or empty; otherwise the header with its first `Bearer ` removed, never longer, and the whole header when it has no `Bearer ` |
| `Authentication.UserAuth` | api/server/src/middlewares/authentication.ts:95-110 | the attached user carries the claims' ids, email, security group, tenant and locations, type USER, no client id, and `isElaut` exactly when the lower-cased security group starts with `elaut` |
| `Authentication.ClientAuth` | api/server/src/middlewares/authentication.ts:152-164 | the attached client carries type CLIENT, its client id and security group, no user id or email, `isElaut` false, tenant defaulting to `NO_TENANT_CLIENT` and locations to none |
| `Authentication.AlreadyAuthenticatedIgnoresRequest` | api/server/src/middlewares/authentication.ts:40-43 | with `isAuthenticated` defined, the outcome is the unchanged context whatever the request and verifier |
| `Authentication.CookieTakesPrecedence` | api/server/src/middlewares/authentication.ts:72-128 | with a cookie token, the header and the client verifier do not affect the outcome, even when the cookie token fails |
| `Authentication.UserSuccess` | api/server/src/middlewares/authentication.ts:95-110 | a verified cookie token attaches all user claims, type USER, no client id, and `isElaut` exactly when the lower-cased security group starts with `elaut` |
| `Authentication.ClientSuccess` | api/server/src/middlewares/authentication.ts:152-164 | a verified header token attaches the client with type CLIENT, `isElaut` false, tenant defaulting to `NO_TENANT_CLIENT` and locations to none |
| `Authentication.FailureOutcome` | api/server/src/middlewares/authentication.ts:113-181 | a failed token continues with no identity and `isAuthenticated` false in pass-through mode and is rejected otherwise |
| `Authentication.BareBearerIsNoToken` | api/server/src/middlewares/authentication.ts:48-51 | a header of exactly `Bearer ` carries no token |
| `Authentication.BearerPrefixStripped` | api/server/src/middlewares/authentication.ts:48-51 | a header starting with `Bearer ` yields the rest as the token |
| `Authentication.HeaderWithoutBearer` | api/server/src/middlewares/authentication.ts:48-51 | a non-empty header without `Bearer ` is the token itself |
| `Authentication.AuthenticateMiddleware.constructor` | api/server/src/middlewares/authentication.ts:20-21 | a new middleware instance has its options and no cached secret |
| `Authentication.AuthenticateMiddleware.GetSecret` | api/server/src/middlewares/authentication.ts:23-31 | a cached secret is returned without fetching; otherwise the fetched secret is returned and cached, and a rejected fetch caches nothing; at most one fetch ever yields the cached secret |
| `Authentication.AuthenticateMiddleware.Handle` | api/server/src/middlewares/authentication.ts:33-69 | the secret is obtained first, even for an already authenticated request, and the outcome is the decision under that secret; a secret store that resolves to nothing makes every undecided request throw |
| `CreateAppRoute.SetIfAbsent` | api/server/src/utils/create-app-route.ts:58-68 | `??=` leaves a declared response in place and otherwise sets the default; every other status is untouched |
| `CreateAppRoute.WithDefaultResponses` | api/server/src/utils/create-app-route.ts:56-68 | declared responses are never overwritten; 401/403/400 are present afterwards exactly when announced or declared, with the default when undeclared; no other status appears |
| `CreateAppRoute.WithDefaultResponsesIdempotent` | api/server/src/utils/create-app-route.ts:58-68 | adding the defaults twice is the same as once |
| `CreateAppRoute.CreateAppRoute` | api/server/src/utils/create-app-route.ts:42-74 | the route is the config with only `responses` replaced; the caller's responses object itself now holds the defaults, or a new object holds them when there was none |
| `CreatePrivateAppRoute.NormalizeMiddleware` | api/server/src/utils/create-private-app-route.ts:28-32 | missing middleware becomes an empty list, a list is kept, a single handler becomes a one-element list |
| `CreatePrivateAppRoute.MergedOptions` | api/server/src/utils/create-private-app-route.ts:34-38 | 401 and 403 are always announced, and 400 exactly when the options ask for it |
| `CreatePrivateAppRoute.PrivateRouteConfig` | api/server/src/utils/create-private-app-route.ts:39-58 | middleware is authenticate, then authorize for the claims, then the caller's in order; security is exactly cookie, oauth2, bearer, each with the claims; the rest of the config is kept |
| `CreatePrivateAppRoute.CreatePrivateAppRoute` | api/server/src/utils/create-private-app-route.ts:13-59 | the private config with claims defaulting to none, passed through `createAppRoute` with the merged options |
| `CreatePrivateAppRoute.PrivateRouteAnnouncesAuthErrors` | api/server/src/utils/create-private-app-route.ts:34-38 | a private route always documents 401 and 403, keeping declared ones, and 400 only when declared or asked for |
| `StatisticsRoutes.ValidateDatesAndRange` | api/server/src/routes/statistics.routes.ts:49-65 | passes exactly when one of end date and range is given and the start is not after the end (or now); otherwise the first failing check's message |
| `StatisticsRoutes.ValidationIgnoresNowWithEndDate` | api/server/src/routes/statistics.routes.ts:62-64 | with an end date the current time does not matter |
| `StatisticsRoutes.ValidationMonotoneInStart` | api/server/src/routes/statistics.routes.ts:62-64 | an earlier start never turns a passing window into a failing one |
| `StatisticsRoutes.GlobalStatistics` | api/server/src/routes/statistics.routes.ts:69-78 | not-found exactly when validation passes, and otherwise the validation message |
| `PlayfieldRoutes.InsertUnderscores` | api/server/src/routes/playfield.routes.ts:121 | the global replace never makes a name shorter; what it inserts at each match is stated by the lemmas below |
| `PlayfieldRoutes.InsertUnderscoresOnlyInserts` | api/server/src/routes/playfield.routes.ts:121 | dropping all underscores from the result gives the same as from the input: only underscores are added |
| `PlayfieldRoutes.NoBoundaryNoChange` | api/server/src/routes/playfield.routes.ts:121 | a name with no lower-case letter followed by a capital is left as it is |
| `PlayfieldRoutes.CapitalRunGetsOneUnderscore` | api/server/src/routes/playfield.routes.ts:121 | matches do not overlap: a run of capitals after a lower-case letter gets one underscore, before the run |
| `PlayfieldRoutes.InsertUnderscoresConcat` | api/server/src/routes/playfield.routes.ts:121 | cutting a name anywhere except between a lower-case letter and a capital lets each side be rewritten on its own |
| `PlayfieldRoutes.ConcatAfterFirstStep` | api/server/src/routes/playfield.routes.ts:121 | the same after one scan step over at least two characters |
| `PlayfieldRoutes.BoundaryGetsUnderscore` | api/server/src/routes/playfield.routes.ts:121 | at every lower-case letter followed by a capital, wherever it is in the name, `_` goes between the two, and both sides are rewritten on their own |
| `PlayfieldRoutes.DigitsNeverTrigger` | api/server/src/routes/playfield.routes.ts:121 | a digit between a lower-case letter and a capital prevents the insertion |
| `PlayfieldRoutes.ToSnakeCase` | api/server/src/routes/playfield.routes.ts:120-122 | the rewritten column name has no capitals and is never shorter; the lemmas below say where underscores go |
| `PlayfieldRoutes.SnakeCaseAtBoundary` | api/server/src/routes/playfield.routes.ts:120-122 | at every lower-case letter followed by a capital, the rewrite yields the letter, `_` and the lowered capital, and rewrites both sides on their own |
| `PlayfieldRoutes.ToSnakeCaseIdempotent` | api/server/src/routes/playfield.routes.ts:120-122 | rewriting twice is the same as once |
| `PlayfieldRoutes.ToSnakeCaseOfLowerCase` | api/server/src/routes/playfield.routes.ts:120-122 | a name without capitals is already snake_case |
| `PlayfieldRoutes.TwoWords` | api/server/src/routes/playfield.routes.ts:119-122 | a lower-case word followed by a capitalised one, like `startTime`, becomes `start_time` |
| `PlayfieldRoutes.RewriteOrderBy` | api/server/src/routes/playfield.routes.ts:118-125 | a missing `orderBy` stays missing; otherwise the same rule objects stay in the same order, each column name rewritten once (even a rule listed twice) and everything else unchanged |
| `PlayfieldRoutes.RewriteRules` | api/server/src/routes/playfield.routes.ts:120-124 | every rule object of the list gets its column name rewritten once, even one listed twice, its order kept, and the same objects come back in the same order |
| `AppUserOpenApi.ParseBooleanFlag` | api/server/src/routes/app-user.openapi.ts:20-28 | a missing flag stays missing; a present one is false exactly for `''`, `'false'` and `'0'` |
| `AppUserOpenApi.NearMissesAreTrue` | api/server/src/routes/app-user.openapi.ts:27 | the comparison is exact: `FALSE`, `False`, `no`, ` 0` and `00` are true |
| `AppUserOpenApi.ParseFindUsersQuery` | api/server/src/routes/app-user.openapi.ts:15-42 | accepted exactly when `limit` is a number in 1..1000 and `offset` a number at least 0; then the flags are transformed and the strings passed on |
| `AppUserOpenApi.LimitAndOffsetRequired` | api/server/src/routes/app-user.openapi.ts:39-40 | a query lacking `limit` or `offset` is rejected |
| `AppUserOpenApi.FlagsDoNotAffectAcceptance` | api/server/src/routes/app-user.openapi.ts:20-40 | the flag values never decide whether the query is accepted |

Notes:

- Both playfield listings use the same rewrite. The logs listing at `playfield.routes.ts:156-163` is the same code as the sessions listing, so `RewriteOrderBy` models both.
- The tenant-location listing uses the same `is_active[eq]` transform and bounds (`tenant-location.openapi.ts:22-33`), so `ParseBooleanFlag` covers it too.

## Findings

| source | as written | input that shows it | evidently intended | confidence | as-written member | corrected member |
|---|---|---|---|---|---|---|
| api/functions/machine-sqs-lambda/src/sqs-message.ts:10-11 | the index is `indexOf(property) + 1`, so an absent property reads index 0 | topic directories `["CAB", "PF"]`, property `tenants`: the answer is `CAB` | `null` when the property does not occur | medium, not executed; the helper's callers are commented out, so no live path reaches it | `SqsMessage.AbsentPropertyReadsFirstDirectory` | `SqsMessage.GetPropertyAfter` |

## Left out

- The Lambda handler runs records concurrently (`Promise.all`). The model runs them one after another, in batch order. So the order of entries in `batchItemFailures` is the record order here, whereas the source has completion order. The service sees events interleaved across records in the source, and record by record here.
- Several requests to one middleware instance can run `getSecret` at the same time. Two requests may then both fetch before either caches. The model handles one request at a time.
- Logging, the logger child contexts, `createServices`, dotenv, the poller start and the sleep loop that keeps the local process alive are left out: they are I/O or process plumbing.
- JWT verification, the claim schemas and `getCookie` are oracles (`TokenVerifier`, `Request`). So are the AWS secret store (`SecretFetch`), `JSON.parse`, `MachineMessage.fromMachineInput`, the machine-message service and `Number(...)`. Their results are parameters.
- `createRoute` of the OpenAPI library is taken as returning its config unchanged. The response schemas (`ApiErrorSchema`, content types) are not modelled.
- `CreateAppRoute.SetIfAbsent`: `??=` also overwrites an entry that is present but `undefined` or `null`. The map model has no such entries.
- `JsStrings.IndexOfSubstring`: for an empty pattern and a start past the end, JavaScript answers the string's length and the model -1. The modelled code searches only for `Bearer ` from position 0.
- `JsValues.Spread`: string keys of a spread string are UTF-16 code-unit indices in JavaScript and character indices here. Only objects are spread in well-formed messages.
- `JsStrings.ToLowerAscii`: `toLowerCase` and `toLocaleLowerCase` are modelled on the ASCII letters only. Other letters are kept as they are.
- `AppUserOpenApi.ParseFindUsersQuery`: numbers are finite reals. `Infinity` is not represented; it would pass the `offset` bound. `NaN` is the oracle's `None`.
- Statistics dates are integer instants in milliseconds, and the current time is a parameter. The other statistics routes pass validated queries on to services that are not shown.
- `authorization.ts` (`Authorize`) and `AuthorizationService.hasAccessToScopes` are not part of this model. `Authorize(claims)` appears only as a list entry.
- The remaining route handlers, OpenAPI declarations, cron jobs and infrastructure stacks are not part of this model. They are pass-throughs to repositories and services that are not shown.
- `JsValues.Get` models property reads on the keys the decoder uses (`topic`, `message`, `e`). Arrays, strings, numbers and booleans have no own property under those names.
