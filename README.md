# BSO-OpenID core, modelled in Dafny

BSO-OpenID is an OpenID-style login server. A client service sends its user
to `/auth/discord?service=<name>`. The server runs the Discord OAuth 2.0 flow,
carrying the service name in the `state` parameter (section 4.1.1 of
RFC 6749). It then finds or creates the user, grants the user the service,
records the login and issues RS256 access and refresh tokens. Services get
per-service RSA key files and login webhooks signed with HMAC-SHA256.

This project models the sequential logic under that plumbing. External
effects become inputs or abstract stores:

- The database is `Store.Database`, an object with one sequence per table,
  scanned in table order.
- The per-service key directory is `KeyService.KeyStore`, a map from file
  name to PEM text.
- Fetch outcomes, I/O faults and clock readings are parameters.
- RSA, JWT and HMAC are symbolic values. A signed token records its
  algorithm, claims, expiry and signing key. It verifies under a public key
  exactly when the algorithm is RS256, the signer is the private half of the
  same pair, and it has not expired.

Modules follow the source files:

| module | source file |
|---|---|
| `Wrappers`, `Strings`, `Lists` | helpers: Option/Result, JavaScript string semantics (truthiness, `split`, `includes`, ASCII case mapping), first match / filter / count |
| `Store` | the Prisma rows and the database object |
| `ServicesService` | src/services/service.service.ts |
| `UserService` | src/services/user.service.ts |
| `KeyService` | src/services/key.service.ts |
| `KeyController` | src/controllers/key.controller.ts |
| `AuthService` | src/services/auth.service.ts |
| `AuthMiddleware` | src/middlewares/auth.middleware.ts |
| `AuthController` | src/controllers/auth.controller.ts |
| `HookService` | src/services/hook.service.ts |
| `AuditLog` | src/utils/contstant.util.ts |
| `EnvConfig` | src/config/env.config.ts |

Where code mutates state, the model does too:

- The key store, the database tables, the login session, the request/response
  exchange and the configuration object are classes whose methods update
  their fields.
- Each such method is tied to a specification function, and the lemmas are
  proved about that function.
- The webhook fan-out, `deleteKeys` and the environment check are loops with
  invariants.

Decisions taken from the code:

- `userHasService` is false for an unknown user. Otherwise it is true when a
  grant of the user links to a service named exactly as asked. It does not
  look at `deletedAt`.
- `findByNames` is a case-insensitive substring match over services that are
  not soft-deleted.

## Model

| member | source | states |
|---|---|---|
| ServicesService.FindByNames | src/services/service.service.ts:27-37 | returns the first live service whose lower-cased name contains the lower-cased query; `None` exactly when no live service matches |
| ServicesService.OwnNameMatches | src/services/service.service.ts:31-35 | a live service is found by its own name |
| ServicesService.PartialQuerySelectsService | src/services/service.service.ts:31-34 | the query "BL" selects a live service named "blog" |
| ServicesService.DeletedServiceNeverFound | src/services/service.service.ts:35 | a soft-deleted service is never returned |
| ServicesService.GrantedLeavesOneRecord | src/services/service.service.ts:70-89 | granting keeps every existing row; where no row for the (user, service) pair existed it appends exactly one; otherwise it changes nothing |
| ServicesService.GrantTwiceIsGrantOnce | src/services/service.service.ts:70-89 | two sequential grants equal one grant; starting from none, they leave exactly one row for the pair |
| ServicesService.CreateUserService | src/services/service.service.ts:67-94 | on a database failure, fails with "Failed to create user service. Please try again later." and writes nothing; otherwise the grant table becomes the granted table; no other table changes |
| UserService.NewUserName | src/services/user.service.ts:72 | the username is the email text before its first "@", or the whole email when there is none |
| UserService.ExistingUserIsReturned | src/services/user.service.ts:75-101 | for a user with the profile's email, no user is created; success returns that user and appends at most one account, for the profile's provider and id; it succeeds whenever the profile's id is not yet a provider account id, and its only failure is the provider-account-id conflict, which writes nothing |
| UserService.SameProviderBlocksLinking | src/services/user.service.ts:83-98 | an account of the same provider blocks the new account even when its provider account id differs |
| UserService.NewProfileCreatesUserAndAccount | src/services/user.service.ts:104-123 | with no user for the email, the derived username free and the profile's id not yet a provider account id, exactly one user (image = avatar) and exactly one account (provider account id = profile id) are created |
| UserService.TakenProviderIdAddsNoAccount | src/services/user.service.ts:86-120 | when the profile's id is already a provider account id, no table changes; the call succeeds exactly when the email's user already has an account of this provider, and otherwise fails with the provider-account-id conflict (or the username conflict, when a new user's username is also taken) |
| UserService.SecondCallbackCreatesNothing | src/services/user.service.ts:64-124 | repeating the callback with the same profile returns the user created the first time and writes nothing |
| UserService.FindOrCreateUserFromProfile | src/services/user.service.ts:64-124 | the result and the users and accounts tables are those of the lookup-by-email resolution, unique-key conflicts on username and provider account id included; services, grants and logs are unchanged |
| UserService.UserHasService | src/services/user.service.ts:258-286 | true exactly when the user exists and one of its grants links to a service with exactly that name |
| UserService.LiveAccountsOf | src/services/user.service.ts:197-202 | holds exactly the user's accounts whose `deletedAt` is null |
| UserService.LiveGrantsOf | src/services/user.service.ts:37-41 | holds exactly the user's grants whose `deletedAt` is null |
| UserService.GetUserAndAccountByEmail | src/services/user.service.ts:190-213 | `accounts` is null exactly when `user` is; the user has the email; the accounts are exactly its live accounts |
| UserService.Me | src/services/user.service.ts:30-54 | empty exactly when no user has the id; each entry is a user with that id, with exactly its live grants and live accounts |
| KeyService.KeyFileSplits | src/services/key.service.ts:25-26 | every key file name is the service name followed by `<Public\|Private><Access\|Refresh>.pem` |
| KeyService.SuffixesDistinct | src/services/key.service.ts:42-45 | no two of the four name suffixes end one another |
| KeyService.KeyFileInjective | src/services/key.service.ts:25-45 | key file names are injective in (service, half, key type) |
| KeyService.PublicFileIsNeverPrivate | src/services/key.service.ts:66-67 | for the key-type spellings Access, Refresh, ACCESS and REFRESH, a public-key path never names a private-key file |
| KeyService.GetKey | src/services/key.service.ts:65-77 | succeeds exactly when the public file exists and reads, returning its contents; a missing file gives a message containing "not found"; a read error gives "Unable to read public key for service: …" |
| KeyService.UnlinkAllRemoves | src/services/key.service.ts:47-55 | unlinking a list of paths removes exactly the listed paths whose unlink does not fail, missing ones included |
| KeyService.GeneratedWritesExactlyThePair | src/services/key.service.ts:25-33 | generating a pair writes exactly its two files, with the new contents; every other file is unchanged |
| KeyService.DeletedRemovesOnlyServiceFiles | src/services/key.service.ts:40-56 | deleting removes the service's four files (except failed unlinks) and leaves every other file unchanged |
| KeyService.DeleteIsolatesServices | src/services/key.service.ts:42-45 | deleting one service's keys never removes or changes another service's key file |
| KeyService.DeleteThenGetKeyNotFound | src/services/key.service.ts:40-73 | after a delete, reading that service's public key fails with "not found" |
| KeyService.GenerateThenGetKey | src/services/key.service.ts:29-69 | after generating a pair, reading its public key returns the PEM just written |
| KeyService.KeyStore.GenerateKeyPair | src/services/key.service.ts:16-34 | the directory becomes the generated directory; succeeds exactly when neither write fails; a failure names a path whose write failed, the public one when both did |
| KeyService.KeyStore.UnlinkEach | src/services/key.service.ts:47-55 | the directory loses exactly the targets whose unlink does not fail; the logged paths are exactly the targets whose unlink failed, in order |
| KeyService.KeyStore.DeleteKeys | src/services/key.service.ts:40-56 | never fails; the directory becomes the deleted directory; the logged paths are exactly the targets whose unlink failed, in order |
| KeyController.RegenerationReplacesAllKeys | src/controllers/key.controller.ts:36-42 | with no failed write, delete followed by both generations leaves exactly the four new files of the service and every other file unchanged, whichever unlinks failed |
| KeyController.GenerateAllKeys | src/controllers/key.controller.ts:18-48 | 400 for an empty name and 404 for an unknown service, both touching no key; otherwise delete (failed unlinks only logged) then both pairs; 201 exactly when no key write failed, else 500 whose error names a key path whose write failed; unlink and write faults are independent |
| KeyController.CheckKeyRequest | src/controllers/key.controller.ts:57-75 | passes exactly when both parameters are present and the key type upper-cases to "ACCESS" or "REFRESH"; all other requests get 400 |
| KeyController.KeyTypeIgnoresCase | src/controllers/key.controller.ts:67-68 | "access" and "aCCeSS" select Access, "refresh" selects Refresh, "private" is refused |
| KeyController.ReadKeyReply | src/controllers/key.controller.ts:77-97 | 200 with the key exactly when the read succeeds; 404 exactly when the error mentions "not found"; otherwise 500 |
| KeyController.GetKeyAsWritten | src/controllers/key.controller.ts:53-98 | 400 exactly when the checks fail; otherwise the read of the upper-cased key type |
| KeyController.GetKey | src/controllers/key.controller.ts:53-98 | the route with the correction from "## Findings" (the declared spelling forwarded instead of the upper-cased one at line 79): 400 exactly when the checks fail; otherwise the read of the declared key-type spelling |
| KeyController.UpperCaseNameIsNeverAKeyFile | src/controllers/key.controller.ts:79 | a path built from "ACCESS" or "REFRESH" names no file the key service writes |
| KeyController.AsWrittenMissesGeneratedKey | src/controllers/key.controller.ts:79 | as written, reading the access key right after generating all keys answers 404, unless a file with the upper-cased name was already there |
| KeyController.AsWrittenMissesGeneratedKeyForBlog | src/controllers/key.controller.ts:79 | the same for the service "blog" on an empty key directory |
| KeyController.GetKeyAfterGenerateAllKeys | src/controllers/key.controller.ts:67-80 | forwarding the declared spelling, a key type in any case returns the public key just generated |
| AuthService.VerifyAccessToken | src/services/auth.service.ts:79-89 | accepts only an unexpired RS256 token signed by the access pair, returning its claims and expiry; any failure is `None` |
| AuthService.VerifyRefreshToken | src/services/auth.service.ts:96-106 | the same against the refresh pair |
| AuthService.TokensShareClaims | src/services/auth.service.ts:40-72 | both tokens carry sub = user id, name = username, iss = app URL, iat = floor(now ms / 1000) and the service; both are RS256; signed with the private access / refresh key; expiring after 1 day / 15 days |
| AuthService.AccessTokenRoundTrip | src/services/auth.service.ts:40-89 | an issued access token verifies to its claims exactly while its day has not passed |
| AuthService.RefreshTokenRoundTrip | src/services/auth.service.ts:60-106 | an issued refresh token verifies to its claims exactly within fifteen days |
| AuthService.TokenClassesDoNotCross | src/services/auth.service.ts:20-31 | with distinct pairs, an access token never verifies as a refresh token and vice versa |
| AuthService.OnlyRS256IsAccepted | src/services/auth.service.ts:81-99 | tokens naming HS256 or "none" are refused |
| AuthService.FetchGitHubEmails | src/services/auth.service.ts:114-141 | returns the email of the first primary entry whenever the reply is ok and that email is present and non-empty, and only then; a non-ok reply, a bad body, no primary entry or an empty email all fail with "Failed to retrieve primary email from GitHub" |
| AuthMiddleware.RequestToken | src/middlewares/auth.middleware.ts:30-33 | a "Bearer " header wins, and its token runs up to the next space; otherwise the `accessToken` cookie is used |
| AuthMiddleware.AuthenticateDecision | src/middlewares/auth.middleware.ts:23-75 | 401 "No token provided" for a missing or empty token; then 401 "Invalid token"; for a verified token, 500 exactly when the lookup fails, and 401 "User not found" when no user has its `sub`; proceeds exactly when the token verifies and a user has its `sub`, with that user |
| AuthMiddleware.RefreshDecision | src/middlewares/auth.middleware.ts:78-108 | 401 "Refresh token missing!" exactly for a missing cookie; 401 "Invalid refresh token" exactly when it fails to verify; otherwise proceeds with the decoded payload |
| AuthMiddleware.Exchange.Apply | src/middlewares/auth.middleware.ts:66-67 | proceeding sets `req.user` and calls `next` exactly once without responding; rejecting responds and calls no `next` |
| AuthMiddleware.Authenticate | src/middlewares/auth.middleware.ts:23-75 | the exchange is updated as the authenticate decision says |
| AuthMiddleware.VerifyRefresh | src/middlewares/auth.middleware.ts:78-108 | the exchange is updated as the refresh decision says |
| AuthMiddleware.BearerTokenIsPresented | src/middlewares/auth.middleware.ts:31-32 | "Bearer " followed by a token without spaces presents that token |
| AuthMiddleware.IssuedAccessTokenAuthenticates | src/middlewares/auth.middleware.ts:30-67 | a fresh issued access token sent as a bearer token by a known user passes, with that user's id |
| AuthMiddleware.RefreshTokenDoesNotAuthenticate | src/middlewares/auth.middleware.ts:45-54 | a refresh token sent as a bearer token gets 401 "Invalid token" |
| AuthMiddleware.EmptyBearerIgnoresCookie | src/middlewares/auth.middleware.ts:31-41 | a bare "Bearer " header gives "No token provided" whatever the cookie holds |
| AuthMiddleware.IssuedRefreshTokenPasses | src/middlewares/auth.middleware.ts:84-100 | a fresh issued refresh token in the cookie passes with its own claims |
| AuthController.DiscordAuthReply | src/controllers/auth.controller.ts:52-78 | 400 exactly without a service; 500 when the session save fails; otherwise a redirect whose OAuth state is the service name |
| AuthController.DiscordAuth | src/controllers/auth.controller.ts:52-78 | the session keeps the service whenever one is given, even if saving fails, and is untouched otherwise |
| AuthController.Callback | src/controllers/auth.controller.ts:88-145 | 400 without state, then 403 for an unknown or non-public service, both writing nothing; a redirect to `/auth/success?service=<state>` exactly when the checks pass and the grant does not fail; a grant is added only when the user lacks the service; exactly one LOGIN audit row follows |
| AuthController.DiscordCallback | src/controllers/auth.controller.ts:88-145 | the reply, grant table and audit table are those of the callback; no other table changes |
| AuthController.StateCarriesServiceName | src/controllers/auth.controller.ts:66-141 | the state `discordAuth` sends, received back by the callback for a public service, leads to the success route of the same name |
| AuthController.RepeatedLoginGrantsOnce | src/controllers/auth.controller.ts:122-141 | two logins to a service the user lacked leave exactly one grant row and two LOGIN rows |
| AuthController.CheckSuccessRequest | src/controllers/auth.controller.ts:157-176 | 401 for an unauthenticated request or a missing service, checked first; then 400 for a service outside {"service1","service2","blog"} |
| AuthController.AuthSuccessAsWritten | src/controllers/auth.controller.ts:154-204 | as written, the issued tokens carry no service claim |
| AuthController.AuthSuccessReply | src/controllers/auth.controller.ts:154-204 | tokens are issued exactly when the checks pass; the reply echoes the user and the service with the success message |
| AuthController.AsWrittenTokenOmitsService | src/controllers/auth.controller.ts:180-181 | as written, a login for "blog" yields tokens with no service claim |
| AuthController.CorrectionOnlyAddsServiceClaim | src/controllers/auth.controller.ts:179-181 | the corrected reply differs from the as-written one only in the tokens' `service` claim: same failures, greeting, user and service, and same signing over otherwise equal claims |
| AuthController.IssuedTokensNameService | src/controllers/auth.controller.ts:179-200 | with the service passed, both tokens verify to claims naming the echoed service and the user |
| AuthController.AuthSuccess | src/controllers/auth.controller.ts:154-204 | the route with the correction from "## Findings" (the service passed to both token builders): the reply is the corrected success reply; one ACCESS_SERVICE audit row is written exactly when tokens are issued; nothing else changes |
| HookService.Body | src/services/hook.service.ts:73-80 | the body's event is "user.login" and it carries the user, service, ip, user agent and timestamp |
| HookService.Token | src/services/hook.service.ts:61-71 | the hook token carries the user id and service, is signed with the service's hook secret, and expires 300 seconds after issue |
| HookService.Row | src/services/hook.service.ts:97-128 | a response row is "success" exactly when ok, with the response status and the whole user; a throw row is "failed", code 500, with the error message and only the user id |
| HookService.RowsInOrder | src/services/hook.service.ts:85-131 | row `i` of the attempts' log is the row of the `i`-th URL's attempt |
| HookService.RequestsInOrder | src/services/hook.service.ts:85-95 | request `i` goes to the `i`-th URL, and every request carries the same body, token and signature |
| HookService.LogHook | src/services/hook.service.ts:15-35 | appends exactly the given row to the hook log and changes no other table |
| HookService.FirstResponseEndsWalk | src/services/hook.service.ts:97-117 | when the `k`-th URL is the first to answer, exactly `k + 1` URLs are tried; later URLs are never tried |
| HookService.AllThrowTriesAll | src/services/hook.service.ts:118-133 | when every fetch throws, every URL is tried |
| HookService.NotifyAll | src/services/hook.service.ts:85-133 | appends exactly the attempts' rows; sends exactly the attempts' requests; returns true exactly when the first answering URL was ok |
| HookService.SendLoginNotification | src/services/hook.service.ts:45-138 | an unknown service or a setup failure returns false with no fetch and no row; otherwise the walk's log, requests and result; no other table changes |
| AuditLog.ActionsAreSelfNamed | src/utils/contstant.util.ts:2-22 | every audit action's value equals its key; "LOGIN" is an action, while "ACCESS_SERVICE", which `authSuccess` records, is not one of them |
| AuditLog.AuditLogFormat | src/utils/contstant.util.ts:25-34 | copies action, entity and details, adds the timestamp, and makes omitted details the empty object |
| AuditLog.GenerateAuditLog | src/utils/contstant.util.ts:37-45 | `userId` is present exactly when truthy; the other fields are those of the format |
| AuditLog.UserIdOnlyAddsField | src/utils/contstant.util.ts:43-44 | null and "" user ids give the same entry; a real id only adds the field |
| AuditLog.DetailsDefaultToEmpty | src/utils/contstant.util.ts:41 | omitted details equal the empty object |
| EnvConfig.Initial | src/config/env.config.ts:35-48 | each field takes its variable when set and non-empty, otherwise its fallback |
| EnvConfig.Overlaid | src/config/env.config.ts:50-56 | after copying present keys, each of them holds its variable's value and every other field is unchanged |
| EnvConfig.FirstMissing | src/config/env.config.ts:50-54 | the first key, in list order, that is unset or empty |
| EnvConfig.FirstMissingAt | src/config/env.config.ts:50-54 | a missing key preceded only by present keys is the one reported |
| EnvConfig.Config.constructor | src/config/env.config.ts:35-48 | the configuration starts from the variables, with fallbacks for unset or empty ones |
| EnvConfig.Config.Require | src/config/env.config.ts:50-56 | copies the keys in order; at the first missing key fails with "Missing required environment variable: <key>", keeping the keys already copied |
| EnvConfig.Config.Validate | src/config/env.config.ts:20-56 | the same pass over the twelve required keys |
| EnvConfig.RequiredCoversDefaults | src/config/env.config.ts:20-47 | the required list names exactly the configuration's fields |
| EnvConfig.AllFieldsCopied | src/config/env.config.ts:50-56 | when the keys name exactly the fields and none is missing, the pass leaves every field equal to its variable |
| EnvConfig.DefaultsNeverSurvive | src/config/env.config.ts:36-56 | after a successful check, every field holds its variable's value and no fallback remains |
| EnvConfig.EmptyVariableIsMissing | src/config/env.config.ts:36-52 | an empty variable gets its fallback and makes the check fail |

## Left out

- Database failures are modelled only for the grant insert (`CreateUserService`) and the middleware's user lookup. All other queries are taken to succeed. This covers `findByNames` in the key controller, the callback and the webhook, and `userHasService`.
- Writing hook-log and audit rows is taken to succeed. A failing `logHook` inside the webhook loop would add a second "failed" row from the catch; that row is not modelled.
- `logAudit` and the constructor's four key-file reads in `AuthService` are I/O. The controllers append the audit row directly. The access/refresh keys are the four `AuthKeys` values.
- `AuthService` reads `privateAccess.pem`, `publicAccess.pem`, `privateRefresh.pem` and `publicRefresh.pem` from the working directory. It does not use the per-service key store; the model keeps the two apart.
- RSA key generation, JWT signing and HMAC-SHA256 are symbolic. No cryptographic property is proved, and turning token text into a token is the abstract `decode` parameter.
- The GitHub request itself (URL and `Authorization` header) is not modelled. Its answer is an input.
- Case mapping is ASCII-only. JavaScript's `toUpperCase`/`toLowerCase` and PostgreSQL's case-insensitive `contains` also map non-ASCII letters.
- `Promise.all` runs its operations concurrently; the model runs them one after the other. The check-then-insert race in `createUserService` is not modelled.
- `mkdir`, `path.join`/`path.resolve` normalisation (including `..` in a service name) and file encodings are not modelled. A file name is the plain concatenation.
- Prisma's `findFirst` is the first match in table order. `findUnique` on `id` is the first row with that id.
- Usernames are taken to be unique. A new user whose derived username is taken fails with a unique-constraint error, as `getUserByUsername`'s use of `findUnique` implies; the schema is not part of this model.
- Provider account ids are taken to be unique, because `prisma/seed.ts:153-154` upserts accounts by `providerAccountId`, which Prisma allows only on a unique field. Creating an account, or a user with an account, whose provider account id is taken fails with a unique-constraint error and writes nothing. When both keys clash on a new user, the username is the one reported.
- Express, sessions and passport are out. `req.isAuthenticated()` and `req.user` become an optional user. `passport.authenticate` becomes a redirect carrying the state. Query parameters are single strings.
- AuthMiddleware.AuthenticateDecision: the 500 body carries the thrown error object in the source; the model leaves its `error` field empty.
- AuthMiddleware.RefreshDecision: its 500 branch is not modelled, because `verifyRefreshToken` never throws.
- KeyController.GenerateAllKeys: the 500 body's `error` is the thrown error object in the source; the model gives a key path whose write failed, and the ensures states that.
- HookService.SendLoginNotification: any throw before the first fetch is the single `setupFault` flag. This covers the service lookup, signing and serialising.
- Detail values of audit logs are opaque strings, and timestamps are opaque strings from the clock.
- The following are not part of this model: other members of `UserService` and `ServicesService`; the routes, `src/app.ts`, `src/server.ts`, `src/config/passport.config.ts`, `src/middlewares/audit.middleware.ts` and `src/controllers/user.controller.ts`, which are web wiring; `src/verifyServer.ts`; the Redis wrappers `src/services/cache.service.ts` and `src/config/redis.config.ts`; bcrypt in `src/services/crypto.service.ts`; `src/utils/generateKeys.mjs`; `prisma/seed.ts`.

## Findings

| source | as written | input that shows it | evidently intended | confidence | as-written member | corrected member |
|---|---|---|---|---|---|---|
| src/controllers/key.controller.ts:79 | `getKey` forwards the upper-cased key type ("ACCESS"), so the key service reads `<service>PublicACCESS.pem`, while `generateKeyPair` writes `<service>PublicAccess.pem` | `generateAllKeys` for "blog" on an empty key directory, then `getKey` with service "blog" and key type "Access": 404 | forward "Access" or "Refresh", the spelling the files are written under | high on a case-sensitive file system, not executed | KeyController.AsWrittenMissesGeneratedKeyForBlog | KeyController.GetKeyAfterGenerateAllKeys |
| src/controllers/auth.controller.ts:180-181 | `authSuccess` calls `generateAccessToken(user)` and `generateRefreshToken(user)` without the service, so the tokens carry no `service` claim | `authSuccess` for an authenticated user with service "blog": the reply says "blog", the tokens name no service | pass `service` to both token builders | medium, not executed | AuthController.AsWrittenTokenOmitsService | AuthController.IssuedTokensNameService |
