# User service: users, repository, JWT middleware and handlers

This project models the core of a Go user service built on Gin, gorm and golang-jwt v5,
and proves properties of the model in Dafny:

- **Models** — the `User` record (internal/models/User.go). The model covers which of its
  fields are nullable and which never appear in JSON, and `SetPassword`.
- **Repositories** — `UserRepository` (internal/database/repositories/user_repository.go).
  It works over an in-memory `users` table. The table keeps the unique indexes declared on
  email, username and apple_id, plus the id sequence, which a failed INSERT still consumes.
  gorm's `Save` is an upsert.
- **RepositoryFactory** — the singleton factory (internal/database/repositories/factory.go).
  Its package variables are modelled with the sequential meaning of `sync.Once`.
- **Jwt** — the slice of golang-jwt the code uses. `SignedString` is covered, and so is the
  order of the checks in `jwt.Parse` (decode, key function, signature, `exp`/`nbf`). The
  codec and HMAC are function parameters. The algorithms are those of RFC 7515 and
  RFC 7518.
- **Middleware** — `JWTAuth` and `ExtractUserID` (internal/middleware/jwt_auth.go).
- **AuthController** — `Register`, `Login`, `RefreshToken` and `AppleLogin`, together with
  their helpers (internal/controllers/auth_controller.go).
- **UserController** — `GetProfile`, `UpdateProfile` and `DeleteUser`, with the
  `strconv.ParseUint` check on `user_id` (internal/controllers/user_controller.go).

The form of each part follows the Go code:

- Pure computations are functions. This covers claim building, header parsing, reply
  selection and the handlers whose only effect is one reply.
- Objects whose fields change are classes with `modifies` clauses: `*models.User`
  (`Models.UserRef`), the database, the factory's package state, and the request
  context (`Middleware.GinContext`).
- The loop-free conditional inserts of UpdateProfile are a method (`BuildUpdates`). It is
  proved against the relation `UpdatesFor`.

Things the code cannot see are parameters:

- the user service (`CreateUser`, `VerifyUserCredentials`, `CreateAppleUser`,
  `GetUserByID`, `UpdateUserProfile`, `DeleteUser`);
- the bcrypt hasher;
- the HMAC and the base64url/JSON codec, bundled in `Jwt.Crypto`;
- the `JWT_SECRET` value;
- every `time.Now()` reading;
- the outcome of `ShouldBindJSON`;
- a database failure (the `fault` parameter of each repository operation).

## Model

| member | source | states |
|---|---|---|
| Models.PublicView | internal/models/User.go:7-16 | The JSON of a user never has a key for the password hash, Apple ID or Apple email. `avatar_url` is present exactly when the avatar URL is non-empty (`omitempty`). id, email, username and preferences are copied. |
| Models.ViewHidesSecrets | internal/models/User.go:10-15 | Two users that differ only in hash, Apple ID or Apple email marshal identically. |
| Models.UserRef.SetPassword | internal/models/User.go:19-27 | It fails exactly when bcrypt fails, returns that error and leaves the user untouched. Otherwise it stores the hash of the password at the default cost (10) and changes nothing else. |
| Repositories.PutPreservesWellFormed | internal/models/User.go:8-14 | A write the unique indexes accept keeps every row under its own id and keeps email, username and non-null apple_id unique. |
| Repositories.DuplicateEmailConflicts | internal/models/User.go:9 | A new row whose email is already stored conflicts with the unique index. |
| Repositories.UserRepository.constructor | internal/database/repositories/user_repository.go:21-26 | The repository is a handle on the shared database. |
| Repositories.UserRepository.Create | internal/database/repositories/user_repository.go:28-31 | A zero id takes the next sequence value, consumed even when the INSERT fails. An id in use is a primary-key error; a duplicate email, username or apple_id is a unique violation. Success inserts exactly that row and writes the id back into the user. Failure changes no row. The table stays well formed. |
| Repositories.UserRepository.FindByID | internal/database/repositories/user_repository.go:33-44 | A store error is returned as an error. Otherwise "not found" is `Success(None)`, distinct from an error; a found row is the stored row with that id. |
| Repositories.UserRepository.FindByEmail | internal/database/repositories/user_repository.go:46-57 | A row is returned exactly when some stored row has that email, and it is that stored row. |
| Repositories.UserRepository.FindByUsername | internal/database/repositories/user_repository.go:59-70 | A row is returned exactly when some stored row has that username, and it is that stored row. |
| Repositories.UserRepository.FindByAppleID | internal/database/repositories/user_repository.go:72-83 | A row is returned exactly when some stored row has that non-null apple_id, and it is that stored row. |
| Repositories.UserRepository.Update | internal/database/repositories/user_repository.go:85-88 | gorm `Save`: a zero id behaves as Create, with the same primary-key and unique errors. Any other id writes the whole row under that id unless a unique index rejects it. No other row changes, and the table stays well formed. A store fault leaves the rows, the user and the sequence unchanged. |
| Repositories.UserRepository.Delete | internal/database/repositories/user_repository.go:90-93 | The row with that id is removed. A missing id is not an error. The sequence is untouched. |
| Repositories.UserRepository.EmailExists | internal/database/repositories/user_repository.go:95-103 | True exactly when some row has that email; a store error is an error. |
| Repositories.UserRepository.UsernameExists | internal/database/repositories/user_repository.go:105-113 | True exactly when some row has that username; a store error is an error. |
| RepositoryFactory.PackageState.constructor | internal/database/repositories/factory.go:9-12 | Both package variables start at their zero values: no instance, the once not yet fired. |
| RepositoryFactory.Factory.GetUserRepository | internal/database/repositories/factory.go:25-30 | The first call builds one repository on the shared database and stores it. Every later call returns the stored instance. |
| RepositoryFactory.FactoriesShareInstance | internal/database/repositories/factory.go:14-30 | Two `Factory` values return the same instance, because the state is package-level. |
| RepositoryFactory.Factory.SetUserRepository | internal/database/repositories/factory.go:34-38 | As written: it stores the repository and resets the once. |
| RepositoryFactory.SetThenGetDiscardsInjected | internal/database/repositories/factory.go:25-38 | After `SetUserRepository(mock)`, `GetUserRepository` returns a freshly built repository, not the mock. |
| RepositoryFactory.Factory.InjectUserRepository | internal/database/repositories/factory.go:32-38 | Corrected: it stores the repository and leaves the once fired. |
| RepositoryFactory.InjectThenGetReturnsInjected | internal/database/repositories/factory.go:32-38 | After the corrected injection, `GetUserRepository` returns the injected repository. |
| Jwt.SignedString | internal/controllers/auth_controller.go:55-66 | Signing succeeds exactly when the MAC of the header and claims segments succeeds. The token is those segments joined with that MAC. |
| Jwt.Parse | internal/middleware/jwt_auth.go:49-55 | It accepts only a token that decodes, names an HMAC method, carries the MAC of its signed text under the secret, and whose `exp`/`nbf` hold now. A time claim must be a number; it counts in whole seconds, and 0 counts as absent. It returns that token's claims. Undecodable input is Malformed; a non-HMAC or unregistered `alg` is Unverifiable. |
| Jwt.IssueThenParse | internal/middleware/jwt_auth.go:49-60 | A token signed with HMAC under the secret parses under the same secret while its time claims hold, giving the claims as JSON decoding returns them. |
| Jwt.TamperedTokenRefused | internal/middleware/jwt_auth.go:49-60 | A token whose signature is not the MAC of its signed text is refused. |
| Jwt.ExpiredTokenRefused | internal/middleware/jwt_auth.go:49-60 | A token whose non-zero `exp`, in whole seconds, is not after now is refused. |
| Jwt.ZeroExpNeverExpires | internal/middleware/jwt_auth.go:49-60 | A correctly signed HMAC token whose only time claim is `"exp": 0` is accepted at every time: the library reads 0 as no expiry. |
| Middleware.HeaderToken | internal/middleware/jwt_auth.go:40-46 | A header is accepted exactly when it starts with "Bearer ". The token is the rest, possibly empty. |
| Middleware.Authenticate | internal/middleware/jwt_auth.go:39-60 | A missing or non-Bearer header is 401 "Authorization token required". A token is accepted exactly when `jwt.Parse` accepts it. Every refusal is the same 401 "Invalid or expired token". |
| Middleware.Published | internal/middleware/jwt_auth.go:62-67 | It sets `user_id`, `email` and `username` to the claims' values, nil when absent, and leaves every other key alone. |
| Middleware.JWTAuth | internal/middleware/jwt_auth.go:37-71 | A refused request is aborted with the 401 reply; its keys are unchanged and the chain does not continue. An accepted request gets the three identity keys and the chain continues. |
| Middleware.FloatToUint | internal/middleware/jwt_auth.go:23-26 | In range, the result is the float with its fraction discarded, and it is below 2^64. |
| Middleware.ExtractUserID | internal/middleware/jwt_auth.go:14-34 | It succeeds exactly when `user_id` is present and is a float64, float32, int or uint. A uint is returned unchanged; an int is converted modulo 2^64. A failure returns 0. |
| AuthController.ExtractBearerToken | internal/controllers/auth_controller.go:152-161 | An empty header is "Missing token". The result is a token exactly when the header is "Bearer " followed by a non-empty rest, which is that token. Every other header is "Invalid token format". |
| AuthController.BearerRoundTrip | internal/controllers/auth_controller.go:152-161 | "Bearer " followed by a non-empty token gives that token back. |
| AuthController.HeaderChecksDisagreeOnlyOnBareBearer | internal/controllers/auth_controller.go:157-160 | The middleware's header check and `extractBearerToken` agree on every header except exactly "Bearer ". |
| AuthController.ParseJwtClaims | internal/controllers/auth_controller.go:164-182 | It succeeds exactly when `jwt.Parse` does, with its claims. Every failure is "Invalid or expired token". |
| AuthController.MintedClaimsShape | internal/controllers/auth_controller.go:55-61 | A minted claim set has exactly `user_id`, `email`, `username`, `exp` and `iat`. `exp` is 24 h after its clock reading, so `exp = iat + 86400` when the two readings agree. |
| AuthController.RefreshCopiesIdentityOnly | internal/controllers/auth_controller.go:185-192 | `generateJWTToken` keeps the three identity claims (nil when absent), drops every other claim and renews `exp` and `iat`. |
| AuthController.GenerateJwtToken | internal/controllers/auth_controller.go:185-195 | It succeeds exactly when signing the refreshed claims with HS256 does, and returns that token. |
| AuthController.IssuedTokenIdentifiesUser | internal/controllers/auth_controller.go:55-67 | A token minted for a user with an id up to 2^53 passes `JWTAuth` before its 24 hours are over. The context then holds the user's email and username, and `ExtractUserID` returns the user's id. Above 2^53 the float64 that JSON decoding gives cannot hold every id. |
| AuthController.Register | internal/controllers/auth_controller.go:41-72 | A bind error is 400, and a service error is 400 with its message. A nil user from the service panics at `user.ID`, which gin.Recovery turns into a bodiless 500. A signing error is 500 with its message. The reply is 201 exactly when the user is created and a token signed; its body is the user's public view and that token. |
| AuthController.Login | internal/controllers/auth_controller.go:75-107 | Every credential error is the same 401 "Invalid credentials". A nil user is a bodiless 500 (panic at `user.ID`). A signing error is 500 with its message. The reply is 200 exactly when the user is verified and a token signed; its body is the view and that token. |
| AuthController.DefaultUsername | internal/controllers/auth_controller.go:216-220 | A non-empty username is kept. An empty one panics exactly when the Apple user id is shorter than 8 UTF-8 bytes. Otherwise the name is "user_" followed by the longest prefix of the id that fits in 8 bytes. |
| AuthController.AsciiDefaultUsername | internal/controllers/auth_controller.go:216-220 | For an ASCII Apple user id the slice panics exactly below 8 characters, and the name is "user_" plus the first 8 characters. |
| AuthController.MultiByteDefaultUsername | internal/controllers/auth_controller.go:216-220 | "éééé" (8 bytes) gives "user_éééé", and "ééé" (6 bytes) panics. |
| AuthController.AppleLogin | internal/controllers/auth_controller.go:206-248 | The default-username panic and a nil user (panic at `user.ID`) are bodiless 500s (gin.Recovery). A service error is 500 with its message, and a signing error is 500 "Failed to generate token". Otherwise the reply is 200 with the view and a token minted for the user. |
| AuthController.RefreshToken | internal/controllers/auth_controller.go:110-149 | It runs the middleware: refusal aborts with its 401 and leaves the keys unchanged. Acceptance publishes the claims. The reply is the refresh reply computed from the header and the keys. |
| AuthController.RefreshKeepsIdentity | internal/controllers/auth_controller.go:110-149 | Refreshing a live token minted for a user with an id up to 2^53 gives 200. The new token is exactly the one minted for that user from the new clock readings. |
| UserController.ParseUint | internal/controllers/user_controller.go:41 | `strconv.ParseUint(s, 10, 64)` succeeds exactly on a non-empty string of decimal digits whose value is below 2^64, and gives that value. |
| UserController.ParseFormatRoundTrip | internal/controllers/user_controller.go:41 | Parsing the decimal spelling of a 64-bit value gives it back. |
| UserController.ShortDigitStringsParse | internal/controllers/user_controller.go:41-45 | Every non-empty string of at most 19 decimal digits is accepted as its value, because 10^19 < 2^64; only 20 or more digits can overflow. |
| UserController.ParseUintEdges | internal/controllers/user_controller.go:41-45 | "" and "-1" are refused, "007" is 7, and 2^64 is refused. |
| UserController.UserIDParam | internal/controllers/user_controller.go:35-45 | An empty query is 400 "user_id is required". An unparsable one is 400 "invalid user_id". Otherwise the result is the parsed id. |
| UserController.UserIDParamAcceptsFormatted | internal/controllers/user_controller.go:35-45 | Every 64-bit id written in decimal is accepted as itself. |
| UserController.GetProfile | internal/controllers/user_controller.go:32-54 | A parameter error is the parameter reply. A service error is 404 with its message. A found user is 200 with its public view, and a nil user 200 with `null`. |
| UserController.DeleteUser | internal/controllers/user_controller.go:102-122 | A parameter error is the parameter reply. A service error is 500 with its message. Otherwise the reply is 200 "User deleted successfully". |
| UserController.RejectedQueryNeverReachesService | internal/controllers/user_controller.go:35-45 | A query that fails validation gets a 400 whatever the service would do. |
| UserController.ServiceSeesOnlyQueriedID | internal/controllers/user_controller.go:47-51 | Two services that agree on the queried id give the same reply. |
| UserController.UpdatesForIsUnique | internal/controllers/user_controller.go:77-90 | At most one `updates` map fits a request. |
| UserController.BuildUpdates | internal/controllers/user_controller.go:77-90 | The map has a key for each non-empty string field and for a non-nil preferences map, holding that field. An empty request gives an empty map. |
| UserController.UpdateProfile | internal/controllers/user_controller.go:57-98 | The parameter checks come first, then a bind error (400). Then the service is called with the queried id and the built map: an error is 400 with its message, an updated user is 200 with its view, and a nil user 200 with `null`. |

## Left out

- The user service (internal/services) is not part of this model. The handlers receive its operations as function parameters. A parameter may return `Success(None)`, the Go pair `(nil, nil)`, and each handler's contract says what it replies then.
- bcrypt is a parameter (`Hasher`); nothing is assumed about it.
- HMAC-SHA, base64url and JSON encoding are parameters (`Jwt.Crypto`). The lemmas that need a faithful JWT codec assume it through the `RoundTrips` precondition.
- The `JWT_SECRET` environment variable and `time.Now()` are parameters. So are Gin routing, server start-up and the database connection (database.go).
- Concurrency: `sync.Once` is modelled sequentially, as a flag.
- `ShouldBindJSON` validation (`binding:"required"`, `email`, `min`) is not modelled. The bind outcome is a parameter.
- Middleware.FloatToUint: Go leaves `uint(f)` implementation-specific outside the uint range. The model gives 0 there.
- GoValues.JsonDecoded: integers become exact reals, although a float64 holds every integer only up to 2^53. For that reason the lemmas that carry an id through a token require the id to be at most 2^53.
- Middleware.ExtractUserID: 32-bit platforms, where `uint` has 32 bits, are not modelled.
- AuthController.ParseJwtClaims: its "Invalid token claims" branch (internal/controllers/auth_controller.go:178-180) is not modelled. With `jwt.Parse` the claims are always `jwt.MapClaims`, so that branch cannot be reached.
- Jwt.Parse does not model the validator's leeway, `iat` checks or `aud`/`iss` options, none of which the code configures.
- Jwt.TimeValid: `now` is the clock in whole Unix seconds. Under RFC 7519 section 4.1.4 a token must not be accepted on or after its `exp`. golang-jwt v5 truncates `exp` to whole seconds and reads 0 as no expiry, and the model does the same.
- The `interfaces.UserRepository` interface is the method set of `Repositories.UserRepository`. The model has no separate interface type.
- Repositories.UserRepository.FindByID and the other finders return the row as a value, where the Go code returns a pointer to a fresh copy. Nothing in the code aliases those copies.
- Repositories.UserRepository.Create and Update report a unique violation without saying which index raised it.
- Models.PublicView: `Preferences` is never nil in the model. In Go a nil map marshals as `"preferences": null` and an empty one as `{}`; the model has only the second.
- Preferences are one level of `Value`. Nested maps and arrays inside a preference are not modelled.
- AuthController.AppleLogin takes the Apple identity as given. The code does not verify the identity token, and neither does the model.
- AuthController.AppleLogin: a default name whose 8th byte ends inside a multi-byte character is handled as `AuthController.DefaultUsername` says below.
- AuthController.DefaultUsername: when the 8th byte of the Apple user id falls inside a multi-byte character, Go passes a name that ends in a partial UTF-8 sequence. A Dafny string cannot hold one, so the model keeps only the whole characters within the 8 bytes. For ASCII ids and ids cut on a character boundary, the model and Go agree.
- UserController.UpdateProfile passes `updates["preferences"]` to the user service. What the service does with it (replace or merge) is in no file of this model and is not modelled.
- UserController.DeleteUser gives 500 for any service error, including an id with no row, as user_controller.go:116-119 does.
- AuthController.RefreshKeepsIdentity: it does not prove that `iat` strictly increases. The clock readings are parameters, and the code does not compare them with the old token.

## Findings

| source | as written | input that shows it | evidently intended | confidence | as-written member | corrected member |
|---|---|---|---|---|---|---|
| internal/database/repositories/factory.go:34-38 | `SetUserRepository` stores the repository, then replaces `userRepositoryOnce` with a fresh `sync.Once{}`. The next `GetUserRepository` runs the initializer again and overwrites the injected instance. | `SetUserRepository(mock)` followed by `GetUserRepository()` returns a new repository on the real database, not `mock`. | The comment says `GetUserRepository` "will use the new instance": store it and leave the once fired. | high, not executed | RepositoryFactory.SetThenGetDiscardsInjected | RepositoryFactory.InjectThenGetReturnsInjected |
