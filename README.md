# oricom-goframework: repository and bearer-token rules in Dafny

This project models two parts of the Go framework `oricom-goframework`.

**The generic MongoDB repository.** `RepositoryBase` (database/repository_base.go)
and its older variant `ServiceBase` (database/service_base.go) run every
operation against one named collection. Each operation checks its arguments,
makes one call to the store and, for reads, drains the resulting cursor into
the caller's slice. The model makes the collection a `Store` object
(`DocumentStore.Store`, a sequence of `(ObjectId, Doc)` entries plus a log of
the requests it received). A cursor is a `Cursor` object with a position, a
`closed` flag and an optional failure after its last batch. Decoding is a
caller-supplied partial function `Doc -> Result<T>`. The caller's slice and
result pointer are `Container`/`Slot` objects behind `SliceArg`/`ResArg`,
whose `NotASlicePointer`/`NotAResPointer` cases stand for the `reflect.Ptr`
check. The error types of database/errors.go are `DatabaseErrors.Error`.

**Bearer-token rules.** Every `web/...` package splits the `Authorization`
header at its first space into exactly two parts and requires the first to
lower-case to `bearer` (section 2.1 of RFC 6750; the scheme is
case-insensitive per section 2.1 of RFC 7235). That rule is
`AuthorizationHeader.Credentials`. The `jwt-go` library is an oracle: the
`Jwt.Parser` splits and decodes a token, and a validation step checks its
signature and time claims under a key. The framework's part of the library is
modelled outright: the key function that refuses every non-HMAC method, and
what `Parse` returns from those steps. `AuthenticationToken.Decode`, the role
checks and the admit-or-401 decisions of the plain, mux, gin and echo
middlewares are modelled on top of that. `Outcome` and `Decision` have an
explicit `Panic`/`Panicked` case for Go's failed type assertions and nil
dereferences.

Modules, one per source file:

| file | module | models |
|---|---|---|
| outcomes.dfy | Outcomes | `Option`, `Result`, `Outcome` (with panic), `Decision` |
| go_strings.dfy | GoStrings | `strings.ToLower` (ASCII), `strings.SplitN(s, " ", 2)` |
| authorization_header.dfy | AuthorizationHeader | the header rule shared by all web packages |
| jwt.dfy | Jwt | claims values, `jwt.Parse` over opaque steps, the HMAC key function |
| web_tokens.dfy | WebTokens | web/authentication_token.go |
| web_middleware.dfy | WebMiddleware | web/authentication.go |
| authentication.dfy | Authentication | web/authentication/authentication_token.go |
| authentication_mux.dfy | AuthenticationMux | web/authentication/mux/authentication.go |
| mux_context.dfy, mux_middleware.dfy | MuxContext, MuxMiddleware | web/mux |
| echo_context.dfy, echo_middleware.dfy | EchoContext, EchoMiddleware | web/echo |
| gin_middleware.dfy | GinMiddleware | web/gin/middleware.go |
| object_id.dfy | ObjectIds | `primitive.ObjectIDFromHex` and `ObjectID.Hex` |
| database_errors.dfy | DatabaseErrors | database/errors.go, and the other errors the layer passes on |
| document_store.dfy | DocumentStore | the collection, its cursor, and skip/limit windows |
| generic_decode.dfy | GenericDecode | the `fill` loop shared by both repository variants |
| repository_base.dfy | Repository | database/repository_base.go |
| service_base.dfy | Service | database/service_base.go |

Points where the code's behaviour is not what its names suggest, and how
the model settles them:

- **What UpdateOne decodes.** `UpdateOne` decodes the document that
  `FindOneAndUpdate` returns. With default options (no `ReturnDocument:
  After`) the driver returns the document as it was before the update, so
  `DocumentStore.Store.UpdateResponse` is the stored document before `apply`.
- **How a missing identifier surfaces.** `ServiceBase.UpdateOne` with a nil
  `result` returns `nil` even when no document matched.
  `RepositoryBase.UpdateOne` returns the store's "no documents" error there.
- **The unreachable "Invalid token" branch.** It is at
  web/authentication/authentication_token.go:88 and
  web/authentication_token.go:52. `jwt.Parse` with the default parser always
  yields `MapClaims`, and it returns a nil error exactly when the token is
  valid. So `Jwt.Token` keeps neither flag, and the branch does not occur.
- **The dead `cur.Err()` check in `RepositoryBase.GetOne`.** It comes after a
  successful decode, and the driver reports a batch failure only once
  `Next` has returned false. So the check never fires and is not modelled.
- **The shared token secret.** The secret that
  web/authentication/authentication_token.go uses is declared outside the
  files modelled here, so `Decode` takes it as a parameter. The
  `web/authentication_token.go` secret is the `WebTokens.Package.tokenSecret`
  field that `Init` sets.
- **The type names in web/authentication/mux/authentication.go and
  web/gin/middleware.go.** Those files name `authentication.Token` (the gin
  middleware decodes into `&authentication.Token{}` at line 20) and
  `authentication.TokenRole`. They are modelled as `AuthenticationToken`,
  whose zero value is `Zero`, and `AuthenticationTokenRole`.

## Model

| member | source | states |
|---|---|---|
| GoStrings.SplitOnce | web/mux/middleware.go:13-14 | `SplitN(h, " ", 2)` gives one part exactly when `h` has no space, namely `h` itself. Otherwise it gives two parts, where the first has no space and the two joined by a space rebuild `h`. |
| GoStrings.SplitOnceOf | web/echo/context_utils.go:13 | A scheme without spaces, a space and any rest split into exactly `[scheme, rest]`, even when the rest holds further spaces. |
| GoStrings.ToLowerIgnoresCase | web/authentication/authentication_token.go:116 | Lower-casing ignores the case of its input: upper-casing first changes nothing, and lower-casing is idempotent. |
| GoStrings.ToLowerShape | web/authentication/authentication_token.go:116 | Lower-casing keeps the length and leaves no upper-case ASCII letter. |
| GoStrings.ToLower | web/authentication/authentication_token.go:116 | Lower-casing keeps the length and changes nothing but letter case: each character upper-cases to what the original character upper-cases to. |
| AuthorizationHeader.CredentialsIff | web/authentication_token.go:57-61 | The header yields token `t` if and only if it is `scheme + " " + t` for a scheme without spaces that lower-cases to `bearer`. |
| AuthorizationHeader.Credentials | web/authentication_token.go:57-61 | Accepted credentials are passed on unchanged: they are a proper suffix of the header. |
| AuthorizationHeader.NoSpaceRejected | web/echo/context_utils.go:13-16 | A header without a space is rejected. |
| AuthorizationHeader.SchemeCaseIgnored | web/echo/context_utils.go:14 | `Bearer`, `BEARER` and `bearer` are all accepted, and the rest is passed on unchanged. |
| AuthorizationHeader.SchemeAccepted | web/mux/context_utils.go:13-14 | Any spaceless scheme that lower-cases to `bearer` is accepted. |
| AuthorizationHeader.OtherSchemeRejected | web/mux/context_utils.go:14-16 | A `Basic` header is rejected whatever follows. |
| Jwt.Parse | web/authentication_token.go:39-47 | A token parses if and only if it decodes, the key function gives a key for its method, and it validates under that key. The parsed claims are the decoded ones, and a key-function error is returned as is. |
| Jwt.HmacKeyRejectsOthers | web/authentication_token.go:40-43 | The key function gives the secret exactly for HMAC methods. Any other method gets "Unexpected signing method: " and its `alg`. |
| Jwt.HmacKey | web/authentication_token.go:39-44 | The key function gives a key exactly for HMAC methods, and that key is the secret. |
| Jwt.Get | web/authentication/authentication_token.go:96 | A Go map lookup on the claims: a non-nil value is the entry stored under the key, and an absent key reads as nil. |
| Jwt.ParseRefusesNonHmac | web/authentication/authentication_token.go:60-65 | A well-formed token signed with a non-HMAC method is refused with the unexpected-method error. |
| Jwt.ParseWithSecret | web/authentication/authentication_token.go:60-68 | Parsing with the secret succeeds if and only if the token decodes, is HMAC-signed and validates under the secret. |
| WebTokens.Package.constructor | web/authentication_token.go:13-15 | The package secret starts empty. |
| WebTokens.Package.Init | web/authentication_token.go:18-20 | `Init` sets the package secret. |
| WebTokens.Package.ParseToken | web/authentication_token.go:38-53 | Claims are returned if and only if the token decodes, is HMAC-signed and validates under the package secret. A decode error and a non-HMAC method become the matching errors. |
| WebTokens.Package.ParseTokenFromHeader | web/authentication_token.go:56-62 | A rejected header gives "No authorization header". Otherwise the result is `ParseToken` of the text after the first space. |
| WebTokens.ParseUsesInitSecret | web/authentication_token.go:39-44 | Two packages with the same secret parse every header identically. A token that fails validation under the secret is refused. |
| WebMiddleware.Authenticate | web/authentication.go:9-26 | A request is admitted exactly when the header is accepted and `ParseToken` succeeds. Otherwise the answer is 401 "Unauthorized". |
| WebMiddleware.AuthenticateAdmitsIff | web/authentication.go:12-24 | For a `scheme token` header, admission holds if and only if the scheme is `bearer` in any case, the token decodes, is HMAC-signed and validates under the secret. |
| WebMiddleware.AdminScanHit | web/authentication.go:45-51 | The role scan stops at a hit exactly when some role lower-cases to `admin` and no non-string comes before it. |
| WebMiddleware.AdminScan | web/authentication.go:45-51 | A hit means some role string lower-cases to `admin`. A panic means some role is not a string. A miss means every role is a string and none lower-cases to `admin`. |
| WebMiddleware.AdminDecision | web/authentication.go:44-57 | The request is admitted exactly when the role claim is a list and the scan hits. A 401 "Unauthorized" comes only from a list of roles none of which is the string `admin`. |
| WebMiddleware.AdminScanOfStrings | web/authentication.go:46-50 | Over string roles the scan never panics, and it hits exactly when some role lower-cases to `admin`. |
| WebMiddleware.AuthenticateAdmin | web/authentication.go:29-59 | The loop method refuses a rejected header or token with 401. On parsed claims its decision is the admin scan's: admit on a hit, 401 on a miss, a panic on a non-string or non-list role claim. |
| Authentication.TokenRole.Check | web/authentication/authentication_token.go:114-121 | True if and only if some stored role equals the argument ignoring case. |
| Authentication.HasRoleIgnoringCase | web/authentication/authentication_token.go:115-120 | The search loop finds a role exactly when one equals the argument ignoring case. |
| Authentication.NewAuthenticationTokenRole | web/authentication/authentication_token.go:37-41 | The role list is stored unchanged. |
| Authentication.CheckOnEmpty | web/authentication/authentication_token.go:114-126 | `Check` is false on an empty role list, so a true `Check` implies a non-empty list. |
| Authentication.TokenRole.Empty | web/authentication/authentication_token.go:123-126 | An empty role list grants no role at all. A non-empty one grants at least its first role. |
| Authentication.CheckIgnoresArgumentCase | web/authentication/authentication_token.go:116 | Two arguments equal up to case get the same answer. |
| Authentication.CheckOfUpperCase | web/authentication/authentication_token.go:116 | Upper-casing the argument does not change the answer. |
| Authentication.CheckIgnoresStoredCase | web/authentication/authentication_token.go:116 | Role lists equal up to case, position by position, answer alike. |
| Authentication.TokenFields.Claim | web/authentication/authentication_token.go:92-97 | Without claims the result is "Claims are empty". Otherwise it is the map entry, which is nil with no error for an absent key. |
| Authentication.TokenFields.Expired | web/authentication/authentication_token.go:100-108 | Claim's error propagates. The call succeeds if and only if the `exp` claim is a Go `int`, and then returns it. Anything else is "unknow type". |
| Authentication.TokenFields.ExpiredCorrected | web/authentication/authentication_token.go:100-108 | The corrected check: a float `exp` (as JSON decodes it) is read truncated toward zero, and an `int` is read as is. |
| Authentication.Truncate | web/authentication/authentication_token.go:77-78 | The `int64` conversion of a float truncates toward zero. |
| Authentication.NewAuthenticationToken | web/authentication/authentication_token.go:28-34 | Subscriber, name and roles are stored unchanged. Expiration is the zero time and the claims are nil. |
| Authentication.UndecodedHasNoClaims | web/authentication/authentication_token.go:92-95 | Before a decode, both `Claim` and `Expired` give "Claims are empty". |
| Authentication.StringList | web/authentication/authentication_token.go:69-75 | The role claim is read without a panic if and only if it is a list of strings. It then gives those strings, in order. |
| Authentication.ConcatClaim | web/authentication/authentication_token.go:69-75 | The append loop computes `StringList` of the claim: the strings in order, or a panic at the first non-string or on a non-list. |
| Authentication.Assign | web/authentication/authentication_token.go:80-86 | Assignment completes if and only if the claims are well shaped: string `sub` and `name`, a string-list `role`, a float `exp`. It then sets every field from the claims. A bad claim is a panic. |
| Authentication.Decoded | web/authentication/authentication_token.go:59-89 | A parse error is returned and leaves the fields unchanged. A parsed token's claims are assigned. |
| Authentication.DecodedIff | web/authentication/authentication_token.go:59-89 | Decode succeeds if and only if the token decodes, is HMAC-signed, validates under the secret and is well shaped. An error leaves the fields unchanged. On success the claims are stored and the roles keep the claim's order. |
| Authentication.ClaimAfterDecode | web/authentication/authentication_token.go:85-96 | After a successful decode, `Claim` returns the token's own claim. |
| Authentication.ExpiredFailsAfterDecode | web/authentication/authentication_token.go:84-107 | After every successful decode, `Expired` fails with "unknow type". |
| Authentication.ExpiredCorrectedAfterDecode | web/authentication/authentication_token.go:84-110 | After a successful decode, the corrected check reads the expiration that `Decode` stored. |
| Authentication.AuthenticationToken.constructor | web/authentication/authentication_token.go:13-20 | A new token holds the zero value of every field. |
| Authentication.AuthenticationToken.Decode | web/authentication/authentication_token.go:59-89 | The method's new field values and its error are those of `Decoded` on the old values. |
| MuxContext.GetTokenFromHeader | web/mux/context_utils.go:12-22 | A rejected header gives "No authorization header". Decode's error is returned as is, and a decoded token is returned. |
| MuxContext.GetTokenFromHeaderIff | web/mux/context_utils.go:13-21 | A token is returned if and only if the header is accepted and its token decodes, is HMAC-signed, validates and is well shaped. That token has a role list and the token's claims. |
| MuxContext.RefusedTokenIsError | web/mux/context_utils.go:18-20 | A token `jwt-go` refuses gives its error, for either spelling of the scheme. |
| AuthenticationMux.ParseTokenFromHeader | web/authentication/mux/authentication.go:13-21 | A rejected header gives "No authorization header". For any accepted header there is no error: the decoded token is returned, and a panic propagates. |
| AuthenticationMux.ParseKeepsUndecodedToken | web/authentication/mux/authentication.go:18-20 | A token `jwt-go` refuses yields the zero token with no error. |
| AuthenticationMux.GetTokenRoleFromHeader | web/authentication/mux/authentication.go:24-30 | An error occurs exactly for a rejected header. Otherwise the result is the token's role pointer, nil when decode failed. |
| AuthenticationMux.GetTokenRole | web/authentication/mux/authentication.go:33-39 | The append loop returns the role claim's strings, in order and of the same length. A non-string or non-list panics. |
| AuthenticationMux.CheckTokenRole | web/authentication/mux/authentication.go:42-50 | The search loop answers `Check` on the claim's roles, and panics exactly when reading them panics. A true answer names a matching position. |
| AuthenticationMux.CheckTokenRoleFromHeader | web/authentication/mux/authentication.go:53-59 | False for a rejected header. A panic for the nil role of an undecodable token, and a panic inside decoding reaches the caller. Otherwise "non-empty and `Check`". |
| AuthenticationMux.CheckTokenRolePanicsOnUndecodable | web/authentication/mux/authentication.go:53-58 | With a well-formed header whose token `jwt-go` refuses, the check panics instead of answering false. |
| AuthenticationMux.CheckTokenRoleFromHeaderChecked | web/authentication/mux/authentication.go:53-59 | The corrected check: any header or decode error answers false, and a decoded token answers "non-empty and `Check`". |
| AuthenticationMux.CheckedRoleRefusesUndecodable | web/authentication/mux/authentication.go:53-59 | The corrected check answers false for a token `jwt-go` refuses. |
| AuthenticationMux.GetTokenSubFromHeader | web/authentication/mux/authentication.go:62-68 | The header error, or the token's subscriber. A panic only when parsing panics. |
| AuthenticationMux.SubOfUndecodable | web/authentication/mux/authentication.go:62-68 | For a token `jwt-go` refuses, the subscriber is `""` with no error. |
| AuthenticationMux.GetTokenClaimFromHeader | web/authentication/mux/authentication.go:71-81 | The header error, "Claims are empty", or the claim's string. A non-string claim panics, and so does a panic inside decoding. |
| AuthenticationMux.ClaimOfUndecodable | web/authentication/mux/authentication.go:76-79 | For a token `jwt-go` refuses, every claim lookup fails with "Claims are empty". |
| AuthenticationMux.Authenticate | web/authentication/mux/authentication.go:84-95 | Admitted if and only if the header is accepted and parsing does not panic. A rejected header gets 401 "Unauthorized". |
| AuthenticationMux.AuthenticateAdmitsUndecodable | web/authentication/mux/authentication.go:87-93 | Any well-formed header is admitted even when `jwt-go` refuses its token. |
| AuthenticationMux.AuthenticateChecked | web/authentication/mux/authentication.go:84-95 | The corrected middleware admits exactly when the token decodes, and otherwise refuses with 401. |
| AuthenticationMux.AuthenticateCheckedAdmitsIff | web/authentication/mux/authentication.go:84-95 | The corrected middleware admits if and only if the header is accepted and the token decodes, is HMAC-signed, validates and is well shaped. A refused token gets 401. |
| AuthenticationMux.AuthenticateRole | web/authentication/mux/authentication.go:98-108 | Admitted exactly when `CheckTokenRoleFromHeader` is true. It panics when that panics, and otherwise gives 401. |
| AuthenticationMux.AuthenticateRoleOnDecoded | web/authentication/mux/authentication.go:101-106 | For a decodable token, admitted if and only if some role of the claim equals the requested role ignoring case. |
| AuthenticationMux.AuthenticateRolePanicsOnUndecodable | web/authentication/mux/authentication.go:101 | A token `jwt-go` refuses makes the middleware panic instead of answering 401. |
| AuthenticationMux.AuthenticateRoleChecked | web/authentication/mux/authentication.go:98-108 | The corrected middleware admits exactly when the corrected check is true. |
| AuthenticationMux.AuthenticateRoleCheckedRefusesUndecodable | web/authentication/mux/authentication.go:101-104 | The corrected middleware gives 401 for a token `jwt-go` refuses. |
| GinMiddleware.Authenticate | web/gin/middleware.go:12-40 | A rejected header gives 401 "Invalid token header", and a decode error gives 401 with its message. A panic needs an accepted header, and a panic inside decoding reaches the caller. A missing or nil role claim panics inside `Decode`. For a decoded token: an empty role admits, and a non-empty role is admitted when `Check` holds and refused with 401 "Unauthorized" otherwise. |
| GinMiddleware.AuthenticateAdmitsIff | web/gin/middleware.go:14-38 | Admitted if and only if the header is accepted and the token decodes, is HMAC-signed, validates and is well shaped, and the role is empty or is held ignoring case. A panic comes only from a decode panic. |
| GinMiddleware.EmptyRoleAndRefusedToken | web/gin/middleware.go:20-27 | An empty role admits every decodable token. A token `jwt-go` refuses gets 401 with the library's message. |
| MuxMiddleware.ParseTokenFromHeader | web/mux/middleware.go:12-20 | "No authorization header" exactly for a rejected header. A decode error is dropped, leaving the zero token. A panic inside decoding is passed on. A decoded token is returned. |
| MuxMiddleware.AuthenticateRole | web/mux/middleware.go:23-36 | A rejected header gets 401. A nil role panics, and so does a panic inside decoding. Otherwise admitted if and only if `Check` holds. |
| MuxMiddleware.AuthenticateRolePanicsOnUndecodable | web/mux/middleware.go:17-30 | A token `jwt-go` refuses makes the middleware panic instead of answering 401. |
| MuxMiddleware.AuthenticateRoleChecked | web/mux/middleware.go:23-36 | The corrected middleware: any header or decode error gives 401, and a decoded token is admitted if and only if it holds the role. |
| MuxMiddleware.AuthenticateRoleCheckedRefuses | web/mux/middleware.go:25-33 | The corrected middleware gives 401 for a token `jwt-go` refuses, and panics only when decode panics. |
| EchoContext.GetTokenFromHeader | web/echo/context_utils.go:12-22 | A rejected header gives "No authorization header". Decode's error propagates with no token. A returned token is a fresh token that decoded. |
| EchoMiddleware.Authenticate | web/echo/middleware.go:8-16 | Admitted exactly when `GetTokenFromHeader` returns a token. Refused with `ErrUnauthorized` exactly when it errs. A panic exactly when it panics. |
| EchoMiddleware.AuthenticateAdmin | web/echo/middleware.go:19-30 | A token error gets `ErrUnauthorized`, and a panic in `GetTokenFromHeader` is passed on. A decoded token is admitted if and only if `Check("admin")` holds. |
| EchoMiddleware.AdminImpliesAuthenticated | web/echo/middleware.go:10-28 | Authentication implies a parsed token. Admin admission is exactly authentication plus a role that lower-cases to `admin`. |
| ObjectIds.HexError.Message | database/repository_base.go:151-154 | The two parse errors' texts: a wrong length gives "the provided hex string is not a valid ObjectID", and a bad digit gives `hex`'s invalid-byte message. |
| ObjectIds.DigitValue | database/repository_base.go:151 | A hexadecimal digit's value lies in 0..15 and spells back as the same character up to letter case. A refused character is the spelling of no value below 16. |
| ObjectIds.Hex | database/repository_base.go:151 | The 24-character lower-case spelling, two digits per byte. |
| ObjectIds.FromHex | database/repository_base.go:151-154 | Parsing succeeds if and only if there are 24 hexadecimal digits. A wrong length is `ErrInvalidHex`. A 24-character failure is always `InvalidByteError`, naming the first bad digit, and each byte is its two digits' value. |
| ObjectIds.HexRoundTrip | database/repository_base.go:151 | Parsing an identifier's spelling gives it back. |
| ObjectIds.ParsedIsHexUpToCase | database/repository_base.go:151 | A parsed string is the parsed identifier's spelling, up to case. |
| ObjectIds.FromHexIgnoresCase | database/repository_base.go:151 | Lower-casing the input does not change a successful parse, nor turn a failure into a success. |
| ObjectIds.FromHexRejectsLength | database/repository_base.go:151-154 | Every string whose length is not 24 is refused with `ErrInvalidHex`. |
| ObjectIds.FromHexRejectsDigit | database/repository_base.go:151-154 | A 24-character string starting with `g` is refused with that byte. |
| DatabaseErrors.Error.Message | database/errors.go:8-20 | `EntityNotFound` says "Entity not found". `InvalidArgument` says exactly its `Description`. Other errors say their own text. |
| DocumentStore.Window | database/repository_base.go:97-102 | A negative skip is the server's error. Otherwise the page is the contiguous run starting at the skip, clamped to the collection, of at most `limit` documents when the limit is non-zero. |
| DocumentStore.WindowEdges | database/repository_base.go:97-99 | Limit 0 is no limit. No limit reads to the end. A skip past the end reads nothing. |
| DocumentStore.WindowLength | database/repository_base.go:97-99 | The page has `min(limit, remaining)` documents, or all remaining ones when the limit is 0. |
| DocumentStore.WindowPagesTile | database/repository_base.go:97-99 | Two consecutive pages of size n make up the page of size 2n. |
| DocumentStore.WindowExample | database/repository_base.go:97-99 | Skip 1 and limit 1 over [a, b, c] give [b]. |
| DocumentStore.Store.constructor | database/repository_base.go:124 | A collection handle starts empty, with its environment fixed. |
| DocumentStore.Store.Select | database/repository_base.go:125 | A query's matches are stored documents that match it, and there are no more of them than stored entries. |
| DocumentStore.Store.Positions | database/repository_base.go:125 | The positions of the passing entries: increasing, each one passes, and every passing entry is among them. |
| DocumentStore.Store.SelectInOrder | database/repository_base.go:125 | `Select` is the documents at `Positions`, one for one and in store order. |
| DocumentStore.Store.SelectComplete | database/repository_base.go:125 | Every stored document that passes the filter is selected. |
| DocumentStore.Store.Selected | database/service_base.go:158 | A nil filter gives the driver's error when it has one, and every document otherwise. Any other filter gives its matches. |
| DocumentStore.Store.SelectEverything | database/repository_base.go:177 | The match-all filter selects every document in store order. |
| DocumentStore.Store.SelectById | database/repository_base.go:155 | With unique identifiers, an `_id` filter selects the one document stored under it, or none. |
| DocumentStore.Store.Batch | database/repository_base.go:44-46 | A cursor fault truncates the page to a prefix and records the error. Without a fault, every document comes back. |
| DocumentStore.Store.FindResponse | database/repository_base.go:102-105 | An outage is the error. A found page is the window of the selection, cut by any cursor fault. |
| DocumentStore.Store.AggregateResponse | database/repository_base.go:58-61 | An outage or the pipeline's error is returned. Otherwise the pipeline's output comes back, cut by any cursor fault. |
| DocumentStore.Store.CountResponse | database/repository_base.go:196-199 | The number of selected documents, which never exceeds the collection. |
| DocumentStore.Store.Find | database/repository_base.go:102 | Logs the request and changes no document. It returns a fresh unread cursor over the response, or its error. |
| DocumentStore.Store.AggregateCursor | database/repository_base.go:58 | Logs the request and returns a fresh unread cursor over the pipeline's output, or its error. |
| DocumentStore.Store.CountDocuments | database/repository_base.go:196 | Logs the request and returns the count response. |
| DocumentStore.Store.InsertOne | database/repository_base.go:216 | Appends the document under the generated identifier, or fails on an outage or a duplicate key. Identifiers stay unique. |
| DocumentStore.Store.UpdateResponse | database/repository_base.go:226 | No match is "mongo: no documents in result". A match is the document before the update. |
| DocumentStore.Store.FindOneAndUpdate | database/repository_base.go:226 | Returns the document before the update and replaces that entry with the updated one. Identifiers stay unique. |
| DocumentStore.Store.ReplaceOne | database/repository_base.go:242 | Replaces the entry stored under the identifier, if any. Identifiers stay unique. |
| DocumentStore.Store.DeleteOne | database/repository_base.go:249 | Removes the entry stored under the identifier, if any, keeping the order of the rest. |
| DocumentStore.Cursor.constructor | database/repository_base.go:102 | A new cursor is unread, open and positioned before its first document. |
| DocumentStore.Cursor.Next | database/repository_base.go:24 | Advances exactly while open documents remain. Otherwise it stays put and marks the cursor done. |
| DocumentStore.Cursor.Current | database/repository_base.go:135 | The document the last `Next` moved to, which `Decode` reads. |
| DocumentStore.Cursor.Err | database/repository_base.go:44 | The failure is reported only after the last document, once `Next` has said no. |
| DocumentStore.Cursor.Close | database/repository_base.go:63 | The cursor is closed. |
| GenericDecode.DecodeAll | database/repository_base.go:24-42 | Decodes a prefix of the documents one by one, in order. It reports the first decode error, and all documents when there is none. |
| GenericDecode.DecodeAllIs | database/repository_base.go:24-42 | That description determines the result uniquely. |
| GenericDecode.DecodeAllPrefix | database/repository_base.go:34-41 | Further documents do not change the values already decoded. After an error, they change nothing. |
| GenericDecode.Drained | database/repository_base.go:24-48 | `fill`'s outcome is the decoded prefix plus the decode error, else the cursor's error, else none. |
| GenericDecode.DrainedAll | database/repository_base.go:24-48 | When every document decodes and the cursor is healthy, every document is decoded in order, with no error. |
| GenericDecode.Drain | database/repository_base.go:24-48 | The loop appends exactly the decoded prefix after what the slice held. Partial results stay after a decode error. It returns `Drained`'s error and leaves the cursor open. |
| Repository.ReadResult | database/repository_base.go:77-88 | A failed find appends nothing and returns the error. Otherwise the outcome is `fill`'s. |
| Repository.OneResult | database/repository_base.go:121-143 | Covers each case: the store's error, `EntityNotFound` for an empty cursor, the decode error, or the first document decoded into `res`. `res` changes only in the last case. |
| Repository.OneHidesCursorError | database/repository_base.go:131-141 | An empty cursor is `EntityNotFound` even when the cursor failed. The failure of a cursor with a document is never reported. |
| Repository.UpdateResult | database/repository_base.go:226-236 | The store's error comes first. A nil result returns nil without decoding. Otherwise the decoded document or its error. |
| Repository.RepositoryBase.Fill | database/repository_base.go:19-49 | A non-pointer gives `InvalidArgument` without touching the cursor. Otherwise `fill` appends the decoded prefix and returns `Drained`'s error. |
| Repository.RepositoryBase.Query | database/repository_base.go:72-89 | A non-pointer gives `InvalidArgument` and no store call. Otherwise one `Find` with no options, and the slice extended by `ReadResult`. The returned cursor is fresh, holds exactly the store's response, and is closed. There is a cursor exactly when the argument is a pointer and `Find` succeeded. |
| Repository.RepositoryBase.QueryAndPage | database/repository_base.go:92-113 | Like `Query`, but skip and limit are forwarded unchanged as find options. The returned cursor is fresh, holds exactly the store's response, and is closed. There is a cursor exactly when the argument is a pointer and that `Find` succeeded. |
| Repository.RepositoryBase.Aggregate | database/repository_base.go:52-69 | A non-pointer gives `InvalidArgument` and no store call. Otherwise one aggregate call, and the slice extended by the pipeline's decoded output. The returned cursor is fresh, holds exactly the store's response, and is closed. There is a cursor exactly when the argument is a pointer and the aggregate call succeeded. |
| Repository.RepositoryBase.GetOne | database/repository_base.go:116-144 | A non-pointer gives `InvalidArgument` and no store call. Otherwise one `Find` with limit 1, with `res` and the error as `OneResult` says. The returned cursor is fresh, holds exactly the store's response, and is closed. There is a cursor exactly when the argument is a pointer and `Find` succeeded. |
| Repository.RepositoryBase.GetByHexID | database/repository_base.go:147-159 | A non-pointer or an unparsable identifier gives its error, with no store call and `res` unchanged. Otherwise it is `GetOne` on `{_id: id}`. The returned cursor is fresh, holds exactly the store's response, and is closed. There is a cursor exactly when the argument is a pointer, the identifier parses, and `Find` succeeded. |
| Repository.RepositoryBase.GetByObjID | database/repository_base.go:162-170 | A non-pointer gives `InvalidArgument`. Otherwise it is `GetOne` on `{_id: id}`. The returned cursor is fresh, holds exactly the store's response, and is closed. There is a cursor exactly when the argument is a pointer and `Find` succeeded. |
| Repository.RepositoryBase.GetAll | database/repository_base.go:173-181 | A non-pointer gives `InvalidArgument`. Otherwise a match-all `Find`, drained into the slice. The returned cursor is fresh, holds exactly the store's response, and is closed. There is a cursor exactly when the argument is a pointer and `Find` succeeded. |
| Repository.RepositoryBase.GetAllWithSkipLimit | database/repository_base.go:184-186 | A match-all page with skip and limit forwarded unchanged. The returned cursor is fresh, holds exactly the store's response, and is closed. There is a cursor exactly when the argument is a pointer and `Find` succeeded. |
| Repository.RepositoryBase.GetWithSkipLimit | database/repository_base.go:189-191 | The caller's filter, with skip and limit forwarded unchanged. The returned cursor is fresh, holds exactly the store's response, and is closed. There is a cursor exactly when the argument is a pointer and `Find` succeeded. |
| Repository.RepositoryBase.CountAll | database/repository_base.go:194-201 | A match-all count, or 0 with the store's error. |
| Repository.RepositoryBase.CountWithFilter | database/repository_base.go:204-211 | The filter's count, or 0 with the store's error. |
| Repository.RepositoryBase.InsertOne | database/repository_base.go:214-221 | The new identifier is returned and the document appended, or the zero identifier is returned with the store's error. Identifiers stay unique. |
| Repository.RepositoryBase.UpdateOne | database/repository_base.go:224-237 | One update by `_id`. The error and `result` follow `UpdateResult`. A store error leaves every document in place. When the store's answer is an error, the documents are unchanged. Otherwise exactly the entry stored under the identifier changes, to the update applied to its old document. Identifiers stay unique. |
| Repository.RepositoryBase.ReplaceOne | database/repository_base.go:240-244 | One replace by `_id`. It returns the store's error, and the entry is replaced when present. |
| Repository.RepositoryBase.DeleteOne | database/repository_base.go:247-254 | One delete by `_id`. It returns the store's error, and the entry is removed when present. |
| Repository.GetAllReadsEverything | database/repository_base.go:173-180 | On a healthy collection whose documents decode, `GetAll` reads every document in store order, with no error. |
| Repository.SkipLimitPage | database/repository_base.go:184-186 | The page asked for is the skip/limit window of the collection. A negative skip appends nothing and returns the server's error. |
| Repository.CountAllMatchesGetAll | database/repository_base.go:194-201 | `CountAll` counts exactly what `GetAll` reads. |
| Repository.InsertedIdIsLast | database/repository_base.go:214-221 | A freshly inserted identifier is found at the end of the collection. |
| Repository.GetByObjIDFindsStored | database/repository_base.go:162-170 | With unique identifiers, the document stored under an identifier comes back decoded, with no error. |
| Repository.GetByObjIDMissing | database/repository_base.go:162-170 | An identifier that is not stored is `EntityNotFound`, with `res` unchanged. |
| Repository.NotFoundIffAbsent | database/repository_base.go:131-138 | On a healthy collection with unique identifiers, a lookup by identifier gives `EntityNotFound` if and only if nothing is stored under it. Any other error it gives is a decode error. |
| Repository.DeletedIdIsMissing | database/repository_base.go:247-254 | After `DeleteOne`, the identifier is gone and reading it back is `EntityNotFound`. |
| Repository.GetOneAsksForOne | database/repository_base.go:121-125 | `GetOne` receives at most one document. |
| Repository.NewRepositoryBase | database/repository_base.go:257-261 | The repository names the given collection. |
| Service.FoundResult | database/service_base.go:123-150 | The first document decoded gives `(true, nil)`. A decode or store error gives `(false, err)`. An empty cursor gives `(false, cursor error)` or `(false, nil)`. |
| Service.FoundVersusOne | database/service_base.go:138-149 | `ServiceBase.GetOne` never gives `EntityNotFound`, and `found` holds exactly when a document decoded. `RepositoryBase` gives `EntityNotFound` exactly for an empty cursor, and the two agree everywhere else. |
| Service.SetResult | database/service_base.go:207-219 | A nil result returns nil whatever the store answered. Otherwise the repository's decode order applies. |
| Service.SetVersusUpdate | database/service_base.go:211-213 | With a nil result a store failure, even "no documents", is reported by `RepositoryBase` and silenced by `ServiceBase`. |
| Service.NilFilterMeaning | database/service_base.go:158 | When the driver accepts a nil filter, it reads and counts what the match-all filter does. Otherwise every such read and count fails with the driver's error. |
| Service.ServiceBase.Fill | database/service_base.go:45-75 | A non-pointer gives the plain error "parameter slice must be a pointer". Otherwise the decoded prefix is appended, with `Drained`'s error. |
| Service.ServiceBase.Query | database/service_base.go:78-95 | A non-pointer gives the plain error and no store call. Otherwise one `Find`, and the slice extended by `ReadResult`. The returned cursor is fresh, holds exactly the store's response, and is closed. There is a cursor exactly when the argument is a pointer and `Find` succeeded. |
| Service.ServiceBase.QueryAndPage | database/service_base.go:98-120 | Like `Query`, but skip and limit are forwarded unchanged. The returned cursor is fresh, holds exactly the store's response, and is closed. There is a cursor exactly when the argument is a pointer and that `Find` succeeded. |
| Service.ServiceBase.GetOne | database/service_base.go:123-150 | A non-pointer gives `(false, "parameter res must be a pointer")` with no store call. Otherwise one `Find` with limit 1, with `res`, `found` and the error as `FoundResult` says. The returned cursor is fresh, holds exactly the store's response, and is closed. There is a cursor exactly when the argument is a pointer and `Find` succeeded. |
| Service.ServiceBase.GetAll | database/service_base.go:153-163 | A non-pointer gives the plain error. Otherwise a nil-filter `Find`, drained into the slice. The returned cursor is fresh, holds exactly the store's response, and is closed. There is a cursor exactly when the argument is a pointer and `Find` succeeded. |
| Service.ServiceBase.GetAllWithSkipLimit | database/service_base.go:166-168 | A nil-filter page with skip and limit forwarded unchanged. The returned cursor is fresh, holds exactly the store's response, and is closed. There is a cursor exactly when the argument is a pointer and `Find` succeeded. |
| Service.ServiceBase.GetWithSkipLimit | database/service_base.go:171-173 | The caller's filter, with skip and limit forwarded unchanged. The returned cursor is fresh, holds exactly the store's response, and is closed. There is a cursor exactly when the argument is a pointer and `Find` succeeded. |
| Service.ServiceBase.CountAll | database/service_base.go:176-183 | A nil-filter count, or 0 with the store's error. |
| Service.ServiceBase.CountWithFilter | database/service_base.go:186-193 | The filter's count, or 0 with the store's error. |
| Service.ServiceBase.InsertOne | database/service_base.go:196-204 | The new identifier is returned and the document appended, or the zero identifier is returned with the store's error. |
| Service.ServiceBase.UpdateOne | database/service_base.go:207-219 | One `{$set: values}` update by `_id`. The error and `result` follow `SetResult`. When the store's answer is an error, the documents are unchanged. Otherwise exactly the entry stored under the identifier changes, to the update applied to its old document. Identifiers stay unique. |
| Service.ServiceBase.DeleteOne | database/service_base.go:222-230 | One delete by `_id`. It returns the store's error, and the entry is removed when present. |
| Service.NewServiceBase | database/service_base.go:233-237 | The service names the given collection. |

## Left out

- MongoDB driver internals are abstract. BSON encoding and decoding, query and update semantics (the `matches` and `apply` functions) and aggregation pipelines (`aggregate`) are supplied with the store. Cursor batching, `context` values and timeouts are not modelled.
- Server and driver messages are stand-ins. The texts for a negative skip, a duplicate key and a broken connection are constants or store parameters, because the real ones come from the server.
- Merge decoding is not modelled. A decode replaces the destination whole, whereas BSON decodes into an existing value field by field. A failed decode is assumed to leave the destination unchanged.
- Go reflection is reduced to one check. A pointer to a non-slice, or a nil pointer, is not modelled: the slice argument is either not a pointer or a pointer to a slice.
- The argument to `UpdateOne` is a nil result or a pointer. A non-nil value that is not a pointer is not modelled.
- The match-all filter is taken at its intent. `bson.D{{}}` is the document `{"": null}`, which the server matches against every document without a field named `""`. The model treats it as matching everything.
- Repository.RepositoryBase.CountAll: the count is an unbounded integer rather than an `int64`, because a count never exceeds the collection's length.
- ObjectIds.FromHex: the length check counts characters, whereas Go counts UTF-8 bytes, and the two disagree both ways on non-ASCII input. A string of 24 characters that is longer than 24 bytes passes the model's length test and fails on a digit, where Go reports `ErrInvalidHex`. A string of fewer than 24 characters that is exactly 24 bytes gets `ErrInvalidHex` from the model, where Go goes on to decode it and reports `InvalidByteError` for the first byte of the first non-ASCII character.
- ObjectIds.HexError.Message: for a non-ASCII character the model holds the character and names its code point modulo 256, never quoted. Go's `InvalidByteError` holds the first byte of the character's UTF-8 encoding, and `%#U` names that byte as U+0080 to U+00FF and quotes it when it is a printable Latin-1 character. For ASCII input the two agree.
- DocumentStore.Store.ReplaceOne: the replacement document's own `_id` is not modelled. The server refuses a replacement whose `_id` differs from the stored one, while the model stores the replacement under the filter's identifier.
- Repository.RepositoryBase.ReplaceOne: inherits that gap, so the server's refusal of a changed `_id` is not among its errors.
- The identifier `InsertOne` returns is a parameter (`generated`), because the driver draws it at random. An `_id` already present in the document is not modelled.
- Time is left out. `unixToTime` (float64 seconds through `math.Modf`) is reduced to storing the float, and the clock comparison in `Expired` is not modelled. `exp.After(now)` is true while the token has not yet expired, which is the opposite of what the name promises.
- `Encode` and `CreateToken` are not part of this model: they sign with the library and read the clock for the 24-hour expiry.
- JWT signing and verification (RFC 7519, HS256 per section 3.2 of RFC 7518) stay inside the `Jwt.Parser` oracle.
- `strings.ToLower` is modelled for ASCII letters only. Unicode case mappings are not modelled.
- HTTP response writing and the gin and echo contexts are not modelled. Each middleware's outcome is a `Decision`: admit, 401 with a message, or a panic. `next`'s own result is not modelled.
- web/authentication/authentication.go is not part of this model. It wraps functions that are not defined in the files modelled here.
- `Initialize` in database/service_base.go and database/variables.go do connection I/O with a timeout and `log.Fatal`, and are not modelled. The collection handle is the `Store` parameter instead, which must name the repository's collection.
- core/configuration.go is not part of this model: it only reads the environment and files.
- There is no concurrency in the modelled code.

## Findings

| source | as written | input that shows it | evidently intended | confidence | as-written member | corrected member |
|---|---|---|---|---|---|---|
| web/authentication/mux/authentication.go:84-95 | `Authenticate` only checks `ParseTokenFromHeader`'s error, and that function drops `Decode`'s error (lines 18-20). | `Authorization: Bearer x`, where `x` is any string `jwt-go` refuses (bad signature, expired, not a JWT): the request is admitted. | Admit only tokens that decode. | not executed | AuthenticationMux.AuthenticateAdmitsUndecodable | AuthenticationMux.AuthenticateCheckedAdmitsIff |
| web/authentication/mux/authentication.go:53-58 | `CheckTokenRoleFromHeader` calls `roles.Empty()` on the nil `Role` that a failed decode leaves. | `Bearer x` with `x` refused by `jwt-go`: a nil dereference panics. | Answer false. | not executed | AuthenticationMux.CheckTokenRolePanicsOnUndecodable | AuthenticationMux.CheckedRoleRefusesUndecodable |
| web/authentication/mux/authentication.go:98-104 | `AuthenticateRole` inherits that panic. | `Bearer x` with `x` refused by `jwt-go`: the handler panics instead of answering 401. | Answer 401. | not executed | AuthenticationMux.AuthenticateRolePanicsOnUndecodable | AuthenticationMux.AuthenticateRoleCheckedRefusesUndecodable |
| web/mux/middleware.go:17-30 | `AuthenticateRole` calls `token.Role.Check` on the nil `Role` of a token whose decode failed. | `Bearer x` with `x` refused by `jwt-go`: `range` over a nil pointer's field panics. | Answer 401. | not executed | MuxMiddleware.AuthenticateRolePanicsOnUndecodable | MuxMiddleware.AuthenticateRoleCheckedRefuses |
| web/authentication/authentication_token.go:100-108 | `Expired` requires the `exp` claim to be a Go `int`. Claims decoded from JSON hold numbers as `float64`, and `Decode` itself asserts `float64` (line 84). | Any token `Decode` accepts: `Expired` fails with "unknow type". | Read `exp` as a number. | not executed | Authentication.ExpiredFailsAfterDecode | Authentication.ExpiredCorrectedAfterDecode |
