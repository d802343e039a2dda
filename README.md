# Account linking: sealed state, replay protection and the token provider

This project models the core of the account-linking sample: the services that
link a platform user to an account at an external identity provider through
the OAuth 2.0 authorization-code flow with PKCE (RFC 7636).

- `AccountLinkingStateService<TState>` mints a protected, time-limited token
  carrying `{Id, Subject, CodeChallenge, State}`. The flow reads and replaces
  its mutable `State` while the token travels through the redirects. A claim
  is verified in a fixed order: first the PKCE check (section 4.6 of RFC 7636,
  S256 transform of section 4.2), then a single-use claim of the token's `Id`.
- `OAuthStateService` is the older variant. It protects `{Id, UserId, TenantId}`
  and claims the `Id` once on the way back.
- `OAuthTokenProvider` builds the consent URI and claims the token at the end of the flow.
  It also serves the cached access token, refreshes an expired one (keeping the old refresh
  token unless the provider issues a new one), and logs out.
  It keeps one entry per `(tenantId, userId)` in the token store.

Collaborators are abstract:
- The data protector is an injective `Protect` plus an expiration check in `Unprotect` (`DataProtection`).
- JSON is an identity round trip that may yield null or fail (`Json`).
- The replay validator is a map from claimed ids to the instant their claim lapses (`ReplayValidation`).
  Its source is not part of this model. The model assumes an insert-if-absent store whose entries
  stay alive up to and including their `until` instant.
- The identity provider's two endpoints are fixed functions, and every request is recorded in `calls` (`OAuth.OAuthServiceClient`).
- The token store is a map field of the provider.
- The clock reading (`now`, in seconds) and the fresh `Guid` (`id`) are parameters.
- `Pkce.Base64UrlEncodeSha256` is the state service's `transform` function.

Modules: `Wrappers`, `Errors`, `Json`, `DataProtection`, `ReplayValidation`,
`AccountLinkingState`, `LegacyOAuthState`, `OAuth`.

Behaviour of the code that the model keeps:
- A cached token whose expiration equals `now` is still returned (`AccessTokenExpiration >= DateTime.Now`, OAuthTokenProvider.cs:77).
- `NeedsConsentResult` carries no redirect URI.
- A stored entry that is not valid JSON makes `GetAccessTokenAsync` throw.
  Only a missing entry or a `null` DTO yields `NeedsConsent`.
- After the code exchange, the refresh token is stored as the provider returned it, possibly null (OAuthTokenProvider.cs:134).
- The legacy `VerifyAsync` returns the default tuple, without claiming, when the record is null.
- There is no key rotation and no `Subject` is ever set.
- `OAuthTokenProvider.cs` sits in the `OAuth` namespace, whose own `OAuthStateObject` is `{Id, UserId, TenantId}`. C# binds the simple name there before any imported one.
  As written, `mutableState?.OAuthCode` (OAuthTokenProvider.cs:119) therefore does not compile. The model gives the provider the account-linking `OAuthStateObject` (`ClientState`, `OAuthCode`), which line 119 requires.

## Model

| member | source | states |
|---|---|---|
| `Json.Serialize` | samples/account-linking/csharp/Source/Services/AccountLinkingStateService/AccountLinkingStateService.cs:51 | deserializing what was serialized gives the value back |
| `Json.Deserialize` | samples/account-linking/csharp/Source/Services/AccountLinkingStateService/AccountLinkingStateService.cs:59 | fails exactly on malformed text, yields null exactly for `null`, otherwise the serialized value |
| `DataProtection.Protect` | samples/account-linking/csharp/Source/Services/AccountLinkingStateService/AccountLinkingStateService.cs:52 | the token unprotects to its payload and expiration up to that instant and is expired after it |
| `DataProtection.Unprotect` | samples/account-linking/csharp/Source/Services/AccountLinkingStateService/AccountLinkingStateService.cs:58 | succeeds exactly on a protected string not yet expired, and then returns what was protected; a foreign string is an invalid token |
| `ReplayValidation.Claim` | samples/account-linking/csharp/Source/Services/AccountLinkingStateService/AccountLinkingStateService.cs:97 | an id is taken exactly when no live claim holds it; success records it until `until`, failure changes nothing, other ids are unaffected |
| `ReplayValidation.ReplayValidator.ClaimId` | samples/account-linking/csharp/Source/Services/AccountLinkingStateService/AccountLinkingStateService.cs:97 | returns true exactly when the id was free at `now`, and then adds exactly that id; otherwise the claims are unchanged |
| `AccountLinkingState.Open` | samples/account-linking/csharp/Source/Services/AccountLinkingStateService/AccountLinkingStateService.cs:79-81 | succeeds exactly on an unexpired protected token with JSON text, returning its record (or null) and its `validUntil` |
| `AccountLinkingState.AccountLinkingStateService.constructor` | samples/account-linking/csharp/Source/Services/AccountLinkingStateService/AccountLinkingStateService.cs:28-41 | the service keeps the replay validator, life span and PKCE transform it is given |
| `AccountLinkingState.AccountLinkingStateService.CreateAccountLinkingToken` | samples/account-linking/csharp/Source/Services/AccountLinkingStateService/AccountLinkingStateService.cs:43-54 | the token carries the fresh id, the challenge, an empty subject and the initial state, is valid until `now + lifeSpan` and expired after; reading its state back gives the initial state |
| `AccountLinkingState.AccountLinkingStateService.GetMutableState` | samples/account-linking/csharp/Source/Services/AccountLinkingStateService/AccountLinkingStateService.cs:56-61 | fails as the protector or JSON fails; otherwise returns the record's state, or null for a null record |
| `AccountLinkingState.AccountLinkingStateService.SetMutableState` | samples/account-linking/csharp/Source/Services/AccountLinkingStateService/AccountLinkingStateService.cs:63-75 | succeeds exactly when the token opens to a non-null record, a null record throwing; then only `State` is replaced, `validUntil` is kept, and reading the new token gives the new state |
| `AccountLinkingState.AccountLinkingStateService.Verification` | samples/account-linking/csharp/Source/Services/AccountLinkingStateService/AccountLinkingStateService.cs:77-105 | succeeds exactly when the token opens to a record whose challenge equals the transformed verifier and whose id is unclaimed; a challenge mismatch fails before any claim; the replay exception is raised exactly when the challenge matches and the id is claimed; success returns the state and claims exactly the id until `validUntil`; every failure leaves the claims alone |
| `AccountLinkingState.AccountLinkingStateService.Verify` | samples/account-linking/csharp/Source/Services/AccountLinkingStateService/AccountLinkingStateService.cs:77-105 | the result and the replay validator's new claims are those of `Verification` |
| `AccountLinkingState.ResealingNeverExtendsLifetime` | samples/account-linking/csharp/Source/Services/AccountLinkingStateService/AccountLinkingStateService.cs:63-75 | any chain of reseals keeps id, subject, challenge and `validUntil`, carries the last state written, and every reseal happened at or before `validUntil` |
| `AccountLinkingState.ResealingSucceedsWhileValid` | samples/account-linking/csharp/Source/Services/AccountLinkingStateService/AccountLinkingStateService.cs:63-75 | any chain of reseals of a token holding a record, each made no later than its `validUntil`, succeeds |
| `AccountLinkingState.NoVerificationWhileClaimed` | samples/account-linking/csharp/Source/Services/AccountLinkingStateService/AccountLinkingStateService.cs:97-102 | once the id is claimed until its tokens' `validUntil`, no later verification of them succeeds |
| `AccountLinkingState.VerifiedAtMostOnce` | samples/account-linking/csharp/Source/Services/AccountLinkingStateService/AccountLinkingStateService.cs:97-104 | in any sequence of verifications, interleaved with other tokens', at most one succeeds for tokens carrying a given id |
| `LegacyOAuthState.OAuthStateService.constructor` | samples/account-linking/csharp/Source/Services/OAuth/OAuthStateService/OAuthStateService.cs:29-42 | the service keeps the replay validator and life span it is given |
| `LegacyOAuthState.OAuthStateService.GetState` | samples/account-linking/csharp/Source/Services/OAuth/OAuthStateService/OAuthStateService.cs:44-58 | the token unprotects to `{id, userId, tenantId}` until `now + lifeSpan` and is expired after |
| `LegacyOAuthState.OAuthStateService.Verification` | samples/account-linking/csharp/Source/Services/OAuth/OAuthStateService/OAuthStateService.cs:60-80 | protector and JSON failures propagate; a null record gives the default tuple without a claim; otherwise returns `(userId, tenantId)` exactly when the id was unclaimed, claiming it until `validUntil`, and throws the replay exception exactly when it was claimed |
| `LegacyOAuthState.OAuthStateService.Verify` | samples/account-linking/csharp/Source/Services/OAuth/OAuthStateService/OAuthStateService.cs:60-80 | the result and the replay validator's new claims are those of `Verification` |
| `LegacyOAuthState.StateVerifiesOnlyOnce` | samples/account-linking/csharp/Source/Services/OAuth/OAuthStateService/OAuthStateService.cs:60-80 | the first verification of a fresh state returns `(userId, tenantId)`; a second throws replay before `validUntil` and is expired after |
| `LegacyOAuthState.NoVerificationWhileClaimed` | samples/account-linking/csharp/Source/Services/OAuth/OAuthStateService/OAuthStateService.cs:72-77 | once the id is claimed until its states' `validUntil`, no later verification of them returns a principal |
| `LegacyOAuthState.VerifiedAtMostOnce` | samples/account-linking/csharp/Source/Services/OAuth/OAuthStateService/OAuthStateService.cs:63-79 | in any sequence of verifications at most one returns a principal for a state carrying a given id |
| `OAuth.OAuthServiceClient.RefreshAccessToken` | samples/account-linking/csharp/Source/Services/OAuth/OAuthTokenProvider.cs:86 | returns the refresh endpoint's answer and records exactly one refresh request in `calls` |
| `OAuth.OAuthServiceClient.ClaimCode` | samples/account-linking/csharp/Source/Services/OAuth/OAuthTokenProvider.cs:128 | returns the exchange endpoint's answer, a refusal being an error, and records exactly one exchange request in `calls` |
| `OAuth.PlanAccess` | samples/account-linking/csharp/Source/Services/OAuth/OAuthTokenProvider.cs:57-90 | consent exactly when there is no entry or a null DTO; malformed JSON fails; the cached token exactly when its expiration is not before `now`; a refresh only for a token expired before `now` |
| `OAuth.Rotate` | samples/account-linking/csharp/Source/Services/OAuth/OAuthTokenProvider.cs:92-102 | new access token expiring `ExpiresInSeconds` after `now`; the response's refresh token if any, else the current one, so an existing refresh token is never lost |
| `OAuth.UsableCode` | samples/account-linking/csharp/Source/Services/OAuth/OAuthTokenProvider.cs:118-122 | a code exists exactly when the state and its `OAuthCode` are non-null and non-empty |
| `OAuth.OAuthTokenProvider.constructor` | samples/account-linking/csharp/Source/Services/OAuth/OAuthTokenProvider.cs:25-37 | the provider keeps its start URI, state service, client and store |
| `OAuth.OAuthTokenProvider.GetConsentUri` | samples/account-linking/csharp/Source/Services/OAuth/OAuthTokenProvider.cs:39-53 | `AuthStartUri` with exactly one parameter, `acct_state`, holding a new token with the challenge and an empty state object |
| `OAuth.OAuthTokenProvider.GetAccessToken` | samples/account-linking/csharp/Source/Services/OAuth/OAuthTokenProvider.cs:55-114 | consent, failure and cached cases change nothing and call no provider; an expired token makes exactly one refresh call; a refused refresh needs consent with the store unchanged; a successful one writes the rotated DTO at that key only and returns its access token |
| `OAuth.OAuthTokenProvider.ClaimToken` | samples/account-linking/csharp/Source/Services/OAuth/OAuthTokenProvider.cs:116-140 | unreadable state or a missing code fails with no claim, call or write; a failed verification fails with no call or write; the exchange happens only after verification, and the store is written only after both succeed, with the exchange's tokens expiring `ExpiresInSeconds` after `now` |
| `OAuth.OAuthTokenProvider.Logout` | samples/account-linking/csharp/Source/Services/OAuth/OAuthTokenProvider.cs:142-145 | removes exactly the `(tenantId, userId)` entry, which makes it idempotent, and keeps every other entry |
| `OAuth.RefreshTokenSurvivesRotation` | samples/account-linking/csharp/Source/Services/OAuth/OAuthTokenProvider.cs:92-102 | over any series of refreshes the stored refresh token is the one last issued, or the original when none was; the access token is the latest response's |
| `OAuth.ConsentCallbackClaimFlow` | samples/account-linking/csharp/Source/Services/OAuth/OAuthTokenProvider.cs:39-128 | the consent token has no code; after the callback writes one, the resealed token yields it, verifies once with the matching verifier, and every later verification throws replay until the token expires and is expired after |
| `OAuth.LogoutRevokesAccess` | samples/account-linking/csharp/Source/Services/OAuth/OAuthTokenProvider.cs:142-145 | after logout, getting the access token needs consent and calls no provider |

## Left out

- Cryptography: the data protector's encryption and authentication and its protector names are not modelled, and there is no key rotation.
- Cross-service tokens: the model keeps the two token kinds apart by type, so neither service can be handed the other's token.
  In the code both services fall back to the assembly's name as protector name when `ProtectorName` is empty
  (AccountLinkingStateService.cs:36-38, OAuthStateService.cs:37-39), so by default each can unprotect the other's tokens;
  for example the legacy `VerifyAsync` would read an account-linking token as `{Id, "", ""}` and claim its `Id`. That default cross-acceptance is not modelled.
  Tamper resistance is only assumed: a string the protector did not produce is refused.
- SHA-256 and base64url are not modelled. `transform` is any function; collisions are not excluded.
- JSON: text is classified as null, a value or malformed; the encoding itself is not modelled.
- The replay validator, `IUserTokenStore` and `OAuthServiceClient` are not part of this model.
  They appear only as the abstract specifications above. Store failures, network failures and timeouts are not modelled.
- Concurrency: claims and store updates happen one at a time. The atomicity of `ClaimIdAsync` across processes is not modelled.
- Clock: each operation reads one `now`. The source reads `DateTime.Now` and `DateTimeOffset.Now` separately, in local time.
  Seconds are unbounded integers, so `DateTimeOffset` overflow is not modelled.
- AccountLinkingState.AccountLinkingStateService.Verification: checks the token's expiry and claims its `Id` at one `now`.
  In the code the protector reads the clock in `Unprotect` (AccountLinkingStateService.cs:79), and the store behind `ClaimIdAsync` reads it again later (:97).
  The model also takes a claim to be alive at its `until` instant.
  The single-use theorems (`VerifiedAtMostOnce`, `NoVerificationWhileClaimed`, `ConsentCallbackClaimFlow`) depend on both.
  If a token is unprotected at its `validUntil` and its claim is checked later, a lapsed earlier claim would let a second verification through. This window is not modelled.
- LegacyOAuthState.OAuthStateService.Verification: the same single `now` covers `Unprotect` (OAuthStateService.cs:63) and `ClaimIdAsync` (:72), with the same inclusive claim lifetime.
  `VerifiedAtMostOnce`, `NoVerificationWhileClaimed` and `StateVerifiesOnlyOnce` of `LegacyOAuthState` depend on both, and the same boundary window is not modelled.
- `Guid.NewGuid` is the `id` parameter. Its uniqueness is one premise of the single-use theorems:
  every token carrying an id expires at the same instant. The single clock reading above is the other.
- `AccessTokenResult.ExpirationTime` is never assigned by the source and is left out.
- URI building (`UriBuilder`, `Port = -1`, query-string encoding) is not modelled.
  The consent URI is its base and its list of query parameters.
- Logging, options loading and `async`/`Task` are not modelled.
- The controllers, the bot, the front-end scripts and the plain DTOs are not part of this model.
  The callback's resealing appears only in the statement of `OAuth.ConsentCallbackClaimFlow`.
