/**
 * `OAuthTokenProvider`: starts the consent flow, caches and refreshes the
 * user's access token in the token store, claims the token at the end of the
 * flow, and logs out. The identity provider (`OAuthServiceClient`) and the
 * token store (`IUserTokenStore`) are modelled by what they answer and hold.
 */
module OAuth {
  import opened Wrappers
  import opened Errors
  import opened Json
  import opened DataProtection
  import opened ReplayValidation
  import opened AccountLinkingState

  /** `OAuthStateObject` of the account-linking namespace: the flow's mutable state. */
  datatype OAuthStateObject = OAuthStateObject(clientState: Option<string>, oAuthCode: Option<string>)

  /** `OAuthUserTokenDto`, the record kept in the token store; instants in seconds. */
  datatype OAuthUserTokenDto =
    OAuthUserTokenDto(accessToken: string, accessTokenExpiration: int, refreshToken: Option<string>)

  /** The token endpoint's answer: a new access token, its lifetime, maybe a new refresh token. */
  datatype TokenResponse = TokenResponse(accessToken: string, expiresInSeconds: int, refreshToken: Option<string>)

  /** `AccessTokenResultBase`: `NeedsConsentResult` carries nothing, `AccessTokenResult` the token. */
  datatype AccessTokenResult = NeedsConsent | Granted(accessToken: string)

  /** The store is keyed by `(tenantId, userId)`. */
  type StoreKey = (string, string)

  /** The consent URI: the configured `AuthStartUri` with its query parameters. */
  datatype ConsentUri = ConsentUri(authStartUri: string, query: seq<(string, SealedToken<OAuthStateObject>)>)

  /** The query parameter that carries the account-linking token. */
  const AccountLinkingStateParameter := "acct_state"

  /** A request the provider sent to the identity provider's token endpoint. */
  datatype ProviderCall = RefreshCall(refreshToken: Option<string>) | ExchangeCall(code: string)

  /**
   * `OAuthServiceClient`: each endpoint is fixed by what it answers for a
   * given refresh token or code (`None` where it refuses), and every request
   * sent is recorded in `calls`.
   */
  class OAuthServiceClient {
    const refreshEndpoint: Option<string> -> Option<TokenResponse>
    const exchangeEndpoint: string -> Option<TokenResponse>
    var calls: seq<ProviderCall>

    constructor (refreshEndpoint: Option<string> -> Option<TokenResponse>, exchangeEndpoint: string -> Option<TokenResponse>)
      ensures this.refreshEndpoint == refreshEndpoint && this.exchangeEndpoint == exchangeEndpoint
      ensures calls == []
    {
      this.refreshEndpoint := refreshEndpoint;
      this.exchangeEndpoint := exchangeEndpoint;
      calls := [];
    }

    /** `RefreshAccessTokenAsync`: null when the provider does not refresh. */
    method RefreshAccessToken(refreshToken: Option<string>) returns (r: Option<TokenResponse>)
      modifies this
      ensures r == refreshEndpoint(refreshToken)
      ensures calls == old(calls) + [RefreshCall(refreshToken)]
    {
      r := refreshEndpoint(refreshToken);
      calls := calls + [RefreshCall(refreshToken)];
    }

    /** `ClaimCodeAsync`: exchanges an authorization code; a refusal is an exception. */
    method ClaimCode(code: string) returns (r: Result<TokenResponse, Error>)
      modifies this
      ensures exchangeEndpoint(code).Some? ==> r == Ok(exchangeEndpoint(code).value)
      ensures exchangeEndpoint(code).None? ==> r == Err(ProviderError)
      ensures calls == old(calls) + [ExchangeCall(code)]
    {
      match exchangeEndpoint(code) {
        case Some(response) => r := Ok(response);
        case None => r := Err(ProviderError);
      }
      calls := calls + [ExchangeCall(code)];
    }
  }

  /** What `GetAccessTokenAsync` does with the stored entry, before any refresh. */
  datatype AccessPlan = AskConsent | Fail(error: Error) | UseCached(accessToken: string) | Refresh(current: OAuthUserTokenDto)

  /**
   * The branch `GetAccessTokenAsync` takes: no entry or a null DTO asks for
   * consent, a DTO whose expiration is not before `now` is used as it is, and
   * only a DTO that expired before `now` is refreshed.
   */
  function PlanAccess(entry: Option<Json<OAuthUserTokenDto>>, now: int): (p: AccessPlan)
    ensures p == AskConsent <==> entry == None || entry == Some(Null)
    ensures p.Fail? <==> entry == Some(Malformed)
    ensures p.Fail? ==> p.error == MalformedJson
    ensures p.UseCached? <==> entry.Some? && entry.value.Value? && now <= entry.value.value.accessTokenExpiration
    ensures p.UseCached? ==> p.accessToken == entry.value.value.accessToken
    ensures p.Refresh? ==> entry == Some(Value(p.current)) && p.current.accessTokenExpiration < now
  {
    match entry
    case None => AskConsent
    case Some(text) =>
      match Deserialize(text)
      case Err(e) => Fail(e)
      case Ok(None) => AskConsent
      case Ok(Some(dto)) => if dto.accessTokenExpiration >= now then UseCached(dto.accessToken) else Refresh(dto)
  }

  /**
   * The refresh rotation rule of `GetAccessTokenAsync`: the response's access token,
   * expiring `ExpiresInSeconds` after `now`, and the response's refresh token
   * if it has one, otherwise the current one.
   */
  function Rotate(current: OAuthUserTokenDto, response: TokenResponse, now: int): (next: OAuthUserTokenDto)
    ensures next.accessToken == response.accessToken
    ensures next.accessTokenExpiration - now == response.expiresInSeconds
    ensures response.refreshToken.Some? ==> next.refreshToken == response.refreshToken
    ensures response.refreshToken.None? ==> next.refreshToken == current.refreshToken
    ensures current.refreshToken.Some? ==> next.refreshToken.Some?
  {
    OAuthUserTokenDto(
      response.accessToken,
      now + response.expiresInSeconds,
      if response.refreshToken.Some? then response.refreshToken else current.refreshToken)
  }

  /** The code `ClaimTokenAsync` may exchange: present and non-empty (`string.IsNullOrEmpty`). */
  function UsableCode(mutableState: Option<OAuthStateObject>): (code: Option<string>)
    ensures code.Some? <==> mutableState.Some? && mutableState.value.oAuthCode.Some? && mutableState.value.oAuthCode.value != ""
    ensures code.Some? ==> code == mutableState.value.oAuthCode
  {
    match mutableState
    case None => None
    case Some(s) => if s.oAuthCode.Some? && s.oAuthCode.value != "" then s.oAuthCode else None
  }

  class OAuthTokenProvider {
    /** `AuthStartUri` from the options. */
    const authStartUri: string
    const stateService: AccountLinkingStateService<OAuthStateObject>
    const client: OAuthServiceClient
    /** The token store: a serialized `OAuthUserTokenDto` per `(tenantId, userId)`. */
    var store: map<StoreKey, Json<OAuthUserTokenDto>>

    constructor (authStartUri: string, stateService: AccountLinkingStateService<OAuthStateObject>,
                 client: OAuthServiceClient, store: map<StoreKey, Json<OAuthUserTokenDto>>)
      ensures this.authStartUri == authStartUri && this.stateService == stateService
      ensures this.client == client && this.store == store
    {
      this.authStartUri := authStartUri;
      this.stateService := stateService;
      this.client := client;
      this.store := store;
    }

    /**
     * `GetConsentUriAsync(codeChallenge)`, with `id` the fresh `Guid` and `now`
     * the clock reading: `AuthStartUri` with one query parameter, `acct_state`,
     * holding a new token whose record carries the challenge and an empty
     * `OAuthStateObject` (no client state, no code).
     */
    function GetConsentUri(id: string, codeChallenge: string, now: int): (u: ConsentUri)
      ensures u.authStartUri == authStartUri
      ensures |u.query| == 1 && u.query[0].0 == AccountLinkingStateParameter
      ensures CarriesId(u.query[0].1, id) && u.query[0].1.expiration == now + stateService.lifeSpan
      ensures forall at :: at <= now + stateService.lifeSpan ==>
        Open(u.query[0].1, at) == Ok(Opened(Some(AccountLinkingToken(id, "", codeChallenge,
          Some(OAuthStateObject(None, None)))), now + stateService.lifeSpan))
    {
      var token := stateService.CreateAccountLinkingToken(id, codeChallenge, Some(OAuthStateObject(None, None)), now);
      ConsentUri(authStartUri, [(AccountLinkingStateParameter, token)])
    }

    /**
     * `GetAccessTokenAsync(tenantId, userId)`. The identity provider is asked
     * only when the stored token expired before `now`; the store changes only
     * when that refresh succeeds, and then only at `(tenantId, userId)`.
     */
    method GetAccessToken(tenantId: string, userId: string, now: int) returns (r: Result<AccessTokenResult, Error>)
      modifies this, client
      ensures var entry := if (tenantId, userId) in old(store) then Some(old(store)[(tenantId, userId)]) else None;
        match PlanAccess(entry, now)
        case AskConsent =>
          r == Ok(NeedsConsent) && store == old(store) && client.calls == old(client.calls)
        case Fail(e) =>
          r == Err(e) && store == old(store) && client.calls == old(client.calls)
        case UseCached(accessToken) =>
          r == Ok(Granted(accessToken)) && store == old(store) && client.calls == old(client.calls)
        case Refresh(current) =>
          && client.calls == old(client.calls) + [RefreshCall(current.refreshToken)]
          && match client.refreshEndpoint(current.refreshToken)
             case None => r == Ok(NeedsConsent) && store == old(store)
             case Some(response) =>
               && store == old(store)[(tenantId, userId) := Serialize(Rotate(current, response, now))]
               && r == Ok(Granted(Rotate(current, response, now).accessToken))
    {
      var key := (tenantId, userId);
      var entry := if key in store then Some(store[key]) else None;
      if entry.None? {
        return Ok(NeedsConsent);
      }
      var tokenDto := Deserialize(entry.value);
      if tokenDto.Err? {
        return Err(tokenDto.error);
      }
      if tokenDto.value.None? {
        return Ok(NeedsConsent);
      }
      var dto := tokenDto.value.value;
      if dto.accessTokenExpiration >= now {
        return Ok(Granted(dto.accessToken));
      }
      var jsonBody := client.RefreshAccessToken(dto.refreshToken);
      if jsonBody.None? {
        return Ok(NeedsConsent);
      }
      var next := Rotate(dto, jsonBody.value, now);
      store := store[key := Serialize(next)];
      return Ok(Granted(next.accessToken));
    }

    /**
     * `ClaimTokenAsync(accountLinkingToken, tenantId, userId, codeVerifier)`.
     * The steps run in order and each failure stops the claim: read the state
     * (no code, no claim), verify the token (PKCE, then the replay claim),
     * exchange the code, and only then write the store at `(tenantId, userId)`.
     */
    method ClaimToken(accountLinkingToken: SealedToken<OAuthStateObject>, tenantId: string, userId: string,
                      codeVerifier: string, now: int) returns (r: Result<(), Error>)
      modifies this, client, stateService.replayValidator
      ensures var mutableState := stateService.GetMutableState(accountLinkingToken, now);
        var verification := stateService.Verification(accountLinkingToken, codeVerifier, now, old(stateService.replayValidator.claims));
        if mutableState.Err? then
          && r == Err(mutableState.error)
          && store == old(store) && client.calls == old(client.calls)
          && stateService.replayValidator.claims == old(stateService.replayValidator.claims)
        else if UsableCode(mutableState.value).None? then
          && r == Err(MissingOAuthCode)
          && store == old(store) && client.calls == old(client.calls)
          && stateService.replayValidator.claims == old(stateService.replayValidator.claims)
        else if verification.result.Err? then
          && r == Err(verification.result.error)
          && store == old(store) && client.calls == old(client.calls)
          && stateService.replayValidator.claims == old(stateService.replayValidator.claims)
        else
          var code := UsableCode(mutableState.value).value;
          && stateService.replayValidator.claims == verification.claims
          && client.calls == old(client.calls) + [ExchangeCall(code)]
          && match client.exchangeEndpoint(code)
             case None => r == Err(ProviderError) && store == old(store)
             case Some(response) =>
               && r == Ok(())
               && store == old(store)[(tenantId, userId) :=
                    Serialize(OAuthUserTokenDto(response.accessToken, now + response.expiresInSeconds, response.refreshToken))]
      ensures store != old(store) ==>
        stateService.Verification(accountLinkingToken, codeVerifier, now, old(stateService.replayValidator.claims)).result.Ok?
    {
      var mutableState := stateService.GetMutableState(accountLinkingToken, now);
      if mutableState.Err? {
        return Err(mutableState.error);
      }
      var code := UsableCode(mutableState.value);
      if code.None? {
        return Err(MissingOAuthCode);
      }
      var verified := stateService.Verify(accountLinkingToken, codeVerifier, now);
      if verified.Err? {
        return Err(verified.error);
      }
      var oAuthResult := client.ClaimCode(code.value);
      if oAuthResult.Err? {
        return Err(oAuthResult.error);
      }
      var response := oAuthResult.value;
      store := store[(tenantId, userId) :=
        Serialize(OAuthUserTokenDto(response.accessToken, now + response.expiresInSeconds, response.refreshToken))];
      return Ok(());
    }

    /** `LogoutAsync(tenantId, userId)`: deletes that entry, if any, and nothing else. */
    method Logout(tenantId: string, userId: string)
      modifies this
      ensures store == old(store) - {(tenantId, userId)}
      ensures (tenantId, userId) !in store
      ensures forall key :: key != (tenantId, userId) ==> (key in store <==> key in old(store))
    {
      store := store - {(tenantId, userId)};
    }
  }

  /** One successful refresh: the token endpoint's response and the clock reading. */
  datatype Refreshed = Refreshed(response: TokenResponse, now: int)

  /** The stored DTO after a series of successful refreshes, oldest first. */
  function RotateAll(dto: OAuthUserTokenDto, refreshes: seq<Refreshed>): OAuthUserTokenDto
    decreases |refreshes|
  {
    if refreshes == [] then dto
    else RotateAll(Rotate(dto, refreshes[0].response, refreshes[0].now), refreshes[1..])
  }

  /** The refresh token most recently issued in `refreshes`, or `original` if none was. */
  function LastIssued(refreshes: seq<Refreshed>, original: Option<string>): Option<string>
    decreases |refreshes|
  {
    if refreshes == [] then original
    else if refreshes[|refreshes| - 1].response.refreshToken.Some? then refreshes[|refreshes| - 1].response.refreshToken
    else LastIssued(refreshes[..|refreshes| - 1], original)
  }

  lemma {:induction false} RotateAllSnoc(dto: OAuthUserTokenDto, refreshes: seq<Refreshed>, last: Refreshed)
    ensures RotateAll(dto, refreshes + [last]) == Rotate(RotateAll(dto, refreshes), last.response, last.now)
    decreases |refreshes|
  {
    if refreshes != [] {
      assert (refreshes + [last])[1..] == refreshes[1..] + [last];
      RotateAllSnoc(Rotate(dto, refreshes[0].response, refreshes[0].now), refreshes[1..], last);
    }
  }

  /**
   * Refresh-token rotation across any number of refreshes: the stored
   * refresh token is the one the provider issued last, or the original one
   * when it never issued another; the access token is the latest response's.
   */
  lemma {:induction false} RefreshTokenSurvivesRotation(dto: OAuthUserTokenDto, refreshes: seq<Refreshed>)
    ensures RotateAll(dto, refreshes).refreshToken == LastIssued(refreshes, dto.refreshToken)
    ensures refreshes != [] ==> RotateAll(dto, refreshes).accessToken == refreshes[|refreshes| - 1].response.accessToken
    ensures dto.refreshToken.Some? ==> RotateAll(dto, refreshes).refreshToken.Some?
    decreases |refreshes|
  {
    if refreshes != [] {
      var prefix, last := refreshes[..|refreshes| - 1], refreshes[|refreshes| - 1];
      assert refreshes == prefix + [last];
      RotateAllSnoc(dto, prefix, last);
      RefreshTokenSurvivesRotation(dto, prefix);
    }
  }

  /**
   * The account-linking flow end to end, on the pure operations: the consent
   * URI's token has no code and cannot be claimed; after the callback writes
   * the code into it (as the OAuth callback endpoint does), the resealed token
   * yields that code, passes verification once with the matching verifier,
   * and every later verification throws the replay exception until the
   * token expires, and is refused as expired after.
   */
  lemma ConsentCallbackClaimFlow(
    p: OAuthTokenProvider, id: string, codeVerifier: string, clientState: Option<string>, code: string,
    created: int, callback: int, claimAt: int, claims: map<string, int>)
    requires code != ""
    requires created <= callback <= claimAt <= created + p.stateService.lifeSpan
    requires !IsClaimed(claims, id, claimAt)
    ensures var t0 := p.GetConsentUri(id, p.stateService.transform(codeVerifier), created).query[0].1;
      var t1 := p.stateService.SetMutableState(t0, Some(OAuthStateObject(clientState, Some(code))), callback);
      && p.stateService.GetMutableState(t0, callback) == Ok(Some(OAuthStateObject(None, None)))
      && UsableCode(p.stateService.GetMutableState(t0, callback).value).None?
      && t1.Ok? && t1.value.expiration == created + p.stateService.lifeSpan
      && p.stateService.GetMutableState(t1.value, claimAt) == Ok(Some(OAuthStateObject(clientState, Some(code))))
      && UsableCode(p.stateService.GetMutableState(t1.value, claimAt).value) == Some(code)
      && var v := p.stateService.Verification(t1.value, codeVerifier, claimAt, claims);
        && v.result.Ok?
        && v.claims == claims[id := created + p.stateService.lifeSpan]
        && forall later :: p.stateService.Verification(t1.value, codeVerifier, later, v.claims).result ==
             (if later <= created + p.stateService.lifeSpan then Err(Replay) else Err(Expired))
  {
  }

  /** After `LogoutAsync`, `GetAccessTokenAsync` needs consent again, without asking the provider. */
  method LogoutRevokesAccess(p: OAuthTokenProvider, tenantId: string, userId: string, now: int)
    returns (r: Result<AccessTokenResult, Error>)
    modifies p, p.client
    ensures r == Ok(NeedsConsent)
    ensures p.store == old(p.store) - {(tenantId, userId)}
    ensures p.client.calls == old(p.client.calls)
  {
    p.Logout(tenantId, userId);
    r := p.GetAccessToken(tenantId, userId, now);
  }
}
