/**
 * `AccountLinkingStateService<TState>`: mints the protected, time-limited
 * account-linking token that travels through the OAuth redirects, lets the
 * flow read and replace its mutable `State`, and verifies a claim with PKCE
 * (section 4.6 of RFC 7636) followed by a single-use replay claim of the
 * token's `Id`.
 */
module AccountLinkingState {
  import opened Wrappers
  import opened Errors
  import opened Json
  import opened DataProtection
  import opened ReplayValidation

  /** `AccountLinkingToken<TState>`; `Subject` is never assigned, so it stays empty. */
  datatype AccountLinkingToken<S> =
    AccountLinkingToken(id: string, subject: string, codeChallenge: string, state: Option<S>)

  /** The protected string the service hands out: a protected JSON text of a record. */
  type SealedToken<S> = ProtectedString<Json<AccountLinkingToken<S>>>

  /** A token that unprotects to a record with this `Id`. */
  predicate CarriesId<S>(token: SealedToken<S>, id: string) {
    token.Protected? && token.payload.Value? && token.payload.value.id == id
  }

  /** What unprotecting and then deserializing a token yields: a possibly null record. */
  datatype Opened<S> = Opened(record: Option<AccountLinkingToken<S>>, validUntil: int)

  /** The `Unprotect` and `Deserialize` steps every operation starts with. */
  function Open<S>(token: SealedToken<S>, now: int): (r: Result<Opened<S>, Error>)
    ensures r.Ok? <==> token.Protected? && now <= token.expiration && !token.payload.Malformed?
    ensures r.Ok? ==> r.value.validUntil == token.expiration
    ensures r.Ok? ==> (r.value.record.Some? <==> token.payload.Value?)
    ensures r.Ok? && r.value.record.Some? ==> r.value.record.value == token.payload.value
    ensures token.Unrecognized? ==> r == Err(InvalidToken)
    ensures token.Protected? && token.expiration < now ==> r == Err(Expired)
  {
    match Unprotect(token, now)
    case Err(e) => Err(e)
    case Ok(u) =>
      match Deserialize(u.payload)
      case Err(e) => Err(e)
      case Ok(record) => Ok(Opened(record, u.validUntil))
  }

  class AccountLinkingStateService<S> {
    /** `ExpirationTime` from the options: how long a fresh token stays valid. */
    const lifeSpan: int
    const replayValidator: ReplayValidator
    /** `Pkce.Base64UrlEncodeSha256`: BASE64URL(SHA256(verifier)), section 4.2 of RFC 7636. */
    const transform: string -> string

    constructor (replayValidator: ReplayValidator, lifeSpan: int, transform: string -> string)
      ensures this.replayValidator == replayValidator
      ensures this.lifeSpan == lifeSpan && this.transform == transform
    {
      this.replayValidator := replayValidator;
      this.lifeSpan := lifeSpan;
      this.transform := transform;
    }

    /**
     * `CreateAccountLinkingTokenAsync`: `id` is the fresh `Guid` and `now` the
     * clock reading. Until `now + lifeSpan` the token opens to the new record;
     * after that it is expired.
     */
    function CreateAccountLinkingToken(id: string, codeChallenge: string, initialState: Option<S>, now: int)
      : (t: SealedToken<S>)
      ensures CarriesId(t, id) && t.expiration == now + lifeSpan
      ensures forall at :: at <= now + lifeSpan ==>
        Open(t, at) == Ok(Opened(Some(AccountLinkingToken(id, "", codeChallenge, initialState)), now + lifeSpan))
      ensures forall at :: now + lifeSpan < at ==> Open(t, at) == Err(Expired)
      ensures forall at :: at <= now + lifeSpan ==> GetMutableState(t, at) == Ok(initialState)
    {
      Protect(Serialize(AccountLinkingToken(id, "", codeChallenge, initialState)), now + lifeSpan)
    }

    /** `GetMutableStateAsync`: the record's `State`, or null when the record is null. */
    function GetMutableState(token: SealedToken<S>, now: int): (r: Result<Option<S>, Error>)
      ensures Open(token, now).Err? ==> r == Err(Open(token, now).error)
      ensures Open(token, now).Ok? ==> r.Ok?
      ensures r.Ok? && r.value.Some? ==>
        token.payload.Value? && token.payload.value.state == r.value
      ensures r == Ok(None) ==> token.payload.Null? || token.payload.value.state.None?
    {
      match Open(token, now)
      case Err(e) => Err(e)
      case Ok(unsealed) =>
        match unsealed.record
        case None => Ok(None)
        case Some(record) => Ok(record.state)
    }

    /**
     * `SetMutableStateAsync`: reseals the record with `State` replaced. The new
     * token keeps the record's `Id`, `Subject` and `CodeChallenge` and the old
     * token's `validUntil`, so resealing never extends a token's life.
     */
    function SetMutableState(token: SealedToken<S>, mutableState: Option<S>, now: int)
      : (r: Result<SealedToken<S>, Error>)
      ensures Open(token, now).Err? ==> r == Err(Open(token, now).error)
      ensures Open(token, now).Ok? && token.payload.Null? ==> r == Err(SetNullRecord)
      ensures r.Ok? <==> Open(token, now).Ok? && token.payload.Value?
      ensures r.Ok? ==> token.Protected? && token.payload.Value? && now <= token.expiration
      ensures r.Ok? ==> r.value.Protected? && r.value.expiration == token.expiration
      ensures r.Ok? ==> r.value.payload == Serialize(token.payload.value.(state := mutableState))
      ensures r.Ok? ==> forall at :: at <= token.expiration ==> GetMutableState(r.value, at) == Ok(mutableState)
    {
      match Open(token, now)
      case Err(e) => Err(e)
      case Ok(unsealed) =>
        match unsealed.record
        case None => Err(SetNullRecord)
        case Some(record) => Ok(Protect(Serialize(record.(state := mutableState)), unsealed.validUntil))
    }

    /**
     * The specification of `VerifyAsync` against the replay claims held
     * before it: the record must open and be non-null, then its
     * `CodeChallenge` must equal the transformed verifier (ordinal equality),
     * and only then is its `Id` claimed until the token's `validUntil`.
     */
    function Verification(token: SealedToken<S>, codeVerifier: string, now: int, claims: map<string, int>)
      : (c: Checked<Option<S>, Error>)
      ensures c.result.Err? ==> c.claims == claims
      ensures Open(token, now).Err? ==> c.result == Err(Open(token, now).error)
      ensures Open(token, now).Ok? && token.payload.Null? ==> c.result == Err(VerifyNullRecord)
      ensures Open(token, now).Ok? && token.payload.Value?
        && token.payload.value.codeChallenge != transform(codeVerifier)
        ==> c.result == Err(CodeChallengeMismatch)
      ensures c.result.Ok? <==>
        && Open(token, now).Ok? && token.payload.Value?
        && token.payload.value.codeChallenge == transform(codeVerifier)
        && !IsClaimed(claims, token.payload.value.id, now)
      ensures c.result.Ok? ==> c.result.value == token.payload.value.state
      ensures c.result.Ok? ==> c.claims == claims[token.payload.value.id := token.expiration]
      ensures c.result == Err(Replay) <==>
        && Open(token, now).Ok? && token.payload.Value?
        && token.payload.value.codeChallenge == transform(codeVerifier)
        && IsClaimed(claims, token.payload.value.id, now)
    {
      match Open(token, now)
      case Err(e) => Checked(Err(e), claims)
      case Ok(unsealed) =>
        match unsealed.record
        case None => Checked(Err(VerifyNullRecord), claims)
        case Some(record) =>
          if record.codeChallenge != transform(codeVerifier) then Checked(Err(CodeChallengeMismatch), claims)
          else
            var claim := Claim(claims, record.id, unsealed.validUntil, now);
            if !claim.claimed then Checked(Err(Replay), claims)
            else Checked(Ok(record.state), claim.claims)
    }

    /** `VerifyAsync`: performs `Verification` against the replay validator's claims. */
    method Verify(token: SealedToken<S>, codeVerifier: string, now: int) returns (r: Result<Option<S>, Error>)
      modifies replayValidator
      ensures r == Verification(token, codeVerifier, now, old(replayValidator.claims)).result
      ensures replayValidator.claims == Verification(token, codeVerifier, now, old(replayValidator.claims)).claims
    {
      var unsealed := Open(token, now);
      if unsealed.Err? {
        return Err(unsealed.error);
      }
      if unsealed.value.record.None? {
        return Err(VerifyNullRecord);
      }
      var record := unsealed.value.record.value;
      if record.codeChallenge != transform(codeVerifier) {
        return Err(CodeChallengeMismatch);
      }
      var isValid := replayValidator.ClaimId(record.id, unsealed.value.validUntil, now);
      if !isValid {
        return Err(Replay);
      }
      return Ok(record.state);
    }
  }

  /** One `SetMutableStateAsync` call in a flow: the state written and the clock reading. */
  datatype Mutation<S> = Mutation(state: Option<S>, now: int)

  /** Reseals `token` with each mutation in turn, stopping at the first exception. */
  function ResealAll<S>(svc: AccountLinkingStateService<S>, token: SealedToken<S>, mutations: seq<Mutation<S>>)
    : Result<SealedToken<S>, Error>
    decreases |mutations|
  {
    if mutations == [] then Ok(token)
    else
      match svc.SetMutableState(token, mutations[0].state, mutations[0].now)
      case Err(e) => Err(e)
      case Ok(next) => ResealAll(svc, next, mutations[1..])
  }

  /**
   * However many times a token is resealed, the result keeps the original
   * `Id`, `Subject`, `CodeChallenge` and `validUntil`, carries the last state
   * written, and every reseal happened before that `validUntil`.
   */
  lemma {:induction false} ResealingNeverExtendsLifetime<S>(
    svc: AccountLinkingStateService<S>, token: SealedToken<S>, mutations: seq<Mutation<S>>)
    requires token.Protected? && token.payload.Value?
    decreases |mutations|
    ensures var r := ResealAll(svc, token, mutations);
      r.Ok? ==>
        && r.value.Protected? && r.value.payload.Value?
        && r.value.expiration == token.expiration
        && r.value.payload.value.id == token.payload.value.id
        && r.value.payload.value.subject == token.payload.value.subject
        && r.value.payload.value.codeChallenge == token.payload.value.codeChallenge
        && (mutations != [] ==> r.value.payload.value.state == mutations[|mutations| - 1].state)
        && (forall i :: 0 <= i < |mutations| ==> mutations[i].now <= token.expiration)
  {
    if mutations != [] {
      var step := svc.SetMutableState(token, mutations[0].state, mutations[0].now);
      if step.Ok? {
        ResealingNeverExtendsLifetime(svc, step.value, mutations[1..]);
        var r := ResealAll(svc, token, mutations);
        if r.Ok? {
          assert r == ResealAll(svc, step.value, mutations[1..]);
          if |mutations| > 1 {
            assert mutations[|mutations| - 1] == mutations[1..][|mutations[1..]| - 1];
          }
          forall i | 0 <= i < |mutations| ensures mutations[i].now <= token.expiration {
            if i > 0 { assert mutations[i] == mutations[1..][i - 1]; }
          }
        }
      }
    }
  }

  /**
   * Conversely, resealing a token that opens to a record succeeds for every
   * chain of mutations made no later than its `validUntil`.
   */
  lemma {:induction false} ResealingSucceedsWhileValid<S>(
    svc: AccountLinkingStateService<S>, token: SealedToken<S>, mutations: seq<Mutation<S>>)
    requires token.Protected? && token.payload.Value?
    requires forall i :: 0 <= i < |mutations| ==> mutations[i].now <= token.expiration
    ensures ResealAll(svc, token, mutations).Ok?
    decreases |mutations|
  {
    if mutations != [] {
      var next := svc.SetMutableState(token, mutations[0].state, mutations[0].now);
      assert next.Ok?;
      forall i | 0 <= i < |mutations[1..]| ensures mutations[1..][i].now <= next.value.expiration {
        assert mutations[1..][i] == mutations[i + 1];
      }
      ResealingSucceedsWhileValid(svc, next.value, mutations[1..]);
    }
  }

  /** One call of `VerifyAsync` in a sequence of calls. */
  datatype Attempt<S> = Attempt(token: SealedToken<S>, codeVerifier: string, now: int)

  /**
   * How many of the `attempts`, made one after another against a replay
   * validator that starts with `claims`, succeed on a token carrying `id`.
   */
  function SuccessfulVerifications<S>(
    svc: AccountLinkingStateService<S>, attempts: seq<Attempt<S>>, claims: map<string, int>, id: string): nat
    decreases |attempts|
  {
    if attempts == [] then 0
    else
      var a := attempts[0];
      var c := svc.Verification(a.token, a.codeVerifier, a.now, claims);
      (if c.result.Ok? && CarriesId(a.token, id) then 1 else 0)
        + SuccessfulVerifications(svc, attempts[1..], c.claims, id)
  }

  /** Tokens carrying `id` all expire at `validUntil`: a created token and its reseals. */
  ghost predicate SameLifetime<S>(attempts: seq<Attempt<S>>, id: string, validUntil: int) {
    forall i :: 0 <= i < |attempts| && CarriesId(attempts[i].token, id) ==> attempts[i].token.expiration == validUntil
  }

  /**
   * While `id` is claimed until at least its tokens' `validUntil`, no
   * verification of such a token succeeds: before that instant the claim is
   * alive, after it the protector refuses the token.
   */
  lemma {:induction false} NoVerificationWhileClaimed<S>(
    svc: AccountLinkingStateService<S>, attempts: seq<Attempt<S>>, claims: map<string, int>, id: string, validUntil: int)
    requires id in claims && validUntil <= claims[id]
    requires SameLifetime(attempts, id, validUntil)
    ensures SuccessfulVerifications(svc, attempts, claims, id) == 0
    decreases |attempts|
  {
    if attempts != [] {
      var a := attempts[0];
      var c := svc.Verification(a.token, a.codeVerifier, a.now, claims);
      assert !(c.result.Ok? && CarriesId(a.token, id));
      assert id in c.claims && validUntil <= c.claims[id];
      assert SameLifetime(attempts[1..], id, validUntil) by {
        forall i | 0 <= i < |attempts[1..]| && CarriesId(attempts[1..][i].token, id)
          ensures attempts[1..][i].token.expiration == validUntil
        {
          assert attempts[1..][i] == attempts[i + 1];
        }
      }
      NoVerificationWhileClaimed(svc, attempts[1..], c.claims, id, validUntil);
    }
  }

  /**
   * Single use: in any sequence of verifications, interleaved with those of
   * other tokens, at most one succeeds for the tokens carrying a given `Id`.
   */
  lemma {:induction false} VerifiedAtMostOnce<S>(
    svc: AccountLinkingStateService<S>, attempts: seq<Attempt<S>>, claims: map<string, int>, id: string, validUntil: int)
    requires SameLifetime(attempts, id, validUntil)
    ensures SuccessfulVerifications(svc, attempts, claims, id) <= 1
    decreases |attempts|
  {
    if attempts != [] {
      var a := attempts[0];
      var c := svc.Verification(a.token, a.codeVerifier, a.now, claims);
      assert SameLifetime(attempts[1..], id, validUntil) by {
        forall i | 0 <= i < |attempts[1..]| && CarriesId(attempts[1..][i].token, id)
          ensures attempts[1..][i].token.expiration == validUntil
        {
          assert attempts[1..][i] == attempts[i + 1];
        }
      }
      if c.result.Ok? && CarriesId(a.token, id) {
        NoVerificationWhileClaimed(svc, attempts[1..], c.claims, id, validUntil);
      } else {
        VerifiedAtMostOnce(svc, attempts[1..], c.claims, id, validUntil);
      }
    }
  }
}
