/**
 * `OAuthStateService`, the older state service: it protects
 * `{Id, UserId, TenantId}` for a limited time and, on the way back, claims the
 * `Id` once with the replay validator and returns who started the flow.
 */
module LegacyOAuthState {
  import opened Wrappers
  import opened Errors
  import opened Json
  import opened DataProtection
  import opened ReplayValidation

  /** `OAuthStateObject` of the `OAuth` namespace (not the account-linking payload). */
  datatype OAuthStateObject = OAuthStateObject(id: string, userId: string, tenantId: string)

  type StateToken = ProtectedString<Json<OAuthStateObject>>

  /** The `(userId, tenantId)` tuple `VerifyAsync` returns; `None` is the default tuple. */
  type Principal = Option<(string, string)>

  class OAuthStateService {
    const lifeSpan: int
    const replayValidator: ReplayValidator

    constructor (replayValidator: ReplayValidator, lifeSpan: int)
      ensures this.replayValidator == replayValidator && this.lifeSpan == lifeSpan
    {
      this.replayValidator := replayValidator;
      this.lifeSpan := lifeSpan;
    }

    /** `GetStateAsync(userId, tenantId)`, with `id` the fresh `Guid` and `now` the clock reading. */
    function GetState(id: string, userId: string, tenantId: string, now: int): (t: StateToken)
      ensures t.Protected? && t.expiration == now + lifeSpan
      ensures forall at :: at <= now + lifeSpan ==>
        Unprotect(t, at) == Ok(Unprotected(Serialize(OAuthStateObject(id, userId, tenantId)), now + lifeSpan))
      ensures forall at :: now + lifeSpan < at ==> Unprotect(t, at) == Err(Expired)
    {
      Protect(Serialize(OAuthStateObject(id, userId, tenantId)), now + lifeSpan)
    }

    /**
     * The specification of `VerifyAsync(state)` against the replay claims held
     * before it. A null record yields the default tuple without any claim;
     * otherwise the record's `Id` is claimed until the token's `validUntil`.
     */
    function Verification(state: StateToken, now: int, claims: map<string, int>): (c: Checked<Principal, Error>)
      ensures c.result.Err? || c.result == Ok(None) ==> c.claims == claims
      ensures Unprotect(state, now).Err? ==> c.result == Err(Unprotect(state, now).error)
      ensures Unprotect(state, now).Ok? && state.payload.Malformed? ==> c.result == Err(MalformedJson)
      ensures Unprotect(state, now).Ok? && state.payload.Null? ==> c.result == Ok(None)
      ensures c.result.Ok? && c.result.value.Some? <==>
        Unprotect(state, now).Ok? && state.payload.Value? && !IsClaimed(claims, state.payload.value.id, now)
      ensures c.result.Ok? && c.result.value.Some? ==>
        && c.result.value.value == (state.payload.value.userId, state.payload.value.tenantId)
        && c.claims == claims[state.payload.value.id := state.expiration]
      ensures c.result == Err(StateReplay) <==>
        Unprotect(state, now).Ok? && state.payload.Value? && IsClaimed(claims, state.payload.value.id, now)
    {
      match Unprotect(state, now)
      case Err(e) => Checked(Err(e), claims)
      case Ok(u) =>
        match Deserialize(u.payload)
        case Err(e) => Checked(Err(e), claims)
        case Ok(None) => Checked(Ok(None), claims)
        case Ok(Some(record)) =>
          var claim := Claim(claims, record.id, u.validUntil, now);
          if !claim.claimed then Checked(Err(StateReplay), claims)
          else Checked(Ok(Some((record.userId, record.tenantId))), claim.claims)
    }

    /** `VerifyAsync(state)`: performs `Verification` against the replay validator's claims. */
    method Verify(state: StateToken, now: int) returns (r: Result<Principal, Error>)
      modifies replayValidator
      ensures r == Verification(state, now, old(replayValidator.claims)).result
      ensures replayValidator.claims == Verification(state, now, old(replayValidator.claims)).claims
    {
      var u := Unprotect(state, now);
      if u.Err? {
        return Err(u.error);
      }
      var stateObject := Deserialize(u.value.payload);
      if stateObject.Err? {
        return Err(stateObject.error);
      }
      if stateObject.value.None? {
        return Ok(None);
      }
      var record := stateObject.value.value;
      var isValid := replayValidator.ClaimId(record.id, u.value.validUntil, now);
      if !isValid {
        return Err(StateReplay);
      }
      return Ok(Some((record.userId, record.tenantId)));
    }
  }

  /**
   * The first verification of a fresh state returns `(userId, tenantId)` in
   * that order, and any later verification of the same state fails: with a
   * replay exception while the claim lives, as expired once it has lapsed.
   */
  lemma StateVerifiesOnlyOnce(
    svc: OAuthStateService, id: string, userId: string, tenantId: string,
    created: int, first: int, later: int, claims: map<string, int>)
    requires created <= first <= created + svc.lifeSpan
    requires !IsClaimed(claims, id, first)
    ensures var t := svc.GetState(id, userId, tenantId, created);
      var c1 := svc.Verification(t, first, claims);
      var c2 := svc.Verification(t, later, c1.claims);
      && c1.result == Ok(Some((userId, tenantId)))
      && c1.claims == claims[id := created + svc.lifeSpan]
      && c2.result == (if later <= created + svc.lifeSpan then Err(StateReplay) else Err(Expired))
      && c2.claims == c1.claims
  {
  }

  /** A state token that unprotects to a record with this `Id`. */
  predicate CarriesId(state: StateToken, id: string) {
    state.Protected? && state.payload.Value? && state.payload.value.id == id
  }

  /** One call of `VerifyAsync(state)` in a sequence of calls. */
  datatype Attempt = Attempt(state: StateToken, now: int)

  /** How many of the `attempts`, made one after another, return a principal for a state carrying `id`. */
  function SuccessfulVerifications(svc: OAuthStateService, attempts: seq<Attempt>, claims: map<string, int>, id: string): nat
    decreases |attempts|
  {
    if attempts == [] then 0
    else
      var c := svc.Verification(attempts[0].state, attempts[0].now, claims);
      (if c.result.Ok? && c.result.value.Some? && CarriesId(attempts[0].state, id) then 1 else 0)
        + SuccessfulVerifications(svc, attempts[1..], c.claims, id)
  }

  /** States carrying `id` all expire at `validUntil`, as one `GetStateAsync` result does. */
  ghost predicate SameLifetime(attempts: seq<Attempt>, id: string, validUntil: int) {
    forall i :: 0 <= i < |attempts| && CarriesId(attempts[i].state, id) ==> attempts[i].state.expiration == validUntil
  }

  lemma {:induction false} NoVerificationWhileClaimed(
    svc: OAuthStateService, attempts: seq<Attempt>, claims: map<string, int>, id: string, validUntil: int)
    requires id in claims && validUntil <= claims[id]
    requires SameLifetime(attempts, id, validUntil)
    ensures SuccessfulVerifications(svc, attempts, claims, id) == 0
    decreases |attempts|
  {
    if attempts != [] {
      var c := svc.Verification(attempts[0].state, attempts[0].now, claims);
      assert SameLifetime(attempts[1..], id, validUntil) by {
        forall i | 0 <= i < |attempts[1..]| && CarriesId(attempts[1..][i].state, id)
          ensures attempts[1..][i].state.expiration == validUntil
        {
          assert attempts[1..][i] == attempts[i + 1];
        }
      }
      NoVerificationWhileClaimed(svc, attempts[1..], c.claims, id, validUntil);
    }
  }

  /**
   * Single use: in any sequence of `VerifyAsync` calls, interleaved with
   * those of other states, at most one returns a principal for a given `Id`.
   */
  lemma {:induction false} VerifiedAtMostOnce(
    svc: OAuthStateService, attempts: seq<Attempt>, claims: map<string, int>, id: string, validUntil: int)
    requires SameLifetime(attempts, id, validUntil)
    ensures SuccessfulVerifications(svc, attempts, claims, id) <= 1
    decreases |attempts|
  {
    if attempts != [] {
      var c := svc.Verification(attempts[0].state, attempts[0].now, claims);
      assert SameLifetime(attempts[1..], id, validUntil) by {
        forall i | 0 <= i < |attempts[1..]| && CarriesId(attempts[1..][i].state, id)
          ensures attempts[1..][i].state.expiration == validUntil
        {
          assert attempts[1..][i] == attempts[i + 1];
        }
      }
      if c.result.Ok? && c.result.value.Some? && CarriesId(attempts[0].state, id) {
        NoVerificationWhileClaimed(svc, attempts[1..], c.claims, id, validUntil);
      } else {
        VerifiedAtMostOnce(svc, attempts[1..], c.claims, id, validUntil);
      }
    }
  }
}
