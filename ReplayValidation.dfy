/**
 * The replay validator behind `IReplayValidator.ClaimIdAsync(id, until)`.
 * Its implementation is not part of this model; it is modelled as an
 * insert-if-absent store whose entries live until their `until` instant
 * (inclusive), after which the id may be claimed again. Claims happen one at
 * a time.
 */
module ReplayValidation {
  import opened Wrappers

  /** An id is taken at `now` while an entry for it is alive. */
  predicate IsClaimed(claims: map<string, int>, id: string, now: int) {
    id in claims && now <= claims[id]
  }

  /** The outcome of one claim: whether it succeeded and the claims afterwards. */
  datatype ClaimOutcome = ClaimOutcome(claimed: bool, claims: map<string, int>)

  /** Insert-if-absent, as seen at `now`. */
  function Claim(claims: map<string, int>, id: string, until: int, now: int): (o: ClaimOutcome)
    ensures o.claimed <==> !IsClaimed(claims, id, now)
    ensures o.claimed ==> o.claims == claims[id := until]
    ensures !o.claimed ==> o.claims == claims
    ensures now <= until ==> IsClaimed(o.claims, id, now)
    ensures forall other :: other != id ==> IsClaimed(o.claims, other, now) == IsClaimed(claims, other, now)
  {
    if IsClaimed(claims, id, now) then ClaimOutcome(false, claims)
    else ClaimOutcome(true, claims[id := until])
  }

  /** A verification's result together with the replay claims after it. */
  datatype Checked<T, E> = Checked(result: Result<T, E>, claims: map<string, int>)

  class ReplayValidator {
    /** Every id claimed so far, with the instant its claim lapses. */
    var claims: map<string, int>

    constructor ()
      ensures claims == map[]
    {
      claims := map[];
    }

    /** `ClaimIdAsync(id, until)`: true exactly when this call took the id. */
    method ClaimId(id: string, until: int, now: int) returns (isValid: bool)
      modifies this
      ensures isValid <==> !IsClaimed(old(claims), id, now)
      ensures claims == Claim(old(claims), id, until, now).claims
      ensures isValid ==> claims == old(claims)[id := until]
      ensures !isValid ==> claims == old(claims)
    {
      var o := Claim(claims, id, until, now);
      isValid := o.claimed;
      claims := o.claims;
    }
  }
}
