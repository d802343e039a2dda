/**
 * The time-limited data protector (ASP.NET Core Data Protection), abstracted.
 * Every string is either one the protector produced from a payload and an
 * expiration, or one it did not produce. Protect is injective by construction;
 * the cryptography that makes forging infeasible is not modelled.
 */
module DataProtection {
  import opened Wrappers
  import opened Errors

  datatype ProtectedString<P> =
    | Protected(payload: P, expiration: int)
    | Unrecognized(text: string)

  /** What a successful Unprotect hands back: the payload and its `validUntil`. */
  datatype Unprotected<P> = Unprotected(payload: P, validUntil: int)

  /** `Protect(plaintext, expiration)`. */
  function Protect<P>(payload: P, expiration: int): (t: ProtectedString<P>)
    ensures Unprotect(t, expiration) == Ok(Unprotected(payload, expiration))
    ensures forall now :: expiration < now ==> Unprotect(t, now) == Err(Expired)
  {
    Protected(payload, expiration)
  }

  /**
   * `Unprotect(protectedData, out validUntil)`: throws on a string it did not
   * produce and on one whose expiration lies before `now`.
   */
  function Unprotect<P>(t: ProtectedString<P>, now: int): (r: Result<Unprotected<P>, Error>)
    ensures r.Ok? <==> t.Protected? && now <= t.expiration
    ensures r.Ok? ==> t == Protected(r.value.payload, r.value.validUntil)
    ensures t.Unrecognized? ==> r == Err(InvalidToken)
    ensures t.Protected? && t.expiration < now ==> r == Err(Expired)
  {
    match t
    case Unrecognized(_) => Err(InvalidToken)
    case Protected(p, e) => if e < now then Err(Expired) else Ok(Unprotected(p, e))
  }
}
