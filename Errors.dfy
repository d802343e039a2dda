/** The exceptions the modelled services raise, one constructor per distinct cause. */
module Errors {

  datatype Error =
    /** The data protector did not produce this string (CryptographicException). */
    | InvalidToken
    /** The data protector's embedded expiration has passed (CryptographicException). */
    | Expired
    /** The unprotected text is not valid JSON for the expected type (JsonException). */
    | MalformedJson
    /** "Invalid state object": SetMutableStateAsync found a null record. */
    | SetNullRecord
    /** "Verification failed, state object invalid": VerifyAsync found a null record. */
    | VerifyNullRecord
    /** "Verification failed, code challenge": the PKCE check failed. */
    | CodeChallengeMismatch
    /** "Verification failed, replay": the record's Id was already claimed. */
    | Replay
    /** "State replay exception": the legacy state service's replay failure. */
    | StateReplay
    /** "Missing or invalid oauth code, cannot claim". */
    | MissingOAuthCode
    /** The identity provider refused the authorization code exchange. */
    | ProviderError
}
