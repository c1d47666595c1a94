/**
 The boundary to the signing and hashing libraries (`jsonwebtoken`, and the
 password check of the user model). None of them is modelled: the
 configuration carries them as uninterpreted functions, together with the
 two "is this secret set" flags the handlers test.
 */
module Crypto {
  import opened Wrappers

  /** An account identifier (a document id; never falsy). */
  type UserId = nat

  /** A point in time, in milliseconds. */
  type Time = int

  /** The two signing domains, each with its own secret. */
  datatype Domain = AccessDomain | RefreshDomain

  /**
   The payload a token is signed over. Access tokens carry the identifier and
   the denormalised profile; refresh tokens only the identifier (the profile
   fields are then empty). `id` is `None` when a payload has no `_id`.
   */
  datatype Payload = Payload(id: Option<UserId>, username: string, email: string, fullName: string)

  /** What `jwt.verify` hands back: the payload plus the `iat`/`exp` fields the signer adds. */
  datatype Claims = Claims(payload: Payload, issuedAt: Time, expiresAt: Option<Time>)

  /**
   The environment the handlers read:
   - whether `ACCESS_TOKEN_SECRET` and `REFRESH_TOKEN_SECRET` are set;
   - `decode`: the claims inside a token whose signature checks under the
     domain's secret (`None` for a malformed or forged token);
   - `live`: whether a token is not yet expired at a given time;
   - `sign`: the token minted for a payload at a given time, at a given value
     of the freshness counter;
   - `passwordOk`: the user model's comparison of a candidate password with
     the stored credential.
   */
  datatype Env = Env(
    accessSecretSet: bool,
    refreshSecretSet: bool,
    decode: (Domain, string) -> Option<Claims>,
    live: (Domain, string, Time) -> bool,
    sign: (Domain, Payload, Time, nat) -> string,
    passwordOk: (string, string) -> bool)

  predicate SecretSet(env: Env, d: Domain) {
    match d
    case AccessDomain => env.accessSecretSet
    case RefreshDomain => env.refreshSecretSet
  }

  /**
   `jwt.verify(token, secret)`: the claims when the secret is set, the
   signature checks and the token has not expired; otherwise it throws,
   which every caller turns into a failure (`None`).
   */
  function Verify(env: Env, d: Domain, token: string, now: Time): (r: Option<Claims>)
    ensures r.Some? <==> SecretSet(env, d) && env.decode(d, token).Some? && env.live(d, token, now)
    ensures r.Some? ==> r == env.decode(d, token)
  {
    if SecretSet(env, d) && env.live(d, token, now) then env.decode(d, token) else None
  }

  /**
   The freshness assumption. Signing is deterministic and `iat` has a
   resolution of one second, so nothing in the program makes two tokens for
   one account differ; the model assumes that tokens minted in one domain at
   distinct counter values are distinct strings.
   */
  ghost predicate FreshSerials(env: Env) {
    forall d, p, p', t, t', k, k' :: k != k' ==> env.sign(d, p, t, k) != env.sign(d, p', t', k')
  }
}
