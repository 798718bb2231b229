/** The token rules of pact_backend/helpers/auth.py. Signing and decoding
    are the JWT library's and stay abstract: encoding is a function that may
    fail, decoding a three-way outcome. The clock is a parameter, in seconds
    since the epoch as `time.time()` gives them. */
module AuthHelpers {
  import opened PyBuiltins

  /** Token lifetime in seconds. */
  const Lifetime: int := 3600

  /** A decoded token's claims, as the library returns them. */
  type Claims = map<string, Value>

  /** What decoding a token gives: its claims, or one of the two errors the
      library raises (an expired `exp` claim, or any other failure). */
  datatype DecodeOutcome = Decoded(claims: Claims) | ExpiredSignature | InvalidToken

  /** `int(x)` of a float: truncation toward zero. */
  function Trunc(x: real): (i: int)
    ensures x >= 0.0 ==> i as real <= x < i as real + 1.0
    ensures x < 0.0 ==> i as real - 1.0 < x <= i as real
  {
    if x >= 0.0 then x.Floor else -((-x).Floor)
  }

  /** `JwtPayload(...).dict()`. */
  function PayloadDict(userId: string, username: string, expires: int): Claims {
    map["user_id" := VStr(userId), "username" := VStr(username), "expires" := VInt(expires)]
  }

  /** `sign_jwt`: the token and its expiry, or None when encoding raises. */
  function SignJwt(userId: string, username: string, now: real, encode: Claims -> Option<string>): (r: Option<(string, int)>)
    ensures r.Some? <==> encode(PayloadDict(userId, username, Trunc(now + Lifetime as real))).Some?
    ensures r.Some? ==> encode(PayloadDict(userId, username, r.value.1)) == Some(r.value.0)
    ensures r.Some? && now >= 0.0 ==> Trunc(now) + Lifetime == r.value.1
  {
    var expires := Trunc(now + Lifetime as real);
    match encode(PayloadDict(userId, username, expires))
    case None => None
    case Some(token) => Some((token, expires))
  }

  /** `decode_jwt`: the claims when the token decodes and its `expires`
      converts to an integer no earlier than the current second; None for
      every failure, a missing or unconvertible `expires` included. */
  function DecodeJwt(token: string, now: real, decode: string -> DecodeOutcome): Option<Claims> {
    match decode(token)
    case Decoded(claims) =>
      if "expires" !in claims then None
      else (
        match IntOf(claims["expires"])
        case None => None
        case Some(expires) => if expires >= Trunc(now) then Some(claims) else None)
    case _ => None
  }

  /** The exact condition under which `decode_jwt` returns the claims; the
      expiry second itself still counts as valid. */
  lemma DecodeJwtIff(token: string, now: real, decode: string -> DecodeOutcome)
    ensures DecodeJwt(token, now, decode).Some? <==>
              && decode(token).Decoded?
              && "expires" in decode(token).claims
              && IntOf(decode(token).claims["expires"]).Some?
              && IntOf(decode(token).claims["expires"]).value >= Trunc(now)
    ensures DecodeJwt(token, now, decode).Some? ==> DecodeJwt(token, now, decode).value == decode(token).claims
  {
  }

  /** `verify_jwt`: the truth value of what `decode_jwt` returns, where an
      empty dict would count as false. */
  function VerifyJwt(token: string, now: real, decode: string -> DecodeOutcome): bool {
    match DecodeJwt(token, now, decode)
    case None => false
    case Some(claims) => |claims| > 0
  }

  /** `verify_jwt` holds exactly when `decode_jwt` returns claims: those
      claims always hold `expires`, so they are never the empty dict. */
  lemma VerifyIffDecodes(token: string, now: real, decode: string -> DecodeOutcome)
    ensures VerifyJwt(token, now, decode) <==> DecodeJwt(token, now, decode).Some?
  {
    if DecodeJwt(token, now, decode).Some? {
      var claims := DecodeJwt(token, now, decode).value;
      assert "expires" in claims;
      assert |claims.Keys| >= 1 by {
        assert claims.Keys >= {"expires"};
      }
    }
  }

  /** Round trip: when decoding inverts encoding, a token signed at `t`
      verifies at `now` exactly while the current second is no later than
      the second `t + 3600` falls in. */
  lemma SignThenVerify(userId: string, username: string, t: real, now: real,
                       encode: Claims -> Option<string>, decode: string -> DecodeOutcome)
    requires SignJwt(userId, username, t, encode).Some?
    requires var (token, expires) := SignJwt(userId, username, t, encode).value;
             decode(token) == Decoded(PayloadDict(userId, username, expires))
    ensures var (token, expires) := SignJwt(userId, username, t, encode).value;
            VerifyJwt(token, now, decode) <==> Trunc(now) <= Trunc(t + Lifetime as real)
  {
    var (token, expires) := SignJwt(userId, username, t, encode).value;
    VerifyIffDecodes(token, now, decode);
    assert PayloadDict(userId, username, expires)["expires"] == VInt(expires);
  }
}
