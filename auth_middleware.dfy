/** `JWTMiddleware.dispatch` of pact_backend/middleware/auth.py: every
    request has its `user` set, then is either passed on to the routers or
    refused with 401, according to its path and its `token` cookie. */
module AuthMiddleware {
  import opened PyBuiltins
  import opened AuthHelpers

  /** The path prefixes that skip authentication. */
  const ExemptPrefixes: seq<string> := ["/docs", "/openapi.json", "/api/v1/auth", "/api/v1/llm", "/api/v1/statistics"]

  /** The path starts, as a string, with one of the exempt prefixes. */
  predicate IsExempt(path: string) {
    exists i :: 0 <= i < |ExemptPrefixes| && StartsWith(path, ExemptPrefixes[i])
  }

  /** What `dispatch` does with a request: pass it on (`call_next`), or
      answer it with a status and a failure message. */
  datatype Outcome = Forwarded | Refused(status: int, message: string)

  const ExpiredMessage := "JWT token has expired"
  const InvalidMessage := "JWT token is invalid"

  /** The `user` a request is given and the outcome, from its path, its
      token cookie and what decoding that token gives. */
  function Decide(path: string, token: Option<string>, decode: string -> DecodeOutcome): (Option<Claims>, Outcome) {
    if IsExempt(path) || token.None? then (None, Forwarded)
    else
      match decode(token.value)
      case Decoded(claims) => (Some(claims), Forwarded)
      case ExpiredSignature => (None, Refused(401, ExpiredMessage))
      case InvalidToken => (None, Refused(401, InvalidMessage))
  }

  /** A request as the middleware sees it: its path, its `token` cookie and
      `state.user`, which `dispatch` sets. */
  class Request {
    const path: string
    const token: Option<string>
    var user: Option<Claims>

    constructor (path: string, token: Option<string>)
      ensures this.path == path && this.token == token && user == None
    {
      this.path := path;
      this.token := token;
      user := None;
    }
  }

  /** `dispatch`: sets `request.state.user` on every branch, then forwards
      the request or refuses it. */
  method Dispatch(request: Request, decode: string -> DecodeOutcome) returns (outcome: Outcome)
    modifies request
    ensures (request.user, outcome) == Decide(request.path, request.token, decode)
  {
    var p := request.path;
    if !(StartsWith(p, "/docs") || StartsWith(p, "/openapi.json") || StartsWith(p, "/api/v1/auth")
         || StartsWith(p, "/api/v1/llm") || StartsWith(p, "/api/v1/statistics")) {
      assert !IsExempt(p) by {
        forall i | 0 <= i < |ExemptPrefixes| ensures !StartsWith(p, ExemptPrefixes[i]) {
          assert ExemptPrefixes[i] in ["/docs", "/openapi.json", "/api/v1/auth", "/api/v1/llm", "/api/v1/statistics"];
        }
      }
      var token := request.token;
      if token.Some? {
        match decode(token.value)
        case Decoded(payload) =>
          request.user := Some(payload);
          return Forwarded;
        case ExpiredSignature =>
          request.user := None;
          return Refused(401, ExpiredMessage);
        case InvalidToken =>
          request.user := None;
          return Refused(401, InvalidMessage);
      }
      request.user := None;
      return Forwarded;
    }
    assert IsExempt(p) by {
      if StartsWith(p, "/docs") {
        assert StartsWith(p, ExemptPrefixes[0]);
      } else if StartsWith(p, "/openapi.json") {
        assert StartsWith(p, ExemptPrefixes[1]);
      } else if StartsWith(p, "/api/v1/auth") {
        assert StartsWith(p, ExemptPrefixes[2]);
      } else if StartsWith(p, "/api/v1/llm") {
        assert StartsWith(p, ExemptPrefixes[3]);
      } else {
        assert StartsWith(p, ExemptPrefixes[4]);
      }
    }
    request.user := None;
    outcome := Forwarded;
  }

  /** An exempt request goes on with no user, even when it carries a token. */
  lemma ExemptForwardsAnonymously(path: string, token: Option<string>, decode: string -> DecodeOutcome)
    requires IsExempt(path)
    ensures Decide(path, token, decode) == (None, Forwarded)
  {
  }

  /** A request without a token cookie goes on with no user. */
  lemma NoTokenForwardsAnonymously(path: string, decode: string -> DecodeOutcome)
    ensures Decide(path, None, decode) == (None, Forwarded)
  {
  }

  /** A protected request whose token decodes goes on with its claims as the
      user. */
  lemma DecodedForwardsWithClaims(path: string, token: string, decode: string -> DecodeOutcome)
    requires !IsExempt(path) && decode(token).Decoded?
    ensures Decide(path, Some(token), decode) == (Some(decode(token).claims), Forwarded)
  {
  }

  /** Exactly the protected requests carrying a token that does not decode
      are refused; every refusal is a 401 with no user, and its message
      says whether the token had expired. */
  lemma RefusedIff(path: string, token: Option<string>, decode: string -> DecodeOutcome)
    ensures Decide(path, token, decode).1.Refused? <==>
              !IsExempt(path) && token.Some? && !decode(token.value).Decoded?
    ensures Decide(path, token, decode).1.Refused? ==>
              && Decide(path, token, decode).0 == None
              && Decide(path, token, decode).1.status == 401
              && Decide(path, token, decode).1.message ==
                   (if decode(token.value).ExpiredSignature? then ExpiredMessage else InvalidMessage)
    ensures Decide(path, token, decode).0.Some? ==> Decide(path, token, decode).1 == Forwarded
  {
  }

  /** The middleware never compares `expires` with the clock: claims whose
      `expires` has passed, which `verify_jwt` refuses, still get through. */
  lemma ExpiryNotChecked(path: string, token: string, now: real, decode: string -> DecodeOutcome)
    requires !IsExempt(path) && decode(token).Decoded?
    requires "expires" in decode(token).claims
    requires IntOf(decode(token).claims["expires"]).Some?
    requires IntOf(decode(token).claims["expires"]).value < Trunc(now)
    ensures Decide(path, Some(token), decode) == (Some(decode(token).claims), Forwarded)
    ensures !VerifyJwt(token, now, decode)
  {
    VerifyIffDecodes(token, now, decode);
  }

  /** Exemption is kept by any extension of the path: every path that
      begins with an exempt path is exempt. */
  lemma ExemptExtends(path: string, rest: string)
    requires IsExempt(path)
    ensures IsExempt(path + rest)
  {
    var i :| 0 <= i < |ExemptPrefixes| && StartsWith(path, ExemptPrefixes[i]);
    assert (path + rest)[..|ExemptPrefixes[i]|] == path[..|ExemptPrefixes[i]|];
  }

  /** The exemption is a bare prefix test: paths that merely begin like an
      exempt route are exempt too, while `/api/v1/chat` is not. */
  lemma PrefixTestIsLoose()
    ensures IsExempt("/docsX")
    ensures IsExempt("/api/v1/authority")
    ensures !IsExempt("/api/v1/chat")
  {
    assert StartsWith("/docsX", ExemptPrefixes[0]);
    assert StartsWith("/api/v1/authority", ExemptPrefixes[2]);
    forall i | 0 <= i < |ExemptPrefixes| ensures !StartsWith("/api/v1/chat", ExemptPrefixes[i]) {
      var q := ExemptPrefixes[i];
      if |q| <= |"/api/v1/chat"| {
        assert "/api/v1/chat"[..|q|] != q by {
          if i == 0 || i == 1 {
            assert "/api/v1/chat"[1] != q[1];
          } else {
            assert "/api/v1/chat"[8] != q[8];
          }
        }
      }
    }
  }
}
