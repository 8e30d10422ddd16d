/** The bearer-header gate in front of every todo route: it reads the
    `Authorization` header, hands the token to the verifier, and either
    attaches the decoded identity to the request and passes control on, or
    answers the request itself. */
module AuthGate {
  import opened Outcomes
  import opened Http

  /** The decoded token payload attached to the request as `req.user`. */
  datatype Payload = Payload(sub: string, email: string, iat: int, exp: int)

  /** The token verifier: the decoded payload, or `None` for every kind of
      failure (bad signature, malformed token, expiry, a fault inside it). */
  type Verifier = string -> Option<Payload>

  /** The gate's decision for one request. */
  datatype GateDecision = Proceed(user: Payload) | Deny(status: int, message: string, code: string)

  const BearerPrefix := "Bearer "
  const MissingHeaderMessage := "Authorization header missing or invalid"
  const InvalidTokenMessage := "Invalid or expired token"
  const AuthErrorMessage := "Authentication error"

  /** `authHeader.startsWith('Bearer ')`, case-sensitive. */
  predicate HasBearerScheme(header: string)
  {
    |header| >= |BearerPrefix| && header[..|BearerPrefix|] == BearerPrefix
  }

  /** The request state the gate reads and writes. */
  class Request {
    var authorization: Option<string>
    var user: Option<Payload>

    constructor(authorization: Option<string>)
      ensures this.authorization == authorization && user == None
    {
      this.authorization := authorization;
      user := None;
    }
  }

  /** What the gate decides for a header, a verifier and whether some
      unexpected fault occurs outside the token verification (`outerFault`). */
  function Decide(header: Option<string>, verify: Verifier, outerFault: bool): (d: GateDecision)
    ensures outerFault ==> d == Deny(500, AuthErrorMessage, "AUTH_ERROR")
    ensures !outerFault && (header.None? || !HasBearerScheme(header.value)) ==>
      d == Deny(401, MissingHeaderMessage, "MISSING_AUTH_HEADER")
    ensures !outerFault && header.Some? && HasBearerScheme(header.value) ==>
      (d.Proceed? <==> verify(header.value[7..]).Some?)
      && (d.Proceed? ==> d.user == verify(header.value[7..]).value)
      && (d.Deny? ==> d == Deny(401, InvalidTokenMessage, "INVALID_TOKEN"))
    ensures d.Deny? ==> d.status == 401 || d.status == 500
  {
    if outerFault then Deny(500, AuthErrorMessage, "AUTH_ERROR")
    else if header.None? || header.value == "" || !HasBearerScheme(header.value) then
      Deny(401, MissingHeaderMessage, "MISSING_AUTH_HEADER")
    else
      match verify(header.value[7..])
      case Some(p) => Proceed(p)
      case None => Deny(401, InvalidTokenMessage, "INVALID_TOKEN")
  }

  /** `requireAuth`: on `Proceed`, sets `req.user` and calls `next` (returns
      true) without writing the response; on `Deny`, writes the error reply,
      leaves `req.user` alone and does not call `next`. */
  method RequireAuth<D>(req: Request, res: Response<D>, verify: Verifier, outerFault: bool)
    returns (nextCalled: bool)
    modifies req`user, res
    ensures Decide(req.authorization, verify, outerFault).Proceed? ==>
      nextCalled && req.user == Some(Decide(req.authorization, verify, outerFault).user)
      && res.sent == old(res.sent)
    ensures Decide(req.authorization, verify, outerFault).Deny? ==>
      !nextCalled && req.user == old(req.user)
      && var d := Decide(req.authorization, verify, outerFault);
         res.sent == Some(ErrorReply(d.status, d.message, d.code))
  {
    if outerFault {
      res.Send(ErrorReply(500, AuthErrorMessage, "AUTH_ERROR"));
      return false;
    }
    var authHeader := req.authorization;
    if authHeader.None? || authHeader.value == "" || !HasBearerScheme(authHeader.value) {
      res.Send(ErrorReply(401, MissingHeaderMessage, "MISSING_AUTH_HEADER"));
      return false;
    }
    var token := authHeader.value[7..];
    var decoded := verify(token);
    if decoded.None? {
      res.Send(ErrorReply(401, InvalidTokenMessage, "INVALID_TOKEN"));
      return false;
    }
    req.user := decoded;
    nextCalled := true;
  }

  /** The token handed to the verifier is what follows the prefix: a header
      built as `"Bearer " + token` passes exactly `token`. */
  lemma BearerRoundTrip(token: string, verify: Verifier)
    ensures HasBearerScheme(BearerPrefix + token)
    ensures Decide(Some(BearerPrefix + token), verify, false)
         == (match verify(token)
             case Some(p) => Proceed(p)
             case None => Deny(401, InvalidTokenMessage, "INVALID_TOKEN"))
  {
    assert (BearerPrefix + token)[..7] == BearerPrefix;
    assert (BearerPrefix + token)[7..] == token;
  }

  /** The scheme check is case-sensitive: a lower-case `bearer` is refused as
      if there were no header, without consulting the verifier. */
  lemma SchemeIsCaseSensitive(token: string, verify: Verifier)
    ensures Decide(Some("bearer " + token), verify, false)
         == Deny(401, MissingHeaderMessage, "MISSING_AUTH_HEADER")
  {
    assert ("bearer " + token)[0] == 'b';
  }
}
