/** The bearer-token gate in front of every document and annotation route.
    Token verification (`jwt.verify` with the server's secret) is a partial
    function supplied by the caller: it yields the token's claims or nothing. */
module Auth {
  import opened Values

  const BEARER_PREFIX: string := "Bearer "
  const UNAUTHORIZED: string := "Unauthorized"

  /** What a verified token carries. `exp` is checked inside `jwt.verify`,
      which is a parameter here; it is kept to show that `req.user` copies
      only `sub` and `role`. */
  datatype Claims = Claims(sub: string, role: string, exp: int)

  /** `req.user` after the gate: the subject id and the role, nothing else. */
  datatype User = User(sub: string, role: string)

  /** The token of an `Authorization` header: what follows a leading
      `"Bearer "`, or nothing when the header is absent or lacks the prefix.
      The token itself may be empty. */
  function BearerToken(authorization: Option<string>): (token: Option<string>)
    ensures token.Some? <==>
      authorization.Some? && |BEARER_PREFIX| <= |authorization.value| &&
      authorization.value[..|BEARER_PREFIX|] == BEARER_PREFIX
    ensures token.Some? ==> authorization.value == BEARER_PREFIX + token.value
  {
    var header := if authorization.Some? then authorization.value else "";
    if |header| >= 7 && header[..7] == BEARER_PREFIX then Some(header[7..]) else None
  }

  /** Any token behind the prefix is recovered exactly. */
  lemma {:induction false} BearerTokenRoundTrip(token: string)
    ensures BearerToken(Some(BEARER_PREFIX + token)) == Some(token)
  {
    var header := BEARER_PREFIX + token;
    assert header[..7] == BEARER_PREFIX;
    assert header[7..] == token;
  }

  /** A header that is only the prefix yields the empty token. */
  lemma BareBearerGivesEmptyToken()
    ensures BearerToken(Some(BEARER_PREFIX)) == Some("")
  {
  }

  /** Whether the gate lets the request through to `next`. */
  datatype GateResult = Next | Reject(status: int, message: string)

  class Request {
    const authorization: Option<string>
    var user: Option<User>

    constructor (authorization: Option<string>)
      ensures this.authorization == authorization && user == None
    {
      this.authorization := authorization;
      user := None;
    }
  }

  /** `authenticate(req, res, next)`. `Next` stands for one call of `next()`;
      a rejection answers 401 and leaves `req.user` as it was. */
  method Authenticate(req: Request, verify: string -> Option<Claims>) returns (result: GateResult)
    modifies req
    ensures var token := BearerToken(req.authorization);
      result.Next? <==> token.Some? && token.value != "" && verify(token.value).Some?
    ensures result.Next? ==>
      var claims := verify(BearerToken(req.authorization).value).value;
      req.user == Some(User(claims.sub, claims.role))
    ensures result.Reject? ==> result == Reject(401, UNAUTHORIZED) && req.user == old(req.user)
  {
    var token := BearerToken(req.authorization);
    if token.None? || token.value == "" {
      return Reject(401, UNAUTHORIZED);
    }
    var payload := verify(token.value);
    if payload.None? {
      return Reject(401, UNAUTHORIZED);
    }
    req.user := Some(User(payload.value.sub, payload.value.role));
    result := Next;
  }
}
