/** The HTTP back end's authentication middleware: it reads the
    `authorization` header, strips a `Bearer ` prefix, verifies the token and
    either passes the request on with its user id or answers 401/403. */
module HttpAuth {
  import opened Options
  import opened Js
  import opened Jwt

  const BearerPrefix := "Bearer "

  /** How a request leaves the middleware: `next()` is called with
      `req.userId` set, or a status and a JSON `message` are sent. */
  datatype Response = Pass(userId: Value) | Reject(status: int, message: string)

  const NoToken := Reject(401, "No token provided")
  const InvalidToken := Reject(401, "Invalid token")
  const Forbidden := Reject(403, "Unauthorized")

  /** The token of an `authorization` header: the header without its
      `Bearer ` prefix when it has one, the whole header otherwise. */
  function ExtractToken(header: string): (token: string)
    ensures BearerPrefix <= header ==> BearerPrefix + token == header
    ensures !(BearerPrefix <= header) ==> token == header
  {
    if BearerPrefix <= header then header[|BearerPrefix|..] else header
  }

  /** `middleware`. A missing header reads as the empty string. An empty
      token is 401 "No token provided"; a token the verifier throws on is
      401 "Invalid token"; a payload object with a `userId` property passes
      with that value (whatever it is); any other payload is 403. */
  function Middleware(header: Option<string>, verify: Verifier): (r: Response)
    ensures var token := ExtractToken(header.GetOr(""));
            && (r == NoToken <==> token == "")
            && (r == InvalidToken <==> token != "" && verify(token).Throws?)
            && (r.Pass? <==> token != "" && verify(token).ObjectPayload? && verify(token).userId.Some?)
            && (r.Pass? ==> verify(token) == ObjectPayload(Some(r.userId)))
            && (r == Forbidden <==>
                  token != "" && !verify(token).Throws? && !(verify(token).ObjectPayload? && verify(token).userId.Some?))
    ensures r.Reject? ==> r in {NoToken, InvalidToken, Forbidden}
  {
    var token := ExtractToken(header.GetOr(""));
    if token == "" then NoToken
    else
      match verify(token)
      case Throws => InvalidToken
      case StringPayload(_) => Forbidden
      case ObjectPayload(claim) =>
        if claim.Some? then Pass(claim.value) else Forbidden
  }

  /** Prefixing a token with `Bearer ` and extracting it again gives the
      token back, even when the token itself starts with `Bearer `: only one
      prefix is removed. */
  lemma ExtractBearerRoundTrip(token: string)
    ensures ExtractToken(BearerPrefix + token) == token
  {
    assert BearerPrefix <= BearerPrefix + token;
    assert (BearerPrefix + token)[|BearerPrefix|..] == token;
  }

  /** A header that is exactly `Bearer `, or no header at all, is answered
      401 "No token provided" whatever the verifier does. */
  lemma EmptyBearerIsNoToken(verify: Verifier)
    ensures Middleware(Some(BearerPrefix), verify) == NoToken
    ensures Middleware(None, verify) == NoToken
    ensures Middleware(Some(""), verify) == NoToken
  {
    assert BearerPrefix[|BearerPrefix|..] == "";
  }
}
