/** How the two authentication paths compare on the same verifier: the
    socket admission check (`checkUser`) and the HTTP middleware. */
module AuthAgreement {
  import opened Options
  import opened Js
  import opened Jwt
  import Relay
  import opened HttpAuth

  /** A token that opens a socket also passes the HTTP middleware, with the
      same user id, when sent as `Bearer <token>` (the way the front end sends
      it), provided it is not empty. */
  lemma SocketAdmissionImpliesHttpPass(verify: Verifier, token: string)
    requires Relay.CheckUser(verify, token).Some?
    requires token != ""
    ensures Middleware(Some(BearerPrefix + token), verify) == Pass(Relay.CheckUser(verify, token).value)
  {
    ExtractBearerRoundTrip(token);
  }

  /** The converse fails: the middleware only asks that a `userId` property
      exist, while the socket check asks that it be truthy, so a payload with
      an empty `userId` passes HTTP and is refused a socket. */
  lemma HttpIsMoreLenient()
    ensures var verify := (t: string) => ObjectPayload(Some(Str("")));
            && Middleware(Some(BearerPrefix + "t"), verify) == Pass(Str(""))
            && Relay.CheckUser(verify, "t") == None
  {
    ExtractBearerRoundTrip("t");
  }

  /** Neither path lets the empty token through. HTTP answers 401 before it
      calls the verifier; the socket path hands the empty string to
      `jwt.verify`, which throws on it, so the socket is closed. */
  lemma EmptyTokenIsRefusedByBoth(reg: Relay.Registry, verify: Verifier)
    requires RejectsEmpty(verify)
    ensures Relay.CheckUser(verify, "") == None
    ensures Relay.Connect(reg, true, None, verify).effects == [Relay.Close(reg.nextConn)]
    ensures Relay.Connect(reg, true, Some(""), verify).effects == [Relay.Close(reg.nextConn)]
    ensures Relay.Connect(reg, true, None, verify).registry.users == reg.users
    ensures Middleware(None, verify) == NoToken
    ensures Middleware(Some(""), verify) == NoToken
  {
  }
}
