/** The token verifier both backends call (`jwt.verify(token, JWT_SECRET)`).
    Signature checking is a foreign call, so the model takes the verifier as
    an uninterpreted function from token to one of its three outcomes. */
module Jwt {
  import opened Options
  import opened Js

  /** What `jwt.verify` does with a token: it throws, or it returns the decoded
      payload, which is either a bare string or an object. For an object only
      the `userId` property matters; `None` means the property is absent. */
  datatype Decoded =
    | Throws
    | StringPayload(text: string)
    | ObjectPayload(userId: Option<Value>)

  type Verifier = string -> Decoded

  /** `jwt.verify` throws "jwt must be provided" on the empty token, before
      any signature is checked. A verifier standing for the library has this
      property; the model states it where a property needs it. */
  predicate RejectsEmpty(verify: Verifier) {
    verify("").Throws?
  }
}
