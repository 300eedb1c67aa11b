/** web/mux/context_utils.go: the bearer token of a net/http request, with
    Decode's error propagated. */
module MuxContext {
  import opened Outcomes
  import opened Jwt
  import opened AuthorizationHeader
  import opened Authentication

  /** GetTokenFromHeader: "No authorization header" for a header that breaks
      the bearer rule, Decode's error (and a nil token) when decoding fails,
      else the decoded token. */
  function GetTokenFromHeader(p: Parser, secret: string, header: string): (r: Outcome<TokenFields>)
    ensures Credentials(header).None? ==> r == Error("No authorization header")
    ensures Credentials(header).Some? ==>
              var d := Decoded(Zero, p, secret, Credentials(header).value);
              && (d.1.Error? ==> r == Error(d.1.message))
              && (d.1.Panic? ==> r == Panic)
              && (d.1.Return? ==> r == Return(d.0))
  {
    match Credentials(header)
    case None => Error("No authorization header")
    case Some(cred) =>
      var d := Decoded(Zero, p, secret, cred);
      match d.1
      case Error(e) => Error(e)
      case Panic => Panic
      case Return(_) => Return(d.0)
  }

  /** A token is returned exactly when the header passes and the token passes
      jwt.Parse under the secret with well-shaped claims; it then carries a
      role list and its claims. */
  lemma GetTokenFromHeaderIff(p: Parser, secret: string, header: string)
    ensures GetTokenFromHeader(p, secret, header).Return? <==>
            && Credentials(header).Some?
            && p.unverified(Credentials(header).value).Ok?
            && p.unverified(Credentials(header).value).value.0.family == HMAC
            && p.validate(Credentials(header).value, secret).None?
            && WellShaped(p.unverified(Credentials(header).value).value.1)
    ensures GetTokenFromHeader(p, secret, header).Return? ==>
              && GetTokenFromHeader(p, secret, header).value.Role.Some?
              && GetTokenFromHeader(p, secret, header).value.claims ==
                 Some(p.unverified(Credentials(header).value).value.1)
  {
    if Credentials(header).Some? {
      DecodedIff(Zero, p, secret, Credentials(header).value);
    }
  }

  /** A token jwt.Parse refuses comes back as its error, whatever the
      scheme's letter case. */
  lemma RefusedTokenIsError(p: Parser, secret: string, token: string)
    requires Parse(p, token, HmacKey(secret)).Err?
    ensures GetTokenFromHeader(p, secret, "Bearer " + token) == Error(Parse(p, token, HmacKey(secret)).message)
    ensures GetTokenFromHeader(p, secret, "bearer " + token) == Error(Parse(p, token, HmacKey(secret)).message)
  {
    SchemeCaseIgnored(token);
  }
}
