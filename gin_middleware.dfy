/** web/gin/middleware.go: the gin authentication and authorization middleware. */
module GinMiddleware {
  import opened Outcomes
  import opened GoStrings
  import opened Jwt
  import opened AuthorizationHeader
  import opened Authentication

  /** Authenticate(role): "Invalid token header" for a header that breaks the
      bearer rule; Decode's own message when decoding fails; with a non-empty
      role, "Unauthorized" unless Role.Check(role); else c.Next(). */
  function Authenticate(role: string, p: Parser, secret: string, header: string): (d: Decision)
    ensures Credentials(header).None? ==> d == Unauthorized("Invalid token header")
    ensures Credentials(header).Some? && Decoded(Zero, p, secret, Credentials(header).value).1.Error? ==>
              d == Unauthorized(Decoded(Zero, p, secret, Credentials(header).value).1.message)
    ensures d.Panicked? ==> Credentials(header).Some?
    ensures d == Admit ==> Credentials(header).Some? && Decoded(Zero, p, secret, Credentials(header).value).1 == Return(())
    ensures Credentials(header).Some? && Decoded(Zero, p, secret, Credentials(header).value).1 == Panic ==> d == Panicked
    ensures Credentials(header).Some? && Decoded(Zero, p, secret, Credentials(header).value).1 == Return(()) ==>
              var token := Decoded(Zero, p, secret, Credentials(header).value).0;
              && (|role| == 0 ==> d == Admit)
              && (|role| > 0 && token.Role.None? ==> d == Panicked)
              && (|role| > 0 && token.Role.Some? && token.Role.value.Check(role) ==> d == Admit)
              && (|role| > 0 && token.Role.Some? && !token.Role.value.Check(role) ==> d == Unauthorized("Unauthorized"))
  {
    match Credentials(header)
    case None => Unauthorized("Invalid token header")
    case Some(cred) =>
      var (token, err) := Decoded(Zero, p, secret, cred);
      match err
      case Error(e) => Unauthorized(e)
      case Panic => Panicked
      case Return(_) =>
        if |role| > 0 then
          match token.Role
          case None => Panicked
          case Some(roles) => if roles.Check(role) then Admit else Unauthorized("Unauthorized")
        else Admit
  }

  /** The request goes on exactly when the header passes, the token passes
      jwt.Parse under the secret with well-shaped claims, and, for a non-empty
      role, the role claim holds role ignoring case. Otherwise it is refused,
      or a claim of the wrong shape panics; a granted role never panics. */
  lemma AuthenticateAdmitsIff(role: string, p: Parser, secret: string, header: string)
    ensures Authenticate(role, p, secret, header) == Admit <==>
            && Credentials(header).Some?
            && var cred := Credentials(header).value;
               && p.unverified(cred).Ok?
               && p.unverified(cred).value.0.family == HMAC
               && p.validate(cred, secret).None?
               && WellShaped(p.unverified(cred).value.1)
               && (|role| == 0 ||
                   TokenRole(StringList(Get(p.unverified(cred).value.1, "role")).value).Check(role))
    ensures Authenticate(role, p, secret, header).Panicked? ==>
              Decoded(Zero, p, secret, Credentials(header).value).1 == Panic
  {
    if Credentials(header).Some? {
      DecodedIff(Zero, p, secret, Credentials(header).value);
      ParseWithSecret(p, Credentials(header).value, secret);
    }
  }

  /** An empty role admits every decodable token; a token refused by
      jwt.Parse is refused with the library's message. */
  lemma EmptyRoleAndRefusedToken(p: Parser, secret: string, token: string)
    ensures Decoded(Zero, p, secret, token).1 == Return(()) ==> Authenticate("", p, secret, "Bearer " + token) == Admit
    ensures Parse(p, token, HmacKey(secret)).Err? ==>
              Authenticate("", p, secret, "Bearer " + token) == Unauthorized(Parse(p, token, HmacKey(secret)).message)
  {
    SchemeCaseIgnored(token);
  }
}
