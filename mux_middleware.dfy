/** web/mux/middleware.go: the net/http role middleware. */
module MuxMiddleware {
  import opened Outcomes
  import opened Jwt
  import opened AuthorizationHeader
  import opened Authentication
  import AuthenticationMux
  import MuxContext

  /** ParseTokenFromHeader: the same body as in
      web/authentication/mux/authentication.go; Decode's error is dropped. */
  function ParseTokenFromHeader(p: Parser, secret: string, header: string): (r: Outcome<TokenFields>)
    ensures Credentials(header).None? <==> r == Error("No authorization header")
    ensures !r.Error? ==> Credentials(header).Some?
    ensures Credentials(header).Some? && Decoded(Zero, p, secret, Credentials(header).value).1.Error? ==>
              r == Return(Zero)
    ensures Credentials(header).Some? && Decoded(Zero, p, secret, Credentials(header).value).1 == Return(()) ==>
              r == Return(Decoded(Zero, p, secret, Credentials(header).value).0)
    ensures Credentials(header).Some? && Decoded(Zero, p, secret, Credentials(header).value).1 == Panic ==>
              r == Panic
  {
    AuthenticationMux.ParseTokenFromHeader(p, secret, header)
  }

  /** AuthenticateRole: 401 "Unauthorized" for a rejected header or a role
      Check refuses, else next; Check on a nil Role panics. */
  function AuthenticateRole(role: string, p: Parser, secret: string, header: string): (d: Decision)
    ensures Credentials(header).None? ==> d == Unauthorized("Unauthorized")
    ensures d.Unauthorized? ==> d.message == "Unauthorized"
    ensures ParseTokenFromHeader(p, secret, header).Return? ==>
              var token := ParseTokenFromHeader(p, secret, header).value;
              && (token.Role.None? ==> d == Panicked)
              && (token.Role.Some? ==> (d == Admit <==> token.Role.value.Check(role)))
    ensures ParseTokenFromHeader(p, secret, header).Panic? ==> d == Panicked
  {
    match ParseTokenFromHeader(p, secret, header)
    case Error(_) => Unauthorized("Unauthorized")
    case Panic => Panicked
    case Return(token) =>
      match token.Role
      case None => Panicked
      case Some(roles) => if roles.Check(role) then Admit else Unauthorized("Unauthorized")
  }

  /** Finding: a bearer header whose token jwt.Parse refuses leaves Role nil,
      and AuthenticateRole panics instead of answering 401. */
  lemma AuthenticateRolePanicsOnUndecodable(role: string, p: Parser, secret: string, token: string)
    requires Parse(p, token, HmacKey(secret)).Err?
    ensures AuthenticateRole(role, p, secret, "Bearer " + token) == Panicked
  {
    AuthenticationMux.ParseKeepsUndecodedToken(p, secret, token);
  }

  /** AuthenticateRole as evidently intended, through GetTokenFromHeader of
      web/mux/context_utils.go, which propagates Decode's error. */
  function AuthenticateRoleChecked(role: string, p: Parser, secret: string, header: string): (d: Decision)
    ensures d.Unauthorized? ==> d.message == "Unauthorized"
    ensures MuxContext.GetTokenFromHeader(p, secret, header).Error? ==> d == Unauthorized("Unauthorized")
    ensures MuxContext.GetTokenFromHeader(p, secret, header).Return? ==>
              var token := MuxContext.GetTokenFromHeader(p, secret, header).value;
              token.Role.Some? && (d == Admit <==> token.Role.value.Check(role))
  {
    match MuxContext.GetTokenFromHeader(p, secret, header)
    case Error(_) => Unauthorized("Unauthorized")
    case Panic => Panicked
    case Return(token) =>
      MuxContext.GetTokenFromHeaderIff(p, secret, header);
      if token.Role.value.Check(role) then Admit else Unauthorized("Unauthorized")
  }

  /** The corrected middleware answers 401 to a refused token, and panics
      only where Decode itself does. */
  lemma AuthenticateRoleCheckedRefuses(role: string, p: Parser, secret: string, token: string)
    ensures Parse(p, token, HmacKey(secret)).Err? ==>
              AuthenticateRoleChecked(role, p, secret, "Bearer " + token) == Unauthorized("Unauthorized")
    ensures AuthenticateRoleChecked(role, p, secret, "Bearer " + token).Panicked? ==>
              Decoded(Zero, p, secret, token).1 == Panic
  {
    SchemeCaseIgnored(token);
  }
}
