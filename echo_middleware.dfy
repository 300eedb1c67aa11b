/** web/echo/middleware.go: the echo authentication middleware. echo's
    ErrUnauthorized is the 401 error whose message is "Unauthorized"; a
    Decision of Admit stands for returning next(c). */
module EchoMiddleware {
  import opened Outcomes
  import opened GoStrings
  import opened Jwt
  import opened AuthorizationHeader
  import opened Authentication
  import MuxContext
  import EchoContext

  /** Authenticate: ErrUnauthorized whenever GetTokenFromHeader errs. */
  function Authenticate(p: Parser, secret: string, header: string): (d: Decision)
    ensures d.Unauthorized? ==> d.message == "Unauthorized"
    ensures d == Admit <==> EchoContext.GetTokenFromHeader(p, secret, header).Return?
    ensures d == Unauthorized("Unauthorized") <==> EchoContext.GetTokenFromHeader(p, secret, header).Error?
    ensures d == Panicked <==> EchoContext.GetTokenFromHeader(p, secret, header).Panic?
  {
    match EchoContext.GetTokenFromHeader(p, secret, header)
    case Error(_) => Unauthorized("Unauthorized")
    case Panic => Panicked
    case Return(_) => Admit
  }

  /** AuthenticateAdmin: ErrUnauthorized on a token error or when the roles
      do not hold "admin" ignoring case. */
  function AuthenticateAdmin(p: Parser, secret: string, header: string): (d: Decision)
    ensures d.Unauthorized? ==> d.message == "Unauthorized"
    ensures EchoContext.GetTokenFromHeader(p, secret, header).Error? ==> d == Unauthorized("Unauthorized")
    ensures EchoContext.GetTokenFromHeader(p, secret, header).Return? ==>
              var token := EchoContext.GetTokenFromHeader(p, secret, header).value;
              token.Role.Some? && (d == Admit <==> token.Role.value.Check("admin"))
    ensures EchoContext.GetTokenFromHeader(p, secret, header).Panic? ==> d == Panicked
  {
    match EchoContext.GetTokenFromHeader(p, secret, header)
    case Error(_) => Unauthorized("Unauthorized")
    case Panic => Panicked
    case Return(token) =>
      MuxContext.GetTokenFromHeaderIff(p, secret, header);
      if token.Role.value.Check("admin") then Admit else Unauthorized("Unauthorized")
  }

  /** Authentication succeeds only for a token that passes jwt.Parse under
      the secret; admin authorization adds the role test; an admin is always
      authenticated, and "Admin" or "ADMIN" count as admin. */
  lemma AdminImpliesAuthenticated(p: Parser, secret: string, header: string)
    ensures Authenticate(p, secret, header) == Admit ==>
              Credentials(header).Some? && Parse(p, Credentials(header).value, HmacKey(secret)).Ok?
    ensures AuthenticateAdmin(p, secret, header) == Admit ==> Authenticate(p, secret, header) == Admit
    ensures AuthenticateAdmin(p, secret, header) == Admit <==>
              && Authenticate(p, secret, header) == Admit
              && exists i :: 0 <= i < |EchoContext.GetTokenFromHeader(p, secret, header).value.Role.value.Roles| &&
                   ToLower(EchoContext.GetTokenFromHeader(p, secret, header).value.Role.value.Roles[i]) == "admin"
  {
    MuxContext.GetTokenFromHeaderIff(p, secret, header);
    if Credentials(header).Some? {
      DecodedIff(Zero, p, secret, Credentials(header).value);
    }
    AdminLower();
  }

  lemma AdminLower()
    ensures ToLower("admin") == "admin"
  {
    var a := ToLower("admin");
    assert a[0] == 'a' && a[1] == 'd' && a[2] == 'm' && a[3] == 'i' && a[4] == 'n';
  }
}
