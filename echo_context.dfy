/** web/echo/context_utils.go: the bearer token of an echo request. */
module EchoContext {
  import opened Outcomes
  import opened Jwt
  import opened AuthorizationHeader
  import opened Authentication
  import MuxContext

  /** GetTokenFromHeader: the same body as web/mux/context_utils.go, reading
      the header through c.Request(). */
  function GetTokenFromHeader(p: Parser, secret: string, header: string): (r: Outcome<TokenFields>)
    ensures Credentials(header).None? ==> r == Error("No authorization header")
    ensures r.Return? ==> Credentials(header).Some? && Decoded(Zero, p, secret, Credentials(header).value) == (r.value, Return(()))
    ensures r.Error? && Credentials(header).Some? ==>
              Decoded(Zero, p, secret, Credentials(header).value).1 == Error(r.message)
    ensures r.Panic? <==> Credentials(header).Some? && Decoded(Zero, p, secret, Credentials(header).value).1.Panic?
  {
    MuxContext.GetTokenFromHeader(p, secret, header)
  }
}
