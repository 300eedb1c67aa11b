/** web/authentication_token.go: the package secret, and parsing a token or
    an Authorization header into the token's claims. */
module WebTokens {
  import opened Outcomes
  import opened Jwt
  import opened AuthorizationHeader

  /** The package-level state: the secret that signs and verifies tokens. */
  class Package {
    var tokenSecret: string

    /** The state before Init: the zero string. */
    constructor ()
      ensures tokenSecret == ""
    {
      tokenSecret := "";
    }

    /** Init sets the secret that every later parse uses. */
    method Init(secret: string)
      modifies this
      ensures tokenSecret == secret
    {
      tokenSecret := secret;
    }

    /** ParseToken: the library's error passes through, otherwise the
        token's claims. With the package's key function this means: the claims
        of a token that decodes, names an HMAC method and validates under the
        package secret. */
    function ParseToken(p: Parser, tokenString: string): (r: Result<Claims>)
      reads this
      ensures r.Ok? <==>
              && p.unverified(tokenString).Ok?
              && p.unverified(tokenString).value.0.family == HMAC
              && p.validate(tokenString, tokenSecret).None?
      ensures r.Ok? ==> r.value == p.unverified(tokenString).value.1
      ensures p.unverified(tokenString).Err? ==> r == Err(p.unverified(tokenString).message)
      ensures p.unverified(tokenString).Ok? && p.unverified(tokenString).value.0.family != HMAC ==>
                r == Err("Unexpected signing method: " + p.unverified(tokenString).value.0.alg)
    {
      match Parse(p, tokenString, HmacKey(tokenSecret))
      case Err(e) => Err(e)
      case Ok(t) => Ok(t.Claims)
    }

    /** ParseTokenFromHeader: "No authorization header" unless the header
        follows the bearer rule; otherwise ParseToken of the text after the
        first space, unchanged. */
    function ParseTokenFromHeader(p: Parser, header: string): (r: Result<Claims>)
      reads this
      ensures Credentials(header).None? ==> r == Err("No authorization header")
      ensures Credentials(header).Some? ==> r == ParseToken(p, Credentials(header).value)
    {
      match Credentials(header)
      case None => Err("No authorization header")
      case Some(token) => ParseToken(p, token)
    }
  }

  /** A parse after Init(secret) checks the token against that secret: two
      packages initialised with the same secret agree on every header, and a
      token that does not validate under the secret is refused. */
  lemma ParseUsesInitSecret(a: Package, b: Package, p: Parser, header: string)
    requires a.tokenSecret == b.tokenSecret
    ensures a.ParseTokenFromHeader(p, header) == b.ParseTokenFromHeader(p, header)
    ensures Credentials(header).Some? && p.validate(Credentials(header).value, a.tokenSecret).Some? ==>
              a.ParseTokenFromHeader(p, header).Err?
  {
  }
}
