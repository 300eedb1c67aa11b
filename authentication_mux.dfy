/** web/authentication/mux/authentication.go: header helpers and middleware for
    net/http handlers. Its authentication.Token and authentication.TokenRole have
    the shape of AuthenticationToken and AuthenticationTokenRole. */
module AuthenticationMux {
  import opened Outcomes
  import opened GoStrings
  import opened Jwt
  import opened AuthorizationHeader
  import opened Authentication
  import MuxContext

  /** ParseTokenFromHeader: the header rule, then Decode into a fresh token
      whose error is dropped; only a panic inside Decode escapes. */
  function ParseTokenFromHeader(p: Parser, secret: string, header: string): (r: Outcome<TokenFields>)
    ensures Credentials(header).None? ==> r == Error("No authorization header")
    ensures Credentials(header).Some? ==> !r.Error?
    ensures Credentials(header).Some? && Decoded(Zero, p, secret, Credentials(header).value).1 != Panic ==>
              r == Return(Decoded(Zero, p, secret, Credentials(header).value).0)
    ensures Credentials(header).Some? && Decoded(Zero, p, secret, Credentials(header).value).1 == Panic ==>
              r == Panic
  {
    match Credentials(header)
    case None => Error("No authorization header")
    case Some(cred) =>
      var d := Decoded(Zero, p, secret, cred);
      if d.1.Panic? then Panic else Return(d.0)
  }

  /** A token that jwt.Parse refuses still comes back, with no error, as the
      empty token: no subscriber, no role list, no claims. */
  lemma ParseKeepsUndecodedToken(p: Parser, secret: string, token: string)
    requires Parse(p, token, HmacKey(secret)).Err?
    ensures ParseTokenFromHeader(p, secret, "Bearer " + token) == Return(Zero)
  {
    SchemeCaseIgnored(token);
  }

  /** GetTokenRoleFromHeader: the header error, else the token's Role pointer. */
  function GetTokenRoleFromHeader(p: Parser, secret: string, header: string): (r: Outcome<Option<TokenRole>>)
    ensures r.Error? <==> Credentials(header).None?
    ensures r.Panic? <==> ParseTokenFromHeader(p, secret, header).Panic?
    ensures r.Error? ==> r.message == "No authorization header"
    ensures r.Return? ==> r.value == ParseTokenFromHeader(p, secret, header).value.Role
  {
    match ParseTokenFromHeader(p, secret, header)
    case Error(e) => Error(e)
    case Panic => Panic
    case Return(token) => Return(token.Role)
  }

  /** GetTokenRole: the loop appending each role claim element. */
  method GetTokenRole(tkn: Claims) returns (r: Outcome<seq<string>>)
    ensures r == StringList(Get(tkn, "role"))
    ensures r.Return? ==> |r.value| == |Get(tkn, "role").items|
  {
    var roles := Get(tkn, "role");
    if !roles.List? {
      return Panic;
    }
    var val: seq<string> := [];
    var i := 0;
    while i < |roles.items|
      invariant 0 <= i <= |roles.items|
      invariant |val| == i
      invariant forall j :: 0 <= j < i ==> roles.items[j] == Str(val[j])
    {
      if !roles.items[i].Str? {
        assert !(forall j :: 0 <= j < |roles.items| ==> roles.items[j].Str?);
        return Panic;
      }
      val := val + [roles.items[i].s];
      i := i + 1;
    }
    assert val == StringList(roles).value;
    r := Return(val);
  }

  /** CheckTokenRole: true iff some role claim equals role ignoring case; a
      role claim that is not a list of strings panics inside GetTokenRole. */
  method CheckTokenRole(role: string, tkn: Claims) returns (r: Outcome<bool>)
    ensures StringList(Get(tkn, "role")).Panic? <==> r.Panic?
    ensures StringList(Get(tkn, "role")).Return? ==>
              r == Return(TokenRole(StringList(Get(tkn, "role")).value).Check(role))
    ensures r == Return(true) ==>
              exists i :: 0 <= i < |Get(tkn, "role").items| && Get(tkn, "role").items[i].Str? &&
                          ToLower(Get(tkn, "role").items[i].s) == ToLower(role)
  {
    var roles := GetTokenRole(tkn);
    if !roles.Return? {
      return Panic;
    }
    var i := 0;
    while i < |roles.value|
      invariant 0 <= i <= |roles.value|
      invariant forall j :: 0 <= j < i ==> ToLower(roles.value[j]) != ToLower(role)
    {
      if ToLower(roles.value[i]) == ToLower(role) {
        assert Get(tkn, "role").items[i] == Str(roles.value[i]);
        return Return(true);
      }
      i := i + 1;
    }
    r := Return(false);
  }

  /** CheckTokenRoleFromHeader: false for a rejected header, false for an
      empty role list, else Role.Check; Empty() on a nil Role panics. */
  function CheckTokenRoleFromHeader(role: string, p: Parser, secret: string, header: string): (r: Outcome<bool>)
    ensures Credentials(header).None? ==> r == Return(false)
    ensures GetTokenRoleFromHeader(p, secret, header) == Return(None) ==> r == Panic
    ensures GetTokenRoleFromHeader(p, secret, header).Panic? ==> r == Panic
    ensures GetTokenRoleFromHeader(p, secret, header).Return? && GetTokenRoleFromHeader(p, secret, header).value.Some? ==>
              var roles := GetTokenRoleFromHeader(p, secret, header).value.value;
              r == Return(!roles.Empty() && roles.Check(role))
    ensures !r.Error?
  {
    match GetTokenRoleFromHeader(p, secret, header)
    case Error(_) => Return(false)
    case Panic => Panic
    case Return(roles) =>
      match roles
      case None => Panic
      case Some(tr) => if tr.Empty() then Return(false) else Return(tr.Check(role))
  }

  /** Finding: a bearer header whose token jwt.Parse refuses reaches
      roles.Empty() with a nil Role, and the check panics instead of answering
      false. */
  lemma CheckTokenRolePanicsOnUndecodable(role: string, p: Parser, secret: string, token: string)
    requires Parse(p, token, HmacKey(secret)).Err?
    ensures CheckTokenRoleFromHeader(role, p, secret, "Bearer " + token) == Panic
  {
    ParseKeepsUndecodedToken(p, secret, token);
  }

  /** CheckTokenRoleFromHeader as evidently intended: through a parse that
      propagates Decode's error (MuxContext.GetTokenFromHeader), a rejected
      header or an undecodable token answers false. */
  function CheckTokenRoleFromHeaderChecked(role: string, p: Parser, secret: string, header: string): (r: Outcome<bool>)
    ensures MuxContext.GetTokenFromHeader(p, secret, header).Error? ==> r == Return(false)
    ensures MuxContext.GetTokenFromHeader(p, secret, header).Panic? <==> r.Panic?
    ensures MuxContext.GetTokenFromHeader(p, secret, header).Return? ==>
              var roles := MuxContext.GetTokenFromHeader(p, secret, header).value.Role.value;
              r == Return(!roles.Empty() && roles.Check(role))
  {
    match MuxContext.GetTokenFromHeader(p, secret, header)
    case Error(_) => Return(false)
    case Panic => Panic
    case Return(token) =>
      MuxContext.GetTokenFromHeaderIff(p, secret, header);
      var roles := token.Role.value;
      if roles.Empty() then Return(false) else Return(roles.Check(role))
  }

  /** The corrected check never panics on a token jwt.Parse refuses. */
  lemma CheckedRoleRefusesUndecodable(role: string, p: Parser, secret: string, token: string)
    requires Parse(p, token, HmacKey(secret)).Err?
    ensures CheckTokenRoleFromHeaderChecked(role, p, secret, "Bearer " + token) == Return(false)
  {
    MuxContext.RefusedTokenIsError(p, secret, token);
  }

  /** GetTokenSubFromHeader: the header error with "", else the Subscriber. */
  function GetTokenSubFromHeader(p: Parser, secret: string, header: string): (r: Outcome<string>)
    ensures Credentials(header).None? ==> r == Error("No authorization header")
    ensures ParseTokenFromHeader(p, secret, header).Return? ==>
              r == Return(ParseTokenFromHeader(p, secret, header).value.Subscriber)
    ensures r.Panic? <==> ParseTokenFromHeader(p, secret, header).Panic?
  {
    match ParseTokenFromHeader(p, secret, header)
    case Error(e) => Error(e)
    case Panic => Panic
    case Return(token) => Return(token.Subscriber)
  }

  /** An undecodable token's subscriber reads as "", with no error. */
  lemma SubOfUndecodable(p: Parser, secret: string, token: string)
    requires Parse(p, token, HmacKey(secret)).Err?
    ensures GetTokenSubFromHeader(p, secret, "Bearer " + token) == Return("")
  {
    ParseKeepsUndecodedToken(p, secret, token);
  }

  /** GetTokenClaimFromHeader: the header error, then Claim's error, then
      clm.(string), which panics for a claim that is not a string (an absent
      claim is nil and panics too). */
  function GetTokenClaimFromHeader(claim: string, p: Parser, secret: string, header: string): (r: Outcome<string>)
    ensures Credentials(header).None? ==> r == Error("No authorization header")
    ensures ParseTokenFromHeader(p, secret, header).Return? ==>
              var token := ParseTokenFromHeader(p, secret, header).value;
              && (token.claims.None? ==> r == Error("Claims are empty"))
              && (token.claims.Some? && Get(token.claims.value, claim).Str? ==>
                    r == Return(Get(token.claims.value, claim).s))
              && (token.claims.Some? && !Get(token.claims.value, claim).Str? ==> r == Panic)
    ensures ParseTokenFromHeader(p, secret, header).Panic? ==> r == Panic
  {
    match ParseTokenFromHeader(p, secret, header)
    case Error(e) => Error(e)
    case Panic => Panic
    case Return(token) =>
      match token.Claim(claim)
      case Error(e) => Error(e)
      case Panic => Panic
      case Return(clm) => if clm.Str? then Return(clm.s) else Panic
  }

  /** An undecodable token answers every claim with "Claims are empty". */
  lemma ClaimOfUndecodable(claim: string, p: Parser, secret: string, token: string)
    requires Parse(p, token, HmacKey(secret)).Err?
    ensures GetTokenClaimFromHeader(claim, p, secret, "Bearer " + token) == Error("Claims are empty")
  {
    ParseKeepsUndecodedToken(p, secret, token);
  }

  /** Authenticate: 401 "Unauthorized" when ParseTokenFromHeader errs, else next. */
  function Authenticate(p: Parser, secret: string, header: string): (d: Decision)
    ensures d == Admit <==> Credentials(header).Some? && !ParseTokenFromHeader(p, secret, header).Panic?
    ensures Credentials(header).None? ==> d == Unauthorized("Unauthorized")
    ensures d.Panicked? <==> ParseTokenFromHeader(p, secret, header).Panic?
  {
    match ParseTokenFromHeader(p, secret, header)
    case Error(_) => Unauthorized("Unauthorized")
    case Panic => Panicked
    case Return(_) => Admit
  }

  /** Finding: Authenticate lets through a bearer header whose token jwt.Parse
      refuses, a forged or expired one included. */
  lemma AuthenticateAdmitsUndecodable(p: Parser, secret: string, token: string)
    requires Parse(p, token, HmacKey(secret)).Err?
    ensures Authenticate(p, secret, "Bearer " + token) == Admit
  {
    ParseKeepsUndecodedToken(p, secret, token);
  }

  /** Authenticate as evidently intended, through a parse that propagates
      Decode's error. */
  function AuthenticateChecked(p: Parser, secret: string, header: string): (d: Decision)
    ensures d.Unauthorized? ==> d.message == "Unauthorized"
    ensures d.Panicked? <==> MuxContext.GetTokenFromHeader(p, secret, header).Panic?
    ensures d == Admit <==> MuxContext.GetTokenFromHeader(p, secret, header).Return?
  {
    match MuxContext.GetTokenFromHeader(p, secret, header)
    case Error(_) => Unauthorized("Unauthorized")
    case Panic => Panicked
    case Return(_) => Admit
  }

  /** The corrected middleware admits a request only when the token passes
      jwt.Parse under the secret, and turns a refused token away. */
  lemma AuthenticateCheckedAdmitsIff(p: Parser, secret: string, header: string)
    ensures AuthenticateChecked(p, secret, header) == Admit <==>
            && Credentials(header).Some?
            && p.unverified(Credentials(header).value).Ok?
            && p.unverified(Credentials(header).value).value.0.family == HMAC
            && p.validate(Credentials(header).value, secret).None?
            && WellShaped(p.unverified(Credentials(header).value).value.1)
    ensures Credentials(header).Some? && Parse(p, Credentials(header).value, HmacKey(secret)).Err? ==>
            AuthenticateChecked(p, secret, header) == Unauthorized("Unauthorized")
  {
    MuxContext.GetTokenFromHeaderIff(p, secret, header);
    if Credentials(header).Some? && Parse(p, Credentials(header).value, HmacKey(secret)).Err? {
      DecodedIff(Zero, p, secret, Credentials(header).value);
    }
  }

  /** AuthenticateRole: next iff CheckTokenRoleFromHeader is true, else 401. */
  function AuthenticateRole(role: string, p: Parser, secret: string, header: string): (d: Decision)
    ensures d == Admit <==> CheckTokenRoleFromHeader(role, p, secret, header) == Return(true)
    ensures d.Panicked? <==> CheckTokenRoleFromHeader(role, p, secret, header).Panic?
    ensures d.Unauthorized? ==> d.message == "Unauthorized"
  {
    match CheckTokenRoleFromHeader(role, p, secret, header)
    case Return(ok) => if ok then Admit else Unauthorized("Unauthorized")
    case Error(_) => Unauthorized("Unauthorized")
    case Panic => Panicked
  }

  /** With a decodable token, AuthenticateRole admits iff the token's role
      list holds role ignoring case. */
  lemma AuthenticateRoleOnDecoded(role: string, p: Parser, secret: string, scheme: string, token: string)
    requires ToLower(scheme) == "bearer" && ' ' !in scheme
    requires Decoded(Zero, p, secret, token).1 == Return(())
    ensures AuthenticateRole(role, p, secret, scheme + " " + token) == Admit <==>
            exists i :: 0 <= i < |Get(p.unverified(token).value.1, "role").items| &&
                        Get(p.unverified(token).value.1, "role").items[i] ==
                          Str(Decoded(Zero, p, secret, token).0.Role.value.Roles[i]) &&
                        ToLower(Decoded(Zero, p, secret, token).0.Role.value.Roles[i]) == ToLower(role)
  {
    SplitOnceOf(scheme, token);
    DecodedIff(Zero, p, secret, token);
  }

  /** Finding, continued: the same undecodable token makes AuthenticateRole
      panic rather than answer 401. */
  lemma AuthenticateRolePanicsOnUndecodable(role: string, p: Parser, secret: string, token: string)
    requires Parse(p, token, HmacKey(secret)).Err?
    ensures AuthenticateRole(role, p, secret, "Bearer " + token) == Panicked
  {
    CheckTokenRolePanicsOnUndecodable(role, p, secret, token);
  }

  /** AuthenticateRole as evidently intended. */
  function AuthenticateRoleChecked(role: string, p: Parser, secret: string, header: string): (d: Decision)
    ensures d == Admit <==> CheckTokenRoleFromHeaderChecked(role, p, secret, header) == Return(true)
    ensures d.Panicked? <==> CheckTokenRoleFromHeaderChecked(role, p, secret, header).Panic?
    ensures d.Unauthorized? ==> d.message == "Unauthorized"
  {
    match CheckTokenRoleFromHeaderChecked(role, p, secret, header)
    case Return(ok) => if ok then Admit else Unauthorized("Unauthorized")
    case Error(_) => Unauthorized("Unauthorized")
    case Panic => Panicked
  }

  /** The corrected role middleware answers 401 to a refused token. */
  lemma AuthenticateRoleCheckedRefusesUndecodable(role: string, p: Parser, secret: string, token: string)
    requires Parse(p, token, HmacKey(secret)).Err?
    ensures AuthenticateRoleChecked(role, p, secret, "Bearer " + token) == Unauthorized("Unauthorized")
  {
    CheckedRoleRefusesUndecodable(role, p, secret, token);
  }
}
