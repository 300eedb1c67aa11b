/** web/authentication.go: the net/http middlewares of the web package. */
module WebMiddleware {
  import opened Outcomes
  import opened GoStrings
  import opened Jwt
  import opened AuthorizationHeader
  import opened WebTokens

  /** Authenticate: 401 "Unauthorized" for a header that breaks the bearer
      rule or a token that ParseToken refuses; otherwise the next handler. */
  function Authenticate(pkg: Package, p: Parser, header: string): (d: Decision)
    reads pkg
    ensures d == Admit <==> Credentials(header).Some? && pkg.ParseToken(p, Credentials(header).value).Ok?
    ensures d != Admit ==> d == Unauthorized("Unauthorized")
  {
    match Credentials(header)
    case None => Unauthorized("Unauthorized")
    case Some(auth) =>
      if pkg.ParseToken(p, auth).Err? then Unauthorized("Unauthorized") else Admit
  }

  /** Unfolded: Authenticate admits exactly the headers "<scheme> <token>" with
      a scheme that lower-cases to "bearer" and a token that decodes, names an
      HMAC method and validates under the package secret. */
  lemma AuthenticateAdmitsIff(pkg: Package, p: Parser, scheme: string, token: string)
    requires ' ' !in scheme
    ensures Authenticate(pkg, p, scheme + " " + token) == Admit <==>
            && ToLower(scheme) == "bearer"
            && p.unverified(token).Ok?
            && p.unverified(token).value.0.family == HMAC
            && p.validate(token, pkg.tokenSecret).None?
  {
    SplitOnceOf(scheme, token);
  }

  /** How the admin loop ends when it reads a role list from the front. */
  datatype Scan =
    | Hit          // a role that lower-cases to "admin", before any non-string
    | Miss         // only strings, none of them admin
    | NotAString   // a non-string before any admin role: rl.(string) panics

  function AdminScan(items: seq<Value>): (r: Scan)
    ensures r == Hit ==> exists i :: 0 <= i < |items| && items[i].Str? && ToLower(items[i].s) == "admin"
    ensures r == NotAString ==> exists i :: 0 <= i < |items| && !items[i].Str?
    ensures r == Miss ==> forall i :: 0 <= i < |items| ==> items[i].Str? && ToLower(items[i].s) != "admin"
  {
    if items == [] then Miss
    else if !items[0].Str? then NotAString
    else if ToLower(items[0].s) == "admin" then Hit
    else AdminScan(items[1..])
  }

  /** The admin loop finds a hit exactly when some role lower-cases to
      "admin" and every role before it is a string; what follows the first
      hit is never looked at. */
  lemma {:induction false} AdminScanHit(items: seq<Value>)
    ensures AdminScan(items) == Hit <==>
            exists i :: 0 <= i < |items| && items[i].Str? && ToLower(items[i].s) == "admin" &&
                        forall j :: 0 <= j < i ==> items[j].Str?
  {
    if items != [] {
      AdminScanHit(items[1..]);
      if AdminScan(items) == Hit && items[0].Str? && ToLower(items[0].s) != "admin" {
        var i :| 0 <= i < |items[1..]| && items[1..][i].Str? && ToLower(items[1..][i].s) == "admin" &&
                 forall j :: 0 <= j < i ==> items[1..][j].Str?;
        assert forall j :: 0 <= j < i + 1 ==> items[j].Str? by {
          forall j | 0 <= j < i + 1 ensures items[j].Str? {
            if j > 0 { assert items[j] == items[1..][j - 1]; }
          }
        }
      }
      if exists i :: 0 <= i < |items| && items[i].Str? && ToLower(items[i].s) == "admin" &&
                     forall j :: 0 <= j < i ==> items[j].Str? {
        var i :| 0 <= i < |items| && items[i].Str? && ToLower(items[i].s) == "admin" &&
                 forall j :: 0 <= j < i ==> items[j].Str?;
        if i > 0 && ToLower(items[0].s) != "admin" {
          assert items[1..][i - 1] == items[i];
          assert forall j :: 0 <= j < i - 1 ==> items[1..][j].Str? by {
            forall j | 0 <= j < i - 1 ensures items[1..][j].Str? {
              assert items[1..][j] == items[j + 1];
            }
          }
        }
      }
    }
  }

  /** With a role list of strings only, the admin check is the plain
      case-insensitive membership of "admin". */
  lemma {:induction false} AdminScanOfStrings(items: seq<Value>)
    requires forall i :: 0 <= i < |items| ==> items[i].Str?
    ensures AdminScan(items) != NotAString
    ensures AdminScan(items) == Hit <==> exists i :: 0 <= i < |items| && ToLower(items[i].s) == "admin"
  {
    AdminScanHit(items);
    if items != [] {
      AdminScanOfStrings(items[1..]);
    }
  }

  /** What AuthenticateAdmin does with the claims of an accepted token:
      tkn["role"].([]interface{}) panics unless the role claim is a list. */
  function AdminDecision(claims: Claims): (d: Decision)
    ensures d == Admit <==> Get(claims, "role").List? && AdminScan(Get(claims, "role").items) == Hit
    ensures d.Unauthorized? ==>
              d == Unauthorized("Unauthorized") && Get(claims, "role").List? &&
              forall i :: 0 <= i < |Get(claims, "role").items| ==> Get(claims, "role").items[i] != Str("admin")
  {
    var roles := Get(claims, "role");
    if !roles.List? then Panicked
    else
      match AdminScan(roles.items)
      case Hit => Admit
      case Miss => Unauthorized("Unauthorized")
      case NotAString => Panicked
  }

  /** AuthenticateAdmin: the checks of Authenticate, then a loop over the role
      claim that sets isAdmin and stops at the first role that lower-cases to
      "admin"; no admin role gives 401. */
  method AuthenticateAdmin(pkg: Package, p: Parser, header: string) returns (d: Decision)
    ensures Credentials(header).None? ==> d == Unauthorized("Unauthorized")
    ensures Credentials(header).Some? && pkg.ParseToken(p, Credentials(header).value).Err? ==>
              d == Unauthorized("Unauthorized")
    ensures Credentials(header).Some? && pkg.ParseToken(p, Credentials(header).value).Ok? ==>
              d == AdminDecision(pkg.ParseToken(p, Credentials(header).value).value)
  {
    var auth := Credentials(header);
    if auth.None? {
      return Unauthorized("Unauthorized");
    }
    var tkn := pkg.ParseToken(p, auth.value);
    if tkn.Err? {
      return Unauthorized("Unauthorized");
    }
    var roles := Get(tkn.value, "role");
    if !roles.List? {
      return Panicked;
    }
    var isAdmin := false;
    var i := 0;
    while i < |roles.items|
      invariant 0 <= i <= |roles.items|
      invariant AdminScan(roles.items) == AdminScan(roles.items[i..])
    {
      var rl := roles.items[i];
      if !rl.Str? {
        return Panicked;
      }
      if ToLower(rl.s) == "admin" {
        isAdmin := true;
        break;
      }
      assert roles.items[i..][1..] == roles.items[i + 1..];
      i := i + 1;
    }
    if !isAdmin {
      return Unauthorized("Unauthorized");
    }
    d := Admit;
  }
}
