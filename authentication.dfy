/** web/authentication/authentication_token.go: the authentication token, its
    role set and the decoding of a JWT into them. */
module Authentication {
  import opened Outcomes
  import opened GoStrings
  import opened Jwt

  /** *AuthenticationTokenRole: the roles are never changed through the pointer,
      so the value is the slice; a nil pointer is Option's None. */
  datatype TokenRole = TokenRole(Roles: seq<string>) {

    /** Check: some stored role equals role when both are lower-cased. */
    function Check(role: string): (r: bool)
      ensures r <==> exists i :: 0 <= i < |Roles| && ToLower(Roles[i]) == ToLower(role)
    {
      HasRoleIgnoringCase(Roles, role)
    }

    /** Empty: the role list has no entry. */
    predicate Empty(): (r: bool)
      ensures r ==> forall role :: !Check(role)
      ensures !r ==> |Roles| > 0 && Check(Roles[0])
    {
      |Roles| == 0
    }
  }

  /** The search loop of Check: the first role that matches ends it. */
  function HasRoleIgnoringCase(roles: seq<string>, role: string): (r: bool)
    ensures r <==> exists i :: 0 <= i < |roles| && ToLower(roles[i]) == ToLower(role)
  {
    if roles == [] then false
    else if ToLower(roles[0]) == ToLower(role) then true
    else
      var r := HasRoleIgnoringCase(roles[1..], role);
      assert r ==> exists i :: 0 <= i < |roles| && ToLower(roles[i]) == ToLower(role) by {
        if r {
          var i :| 0 <= i < |roles[1..]| && ToLower(roles[1..][i]) == ToLower(role);
          assert roles[i + 1] == roles[1..][i];
        }
      }
      assert (exists i :: 0 <= i < |roles| && ToLower(roles[i]) == ToLower(role)) ==> r by {
        if exists i :: 0 <= i < |roles| && ToLower(roles[i]) == ToLower(role) {
          var i :| 0 <= i < |roles| && ToLower(roles[i]) == ToLower(role);
          assert i > 0 && roles[1..][i - 1] == roles[i];
        }
      }
      r
  }

  /** NewAuthenticationTokenRole wraps the slice it is given. */
  function NewAuthenticationTokenRole(roles: seq<string>): (r: TokenRole)
    ensures r.Roles == roles
  {
    TokenRole(roles)
  }

  /** An empty role list grants no role, and a granted role means the list
      is not empty. */
  lemma CheckOnEmpty(t: TokenRole, role: string)
    ensures t.Empty() ==> !t.Check(role)
    ensures t.Check(role) ==> !t.Empty()
  {
  }

  /** Check does not depend on the letter case of its argument. */
  lemma CheckIgnoresArgumentCase(t: TokenRole, role: string, other: string)
    requires ToLower(role) == ToLower(other)
    ensures t.Check(role) == t.Check(other)
  {
  }

  /** In particular upper-casing the argument changes nothing. */
  lemma CheckOfUpperCase(t: TokenRole, role: string)
    ensures t.Check(ToUpper(role)) == t.Check(role)
  {
    ToLowerIgnoresCase(role);
    CheckIgnoresArgumentCase(t, ToUpper(role), role);
  }

  /** Check does not depend on the letter case of the stored roles. */
  lemma CheckIgnoresStoredCase(roles: seq<string>, others: seq<string>, role: string)
    requires |roles| == |others|
    requires forall i :: 0 <= i < |roles| ==> ToLower(roles[i]) == ToLower(others[i])
    ensures TokenRole(roles).Check(role) == TokenRole(others).Check(role)
  {
    if TokenRole(others).Check(role) {
      var i :| 0 <= i < |others| && ToLower(others[i]) == ToLower(role);
      assert ToLower(roles[i]) == ToLower(role);
    }
  }

  /** time.Time, for as much as this model needs: the zero time, or the
      instant given by the float64 "exp" claim in seconds since the epoch. */
  datatype Time = ZeroTime | UnixTime(seconds: real)

  /** The field values of an AuthenticationToken. */
  datatype TokenFields = TokenFields(
    Subscriber: string,
    Name: string,
    Role: Option<TokenRole>,
    Expiration: Time,
    claims: Option<Claims>)
  {
    /** Claim: "Claims are empty" while the token holds no claims, else the
        map entry, which is nil (and no error) for an absent key. */
    function Claim(claim: string): (r: Outcome<Value>)
      ensures claims.None? <==> r == Error("Claims are empty")
      ensures claims.Some? ==> r == Return(Get(claims.value, claim))
      ensures claims.Some? && claim !in claims.value ==> r == Return(Nil)
    {
      if claims.None? then Error("Claims are empty") else Return(Get(claims.value, claim))
    }

    /** Expired, up to the clock: Claim's error passes through; an "exp" claim
        that is not a Go int gives "unknow type"; an int claim is returned,
        the instant the source then compares with time.Now(). */
    function Expired(): (r: Outcome<int>)
      ensures claims.None? ==> r == Error("Claims are empty")
      ensures claims.Some? && !Get(claims.value, "exp").Int? ==> r == Error("unknow type")
      ensures r.Return? <==> claims.Some? && Get(claims.value, "exp").Int?
      ensures r.Return? ==> Get(claims.value, "exp") == Int(r.value)
    {
      match Claim("exp")
      case Error(e) => Error(e)
      case Panic => Panic
      case Return(clm) => if clm.Int? then Return(clm.i) else Error("unknow type")
    }

    /** Expired as evidently intended: the "exp" claim of a decoded token is a
        JSON number, a float64, and is read as its integer number of seconds
        (int64 conversion truncates toward zero). */
    function ExpiredCorrected(): (r: Outcome<int>)
      ensures claims.None? ==> r == Error("Claims are empty")
      ensures claims.Some? && Get(claims.value, "exp").Float? ==>
                r == Return(Truncate(Get(claims.value, "exp").f))
      ensures claims.Some? && Get(claims.value, "exp").Int? ==> r == Return(Get(claims.value, "exp").i)
    {
      match Claim("exp")
      case Error(e) => Error(e)
      case Panic => Panic
      case Return(clm) =>
        if clm.Int? then Return(clm.i)
        else if clm.Float? then Return(Truncate(clm.f))
        else Error("unknow type")
    }
  }

  /** Go's conversion of a float64 to an integer: toward zero. */
  function Truncate(f: real): (n: int)
    ensures f >= 0.0 ==> n as real <= f < n as real + 1.0
    ensures f < 0.0 ==> n as real - 1.0 < f <= n as real
  {
    if f >= 0.0 then f.Floor else -((-f).Floor)
  }

  /** &AuthenticationToken{}: every field zero, Role and claims nil. */
  const Zero := TokenFields("", "", None, ZeroTime, None)

  /** NewAuthenticationToken keeps sub, name and roles as given and leaves the
      expiration zero and the claims nil. */
  function NewAuthenticationToken(sub: string, name: string, roles: seq<string>): (t: TokenFields)
    ensures t.Subscriber == sub && t.Name == name && t.Role == Some(TokenRole(roles))
    ensures t.Expiration == ZeroTime && t.claims == None
  {
    TokenFields(sub, name, Some(NewAuthenticationTokenRole(roles)), ZeroTime, None)
  }

  /** A token that has not been decoded answers every Claim, and Expired,
      with "Claims are empty". */
  lemma UndecodedHasNoClaims(sub: string, name: string, roles: seq<string>, claim: string)
    ensures NewAuthenticationToken(sub, name, roles).Claim(claim) == Error("Claims are empty")
    ensures NewAuthenticationToken(sub, name, roles).Expired() == Error("Claims are empty")
    ensures Zero.Claim(claim) == Error("Claims are empty")
  {
  }

  /** concatClaim(claim, claims)'s result: claims[claim].([]interface{}) and
      each r.(string) panic unless the claim is a list of strings; otherwise
      the strings, in the same order. */
  function StringList(v: Value): (r: Outcome<seq<string>>)
    ensures r != Panic <==> v.List? && forall i :: 0 <= i < |v.items| ==> v.items[i].Str?
    ensures r != Panic ==> r.Return?
    ensures r.Return? ==> |r.value| == |v.items| && forall i :: 0 <= i < |r.value| ==> v.items[i] == Str(r.value[i])
  {
    if v.List? && forall i :: 0 <= i < |v.items| ==> v.items[i].Str? then
      Return(seq(|v.items|, i requires 0 <= i < |v.items| => v.items[i].s))
    else Panic
  }

  /** The loop of concatClaim, appending one string per element. */
  method ConcatClaim(claim: string, claims: Claims) returns (r: Outcome<seq<string>>)
    ensures r == StringList(Get(claims, claim))
  {
    var v := Get(claims, claim);
    if !v.List? {
      return Panic;
    }
    var val: seq<string> := [];
    var i := 0;
    while i < |v.items|
      invariant 0 <= i <= |v.items|
      invariant |val| == i
      invariant forall j :: 0 <= j < i ==> v.items[j] == Str(val[j])
    {
      var item := v.items[i];
      if !item.Str? {
        assert !(forall j :: 0 <= j < |v.items| ==> v.items[j].Str?);
        return Panic;
      }
      val := val + [item.s];
      i := i + 1;
    }
    assert forall j :: 0 <= j < |v.items| ==> v.items[j].Str?;
    assert val == StringList(v).value;
    r := Return(val);
  }

  /** The claims Decode reads, with the types its assertions demand. */
  predicate WellShaped(claims: Claims)
  {
    && Get(claims, "sub").Str?
    && Get(claims, "name").Str?
    && StringList(Get(claims, "role")).Return?
    && Get(claims, "exp").Float?
  }

  /** The assignments of Decode once jwt.Parse has accepted the token, one
      type assertion before each: a failed assertion panics and leaves the
      fields assigned so far as they are. */
  function Assign(t: TokenFields, claims: Claims): (r: (TokenFields, Outcome<()>))
    ensures r.1 == Return(()) <==> WellShaped(claims)
    ensures r.1 != Return(()) ==> r.1 == Panic
    ensures WellShaped(claims) ==>
              r.0 == TokenFields(Get(claims, "sub").s, Get(claims, "name").s,
                           Some(TokenRole(StringList(Get(claims, "role")).value)),
                           UnixTime(Get(claims, "exp").f), Some(claims))
  {
    var sub := Get(claims, "sub");
    if !sub.Str? then (t, Panic)
    else
      var t1 := t.(Subscriber := sub.s);
      var name := Get(claims, "name");
      if !name.Str? then (t1, Panic)
      else
        var t2 := t1.(Name := name.s);
        var roles := StringList(Get(claims, "role"));
        if !roles.Return? then (t2, Panic)
        else
          var t3 := t2.(Role := Some(NewAuthenticationTokenRole(roles.value)));
          var exp := Get(claims, "exp");
          if !exp.Float? then (t3, Panic)
          else (t3.(Expiration := UnixTime(exp.f), claims := Some(claims)), Return(()))
  }

  /** Decode(tokenString) applied to a token t: the new field values and the
      returned error. A parse error leaves every field as it was. */
  function Decoded(t: TokenFields, p: Parser, secret: string, tokenString: string): (r: (TokenFields, Outcome<()>))
    ensures Parse(p, tokenString, HmacKey(secret)).Err? ==>
              r == (t, Error(Parse(p, tokenString, HmacKey(secret)).message))
    ensures Parse(p, tokenString, HmacKey(secret)).Ok? ==>
              r == Assign(t, Parse(p, tokenString, HmacKey(secret)).value.Claims)
  {
    match Parse(p, tokenString, HmacKey(secret))
    case Err(e) => (t, Error(e))
    case Ok(tkn) => Assign(t, tkn.Claims)
  }

  /** Decode succeeds exactly when the token passes jwt.Parse under the secret
      and its claims have the shapes Decode asserts; then Subscriber, Name,
      Role (the role claim in its order), Expiration and claims come from
      the token. It fails with the library's error, fields untouched, when
      parsing fails, and panics when a claim has the wrong shape. */
  lemma DecodedIff(t: TokenFields, p: Parser, secret: string, tokenString: string)
    ensures Decoded(t, p, secret, tokenString).1 == Return(()) <==>
            && p.unverified(tokenString).Ok?
            && p.unverified(tokenString).value.0.family == HMAC
            && p.validate(tokenString, secret).None?
            && WellShaped(p.unverified(tokenString).value.1)
    ensures Decoded(t, p, secret, tokenString).1.Error? ==> Decoded(t, p, secret, tokenString).0 == t
    ensures Decoded(t, p, secret, tokenString).1 == Return(()) ==>
              var c := p.unverified(tokenString).value.1;
              var d := Decoded(t, p, secret, tokenString).0;
              && d.claims == Some(c)
              && d.Role.Some? && |d.Role.value.Roles| == |Get(c, "role").items|
              && forall i :: 0 <= i < |d.Role.value.Roles| ==> Get(c, "role").items[i] == Str(d.Role.value.Roles[i])
  {
    ParseWithSecret(p, tokenString, secret);
  }

  /** After a successful Decode every Claim is the decoded map's entry. */
  lemma ClaimAfterDecode(t: TokenFields, p: Parser, secret: string, tokenString: string, claim: string)
    requires Decoded(t, p, secret, tokenString).1 == Return(())
    ensures Decoded(t, p, secret, tokenString).0.Claim(claim) ==
            Return(Get(p.unverified(tokenString).value.1, claim))
  {
    ParseWithSecret(p, tokenString, secret);
  }

  /** Finding: Expired cannot succeed on a decoded token. Decode accepts a
      token only when its "exp" claim is a float64, and Expired then fails its
      int assertion with "unknow type". */
  lemma ExpiredFailsAfterDecode(t: TokenFields, p: Parser, secret: string, tokenString: string)
    requires Decoded(t, p, secret, tokenString).1 == Return(())
    ensures Decoded(t, p, secret, tokenString).0.Expired() == Error("unknow type")
  {
    ParseWithSecret(p, tokenString, secret);
  }

  /** The corrected reading returns the decoded expiry, in whole seconds,
      agreeing with the Expiration field Decode set. */
  lemma ExpiredCorrectedAfterDecode(t: TokenFields, p: Parser, secret: string, tokenString: string)
    requires Decoded(t, p, secret, tokenString).1 == Return(())
    ensures var d := Decoded(t, p, secret, tokenString).0;
            d.Expiration.UnixTime? && d.ExpiredCorrected() == Return(Truncate(d.Expiration.seconds))
  {
    ParseWithSecret(p, tokenString, secret);
  }

  /** An *AuthenticationToken whose Decode assigns its fields in place. */
  class AuthenticationToken {
    var Subscriber: string
    var Name: string
    var Role: Option<TokenRole>
    var Expiration: Time
    var claims: Option<Claims>

    function Value(): TokenFields
      reads this
    {
      TokenFields(Subscriber, Name, Role, Expiration, claims)
    }

    /** &AuthenticationToken{} */
    constructor ()
      ensures Value() == Zero
    {
      Subscriber, Name, Role, Expiration, claims := "", "", None, ZeroTime, None;
    }

    /** Decode: parse with the secret, then assign the fields one by one. */
    method Decode(p: Parser, secret: string, tokenString: string) returns (err: Outcome<()>)
      modifies this
      ensures (Value(), err) == Decoded(old(Value()), p, secret, tokenString)
    {
      var tkn := Parse(p, tokenString, HmacKey(secret));
      if tkn.Err? {
        return Error(tkn.message);
      }
      var c := tkn.value.Claims;
      var sub := Get(c, "sub");
      if !sub.Str? {
        return Panic;
      }
      Subscriber := sub.s;
      var name := Get(c, "name");
      if !name.Str? {
        return Panic;
      }
      Name := name.s;
      var roles := ConcatClaim("role", c);
      if !roles.Return? {
        return Panic;
      }
      Role := Some(NewAuthenticationTokenRole(roles.value));
      var exp := Get(c, "exp");
      if !exp.Float? {
        return Panic;
      }
      Expiration := UnixTime(exp.f);
      claims := Some(c);
      err := Return(());
    }
  }
}
