/** The part of the JSON Web Token library (RFC 7519; HS256 per section 3.2 of
    RFC 7518) that the token code depends on. Splitting and decoding a token
    and checking its signature and time claims stay opaque: a Parser value
    supplies them. What is modelled is the order in which the library's Parse
    consults them and the key function the application hands it. */
module Jwt {
  import opened Outcomes

  /** A claim value as the library's JSON decoding produces it. */
  datatype Value =
    | Nil                      // JSON null, and the value of an absent key
    | Str(s: string)
    | Float(f: real)           // a JSON number: float64
    | Int(i: int)              // a Go int: only in claims built in memory
    | List(items: seq<Value>)  // a JSON array: []interface{}
    | Other                    // booleans and nested objects

  /** jwt.MapClaims */
  type Claims = map<string, Value>

  /** claims[key]: a Go map lookup yields nil for an absent key. */
  function Get(claims: Claims, key: string): (v: Value)
    ensures v != Nil ==> key in claims && claims[key] == v
    ensures key !in claims ==> v == Nil
  {
    if key in claims then claims[key] else Nil
  }

  /** The family of the signing method named by the header's "alg". */
  datatype Family = HMAC | RSA | RSAPSS | ECDSA | NoSigning

  datatype SigningMethod = SigningMethod(family: Family, alg: string)

  /** The verification key: the secret's bytes. */
  type Key = string

  /** The opaque steps of the library. */
  datatype Parser = Parser(
    /** Split into three segments, base64- and JSON-decode header and claims,
        and look up the method named by "alg". */
    unverified: string -> Result<(SigningMethod, Claims)>,
    /** Check the time claims and the signature under the key; None when both hold. */
    validate: (string, Key) -> Option<string>)

  /** The token that jwt.Parse hands back with a nil error. Its claims are
      always of type MapClaims and it is always valid (the library sets Valid
      exactly when it returns no error), so the model keeps neither flag. */
  datatype Token = Token(Method: SigningMethod, Claims: Claims)

  /** jwt.Parse(tokenString, keyFunc): decode, then ask the key function for a
      key, then validate with that key. */
  function Parse(p: Parser, tokenString: string, keyFunc: SigningMethod -> Result<Key>): (r: Result<Token>)
    ensures r.Ok? <==>
            && p.unverified(tokenString).Ok?
            && keyFunc(p.unverified(tokenString).value.0).Ok?
            && p.validate(tokenString, keyFunc(p.unverified(tokenString).value.0).value).None?
    ensures r.Ok? ==> r.value.Claims == p.unverified(tokenString).value.1
    ensures p.unverified(tokenString).Ok? && keyFunc(p.unverified(tokenString).value.0).Err? ==>
              r == Err(keyFunc(p.unverified(tokenString).value.0).message)
  {
    match p.unverified(tokenString)
    case Err(e) => Err(e)
    case Ok((m, claims)) =>
      match keyFunc(m)
      case Err(e) => Err(e)
      case Ok(key) =>
        match p.validate(tokenString, key)
        case Some(e) => Err(e)
        case None => Ok(Token(m, claims))
  }

  /** The key function that both token files pass to jwt.Parse: the secret's
      bytes for an HMAC method, for any other method the error
      "Unexpected signing method: <alg>". */
  function HmacKey(secret: string): (k: SigningMethod -> Result<Key>)
    ensures forall m :: k(m).Ok? <==> m.family == HMAC
    ensures forall m :: k(m).Ok? ==> k(m).value == secret
  {
    (m: SigningMethod) => if m.family == HMAC then Ok(secret) else Err("Unexpected signing method: " + m.alg)
  }

  /** The key function refuses exactly the non-HMAC methods, and hands out
      nothing but the secret. */
  lemma HmacKeyRejectsOthers(secret: string, m: SigningMethod)
    ensures HmacKey(secret)(m).Ok? <==> m.family == HMAC
    ensures HmacKey(secret)(m).Ok? ==> HmacKey(secret)(m).value == secret
    ensures m.family != HMAC ==> HmacKey(secret)(m) == Err("Unexpected signing method: " + m.alg)
  {
  }

  /** With that key function, a token whose header names a non-HMAC method
      is refused before any signature check, whatever the secret. */
  lemma ParseRefusesNonHmac(p: Parser, tokenString: string, secret: string)
    requires p.unverified(tokenString).Ok? && p.unverified(tokenString).value.0.family != HMAC
    ensures Parse(p, tokenString, HmacKey(secret)) ==
            Err("Unexpected signing method: " + p.unverified(tokenString).value.0.alg)
  {
  }

  /** With that key function, Parse accepts a token exactly when it decodes,
      names an HMAC method and validates under the secret. */
  lemma ParseWithSecret(p: Parser, tokenString: string, secret: string)
    ensures Parse(p, tokenString, HmacKey(secret)).Ok? <==>
            && p.unverified(tokenString).Ok?
            && p.unverified(tokenString).value.0.family == HMAC
            && p.validate(tokenString, secret).None?
  {
  }
}
