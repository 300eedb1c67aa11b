/** The Authorization header rule that every web/... file repeats: split the
    value at its first space into exactly two parts, the first of which must
    lower-case to "bearer" (the bearer scheme of section 2.1 of RFC 6750,
    matched without regard to case as section 2.1 of RFC 7235 asks). */
module AuthorizationHeader {
  import opened Outcomes
  import opened GoStrings

  /** The credentials of a bearer header, passed on unchanged, or None when
      the header does not follow the rule (an absent header reads as ""). */
  function Credentials(header: string): (r: Option<string>)
    ensures r.Some? ==> |r.value| < |header| && header[|header| - |r.value|..] == r.value
  {
    var parts := SplitOnce(header);
    if |parts| != 2 || ToLower(parts[0]) != "bearer" then None else Some(parts[1])
  }

  /** A header passes exactly when it is a space-free scheme that lower-cases
      to "bearer", one space, and the credentials; the credentials may hold
      further spaces. */
  lemma {:induction false} CredentialsIff(header: string, token: string)
    ensures Credentials(header) == Some(token) <==>
            exists scheme :: header == scheme + " " + token && ' ' !in scheme && ToLower(scheme) == "bearer"
  {
    if Credentials(header) == Some(token) {
      var parts := SplitOnce(header);
      assert header == parts[0] + " " + token && ' ' !in parts[0] && ToLower(parts[0]) == "bearer";
    }
    if exists scheme :: header == scheme + " " + token && ' ' !in scheme && ToLower(scheme) == "bearer" {
      var scheme :| header == scheme + " " + token && ' ' !in scheme && ToLower(scheme) == "bearer";
      SplitOnceOf(scheme, token);
    }
  }

  /** A header without a space is always rejected. */
  lemma NoSpaceRejected(header: string)
    requires ' ' !in header
    ensures Credentials(header) == None
  {
  }

  /** The scheme may be written in any letter case: "Bearer", "BEARER" and
      "bearer" all pass, and the credentials are what follows the space. */
  lemma {:induction false} SchemeCaseIgnored(token: string)
    ensures Credentials("Bearer " + token) == Some(token)
    ensures Credentials("BEARER " + token) == Some(token)
    ensures Credentials("bearer " + token) == Some(token)
  {
    BearerSpellings();
    assert "Bearer " + token == "Bearer" + " " + token;
    assert "BEARER " + token == "BEARER" + " " + token;
    assert "bearer " + token == "bearer" + " " + token;
    SchemeAccepted("Bearer", token);
    SchemeAccepted("BEARER", token);
    SchemeAccepted("bearer", token);
  }

  lemma {:induction false} SchemeAccepted(scheme: string, token: string)
    requires ' ' !in scheme && ToLower(scheme) == "bearer"
    ensures Credentials(scheme + " " + token) == Some(token)
  {
    SplitOnceOf(scheme, token);
  }

  lemma BearerSpellings()
    ensures ToLower("Bearer") == "bearer" && ToLower("BEARER") == "bearer" && ToLower("bearer") == "bearer"
  {
    var a, b, c := ToLower("Bearer"), ToLower("BEARER"), ToLower("bearer");
    assert a[0] == 'b' && a[1] == 'e' && a[2] == 'a' && a[3] == 'r' && a[4] == 'e' && a[5] == 'r';
    assert b[0] == 'b' && b[1] == 'e' && b[2] == 'a' && b[3] == 'r' && b[4] == 'e' && b[5] == 'r';
    assert c[0] == 'b' && c[1] == 'e' && c[2] == 'a' && c[3] == 'r' && c[4] == 'e' && c[5] == 'r';
  }

  /** A scheme other than bearer is rejected (here: Basic authentication). */
  lemma {:induction false} OtherSchemeRejected(token: string)
    ensures Credentials("Basic " + token) == None
  {
    SplitOnceOf("Basic", token);
    assert ToLower("Basic")[0] == 'b' && ToLower("Basic")[1] == 'a';
  }
}
