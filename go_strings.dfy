/** The two functions of Go's strings package that the authorization rules use. */
module GoStrings {
  import opened Outcomes

  /** unicode.ToLower on ASCII: 'A'..'Z' become 'a'..'z', every other character is kept. */
  function LowerChar(c: char): char
  {
    if 'A' <= c <= 'Z' then (c as int + 32) as char else c
  }

  /** strings.ToLower, one character at a time. */
  function ToLower(s: string): (r: string)
    ensures |r| == |s| && forall i :: 0 <= i < |s| ==> UpperChar(r[i]) == UpperChar(s[i])
  {
    seq(|s|, i requires 0 <= i < |s| => LowerChar(s[i]))
  }

  /** unicode.ToUpper on ASCII, used only to state properties of ToLower. */
  function UpperChar(c: char): char
  {
    if 'a' <= c <= 'z' then (c as int - 32) as char else c
  }

  function ToUpper(s: string): string
  {
    seq(|s|, i requires 0 <= i < |s| => UpperChar(s[i]))
  }

  /** Lowering keeps the length and leaves no upper-case ASCII letter behind. */
  lemma ToLowerShape(s: string)
    ensures |ToLower(s)| == |s|
    ensures forall i :: 0 <= i < |s| ==> !('A' <= ToLower(s)[i] <= 'Z')
  {
  }

  /** Lowering twice is lowering once. */
  lemma ToLowerIdempotent(s: string)
    ensures ToLower(ToLower(s)) == ToLower(s)
  {
  }

  /** Changing the letter case of a string does not change its lowered form. */
  lemma ToLowerIgnoresCase(s: string)
    ensures ToLower(ToUpper(s)) == ToLower(s)
    ensures ToLower(ToLower(s)) == ToLower(s)
  {
  }

  /** strings.Index(s, " "): the position of the first space, if any. */
  function IndexOfSpace(s: string): (r: Option<nat>)
    ensures r.None? <==> ' ' !in s
    ensures r.Some? ==> r.value < |s| && s[r.value] == ' ' && ' ' !in s[..r.value]
  {
    if s == [] then None
    else if s[0] == ' ' then Some(0)
    else
      match IndexOfSpace(s[1..])
      case None => None
      case Some(k) =>
        assert s[..k + 1] == [s[0]] + s[1..][..k];
        Some(k + 1)
  }

  /** strings.SplitN(s, " ", 2): the text before the first space and the text
      after it, or the whole string alone when it holds no space. */
  function SplitOnce(s: string): (parts: seq<string>)
    ensures |parts| == 1 || |parts| == 2
    ensures |parts| == 2 <==> ' ' in s
    ensures |parts| == 1 ==> parts[0] == s
    ensures |parts| == 2 ==> ' ' !in parts[0] && s == parts[0] + " " + parts[1]
  {
    match IndexOfSpace(s)
    case None => [s]
    case Some(k) =>
      assert s == s[..k] + " " + s[k + 1..];
      [s[..k], s[k + 1..]]
  }

  /** A string split at a first space that comes right after a space-free prefix
      gives back exactly that prefix and the rest. */
  lemma {:induction false} SplitOnceOf(scheme: string, rest: string)
    requires ' ' !in scheme
    ensures SplitOnce(scheme + " " + rest) == [scheme, rest]
  {
    IndexOfSpaceAfter(scheme, rest);
    var s := scheme + " " + rest;
    assert s[..|scheme|] == scheme;
    assert s[|scheme| + 1..] == rest;
  }

  lemma {:induction false} IndexOfSpaceAfter(scheme: string, rest: string)
    requires ' ' !in scheme
    ensures IndexOfSpace(scheme + " " + rest) == Some(|scheme|)
  {
    var s := scheme + " " + rest;
    if scheme != [] {
      assert s[1..] == scheme[1..] + " " + rest;
      IndexOfSpaceAfter(scheme[1..], rest);
    }
  }
}
