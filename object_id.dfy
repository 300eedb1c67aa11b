/** primitive.ObjectID of the MongoDB driver: twelve bytes, written as 24
    hexadecimal digits, and ObjectIDFromHex, which the repository uses to read
    an identifier from text. */
module ObjectIds {
  import opened Outcomes
  import opened GoStrings

  newtype Byte = x: int | 0 <= x < 256

  type ObjectId = s: seq<Byte> | |s| == 12 witness [0, 0, 0, 0, 0, 0, 0, 0, 0, 0, 0, 0]

  /** primitive.ObjectID{} (NilObjectID): twelve zero bytes. */
  const NilObjectId: ObjectId := [0, 0, 0, 0, 0, 0, 0, 0, 0, 0, 0, 0]

  /** The two errors ObjectIDFromHex returns: ErrInvalidHex for a string
      whose length is not 24, and encoding/hex's InvalidByteError for the
      first character that is not a hexadecimal digit. */
  datatype HexError = ErrInvalidHex | InvalidByteError(c: char) {
    function Message(): (m: string)
      ensures this == ErrInvalidHex ==> m == "the provided hex string is not a valid ObjectID"
      ensures InvalidByteError? ==> m == "encoding/hex: invalid byte: " + RuneName(c)
    {
      match this
      case ErrInvalidHex => "the provided hex string is not a valid ObjectID"
      case InvalidByteError(c) => "encoding/hex: invalid byte: " + RuneName(c)
    }
  }

  /** fmt's %#U of a character below U+0100: "U+00" and two upper-case hex
      digits, followed by the quoted character when it is printable ASCII. */
  function RuneName(c: char): string
  {
    var n := c as int % 256;
    var code := "U+00" + [UpperDigit(n / 16), UpperDigit(n % 16)];
    if 0x20 <= c as int < 0x7F then code + " '" + [c] + "'" else code
  }

  function UpperDigit(n: int): char
    requires 0 <= n < 16
  {
    if n < 10 then ('0' as int + n) as char else ('A' as int + n - 10) as char
  }

  /** The lower-case digit ObjectID.Hex writes for a value below 16. */
  function HexDigit(n: int): (c: char)
    requires 0 <= n < 16
    ensures DigitValue(c) == Some(n)
    ensures 'a' <= c <= 'f' || '0' <= c <= '9'
  {
    if n < 10 then ('0' as int + n) as char else ('a' as int + n - 10) as char
  }

  /** encoding/hex's fromHexChar: the value of a hexadecimal digit of either
      letter case, or None. */
  function DigitValue(c: char): (r: Option<int>)
    ensures r.Some? ==> 0 <= r.value < 16
    ensures r.Some? ==> UpperDigit(r.value) == UpperChar(c)
    ensures r.None? ==> forall n :: 0 <= n < 16 ==> UpperDigit(n) != UpperChar(c)
  {
    if '0' <= c <= '9' then Some(c as int - '0' as int)
    else if 'a' <= c <= 'f' then Some(c as int - 'a' as int + 10)
    else if 'A' <= c <= 'F' then Some(c as int - 'A' as int + 10)
    else None
  }

  /** ObjectID.Hex: two lower-case digits per byte, high nibble first. */
  function Hex(id: ObjectId): (s: string)
    ensures |s| == 24
    ensures forall i :: 0 <= i < 12 ==>
              s[2 * i] == HexDigit(id[i] as int / 16) && s[2 * i + 1] == HexDigit(id[i] as int % 16)
  {
    var s := seq(24, k requires 0 <= k < 24 =>
      if k % 2 == 0 then HexDigit(id[k / 2] as int / 16) else HexDigit(id[k / 2] as int % 16));
    assert forall i :: 0 <= i < 12 ==> s[2 * i] == HexDigit(id[i] as int / 16) && s[2 * i + 1] == HexDigit(id[i] as int % 16) by {
      forall i | 0 <= i < 12
        ensures s[2 * i] == HexDigit(id[i] as int / 16) && s[2 * i + 1] == HexDigit(id[i] as int % 16)
      {
        assert (2 * i) / 2 == i && (2 * i + 1) / 2 == i;
      }
    }
    s
  }

  /** The position of the first character that is not a hexadecimal digit. */
  function FirstInvalid(s: string): (r: Option<nat>)
    ensures r.None? <==> forall i :: 0 <= i < |s| ==> DigitValue(s[i]).Some?
    ensures r.Some? ==> r.value < |s| && DigitValue(s[r.value]).None? &&
                        forall i :: 0 <= i < r.value ==> DigitValue(s[i]).Some?
  {
    if s == [] then None
    else if DigitValue(s[0]).None? then Some(0)
    else
      var rest := FirstInvalid(s[1..]);
      assert forall i :: 1 <= i < |s| ==> s[i] == s[1..][i - 1];
      if rest.None? then None else Some(rest.value + 1)
  }

  /** What ObjectIDFromHex returns: an identifier or its error. */
  datatype Parsed = Parsed(id: ObjectId) | Failed(error: HexError)

  /** ObjectIDFromHex: the length is checked first, then every digit. */
  function FromHex(s: string): (r: Parsed)
    ensures r.Parsed? <==> |s| == 24 && forall i :: 0 <= i < |s| ==> DigitValue(s[i]).Some?
    ensures |s| != 24 ==> r == Failed(ErrInvalidHex)
    ensures |s| == 24 && r.Failed? ==> r.error.InvalidByteError?
    ensures r.Failed? && r.error.InvalidByteError? ==>
              exists k :: 0 <= k < |s| && s[k] == r.error.c && DigitValue(s[k]).None? &&
                          forall i :: 0 <= i < k ==> DigitValue(s[i]).Some?
    ensures r.Parsed? ==> forall i :: 0 <= i < 12 ==>
              r.id[i] as int == 16 * DigitValue(s[2 * i]).value + DigitValue(s[2 * i + 1]).value
  {
    if |s| != 24 then Failed(ErrInvalidHex)
    else
      match FirstInvalid(s)
      case Some(k) => Failed(InvalidByteError(s[k]))
      case None =>
        var id: ObjectId := seq(12, i requires 0 <= i < 12 =>
          (16 * DigitValue(s[2 * i]).value + DigitValue(s[2 * i + 1]).value) as Byte);
        Parsed(id)
  }

  /** Reading back what Hex writes gives the same identifier. */
  lemma HexRoundTrip(id: ObjectId)
    ensures FromHex(Hex(id)) == Parsed(id)
  {
    var s := Hex(id);
    forall k | 0 <= k < 24
      ensures DigitValue(s[k]).Some?
    {
      HexDigitAt(id, k);
    }
    forall i | 0 <= i < 12
      ensures 16 * DigitValue(s[2 * i]).value + DigitValue(s[2 * i + 1]).value == id[i] as int
    {
      HexByteAt(id, i);
    }
    ParsesAs(s, id);
  }

  /** A string of 24 digits whose pairs spell the bytes of id parses as id. */
  lemma ParsesAs(s: string, id: ObjectId)
    requires |s| == 24 && forall k :: 0 <= k < 24 ==> DigitValue(s[k]).Some?
    requires forall i :: 0 <= i < 12 ==> 16 * DigitValue(s[2 * i]).value + DigitValue(s[2 * i + 1]).value == id[i] as int
    ensures FromHex(s) == Parsed(id)
  {
    var r := FromHex(s);
    assert r.Parsed?;
    assert forall i :: 0 <= i < 12 ==> r.id[i] == id[i];
    assert r.id == id;
  }

  /** Every character Hex writes is a digit. */
  lemma HexDigitAt(id: ObjectId, k: int)
    requires 0 <= k < 24
    ensures DigitValue(Hex(id)[k]).Some?
  {
    var i := k / 2;
    if k % 2 == 0 {
      assert k == 2 * i;
    } else {
      assert k == 2 * i + 1;
    }
  }

  /** The two digits Hex writes for a byte read back as that byte. */
  lemma HexByteAt(id: ObjectId, i: int)
    requires 0 <= i < 12
    ensures 16 * DigitValue(Hex(id)[2 * i]).value + DigitValue(Hex(id)[2 * i + 1]).value == id[i] as int
  {
    var b := id[i] as int;
    ByteOfNibbles(b);
    assert DigitValue(Hex(id)[2 * i]) == Some(b / 16);
    assert DigitValue(Hex(id)[2 * i + 1]) == Some(b % 16);
  }

  /** A byte is sixteen times its high nibble plus its low nibble. */
  lemma ByteOfNibbles(b: int)
    requires 0 <= b < 256
    ensures 16 * (b / 16) + b % 16 == b && 0 <= b / 16 < 16
  {
  }

  /** A string that parses is the identifier's Hex up to letter case: upper-
      case digits are accepted and come back lower-cased. */
  lemma ParsedIsHexUpToCase(s: string)
    requires FromHex(s).Parsed?
    ensures Hex(FromHex(s).id) == ToLower(s)
  {
    var id := FromHex(s).id;
    var h := Hex(id);
    forall k | 0 <= k < 24
      ensures h[k] == ToLower(s)[k]
    {
      var i := k / 2;
      var hi, lo := DigitValue(s[2 * i]).value, DigitValue(s[2 * i + 1]).value;
      Nibbles(hi, lo);
      assert id[i] as int / 16 == hi && id[i] as int % 16 == lo;
      if k == 2 * i {
        DigitSpelling(s[k], hi);
      } else {
        assert k == 2 * i + 1;
        DigitSpelling(s[k], lo);
      }
    }
  }

  /** A byte is its high and low nibble. */
  lemma Nibbles(hi: int, lo: int)
    requires 0 <= hi < 16 && 0 <= lo < 16
    ensures (16 * hi + lo) / 16 == hi && (16 * hi + lo) % 16 == lo
  {
  }

  /** The digit Hex writes for a value is the lower-case form of any digit
      with that value. */
  lemma DigitSpelling(c: char, n: int)
    requires DigitValue(c) == Some(n)
    ensures HexDigit(n) == LowerChar(c)
  {
  }

  /** A digit and its lower-case form have the same value. */
  lemma DigitOfValue(c: char)
    requires DigitValue(c).Some?
    ensures DigitValue(LowerChar(c)) == DigitValue(c)
  {
  }

  /** Upper-case and lower-case spellings name the same identifier. */
  lemma FromHexIgnoresCase(s: string)
    ensures FromHex(ToLower(s)) == FromHex(s) || (FromHex(s).Failed? && FromHex(ToLower(s)).Failed?)
  {
    var t := ToLower(s);
    assert |t| == |s|;
    forall i | 0 <= i < |s|
      ensures DigitValue(t[i]).Some? <==> DigitValue(s[i]).Some?
      ensures DigitValue(s[i]).Some? ==> DigitValue(t[i]) == DigitValue(s[i])
    {
      if DigitValue(s[i]).Some? { DigitOfValue(s[i]); }
    }
    if FromHex(s).Parsed? {
      assert FromHex(t).Parsed?;
      assert forall i :: 0 <= i < 12 ==> FromHex(t).id[i] == FromHex(s).id[i];
    }
  }

  /** A string of the wrong length is refused before any digit is read,
      whatever its characters. */
  lemma FromHexRejectsLength(s: string)
    requires |s| != 24
    ensures FromHex(s) == Failed(ErrInvalidHex)
  {
  }

  /** A string of the right length with a character that is no digit is
      refused with that character. */
  lemma FromHexRejectsDigit(s: string)
    requires |s| == 24 && s[0] == 'g'
    ensures FromHex(s) == Failed(InvalidByteError('g'))
  {
    assert FirstInvalid(s) == Some(0);
  }
}
