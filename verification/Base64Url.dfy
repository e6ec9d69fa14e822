/** Unpadded base64url, section 5 of RFC 4648: what the session credentials are written in. */
module Base64Url {
  import opened Basics

  type Sextet = v: nat | v < 64

  function Digit(v: Sextet): char {
    if v < 26 then (v + 65) as char
    else if v < 52 then (v + 71) as char
    else if v < 62 then (v - 4) as char
    else if v == 62 then '-'
    else '_'
  }

  predicate IsDigit(c: char) {
    'A' <= c <= 'Z' || 'a' <= c <= 'z' || '0' <= c <= '9' || c == '-' || c == '_'
  }

  function Value(c: char): Sextet
    requires IsDigit(c)
  {
    if 'A' <= c <= 'Z' then c as int - 65
    else if 'a' <= c <= 'z' then c as int - 71
    else if '0' <= c <= '9' then c as int + 4
    else if c == '-' then 62
    else 63
  }

  lemma DigitValue(v: Sextet)
    ensures IsDigit(Digit(v)) && Value(Digit(v)) == v && Digit(v) != '.'
  {}

  lemma ValueDigit(c: char)
    requires IsDigit(c)
    ensures Digit(Value(c)) == c
  {}

  predicate AllDigits(s: string) {
    forall i | 0 <= i < |s| :: IsDigit(s[i])
  }

  // --------------------------------------------------------- groups of three bytes

  function EncodeGroup(g: Bytes): string
    requires |g| <= 3
  {
    if g == [] then ""
    else if |g| == 1 then [Digit(g[0] / 4), Digit(g[0] % 4 * 16)]
    else if |g| == 2 then [Digit(g[0] / 4), Digit(g[0] % 4 * 16 + g[1] / 16), Digit(g[1] % 16 * 4)]
    else
      [Digit(g[0] / 4), Digit(g[0] % 4 * 16 + g[1] / 16), Digit(g[1] % 16 * 4 + g[2] / 64), Digit(g[2] % 64)]
  }

  function Encode(bytes: Bytes): string {
    if |bytes| <= 3 then EncodeGroup(bytes) else EncodeGroup(bytes[..3]) + Encode(bytes[3..])
  }

  function First(a: Sextet, b: Sextet): Byte {
    a * 4 + b / 16
  }

  function Second(b: Sextet, c: Sextet): Byte {
    b % 16 * 16 + c / 4
  }

  function Third(c: Sextet, d: Sextet): Byte {
    c % 4 * 64 + d
  }

  type Digits = s: string | AllDigits(s) && |s| % 4 != 1 witness ""

  /** The bits that do not fill a byte at the end are dropped, whatever they are. */
  function DecodeGroup(g: Digits): Bytes
    requires |g| <= 4
  {
    if g == "" then []
    else if |g| == 2 then [First(Value(g[0]), Value(g[1]))]
    else if |g| == 3 then [First(Value(g[0]), Value(g[1])), Second(Value(g[1]), Value(g[2]))]
    else [First(Value(g[0]), Value(g[1])), Second(Value(g[1]), Value(g[2])), Third(Value(g[2]), Value(g[3]))]
  }

  function DecodeGroups(s: Digits): Bytes
    decreases |s|
  {
    if |s| <= 4 then DecodeGroup(s) else DecodeGroup(s[..4]) + DecodeGroups(s[4..])
  }

  /** The empty text, foreign characters and a lone last digit are errors. */
  function Decode(s: string): Option<Bytes> {
    if s == "" || !AllDigits(s) || |s| % 4 == 1 then None else Some(DecodeGroups(s))
  }

  /** The bits that decoding drops are zero. */
  predicate Canonical(s: Digits) {
    && (|s| % 4 == 2 ==> Value(s[|s| - 1]) % 16 == 0)
    && (|s| % 4 == 3 ==> Value(s[|s| - 1]) % 4 == 0)
  }

  lemma GroupShape(g: Bytes)
    requires |g| <= 3
    ensures AllDigits(EncodeGroup(g)) && |EncodeGroup(g)| == (|g| * 4 + 2) / 3
  {}

  lemma EncodeLong(bytes: Bytes)
    requires |bytes| > 3
    ensures Encode(bytes) == EncodeGroup(bytes[..3]) + Encode(bytes[3..])
  {
    hide EncodeGroup;
  }

  lemma EncodeShort(bytes: Bytes)
    requires |bytes| <= 3
    ensures Encode(bytes) == EncodeGroup(bytes)
  {
    hide EncodeGroup;
  }

  lemma {:induction false} EncodeShape(bytes: Bytes)
    ensures AllDigits(Encode(bytes)) && |Encode(bytes)| == (|bytes| * 4 + 2) / 3 && |Encode(bytes)| % 4 != 1
  {
    hide *;
    if |bytes| <= 3 {
      GroupShape(bytes);
      EncodeShort(bytes);
    } else {
      EncodeShape(bytes[3..]);
      GroupShape(bytes[..3]);
      EncodeLong(bytes);
      AllDigitsAppend(EncodeGroup(bytes[..3]), Encode(bytes[3..]));
    }
  }

  lemma AllDigitsAppend(a: string, b: string)
    ensures AllDigits(a + b) <==> AllDigits(a) && AllDigits(b)
  {
    hide IsDigit;
    assert forall i | 0 <= i < |a| :: (a + b)[i] == a[i];
    assert forall i | 0 <= i < |b| :: (a + b)[|a| + i] == b[i];
  }

  lemma BytesOfSextets(x: Byte, y: Byte, z: Byte)
    ensures First(x / 4, x % 4 * 16 + y / 16) == x
    ensures First(x / 4, x % 4 * 16) == x
    ensures Second(x % 4 * 16 + y / 16, y % 16 * 4 + z / 64) == y
    ensures Second(x % 4 * 16 + y / 16, y % 16 * 4) == y
    ensures Third(y % 16 * 4 + z / 64, z % 64) == z
  {}

  lemma DecodeGroupUndoesEncode(g: Bytes)
    requires |g| <= 3
    ensures AllDigits(EncodeGroup(g)) && |EncodeGroup(g)| % 4 != 1 && |EncodeGroup(g)| <= 4
    ensures DecodeGroup(EncodeGroup(g)) == g
  {
    GroupShape(g);
    if |g| == 1 {
      OneByte(g[0]);
    } else if |g| == 2 {
      TwoBytes(g[0], g[1]);
    } else if |g| == 3 {
      ThreeBytes(g[0], g[1], g[2]);
    }
  }

  lemma OneByte(x: Byte)
    ensures First(Value(Digit(x / 4)), Value(Digit(x % 4 * 16))) == x
  {}

  lemma TwoBytes(x: Byte, y: Byte)
    ensures First(Value(Digit(x / 4)), Value(Digit(x % 4 * 16 + y / 16))) == x
    ensures Second(Value(Digit(x % 4 * 16 + y / 16)), Value(Digit(y % 16 * 4))) == y
  {
    BytesOfSextets(x, y, 0);
    DigitValue(x / 4);
    DigitValue(x % 4 * 16 + y / 16);
    DigitValue(y % 16 * 4);
    hide *;
  }

  lemma ThreeBytes(x: Byte, y: Byte, z: Byte)
    ensures First(Value(Digit(x / 4)), Value(Digit(x % 4 * 16 + y / 16))) == x
    ensures Second(Value(Digit(x % 4 * 16 + y / 16)), Value(Digit(y % 16 * 4 + z / 64))) == y
    ensures Third(Value(Digit(y % 16 * 4 + z / 64)), Value(Digit(z % 64))) == z
  {
    BytesOfSextets(x, y, z);
    DigitValue(x / 4);
    DigitValue(x % 4 * 16 + y / 16);
    DigitValue(y % 16 * 4 + z / 64);
    DigitValue(z % 64);
    hide *;
  }

  lemma DecodeGroupsHead(g: Digits, rest: Digits)
    requires |g| == 4 && |rest| > 0
    ensures AllDigits(g + rest) && |g + rest| % 4 != 1
    ensures DecodeGroups(g + rest) == DecodeGroup(g) + DecodeGroups(rest)
  {
    SplitAppend(g, rest);
    hide DecodeGroup, IsDigit;
  }

  lemma {:induction false} DecodeGroupsUndoesEncode(bytes: Bytes)
    ensures AllDigits(Encode(bytes)) && |Encode(bytes)| % 4 != 1
    ensures DecodeGroups(Encode(bytes)) == bytes
    decreases |bytes|
  {
    EncodeShape(bytes);
    if |bytes| <= 3 {
      DecodeGroupUndoesEncode(bytes);
      hide EncodeGroup, DecodeGroup, IsDigit;
    } else {
      GroupShape(bytes[..3]);
      EncodeShape(bytes[3..]);
      DecodeGroupUndoesEncode(bytes[..3]);
      hide EncodeGroup, DecodeGroup, DecodeGroups, IsDigit;
      DecodeGroupsUndoesEncode(bytes[3..]);
      DecodeGroupsHead(EncodeGroup(bytes[..3]), Encode(bytes[3..]));
      CutJoins(bytes, 3);
    }
  }

  /** Decoding undoes encoding, except that the encoding of nothing is refused. */
  lemma DecodeUndoesEncode(bytes: Bytes)
    ensures Decode(Encode(bytes)) == if bytes == [] then None else Some(bytes)
  {
    EncodeShape(bytes);
    DecodeGroupsUndoesEncode(bytes);
    hide DecodeGroups, Encode, IsDigit;
  }

  lemma SextetsOfBytes(a: Sextet, b: Sextet, c: Sextet, d: Sextet)
    ensures First(a, b) / 4 == a && Third(c, d) % 64 == d
    ensures First(a, b) % 4 * 16 + Second(b, c) / 16 == b
    ensures First(a, b) % 4 * 16 == b / 16 * 16
    ensures Second(b, c) % 16 * 4 + Third(c, d) / 64 == c
    ensures Second(b, c) % 16 * 4 == c / 4 * 4
  {}

  lemma DigitIsInjective(v: Sextet, c: char)
    requires IsDigit(c)
    ensures Digit(v) == c <==> v == Value(c)
  {
    DigitValue(v);
    ValueDigit(c);
  }

  lemma EncodeThree(x: Byte, y: Byte, z: Byte)
    ensures
      EncodeGroup([x, y, z])
      == [Digit(x / 4), Digit(x % 4 * 16 + y / 16), Digit(y % 16 * 4 + z / 64), Digit(z % 64)]
  {
    hide Digit;
  }

  lemma DecodeFour(g: Digits)
    requires |g| == 4
    ensures AllDigits(g) && IsDigit(g[0]) && IsDigit(g[1]) && IsDigit(g[2]) && IsDigit(g[3])
    ensures
      DecodeGroup(g)
      == [First(Value(g[0]), Value(g[1])), Second(Value(g[1]), Value(g[2])), Third(Value(g[2]), Value(g[3]))]
  {
    hide Value, First, Second, Third, IsDigit;
  }

  lemma FullGroupRoundTrip(g: Digits)
    requires |g| == 4
    ensures |DecodeGroup(g)| <= 3 && EncodeGroup(DecodeGroup(g)) == g
  {
    DecodeFour(g);
    hide *;
    var a, b, c, d := Value(g[0]), Value(g[1]), Value(g[2]), Value(g[3]);
    SextetsOfBytes(a, b, c, d);
    EncodeThree(First(a, b), Second(b, c), Third(c, d));
    ValueDigit(g[0]);
    ValueDigit(g[1]);
    ValueDigit(g[2]);
    ValueDigit(g[3]);
    assert g == [g[0], g[1], g[2], g[3]];
  }

  lemma LastGroupRoundTrip(g: Digits)
    requires 0 < |g| < 4
    ensures EncodeGroup(DecodeGroup(g)) == g <==> Canonical(g)
  {
    var a, b := Value(g[0]), Value(g[1]);
    ValueDigit(g[0]);
    ValueDigit(g[1]);
    if |g| == 2 {
      SextetsOfBytes(a, b, 0, 0);
      DigitIsInjective(b / 16 * 16, g[1]);
      hide Digit, Value, First, Second, Third, IsDigit;
    } else {
      var c := Value(g[2]);
      SextetsOfBytes(a, b, c, 0);
      DigitIsInjective(c / 4 * 4, g[2]);
      hide Digit, Value, First, Second, Third, IsDigit;
    }
  }

  lemma LongText(g: Digits, rest: Digits)
    requires |g| == 4 && rest != ""
    ensures AllDigits(g + rest) && |g + rest| % 4 != 1
    ensures Encode(DecodeGroups(g + rest)) == g + Encode(DecodeGroups(rest))
  {
    hide *;
    FullGroupRoundTrip(g);
    FullGroupLength(g);
    SomeBytes(rest);
    DecodeGroupsHead(g, rest);
    EncodeHead(DecodeGroup(g), DecodeGroups(rest));
  }

  lemma CanonicalTail(s: Digits)
    requires |s| > 4 && AllDigits(s[4..])
    ensures Canonical(s) <==> Canonical(s[4..])
  {
    hide IsDigit, Value;
  }

  lemma SameHead(s: string, tail: string)
    requires |s| > 4
    ensures s[..4] + tail == s <==> tail == s[4..]
  {
    CutJoins(s, 4);
    SplitAppend(s[..4], tail);
  }

  lemma TailIsDigits(s: Digits)
    requires |s| > 4
    ensures AllDigits(s[..4]) && AllDigits(s[4..]) && |s[4..]| % 4 != 1
  {
    hide IsDigit;
  }

  /** Encoding undoes decoding exactly on canonical text. */
  lemma {:induction false} EncodeUndoesDecode(s: Digits)
    ensures Encode(DecodeGroups(s)) == s <==> Canonical(s)
    decreases |s|
  {
    hide *;
    if |s| > 4 {
      TailIsDigits(s);
      var head: Digits, tail: Digits := s[..4], s[4..];
      CutJoins(s, 4);
      LongText(head, tail);
      CanonicalTail(s);
      EncodeUndoesDecode(tail);
      SameHead(s, Encode(DecodeGroups(tail)));
    } else {
      ShortText(s);
    }
  }

  lemma OneGroup(s: Digits)
    requires |s| <= 4
    ensures |DecodeGroup(s)| <= 3 && Encode(DecodeGroups(s)) == EncodeGroup(DecodeGroup(s))
  {
    hide EncodeGroup;
  }

  lemma NotShort(s: Digits)
    ensures |s| != 1 && (s == "" || |s| == 4 ==> Canonical(s))
  {
    hide IsDigit, Value;
  }

  lemma ShortText(s: Digits)
    requires |s| <= 4
    ensures Encode(DecodeGroups(s)) == s <==> Canonical(s)
  {
    OneGroup(s);
    NotShort(s);
    assert s == "" ==> EncodeGroup(DecodeGroup(s)) == "";
    hide *;
    if |s| == 4 {
      FullGroupRoundTrip(s);
    } else if s != "" {
      LastGroupRoundTrip(s);
    }
  }

  lemma FullGroupLength(g: Digits)
    requires |g| == 4
    ensures |DecodeGroup(g)| == 3
  {}

  lemma SomeBytes(s: Digits)
    requires s != ""
    ensures |DecodeGroups(s)| > 0
  {}

  lemma EncodeHead(g: Bytes, rest: Bytes)
    requires |g| == 3 && |rest| > 0
    ensures Encode(g + rest) == EncodeGroup(g) + Encode(rest)
  {
    SplitAppend(g, rest);
    hide EncodeGroup;
  }

  // ------------------------------------------- by way of the platform's padded base64

  function StandardChar(c: char): char {
    if c == '-' then '+' else if c == '_' then '/' else c
  }

  function UrlChar(c: char): char {
    if c == '+' then '-' else if c == '/' then '_' else c
  }

  function ToStandard(s: string): string {
    seq(|s|, i requires 0 <= i < |s| => StandardChar(s[i]))
  }

  function ToUrl(s: string): string {
    seq(|s|, i requires 0 <= i < |s| => UrlChar(s[i]))
  }

  function Padding(length: nat): string {
    if length % 4 == 0 then "" else if length % 4 == 3 then "=" else if length % 4 == 2 then "==" else "==="
  }

  /** The platform's encoder: section 4 of RFC 4648, which differs in two characters and pads. */
  function Btoa(bytes: Bytes): string {
    ToStandard(Encode(bytes)) + Padding(|Encode(bytes)|)
  }

  function WithoutPadding(s: string): string {
    if s != "" && s[|s| - 1] == '=' then WithoutPadding(s[..|s| - 1]) else s
  }

  function DropPadding(s: string): string {
    var n := |s|;
    if n % 4 == 0 && n >= 2 && s[n - 1] == '=' && s[n - 2] == '=' then s[..n - 2]
    else if n % 4 == 0 && n >= 1 && s[n - 1] == '=' then s[..n - 1]
    else s
  }

  predicate IsStandard(s: string) {
    forall i | 0 <= i < |s| :: s[i] != '-' && s[i] != '_' && IsDigit(UrlChar(s[i]))
  }

  /** The platform's decoder: drops up to two pad characters of whole groups, then takes no other. */
  function Atob(s: string): Option<Bytes> {
    var t := DropPadding(s);
    if |t| % 4 == 1 || !IsStandard(t) then None else Some(DecodeGroups(DigitsOf(t)))
  }

  function DigitsOf(t: string): Digits
    requires |t| % 4 != 1 && forall i | 0 <= i < |t| :: IsDigit(UrlChar(t[i]))
  {
    ToUrl(t)
  }

  function BytesToBase64Url(bytes: Bytes): string {
    WithoutPadding(ToUrl(Btoa(bytes)))
  }

  function Base64UrlToBytes(value: string): Option<Bytes> {
    if value == "" || !AllDigits(value) then None else Atob(ToStandard(value) + Padding(|value|))
  }

  lemma StandardText(s: string)
    requires AllDigits(s)
    ensures ToUrl(ToStandard(s)) == s
    ensures
      forall i | 0 <= i < |s| ::
        var c := ToStandard(s)[i];
        c != '=' && c != '-' && c != '_' && IsDigit(UrlChar(c))
  {}

  lemma WithoutPaddingOf(s: string, length: nat)
    requires AllDigits(s)
    ensures WithoutPadding(s + Padding(length)) == s
  {
    assert s != "" ==> s[|s| - 1] != '=';
    hide IsDigit;
    WithoutOne(s);
    WithoutOne(s + "=");
    WithoutOne(s + "==");
    assert s + "==" == (s + "=") + "=" && s + "===" == (s + "==") + "=" && s + "" == s;
  }

  lemma WithoutOne(s: string)
    ensures WithoutPadding(s + "=") == WithoutPadding(s)
  {
    assert (s + "=")[..|s|] == s;
  }

  /** The program's encoder is the unpadded encoding. */
  lemma EncoderIsUnpadded(bytes: Bytes)
    ensures BytesToBase64Url(bytes) == Encode(bytes)
  {
    var s := Encode(bytes);
    EncodeShape(bytes);
    hide Encode, IsDigit;
    StandardText(s);
    PaddingToUrl(ToStandard(s), |s|);
    WithoutPaddingOf(s, |s|);
  }

  lemma PaddingToUrl(s: string, length: nat)
    ensures ToUrl(s + Padding(length)) == ToUrl(s) + Padding(length)
  {}

  /** The program's decoder is the unpadded decoding: a lone last digit fails in the platform's decoder. */
  lemma DecoderIsUnpadded(value: string)
    ensures Base64UrlToBytes(value) == Decode(value)
  {
    if value != "" && AllDigits(value) {
      StandardText(value);
      hide Encode, DecodeGroups, IsDigit, UrlChar;
      var t := ToStandard(value);
      assert |t| == |value|;
      if |value| % 4 == 1 {
        LoneDigit(t);
      } else {
        WholeGroups(t, value);
      }
    }
  }

  lemma DropsPadding(t: string)
    requires t != "" ==> t[|t| - 1] != '='
    ensures DropPadding(t + Padding(|t|)) == if |t| % 4 == 1 then t + "=" else t
  {
    var s := t + Padding(|t|);
    assert |t| % 4 == 2 ==> s[..|s| - 2] == t;
    assert |t| % 4 == 3 ==> s[..|s| - 1] == t;
    assert |t| % 4 == 1 ==> s[..|s| - 2] == t + "=";
    assert |t| % 4 == 0 ==> s == t;
  }

  lemma LoneDigit(t: string)
    requires |t| % 4 == 1 && t[|t| - 1] != '='
    ensures Atob(t + Padding(|t|)) == None
  {
    DropsPadding(t);
    assert (t + "=")[|t|] == '=' && !IsDigit(UrlChar('='));
    hide IsDigit, UrlChar, DecodeGroups, DropPadding, Padding;
  }

  lemma WholeGroups(t: string, value: Digits)
    requires ToUrl(t) == value && |t| == |value|
    requires forall i | 0 <= i < |t| :: t[i] != '=' && t[i] != '-' && t[i] != '_' && IsDigit(UrlChar(t[i]))
    ensures Atob(t + Padding(|t|)) == Some(DecodeGroups(value))
  {
    DropsPadding(t);
    hide IsDigit, UrlChar, DecodeGroups, ToUrl, DropPadding, Padding;
  }

  // ------------------------------------------------------------------- by example

  /** Three bytes and four digits are the same number, the first byte and the first digit weighing most. */
  lemma GroupIsNumber(x: Byte, y: Byte, z: Byte)
    ensures
      x as int * 0x1_0000 + y as int * 0x100 + z as int
      == (x / 4) * 0x4_0000 + (x % 4 * 16 + y / 16) * 0x1000 + (y % 16 * 4 + z / 64) * 0x40 + z % 64
  {}

  /** The test vectors of section 10 of RFC 4648, unpadded, and the two characters of the URL alphabet. */
  lemma VectorsOfTheStandard()
    ensures Encode([102]) == "Zg" && Encode([102, 111]) == "Zm8" && Encode([102, 111, 111]) == "Zm9v"
    ensures Encode([102, 111, 111, 98, 97, 114]) == "Zm9vYmFy"
    ensures Encode([0xfb, 0xff, 0xbf]) == "-_-_"
  {
    assert [102, 111, 111, 98, 97, 114][..3] == [102, 111, 111] && [102, 111, 111, 98, 97, 114][3..] == [98, 97, 114];
  }
}
