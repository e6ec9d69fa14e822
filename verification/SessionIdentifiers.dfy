/** Identifiers as the session credentials carry them: sixteen bytes in base64url. */
module SessionIdentifiers {
  import opened Basics
  import opened Texts
  import opened Base64Url

  predicate IsHex(c: char) {
    '0' <= c <= '9' || 'a' <= c <= 'f'
  }

  function HexValue(c: char): (v: nat)
    requires IsHex(c)
    ensures v < 16
  {
    if c <= '9' then c as int - 48 else c as int - 87
  }

  function HexChar(v: nat): char
    requires v < 16
  {
    if v < 10 then (v + 48) as char else (v + 87) as char
  }

  lemma HexRoundTrip(v: nat, c: char)
    ensures v < 16 ==> IsHex(HexChar(v)) && HexValue(HexChar(v)) == v && HexChar(v) != '-'
    ensures IsHex(c) ==> HexChar(HexValue(c)) == c
    ensures IsHex(c) ==> (HexValue(c) == 0 <==> c == '0')
  {}

  /** All hyphens removed, wherever they are. */
  function Compact(uuid: string): string {
    if uuid == "" then ""
    else (if uuid[0] == '-' then "" else [uuid[0]]) + Compact(uuid[1..])
  }

  predicate IsCompact(s: string) {
    && |s| == 32
    && (forall i | 0 <= i < 32 :: IsHex(s[i]))
    && (exists i | 0 <= i < 32 :: s[i] != '0')
  }

  type Compacted = s: string | |s| == 32 && (forall i | 0 <= i < 32 :: IsHex(s[i]))
    witness seq(32, _ => '0')

  type IdBytes = b: Bytes | |b| == 16 witness seq(16, _ => 0)

  function HexBytes(s: Compacted): IdBytes {
    seq(16, i requires 0 <= i < 16 => HexValue(s[2 * i]) * 16 + HexValue(s[2 * i + 1]))
  }

  function HexText(b: IdBytes): Compacted {
    HexTextIsHex(b);
    seq(32, i requires 0 <= i < 32 => if i % 2 == 0 then HexChar(b[i / 2] / 16) else HexChar(b[i / 2] % 16))
  }

  lemma HexTextIsHex(b: IdBytes)
    ensures
      forall i | 0 <= i < 32 :: IsHex(if i % 2 == 0 then HexChar(b[i / 2] / 16) else HexChar(b[i / 2] % 16))
  {}

  predicate IsNil(b: Bytes) {
    forall i | 0 <= i < |b| :: b[i] == 0
  }

  function Hyphenated(h: Compacted): string {
    h[..8] + "-" + h[8..12] + "-" + h[12..16] + "-" + h[16..20] + "-" + h[20..]
  }

  /** None stands for the program's error. */
  function UuidToBase64Url(uuid: string): Option<string> {
    var compact := Compact(uuid);
    if !IsCompact(compact) then None else Some(Encode(HexBytes(compact)))
  }

  function Base64UrlToUuid(value: string): Option<string> {
    var bytes := Decode(value);
    if bytes == None || |bytes.value| != 16 || IsNil(bytes.value) then None
    else Some(Hyphenated(HexText(bytes.value)))
  }

  /** What the client takes for an identifier: lower-case, hyphenated, not nil. */
  predicate IsNonNilUuid(s: string) {
    && |s| == 36
    && (forall i | 0 <= i < 36 :: if i == 8 || i == 13 || i == 18 || i == 23 then s[i] == '-' else IsHex(s[i]))
    && s != "00000000-0000-0000-0000-000000000000"
  }

  // -------------------------------------------------------------------- hexadecimal

  lemma HexBytesUndoesText(b: IdBytes)
    ensures HexBytes(HexText(b)) == b
  {}

  lemma PairRoundTrip(h: nat, l: nat)
    requires h < 16 && l < 16
    ensures (h * 16 + l) / 16 == h && (h * 16 + l) % 16 == l
  {}

  lemma HexTextUndoesBytes(s: Compacted)
    ensures HexText(HexBytes(s)) == s
  {
    var b := HexBytes(s);
    forall i | 0 <= i < 32
      ensures HexText(b)[i] == s[i]
    {
      var j := i / 2;
      PairRoundTrip(HexValue(s[2 * j]), HexValue(s[2 * j + 1]));
      HexRoundTrip(0, s[2 * j]);
      HexRoundTrip(0, s[2 * j + 1]);
    }
  }

  lemma NilIsZeros(s: Compacted)
    ensures IsNil(HexBytes(s)) <==> forall i | 0 <= i < 32 :: s[i] == '0'
  {
    var b := HexBytes(s);
    forall i | 0 <= i < 16
      ensures b[i] == 0 <==> s[2 * i] == '0' && s[2 * i + 1] == '0'
    {
      ZeroByte(s, i);
    }
    hide HexBytes, IsHex;
    if IsNil(b) {
      forall i | 0 <= i < 32
        ensures s[i] == '0'
      {
        assert b[i / 2] == 0;
        assert i == 2 * (i / 2) || i == 2 * (i / 2) + 1;
      }
    } else {
      var i :| 0 <= i < 16 && b[i] != 0;
      assert s[2 * i] != '0' || s[2 * i + 1] != '0';
    }
  }

  lemma ZeroByte(s: Compacted, i: nat)
    requires i < 16
    ensures HexBytes(s)[i] == 0 <==> s[2 * i] == '0' && s[2 * i + 1] == '0'
  {
    HexRoundTrip(0, s[2 * i]);
    HexRoundTrip(0, s[2 * i + 1]);
  }

  // ------------------------------------------------------------------------ hyphens

  lemma {:induction false} CompactAppend(a: string, b: string)
    ensures Compact(a + b) == Compact(a) + Compact(b)
  {
    if a == "" {
      assert a + b == b;
    } else {
      assert (a + b)[0] == a[0] && (a + b)[1..] == a[1..] + b;
      CompactAppend(a[1..], b);
    }
  }

  lemma {:induction false} CompactWithout(s: string)
    requires '-' !in s
    ensures Compact(s) == s
  {
    if s != "" {
      CompactWithout(s[1..]);
      assert [s[0]] + s[1..] == s;
    }
  }

  lemma CompactOne(a: string, b: string)
    requires '-' !in b
    ensures Compact(a + "-" + b) == Compact(a) + b
  {
    HyphenGoes();
    hide Compact;
    CompactAppend(a + "-", b);
    CompactAppend(a, "-");
    CompactWithout(b);
    assert Compact(a) + "" == Compact(a);
  }

  lemma HyphenGoes()
    ensures Compact("-") == ""
  {}

  lemma CompactUndoesHyphens(h: Compacted)
    ensures Compact(Hyphenated(h)) == h
  {
    assert forall i | 0 <= i < 32 :: IsHex(h[i]) && h[i] != '-';
    hide IsHex;
    var a, b, c, d, e := h[..8], h[8..12], h[12..16], h[16..20], h[20..];
    CompactWithout(a);
    CompactOne(a, b);
    CompactOne(a + "-" + b, c);
    CompactOne(a + "-" + b + "-" + c, d);
    CompactOne(a + "-" + b + "-" + c + "-" + d, e);
    hide Compact;
    assert a + b + c + d + e == h;
  }

  lemma HyphenatedAt(h: Compacted, i: nat)
    requires i < 36
    ensures |Hyphenated(h)| == 36
    ensures
      Hyphenated(h)[i]
      == if i == 8 || i == 13 || i == 18 || i == 23 then '-'
         else h[if i < 8 then i else if i < 13 then i - 1 else if i < 18 then i - 2 else if i < 23 then i - 3 else i - 4]
  {}

  lemma HyphenatedIsUuid(h: Compacted)
    requires IsCompact(h)
    ensures IsNonNilUuid(Hyphenated(h))
  {
    var s := Hyphenated(h);
    HyphenatedAt(h, 0);
    forall i | 0 <= i < 36
      ensures if i == 8 || i == 13 || i == 18 || i == 23 then s[i] == '-' else IsHex(s[i])
    {
      HyphenatedAt(h, i);
    }
    var z :| 0 <= z < 32 && h[z] != '0';
    var i := if z < 8 then z else if z < 12 then z + 1 else if z < 16 then z + 2 else if z < 20 then z + 3 else z + 4;
    HyphenatedAt(h, i);
    hide Hyphenated, IsHex;
    NilAt(i);
  }

  lemma NilAt(i: nat)
    requires i < 36
    ensures
      "00000000-0000-0000-0000-000000000000"[i] == if i == 8 || i == 13 || i == 18 || i == 23 then '-' else '0'
  {}

  lemma {:induction false} UuidIsHyphenated(u: string)
    requires IsNonNilUuid(u)
    ensures
      var h := u[..8] + u[9..13] + u[14..18] + u[19..23] + u[24..];
      IsCompact(h) && Hyphenated(h) == u
  {
    var h := u[..8] + u[9..13] + u[14..18] + u[19..23] + u[24..];
    HexAt(u);
    hide IsHex;
    forall i | 0 <= i < 36
      ensures Hyphenated(h)[i] == u[i]
    {
      HyphenatedAt(h, i);
      if i != 8 && i != 13 && i != 18 && i != 23 {
        UnhyphenatedAt(
          u,
          if i < 8 then i else if i < 13 then i - 1 else if i < 18 then i - 2 else if i < 23 then i - 3 else i - 4);
      }
    }
    HyphenatedAt(h, 0);
    ZerosAreNil(h);
  }

  lemma ZerosAreNil(h: Compacted)
    ensures (forall i | 0 <= i < 32 :: h[i] == '0') ==> Hyphenated(h) == "00000000-0000-0000-0000-000000000000"
  {
    HyphenatedAt(h, 0);
    forall i | 0 <= i < 36
      ensures
        (forall k | 0 <= k < 32 :: h[k] == '0') ==> Hyphenated(h)[i] == "00000000-0000-0000-0000-000000000000"[i]
    {
      HyphenatedAt(h, i);
      NilAt(i);
    }
  }

  lemma UnhyphenatedAt(u: string, i: nat)
    requires |u| == 36 && i < 32
    ensures
      (u[..8] + u[9..13] + u[14..18] + u[19..23] + u[24..])[i]
      == u[if i < 8 then i else if i < 12 then i + 1 else if i < 16 then i + 2 else if i < 20 then i + 3 else i + 4]
  {}

  lemma HexAt(u: string)
    requires IsNonNilUuid(u)
    ensures
      var h := u[..8] + u[9..13] + u[14..18] + u[19..23] + u[24..];
      |h| == 32 && forall i | 0 <= i < 32 :: IsHex(h[i])
  {
    hide IsHex;
  }

  // -------------------------------------------------------------------- round trips

  lemma CompactIsNotNil(s: Compacted)
    ensures IsCompact(s) <==> !IsNil(HexBytes(s))
  {
    NilIsZeros(s);
  }

  lemma BytesReadBack(b: IdBytes)
    requires !IsNil(b)
    ensures |Encode(b)| == 22 && AllDigits(Encode(b)) && Base64UrlToUuid(Encode(b)) == Some(Hyphenated(HexText(b)))
  {
    EncodeShape(b);
    DecodeUndoesEncode(b);
    hide Encode, Decode, HexText, Hyphenated, IsDigit, IsNil;
  }

  /** What was converted comes back in the standard form, which the client accepts; 22 letters carry it. */
  lemma ConversionRoundTrip(uuid: string)
    requires UuidToBase64Url(uuid).Some?
    ensures
      var value := UuidToBase64Url(uuid).value;
      && |value| == 22 && AllDigits(value)
      && Base64UrlToUuid(value) == Some(Hyphenated(Compact(uuid)))
      && IsNonNilUuid(Hyphenated(Compact(uuid)))
  {
    var compact: Compacted := Compact(uuid);
    assert UuidToBase64Url(uuid) == Some(Encode(HexBytes(compact))) && IsCompact(compact);
    hide *;
    CompactIsNotNil(compact);
    BytesReadBack(HexBytes(compact));
    HexTextUndoesBytes(compact);
    HyphenatedIsUuid(compact);
  }

  /** Identifiers in the standard form come back unchanged. */
  lemma UuidRoundTrip(uuid: string)
    requires IsNonNilUuid(uuid)
    ensures
      UuidToBase64Url(uuid).Some? && Base64UrlToUuid(UuidToBase64Url(uuid).value) == Some(uuid)
  {
    var h := uuid[..8] + uuid[9..13] + uuid[14..18] + uuid[19..23] + uuid[24..];
    UuidIsHyphenated(uuid);
    hide IsNonNilUuid, Base64UrlToUuid, Hyphenated, Compact;
    CompactUndoesHyphens(h);
    ConversionRoundTrip(uuid);
  }

  /**
   * Whatever text is read as an identifier, the identifier is one the client accepts; writing it again
   * gives that text exactly when it was canonical.
   */
  lemma ReadUuidIsWritten(value: string)
    requires Base64UrlToUuid(value).Some?
    ensures
      var uuid := Base64UrlToUuid(value).value;
      && IsNonNilUuid(uuid) && AllDigits(value) && |value| % 4 != 1
      && UuidToBase64Url(uuid).Some?
      && (UuidToBase64Url(uuid) == Some(value) <==> Canonical(value))
  {
    var b: IdBytes := Decode(value).value;
    HexBytesUndoesText(b);
    CompactIsNotNil(HexText(b));
    HyphenatedIsUuid(HexText(b));
    CompactUndoesHyphens(HexText(b));
    EncodeUndoesDecode(value);
    hide Compact, HexBytes, HexText, Hyphenated, Encode, DecodeGroups, IsNil, IsNonNilUuid, Canonical;
  }

  /** Bytes are written from left to right, the high half first, in lower case. */
  lemma HighHalfFirst(b: IdBytes, i: nat)
    requires i < 16
    ensures HexText(b)[2 * i] == "0123456789abcdef"[b[i] / 16] && HexText(b)[2 * i + 1] == "0123456789abcdef"[b[i] % 16]
  {
    HexCharIsDigit(b[i] / 16);
    HexCharIsDigit(b[i] % 16);
    hide HexChar;
  }

  lemma HexCharIsDigit(v: nat)
    requires v < 16
    ensures HexChar(v) == "0123456789abcdef"[v]
  {}
}
