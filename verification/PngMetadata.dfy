/** Diagnostic attachments in PNG files: chunks placed right after IHDR, and read back. */
module PngMetadata {
  import opened Basics
  import opened Checksums

  const SIGNATURE: Bytes := [137, 80, 78, 71, 13, 10, 26, 10]

  datatype PngError =
    | InvalidSignature
    | NotIhdr
    | HeaderTruncated
    | PayloadTruncated
    | BadKeyword
    | NotAscii
    | BadType

  datatype Result<T> = Ok(value: T) | Err(error: PngError)

  type Kind = s: Bytes | |s| == 4 witness [0, 0, 0, 0]

  const IHDR: Kind := [73, 72, 68, 82]
  const IEND: Kind := [73, 69, 78, 68]
  const TEXT: Kind := [116, 69, 88, 116]

  // ------------------------------------------------------------ four-byte numbers

  type Quad = s: Bytes | |s| == 4 witness [0, 0, 0, 0]

  function ReadU32(b: Quad): (r: nat)
    ensures r < LIMIT
  {
    b[0] as int * 0x100_0000 + b[1] as int * 0x1_0000 + b[2] as int * 0x100 + b[3]
  }

  function ToU32(value: nat): Quad {
    [value / 0x100_0000 % 256, value / 0x1_0000 % 256, value / 0x100 % 256, value % 256]
  }

  lemma Digits(value: nat)
    ensures
      value / 0x100_0000 % 256 * 0x100_0000 + value / 0x1_0000 % 256 * 0x1_0000 + value / 0x100 % 256 * 0x100
        + value % 256
      == value % LIMIT
  {
    var a := value / 0x100;
    var b := a / 0x100;
    var c := b / 0x100;
    assert value == 0x100 * a + value % 256;
    assert a == 0x100 * b + a % 256;
    assert b == 0x100 * c + b % 256;
    assert c == 0x100 * (c / 256) + c % 256;
    assert b == value / 0x1_0000;
    assert c == value / 0x100_0000;
  }

  lemma U32RoundTrip(value: nat)
    ensures ReadU32(ToU32(value)) == value % LIMIT
  {
    Digits(value);
    var b := ToU32(value);
    assert b[0] == value / 0x100_0000 % 256 && b[1] == value / 0x1_0000 % 256;
    assert b[2] == value / 0x100 % 256 && b[3] == value % 256;
  }

  // ----------------------------------------------------------------------- chunks

  /** A chunk's bytes: length, kind, payload, checksum. */
  function ChunkBytes(kind: Kind, payload: Bytes): (r: Bytes)
    ensures |r| == |payload| + 12
  {
    ToU32(|payload|) + kind + payload + ToU32(BitSerialCrc(kind + payload))
  }

  /** How many bytes the first chunk of a file's tail takes. */
  function ChunkLength(rest: Bytes): (r: Result<nat>)
    ensures r.Ok? ==> 12 <= r.value <= |rest|
  {
    if |rest| < 12 then Err(HeaderTruncated)
    else
      var end := 12 + ReadU32(rest[..4]);
      if end > |rest| then Err(PayloadTruncated) else Ok(end)
  }

  /** A whole chunk, as it stands in the file. */
  type Chunk = c: Bytes | |c| >= 12 witness seq(12, _ => 0)

  function KindOf(c: Chunk): Kind {
    c[4..8]
  }

  function PayloadOf(c: Chunk): Bytes {
    c[8..|c| - 4]
  }

  /** The chunks up to and including IEND, or up to where the file is broken. */
  datatype Scan = Scan(chunks: seq<Chunk>, broken: Option<PngError>)

  function Scanned(rest: Bytes): Scan
    decreases |rest|
  {
    if rest == [] then Scan([], None)
    else
      match ChunkLength(rest)
      case Err(e) => Scan([], Some(e))
      case Ok(n) =>
        if KindOf(rest[..n]) == IEND then Scan([rest[..n]], None)
        else
          var tail := Scanned(rest[n..]);
          Scan([rest[..n]] + tail.chunks, tail.broken)
  }

  lemma ChunkParts(kind: Kind, payload: Bytes)
    ensures
      var c := ChunkBytes(kind, payload);
      && c[..4] == ToU32(|payload|) && KindOf(c) == kind && PayloadOf(c) == payload
      && c[4..|c| - 4] == kind + payload && c[|c| - 4..] == ToU32(BitSerialCrc(kind + payload))
  {
    hide BitSerialCrc, ToU32;
  }

  /** Every embedded chunk carries the bit-serial checksum of its kind and payload. */
  lemma ChunkCarriesItsChecksum(kind: Kind, payload: Bytes)
    ensures
      var c := ChunkBytes(kind, payload);
      ReadU32(c[|c| - 4..]) == BitSerialCrc(c[4..|c| - 4])
  {
    ChunkParts(kind, payload);
    U32RoundTrip(BitSerialCrc(kind + payload));
    hide ChunkBytes, ToU32, ReadU32, BitSerialCrc;
  }

  /** A chunk followed by anything is found whole. */
  lemma ChunkIsFound(c: Chunk, rest: Bytes)
    requires ChunkLength(c) == Ok(|c|)
    ensures ChunkLength(c + rest) == Ok(|c|) && (c + rest)[..|c|] == c && (c + rest)[|c|..] == rest
  {}

  lemma ScannedHead(c: Chunk, rest: Bytes)
    requires ChunkLength(c) == Ok(|c|) && KindOf(c) != IEND
    ensures Scanned(c + rest) == Scan([c] + Scanned(rest).chunks, Scanned(rest).broken)
  {
    ChunkIsFound(c, rest);
    hide ChunkLength, KindOf;
  }

  lemma ChunkBytesLength(kind: Kind, payload: Bytes)
    requires |payload| < LIMIT
    ensures ChunkLength(ChunkBytes(kind, payload)) == Ok(|payload| + 12)
  {
    hide *;
    var c := ChunkBytes(kind, payload);
    ChunkParts(kind, payload);
    U32RoundTrip(|payload|);
    SmallModulo(|payload|);
    LengthOfChunk(c, |payload|);
  }

  lemma SmallModulo(n: nat)
    requires n < LIMIT
    ensures n % LIMIT == n
  {}

  lemma LengthOfChunk(c: Chunk, n: nat)
    requires |c| == n + 12 && ReadU32(c[..4]) == n
    ensures ChunkLength(c) == Ok(n + 12)
  {
    hide ReadU32;
  }

  // ------------------------------------------------------------------- embedding

  predicate IsPng(png: Bytes) {
    |png| >= 8 && png[..8] == SIGNATURE
  }

  /** The place after IHDR. */
  function InsertionOffset(png: Bytes): (r: Result<nat>)
    ensures r.Ok? ==> 20 <= r.value <= |png|
  {
    if !IsPng(png) then Err(InvalidSignature)
    else if |png| < 16 || png[12..16] != IHDR then Err(NotIhdr)
    else
      match ChunkLength(png[8..])
      case Err(e) => Err(e)
      case Ok(n) => Ok(8 + n)
  }

  function EmbedChunk(png: Bytes, kind: Kind, payload: Bytes): Result<Bytes> {
    match InsertionOffset(png)
    case Err(e) => Err(e)
    case Ok(at) => Ok(png[..at] + ChunkBytes(kind, payload) + png[at..])
  }

  predicate Ascii(s: string) {
    forall i | 0 <= i < |s| :: s[i] as int <= 127
  }

  function Encoded(s: string): Bytes
    requires Ascii(s)
  {
    seq(|s|, i requires 0 <= i < |s| => s[i] as int)
  }

  predicate IsKeyword(keyword: string) {
    1 <= |keyword| <= 79 && forall i | 0 <= i < |keyword| :: 32 <= keyword[i] as int <= 126
  }

  function EmbedText(png: Bytes, keyword: string, text: string): Result<Bytes> {
    if !IsPng(png) then Err(InvalidSignature)
    else if !IsKeyword(keyword) then Err(BadKeyword)
    else if !Ascii(text) then Err(NotAscii)
    else EmbedChunk(png, TEXT, Encoded(keyword) + [0] + Encoded(text))
  }

  predicate IsLetter(c: char) {
    'A' <= c <= 'Z' || 'a' <= c <= 'z'
  }

  /** Four letters: ancillary, private, with the reserved letter upper-case. */
  predicate IsPrivateType(kind: string) {
    && |kind| == 4
    && (forall i | 0 <= i < 4 :: IsLetter(kind[i]))
    && kind[0] >= 'a' && kind[1] >= 'a' && kind[2] <= 'Z'
  }

  lemma PrivateTypeIsAscii(kind: string)
    requires IsPrivateType(kind)
    ensures Ascii(kind)
  {}

  function EmbedBinary(png: Bytes, kind: string, payload: Bytes): Result<Bytes> {
    if !IsPrivateType(kind) then Err(BadType)
    else
      PrivateTypeIsAscii(kind);
      EmbedChunk(png, Encoded(kind), payload)
  }

  // --------------------------------------------------------------------- reading

  /** What the decoder labelled latin1 makes of the bytes from 0x80 to 0x9f (it is windows-1252). */
  const UPPER: seq<int> := [
    0x20ac, 0x81, 0x201a, 0x192, 0x201e, 0x2026, 0x2020, 0x2021, 0x2c6, 0x2030, 0x160, 0x2039, 0x152, 0x8d, 0x17d,
    0x8f, 0x90, 0x2018, 0x2019, 0x201c, 0x201d, 0x2022, 0x2013, 0x2014, 0x2dc, 0x2122, 0x161, 0x203a, 0x153, 0x9d,
    0x17e, 0x178]

  function DecodedByte(b: Byte): char {
    if b < 0x80 || b >= 0xa0 then b as char else UPPER[b - 0x80] as char
  }

  function Decoded(bytes: Bytes): string {
    seq(|bytes|, i requires 0 <= i < |bytes| => DecodedByte(bytes[i]))
  }

  /** The bytes of a chunk type as a string, one character a byte. */
  function KindText(kind: Kind): string {
    [kind[0] as char, kind[1] as char, kind[2] as char, kind[3] as char]
  }

  function FirstZero(bytes: Bytes): (r: nat)
    ensures r <= |bytes|
    ensures r < |bytes| ==> bytes[r] == 0
    ensures forall i | 0 <= i < r :: bytes[i] != 0
  {
    if bytes == [] || bytes[0] == 0 then 0 else 1 + FirstZero(bytes[1..])
  }

  function TextOf(c: Chunk, keyword: string): Option<string> {
    var payload := PayloadOf(c);
    var separator := FirstZero(payload);
    if KindOf(c) == TEXT && 0 < separator < |payload| && Decoded(payload[..separator]) == keyword then
      Some(Decoded(payload[separator + 1..]))
    else None
  }

  function BinaryOf(c: Chunk, kind: string): Option<Bytes> {
    if KindText(KindOf(c)) == kind then Some(PayloadOf(c)) else None
  }

  /** The first match among the chunks; a broken file is an error only when nothing matched before. */
  function FindText(scan: Scan, keyword: string): Result<Option<string>>
    decreases |scan.chunks|
  {
    if scan.chunks == [] then
      match scan.broken
      case None => Ok(None)
      case Some(e) => Err(e)
    else if TextOf(scan.chunks[0], keyword).Some? then Ok(TextOf(scan.chunks[0], keyword))
    else FindText(Scan(scan.chunks[1..], scan.broken), keyword)
  }

  function FindBinary(scan: Scan, kind: string): Result<Option<Bytes>>
    decreases |scan.chunks|
  {
    if scan.chunks == [] then
      match scan.broken
      case None => Ok(None)
      case Some(e) => Err(e)
    else if BinaryOf(scan.chunks[0], kind).Some? then Ok(BinaryOf(scan.chunks[0], kind))
    else FindBinary(Scan(scan.chunks[1..], scan.broken), kind)
  }

  function ReadText(png: Bytes, keyword: string): Result<Option<string>> {
    if !IsPng(png) then Err(InvalidSignature) else FindText(Scanned(png[8..]), keyword)
  }

  function ReadBinary(png: Bytes, kind: string): Result<Option<Bytes>> {
    if !IsPng(png) then Err(InvalidSignature) else FindBinary(Scanned(png[8..]), kind)
  }

  // ------------------------------------------------------------------ round trips

  lemma {:induction false} FirstZeroAfter(head: Bytes, tail: Bytes)
    requires forall i | 0 <= i < |head| :: head[i] != 0
    ensures FirstZero(head + [0] + tail) == |head|
  {
    var s := head + [0] + tail;
    assert s[|head|] == 0;
    assert forall i | 0 <= i < |head| :: s[i] == head[i];
  }

  lemma DecodeUndoesEncode(s: string)
    requires Ascii(s)
    ensures Decoded(Encoded(s)) == s
  {}

  /** The new chunk answers to its own keyword, with its own text, and to no other. */
  lemma TextOfEmbedded(keyword: string, text: string, other: string)
    requires IsKeyword(keyword) && Ascii(keyword) && Ascii(text)
    ensures
      TextOf(ChunkBytes(TEXT, Encoded(keyword) + [0] + Encoded(text)), other)
      == if other == keyword then Some(text) else None
  {
    var payload := Encoded(keyword) + [0] + Encoded(text);
    ChunkParts(TEXT, payload);
    FirstZeroAfter(Encoded(keyword), Encoded(text));
    DecodeUndoesEncode(keyword);
    DecodeUndoesEncode(text);
    assert payload[..|keyword|] == Encoded(keyword) && payload[|keyword| + 1..] == Encoded(text);
    hide Encoded, Decoded, FirstZero, ChunkBytes;
  }

  lemma BinaryOfEmbedded(kind: string, payload: Bytes, other: string)
    requires IsPrivateType(kind) && Ascii(kind)
    ensures
      BinaryOf(ChunkBytes(Encoded(kind), payload), other) == if other == kind then Some(payload) else None
  {}

  /** A private type is neither the end of the file nor text. */
  lemma PrivateTypeIsNoneOfThese(kind: string)
    requires IsPrivateType(kind) && Ascii(kind)
    ensures Encoded(kind) != IEND && Encoded(kind) != TEXT && Encoded(kind) != IHDR
  {
    assert Encoded(kind)[1] == kind[1] as int >= 97;
  }

  /** The file cut after IHDR. */
  ghost predicate CutAfterHeader(png: Bytes, header: Chunk, tail: Bytes) {
    IsPng(png) && png == SIGNATURE + header + tail && ChunkLength(header) == Ok(|header|) && KindOf(header) == IHDR
  }

  lemma HeaderIsCut(png: Bytes)
    requires InsertionOffset(png).Ok?
    ensures
      var at := InsertionOffset(png).value;
      && png[8..at] == png[8..][..at - 8]
      && CutAfterHeader(png, png[8..at], png[at..])
  {}

  lemma ScannedCut(png: Bytes, header: Chunk, tail: Bytes)
    requires CutAfterHeader(png, header, tail)
    ensures png[8..] == header + tail
    ensures Scanned(png[8..]) == Scan([header] + Scanned(tail).chunks, Scanned(tail).broken)
  {}

  /** The file with a chunk put in after its header. */
  lemma InsertedIsCut(png: Bytes, header: Chunk, chunk: Chunk, tail: Bytes)
    requires CutAfterHeader(png, header, tail)
    ensures CutAfterHeader(SIGNATURE + header + chunk + tail, header, chunk + tail)
  {}

  /**
   * All original chunks survive byte for byte and in order, IHDR first, the new chunk second; what broke the
   * file before still does.
   */
  lemma ChunksSurvive(png: Bytes, kind: Kind, payload: Bytes)
    requires EmbedChunk(png, kind, payload).Ok? && kind != IEND && |payload| < LIMIT
    ensures
      var e := EmbedChunk(png, kind, payload).value;
      var before := Scanned(png[8..]);
      && IsPng(e) && IsPng(png) && before.chunks != [] && KindOf(before.chunks[0]) == IHDR
      && Scanned(e[8..])
         == Scan([before.chunks[0], ChunkBytes(kind, payload)] + before.chunks[1..], before.broken)
  {
    var at := InsertionOffset(png).value;
    HeaderIsCut(png);
    var header, tail, chunk := png[8..at], png[at..], ChunkBytes(kind, payload);
    assert EmbedChunk(png, kind, payload).value == SIGNATURE + header + chunk + tail by {
      HeaderEnds(png, header, tail);
    }
    ChunkParts(kind, payload);
    ChunkBytesLength(kind, payload);
    hide *;
    SurvivesBetween(png, header, chunk, tail);
  }

  lemma HeaderEnds(png: Bytes, header: Chunk, tail: Bytes)
    requires CutAfterHeader(png, header, tail)
    ensures png[..8 + |header|] == SIGNATURE + header && png[8 + |header|..] == tail
  {
    hide ChunkLength, KindOf;
    SplitAppend(SIGNATURE + header, tail);
  }

  lemma SurvivesBetween(png: Bytes, header: Chunk, chunk: Chunk, tail: Bytes)
    requires CutAfterHeader(png, header, tail) && ChunkLength(chunk) == Ok(|chunk|) && KindOf(chunk) != IEND
    ensures
      var e := SIGNATURE + header + chunk + tail;
      var before := Scanned(png[8..]);
      && IsPng(e) && IsPng(png) && before.chunks != [] && KindOf(before.chunks[0]) == IHDR
      && Scanned(e[8..]) == Scan([before.chunks[0], chunk] + before.chunks[1..], before.broken)
  {
    hide IsPng, Scanned, ChunkLength, KindOf;
    var e := SIGNATURE + header + chunk + tail;
    ScannedCut(png, header, tail);
    InsertedIsCut(png, header, chunk, tail);
    ScannedCut(e, header, chunk + tail);
    ScannedHead(chunk, tail);
    TwoHeads(header, chunk, Scanned(tail).chunks);
  }

  lemma TwoHeads(a: Chunk, b: Chunk, rest: seq<Chunk>)
    ensures [a] + ([b] + rest) == [a, b] + ([a] + rest)[1..] && ([a] + rest)[0] == a
  {}

  lemma FindTextSkips(a: Chunk, b: Chunk, rest: seq<Chunk>, broken: Option<PngError>, keyword: string)
    requires TextOf(a, keyword) == None
    ensures
      FindText(Scan([a, b] + rest, broken), keyword)
      == (if TextOf(b, keyword).Some? then Ok(TextOf(b, keyword)) else FindText(Scan([a] + rest, broken), keyword))
  {}

  lemma FindBinarySkips(a: Chunk, b: Chunk, rest: seq<Chunk>, broken: Option<PngError>, kind: string)
    requires BinaryOf(a, kind) == None || BinaryOf(b, kind) == None
    ensures
      FindBinary(Scan([a, b] + rest, broken), kind)
      == (if BinaryOf(a, kind).Some? then Ok(BinaryOf(a, kind))
          else if BinaryOf(b, kind).Some? then Ok(BinaryOf(b, kind))
          else FindBinary(Scan([a] + rest, broken), kind))
    ensures
      BinaryOf(a, kind).Some? ==>
        FindBinary(Scan([a] + rest, broken), kind) == Ok(BinaryOf(a, kind))
  {}

  /** Reading text after a chunk has been put in: that chunk answers first, and otherwise nothing changes. */
  lemma TextReadAfterInsertion(png: Bytes, kind: Kind, payload: Bytes, keyword: string)
    requires EmbedChunk(png, kind, payload).Ok? && kind != IEND && |payload| < LIMIT
    ensures
      var own := TextOf(ChunkBytes(kind, payload), keyword);
      ReadText(EmbedChunk(png, kind, payload).value, keyword)
      == if own.Some? then Ok(own) else ReadText(png, keyword)
  {
    ChunksSurvive(png, kind, payload);
    var before := Scanned(png[8..]);
    HeaderIsNotText(before.chunks[0], keyword);
    hide EmbedChunk, Scanned, TextOf, FindText, ChunkBytes, IsPng;
    CutJoins(before.chunks, 1);
    assert before.chunks == [before.chunks[0]] + before.chunks[1..];
    FindTextSkips(before.chunks[0], ChunkBytes(kind, payload), before.chunks[1..], before.broken, keyword);
  }

  lemma HeaderIsNotText(header: Chunk, keyword: string)
    requires KindOf(header) == IHDR
    ensures TextOf(header, keyword) == None
  {}

  lemma BinaryReadAfterInsertion(png: Bytes, kind: Kind, payload: Bytes, requested: string)
    requires EmbedChunk(png, kind, payload).Ok? && kind != IEND && kind != IHDR && |payload| < LIMIT
    ensures
      var own := BinaryOf(ChunkBytes(kind, payload), requested);
      ReadBinary(EmbedChunk(png, kind, payload).value, requested)
      == if own.Some? then Ok(own) else ReadBinary(png, requested)
  {
    ChunksSurvive(png, kind, payload);
    var before := Scanned(png[8..]);
    KindsDiffer(before.chunks[0], kind, payload, requested);
    hide EmbedChunk, Scanned, BinaryOf, FindBinary, ChunkBytes, IsPng;
    assert before.chunks == [before.chunks[0]] + before.chunks[1..];
    FindBinarySkips(before.chunks[0], ChunkBytes(kind, payload), before.chunks[1..], before.broken, requested);
  }

  lemma KindsDiffer(header: Chunk, kind: Kind, payload: Bytes, requested: string)
    requires KindOf(header) == IHDR && kind != IHDR
    ensures BinaryOf(header, requested) == None || BinaryOf(ChunkBytes(kind, payload), requested) == None
  {}

  /**
   * Reading back the keyword just embedded gives exactly its text, even when an older chunk has the same
   * keyword; every other keyword, and every chunk type but tEXt, reads as before.
   */
  lemma TextRoundTrip(png: Bytes, keyword: string, text: string, other: string, kind: string)
    requires |keyword| + 1 + |text| < LIMIT
    ensures
      EmbedText(png, keyword, text).Ok? ==>
        var e := EmbedText(png, keyword, text).value;
        && ReadText(e, keyword) == Ok(Some(text))
        && (other != keyword ==> ReadText(e, other) == ReadText(png, other))
        && (kind != "tEXt" ==> ReadBinary(e, kind) == ReadBinary(png, kind))
  {
    if EmbedText(png, keyword, text).Ok? {
      KeywordIsAscii(keyword);
      var payload := Encoded(keyword) + [0] + Encoded(text);
      assert EmbedText(png, keyword, text) == EmbedChunk(png, TEXT, payload);
      assert TEXT[0] != IEND[0] && TEXT[0] != IHDR[0];
      NotTextKind(payload, kind);
      hide *;
      TextOfEmbedded(keyword, text, keyword);
      TextOfEmbedded(keyword, text, other);
      TextReadAfterInsertion(png, TEXT, payload, keyword);
      TextReadAfterInsertion(png, TEXT, payload, other);
      BinaryReadAfterInsertion(png, TEXT, payload, kind);
    }
  }

  lemma KeywordIsAscii(keyword: string)
    requires IsKeyword(keyword)
    ensures Ascii(keyword)
  {}

  lemma NotTextKind(payload: Bytes, kind: string)
    ensures kind != "tEXt" ==> BinaryOf(ChunkBytes(TEXT, payload), kind) == None
  {}

  /** The same for a private attachment; text reads as before whatever the keyword. */
  lemma BinaryRoundTrip(png: Bytes, kind: string, payload: Bytes, other: string, keyword: string)
    requires |payload| < LIMIT
    ensures
      EmbedBinary(png, kind, payload).Ok? ==>
        var e := EmbedBinary(png, kind, payload).value;
        && ReadBinary(e, kind) == Ok(Some(payload))
        && (other != kind ==> ReadBinary(e, other) == ReadBinary(png, other))
        && ReadText(e, keyword) == ReadText(png, keyword)
  {
    if EmbedBinary(png, kind, payload).Ok? {
      PrivateTypeIsAscii(kind);
      PrivateTypeIsNoneOfThese(kind);
      assert EmbedBinary(png, kind, payload) == EmbedChunk(png, Encoded(kind), payload);
      PrivateIsNotText(Encoded(kind), payload, keyword);
      BinaryOfEmbedded(kind, payload, kind);
      BinaryOfEmbedded(kind, payload, other);
      hide *;
      BinaryReadAfterInsertion(png, Encoded(kind), payload, kind);
      BinaryReadAfterInsertion(png, Encoded(kind), payload, other);
      TextReadAfterInsertion(png, Encoded(kind), payload, keyword);
    }
  }

  lemma PrivateIsNotText(kind: Kind, payload: Bytes, keyword: string)
    requires kind != TEXT
    ensures TextOf(ChunkBytes(kind, payload), keyword) == None
  {
    ChunkParts(kind, payload);
    hide ChunkBytes;
  }

  // -------------------------------------------------------------- what is accepted

  /** The signature and the chunk types as letters. */
  lemma NamesInLetters()
    ensures SIGNATURE == [0x89, 'P' as int, 'N' as int, 'G' as int, 13, 10, 26, 10]
    ensures KindText(IHDR) == "IHDR" && KindText(IEND) == "IEND" && KindText(TEXT) == "tEXt"
  {}

  /** Any file that begins with the signature and a whole IHDR chunk takes an attachment right after it. */
  lemma HeaderIsAccepted(data: Bytes, rest: Bytes)
    requires |data| < LIMIT
    ensures
      var png := SIGNATURE + (ChunkBytes(IHDR, data) + rest);
      InsertionOffset(png) == Ok(20 + |data|)
  {
    var header := ChunkBytes(IHDR, data);
    ChunkParts(IHDR, data);
    ChunkBytesLength(IHDR, data);
    ChunkIsFound(header, rest);
    hide ChunkBytes, ChunkLength;
    var png := SIGNATURE + (header + rest);
    SplitAppend(SIGNATURE, header + rest);
    assert png[8..] == header + rest && png[12..16] == header[4..8];
  }

  /** An embedding fails only for a file without such a beginning, a bad keyword, a bad type, or text beyond ASCII. */
  lemma EmbedsExactly(png: Bytes, keyword: string, text: string, kind: string, payload: Bytes)
    ensures EmbedText(png, keyword, text).Ok? <==> InsertionOffset(png).Ok? && IsKeyword(keyword) && Ascii(text)
    ensures EmbedBinary(png, kind, payload).Ok? <==> InsertionOffset(png).Ok? && IsPrivateType(kind)
    ensures
      InsertionOffset(png) == Err(InvalidSignature) <==> |png| < 8 || png[..8] != SIGNATURE
  {
    hide ReadU32, ChunkBytes, IsKeyword, IsPrivateType, Ascii, Encoded;
  }

  /** Bytes are characters, but for those that windows-1252 puts between 0x80 and 0x9f, among them the euro sign. */
  lemma LatinByExample(b: Byte)
    ensures b < 0x80 || b >= 0xa0 ==> DecodedByte(b) as int == b
    ensures DecodedByte(0x80) as int == 0x20ac && DecodedByte(0x99) as int == 0x2122
    ensures DecodedByte(0x9f) as int == 0x178
    ensures forall c: Byte | c in {0x81, 0x8d, 0x8f, 0x90, 0x9d} :: DecodedByte(c) as int == c
  {}

  /** Keywords are 1 to 79 printable characters; types have lower, lower, upper and any case. */
  lemma KeysByExample()
    ensures IsKeyword("voxels.reproduction") && IsKeyword(" ~") && !IsKeyword("") && !IsKeyword("a\n")
    ensures forall s: string | |s| > 79 :: !IsKeyword(s)
    ensures IsPrivateType("vpDI") && IsPrivateType("vpDi") && IsPrivateType("azAz")
    ensures !IsPrivateType("VPDI") && !IsPrivateType("vpdI") && !IsPrivateType("vPDI") && !IsPrivateType("vpD")
    ensures !IsPrivateType("vpD1") && !IsPrivateType("vpDIx")
  {
    assert "a\n"[1] == '\n' && "vpD1"[3] == '1';
  }

  // ------------------------------------------------------------------ the program

  function Overwritten(target: Bytes, offset: nat, source: Bytes): Bytes
    requires offset + |source| <= |target|
  {
    target[..offset] + source + target[offset + |source|..]
  }

  method Set(target: array<Byte>, source: Bytes, offset: nat)
    requires offset + |source| <= target.Length
    modifies target
    ensures target[..] == Overwritten(old(target[..]), offset, source)
  {
    forall i | 0 <= i < |source| {
      target[offset + i] := source[i];
    }
  }

  method WriteU32(target: array<Byte>, offset: nat, value: nat)
    requires offset + 4 <= target.Length
    modifies target
    ensures target[..] == Overwritten(old(target[..]), offset, ToU32(value))
  {
    ghost var quad := ToU32(value);
    target[offset] := value / 0x100_0000 % 256;
    target[offset + 1] := value / 0x1_0000 % 256;
    target[offset + 2] := value / 0x100 % 256;
    target[offset + 3] := value % 256;
    hide ToU32;
  }

  lemma FilledChunk(blank: Bytes, length: Quad, kind: Kind, payload: Bytes, crc: Quad)
    requires |blank| == |payload| + 12
    ensures
      var one := Overwritten(blank, 0, length);
      var two := Overwritten(one, 4, kind);
      var three := Overwritten(two, 8, payload);
      && |one| == |two| == |three| == |blank|
      && three[4..|blank| - 4] == kind + payload
      && Overwritten(three, |blank| - 4, crc) == length + kind + payload + crc
  {}

  method NewChunk(table: seq<Word>, kind: Kind, payload: Bytes) returns (chunk: array<Byte>)
    requires table == Table()
    ensures fresh(chunk) && chunk[..] == ChunkBytes(kind, payload)
  {
    chunk := new Byte[|payload| + 12];
    FilledChunk(chunk[..], ToU32(|payload|), kind, payload, ToU32(BitSerialCrc(kind + payload)));
    hide Table, BitSerialCrc, ToU32, Overwritten;
    WriteU32(chunk, 0, |payload|);
    Set(chunk, kind, 4);
    Set(chunk, payload, 8);
    var crc := Crc32(table, chunk[..][4..|payload| + 8]);
    WriteU32(chunk, |payload| + 8, crc);
  }

  lemma FilledFile(blank: Bytes, png: Bytes, at: nat, chunk: Bytes)
    requires at <= |png| && |blank| == |png| + |chunk|
    ensures
      var one := Overwritten(blank, 0, png[..at]);
      var two := Overwritten(one, at, chunk);
      && |one| == |two| == |blank|
      && Overwritten(two, at + |chunk|, png[at..]) == png[..at] + chunk + png[at..]
  {}

  method EmbedPngChunkBytes(table: seq<Word>, png: Bytes, kind: Kind, payload: Bytes) returns (r: Result<Bytes>)
    requires table == Table()
    ensures r == EmbedChunk(png, kind, payload)
  {
    var insertion := InsertionOffset(png);
    if insertion.Err? { return Err(insertion.error); }
    hide Table, ChunkBytes, Overwritten, InsertionOffset;
    var at := insertion.value;
    var chunk := NewChunk(table, kind, payload);
    var encoded := new Byte[|png| + chunk.Length];
    FilledFile(encoded[..], png, at, chunk[..]);
    Set(encoded, png[..at], 0);
    Set(encoded, chunk[..], at);
    Set(encoded, png[at..], at + chunk.Length);
    r := Ok(encoded[..]);
  }

  method EmbedPngText(table: seq<Word>, png: Bytes, keyword: string, text: string) returns (r: Result<Bytes>)
    requires table == Table()
    ensures r == EmbedText(png, keyword, text)
  {
    if !IsPng(png) { return Err(InvalidSignature); }
    if !IsKeyword(keyword) { return Err(BadKeyword); }
    if !Ascii(text) { return Err(NotAscii); }
    r := EmbedPngChunkBytes(table, png, TEXT, Encoded(keyword) + [0] + Encoded(text));
  }

  method EmbedPngBinary(table: seq<Word>, png: Bytes, kind: string, payload: Bytes) returns (r: Result<Bytes>)
    requires table == Table()
    ensures r == EmbedBinary(png, kind, payload)
  {
    if !IsPrivateType(kind) { return Err(BadType); }
    PrivateTypeIsAscii(kind);
    r := EmbedPngChunkBytes(table, png, Encoded(kind), payload);
  }

  /** One turn of a reader's loop: what the rest of the file gives, from here. */
  lemma ScannedTurn(rest: Bytes, keyword: string, kind: string)
    requires rest != []
    ensures
      ChunkLength(rest).Err? ==>
        && FindText(Scanned(rest), keyword) == Err(ChunkLength(rest).error)
        && FindBinary(Scanned(rest), kind) == Err(ChunkLength(rest).error)
    ensures
      ChunkLength(rest).Ok? ==>
        var n := ChunkLength(rest).value;
        var next := if KindOf(rest[..n]) == IEND then Scan([], None) else Scanned(rest[n..]);
        && FindText(Scanned(rest), keyword)
           == (if TextOf(rest[..n], keyword).Some? then Ok(TextOf(rest[..n], keyword)) else FindText(next, keyword))
        && FindBinary(Scanned(rest), kind)
           == (if BinaryOf(rest[..n], kind).Some? then Ok(BinaryOf(rest[..n], kind)) else FindBinary(next, kind))
  {}

  lemma StartOfFile(png: Bytes, keyword: string, kind: string)
    ensures !IsPng(png) ==> ReadText(png, keyword) == Err(InvalidSignature)
    ensures !IsPng(png) ==> ReadBinary(png, kind) == Err(InvalidSignature)
    ensures
      IsPng(png) ==>
        && |png| >= 8
        && ReadText(png, keyword) == FindText(Scanned(png[8..]), keyword)
        && ReadBinary(png, kind) == FindBinary(Scanned(png[8..]), kind)
  {}

  lemma NothingFound(keyword: string, kind: string)
    ensures FindText(Scan([], None), keyword) == Ok(None) && FindBinary(Scan([], None), kind) == Ok(None)
    ensures Scanned([]) == Scan([], None)
  {}

  /** A reader's loop body either answers or goes on to the next chunk. */
  datatype Turn<T> = Answer(result: Result<Option<T>>) | Continue(length: nat)

  method TextTurn(rest: Bytes, keyword: string) returns (turn: Turn<string>)
    requires rest != []
    ensures turn.Answer? ==> turn.result == FindText(Scanned(rest), keyword)
    ensures
      turn.Continue? ==>
        0 < turn.length <= |rest| && FindText(Scanned(rest), keyword) == FindText(Scanned(rest[turn.length..]), keyword)
  {
    hide *;
    NothingFound(keyword, "");
    ScannedTurn(rest, keyword, "");
    var length := ChunkLength(rest);
    if length.Err? { return Answer(Err(length.error)); }
    var found := TextOf(rest[..length.value], keyword);
    if found.Some? { return Answer(Ok(found)); }
    if KindOf(rest[..length.value]) == IEND { return Answer(Ok(None)); }
    turn := Continue(length.value);
  }

  method ReadPngText(png: Bytes, keyword: string) returns (r: Result<Option<string>>)
    ensures r == ReadText(png, keyword)
  {
    hide *;
    StartOfFile(png, keyword, "");
    if !IsPng(png) { return Err(InvalidSignature); }
    r := TextFrom(png, 8, keyword);
  }

  method TextFrom(png: Bytes, start: nat, keyword: string) returns (r: Result<Option<string>>)
    requires start <= |png|
    ensures r == FindText(Scanned(png[start..]), keyword)
  {
    hide *;
    NothingFound(keyword, "");
    var offset := start;
    ghost var rest := png[offset..];
    while offset < |png|
      invariant offset <= |png| && rest == png[offset..]
      invariant FindText(Scanned(rest), keyword) == FindText(Scanned(png[start..]), keyword)
    {
      var turn := TextTurn(png[offset..], keyword);
      if turn.Answer? { return turn.result; }
      CutTwice(png, offset, turn.length);
      offset := offset + turn.length;
      rest := rest[turn.length..];
    }
    r := Ok(None);
  }

  method BinaryTurn(rest: Bytes, kind: string) returns (turn: Turn<Bytes>)
    requires rest != []
    ensures turn.Answer? ==> turn.result == FindBinary(Scanned(rest), kind)
    ensures
      turn.Continue? ==>
        0 < turn.length <= |rest| && FindBinary(Scanned(rest), kind) == FindBinary(Scanned(rest[turn.length..]), kind)
  {
    hide *;
    NothingFound("", kind);
    ScannedTurn(rest, "", kind);
    var length := ChunkLength(rest);
    if length.Err? { return Answer(Err(length.error)); }
    var found := BinaryOf(rest[..length.value], kind);
    if found.Some? { return Answer(Ok(found)); }
    if KindOf(rest[..length.value]) == IEND { return Answer(Ok(None)); }
    turn := Continue(length.value);
  }

  method ReadPngBinary(png: Bytes, kind: string) returns (r: Result<Option<Bytes>>)
    ensures r == ReadBinary(png, kind)
  {
    hide *;
    StartOfFile(png, "", kind);
    if !IsPng(png) { return Err(InvalidSignature); }
    r := BinaryFrom(png, 8, kind);
  }

  method BinaryFrom(png: Bytes, start: nat, kind: string) returns (r: Result<Option<Bytes>>)
    requires start <= |png|
    ensures r == FindBinary(Scanned(png[start..]), kind)
  {
    hide *;
    NothingFound("", kind);
    var offset := start;
    ghost var rest := png[offset..];
    while offset < |png|
      invariant offset <= |png| && rest == png[offset..]
      invariant FindBinary(Scanned(rest), kind) == FindBinary(Scanned(png[start..]), kind)
    {
      var turn := BinaryTurn(png[offset..], kind);
      if turn.Answer? { return turn.result; }
      CutTwice(png, offset, turn.length);
      offset := offset + turn.length;
      rest := rest[turn.length..];
    }
    r := Ok(None);
  }
}
