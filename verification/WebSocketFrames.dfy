/** The incremental RFC 6455 frame parser of the shaped link's traffic inspector. */
module WebSocketFrames {
  import opened Basics
  import opened Bits

  datatype ParseError =
    | FrameTooLarge
    | NegotiatedRsvBits
    | UnexpectedContinuation
    | NestedFragment
    | UnsupportedOpcode(opcode: nat)

  /** One call of the message callback. */
  datatype Message = Message(opcode: nat, payload: Bytes, frameBytes: nat, frameCount: nat)

  datatype Decoded =
    | Incomplete
    | Failed(error: ParseError)
    | Complete(opcode: nat, final: bool, payload: Bytes, frameLength: nat)

  // ---------------------------------------------------------------- masking

  function XorBytes(a: Byte, b: Byte): Byte {
    WordRange();
    XorRange(8, a, b);
    Xor(a, b)
  }

  lemma XorBytesIsBitwise(a: Byte, b: Byte)
    ensures Octet(XorBytes(a, b)) == Octet(a) ^ Octet(b)
  {
    XorIsBitwise(a, b);
    hide Xor, Octet;
  }

  function ApplyMask(mask: Bytes, payload: Bytes): (r: Bytes)
    requires |mask| == 4
    ensures |r| == |payload|
  {
    seq(|payload|, i requires 0 <= i < |payload| => XorBytes(payload[i], mask[i % 4]))
  }

  lemma MaskInvolution(mask: Bytes, payload: Bytes)
    requires |mask| == 4
    ensures ApplyMask(mask, ApplyMask(mask, payload)) == payload
  {
    forall i | 0 <= i < |payload|
      ensures ApplyMask(mask, ApplyMask(mask, payload))[i] == payload[i]
    {
      XorInvolution(payload[i], mask[i % 4]);
    }
  }

  // ------------------------------------------------------- one frame's bytes

  function BigEndian(bytes: Bytes): nat {
    if bytes == [] then 0 else BigEndian(bytes[..|bytes| - 1]) * 256 + bytes[|bytes| - 1]
  }

  function ToBigEndian(width: nat, value: nat): (r: Bytes)
    ensures |r| == width
  {
    if width == 0 then [] else ToBigEndian(width - 1, value / 256) + [value % 256]
  }

  function Power256(width: nat): (r: nat)
    ensures r > 0
  {
    if width == 0 then 1 else 256 * Power256(width - 1)
  }

  lemma {:induction false} BigEndianRoundTrip(width: nat, value: nat)
    requires value < Power256(width)
    ensures BigEndian(ToBigEndian(width, value)) == value
  {
    if width > 0 {
      BigEndianRoundTrip(width - 1, value / 256);
      var r := ToBigEndian(width, value);
      assert r[..|r| - 1] == ToBigEndian(width - 1, value / 256);
    }
  }

  datatype LengthField = NeedMore | TooLarge | Length(value: nat, offset: nat)

  function DecodeLength(buffer: Bytes): (r: LengthField)
    requires |buffer| >= 2
  {
    var short := buffer[1] % 128;
    if short == 126 then
      if |buffer| < 4 then NeedMore else Length(BigEndian(buffer[2..4]), 4)
    else if short == 127 then
      if |buffer| < 10 then NeedMore
      else if BigEndian(buffer[2..10]) > MAX_SAFE_INTEGER then TooLarge
      else Length(BigEndian(buffer[2..10]), 10)
    else Length(short, 2)
  }

  /** What one turn of the parser's loop sees at the front of its buffer. */
  function DecodeFrame(buffer: Bytes): (r: Decoded)
    ensures r.Complete? ==> 2 <= r.frameLength <= |buffer|
  {
    if |buffer| < 2 then Incomplete
    else
      match DecodeLength(buffer)
      case NeedMore => Incomplete
      case TooLarge => Failed(FrameTooLarge)
      case Length(length, offset) =>
        var masked := buffer[1] >= 128;
        var body := offset + (if masked then 4 else 0);
        if |buffer| < body + length then Incomplete
        else if (buffer[0] / 16) % 8 != 0 then Failed(NegotiatedRsvBits)
        else
          var raw := buffer[body..body + length];
          Complete(
            buffer[0] % 16,
            buffer[0] >= 128,
            if masked then ApplyMask(buffer[offset..offset + 4], raw) else raw,
            body + length)
  }

  lemma BigEndianDigits(bytes: Bytes)
    ensures |bytes| == 2 ==> BigEndian(bytes) == bytes[0] as int * 0x100 + bytes[1]
    ensures
      |bytes| == 8 ==>
        BigEndian(bytes)
        == bytes[0] as int * 0x100_0000_0000_0000 + bytes[1] as int * 0x1_0000_0000_0000
           + bytes[2] as int * 0x100_0000_0000 + bytes[3] as int * 0x1_0000_0000 + bytes[4] as int * 0x100_0000
           + bytes[5] as int * 0x1_0000 + bytes[6] as int * 0x100 + bytes[7]
  {
    if |bytes| == 2 {
      assert bytes[..1][..0] == [] && bytes[..1][0] == bytes[0];
    } else if |bytes| == 8 {
      BigEndianLast(bytes, 8);
      BigEndianLast(bytes, 7);
      BigEndianLast(bytes, 6);
      BigEndianLast(bytes, 5);
      BigEndianLast(bytes, 4);
      BigEndianLast(bytes, 3);
      BigEndianLast(bytes, 2);
      BigEndianLast(bytes, 1);
      assert bytes[..8] == bytes && bytes[..0] == [];
      assert BigEndian(bytes[..0]) == 0;
      hide BigEndian;
    }
  }

  lemma BigEndianLast(bytes: Bytes, n: nat)
    requires 0 < n <= |bytes|
    ensures BigEndian(bytes[..n]) == BigEndian(bytes[..n - 1]) * 256 + bytes[n - 1]
  {
    assert bytes[..n][..n - 1] == bytes[..n - 1];
  }

  /** The bytes that say how long the payload is have arrived. */
  predicate HeaderHere(buffer: Bytes) {
    && |buffer| >= 2
    && (buffer[1] % 128 == 126 ==> |buffer| >= 4)
    && (buffer[1] % 128 == 127 ==> |buffer| >= 10)
  }

  /** The payload's length as the header's bytes say it, and where they end. */
  function WireLength(buffer: Bytes): (nat, nat)
    requires HeaderHere(buffer)
  {
    var code := buffer[1] % 128;
    if code == 126 then (buffer[2] as int * 0x100 + buffer[3], 4)
    else if code == 127 then
      (buffer[2] as int * 0x100_0000_0000_0000 + buffer[3] as int * 0x1_0000_0000_0000
       + buffer[4] as int * 0x100_0000_0000 + buffer[5] as int * 0x1_0000_0000 + buffer[6] as int * 0x100_0000
       + buffer[7] as int * 0x1_0000 + buffer[8] as int * 0x100 + buffer[9], 10)
    else (code, 2)
  }

  lemma WireLengthIsDecoded(buffer: Bytes)
    requires HeaderHere(buffer)
    ensures
      var (length, offset) := WireLength(buffer);
      DecodeLength(buffer)
      == if buffer[1] % 128 == 127 && length > MAX_SAFE_INTEGER then TooLarge else Length(length, offset)
  {
    if buffer[1] % 128 == 126 { BigEndianDigits(buffer[2..4]); }
    if buffer[1] % 128 == 127 { BigEndianDigits(buffer[2..10]); }
    hide BigEndian;
  }

  lemma MaskedOctets(mask: Bytes, masked: Bytes)
    requires |mask| == 4
    ensures forall i | 0 <= i < |masked| :: Octet(ApplyMask(mask, masked)[i]) == Octet(masked[i]) ^ Octet(mask[i % 4])
  {
    forall i | 0 <= i < |masked|
      ensures Octet(ApplyMask(mask, masked)[i]) == Octet(masked[i]) ^ Octet(mask[i % 4])
    {
      XorBytesIsBitwise(masked[i], mask[i % 4]);
      hide XorBytes, Octet;
    }
  }

  /** Where the payload of a frame starts on the wire. */
  function WireBody(buffer: Bytes): nat
    requires HeaderHere(buffer)
  {
    WireLength(buffer).1 + (if Octet(buffer[1]) & 0x80 != 0 then 4 else 0)
  }

  /**
   * Whether a frame is taken, as its bytes on the wire say, section 5.2 of RFC 6455: once all of it is there,
   * unless its length is not a safe integer or a reserved bit is set; and its flag, code and length.
   */
  lemma HeaderOnTheWire(buffer: Bytes)
    ensures !HeaderHere(buffer) ==> DecodeFrame(buffer) == Incomplete
    ensures
      HeaderHere(buffer) ==>
      var length := WireLength(buffer).0;
      var tooLarge := buffer[1] % 128 == 127 && length > MAX_SAFE_INTEGER;
      var here := |buffer| >= WireBody(buffer) + length;
      var reserved := Octet(buffer[0]) & 0x70 != 0;
      var d := DecodeFrame(buffer);
      && (d == Failed(FrameTooLarge) <==> tooLarge)
      && (d == Failed(NegotiatedRsvBits) <==> !tooLarge && here && reserved)
      && (d.Complete? <==> !tooLarge && here && !reserved)
      && (d.Complete? ==>
            && d.frameLength == WireBody(buffer) + length && |d.payload| == length
            && d.final == (Octet(buffer[0]) & 0x80 != 0) && d.opcode == Value(Octet(buffer[0]) & 0x0f))
  {
    if HeaderHere(buffer) {
      WireLengthIsDecoded(buffer);
      OctetBits(buffer[0]);
      OctetBits(buffer[1]);
    }
    hide DecodeLength, ApplyMask, Octet, Value, WireLength;
  }

  /**
   * Its payload, section 5.3: as it stands, or each octet xored with the octet of the masking key at its
   * position modulo four.
   */
  lemma PayloadOnTheWire(buffer: Bytes, i: nat)
    requires HeaderHere(buffer) && DecodeFrame(buffer).Complete? && i < |DecodeFrame(buffer).payload|
    ensures |buffer| > WireBody(buffer) + i && |buffer| > WireLength(buffer).1 + i % 4
    ensures
      var octet := Octet(DecodeFrame(buffer).payload[i]);
      if Octet(buffer[1]) & 0x80 == 0 then octet == Octet(buffer[WireBody(buffer) + i])
      else octet == Octet(buffer[WireBody(buffer) + i]) ^ Octet(buffer[WireLength(buffer).1 + i % 4])
  {
    hide *;
    WireBodyStart(buffer);
    RawPayload(buffer);
    OctetBits(buffer[1]);
    var offset, body := WireLength(buffer).1, WireBody(buffer);
    var raw := buffer[body..body + WireLength(buffer).0];
    assert raw[i] == buffer[body + i];
    if buffer[1] >= 128 {
      MaskedOctets(buffer[offset..offset + 4], raw);
      assert buffer[offset..offset + 4][i % 4] == buffer[offset + i % 4];
    }
  }

  lemma WireBodyStart(buffer: Bytes)
    requires HeaderHere(buffer)
    ensures WireBody(buffer) == WireLength(buffer).1 + (if buffer[1] >= 128 then 4 else 0)
    ensures WireLength(buffer).1 <= 10
  {
    OctetBits(buffer[1]);
    hide Octet;
  }

  lemma RawPayload(buffer: Bytes)
    requires HeaderHere(buffer) && DecodeFrame(buffer).Complete?
    ensures
      var (length, offset) := WireLength(buffer);
      var body := offset + (if buffer[1] >= 128 then 4 else 0);
      && |buffer| >= body + length && |DecodeFrame(buffer).payload| == length
      && DecodeFrame(buffer).payload
         == if buffer[1] >= 128 then ApplyMask(buffer[offset..offset + 4], buffer[body..body + length])
            else buffer[body..body + length]
  {
    WireLengthIsDecoded(buffer);
    hide DecodeLength, ApplyMask, WireLength;
  }

  lemma DecodeLengthPrefixStable(buffer: Bytes, more: Bytes)
    requires |buffer| >= 2 && !DecodeLength(buffer).NeedMore?
    ensures DecodeLength(buffer + more) == DecodeLength(buffer)
  {
    var long := buffer + more;
    assert long[1] == buffer[1];
    assert |buffer| >= 4 ==> long[2..4] == buffer[2..4];
    assert |buffer| >= 10 ==> long[2..10] == buffer[2..10];
  }

  lemma DecodeFramePrefixStable(buffer: Bytes, more: Bytes)
    requires !DecodeFrame(buffer).Incomplete?
    ensures DecodeFrame(buffer + more) == DecodeFrame(buffer)
  {
    var long := buffer + more;
    assert long[0] == buffer[0] && long[1] == buffer[1];
    DecodeLengthPrefixStable(buffer, more);
    hide DecodeLength, ApplyMask;
    match DecodeLength(buffer)
    case NeedMore =>
    case TooLarge =>
    case Length(length, offset) =>
      var body := offset + (if buffer[1] >= 128 then 4 else 0);
      assert long[body..body + length] == buffer[body..body + length];
      if buffer[1] >= 128 {
        assert long[offset..offset + 4] == buffer[offset..offset + 4];
      }
  }

  // ------------------------------------------------------------ the parser

  datatype Parser = Parser(
    buffer: Bytes,
    fragmentOpcode: Option<nat>,
    fragments: seq<Bytes>,
    fragmentFrameBytes: nat,
    fragmentFrameCount: nat)
  {
    /** No fragment is pending unless a fragmented message is open. */
    ghost predicate Consistent() {
      fragmentOpcode.None? ==> fragments == [] && fragmentFrameBytes == 0 && fragmentFrameCount == 0
    }

    /** The loop has consumed every complete frame it has seen. */
    ghost predicate Drained() {
      DecodeFrame(buffer).Incomplete?
    }
  }

  const EMPTY := Parser([], None, [], 0, 0)

  datatype Outcome = Outcome(parser: Parser, messages: seq<Message>, error: Option<ParseError>)

  function Accept(p: Parser, opcode: nat, final: bool, payload: Bytes, frameLength: nat): (r: Outcome)
    ensures r.parser.buffer == p.buffer
    ensures r.error.Some? ==> r.messages == []
  {
    if opcode == 8 || opcode == 9 || opcode == 10 then
      Outcome(p, [Message(opcode, payload, frameLength, 1)], None)
    else if opcode == 0 then
      if p.fragmentOpcode.None? then Outcome(p, [], Some(UnexpectedContinuation))
      else
        var q := p.(
          fragments := p.fragments + [payload],
          fragmentFrameBytes := p.fragmentFrameBytes + frameLength,
          fragmentFrameCount := p.fragmentFrameCount + 1);
        if final then
          Outcome(
            EMPTY.(buffer := p.buffer),
            [Message(p.fragmentOpcode.value, Flatten(q.fragments), q.fragmentFrameBytes, q.fragmentFrameCount)],
            None)
        else Outcome(q, [], None)
    else if opcode != 1 && opcode != 2 then Outcome(p, [], Some(UnsupportedOpcode(opcode)))
    else if !final then
      if p.fragmentOpcode.Some? then Outcome(p, [], Some(NestedFragment))
      else Outcome(Parser(p.buffer, Some(opcode), [payload], frameLength, 1), [], None)
    else Outcome(p, [Message(opcode, payload, frameLength, 1)], None)
  }

  /**
   * Which frames are refused, and no others: a continuation of nothing, a first fragment while another message
   * is open, and any code but the six known ones. A refused frame changes nothing.
   */
  lemma RefusedExactly(p: Parser, opcode: nat, final: bool, payload: Bytes, frameLength: nat)
    ensures
      var o := Accept(p, opcode, final, payload, frameLength);
      && (o.error == Some(UnexpectedContinuation) <==> opcode == 0 && p.fragmentOpcode == None)
      && (o.error == Some(NestedFragment) <==> (opcode == 1 || opcode == 2) && !final && p.fragmentOpcode.Some?)
      && (o.error == Some(UnsupportedOpcode(opcode)) <==> opcode !in {0, 1, 2, 8, 9, 10})
      && (o.error.Some? ==> o.parser == p)
  {}

  /** Runs the parser's loop until it needs more bytes or throws. */
  function Drain(p: Parser): Outcome
    decreases |p.buffer|
  {
    match DecodeFrame(p.buffer)
    case Incomplete => Outcome(p, [], None)
    case Failed(error) => Outcome(p, [], Some(error))
    case Complete(opcode, final, payload, frameLength) =>
      var accepted := Accept(p.(buffer := p.buffer[frameLength..]), opcode, final, payload, frameLength);
      if accepted.error.Some? then accepted else Prepend(accepted.messages, Drain(accepted.parser))
  }

  lemma DrainTurn(p: Parser)
    ensures
      var d := DecodeFrame(p.buffer);
      && (|p.buffer| < 2 ==> d.Incomplete?)
      && (d.Incomplete? ==> Drain(p) == Outcome(p, [], None))
      && (d.Failed? ==> Drain(p) == Outcome(p, [], Some(d.error)))
      && (d.Complete? ==>
            var accepted :=
              Accept(p.(buffer := p.buffer[d.frameLength..]), d.opcode, d.final, d.payload, d.frameLength);
            Drain(p) == if accepted.error.Some? then accepted else Prepend(accepted.messages, Drain(accepted.parser)))
  {}

  function Prepend(messages: seq<Message>, o: Outcome): Outcome {
    o.(messages := messages + o.messages)
  }

  lemma PrependTwice(a: seq<Message>, b: seq<Message>, o: Outcome)
    ensures Prepend(a, Prepend(b, o)) == Prepend(a + b, o)
  {
    assert a + (b + o.messages) == (a + b) + o.messages;
  }

  lemma PrependNothing(o: Outcome)
    ensures Prepend([], o) == o
  {
    assert [] + o.messages == o.messages;
  }

  function Feed(p: Parser, bytes: Bytes): Outcome {
    Drain(p.(buffer := p.buffer + bytes))
  }

  /** A connection's pushes in order; nothing is pushed after the first error. */
  function FeedAll(p: Parser, chunks: seq<Bytes>): Outcome
    decreases |chunks|
  {
    if chunks == [] then Outcome(p, [], None)
    else
      var head := Feed(p, chunks[0]);
      if head.error.Some? then head else Prepend(head.messages, FeedAll(head.parser, chunks[1..]))
  }

  /** Same callbacks, same first error, and the same residual state unless there was an error. */
  ghost predicate SameVerdict(a: Outcome, b: Outcome) {
    && a.messages == b.messages
    && a.error == b.error
    && (a.error.None? ==> a.parser == b.parser)
  }

  // ------------------------------------------------------- chunk invariance

  lemma {:induction false} DrainReachesDrained(p: Parser)
    requires p.Consistent()
    ensures Drain(p).error.None? ==> Drain(p).parser.Drained() && Drain(p).parser.Consistent()
    decreases |p.buffer|
  {
    var d := DecodeFrame(p.buffer);
    if d.Complete? {
      var accepted := Accept(p.(buffer := p.buffer[d.frameLength..]), d.opcode, d.final, d.payload, d.frameLength);
      if accepted.error.None? {
        DrainReachesDrained(accepted.parser);
      }
    }
  }

  /** Bytes that arrive after a drain could as well have been there before it. */
  lemma {:induction false} DrainThenFeed(p: Parser, more: Bytes)
    ensures
      var first, whole := Drain(p), Drain(p.(buffer := p.buffer + more));
      if first.error.Some? then whole.messages == first.messages && whole.error == first.error
      else whole == Prepend(first.messages, Feed(first.parser, more))
    decreases |p.buffer|
  {
    var d := DecodeFrame(p.buffer);
    hide DecodeFrame;
    if d.Incomplete? {
    } else {
      DecodeFramePrefixStable(p.buffer, more);
      if d.Complete? {
        var rest := p.buffer[d.frameLength..];
        var accepted := Accept(p.(buffer := rest), d.opcode, d.final, d.payload, d.frameLength);
        assert (p.buffer + more)[d.frameLength..] == rest + more;
        assert Accept(p.(buffer := rest + more), d.opcode, d.final, d.payload, d.frameLength)
            == accepted.(parser := accepted.parser.(buffer := rest + more));
        if accepted.error.None? {
          DrainThenFeed(accepted.parser, more);
          var later := Drain(accepted.parser);
          hide Accept;
          if later.error.None? {
            PrependTwice(accepted.messages, later.messages, Feed(later.parser, more));
          }
        }
      }
    }
  }

  lemma FeedSplits(p: Parser, first: Bytes, second: Bytes)
    requires p.Consistent()
    ensures
      var whole, head := Feed(p, first + second), Feed(p, first);
      && SameVerdict(whole, if head.error.Some? then head else Prepend(head.messages, Feed(head.parser, second)))
      && (head.error.None? ==> head.parser.Drained() && head.parser.Consistent())
  {
    hide Drain;
    var joined := p.(buffer := p.buffer + first);
    DrainThenFeed(joined, second);
    assert joined.buffer + second == p.buffer + (first + second);
    DrainReachesDrained(joined);
  }

  /** However a stream is cut into pushes, the parser behaves as for one push of the whole stream. */
  lemma {:induction false} ChunkInvariance(p: Parser, chunks: seq<Bytes>)
    requires p.Drained() && p.Consistent()
    ensures SameVerdict(FeedAll(p, chunks), Feed(p, Flatten(chunks)))
    decreases |chunks|
  {
    if chunks == [] {
      assert p.buffer + [] == p.buffer;
    } else {
      hide Feed;
      FeedSplits(p, chunks[0], Flatten(chunks[1..]));
      var head := Feed(p, chunks[0]);
      if head.error.None? {
        ChunkInvariance(head.parser, chunks[1..]);
      }
    }
  }

  lemma SplitsAgree(chunks: seq<Bytes>, others: seq<Bytes>)
    requires Flatten(chunks) == Flatten(others)
    ensures SameVerdict(FeedAll(EMPTY, chunks), FeedAll(EMPTY, others))
  {
    ChunkInvariance(EMPTY, chunks);
    ChunkInvariance(EMPTY, others);
  }

  // ------------------------------------------------------ byte conservation

  function FrameBytes(messages: seq<Message>): nat {
    if messages == [] then 0 else messages[0].frameBytes + FrameBytes(messages[1..])
  }

  lemma {:induction false} FrameBytesAppend(a: seq<Message>, b: seq<Message>)
    ensures FrameBytes(a + b) == FrameBytes(a) + FrameBytes(b)
  {
    if a == [] {
      assert a + b == b;
    } else {
      FrameBytesAppend(a[1..], b);
      assert (a + b)[1..] == a[1..] + b;
    }
  }

  /** Without an error every byte is reported, in a pending fragment, or still buffered. */
  lemma {:induction false} BytesConserved(p: Parser)
    requires p.Consistent()
    ensures
      var o := Drain(p);
      var accounted := FrameBytes(o.messages) + o.parser.fragmentFrameBytes + |o.parser.buffer|;
      if o.error.None? then accounted == p.fragmentFrameBytes + |p.buffer|
      else accounted <= p.fragmentFrameBytes + |p.buffer|
    decreases |p.buffer|
  {
    hide DecodeFrame;
    var d := DecodeFrame(p.buffer);
    if d.Complete? {
      var accepted := Accept(p.(buffer := p.buffer[d.frameLength..]), d.opcode, d.final, d.payload, d.frameLength);
      if accepted.error.None? {
        BytesConserved(accepted.parser);
        FrameBytesAppend(accepted.messages, Drain(accepted.parser).messages);
      }
    }
  }

  lemma StreamBytesConserved(chunks: seq<Bytes>)
    ensures
      var o := FeedAll(EMPTY, chunks);
      o.error.None? ==>
        FrameBytes(o.messages) + o.parser.fragmentFrameBytes + |o.parser.buffer| == |Flatten(chunks)|
  {
    ChunkInvariance(EMPTY, chunks);
    BytesConserved(EMPTY.(buffer := [] + Flatten(chunks)));
  }

  // ------------------------------------------- well-formed streams (RFC 6455)

  /** A sender may use any length field that is wide enough. */
  datatype LengthForm = Short | Medium | Long

  datatype AnyBody = Body(mask: Option<Bytes>, form: LengthForm, payload: Bytes) {
    predicate Encodable() {
      && (mask.Some? ==> |mask.value| == 4)
      && |payload| <= MAX_SAFE_INTEGER
      && match form
         case Short => |payload| < 126
         case Medium => |payload| < 0x1_0000
         case Long => true
    }
  }

  type Body = b: AnyBody | b.Encodable() witness Body(None, Short, [])

  type Opcode = o: nat | o < 16

  type ControlOpcode = o: Opcode | o == 8 || o == 9 || o == 10 witness 8

  type DataOpcode = o: Opcode | o == 1 || o == 2 witness 1

  function LengthBytes(body: Body): Bytes {
    var maskBit := if body.mask.Some? then 128 else 0;
    match body.form
    case Short => [maskBit + |body.payload|]
    case Medium => [maskBit + 126] + ToBigEndian(2, |body.payload|)
    case Long => [maskBit + 127] + ToBigEndian(8, |body.payload|)
  }

  function Encode(final: bool, opcode: Opcode, body: Body): Bytes {
    [(if final then 128 else 0) + opcode] + LengthBytes(body) + BodyBytes(body)
  }

  /** The sender's side, section 5.3 of RFC 6455: octet i is xored with octet i modulo 4 of the masking key. */
  function Transformed(key: Bytes, original: Bytes): (r: Bytes)
    requires |key| == 4
    ensures |r| == |original|
  {
    seq(|original|, i requires 0 <= i < |original| => Value(Octet(original[i]) ^ Octet(key[i % 4])))
  }

  /** What the sender does with bitwise operations the parser undoes. */
  lemma MaskIsTransformation(key: Bytes, original: Bytes)
    requires |key| == 4
    ensures Transformed(key, original) == ApplyMask(key, original)
  {
    forall i | 0 <= i < |original|
      ensures Transformed(key, original)[i] == ApplyMask(key, original)[i]
    {
      XorBytesIsBitwise(original[i], key[i % 4]);
      ValueOfOctet(XorBytes(original[i], key[i % 4]));
      hide XorBytes, Octet, Value;
    }
  }

  function BodyBytes(body: Body): Bytes {
    if body.mask.Some? then body.mask.value + Transformed(body.mask.value, body.payload) else body.payload
  }

  lemma DecodeLengthOfEncode(first: Byte, body: Body, rest: Bytes)
    ensures |LengthBytes(body)| == (match body.form case Short => 1 case Medium => 3 case Long => 9)
    ensures DecodeLength([first] + LengthBytes(body) + rest) == Length(|body.payload|, 1 + |LengthBytes(body)|)
    ensures ([first] + LengthBytes(body) + rest)[1] >= 128 <==> body.mask.Some?
  {
    hide BigEndian, ToBigEndian;
    var stream := [first] + LengthBytes(body) + rest;
    var lead := [first, LengthBytes(body)[0]];
    assert stream[1] == LengthBytes(body)[0];
    match body.form
    case Short =>
    case Medium =>
      var field := ToBigEndian(2, |body.payload|);
      assert Power256(2) == 0x1_0000;
      BigEndianRoundTrip(2, |body.payload|);
      assert stream == lead + field + rest;
      Middle(lead, field, rest);
    case Long =>
      var field := ToBigEndian(8, |body.payload|);
      assert Power256(4) == 0x1_0000_0000;
      assert Power256(8) == 0x1_0000_0000_0000_0000;
      BigEndianRoundTrip(8, |body.payload|);
      assert stream == lead + field + rest;
      Middle(lead, field, rest);
  }

  /** Where the mask and the payload sit behind any header. */
  lemma BodySlices(head: Bytes, body: Body, rest: Bytes)
    ensures
      var stream, offset, length := head + BodyBytes(body) + rest, |head|, |body.payload|;
      if body.mask.Some? then
        && |BodyBytes(body)| == 4 + length
        && stream[offset..offset + 4] == body.mask.value
        && stream[offset + 4..offset + 4 + length] == ApplyMask(body.mask.value, body.payload)
      else |BodyBytes(body)| == length && stream[offset..offset + length] == body.payload
  {
    if body.mask.Some? { MaskIsTransformation(body.mask.value, body.payload); }
    hide ApplyMask, Transformed;
  }

  lemma DecodeFromParts(stream: Bytes, final: bool, opcode: Opcode, offset: nat, body: Body)
    requires |stream| >= 2 && stream[0] == (if final then 128 else 0) + opcode
    requires DecodeLength(stream) == Length(|body.payload|, offset) && (stream[1] >= 128 <==> body.mask.Some?)
    requires |stream| >= offset + (if body.mask.Some? then 4 else 0) + |body.payload|
    requires
      if body.mask.Some? then
        && stream[offset..offset + 4] == body.mask.value
        && stream[offset + 4..offset + 4 + |body.payload|] == ApplyMask(body.mask.value, body.payload)
      else stream[offset..offset + |body.payload|] == body.payload
    ensures DecodeFrame(stream)
         == Complete(opcode, final, body.payload, offset + (if body.mask.Some? then 4 else 0) + |body.payload|)
  {
    if body.mask.Some? {
      MaskInvolution(body.mask.value, body.payload);
    }
    hide DecodeLength, ApplyMask;
  }

  lemma DecodeUndoesEncode(final: bool, opcode: Opcode, body: Body, rest: Bytes)
    ensures DecodeFrame(Encode(final, opcode, body) + rest)
         == Complete(opcode, final, body.payload, |Encode(final, opcode, body)|)
  {
    hide DecodeFrame, BodyBytes, ApplyMask, DecodeLength, LengthBytes;
    var first := (if final then 128 else 0) + opcode;
    var head := [first] + LengthBytes(body);
    var stream := head + BodyBytes(body) + rest;
    BodySlices(head, body, rest);
    assert stream == head + (BodyBytes(body) + rest);
    DecodeLengthOfEncode(first, body, BodyBytes(body) + rest);
    DecodeFromParts(stream, final, opcode, |head|, body);
  }

  datatype Control = Control(opcode: ControlOpcode, body: Body)

  /** Control frames that interleave, then one more fragment of the open message. */
  datatype Continuation = Continuation(controls: seq<Control>, body: Body)

  /** A well-formed stream is any sequence of these; the last fragment of a message carries FIN. */
  datatype Item =
    | ControlItem(control: Control)
    | Whole(opcode: DataOpcode, body: Body)
    | Fragmented(opcode: DataOpcode, first: Body, middle: seq<Continuation>, last: Continuation)

  function ControlBytes(controls: seq<Control>): Bytes {
    if controls == [] then []
    else Encode(true, controls[0].opcode, controls[0].body) + ControlBytes(controls[1..])
  }

  function ControlMessages(controls: seq<Control>): seq<Message> {
    if controls == [] then []
    else
      var c := controls[0];
      [Message(c.opcode, c.body.payload, |Encode(true, c.opcode, c.body)|, 1)] + ControlMessages(controls[1..])
  }

  function ContinuationBytes(final: bool, c: Continuation): Bytes {
    ControlBytes(c.controls) + Encode(final, 0, c.body)
  }

  function MiddleBytes(middle: seq<Continuation>): Bytes {
    if middle == [] then [] else ContinuationBytes(false, middle[0]) + MiddleBytes(middle[1..])
  }

  function MiddleControls(middle: seq<Continuation>): seq<Message> {
    if middle == [] then [] else ControlMessages(middle[0].controls) + MiddleControls(middle[1..])
  }

  function MiddlePayloads(middle: seq<Continuation>): seq<Bytes> {
    seq(|middle|, i requires 0 <= i < |middle| => middle[i].body.payload)
  }

  function MiddleFrameBytes(middle: seq<Continuation>): nat {
    if middle == [] then 0 else |Encode(false, 0, middle[0].body)| + MiddleFrameBytes(middle[1..])
  }

  function ItemBytes(item: Item): Bytes {
    match item
    case ControlItem(control) => ControlBytes([control])
    case Whole(opcode, body) => Encode(true, opcode, body)
    case Fragmented(opcode, first, middle, last) =>
      Encode(false, opcode, first) + (MiddleBytes(middle) + ContinuationBytes(true, last))
  }

  /** What the sender of an item meant, said without reference to the parser. */
  function ItemMessages(item: Item): seq<Message> {
    match item
    case ControlItem(control) => ControlMessages([control])
    case Whole(opcode, body) => [Message(opcode, body.payload, |Encode(true, opcode, body)|, 1)]
    case Fragmented(opcode, first, middle, last) =>
      MiddleControls(middle) + ControlMessages(last.controls)
      + [Message(
           opcode,
           Flatten([first.payload] + MiddlePayloads(middle) + [last.body.payload]),
           |Encode(false, opcode, first)| + MiddleFrameBytes(middle) + |Encode(true, 0, last.body)|,
           2 + |middle|)]
  }

  function StreamBytes(items: seq<Item>): Bytes {
    if items == [] then [] else ItemBytes(items[0]) + StreamBytes(items[1..])
  }

  function StreamMessages(items: seq<Item>): seq<Message> {
    if items == [] then [] else ItemMessages(items[0]) + StreamMessages(items[1..])
  }

  /** One turn of the loop on an encoded frame. */
  lemma DrainFrame(p: Parser, final: bool, opcode: Opcode, body: Body, rest: Bytes)
    requires p.buffer == Encode(final, opcode, body) + rest
    ensures
      var accepted := Accept(p.(buffer := rest), opcode, final, body.payload, |Encode(final, opcode, body)|);
      Drain(p) == if accepted.error.Some? then accepted else Prepend(accepted.messages, Drain(accepted.parser))
  {
    DecodeUndoesEncode(final, opcode, body, rest);
    assert p.buffer[|Encode(final, opcode, body)|..] == rest;
  }

  lemma {:induction false} DrainControls(p: Parser, controls: seq<Control>, rest: Bytes)
    requires p.buffer == ControlBytes(controls) + rest
    ensures Drain(p) == Prepend(ControlMessages(controls), Drain(p.(buffer := rest)))
    decreases |controls|
  {
    hide Drain, Encode;
    if controls == [] {
      assert p.buffer == rest;
    } else {
      var tail := ControlBytes(controls[1..]) + rest;
      assert p.buffer == Encode(true, controls[0].opcode, controls[0].body) + tail;
      DrainFrame(p, true, controls[0].opcode, controls[0].body, tail);
      DrainControls(p.(buffer := tail), controls[1..], rest);
    }
  }

  /** The open message after one more fragment. */
  function Extend(p: Parser, c: Continuation, final: bool, rest: Bytes): Parser {
    Parser(
      rest,
      p.fragmentOpcode,
      p.fragments + [c.body.payload],
      p.fragmentFrameBytes + |Encode(final, 0, c.body)|,
      p.fragmentFrameCount + 1)
  }

  lemma DrainContinuation(p: Parser, c: Continuation, final: bool, rest: Bytes)
    requires p.fragmentOpcode.Some?
    requires p.buffer == ContinuationBytes(final, c) + rest
    ensures
      var q := Extend(p, c, final, rest);
      Drain(p) == Prepend(
        ControlMessages(c.controls),
        if final then
          Prepend(
            [Message(p.fragmentOpcode.value, Flatten(q.fragments), q.fragmentFrameBytes, q.fragmentFrameCount)],
            Drain(EMPTY.(buffer := rest)))
        else Drain(q))
  {
    hide Drain, Encode;
    var frame := Encode(final, 0, c.body);
    assert p.buffer == ControlBytes(c.controls) + (frame + rest);
    hide ControlBytes, ControlMessages, Prepend;
    PrependNothing(Drain(Extend(p, c, final, rest)));
    DrainControls(p, c.controls, frame + rest);
    DrainFrame(p.(buffer := frame + rest), final, 0, c.body, rest);
  }

  lemma {:induction false} DrainMiddle(p: Parser, middle: seq<Continuation>, rest: Bytes)
    requires p.fragmentOpcode.Some?
    requires p.buffer == MiddleBytes(middle) + rest
    ensures
      var q := Parser(
        rest,
        p.fragmentOpcode,
        p.fragments + MiddlePayloads(middle),
        p.fragmentFrameBytes + MiddleFrameBytes(middle),
        p.fragmentFrameCount + |middle|);
      Drain(p) == Prepend(MiddleControls(middle), Drain(q))
    decreases |middle|
  {
    hide Drain, Encode, ContinuationBytes, ControlMessages, Prepend;
    if middle == [] {
      assert p.buffer == rest && p.fragments + [] == p.fragments;
      PrependNothing(Drain(p));
    } else {
      var c, tail := middle[0], MiddleBytes(middle[1..]) + rest;
      assert p.buffer == ContinuationBytes(false, c) + tail;
      DrainContinuation(p, c, false, tail);
      var q := Extend(p, c, false, tail);
      DrainMiddle(q, middle[1..], rest);
      assert q.fragments + MiddlePayloads(middle[1..]) == p.fragments + MiddlePayloads(middle);
      var end := Parser(
        rest,
        p.fragmentOpcode,
        p.fragments + MiddlePayloads(middle),
        p.fragmentFrameBytes + MiddleFrameBytes(middle),
        p.fragmentFrameCount + |middle|);
      PrependTwice(ControlMessages(c.controls), MiddleControls(middle[1..]), Drain(end));
    }
  }

  lemma DrainFragmented(item: Item, rest: Bytes)
    requires item.Fragmented?
    ensures Drain(EMPTY.(buffer := ItemBytes(item) + rest))
         == Prepend(ItemMessages(item), Drain(EMPTY.(buffer := rest)))
  {
    hide Drain, Encode, ContinuationBytes, ControlMessages, Prepend, MiddleBytes, MiddleControls, Flatten;
    var p := EMPTY.(buffer := ItemBytes(item) + rest);
    var frame := Encode(false, item.opcode, item.first);
    var tail := ContinuationBytes(true, item.last) + rest;
    assert p.buffer == frame + (MiddleBytes(item.middle) + tail);
    DrainFrame(p, false, item.opcode, item.first, MiddleBytes(item.middle) + tail);
    var unfinished := Parser(MiddleBytes(item.middle) + tail, Some(item.opcode), [item.first.payload], |frame|, 1);
    PrependNothing(Drain(unfinished));
    DrainMiddle(unfinished, item.middle, tail);
    var q := Parser(
      tail,
      Some(item.opcode),
      [item.first.payload] + MiddlePayloads(item.middle),
      |frame| + MiddleFrameBytes(item.middle),
      1 + |item.middle|);
    DrainContinuation(q, item.last, true, rest);
    var complete := ItemMessages(item)[|ItemMessages(item)| - 1];
    var done := Drain(EMPTY.(buffer := rest));
    PrependTwice(ControlMessages(item.last.controls), [complete], done);
    PrependTwice(MiddleControls(item.middle), ControlMessages(item.last.controls) + [complete], done);
    assert MiddleControls(item.middle) + (ControlMessages(item.last.controls) + [complete]) == ItemMessages(item);
  }

  lemma DrainItem(item: Item, rest: Bytes)
    ensures Drain(EMPTY.(buffer := ItemBytes(item) + rest))
         == Prepend(ItemMessages(item), Drain(EMPTY.(buffer := rest)))
  {
    hide Drain, Encode;
    var p := EMPTY.(buffer := ItemBytes(item) + rest);
    match item
    case ControlItem(control) => DrainControls(p, [control], rest);
    case Whole(opcode, body) => DrainFrame(p, true, opcode, body, rest);
    case Fragmented(_, _, _, _) => DrainFragmented(item, rest);
  }

  /** Parsing undoes serialization: a well-formed stream yields exactly its messages and no residue. */
  lemma {:induction false} ParseUndoesSerialize(items: seq<Item>)
    ensures Feed(EMPTY, StreamBytes(items)) == Outcome(EMPTY, StreamMessages(items), None)
  {
    hide Drain, ItemBytes, ItemMessages;
    assert EMPTY.(buffer := EMPTY.buffer + StreamBytes(items)) == EMPTY.(buffer := StreamBytes(items));
    if items == [] {
      DrainTurn(EMPTY);
    } else {
      var tail := StreamBytes(items[1..]);
      DrainItem(items[0], tail);
      assert EMPTY.(buffer := EMPTY.buffer + tail) == EMPTY.(buffer := tail);
      ParseUndoesSerialize(items[1..]);
    }
  }

  /** ... and that holds under every chunking of the stream. */
  lemma ParseUndoesSerializeInChunks(items: seq<Item>, chunks: seq<Bytes>)
    requires Flatten(chunks) == StreamBytes(items)
    ensures FeedAll(EMPTY, chunks) == Outcome(EMPTY, StreamMessages(items), None)
  {
    ChunkInvariance(EMPTY, chunks);
    ParseUndoesSerialize(items);
  }

  // ------------------------------------------------- the parser in place

  class WebSocketFrameParser {
    var buffer: Bytes
    var fragmentOpcode: Option<nat>
    var fragments: seq<Bytes>
    var fragmentFrameBytes: nat
    var fragmentFrameCount: nat
    /** Every call made to the message callback so far. */
    var delivered: seq<Message>

    ghost function State(): Parser
      reads this
    {
      Parser(buffer, fragmentOpcode, fragments, fragmentFrameBytes, fragmentFrameCount)
    }

    constructor ()
      ensures State() == EMPTY && delivered == []
    {
      buffer, fragmentOpcode, fragments := [], None, [];
      fragmentFrameBytes, fragmentFrameCount, delivered := 0, 0, [];
    }

    method Push(bytes: Bytes) returns (error: Option<ParseError>)
      modifies this
      ensures
        var o := Feed(old(State()), bytes);
        State() == o.parser && delivered == old(delivered) + o.messages && error == o.error
    {
      ghost var target := Feed(State(), bytes);
      buffer := if |buffer| == 0 then bytes else buffer + bytes;
      assert buffer == old(buffer) + bytes;
      error := None;
      hide Drain, DecodeFrame, Accept;
      var again := true;
      while again && |buffer| >= 2
        invariant again ==>
          && error.None?
          && target.parser == Drain(State()).parser && target.error == Drain(State()).error
          && old(delivered) + target.messages == delivered + Drain(State()).messages
        invariant !again ==>
          State() == target.parser && error == target.error && delivered == old(delivered) + target.messages
        decreases |buffer|, again
      {
        again, error := TakeFrame();
      }
      if again {
        DrainTurn(State());
      }
    }

    /** One turn of the loop: `again` when a frame was taken and accepted. */
    method TakeFrame() returns (again: bool, error: Option<ParseError>)
      requires |buffer| >= 2
      modifies this
      ensures again ==>
        && error.None? && |buffer| < old(|buffer|)
        && Drain(old(State())).parser == Drain(State()).parser && Drain(old(State())).error == Drain(State()).error
        && old(delivered) + Drain(old(State())).messages == delivered + Drain(State()).messages
      ensures !again ==>
        && |buffer| <= old(|buffer|)
        && State() == Drain(old(State())).parser && error == Drain(old(State())).error
        && delivered == old(delivered) + Drain(old(State())).messages
    {
      hide Drain, DecodeFrame, Accept;
      DrainTurn(State());
      var frame := FrontFrame();
      if frame.Incomplete? { return false, None; }
      if frame.Failed? { return false, Some(frame.error); }
      buffer := buffer[frame.frameLength..];
      ghost var accepted := Accept(State(), frame.opcode, frame.final, frame.payload, frame.frameLength);
      error := AcceptFrame(frame.opcode, frame.final, frame.payload, frame.frameLength);
      again := error.None?;
      ghost var sofar, later := old(delivered), Drain(accepted.parser).messages;
      assert (sofar + accepted.messages) + later == sofar + (accepted.messages + later);
    }

    /** Reads the frame at the front of the buffer, unmasked, if all of it has arrived. */
    method FrontFrame() returns (frame: Decoded)
      requires |buffer| >= 2
      ensures frame == DecodeFrame(buffer)
    {
      hide BigEndian, ApplyMask;
      var first, second := buffer[0], buffer[1];
      var payloadLength, offset := second % 128, 2;
      if payloadLength == 126 {
        if |buffer| < 4 { return Incomplete; }
        payloadLength, offset := BigEndian(buffer[2..4]), 4;
      } else if payloadLength == 127 {
        if |buffer| < 10 { return Incomplete; }
        var extended := BigEndian(buffer[2..10]);
        if extended > MAX_SAFE_INTEGER { return Failed(FrameTooLarge); }
        payloadLength, offset := extended, 10;
      }
      var masked := second >= 128;
      var frameLength := offset + (if masked then 4 else 0) + payloadLength;
      if |buffer| < frameLength { return Incomplete; }
      if (first / 16) % 8 != 0 { return Failed(NegotiatedRsvBits); }
      var payload := buffer[frameLength - payloadLength..frameLength];
      if masked {
        payload := Unmask(buffer[offset..offset + 4], payload);
      }
      frame := Complete(first % 16, first >= 128, payload, frameLength);
    }

    static method Unmask(mask: Bytes, masked: Bytes) returns (payload: Bytes)
      requires |mask| == 4
      ensures payload == ApplyMask(mask, masked)
    {
      payload := masked;
      for index := 0 to |payload|
        invariant |payload| == |masked|
        invariant forall i | 0 <= i < index :: payload[i] == ApplyMask(mask, masked)[i]
        invariant forall i | index <= i < |masked| :: payload[i] == masked[i]
      {
        payload := payload[index := XorBytes(payload[index], mask[index % 4])];
      }
    }

    method AcceptFrame(opcode: nat, final: bool, payload: Bytes, frameLength: nat)
      returns (error: Option<ParseError>)
      modifies this
      ensures
        var o := Accept(old(State()), opcode, final, payload, frameLength);
        State() == o.parser && delivered == old(delivered) + o.messages && error == o.error
    {
      error := None;
      if opcode == 8 || opcode == 9 || opcode == 10 {
        delivered := delivered + [Message(opcode, payload, frameLength, 1)];
      } else if opcode == 0 {
        if fragmentOpcode.None? { return Some(UnexpectedContinuation); }
        fragments := fragments + [payload];
        fragmentFrameBytes := fragmentFrameBytes + frameLength;
        fragmentFrameCount := fragmentFrameCount + 1;
        if final {
          var complete := Message(fragmentOpcode.value, Flatten(fragments), fragmentFrameBytes, fragmentFrameCount);
          fragmentOpcode, fragments, fragmentFrameBytes, fragmentFrameCount := None, [], 0, 0;
          delivered := delivered + [complete];
        }
      } else if opcode != 1 && opcode != 2 {
        return Some(UnsupportedOpcode(opcode));
      } else if !final {
        if fragmentOpcode.Some? { return Some(NestedFragment); }
        fragmentOpcode, fragments, fragmentFrameBytes, fragmentFrameCount := Some(opcode), [payload], frameLength, 1;
      } else {
        delivered := delivered + [Message(opcode, payload, frameLength, 1)];
      }
    }
  }
}
