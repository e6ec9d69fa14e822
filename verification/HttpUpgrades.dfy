/** The HTTP upgrade that precedes the frames of a connection, and how it hands over to the parser. */
module HttpUpgrades {
  import opened Basics
  import opened WebSocketFrames

  const MAX_HTTP_HEADER_BYTES: nat := 64 * 1024

  const HTTP_HEADER_END: Bytes := [13, 10, 13, 10]

  const CRLF: Bytes := [13, 10]

  /** The first position at or after `from` where `pattern` occurs. */
  function IndexOf(bytes: Bytes, pattern: Bytes, from: nat): (r: Option<nat>)
    requires from <= |bytes|
    ensures r.Some? ==> from <= r.value && r.value + |pattern| <= |bytes|
    decreases |bytes| - from
  {
    if from + |pattern| > |bytes| then None
    else if bytes[from..from + |pattern|] == pattern then Some(from)
    else if from == |bytes| then None
    else IndexOf(bytes, pattern, from + 1)
  }

  /** The pattern stands at a position. */
  predicate OccursAt(bytes: Bytes, pattern: Bytes, i: nat) {
    i + |pattern| <= |bytes| && bytes[i..i + |pattern|] == pattern
  }

  lemma {:induction false} IndexOfIsFirst(bytes: Bytes, pattern: Bytes, from: nat)
    requires from <= |bytes|
    ensures
      match IndexOf(bytes, pattern, from)
      case None => forall i: nat | i >= from :: !OccursAt(bytes, pattern, i)
      case Some(first) =>
        OccursAt(bytes, pattern, first) && forall i: nat | from <= i < first :: !OccursAt(bytes, pattern, i)
    decreases |bytes| - from
  {
    if from + |pattern| <= |bytes| && bytes[from..from + |pattern|] != pattern && from < |bytes| {
      IndexOfIsFirst(bytes, pattern, from + 1);
    }
  }

  lemma FoundFirst(bytes: Bytes, pattern: Bytes, at: nat)
    requires OccursAt(bytes, pattern, at) && forall i: nat | i < at :: !OccursAt(bytes, pattern, i)
    ensures IndexOf(bytes, pattern, 0) == Some(at)
  {
    IndexOfIsFirst(bytes, pattern, 0);
    hide OccursAt, IndexOf;
  }

  /** More bytes do not move a match, and a match they complete reaches past the old end. */
  lemma {:induction false} IndexOfExtends(bytes: Bytes, more: Bytes, pattern: Bytes, from: nat)
    requires from <= |bytes|
    ensures
      var short, long := IndexOf(bytes, pattern, from), IndexOf(bytes + more, pattern, from);
      if short.Some? then long == short
      else long.Some? ==> long.value + |pattern| > |bytes|
    decreases |bytes| - from
  {
    if from + |pattern| <= |bytes| {
      assert (bytes + more)[from..from + |pattern|] == bytes[from..from + |pattern|];
      if bytes[from..from + |pattern|] != pattern && from < |bytes| {
        IndexOfExtends(bytes, more, pattern, from + 1);
      }
    }
  }

  // ---------------------------------------------------------- request line

  /** The whitespace of `\s` among latin-1 characters. */
  predicate IsSpace(b: Byte) {
    9 <= b <= 13 || b == 32 || b == 160
  }

  function SpanSpace(bytes: Bytes): (n: nat)
    ensures n <= |bytes|
    ensures forall i | 0 <= i < n :: IsSpace(bytes[i])
    ensures n < |bytes| ==> !IsSpace(bytes[n])
  {
    if bytes == [] || !IsSpace(bytes[0]) then 0 else 1 + SpanSpace(bytes[1..])
  }

  function SpanText(bytes: Bytes): (n: nat)
    ensures n <= |bytes|
    ensures forall i | 0 <= i < n :: !IsSpace(bytes[i])
    ensures n < |bytes| ==> IsSpace(bytes[n])
  {
    if bytes == [] || IsSpace(bytes[0]) then 0 else 1 + SpanText(bytes[1..])
  }

  const GET: Bytes := [71, 69, 84]

  const HTTP_1: Bytes := [72, 84, 84, 80, 47, 49, 46]

  predicate IsVersion(tail: Bytes) {
    tail == HTTP_1 + [48] || tail == HTTP_1 + [49]
  }

  /** The request line's path, if the line is a WebSocket upgrade request. */
  function Classify(line: Bytes): Option<Bytes> {
    if !(GET <= line) then None
    else
      var rest := line[3..];
      var a := SpanSpace(rest);
      var b := SpanText(rest[a..]);
      var c := SpanSpace(rest[a..][b..]);
      if a > 0 && b > 0 && c > 0 && IsVersion(rest[a..][b..][c..]) then Some(rest[a..][..b]) else None
  }

  /** The pattern `^GET\s+(\S+)\s+HTTP\/1\.[01]$` with its capture. */
  ghost predicate Matches(line: Bytes, before: Bytes, path: Bytes, after: Bytes, version: Bytes) {
    && line == GET + (before + (path + (after + version)))
    && before != [] && (forall i | 0 <= i < |before| :: IsSpace(before[i]))
    && path != [] && (forall i | 0 <= i < |path| :: !IsSpace(path[i]))
    && after != [] && (forall i | 0 <= i < |after| :: IsSpace(after[i]))
    && IsVersion(version)
  }

  lemma SpaceRun(run: Bytes, rest: Bytes)
    requires (forall i | 0 <= i < |run| :: IsSpace(run[i])) && rest != [] && !IsSpace(rest[0])
    ensures SpanSpace(run + rest) == |run| && (run + rest)[|run|..] == rest
  {}

  lemma TextRun(run: Bytes, rest: Bytes)
    requires (forall i | 0 <= i < |run| :: !IsSpace(run[i])) && rest != [] && IsSpace(rest[0])
    ensures SpanText(run + rest) == |run| && (run + rest)[|run|..] == rest && (run + rest)[..|run|] == run
  {}

  lemma ClassifyFindsMatch(line: Bytes, before: Bytes, path: Bytes, after: Bytes, version: Bytes)
    requires Matches(line, before, path, after, version)
    ensures Classify(line) == Some(path)
  {
    assert version[0] == 72;
    SplitAppend(GET, before + (path + (after + version)));
    SpaceRun(before, path + (after + version));
    TextRun(path, after + version);
    SpaceRun(after, version);
    hide SpanSpace, SpanText, IsSpace;
  }

  lemma ClassifiedMatches(line: Bytes) returns (before: Bytes, after: Bytes, version: Bytes)
    requires Classify(line).Some?
    ensures Matches(line, before, Classify(line).value, after, version)
  {
    hide *;
    ClassifiedParts(line);
    var rest := line[3..];
    var path, second, third;
    before, second := CutSpace(rest);
    path, third := CutText(second);
    after, version := CutSpace(third);
    CutJoins(line, 3);
    MatchesParts(before, path, after, version);
  }

  lemma CutSpace(s: Bytes) returns (run: Bytes, tail: Bytes)
    ensures s == run + tail && run == s[..SpanSpace(s)] && tail == s[SpanSpace(s)..]
    ensures forall i | 0 <= i < |run| :: IsSpace(run[i])
  {
    hide *;
    run, tail := s[..SpanSpace(s)], s[SpanSpace(s)..];
  }

  lemma CutText(s: Bytes) returns (run: Bytes, tail: Bytes)
    ensures s == run + tail && run == s[..SpanText(s)] && tail == s[SpanText(s)..]
    ensures forall i | 0 <= i < |run| :: !IsSpace(run[i])
  {
    hide *;
    run, tail := s[..SpanText(s)], s[SpanText(s)..];
  }

  lemma ClassifiedParts(line: Bytes)
    requires Classify(line).Some?
    ensures |line| >= 3 && line[..3] == GET
    ensures
      var rest := line[3..];
      var second := rest[SpanSpace(rest)..];
      var third := second[SpanText(second)..];
      && SpanSpace(rest) > 0 && SpanText(second) > 0 && SpanSpace(third) > 0
      && IsVersion(third[SpanSpace(third)..])
      && Classify(line) == Some(second[..SpanText(second)])
  {
    hide SpanSpace, SpanText, IsVersion;
  }

  lemma MatchesParts(before: Bytes, path: Bytes, after: Bytes, version: Bytes)
    requires before != [] && (forall i | 0 <= i < |before| :: IsSpace(before[i]))
    requires path != [] && (forall i | 0 <= i < |path| :: !IsSpace(path[i]))
    requires after != [] && (forall i | 0 <= i < |after| :: IsSpace(after[i]))
    requires IsVersion(version)
    ensures Matches(GET + (before + (path + (after + version))), before, path, after, version)
  {
    hide IsSpace, IsVersion;
  }

  /** Classifying a request line is matching the pattern, in both directions. */
  lemma ClassifyIsPattern(line: Bytes, path: Bytes)
    ensures Classify(line) == Some(path) <==>
      exists before, after, version :: Matches(line, before, path, after, version)
  {
    hide Classify, Matches;
    if Classify(line) == Some(path) {
      var before, after, version := ClassifiedMatches(line);
    }
    if exists before, after, version :: Matches(line, before, path, after, version) {
      var before, after, version :| Matches(line, before, path, after, version);
      ClassifyFindsMatch(line, before, path, after, version);
    }
  }

  function FirstLine(head: Bytes): Bytes {
    match IndexOf(head, CRLF, 0)
    case None => head
    case Some(end) => head[..end]
  }

  // ------------------------------------------------------ one side of a connection

  datatype LinkError = UpgradeTooLarge | NotAnUpgrade(line: Bytes) | FrameError(error: ParseError)

  datatype Side = Side(upgraded: bool, http: Bytes, parser: Parser)

  const FRESH := Side(false, [], EMPTY)

  /** What observing some bytes leads to: a newly classified path, delivered messages, and an error. */
  datatype Sight = Sight(side: Side, path: Option<Bytes>, messages: seq<Message>, error: Option<LinkError>)

  function Parse(side: Side, bytes: Bytes, path: Option<Bytes>): Sight {
    var o := Feed(side.parser, bytes);
    Sight(side.(parser := o.parser), path, o.messages, if o.error.Some? then Some(FrameError(o.error.value)) else None)
  }

  function Observe(upstream: bool, side: Side, bytes: Bytes): Sight {
    if side.upgraded then Parse(side, bytes, None)
    else
      var buffered := side.http + bytes;
      match IndexOf(buffered, HTTP_HEADER_END, 0)
      case None =>
        if |buffered| > MAX_HTTP_HEADER_BYTES then Sight(side, None, [], Some(UpgradeTooLarge))
        else Sight(side.(http := buffered), None, [], None)
      case Some(end) => Upgrade(upstream, side, buffered, end)
  }

  function Upgrade(upstream: bool, side: Side, buffered: Bytes, end: nat): Sight
    requires end + 4 <= |buffered|
  {
    var line := FirstLine(buffered[..end]);
    if end + 4 > MAX_HTTP_HEADER_BYTES then Sight(side, None, [], Some(UpgradeTooLarge))
    else if upstream && Classify(line).None? then Sight(side, None, [], Some(NotAnUpgrade(line)))
    else
      var open := side.(upgraded := true, http := []);
      var path := if upstream then Classify(line) else None;
      if |buffered| > end + 4 then Parse(open, buffered[end + 4..], path) else Sight(open, path, [], None)
  }

  function Join(first: Sight, second: Sight): Sight {
    Sight(
      second.side,
      if first.path.Some? then first.path else second.path,
      first.messages + second.messages,
      second.error)
  }

  function ObserveAll(upstream: bool, side: Side, chunks: seq<Bytes>): Sight
    decreases |chunks|
  {
    if chunks == [] then Sight(side, None, [], None)
    else
      var head := Observe(upstream, side, chunks[0]);
      if head.error.Some? then head else Join(head, ObserveAll(upstream, head.side, chunks[1..]))
  }

  ghost predicate Settled(side: Side) {
    && side.parser.Drained() && side.parser.Consistent()
    && (if side.upgraded then side.http == []
        else side.parser == EMPTY && |side.http| <= MAX_HTTP_HEADER_BYTES
             && IndexOf(side.http, HTTP_HEADER_END, 0).None?)
  }

  ghost predicate SameSight(a: Sight, b: Sight) {
    a.path == b.path && a.messages == b.messages && a.error == b.error && (a.error.None? ==> a.side == b.side)
  }

  lemma ParseSplits(side: Side, first: Bytes, second: Bytes, path: Option<Bytes>)
    requires side.upgraded && side.parser.Consistent()
    ensures
      var whole, head := Parse(side, first + second, path), Parse(side, first, path);
      && SameSight(whole, if head.error.Some? then head else Join(head, Parse(head.side, second, None)))
      && (head.error.None? ==> head.side.parser.Drained() && head.side.parser.Consistent())
  {
    hide Feed;
    FeedSplits(side.parser, first, second);
  }

  lemma ParseNothing(side: Side, path: Option<Bytes>)
    requires side.upgraded && side.parser.Drained()
    ensures Parse(side, [], path) == Sight(side, path, [], None)
  {
    assert side.parser.buffer + [] == side.parser.buffer;
    DrainTurn(side.parser);
    hide Drain;
  }

  /** Handing over no bytes is the same as handing over nothing. */
  lemma UpgradeParses(upstream: bool, side: Side, buffered: Bytes, end: nat)
    requires side.parser.Drained() && end + 4 <= |buffered|
    ensures
      var line := FirstLine(buffered[..end]);
      Upgrade(upstream, side, buffered, end)
        == if end + 4 > MAX_HTTP_HEADER_BYTES then Sight(side, None, [], Some(UpgradeTooLarge))
           else if upstream && Classify(line).None? then Sight(side, None, [], Some(NotAnUpgrade(line)))
           else
             Parse(side.(upgraded := true, http := []), buffered[end + 4..], if upstream then Classify(line) else None)
  {
    var line := FirstLine(buffered[..end]);
    ParseNothing(side.(upgraded := true, http := []), if upstream then Classify(line) else None);
    hide FirstLine, Classify, Parse;
    assert |buffered| == end + 4 ==> buffered[end + 4..] == [];
  }

  lemma UpgradeSplits(upstream: bool, side: Side, first: Bytes, second: Bytes, end: nat)
    requires Settled(side) && !side.upgraded && end + 4 <= |first|
    ensures
      var whole, head := Upgrade(upstream, side, first + second, end), Upgrade(upstream, side, first, end);
      && SameSight(whole, if head.error.Some? then head else Join(head, Observe(upstream, head.side, second)))
      && (head.error.None? ==> Settled(head.side))
  {
    UpgradeParses(upstream, side, first + second, end);
    UpgradeParses(upstream, side, first, end);
    assert (first + second)[..end] == first[..end];
    assert (first + second)[end + 4..] == first[end + 4..] + second;
    var open := side.(upgraded := true, http := []);
    ParseSplits(open, first[end + 4..], second, if upstream then Classify(FirstLine(first[..end])) else None);
    hide FirstLine, Classify, Feed, Upgrade;
  }

  lemma ObserveSplits(upstream: bool, side: Side, first: Bytes, second: Bytes)
    requires Settled(side)
    ensures
      var whole, head := Observe(upstream, side, first + second), Observe(upstream, side, first);
      && SameSight(whole, if head.error.Some? then head else Join(head, Observe(upstream, head.side, second)))
      && (head.error.None? ==> Settled(head.side))
  {
    if side.upgraded {
      ParseSplits(side, first, second, None);
    } else {
      var buffered := side.http + first;
      assert side.http + (first + second) == buffered + second;
      IndexOfExtends(buffered, second, HTTP_HEADER_END, 0);
      var end := IndexOf(buffered, HTTP_HEADER_END, 0);
      hide IndexOf, Upgrade;
      if end.Some? {
        UpgradeSplits(upstream, side, buffered, second, end.value);
      }
    }
  }

  lemma ObserveNothing(upstream: bool, side: Side)
    requires Settled(side)
    ensures Observe(upstream, side, []) == Sight(side, None, [], None)
  {
    if side.upgraded {
      ParseNothing(side, None);
    } else {
      assert side.http + [] == side.http;
    }
  }

  /**
   * The upgrade verdict, the path, the messages, the first error and the residual state do not depend on
   * how the stream is cut: not inside the terminator, not around the header limit, not into the frames.
   */
  lemma {:induction false} ObservationIsChunkInvariant(upstream: bool, side: Side, chunks: seq<Bytes>)
    requires Settled(side)
    ensures SameSight(ObserveAll(upstream, side, chunks), Observe(upstream, side, Flatten(chunks)))
    decreases |chunks|
  {
    if chunks == [] {
      ObserveNothing(upstream, side);
    } else {
      ObserveSplits(upstream, side, chunks[0], Flatten(chunks[1..]));
      var head := Observe(upstream, side, chunks[0]);
      hide Observe, Settled;
      if head.error.None? {
        ObservationIsChunkInvariant(upstream, head.side, chunks[1..]);
      }
    }
  }

  lemma ConnectionSplitsAgree(upstream: bool, chunks: seq<Bytes>, others: seq<Bytes>)
    requires Flatten(chunks) == Flatten(others)
    ensures SameSight(ObserveAll(upstream, FRESH, chunks), ObserveAll(upstream, FRESH, others))
  {
    ObservationIsChunkInvariant(upstream, FRESH, chunks);
    ObservationIsChunkInvariant(upstream, FRESH, others);
  }

  // ------------------------------------------------------------ whole requests

  /**
   * A request head: a request line, then nothing or header lines behind a line break, and no blank line before
   * its end, which is within the limit.
   */
  ghost predicate IsHead(head: Bytes, line: Bytes, headers: Bytes) {
    && head == line + headers && (headers == [] || OccursAt(headers, CRLF, 0))
    && (forall i: nat :: !OccursAt(line, CRLF, i))
    && (forall i: nat | i < |head| :: !OccursAt(head + HTTP_HEADER_END, HTTP_HEADER_END, i))
    && |head| + 4 <= MAX_HTTP_HEADER_BYTES
  }

  lemma HeadFits(head: Bytes, line: Bytes, headers: Bytes)
    requires IsHead(head, line, headers)
    ensures |head| + 4 <= MAX_HTTP_HEADER_BYTES
    ensures forall i: nat | i < |head| :: !OccursAt(head + HTTP_HEADER_END, HTTP_HEADER_END, i)
  {
    hide OccursAt;
  }

  lemma FirstLineOfHead(head: Bytes, line: Bytes, headers: Bytes)
    requires IsHead(head, line, headers) && line != [] && line[|line| - 1] != 13
    ensures FirstLine(head) == line
  {
    if headers == [] {
      assert head == line;
      IndexOfIsFirst(head, CRLF, 0);
    } else {
      assert head[|line|..|line| + 2] == headers[0..2];
      forall i: nat | i < |line|
        ensures !OccursAt(head, CRLF, i)
      {
        assert !OccursAt(line, CRLF, i);
        if i + 2 <= |line| {
          assert head[i..i + 2] == line[i..i + 2];
        } else {
          assert head[i] == line[i] && CRLF[0] == 13;
          assert head[i..i + 2][0] == head[i];
        }
      }
      FoundFirst(head, CRLF, |line|);
    }
  }

  lemma HeadEndsFirst(head: Bytes, body: Bytes)
    requires forall i: nat | i < |head| :: !OccursAt(head + HTTP_HEADER_END, HTTP_HEADER_END, i)
    ensures IndexOf(head + HTTP_HEADER_END + body, HTTP_HEADER_END, 0) == Some(|head|)
  {
    var all := head + HTTP_HEADER_END + body;
    assert all[|head|..|head| + 4] == HTTP_HEADER_END;
    forall i: nat | i < |head|
      ensures !OccursAt(all, HTTP_HEADER_END, i)
    {
      assert !OccursAt(head + HTTP_HEADER_END, HTTP_HEADER_END, i);
      assert all[i..i + 4] == (head + HTTP_HEADER_END)[i..i + 4];
    }
    FoundFirst(all, HTTP_HEADER_END, |head|);
  }

  lemma MatchedLineEnds(line: Bytes, before: Bytes, path: Bytes, after: Bytes, version: Bytes)
    requires Matches(line, before, path, after, version)
    ensures line != [] && line[|line| - 1] != 13
  {
    assert version[|version| - 1] == 48 || version[|version| - 1] == 49;
    assert line[|line| - 1] == version[|version| - 1];
  }

  /**
   * An ordinary request is accepted: a line that matches the pattern and any header lines give that path, and
   * what follows the blank line goes to the frame parser.
   */
  lemma RequestIsAccepted(
      line: Bytes, before: Bytes, path: Bytes, after: Bytes, version: Bytes, head: Bytes, headers: Bytes, body: Bytes)
    requires Matches(line, before, path, after, version) && IsHead(head, line, headers)
    ensures
      var sight, frames := Observe(true, FRESH, head + HTTP_HEADER_END + body), Feed(EMPTY, body);
      && sight.path == Some(path) && sight.messages == frames.messages && sight.side.upgraded
      && sight.error == (if frames.error.Some? then Some(FrameError(frames.error.value)) else None)
  {
    hide *;
    HeadFits(head, line, headers);
    HeadEndsFirst(head, body);
    MatchedLineEnds(line, before, path, after, version);
    FirstLineOfHead(head, line, headers);
    ClassifyFindsMatch(line, before, path, after, version);
    var all := head + HTTP_HEADER_END + body;
    AfterHead(head, body);
    UpgradedAt(all, |head|, body);
  }

  lemma AfterHead(head: Bytes, body: Bytes)
    ensures
      var all := head + HTTP_HEADER_END + body;
      |all| == |head| + 4 + |body| && all[..|head|] == head && all[|head| + 4..] == body
  {}

  /** The upgrade at the blank line of a fresh connection. */
  lemma UpgradedAt(all: Bytes, end: nat, body: Bytes)
    requires IndexOf(all, HTTP_HEADER_END, 0) == Some(end) && end + 4 <= |all|
    requires end + 4 <= MAX_HTTP_HEADER_BYTES && all[end + 4..] == body
    requires Classify(FirstLine(all[..end])).Some?
    ensures
      var sight, frames := Observe(true, FRESH, all), Feed(EMPTY, body);
      && sight.path == Classify(FirstLine(all[..end])) && sight.messages == frames.messages && sight.side.upgraded
      && sight.error == (if frames.error.Some? then Some(FrameError(frames.error.value)) else None)
  {
    NothingIsFed();
    hide Classify, FirstLine, IndexOf, Feed;
    assert [] + all == all;
  }

  lemma NothingIsFed()
    ensures Feed(EMPTY, []).messages == [] && Feed(EMPTY, []).error == None
  {
    assert EMPTY.buffer + [] == [];
  }

  /** ... down to the messages of a well-formed stream, however all of it is cut. */
  lemma RequestAndStream(
      line: Bytes, before: Bytes, path: Bytes, after: Bytes, version: Bytes, head: Bytes, headers: Bytes,
      items: seq<Item>, chunks: seq<Bytes>)
    requires Matches(line, before, path, after, version) && IsHead(head, line, headers)
    requires Flatten(chunks) == head + HTTP_HEADER_END + StreamBytes(items)
    ensures
      var sight := ObserveAll(true, FRESH, chunks);
      sight.path == Some(path) && sight.messages == StreamMessages(items) && sight.error == None
  {
    RequestIsAccepted(line, before, path, after, version, head, headers, StreamBytes(items));
    ParseUndoesSerialize(items);
    FreshIsSettled();
    ObservationIsChunkInvariant(true, FRESH, chunks);
    hide *;
  }

  lemma FreshIsSettled()
    ensures Settled(FRESH)
  {}

  /** A stream is refused as too large exactly when its first 64 KiB hold no blank line and there is more. */
  lemma TooLargeExactly(upstream: bool, bytes: Bytes)
    ensures
      Observe(upstream, FRESH, bytes).error == Some(UpgradeTooLarge) <==>
        |bytes| > MAX_HTTP_HEADER_BYTES
        && forall i: nat | i + 4 <= MAX_HTTP_HEADER_BYTES :: !OccursAt(bytes, HTTP_HEADER_END, i)
  {
    assert [] + bytes == bytes;
    IndexOfIsFirst(bytes, HTTP_HEADER_END, 0);
    hide IndexOf, Classify, FirstLine, Feed, OccursAt;
    match IndexOf(bytes, HTTP_HEADER_END, 0)
    case None =>
    case Some(end) =>
  }
}
