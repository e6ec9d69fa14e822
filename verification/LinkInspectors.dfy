/** Traffic accounting of a shaped link: totals, the breakdowns they must agree with, and who updates them. */
module LinkInspectors {
  import opened Basics
  import opened Folds
  import opened WebSocketFrames
  import opened HttpUpgrades
  import LatencyHistograms

  datatype Direction = Upstream | Downstream

  datatype AnyTotals = Totals(
    streamBytes: nat,
    websocketFrameBytes: nat,
    vxwpPayloadBytes: nat,
    frames: nat,
    peakQueuedBytes: nat,
    peakQueueDelayMs: real,
    backpressurePauses: nat)

  type Totals = t: AnyTotals | t.peakQueueDelayMs >= 0.0 witness Totals(0, 0, 0, 0, 0, 0.0, 0)

  const BLANK: Totals := Totals(0, 0, 0, 0, 0, 0.0, 0)

  /** Additive fields add up, peaks take the larger. */
  function Merge(a: Totals, b: Totals): Totals {
    Totals(
      a.streamBytes + b.streamBytes,
      a.websocketFrameBytes + b.websocketFrameBytes,
      a.vxwpPayloadBytes + b.vxwpPayloadBytes,
      a.frames + b.frames,
      Max(a.peakQueuedBytes, b.peakQueuedBytes),
      MaxReal(a.peakQueueDelayMs, b.peakQueueDelayMs),
      a.backpressurePauses + b.backpressurePauses)
  }

  const MERGE: (Totals, Totals) -> Totals := (a: Totals, b: Totals) => Merge(a, b)

  lemma MergeIsMonoid()
    ensures CommutativeMonoid(MERGE, BLANK)
  {}

  datatype PathTotals = PathTotals(upstream: Totals, downstream: Totals) {
    function Of(d: Direction): Totals {
      if d.Upstream? then upstream else downstream
    }

    function Add(d: Direction, t: Totals): PathTotals {
      if d.Upstream? then this.(upstream := Merge(upstream, t)) else this.(downstream := Merge(downstream, t))
    }
  }

  const BLANK_PATH := PathTotals(BLANK, BLANK)

  /** One kind of message in one direction; `None` stands for an unknown target or a malformed error. */
  datatype Entry = Entry(
    frames: nat,
    payloadBytes: nat,
    maxPayloadBytes: nat,
    priorities: map<Byte, nat>,
    cancelTargets: map<Option<nat>, nat>,
    controlErrors: map<Option<Bytes>, nat>)

  const BLANK_ENTRY := Entry(0, 0, 0, map[], map[], map[])

  type Key = (Direction, nat)

  datatype Statistics = Statistics(
    totals: PathTotals,
    paths: map<Bytes, PathTotals>,
    messages: map<Key, Entry>,
    roundTrip: LatencyHistograms.Histogram)

  const BLANK_STATISTICS := Statistics(BLANK_PATH, map[], map[], LatencyHistograms.EMPTY)

  /** "upgrade", the path of a connection that has none yet. */
  const UPGRADE: Bytes := [117, 112, 103, 114, 97, 100, 101]

  function Normalized(path: Bytes): Bytes {
    if path == [] then UPGRADE else path
  }

  function Count(s: Statistics, d: Direction, path: Bytes, t: Totals): Statistics {
    var p := Normalized(path);
    var before := if p in s.paths then s.paths[p] else BLANK_PATH;
    s.(totals := s.totals.Add(d, t), paths := s.paths[p := before.Add(d, t)])
  }

  // ------------------------------------------------------------- VXWP messages

  const VXWP: Bytes := [86, 88, 87, 80]
  const VXWP_HEADER_BYTES: nat := 24

  const CHUNK_BATCH: nat := 3
  const CHUNK_BATCH_RESULT: nat := 4
  const CANCEL: nat := 5
  const ERROR: nat := 6
  const PRESENCE_PING: nat := 13
  const PRESENCE_PONG: nat := 14
  const DIRECTORY_BATCH: nat := 20
  const DIRECTORY_BATCH_RESULT: nat := 21
  const PAGE_BATCH: nat := 22
  const PAGE_BATCH_RESULT: nat := 23
  const COLUMN_BATCH: nat := 24
  const COLUMN_BATCH_RESULT: nat := 25

  predicate IsProductRequest(d: Direction, kind: nat) {
    d.Upstream? && (kind == CHUNK_BATCH || kind == DIRECTORY_BATCH || kind == PAGE_BATCH || kind == COLUMN_BATCH)
  }

  predicate IsProductAnswer(d: Direction, kind: nat) {
    d.Downstream? &&
    (kind == CHUNK_BATCH_RESULT || kind == DIRECTORY_BATCH_RESULT || kind == PAGE_BATCH_RESULT
     || kind == COLUMN_BATCH_RESULT || kind == ERROR)
  }

  function LittleEndian(bytes: Bytes): nat {
    if bytes == [] then 0 else bytes[0] + 256 * LittleEndian(bytes[1..])
  }

  predicate IsVxwp(m: Message) {
    m.opcode == 2 && |m.payload| >= VXWP_HEADER_BYTES && m.payload[..4] == VXWP
  }

  function Kind(m: Message): nat
    requires IsVxwp(m)
  {
    LittleEndian(m.payload[6..8])
  }

  function RequestId(m: Message): nat
    requires IsVxwp(m)
  {
    LittleEndian(m.payload[12..20])
  }

  function ControlError(payload: Bytes): Option<Bytes> {
    if |payload| < VXWP_HEADER_BYTES + 2 then None
    else if VXWP_HEADER_BYTES + 2 + LittleEndian(payload[24..26]) != |payload| then None
    else Some(payload[26..])
  }

  /** A connection's own memory: what it asked for and when it pinged. */
  datatype Connection = Connection(path: Bytes, pings: map<nat, real>, products: map<nat, nat>)

  const FRESH_CONNECTION := Connection([], map[], map[])

  function EntryAfter(e: Entry, c: Connection, d: Direction, m: Message): Entry
    requires IsVxwp(m)
  {
    var kind, length := Kind(m), |m.payload|;
    var target := if RequestId(m) in c.products then Some(c.products[RequestId(m)]) else None;
    Entry(
      e.frames + 1,
      e.payloadBytes + length,
      Max(e.maxPayloadBytes, length),
      if IsProductRequest(d, kind) && length > VXWP_HEADER_BYTES && 1 <= m.payload[24] <= 4
      then Bump(e.priorities, m.payload[24]) else e.priorities,
      if d.Upstream? && kind == CANCEL then Bump(e.cancelTargets, target) else e.cancelTargets,
      if d.Downstream? && kind == ERROR then Bump(e.controlErrors, ControlError(m.payload)) else e.controlErrors)
  }

  function ConnectionAfter(c: Connection, d: Direction, m: Message, nowMs: real): Connection
    requires IsVxwp(m)
  {
    var kind, id := Kind(m), RequestId(m);
    var products :=
      if IsProductRequest(d, kind) then c.products[id := kind]
      else if (d.Upstream? && kind == CANCEL) || IsProductAnswer(d, kind) then c.products - {id}
      else c.products;
    var pings :=
      if d.Upstream? && kind == PRESENCE_PING && |m.payload| == 40 then
        c.pings[LittleEndian(m.payload[24..28]) := nowMs]
      else if d.Downstream? && kind == PRESENCE_PONG && |m.payload| == 56 then
        c.pings - {LittleEndian(m.payload[24..28])}
      else c.pings;
    Connection(c.path, pings, products)
  }

  function RoundTripAfter(
      h: LatencyHistograms.Histogram, c: Connection, d: Direction, m: Message, nowMs: real): LatencyHistograms.Histogram
    requires IsVxwp(m)
  {
    if d.Downstream? && Kind(m) == PRESENCE_PONG && |m.payload| == 56 && LittleEndian(m.payload[24..28]) in c.pings then
      LatencyHistograms.Record(h, MaxReal(0.0, nowMs - c.pings[LittleEndian(m.payload[24..28])]))
    else h
  }

  function AfterMessage(s: Statistics, c: Connection, d: Direction, m: Message, nowMs: real): (Statistics, Connection) {
    var counted := Count(s, d, c.path, BLANK.(frames := m.frameCount, websocketFrameBytes := m.frameBytes));
    if !IsVxwp(m) then (counted, c)
    else
      var key := (d, Kind(m));
      var before := if key in s.messages then s.messages[key] else BLANK_ENTRY;
      var noted := counted.(
        messages := s.messages[key := EntryAfter(before, c, d, m)],
        roundTrip := RoundTripAfter(s.roundTrip, c, d, m, nowMs));
      (Count(noted, d, c.path, BLANK.(vxwpPayloadBytes := |m.payload|)), ConnectionAfter(c, d, m, nowMs))
  }

  function AfterMessages(s: Statistics, c: Connection, d: Direction, messages: seq<Message>, nowMs: nat -> real, i: nat)
    : (Statistics, Connection)
    decreases |messages|
  {
    if messages == [] then (s, c)
    else
      var (t, e) := AfterMessage(s, c, d, messages[0], nowMs(i));
      AfterMessages(t, e, d, messages[1..], nowMs, i + 1)
  }

  // ---------------------------------------------------------------- agreement

  ghost function DirectionOfPaths(paths: map<Bytes, PathTotals>, d: Direction): map<Bytes, Totals> {
    map p | p in paths :: paths[p].Of(d)
  }

  ghost function PayloadsByKind(messages: map<Key, Entry>, d: Direction): map<Key, nat> {
    map key | key in messages && key.0 == d :: messages[key].payloadBytes
  }

  /** Every total agrees with every breakdown of it. */
  ghost predicate Balanced(s: Statistics) {
    // Additive totals are the sums over paths and peaks the maxima over paths.
    && (forall d :: s.totals.Of(d) == Fold(DirectionOfPaths(s.paths, d), MERGE, BLANK))
    // Message payload is the sum over kinds.
    && (forall d :: s.totals.Of(d).vxwpPayloadBytes == Sum(PayloadsByKind(s.messages, d)))
    // Cancels are the sum over what they cancelled, errors the sum over what they said.
    && (forall key | key in s.messages ::
          && Sum(s.messages[key].cancelTargets) == (if key == (Upstream, CANCEL) then s.messages[key].frames else 0)
          && Sum(s.messages[key].controlErrors) == (if key == (Downstream, ERROR) then s.messages[key].frames else 0))
    && s.roundTrip.samples == Sum(s.roundTrip.buckets)
  }

  lemma FoldAdds(m: map<Bytes, Totals>, k: Bytes, t: Totals)
    ensures
      var before := if k in m then m[k] else BLANK;
      Fold(m[k := Merge(before, t)], MERGE, BLANK) == Merge(Fold(m, MERGE, BLANK), t)
  {
    MergeIsMonoid();
    hide CommutativeMonoid, Fold;
    var before := if k in m then m[k] else BLANK;
    FoldUpdate(m, MERGE, BLANK, k, Merge(before, t));
    if k !in m {
      assert Merge(BLANK, t) == t;
    }
  }

  lemma DirectionOfUpdate(paths: map<Bytes, PathTotals>, p: Bytes, t: PathTotals, d: Direction)
    ensures DirectionOfPaths(paths[p := t], d) == DirectionOfPaths(paths, d)[p := t.Of(d)]
  {}

  lemma MergeBlank(t: Totals)
    ensures Merge(t, BLANK) == t && Merge(BLANK, t) == t
  {}

  lemma PathsAdd(paths: map<Bytes, PathTotals>, p: Bytes, d: Direction, t: Totals, e: Direction)
    ensures
      var before := if p in paths then paths[p] else BLANK_PATH;
      Fold(DirectionOfPaths(paths[p := before.Add(d, t)], e), MERGE, BLANK)
        == Merge(Fold(DirectionOfPaths(paths, e), MERGE, BLANK), if d == e then t else BLANK)
  {
    hide Fold, Merge;
    var before := if p in paths then paths[p] else BLANK_PATH;
    var added: Totals := if d == e then t else BLANK;
    var m := DirectionOfPaths(paths, e);
    MergeBlank(before.Of(e));
    DirectionOfUpdate(paths, p, before.Add(d, t), e);
    FoldAdds(m, p, added);
  }

  /** Counting keeps the paths in step; the payload total moves by what is counted. */
  lemma CountAgrees(s: Statistics, d: Direction, path: Bytes, t: Totals)
    requires forall e :: s.totals.Of(e) == Fold(DirectionOfPaths(s.paths, e), MERGE, BLANK)
    ensures
      var r := Count(s, d, path, t);
      && r.messages == s.messages && r.roundTrip == s.roundTrip
      && (forall e :: r.totals.Of(e) == Fold(DirectionOfPaths(r.paths, e), MERGE, BLANK))
      && (forall e :: r.totals.Of(e).vxwpPayloadBytes
            == s.totals.Of(e).vxwpPayloadBytes + (if d == e then t.vxwpPayloadBytes else 0))
  {
    hide Fold, DirectionOfPaths;
    var r := Count(s, d, path, t);
    forall e: Direction
      ensures r.totals.Of(e) == Fold(DirectionOfPaths(r.paths, e), MERGE, BLANK)
    {
      PathsAdd(s.paths, Normalized(path), d, t, e);
      MergeBlank(s.totals.Of(e));
    }
  }

  /** An increment goes to its own path, which is called "upgrade" as long as it is not known, and to no other. */
  lemma CountMovesOnePath(s: Statistics, d: Direction, path: Bytes, t: Totals, q: Bytes)
    ensures
      var own := if path == [] then ['u' as int, 'p' as int, 'g' as int, 'r' as int, 'a' as int, 'd' as int, 'e' as int]
                 else path;
      var before := if q in s.paths then s.paths[q] else BLANK_PATH;
      var after := Count(s, d, path, t).paths;
      if q == own then
        q in after && after[q].Of(d) == Merge(before.Of(d), t)
        && forall e | e != d :: after[q].Of(e) == before.Of(e)
      else (q in after <==> q in s.paths) && (q in s.paths ==> after[q] == s.paths[q])
  {
    hide Merge;
  }

  lemma CountKeepsBalanced(s: Statistics, d: Direction, path: Bytes, t: Totals)
    requires Balanced(s) && t.vxwpPayloadBytes == 0
    ensures Balanced(Count(s, d, path, t))
  {
    CountAgrees(s, d, path, t);
  }

  /** The payload bytes by kind move with the entry's. */
  lemma PayloadsAgree(messages: map<Key, Entry>, key: Key, entry: Entry, length: nat)
    requires entry.payloadBytes == (if key in messages then messages[key].payloadBytes else 0) + length
    ensures
      forall e :: Sum(PayloadsByKind(messages[key := entry], e))
        == Sum(PayloadsByKind(messages, e)) + (if key.0 == e then length else 0)
  {
    hide Sum;
    forall e: Direction
      ensures Sum(PayloadsByKind(messages[key := entry], e))
           == Sum(PayloadsByKind(messages, e)) + (if key.0 == e then length else 0)
    {
      var payloads := PayloadsByKind(messages, e);
      if key.0 == e {
        assert PayloadsByKind(messages[key := entry], e) == payloads[key := entry.payloadBytes];
        SumUpdate(payloads, key, entry.payloadBytes);
      } else {
        assert PayloadsByKind(messages[key := entry], e) == payloads;
      }
    }
  }

  /** One more message under its kind: its breakdowns move with its frames and its payload. */
  lemma NoteAgrees(messages: map<Key, Entry>, c: Connection, d: Direction, m: Message)
    requires IsVxwp(m)
    requires forall key | key in messages ::
      && Sum(messages[key].cancelTargets) == (if key == (Upstream, CANCEL) then messages[key].frames else 0)
      && Sum(messages[key].controlErrors) == (if key == (Downstream, ERROR) then messages[key].frames else 0)
    ensures
      var key := (d, Kind(m));
      var entry := EntryAfter(if key in messages then messages[key] else BLANK_ENTRY, c, d, m);
      var after := messages[key := entry];
      && Sum(entry.cancelTargets) == (if key == (Upstream, CANCEL) then entry.frames else 0)
      && Sum(entry.controlErrors) == (if key == (Downstream, ERROR) then entry.frames else 0)
      && forall e :: Sum(PayloadsByKind(after, e))
           == Sum(PayloadsByKind(messages, e)) + (if d == e then |m.payload| else 0)
  {
    var key := (d, Kind(m));
    var before := if key in messages then messages[key] else BLANK_ENTRY;
    var entry := EntryAfter(before, c, d, m);
    var target := if RequestId(m) in c.products then Some(c.products[RequestId(m)]) else None;
    SumUpdate(before.cancelTargets, target, Get(before.cancelTargets, target) + 1);
    SumUpdate(before.controlErrors, ControlError(m.payload), Get(before.controlErrors, ControlError(m.payload)) + 1);
    hide Sum, LittleEndian, PayloadsByKind;
    PayloadsAgree(messages, key, entry, |m.payload|);
  }

  lemma MessageKeepsBalanced(s: Statistics, c: Connection, d: Direction, m: Message, nowMs: real)
    requires Balanced(s)
    ensures Balanced(AfterMessage(s, c, d, m, nowMs).0)
  {
    hide Fold, DirectionOfPaths, PayloadsByKind, Sum, EntryAfter, RoundTripAfter, Kind, Count;
    var frames := BLANK.(frames := m.frameCount, websocketFrameBytes := m.frameBytes);
    var counted := Count(s, d, c.path, frames);
    CountAgrees(s, d, c.path, frames);
    if IsVxwp(m) {
      var key := (d, Kind(m));
      NoteAgrees(s.messages, c, d, m);
      RoundTripAgrees(s.roundTrip, c, d, m, nowMs);
      var before := if key in s.messages then s.messages[key] else BLANK_ENTRY;
      var noted := counted.(
        messages := s.messages[key := EntryAfter(before, c, d, m)],
        roundTrip := RoundTripAfter(s.roundTrip, c, d, m, nowMs));
      CountAgrees(noted, d, c.path, BLANK.(vxwpPayloadBytes := |m.payload|));
    }
  }

  lemma RoundTripAgrees(
      h: LatencyHistograms.Histogram, c: Connection, d: Direction, m: Message, nowMs: real)
    requires IsVxwp(m) && h.samples == Sum(h.buckets)
    ensures RoundTripAfter(h, c, d, m, nowMs).samples == Sum(RoundTripAfter(h, c, d, m, nowMs).buckets)
  {
    hide Sum, Kind;
    var after := RoundTripAfter(h, c, d, m, nowMs);
    if after != h {
      var bucket: nat := LatencyHistograms.Ceil(MaxReal(0.0, nowMs - c.pings[LittleEndian(m.payload[24..28])]));
      assert after.buckets == h.buckets[bucket := Get(h.buckets, bucket) + 1];
      SumUpdate(h.buckets, bucket, Get(h.buckets, bucket) + 1);
    }
  }

  lemma {:induction false} MessagesKeepBalanced(
      s: Statistics, c: Connection, d: Direction, messages: seq<Message>, nowMs: nat -> real, i: nat)
    requires Balanced(s)
    ensures Balanced(AfterMessages(s, c, d, messages, nowMs, i).0)
    decreases |messages|
  {
    hide Balanced, AfterMessage;
    if messages != [] {
      MessageKeepsBalanced(s, c, d, messages[0], nowMs(i));
      var (t, e) := AfterMessage(s, c, d, messages[0], nowMs(i));
      MessagesKeepBalanced(t, e, d, messages[1..], nowMs, i + 1);
    }
  }

  // ------------------------------------------------------------ whole links

  /** One proxied connection: its memory and both of its byte streams. */
  datatype Peer = Peer(connection: Connection, upstream: Side, downstream: Side) {
    function Of(d: Direction): Side {
      if d.Upstream? then upstream else downstream
    }

    function With(d: Direction, side: Side): Peer {
      if d.Upstream? then this.(upstream := side) else this.(downstream := side)
    }
  }

  const FRESH_PEER := Peer(FRESH_CONNECTION, FRESH, FRESH)

  /**
   * Every connection's inspector, and which of them a reset still reaches. The first of a connection's sockets
   * to close ends that, but what the other direction still delivers is observed all the same.
   */
  datatype Link = Link(statistics: Statistics, peers: map<nat, Peer>, reachable: set<nat>)

  datatype Event =
    | Open(peer: nat)
    | Bytes(peer: nat, direction: Direction, bytes: Basics.Bytes, nowMs: nat -> real)
    | Queue(peer: nat, direction: Direction, queuedBytes: nat, queueDelayMs: real)
    | Backpressure(peer: nat, direction: Direction)
    | Close(peer: nat)
    | Reset

  function ObserveBytes(s: Statistics, peer: Peer, d: Direction, bytes: Basics.Bytes, nowMs: nat -> real)
    : (Statistics, Peer)
  {
    var sight := Observe(d.Upstream?, peer.Of(d), bytes);
    var counted := Count(s, d, peer.connection.path, BLANK.(streamBytes := |bytes|));
    var connection :=
      if sight.path.Some? then peer.connection.(path := sight.path.value) else peer.connection;
    var (after, remembered) := AfterMessages(counted, connection, d, sight.messages, nowMs, 0);
    (after, peer.With(d, sight.side).(connection := remembered))
  }

  /** A queue delay is clamped at zero before it is observed. */
  function Step(link: Link, e: Event): Link {
    match e
    case Open(id) =>
      if id in link.peers then link
      else link.(peers := link.peers[id := FRESH_PEER], reachable := link.reachable + {id})
    case Close(id) => link.(reachable := link.reachable - {id})
    case Reset =>
      link.(
        statistics := BLANK_STATISTICS,
        peers := map id | id in link.peers ::
          var peer := link.peers[id];
          if id in link.reachable then peer.(connection := peer.connection.(pings := map[], products := map[]))
          else peer)
    case Bytes(id, d, bytes, nowMs) =>
      if id !in link.peers then link
      else
        var (after, peer) := ObserveBytes(link.statistics, link.peers[id], d, bytes, nowMs);
        link.(statistics := after, peers := link.peers[id := peer])
    case Queue(id, d, queuedBytes, queueDelayMs) =>
      if id !in link.peers then link
      else
        link.(statistics := Count(
          link.statistics, d, link.peers[id].connection.path,
          BLANK.(peakQueuedBytes := queuedBytes, peakQueueDelayMs := MaxReal(0.0, queueDelayMs))))
    case Backpressure(id, d) =>
      if id !in link.peers then link
      else
        link.(statistics := Count(
          link.statistics, d, link.peers[id].connection.path, BLANK.(backpressurePauses := 1)))
  }

  function Run(link: Link, events: seq<Event>): Link
    decreases |events|
  {
    if events == [] then link else Run(Step(link, events[0]), events[1..])
  }

  lemma BlankIsBalanced()
    ensures Balanced(BLANK_STATISTICS)
  {}

  lemma StepKeepsBalanced(link: Link, e: Event)
    requires Balanced(link.statistics)
    ensures Balanced(Step(link, e).statistics)
  {
    BlankIsBalanced();
    hide Balanced, Count, AfterMessages, Observe;
    match e
    case Bytes(id, d, bytes, nowMs) =>
      if id in link.peers {
        var peer := link.peers[id];
        var sight := Observe(d.Upstream?, peer.Of(d), bytes);
        var counted := Count(link.statistics, d, peer.connection.path, BLANK.(streamBytes := |bytes|));
        CountKeepsBalanced(link.statistics, d, peer.connection.path, BLANK.(streamBytes := |bytes|));
        var connection :=
          if sight.path.Some? then peer.connection.(path := sight.path.value) else peer.connection;
        MessagesKeepBalanced(counted, connection, d, sight.messages, nowMs, 0);
      }
    case Queue(id, d, queuedBytes, queueDelayMs) =>
      if id in link.peers {
        CountKeepsBalanced(
          link.statistics, d, link.peers[id].connection.path,
          BLANK.(peakQueuedBytes := queuedBytes, peakQueueDelayMs := MaxReal(0.0, queueDelayMs)));
      }
    case Backpressure(id, d) =>
      if id in link.peers {
        CountKeepsBalanced(link.statistics, d, link.peers[id].connection.path, BLANK.(backpressurePauses := 1));
      }
    case _ =>
  }

  /** Over every run of any number of connections and resets, every total agrees with its breakdowns. */
  lemma {:induction false} EveryRunIsBalanced(link: Link, events: seq<Event>)
    requires Balanced(link.statistics)
    ensures Balanced(Run(link, events).statistics)
    decreases |events|
  {
    hide Balanced, Step;
    if events != [] {
      StepKeepsBalanced(link, events[0]);
      EveryRunIsBalanced(Step(link, events[0]), events[1..]);
    }
  }

  lemma LinkIsBalanced(events: seq<Event>)
    ensures Balanced(Run(Link(BLANK_STATISTICS, map[], {}), events).statistics)
  {
    BlankIsBalanced();
    EveryRunIsBalanced(Link(BLANK_STATISTICS, map[], {}), events);
  }

  // ---------------------------------------------------- the inspector in place

  /** The statistics that every connection of a link shares. */
  class StatisticsRef {
    var current: Statistics

    constructor ()
      ensures current == BLANK_STATISTICS
    {
      current := BLANK_STATISTICS;
    }

    method Increment(d: Direction, path: Basics.Bytes, t: Totals)
      modifies this
      ensures current == Count(old(current), d, path, t)
      ensures current.messages == old(current.messages) && current.roundTrip == old(current.roundTrip)
    {
      var normalized := Normalized(path);
      if normalized !in current.paths {
        current := current.(paths := current.paths[normalized := BLANK_PATH]);
      }
      current := current.(
        totals := current.totals.Add(d, t),
        paths := current.paths[normalized := current.paths[normalized].Add(d, t)]);
    }
  }

  /** One direction's upgrade state and frame parser. */
  class Half {
    var upgraded: bool
    var http: Basics.Bytes
    const parser: WebSocketFrameParser

    ghost function State(): Side
      reads this, parser
    {
      Side(upgraded, http, parser.State())
    }

    constructor ()
      ensures State() == FRESH && fresh(parser)
    {
      upgraded, http := false, [];
      parser := new WebSocketFrameParser();
    }
  }

  class ConnectionInspector {
    const statistics: StatisticsRef
    const upstream: Half
    const downstream: Half
    var path: Basics.Bytes
    var pings: map<nat, real>
    var products: map<nat, nat>

    ghost predicate Valid() {
      upstream != downstream && upstream.parser != downstream.parser
    }

    ghost function Memory(): Connection
      reads this
    {
      Connection(path, pings, products)
    }

    ghost function State(): Peer
      reads this, upstream, downstream, upstream.parser, downstream.parser
    {
      Peer(Memory(), upstream.State(), downstream.State())
    }

    constructor (statistics: StatisticsRef)
      ensures Valid() && State() == FRESH_PEER && this.statistics == statistics
      ensures fresh(upstream) && fresh(downstream) && fresh(upstream.parser) && fresh(downstream.parser)
    {
      this.statistics := statistics;
      upstream := new Half();
      downstream := new Half();
      path, pings, products := [], map[], map[];
    }

    method ResetRoundTripState()
      modifies this
      ensures Memory() == old(Memory()).(pings := map[], products := map[])
    {
      pings, products := map[], map[];
    }

    /** What a message makes the connection remember or forget. */
    method Remember(d: Direction, m: Message, nowMs: real)
      requires IsVxwp(m)
      modifies this
      ensures Memory() == ConnectionAfter(old(Memory()), d, m, nowMs) && path == old(path)
    {
      hide LittleEndian;
      var kind, id := Kind(m), RequestId(m);
      if d.Upstream? && kind == PRESENCE_PING && |m.payload| == 40 {
        pings := pings[LittleEndian(m.payload[24..28]) := nowMs];
      }
      if d.Downstream? && kind == PRESENCE_PONG && |m.payload| == 56 {
        pings := pings - {LittleEndian(m.payload[24..28])};
      }
      if IsProductRequest(d, kind) {
        products := products[id := kind];
      }
      if (d.Upstream? && kind == CANCEL) || IsProductAnswer(d, kind) {
        products := products - {id};
      }
    }

    /** The message callback. */
    method OnMessage(d: Direction, m: Message, nowMs: real)
      modifies this, statistics
      ensures (statistics.current, Memory()) == AfterMessage(old(statistics.current), old(Memory()), d, m, nowMs)
    {
      hide Count, EntryAfter, ConnectionAfter, Kind, RequestId, LittleEndian;
      statistics.Increment(d, path, BLANK.(frames := m.frameCount, websocketFrameBytes := m.frameBytes));
      if !IsVxwp(m) { return; }
      var memory, stats := Connection(path, pings, products), statistics.current;
      var key := (d, Kind(m));
      var entry := if key in stats.messages then stats.messages[key] else BLANK_ENTRY;
      statistics.current := stats.(
        messages := stats.messages[key := EntryAfter(entry, memory, d, m)],
        roundTrip := RoundTripAfter(stats.roundTrip, memory, d, m, nowMs));
      Remember(d, m, nowMs);
      statistics.Increment(d, path, BLANK.(vxwpPayloadBytes := |m.payload|));
    }

    function HalfOf(d: Direction): Half {
      if d.Upstream? then upstream else downstream
    }

    /** Passes bytes to a direction's parser, and what it delivers to the message callback. */
    method Push(d: Direction, bytes: Basics.Bytes, nowMs: nat -> real) returns (error: Option<LinkError>)
      requires Valid()
      modifies this, statistics, HalfOf(d).parser
      ensures
        var sight := Parse(old(HalfOf(d).State()), bytes, None);
        && (statistics.current, Memory())
             == AfterMessages(old(statistics.current), old(Memory()), d, sight.messages, nowMs, 0)
        && HalfOf(d).State() == sight.side && error == sight.error
    {
      var parser := HalfOf(d).parser;
      var first := |parser.delivered|;
      var failed := parser.Push(bytes);
      Dispatch(d, parser.delivered[first..], nowMs);
      error := if failed.Some? then Some(FrameError(failed.value)) else None;
    }

    /** The callback on each message of one push, in order. */
    method Dispatch(d: Direction, messages: seq<Message>, nowMs: nat -> real)
      modifies this, statistics
      ensures (statistics.current, Memory())
           == AfterMessages(old(statistics.current), old(Memory()), d, messages, nowMs, 0)
    {
      hide AfterMessage;
      ghost var before, memory := statistics.current, Memory();
      for i := 0 to |messages|
        invariant AfterMessages(before, memory, d, messages, nowMs, 0)
               == AfterMessages(statistics.current, Memory(), d, messages[i..], nowMs, i)
      {
        assert messages[i..][0] == messages[i] && messages[i..][1..] == messages[i + 1..];
        OnMessage(d, messages[i], nowMs(i));
      }
    }

    method Observe(d: Direction, bytes: Basics.Bytes, nowMs: nat -> real) returns (error: Option<LinkError>)
      requires Valid()
      modifies this, statistics, HalfOf(d), HalfOf(d).parser
      ensures (statistics.current, State()) == ObserveBytes(old(statistics.current), old(State()), d, bytes, nowMs)
      ensures error == HttpUpgrades.Observe(d.Upstream?, old(State()).Of(d), bytes).error
    {
      hide IndexOf, FirstLine, Classify, Count, Feed;
      var half := HalfOf(d);
      statistics.Increment(d, path, BLANK.(streamBytes := |bytes|));
      if half.upgraded {
        error := Push(d, bytes, nowMs);
        return;
      }
      var buffered := half.http + bytes;
      var end := IndexOf(buffered, HTTP_HEADER_END, 0);
      if end.None? {
        if |buffered| > MAX_HTTP_HEADER_BYTES { return Some(UpgradeTooLarge); }
        half.http := buffered;
        return None;
      }
      var headerLength := end.value + 4;
      if headerLength > MAX_HTTP_HEADER_BYTES { return Some(UpgradeTooLarge); }
      if d.Upstream? {
        var line := FirstLine(buffered[..end.value]);
        var classified := Classify(line);
        if classified.None? { return Some(NotAnUpgrade(line)); }
        path := classified.value;
      }
      half.upgraded, half.http := true, [];
      error := None;
      if |buffered| > headerLength {
        error := Push(d, buffered[headerLength..], nowMs);
      }
    }
  }
}
