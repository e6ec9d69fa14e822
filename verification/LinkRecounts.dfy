/**
 * The link statistics recounted from a log of what was observed. The recount reads the bytes of each message
 * itself and looks backwards for what a cancel or a pong answers; it shares nothing with the accounting.
 */
module LinkRecounts {
  import opened Basics
  import opened Folds
  import opened LinkInspectors
  import HttpUpgrades
  import WebSocketFrames
  import LatencyHistograms

  type Message = WebSocketFrames.Message

  /** Bytes seen, a message delivered at a time, a queue length or a pause reported, the statistics reset. */
  datatype Note =
    | Seen(peer: nat, direction: Direction, length: nat)
    | Delivered(peer: nat, direction: Direction, message: Message, nowMs: real)
    | Queued(direction: Direction, queuedBytes: nat, delayMs: real)
    | Paused(direction: Direction)
    | Cleared(reachable: set<nat>)

  type Log = seq<Note>

  // ---------------------------------------------------------------- what is logged

  function Deliveries(peer: nat, d: Direction, messages: seq<Message>, nowMs: nat -> real, i: nat): Log
    decreases |messages|
  {
    if messages == [] then []
    else [Delivered(peer, d, messages[0], nowMs(i))] + Deliveries(peer, d, messages[1..], nowMs, i + 1)
  }

  /** What an event adds to the log: the messages are those that the byte stream holds. */
  function Notes(link: Link, e: Event): Log {
    match e
    case Open(_) => []
    case Close(_) => []
    case Reset => [Cleared(link.reachable)]
    case Bytes(id, d, bytes, nowMs) =>
      if id !in link.peers then []
      else
        var sight := HttpUpgrades.Observe(d.Upstream?, link.peers[id].Of(d), bytes);
        [Seen(id, d, |bytes|)] + Deliveries(id, d, sight.messages, nowMs, 0)
    case Queue(id, d, queuedBytes, queueDelayMs) =>
      if id !in link.peers then [] else [Queued(d, queuedBytes, MaxReal(0.0, queueDelayMs))]
    case Backpressure(id, d) => if id !in link.peers then [] else [Paused(d)]
  }

  function Logged(link: Link, events: seq<Event>): Log
    decreases |events|
  {
    if events == [] then [] else Notes(link, events[0]) + Logged(Step(link, events[0]), events[1..])
  }

  // -------------------------------------------------------------------- the recount

  type Weight = (Log, Note) -> nat

  /** The sum since the statistics were last cleared; a note is weighed knowing all notes before it. */
  function Tally(log: Log, weight: Weight): nat {
    if log == [] || log[|log| - 1].Cleared? then 0
    else Tally(log[..|log| - 1], weight) + weight(log[..|log| - 1], log[|log| - 1])
  }

  function Peak(log: Log, weight: Weight): nat {
    if log == [] || log[|log| - 1].Cleared? then 0
    else Max(Peak(log[..|log| - 1], weight), weight(log[..|log| - 1], log[|log| - 1]))
  }

  function LongestDelay(log: Log, d: Direction): real {
    if log == [] || log[|log| - 1].Cleared? then 0.0
    else
      var last := log[|log| - 1];
      MaxReal(
        LongestDelay(log[..|log| - 1], d),
        if last.Queued? && last.direction == d then last.delayMs else 0.0)
  }

  function StreamBytes(d: Direction): Weight {
    (_: Log, n: Note) => if n.Seen? && n.direction == d then n.length else 0
  }

  function Frames(d: Direction): Weight {
    (_: Log, n: Note) => if n.Delivered? && n.direction == d then n.message.frameCount else 0
  }

  function FrameBytes(d: Direction): Weight {
    (_: Log, n: Note) => if n.Delivered? && n.direction == d then n.message.frameBytes else 0
  }

  function QueuedBytes(d: Direction): Weight {
    (_: Log, n: Note) => if n.Queued? && n.direction == d then n.queuedBytes else 0
  }

  function Pauses(d: Direction): Weight {
    (_: Log, n: Note) => if n.Paused? && n.direction == d then 1 else 0
  }

  /** A binary message that begins with the letters VXWP and has a whole header of 24 bytes. */
  predicate Speaks(m: Message) {
    && m.opcode == 2 && |m.payload| >= 24
    && m.payload[0] == 86 && m.payload[1] == 88 && m.payload[2] == 87 && m.payload[3] == 80
  }

  /** A note of such a message in one direction; its kind is bytes 6 and 7, the low byte first. */
  predicate Tells(n: Note, d: Direction) {
    n.Delivered? && n.direction == d && Speaks(n.message)
  }

  function KindOf(m: Message): nat
    requires Speaks(m)
  {
    m.payload[6] as int + 256 * m.payload[7] as int
  }

  /** The request a message speaks of: its bytes 12 to 19. */
  function RequestOf(m: Message): (r: seq<Byte>)
    requires Speaks(m)
    ensures |r| == 8
  {
    m.payload[12..20]
  }

  function PayloadBytes(d: Direction): Weight {
    (_: Log, n: Note) => if Tells(n, d) then |n.message.payload| else 0
  }

  predicate Of(n: Note, key: Key) {
    Tells(n, key.0) && KindOf(n.message) == key.1
  }

  function KindFrames(key: Key): Weight {
    (_: Log, n: Note) => if Of(n, key) then 1 else 0
  }

  function KindBytes(key: Key): Weight {
    (_: Log, n: Note) => if Of(n, key) then |n.message.payload| else 0
  }

  /** Upstream requests for products: chunks, directories, pages and columns. */
  predicate Requests(n: Note) {
    Tells(n, Upstream) && KindOf(n.message) in {3, 20, 22, 24}
  }

  /** What ends a request: its cancel going up, or its result or an error coming down. */
  predicate Ends(n: Note) {
    (Tells(n, Upstream) && KindOf(n.message) == 5)
    || (Tells(n, Downstream) && KindOf(n.message) in {4, 6, 21, 23, 25})
  }

  /** The kind of the request still open under an id on a connection: the latest, unless it ended since. */
  function OpenRequest(log: Log, peer: nat, id: seq<Byte>): Option<nat> {
    if log == [] then None
    else
      var earlier, last := log[..|log| - 1], log[|log| - 1];
      if last.Cleared? then if peer in last.reachable then None else OpenRequest(earlier, peer, id)
      else if (Requests(last) || Ends(last)) && last.peer == peer && RequestOf(last.message) == id then
        if Requests(last) then Some(KindOf(last.message)) else None
      else OpenRequest(earlier, peer, id)
  }

  /** When the ping still open under a sequence number on a connection was seen. */
  function OpenPing(log: Log, peer: nat, id: seq<Byte>): Option<real> {
    if log == [] then None
    else
      var earlier, last := log[..|log| - 1], log[|log| - 1];
      if last.Cleared? then if peer in last.reachable then None else OpenPing(earlier, peer, id)
      else if (Pings(last) || Pongs(last)) && last.peer == peer && last.message.payload[24..28] == id then
        if Pings(last) then Some(last.nowMs) else None
      else OpenPing(earlier, peer, id)
  }

  predicate Pings(n: Note) {
    Tells(n, Upstream) && KindOf(n.message) == 13 && |n.message.payload| == 40
  }

  predicate Pongs(n: Note) {
    Tells(n, Downstream) && KindOf(n.message) == 14 && |n.message.payload| == 56
  }

  function Priorities(key: Key, priority: Byte): Weight {
    (_: Log, n: Note) =>
      if Of(n, key) && Requests(n) && |n.message.payload| > 24 && n.message.payload[24] == priority && 1 <= priority <= 4
      then 1 else 0
  }

  function Cancels(key: Key, target: Option<nat>): Weight {
    (earlier: Log, n: Note) =>
      if Of(n, key) && key == (Upstream, 5) && OpenRequest(earlier, n.peer, RequestOf(n.message)) == target then 1 else 0
  }

  /** An error's text, after two bytes that must say how long it is. */
  function Text(payload: seq<Byte>): Option<seq<Byte>> {
    if |payload| >= 26 && payload[24] as int + 256 * payload[25] as int == |payload| - 26 then Some(payload[26..]) else None
  }

  function Errors(key: Key, text: Option<seq<Byte>>): Weight {
    (_: Log, n: Note) => if Of(n, key) && key == (Downstream, 6) && Text(n.message.payload) == text then 1 else 0
  }

  /** Pongs whose ping was seen at most so many milliseconds before, and more than one less. */
  function RoundTrips(bucket: nat): Weight {
    (earlier: Log, n: Note) =>
      if Pongs(n) && OpenPing(earlier, n.peer, n.message.payload[24..28]).Some? then
        var elapsed := MaxReal(0.0, n.nowMs - OpenPing(earlier, n.peer, n.message.payload[24..28]).value);
        if bucket as real - 1.0 < elapsed <= bucket as real then 1 else 0
      else 0
  }

  // ----------------------------------------------------------------- what must agree

  ghost predicate TotalsAgree(t: Totals, log: Log, d: Direction) {
    && t.streamBytes == Tally(log, StreamBytes(d))
    && t.frames == Tally(log, Frames(d))
    && t.websocketFrameBytes == Tally(log, FrameBytes(d))
    && t.vxwpPayloadBytes == Tally(log, PayloadBytes(d))
    && t.backpressurePauses == Tally(log, Pauses(d))
    && t.peakQueuedBytes == Peak(log, QueuedBytes(d))
    && t.peakQueueDelayMs == LongestDelay(log, d)
  }

  ghost predicate EntryAgrees(e: Entry, log: Log, key: Key) {
    && e.frames == Tally(log, KindFrames(key))
    && e.payloadBytes == Tally(log, KindBytes(key))
    && e.maxPayloadBytes == Peak(log, KindBytes(key))
    && (forall p :: Get(e.priorities, p) == Tally(log, Priorities(key, p)))
    && (forall t :: Get(e.cancelTargets, t) == Tally(log, Cancels(key, t)))
    && (forall x :: Get(e.controlErrors, x) == Tally(log, Errors(key, x)))
  }

  function EntryOf(messages: map<Key, Entry>, key: Key): Entry {
    if key in messages then messages[key] else BLANK_ENTRY
  }

  ghost predicate StatisticsAgree(s: Statistics, log: Log) {
    && (forall d :: TotalsAgree(s.totals.Of(d), log, d))
    && (forall key :: EntryAgrees(EntryOf(s.messages, key), log, key))
    && (forall b :: Get(s.roundTrip.buckets, b) == Tally(log, RoundTrips(b)))
  }

  function Lookup<V>(m: map<nat, V>, k: nat): Option<V> {
    if k in m then Some(m[k]) else None
  }

  /** A connection remembers exactly the requests and pings that are still open. */
  ghost predicate MemoryAgrees(c: Connection, log: Log, peer: nat) {
    && (forall id: seq<Byte> | |id| == 8 :: Lookup(c.products, LittleEndian(id)) == OpenRequest(log, peer, id))
    && (forall id: seq<Byte> | |id| == 4 :: Lookup(c.pings, LittleEndian(id)) == OpenPing(log, peer, id))
  }

  /** Connections that have not been opened have left no note. */
  ghost predicate Unheard(log: Log, peer: nat) {
    forall n | n in log && (n.Seen? || n.Delivered?) :: n.peer != peer
  }

  ghost predicate Agrees(link: Link, log: Log) {
    && StatisticsAgree(link.statistics, log)
    && (forall id | id in link.peers :: MemoryAgrees(link.peers[id].connection, log, id))
    && (forall id | id !in link.peers :: Unheard(log, id))
  }

  // ---------------------------------------------------------- reading the same bytes

  lemma {:induction false} LittleEndianIsInjective(a: seq<Byte>, b: seq<Byte>)
    requires |a| == |b|
    ensures LittleEndian(a) == LittleEndian(b) <==> a == b
  {
    if a != [] {
      LittleEndianIsInjective(a[1..], b[1..]);
      assert a == [a[0]] + a[1..] && b == [b[0]] + b[1..];
    }
  }

  lemma TwoBytes(a: seq<Byte>)
    requires |a| == 2
    ensures LittleEndian(a) == a[0] as int + 256 * a[1] as int
  {
    var b := a[1..];
    assert b[0] == a[1] && b[1..] == [];
    assert LittleEndian(b[1..]) == 0;
    assert LittleEndian(b) == b[0];
  }

  lemma SameReading(m: Message)
    ensures IsVxwp(m) <==> Speaks(m)
    ensures IsVxwp(m) ==> Kind(m) == KindOf(m) && RequestId(m) == LittleEndian(RequestOf(m))
  {
    if |m.payload| >= 24 {
      assert m.payload[..4] == [m.payload[0], m.payload[1], m.payload[2], m.payload[3]];
      TwoBytes(m.payload[6..8]);
    }
    hide LittleEndian;
  }

  lemma SameText(payload: seq<Byte>)
    requires |payload| >= 24
    ensures ControlError(payload) == Text(payload)
  {
    if |payload| >= 26 { TwoBytes(payload[24..26]); }
    hide LittleEndian;
  }

  // ------------------------------------------------------------------ one more note

  lemma TallySnoc(log: Log, n: Note, weight: Weight)
    ensures Tally(log + [n], weight) == if n.Cleared? then 0 else Tally(log, weight) + weight(log, n)
    ensures Peak(log + [n], weight) == if n.Cleared? then 0 else Max(Peak(log, weight), weight(log, n))
  {
    assert (log + [n])[..|log|] == log;
  }

  lemma DelaySnoc(log: Log, n: Note, d: Direction)
    ensures
      LongestDelay(log + [n], d)
      == if n.Cleared? then 0.0
         else MaxReal(LongestDelay(log, d), if n.Queued? && n.direction == d then n.delayMs else 0.0)
  {
    assert (log + [n])[..|log|] == log;
  }

  lemma OpenSnoc(log: Log, n: Note, peer: nat, id: seq<Byte>)
    ensures
      OpenRequest(log + [n], peer, id)
      == if n.Cleared? && peer in n.reachable then None
         else if (Requests(n) || Ends(n)) && n.peer == peer && RequestOf(n.message) == id then
           if Requests(n) then Some(KindOf(n.message)) else None
         else OpenRequest(log, peer, id)
    ensures
      OpenPing(log + [n], peer, id)
      == if n.Cleared? && peer in n.reachable then None
         else if (Pings(n) || Pongs(n)) && n.peer == peer && n.message.payload[24..28] == id then
           if Pings(n) then Some(n.nowMs) else None
         else OpenPing(log, peer, id)
  {
    assert (log + [n])[..|log|] == log;
  }

  /** What one note adds to a direction's totals. */
  ghost function Delta(log: Log, n: Note, d: Direction): Totals
    requires n.Queued? ==> n.delayMs >= 0.0
  {
    Totals(
      StreamBytes(d)(log, n), FrameBytes(d)(log, n), PayloadBytes(d)(log, n), Frames(d)(log, n), QueuedBytes(d)(log, n),
      if n.Queued? && n.direction == d then n.delayMs else 0.0, Pauses(d)(log, n))
  }

  lemma TotalsNote(t: Totals, log: Log, n: Note, d: Direction)
    requires TotalsAgree(t, log, d) && !n.Cleared? && (n.Queued? ==> n.delayMs >= 0.0)
    ensures TotalsAgree(Merge(t, Delta(log, n, d)), log + [n], d)
  {
    TallySnoc(log, n, StreamBytes(d));
    TallySnoc(log, n, Frames(d));
    TallySnoc(log, n, FrameBytes(d));
    TallySnoc(log, n, PayloadBytes(d));
    TallySnoc(log, n, Pauses(d));
    TallySnoc(log, n, QueuedBytes(d));
    DelaySnoc(log, n, d);
    hide Tally, Peak, LongestDelay, StreamBytes, Frames, FrameBytes, PayloadBytes, Pauses, QueuedBytes;
  }

  /** A note that is not of a kind leaves that kind's entry as it is. */
  lemma EntryOther(e: Entry, log: Log, n: Note, key: Key)
    requires EntryAgrees(e, log, key) && !n.Cleared? && !Of(n, key)
    ensures EntryAgrees(e, log + [n], key)
  {
    TallySnoc(log, n, KindFrames(key));
    TallySnoc(log, n, KindBytes(key));
    forall p ensures Tally(log + [n], Priorities(key, p)) == Tally(log, Priorities(key, p)) {
      TallySnoc(log, n, Priorities(key, p));
    }
    forall t ensures Tally(log + [n], Cancels(key, t)) == Tally(log, Cancels(key, t)) {
      TallySnoc(log, n, Cancels(key, t));
    }
    forall x ensures Tally(log + [n], Errors(key, x)) == Tally(log, Errors(key, x)) {
      TallySnoc(log, n, Errors(key, x));
    }
    hide Tally, Peak, Of;
  }

  lemma BumpGet<K>(m: map<K, nat>, k: K)
    ensures forall x :: Get(Bump(m, k), x) == Get(m, x) + (if x == k then 1 else 0)
  {}

  lemma PrioritiesNote(e: Entry, c: Connection, log: Log, id: nat, d: Direction, m: Message, nowMs: real, p: Byte)
    requires Speaks(m) && IsVxwp(m)
    requires Get(e.priorities, p) == Tally(log, Priorities((d, KindOf(m)), p))
    ensures
      Get(EntryAfter(e, c, d, m).priorities, p)
      == Tally(log + [Delivered(id, d, m, nowMs)], Priorities((d, KindOf(m)), p))
  {
    SameReading(m);
    TallySnoc(log, Delivered(id, d, m, nowMs), Priorities((d, KindOf(m)), p));
    if |m.payload| > 24 { BumpGet(e.priorities, m.payload[24]); }
    hide Tally, Kind, KindOf, RequestOf, RequestId, Bump, Get, ControlError;
  }

  lemma CancelsNote(
      e: Entry, c: Connection, log: Log, id: nat, d: Direction, m: Message, nowMs: real, t: Option<nat>)
    requires Speaks(m) && IsVxwp(m) && MemoryAgrees(c, log, id)
    requires Get(e.cancelTargets, t) == Tally(log, Cancels((d, KindOf(m)), t))
    ensures
      Get(EntryAfter(e, c, d, m).cancelTargets, t)
      == Tally(log + [Delivered(id, d, m, nowMs)], Cancels((d, KindOf(m)), t))
  {
    SameReading(m);
    TallySnoc(log, Delivered(id, d, m, nowMs), Cancels((d, KindOf(m)), t));
    var target := Lookup(c.products, RequestId(m));
    assert target == OpenRequest(log, id, RequestOf(m));
    BumpGet(e.cancelTargets, target);
    hide Tally, Kind, KindOf, RequestOf, RequestId, Bump, Get, ControlError, OpenRequest, MemoryAgrees;
  }

  lemma ErrorsNote(
      e: Entry, c: Connection, log: Log, id: nat, d: Direction, m: Message, nowMs: real, x: Option<seq<Byte>>)
    requires Speaks(m) && IsVxwp(m)
    requires Get(e.controlErrors, x) == Tally(log, Errors((d, KindOf(m)), x))
    ensures
      Get(EntryAfter(e, c, d, m).controlErrors, x)
      == Tally(log + [Delivered(id, d, m, nowMs)], Errors((d, KindOf(m)), x))
  {
    SameReading(m);
    SameText(m.payload);
    TallySnoc(log, Delivered(id, d, m, nowMs), Errors((d, KindOf(m)), x));
    BumpGet(e.controlErrors, ControlError(m.payload));
    hide Tally, Kind, KindOf, RequestOf, RequestId, Bump, Get, ControlError, Text;
  }

  lemma SizesNote(e: Entry, c: Connection, log: Log, id: nat, d: Direction, m: Message, nowMs: real)
    requires Speaks(m) && IsVxwp(m) && EntryAgrees(e, log, (d, KindOf(m)))
    ensures
      var key, after, longer := (d, KindOf(m)), EntryAfter(e, c, d, m), log + [Delivered(id, d, m, nowMs)];
      && after.frames == Tally(longer, KindFrames(key))
      && after.payloadBytes == Tally(longer, KindBytes(key))
      && after.maxPayloadBytes == Peak(longer, KindBytes(key))
  {
    TallySnoc(log, Delivered(id, d, m, nowMs), KindFrames((d, KindOf(m))));
    TallySnoc(log, Delivered(id, d, m, nowMs), KindBytes((d, KindOf(m))));
    hide Tally, Peak, KindOf, Priorities, Cancels, Errors, Bump, Get, ControlError;
  }

  /** A note of a kind moves that kind's entry as the inspector does. */
  lemma EntryOwn(e: Entry, c: Connection, log: Log, id: nat, d: Direction, m: Message, nowMs: real)
    requires Speaks(m) && IsVxwp(m) && MemoryAgrees(c, log, id) && EntryAgrees(e, log, (d, KindOf(m)))
    ensures EntryAgrees(EntryAfter(e, c, d, m), log + [Delivered(id, d, m, nowMs)], (d, KindOf(m)))
  {
    SizesNote(e, c, log, id, d, m, nowMs);
    hide EntryAfter, MemoryAgrees, Tally, Peak, Get, Priorities, Cancels, Errors, KindFrames, KindBytes, KindOf, Speaks,
         IsVxwp;
    forall p
      ensures
        Get(EntryAfter(e, c, d, m).priorities, p)
        == Tally(log + [Delivered(id, d, m, nowMs)], Priorities((d, KindOf(m)), p))
    {
      PrioritiesNote(e, c, log, id, d, m, nowMs, p);
    }
    forall t
      ensures
        Get(EntryAfter(e, c, d, m).cancelTargets, t)
        == Tally(log + [Delivered(id, d, m, nowMs)], Cancels((d, KindOf(m)), t))
    {
      CancelsNote(e, c, log, id, d, m, nowMs, t);
    }
    forall x
      ensures
        Get(EntryAfter(e, c, d, m).controlErrors, x)
        == Tally(log + [Delivered(id, d, m, nowMs)], Errors((d, KindOf(m)), x))
    {
      ErrorsNote(e, c, log, id, d, m, nowMs, x);
    }
  }

  lemma RoundTripWeight(log: Log, n: Note, b: nat, started: real)
    requires Pongs(n) && OpenPing(log, n.peer, n.message.payload[24..28]) == Some(started)
    ensures
      RoundTrips(b)(log, n)
      == if LatencyHistograms.Ceil(MaxReal(0.0, n.nowMs - started)) == b then 1 else 0
  {
    LatencyHistograms.CeilIsLeastAbove(MaxReal(0.0, n.nowMs - started));
    hide OpenPing, Pongs, LatencyHistograms.Ceil;
  }

  lemma RoundTripNote(
      h: LatencyHistograms.Histogram, c: Connection, log: Log, id: nat, d: Direction, m: Message, nowMs: real, b: nat)
    requires IsVxwp(m) && MemoryAgrees(c, log, id) && Get(h.buckets, b) == Tally(log, RoundTrips(b))
    ensures
      Get(RoundTripAfter(h, c, d, m, nowMs).buckets, b) == Tally(log + [Delivered(id, d, m, nowMs)], RoundTrips(b))
  {
    var n := Delivered(id, d, m, nowMs);
    SameReading(m);
    TallySnoc(log, n, RoundTrips(b));
    if Pongs(n) {
      var sequence := m.payload[24..28];
      assert Lookup(c.pings, LittleEndian(sequence)) == OpenPing(log, id, sequence);
      if OpenPing(log, id, sequence).Some? {
        var started := OpenPing(log, id, sequence).value;
        RoundTripWeight(log, n, b, started);
        BumpGet(h.buckets, LatencyHistograms.Ceil(MaxReal(0.0, nowMs - started)));
        hide RoundTrips;
      }
    }
    hide Tally, Kind, KindOf, RequestOf, RequestId, OpenPing, OpenRequest, LittleEndian, Bump, Get, MemoryAgrees,
      LatencyHistograms.Ceil;
  }

  lemma OtherRoundTrips(log: Log, n: Note, b: nat)
    requires !n.Cleared? && !Pongs(n)
    ensures Tally(log + [n], RoundTrips(b)) == Tally(log, RoundTrips(b))
  {
    TallySnoc(log, n, RoundTrips(b));
    hide Tally, OpenPing;
  }

  // --------------------------------------------------------------------- memory

  lemma MemoryOther(c: Connection, log: Log, n: Note, peer: nat)
    requires MemoryAgrees(c, log, peer) && !n.Cleared? && (n.Delivered? ==> n.peer != peer || !Speaks(n.message))
    ensures MemoryAgrees(c, log + [n], peer)
  {
    hide OpenRequest, OpenPing, LittleEndian;
    forall id: seq<Byte> | |id| == 8
      ensures Lookup(c.products, LittleEndian(id)) == OpenRequest(log + [n], peer, id)
    {
      OpenSnoc(log, n, peer, id);
    }
    forall id: seq<Byte> | |id| == 4
      ensures Lookup(c.pings, LittleEndian(id)) == OpenPing(log + [n], peer, id)
    {
      OpenSnoc(log, n, peer, id);
    }
  }

  lemma ProductsNote(c: Connection, log: Log, peer: nat, d: Direction, m: Message, nowMs: real, id: seq<Byte>)
    requires IsVxwp(m) && MemoryAgrees(c, log, peer) && |id| == 8
    ensures
      Lookup(ConnectionAfter(c, d, m, nowMs).products, LittleEndian(id))
      == OpenRequest(log + [Delivered(peer, d, m, nowMs)], peer, id)
  {
    SameReading(m);
    OpenSnoc(log, Delivered(peer, d, m, nowMs), peer, id);
    LittleEndianIsInjective(RequestOf(m), id);
    assert Lookup(c.products, LittleEndian(id)) == OpenRequest(log, peer, id);
    hide MemoryAgrees, OpenRequest, OpenPing, LittleEndian, KindOf, Kind, RequestOf, RequestId;
  }

  lemma PingsNote(c: Connection, log: Log, peer: nat, d: Direction, m: Message, nowMs: real, id: seq<Byte>)
    requires IsVxwp(m) && MemoryAgrees(c, log, peer) && |id| == 4
    ensures
      Lookup(ConnectionAfter(c, d, m, nowMs).pings, LittleEndian(id))
      == OpenPing(log + [Delivered(peer, d, m, nowMs)], peer, id)
  {
    SameReading(m);
    OpenSnoc(log, Delivered(peer, d, m, nowMs), peer, id);
    if |m.payload| >= 28 { LittleEndianIsInjective(m.payload[24..28], id); }
    assert Lookup(c.pings, LittleEndian(id)) == OpenPing(log, peer, id);
    hide MemoryAgrees, OpenRequest, OpenPing, LittleEndian, KindOf, Kind, RequestOf, RequestId;
  }

  lemma MemoryOwn(c: Connection, log: Log, peer: nat, d: Direction, m: Message, nowMs: real)
    requires IsVxwp(m) && MemoryAgrees(c, log, peer)
    ensures MemoryAgrees(ConnectionAfter(c, d, m, nowMs), log + [Delivered(peer, d, m, nowMs)], peer)
  {
    hide ConnectionAfter, OpenRequest, OpenPing, LittleEndian, IsVxwp, Lookup;
    forall id: seq<Byte> | |id| == 8
      ensures
        Lookup(ConnectionAfter(c, d, m, nowMs).products, LittleEndian(id))
        == OpenRequest(log + [Delivered(peer, d, m, nowMs)], peer, id)
    {
      ProductsNote(c, log, peer, d, m, nowMs, id);
    }
    forall id: seq<Byte> | |id| == 4
      ensures
        Lookup(ConnectionAfter(c, d, m, nowMs).pings, LittleEndian(id))
        == OpenPing(log + [Delivered(peer, d, m, nowMs)], peer, id)
    {
      PingsNote(c, log, peer, d, m, nowMs, id);
    }
  }

  // ------------------------------------------------------------------ one more message

  lemma MessageTotals(
      s: Statistics, c: Connection, log: Log, id: nat, d: Direction, m: Message, nowMs: real, e: Direction)
    ensures
      AfterMessage(s, c, d, m, nowMs).0.totals.Of(e)
      == Merge(s.totals.Of(e), Delta(log, Delivered(id, d, m, nowMs), e))
  {
    SameReading(m);
    hide Kind, KindOf, IsVxwp, Speaks, EntryAfter, RoundTripAfter, ConnectionAfter;
  }

  lemma MessageEntries(s: Statistics, c: Connection, log: Log, id: nat, d: Direction, m: Message, nowMs: real, key: Key)
    requires StatisticsAgree(s, log) && MemoryAgrees(c, log, id)
    ensures
      EntryAgrees(
        EntryOf(AfterMessage(s, c, d, m, nowMs).0.messages, key), log + [Delivered(id, d, m, nowMs)], key)
  {
    assert EntryAgrees(EntryOf(s.messages, key), log, key);
    SameReading(m);
    hide Kind, KindOf, IsVxwp, Speaks, EntryAfter, RoundTripAfter, ConnectionAfter, EntryAgrees, StatisticsAgree,
         MemoryAgrees, Merge;
    if Of(Delivered(id, d, m, nowMs), key) {
      EntryOwn(EntryOf(s.messages, key), c, log, id, d, m, nowMs);
    } else {
      EntryOther(EntryOf(s.messages, key), log, Delivered(id, d, m, nowMs), key);
    }
  }

  lemma MessageRoundTrips(
      s: Statistics, c: Connection, log: Log, id: nat, d: Direction, m: Message, nowMs: real, b: nat)
    requires StatisticsAgree(s, log) && MemoryAgrees(c, log, id)
    ensures
      Get(AfterMessage(s, c, d, m, nowMs).0.roundTrip.buckets, b)
      == Tally(log + [Delivered(id, d, m, nowMs)], RoundTrips(b))
  {
    assert Get(s.roundTrip.buckets, b) == Tally(log, RoundTrips(b));
    SameReading(m);
    hide KindOf, Kind, IsVxwp, Speaks, EntryAfter, RoundTripAfter, ConnectionAfter, StatisticsAgree, MemoryAgrees, Merge,
         Tally, Get;
    if Speaks(m) {
      RoundTripNote(s.roundTrip, c, log, id, d, m, nowMs, b);
    } else {
      OtherRoundTrips(log, Delivered(id, d, m, nowMs), b);
    }
  }

  lemma MessageAgrees(s: Statistics, c: Connection, log: Log, id: nat, d: Direction, m: Message, nowMs: real)
    requires StatisticsAgree(s, log) && MemoryAgrees(c, log, id)
    ensures
      var (t, e) := AfterMessage(s, c, d, m, nowMs);
      var longer := log + [Delivered(id, d, m, nowMs)];
      StatisticsAgree(t, longer) && MemoryAgrees(e, longer, id)
  {
    var n := Delivered(id, d, m, nowMs);
    forall e
      ensures TotalsAgree(AfterMessage(s, c, d, m, nowMs).0.totals.Of(e), log + [n], e)
    {
      assert TotalsAgree(s.totals.Of(e), log, e);
      MessageTotals(s, c, log, id, d, m, nowMs, e);
      TotalsNote(s.totals.Of(e), log, n, e);
      hide *;
    }
    MessageMemory(s, c, log, id, d, m, nowMs);
    hide AfterMessage, StatisticsAgree, MemoryAgrees, TotalsAgree, EntryAgrees, Tally, Get, EntryOf;
    forall key
      ensures EntryAgrees(EntryOf(AfterMessage(s, c, d, m, nowMs).0.messages, key), log + [n], key)
    {
      MessageEntries(s, c, log, id, d, m, nowMs, key);
    }
    forall b
      ensures Get(AfterMessage(s, c, d, m, nowMs).0.roundTrip.buckets, b) == Tally(log + [n], RoundTrips(b))
    {
      MessageRoundTrips(s, c, log, id, d, m, nowMs, b);
    }
    StatisticsFromParts(AfterMessage(s, c, d, m, nowMs).0, log + [n]);
  }

  lemma MessageMemory(s: Statistics, c: Connection, log: Log, id: nat, d: Direction, m: Message, nowMs: real)
    requires MemoryAgrees(c, log, id)
    ensures MemoryAgrees(AfterMessage(s, c, d, m, nowMs).1, log + [Delivered(id, d, m, nowMs)], id)
  {
    SameReading(m);
    hide MemoryAgrees, Speaks, IsVxwp, Kind, EntryAfter, RoundTripAfter, ConnectionAfter, Merge;
    if Speaks(m) {
      MemoryOwn(c, log, id, d, m, nowMs);
    } else {
      MemoryOther(c, log, Delivered(id, d, m, nowMs), id);
    }
  }

  lemma StatisticsFromParts(s: Statistics, log: Log)
    requires forall d :: TotalsAgree(s.totals.Of(d), log, d)
    requires forall key :: EntryAgrees(EntryOf(s.messages, key), log, key)
    requires forall b :: Get(s.roundTrip.buckets, b) == Tally(log, RoundTrips(b))
    ensures StatisticsAgree(s, log)
  {}

  lemma {:induction false} MessagesAgree(
      s: Statistics, c: Connection, log: Log, id: nat, d: Direction, messages: seq<Message>, nowMs: nat -> real, i: nat)
    requires StatisticsAgree(s, log) && MemoryAgrees(c, log, id)
    ensures
      var (t, e) := AfterMessages(s, c, d, messages, nowMs, i);
      var longer := log + Deliveries(id, d, messages, nowMs, i);
      StatisticsAgree(t, longer) && MemoryAgrees(e, longer, id)
    decreases |messages|
  {
    hide StatisticsAgree, MemoryAgrees, AfterMessage;
    if messages == [] {
      assert log + [] == log;
    } else {
      var n := Delivered(id, d, messages[0], nowMs(i));
      MessageAgrees(s, c, log, id, d, messages[0], nowMs(i));
      var (t, e) := AfterMessage(s, c, d, messages[0], nowMs(i));
      MessagesAgree(t, e, log + [n], id, d, messages[1..], nowMs, i + 1);
      AppendAssociates(log, [n], Deliveries(id, d, messages[1..], nowMs, i + 1));
    }
  }

  lemma {:induction false} OthersUntouched(
      c: Connection, log: Log, peer: nat, id: nat, d: Direction, messages: seq<Message>, nowMs: nat -> real, i: nat)
    requires MemoryAgrees(c, log, peer) && id != peer
    ensures MemoryAgrees(c, log + Deliveries(id, d, messages, nowMs, i), peer)
    decreases |messages|
  {
    hide MemoryAgrees;
    if messages == [] {
      assert log + [] == log;
    } else {
      var n := Delivered(id, d, messages[0], nowMs(i));
      MemoryOther(c, log, n, peer);
      OthersUntouched(c, log + [n], peer, id, d, messages[1..], nowMs, i + 1);
      AppendAssociates(log, [n], Deliveries(id, d, messages[1..], nowMs, i + 1));
    }
  }

  lemma {:induction false} DeliveriesAreTheirs(id: nat, d: Direction, messages: seq<Message>, nowMs: nat -> real, i: nat)
    ensures forall n | n in Deliveries(id, d, messages, nowMs, i) :: n.Delivered? && n.peer == id
    decreases |messages|
  {
    if messages != [] {
      DeliveriesAreTheirs(id, d, messages[1..], nowMs, i + 1);
    }
  }

  // --------------------------------------------------------------------- whole links

  lemma CountOf(s: Statistics, d: Direction, path: seq<Byte>, t: Totals, e: Direction)
    ensures Count(s, d, path, t).totals.Of(e) == Merge(s.totals.Of(e), if e == d then t else BLANK)
  {
    MergeBlank(s.totals.Of(e));
    hide Merge;
  }

  lemma CountTotals(
      s: Statistics, log: Log, n: Note, d: Direction, path: seq<Byte>, t: Totals, e: Direction)
    requires TotalsAgree(s.totals.Of(e), log, e) && !n.Cleared? && (n.Queued? ==> n.delayMs >= 0.0)
    requires Delta(log, n, e) == if e == d then t else BLANK
    ensures TotalsAgree(Count(s, d, path, t).totals.Of(e), log + [n], e)
  {
    hide *;
    TotalsNote(s.totals.Of(e), log, n, e);
    CountOf(s, d, path, t, e);
  }

  /** A note that tells of no message: an increment of the totals, and nothing else. */
  lemma CountAgrees(s: Statistics, log: Log, n: Note, d: Direction, path: seq<Byte>, t: Totals)
    requires StatisticsAgree(s, log) && !n.Cleared? && !n.Delivered? && (n.Queued? ==> n.delayMs >= 0.0)
    requires forall e :: Delta(log, n, e) == if e == d then t else BLANK
    ensures StatisticsAgree(Count(s, d, path, t), log + [n])
  {
    var after := Count(s, d, path, t);
    assert after.messages == s.messages && after.roundTrip == s.roundTrip;
    hide Count, TotalsAgree, EntryAgrees, Delta, Tally, Get, EntryOf, RoundTrips;
    forall e
      ensures TotalsAgree(after.totals.Of(e), log + [n], e)
    {
      CountTotals(s, log, n, d, path, t, e);
    }
    forall key
      ensures EntryAgrees(EntryOf(after.messages, key), log + [n], key)
    {
      EntryOther(EntryOf(s.messages, key), log, n, key);
    }
    forall b
      ensures Get(after.roundTrip.buckets, b) == Tally(log + [n], RoundTrips(b))
    {
      OtherRoundTrips(log, n, b);
    }
    hide *;
    StatisticsFromParts(after, log + [n]);
  }

  lemma ClearedAgrees(log: Log, n: Note)
    requires n.Cleared?
    ensures StatisticsAgree(BLANK_STATISTICS, log + [n])
  {
    forall d
      ensures TotalsAgree(BLANK, log + [n], d)
    {
      TallySnoc(log, n, StreamBytes(d));
      TallySnoc(log, n, Frames(d));
      TallySnoc(log, n, FrameBytes(d));
      TallySnoc(log, n, PayloadBytes(d));
      TallySnoc(log, n, Pauses(d));
      TallySnoc(log, n, QueuedBytes(d));
      DelaySnoc(log, n, d);
      hide Tally, Peak, LongestDelay;
    }
    forall key
      ensures EntryAgrees(BLANK_ENTRY, log + [n], key)
    {
      NothingSince(log, n, key);
    }
    forall b
      ensures Get(map[], b) == Tally(log + [n], RoundTrips(b))
    {
      TallySnoc(log, n, RoundTrips(b));
    }
    hide TotalsAgree, EntryAgrees, Tally;
    StatisticsFromParts(BLANK_STATISTICS, log + [n]);
  }

  lemma NothingSince(log: Log, n: Note, key: Key)
    requires n.Cleared?
    ensures EntryAgrees(BLANK_ENTRY, log + [n], key)
  {
    TallySnoc(log, n, KindFrames(key));
    TallySnoc(log, n, KindBytes(key));
    forall p ensures Tally(log + [n], Priorities(key, p)) == 0 {
      TallySnoc(log, n, Priorities(key, p));
    }
    forall t ensures Tally(log + [n], Cancels(key, t)) == 0 {
      TallySnoc(log, n, Cancels(key, t));
    }
    forall x ensures Tally(log + [n], Errors(key, x)) == 0 {
      TallySnoc(log, n, Errors(key, x));
    }
    hide Tally, Peak;
  }

  lemma ClearedMemory(c: Connection, log: Log, n: Note, peer: nat)
    requires n.Cleared? && MemoryAgrees(c, log, peer)
    ensures
      MemoryAgrees(if peer in n.reachable then c.(pings := map[], products := map[]) else c, log + [n], peer)
  {
    hide OpenRequest, OpenPing, LittleEndian;
    forall id: seq<Byte>
      ensures
        OpenRequest(log + [n], peer, id) == if peer in n.reachable then None else OpenRequest(log, peer, id)
      ensures OpenPing(log + [n], peer, id) == if peer in n.reachable then None else OpenPing(log, peer, id)
    {
      OpenSnoc(log, n, peer, id);
    }
  }

  lemma {:induction false} UnheardRemembersNothing(log: Log, peer: nat)
    requires Unheard(log, peer)
    ensures forall path :: MemoryAgrees(Connection(path, map[], map[]), log, peer)
  {
    forall id: seq<Byte>
      ensures OpenRequest(log, peer, id) == None && OpenPing(log, peer, id) == None
    {
      NothingOpen(log, peer, id);
    }
  }

  lemma {:induction false} NothingOpen(log: Log, peer: nat, id: seq<Byte>)
    requires Unheard(log, peer)
    ensures OpenRequest(log, peer, id) == None && OpenPing(log, peer, id) == None
  {
    if log != [] {
      var n := |log| - 1;
      assert log[n] in log && forall x | x in log[..n] :: x in log;
      NothingOpen(log[..n], peer, id);
    }
  }

  /** The observed bytes are counted, then the messages in them, under the path that they may have told. */
  lemma BytesStep(link: Link, id: nat, d: Direction, bytes: seq<Byte>, nowMs: nat -> real)
    requires id in link.peers
    ensures
      var peer := link.peers[id];
      var sight := HttpUpgrades.Observe(d.Upstream?, peer.Of(d), bytes);
      var counted := Count(link.statistics, d, peer.connection.path, BLANK.(streamBytes := |bytes|));
      var told := if sight.path.Some? then peer.connection.(path := sight.path.value) else peer.connection;
      var (after, remembered) := AfterMessages(counted, told, d, sight.messages, nowMs, 0);
      var t := Step(link, Event.Bytes(id, d, bytes, nowMs));
      && t.statistics == after && t.peers.Keys == link.peers.Keys && t.peers[id].connection == remembered
      && (forall other | other in link.peers && other != id :: t.peers[other] == link.peers[other])
      && Notes(link, Event.Bytes(id, d, bytes, nowMs))
         == [Seen(id, d, |bytes|)] + Deliveries(id, d, sight.messages, nowMs, 0)
  {
    hide HttpUpgrades.Observe, Count, AfterMessages, Deliveries;
  }

  lemma SeenAgrees(link: Link, log: Log, id: nat, d: Direction, length: nat)
    requires Agrees(link, log) && id in link.peers
    ensures
      var c := link.peers[id].connection;
      && StatisticsAgree(
           Count(link.statistics, d, c.path, BLANK.(streamBytes := length)), log + [Seen(id, d, length)])
      && (forall path :: MemoryAgrees(c.(path := path), log + [Seen(id, d, length)], id))
  {
    var c := link.peers[id].connection;
    CountAgrees(link.statistics, log, Seen(id, d, length), d, c.path, BLANK.(streamBytes := length));
    assert MemoryAgrees(c, log, id);
    MemoryOther(c, log, Seen(id, d, length), id);
    forall path
      ensures MemoryAgrees(c.(path := path), log + [Seen(id, d, length)], id)
    {
      PathIsNoMemory(c, c.(path := path), log + [Seen(id, d, length)], id);
    }
    hide StatisticsAgree, MemoryAgrees;
  }

  lemma BytesOthers(
      c: Connection, log: Log, other: nat, id: nat, d: Direction, length: nat, messages: seq<Message>,
      nowMs: nat -> real)
    requires MemoryAgrees(c, log, other) && other != id
    ensures MemoryAgrees(c, log + ([Seen(id, d, length)] + Deliveries(id, d, messages, nowMs, 0)), other)
  {
    hide *;
    MemoryOther(c, log, Seen(id, d, length), other);
    OthersUntouched(c, log + [Seen(id, d, length)], other, id, d, messages, nowMs, 0);
    AppendAssociates(log, [Seen(id, d, length)], Deliveries(id, d, messages, nowMs, 0));
  }

  lemma BytesUnheard(
      log: Log, other: nat, id: nat, d: Direction, length: nat, messages: seq<Message>, nowMs: nat -> real)
    requires Unheard(log, other) && other != id
    ensures Unheard(log + ([Seen(id, d, length)] + Deliveries(id, d, messages, nowMs, 0)), other)
  {
    DeliveriesAreTheirs(id, d, messages, nowMs, 0);
    hide Deliveries;
  }

  lemma BytesOwn(link: Link, log: Log, id: nat, d: Direction, bytes: seq<Byte>, nowMs: nat -> real)
    requires Agrees(link, log) && id in link.peers
    ensures
      var e := Event.Bytes(id, d, bytes, nowMs);
      var t := Step(link, e);
      && id in t.peers && StatisticsAgree(t.statistics, log + Notes(link, e))
      && MemoryAgrees(t.peers[id].connection, log + Notes(link, e), id)
  {
    hide *;
    var peer := link.peers[id];
    var sight := HttpUpgrades.Observe(d.Upstream?, peer.Of(d), bytes);
    var counted := Count(link.statistics, d, peer.connection.path, BLANK.(streamBytes := |bytes|));
    var told := if sight.path.Some? then peer.connection.(path := sight.path.value) else peer.connection;
    BytesStep(link, id, d, bytes, nowMs);
    SeenAgrees(link, log, id, d, |bytes|);
    assert told == peer.connection.(path := told.path);
    MessagesAgree(counted, told, log + [Seen(id, d, |bytes|)], id, d, sight.messages, nowMs, 0);
    AppendAssociates(log, [Seen(id, d, |bytes|)], Deliveries(id, d, sight.messages, nowMs, 0));
  }

  lemma AgreesFromParts(link: Link, log: Log)
    requires StatisticsAgree(link.statistics, log)
    requires forall id | id in link.peers :: MemoryAgrees(link.peers[id].connection, log, id)
    requires forall id | id !in link.peers :: Unheard(log, id)
    ensures Agrees(link, log)
  {
    hide StatisticsAgree, MemoryAgrees, Unheard;
  }

  lemma AgreesInParts(link: Link, log: Log, id: nat)
    requires Agrees(link, log)
    ensures StatisticsAgree(link.statistics, log)
    ensures if id in link.peers then MemoryAgrees(link.peers[id].connection, log, id) else Unheard(log, id)
  {
    hide StatisticsAgree, MemoryAgrees, Unheard;
  }

  lemma BytesAgree(link: Link, log: Log, id: nat, d: Direction, bytes: seq<Byte>, nowMs: nat -> real)
    requires Agrees(link, log) && id in link.peers
    ensures
      var e := Event.Bytes(id, d, bytes, nowMs);
      Agrees(Step(link, e), log + Notes(link, e))
  {
    hide *;
    var t := Step(link, Event.Bytes(id, d, bytes, nowMs));
    var longer := log + Notes(link, Event.Bytes(id, d, bytes, nowMs));
    BytesOwn(link, log, id, d, bytes, nowMs);
    BytesStep(link, id, d, bytes, nowMs);
    var messages := HttpUpgrades.Observe(d.Upstream?, link.peers[id].Of(d), bytes).messages;
    forall other | other in t.peers
      ensures MemoryAgrees(t.peers[other].connection, longer, other)
    {
      if other != id {
        AgreesInParts(link, log, other);
        BytesOthers(link.peers[other].connection, log, other, id, d, |bytes|, messages, nowMs);
      }
    }
    forall other | other !in t.peers
      ensures Unheard(longer, other)
    {
      AgreesInParts(link, log, other);
      BytesUnheard(log, other, id, d, |bytes|, messages, nowMs);
    }
    AgreesFromParts(t, longer);
  }

  lemma PathIsNoMemory(c: Connection, e: Connection, log: Log, peer: nat)
    requires MemoryAgrees(c, log, peer) && e.pings == c.pings && e.products == c.products
    ensures MemoryAgrees(e, log, peer)
  {
    hide OpenRequest, OpenPing, LittleEndian;
  }

  lemma ReportAgrees(link: Link, log: Log, n: Note, path: seq<Byte>, d: Direction, t: Totals)
    requires Agrees(link, log) && (n.Queued? || n.Paused?) && (n.Queued? ==> n.delayMs >= 0.0)
    requires forall e :: Delta(log, n, e) == if e == d then t else BLANK
    ensures Agrees(link.(statistics := Count(link.statistics, d, path, t)), log + [n])
  {
    CountAgrees(link.statistics, log, n, d, path, t);
    forall id | id in link.peers
      ensures MemoryAgrees(link.peers[id].connection, log + [n], id)
    {
      MemoryOther(link.peers[id].connection, log, n, id);
    }
    hide StatisticsAgree, MemoryAgrees, Count, Delta;
  }

  lemma ResetAgrees(link: Link, log: Log)
    requires Agrees(link, log)
    ensures Agrees(Step(link, Reset), log + [Cleared(link.reachable)])
  {
    var n := Cleared(link.reachable);
    ClearedAgrees(log, n);
    forall id | id in link.peers
      ensures MemoryAgrees(Step(link, Reset).peers[id].connection, log + [n], id)
    {
      ClearedMemory(link.peers[id].connection, log, n, id);
    }
    hide StatisticsAgree, MemoryAgrees;
  }

  lemma OpenAgrees(link: Link, log: Log, id: nat)
    requires Agrees(link, log)
    ensures Agrees(Step(link, Open(id)), log)
  {
    if id !in link.peers {
      UnheardRemembersNothing(log, id);
      assert MemoryAgrees(Connection([], map[], map[]), log, id);
    }
    hide StatisticsAgree, MemoryAgrees;
  }

  /** What a report counts, and where. */
  lemma ReportStep(link: Link, log: Log, e: Event)
    requires (e.Queue? || e.Backpressure?) && e.peer in link.peers
    ensures
      var n, t :=
        if e.Queue? then Queued(e.direction, e.queuedBytes, MaxReal(0.0, e.queueDelayMs)) else Paused(e.direction),
        if e.Queue? then
          BLANK.(peakQueuedBytes := e.queuedBytes, peakQueueDelayMs := MaxReal(0.0, e.queueDelayMs))
        else BLANK.(backpressurePauses := 1);
      && Notes(link, e) == [n]
      && Step(link, e)
         == link.(statistics := Count(link.statistics, e.direction, link.peers[e.peer].connection.path, t))
      && (n.Queued? ==> n.delayMs >= 0.0)
      && forall d :: Delta(log, n, d) == if d == e.direction then t else BLANK
  {
    hide Count;
  }

  lemma ReportsAgree(link: Link, log: Log, e: Event)
    requires Agrees(link, log) && (e.Queue? || e.Backpressure?) && e.peer in link.peers
    ensures Agrees(Step(link, e), log + Notes(link, e))
  {
    hide *;
    ReportStep(link, log, e);
    var t: Totals :=
      if e.Queue? then BLANK.(peakQueuedBytes := e.queuedBytes, peakQueueDelayMs := MaxReal(0.0, e.queueDelayMs))
      else BLANK.(backpressurePauses := 1);
    ReportAgrees(link, log, Notes(link, e)[0], link.peers[e.peer].connection.path, e.direction, t);
  }

  /** An event on a connection that is not there, or a close, tells nothing. */
  lemma SilentAgrees(link: Link, log: Log, e: Event)
    requires Agrees(link, log)
    requires
      e.Close? || (e.Bytes? && e.peer !in link.peers) || (e.Queue? && e.peer !in link.peers)
      || (e.Backpressure? && e.peer !in link.peers)
    ensures Agrees(Step(link, e), log) && Notes(link, e) == []
  {
    hide StatisticsAgree, MemoryAgrees, Unheard;
  }

  lemma StepAgrees(link: Link, log: Log, e: Event)
    requires Agrees(link, log)
    ensures Agrees(Step(link, e), log + Notes(link, e))
  {
    assert (e.Open? ==> Notes(link, e) == []) && (e.Reset? ==> Notes(link, e) == [Cleared(link.reachable)]);
    hide *;
    assert log + [] == log;
    match e
    case Open(id) => OpenAgrees(link, log, id);
    case Close(id) => SilentAgrees(link, log, e);
    case Reset => ResetAgrees(link, log);
    case Bytes(id, d, bytes, nowMs) =>
      if id in link.peers { BytesAgree(link, log, id, d, bytes, nowMs); } else { SilentAgrees(link, log, e); }
    case Queue(id, d, queuedBytes, queueDelayMs) =>
      if id in link.peers { ReportsAgree(link, log, e); } else { SilentAgrees(link, log, e); }
    case Backpressure(id, d) =>
      if id in link.peers { ReportsAgree(link, log, e); } else { SilentAgrees(link, log, e); }
  }

  lemma {:induction false} RunAgrees(link: Link, log: Log, events: seq<Event>)
    requires Agrees(link, log)
    ensures Agrees(Run(link, events), log + Logged(link, events))
    decreases |events|
  {
    hide Agrees, Step, Notes;
    if events == [] {
      assert log + [] == log;
    } else {
      StepAgrees(link, log, events[0]);
      RunAgrees(Step(link, events[0]), log + Notes(link, events[0]), events[1..]);
      AppendAssociates(log, Notes(link, events[0]), Logged(Step(link, events[0]), events[1..]));
    }
  }

  /**
   * Over every run of connections, observations, closes and resets, the statistics are the recount of what was
   * observed since the last reset: all seven totals of each direction, each kind's frames, sizes, priorities,
   * cancelled targets and errors, and every round trip.
   */
  lemma LinkIsRecounted(events: seq<Event>)
    ensures
      var start := Link(BLANK_STATISTICS, map[], {});
      StatisticsAgree(Run(start, events).statistics, Logged(start, events))
  {
    var start := Link(BLANK_STATISTICS, map[], {});
    NothingAgrees();
    RunAgrees(start, [], events);
    assert [] + Logged(start, events) == Logged(start, events);
    hide StatisticsAgree, Logged, Run, MemoryAgrees;
  }

  lemma NothingAgrees()
    ensures Agrees(Link(BLANK_STATISTICS, map[], {}), [])
  {}
}
