/**
 * One direction of a shaped link as a machine over its events. An asynchronous drain loop moves queued
 * chunks to the destination; it can be interrupted only where it awaits, so between two events every
 * suspended loop is one of `tasks`.
 */
module ShapedDirections {
  import opened Basics
  import opened SerializationClocks

  datatype Chunk = Chunk(bytes: Bytes, deliverAtMs: real)

  /** Where a drain loop is suspended: before delivering a chunk, or until the destination drains. */
  datatype Task = Sleeping(item: Chunk) | AwaitingDrain

  /** What one turn of a drain loop meets: the clock, whether the inspector throws, and the write's answer. */
  datatype Turn = Turn(nowMs: real, inspected: bool, accepted: bool)

  type Turns = nat -> Turn

  /**
   * What a drain loop does: it goes to sleep over a chunk at a clock reading, wakes for it, writes a chunk at a
   * reading and gets the destination's answer, or goes on once the destination has drained or closed.
   */
  datatype Action =
    | Slept(item: Chunk, nowMs: real)
    | Woke(item: Chunk)
    | Wrote(item: Chunk, nowMs: real, accepted: bool)
    | Drained

  /** The source is paused or resumed with so many bytes queued. */
  datatype Flow = Held(queuedBytes: int) | Resumed(queuedBytes: int)

  /** `log` and `flow` remember what happened. */
  datatype Direction = Direction(
    queue: seq<Chunk>,
    queuedBytes: int,
    draining: bool,
    sourceEnded: bool,
    paused: bool,
    destroyed: bool,
    tasks: seq<Task>,
    received: Bytes,
    written: Bytes,
    ends: nat,
    log: seq<Action>,
    flow: seq<Flow>)

  const INITIAL := Direction([], 0, false, false, false, false, [], [], [], 0, [], [])

  datatype Event =
    | Data(chunks: seq<Chunk>, turns: Turns)
    | End(turns: Turns)
    | Wake(task: nat, turns: Turns)
    | Destroy

  function QueueBytes(queue: seq<Chunk>): nat {
    if queue == [] then 0 else |queue[0].bytes| + QueueBytes(queue[1..])
  }

  function Concat(queue: seq<Chunk>): Bytes {
    if queue == [] then [] else queue[0].bytes + Concat(queue[1..])
  }

  /** Takes the next chunk, and lets a paused source flow once less than half the bound is queued. */
  function Pop(s: Direction, maxQueued: int): Direction
    requires s.queue != []
  {
    var left := s.queuedBytes - |s.queue[0].bytes|;
    var resumes := s.paused && 2 * left < maxQueued;
    s.(
      queue := s.queue[1..],
      queuedBytes := left,
      paused := s.paused && !resumes,
      flow := if resumes then s.flow + [Resumed(left)] else s.flow)
  }

  /** The drain loop from its head, up to its next await or its end. */
  function Loop(s: Direction, maxQueued: int, turns: Turns, i: nat): Direction
    decreases |s.queue|, 0
  {
    if s.queue == [] || s.destroyed then Unwind(s)
    else
      var item, t := s.queue[0], Pop(s, maxQueued);
      if item.deliverAtMs > turns(i).nowMs then
        t.(tasks := t.tasks + [Sleeping(item)], log := t.log + [Slept(item, turns(i).nowMs)])
      else Deliver(t, item, maxQueued, turns, i)
  }

  /** The rest of a turn, once its chunk is due. A throwing inspector fails the connection. */
  function Deliver(s: Direction, item: Chunk, maxQueued: int, turns: Turns, i: nat): Direction
    decreases |s.queue|, 1
  {
    if s.destroyed then Unwind(s)
    else if !turns(i).inspected then s.(draining := false, destroyed := true)
    else
      var t := Written(s, item, turns(i));
      if !turns(i).accepted then t.(tasks := t.tasks + [AwaitingDrain])
      else Loop(t, maxQueued, turns, i + 1)
  }

  function Written(s: Direction, item: Chunk, turn: Turn): Direction {
    s.(written := s.written + item.bytes, log := s.log + [Wrote(item, turn.nowMs, turn.accepted)])
  }

  /** The loop's `finally` block and the end of file that may follow it. */
  function Unwind(s: Direction): Direction {
    if s.destroyed then s.(queue := [], queuedBytes := 0, paused := false, draining := false)
    else s.(draining := false, ends := if s.sourceEnded then s.ends + 1 else s.ends)
  }

  function AfterStart(s: Direction, maxQueued: int, turns: Turns): Direction {
    if s.draining then s else Loop(s.(draining := true), maxQueued, turns, 0)
  }

  function AfterEnqueue(s: Direction, chunks: seq<Chunk>, maxQueued: int): Direction {
    var left := s.queuedBytes + QueueBytes(chunks);
    s.(
      queue := s.queue + chunks,
      queuedBytes := left,
      received := s.received + Concat(chunks),
      paused := s.paused || left >= maxQueued,
      flow := if left >= maxQueued then s.flow + [Held(left)] else s.flow)
  }

  /** The data handler, once it has cut what it read into chunks and stamped them. */
  function AfterData(s: Direction, chunks: seq<Chunk>, maxQueued: int, turns: Turns): Direction {
    if s.destroyed then s else AfterStart(AfterEnqueue(s, chunks, maxQueued), maxQueued, turns)
  }

  function AfterEnd(s: Direction, maxQueued: int, turns: Turns): Direction {
    AfterStart(s.(sourceEnded := true), maxQueued, turns)
  }

  function AfterWake(s: Direction, task: nat, maxQueued: int, turns: Turns): Direction
    requires task < |s.tasks|
  {
    var t := Woken(s, task);
    match s.tasks[task]
    case Sleeping(item) => Deliver(t, item, maxQueued, turns, 0)
    case AwaitingDrain => Loop(t, maxQueued, turns, 0)
  }

  /** A suspended loop goes on. */
  function Woken(s: Direction, task: nat): Direction
    requires task < |s.tasks|
  {
    var action := if s.tasks[task].Sleeping? then Woke(s.tasks[task].item) else Drained;
    s.(tasks := s.tasks[..task] + s.tasks[task + 1..], log := s.log + [action])
  }

  /** A stream emits `end` once and no data after it; anything else may happen at any await. */
  function Step(s: Direction, maxQueued: int, e: Event): Direction
  {
    match e
    case Data(chunks, turns) => if s.sourceEnded then s else AfterData(s, chunks, maxQueued, turns)
    case End(turns) => if s.sourceEnded then s else AfterEnd(s, maxQueued, turns)
    case Wake(task, turns) => if task < |s.tasks| then AfterWake(s, task, maxQueued, turns) else s
    case Destroy => s.(destroyed := true)
  }

  function Run(s: Direction, maxQueued: int, events: seq<Event>): Direction
    decreases |events|
  {
    if events == [] then s else Run(Step(s, maxQueued, events[0]), maxQueued, events[1..])
  }

  // ------------------------------------------------------------------ safety

  function InFlight(tasks: seq<Task>): Bytes {
    if |tasks| == 1 && tasks[0].Sleeping? then tasks[0].item.bytes else []
  }

  /** What holds between any two events. */
  ghost predicate Safe(s: Direction) {
    // At most one drain loop, and it is the one the flag stands for.
    && |s.tasks| == (if s.draining then 1 else 0)
    && s.queuedBytes == QueueBytes(s.queue)
    // Nothing is lost, duplicated or reordered; after a failure what was written is still a prefix.
    && (!s.destroyed ==> s.received == s.written + InFlight(s.tasks) + Concat(s.queue))
    && s.written <= s.received
    // Nothing waits without a loop to move it.
    && (!s.draining && !s.destroyed ==> s.queue == [])
    // End of file is passed on once, after the last byte.
    && s.ends <= 1
    && (s.ends == 1 ==> s.sourceEnded && !s.draining && s.written == s.received)
    && (s.sourceEnded && !s.draining && !s.destroyed ==> s.ends == 1)
  }

  /** Backpressure: a paused source has a loop that will resume it, a flowing one has room. */
  ghost predicate FlowControlled(s: Direction, maxQueued: int) {
    !s.destroyed ==>
      if s.paused then s.draining && 2 * s.queuedBytes >= maxQueued else s.queuedBytes < maxQueued
  }

  /** The same facts inside a running loop, whose current chunk is `inFlight`. */
  ghost predicate SafeInside(s: Direction, inFlight: Bytes) {
    && s.draining && s.tasks == [] && s.ends == 0
    && s.queuedBytes == QueueBytes(s.queue)
    && (!s.destroyed ==> s.received == s.written + inFlight + Concat(s.queue))
    && s.written <= s.received
  }

  lemma {:induction false} LoopIsSafe(s: Direction, maxQueued: int, turns: Turns, i: nat)
    requires SafeInside(s, [])
    ensures Safe(Loop(s, maxQueued, turns, i))
    ensures maxQueued > 0 && FlowControlled(s, maxQueued) ==> FlowControlled(Loop(s, maxQueued, turns, i), maxQueued)
    decreases |s.queue|, 0
  {
    if s.queue == [] || s.destroyed {
    } else {
      var item, t := s.queue[0], Pop(s, maxQueued);
      assert s.received == s.written + item.bytes + Concat(t.queue);
      if !(item.deliverAtMs > turns(i).nowMs) {
        DeliverIsSafe(t, item, maxQueued, turns, i);
      }
    }
  }

  lemma {:induction false} DeliverIsSafe(s: Direction, item: Chunk, maxQueued: int, turns: Turns, i: nat)
    requires SafeInside(s, item.bytes)
    ensures Safe(Deliver(s, item, maxQueued, turns, i))
    ensures maxQueued > 0 && FlowControlled(s, maxQueued) ==>
      FlowControlled(Deliver(s, item, maxQueued, turns, i), maxQueued)
    decreases |s.queue|, 1
  {
    if !s.destroyed && turns(i).inspected {
      var t := Written(s, item, turns(i));
      assert t.written + [] + Concat(t.queue) == s.received;
      if turns(i).accepted {
        LoopIsSafe(t, maxQueued, turns, i + 1);
      }
    }
  }

  lemma {:induction false} ConcatAppend(a: seq<Chunk>, b: seq<Chunk>)
    ensures Concat(a + b) == Concat(a) + Concat(b) && QueueBytes(a + b) == QueueBytes(a) + QueueBytes(b)
  {
    if a == [] {
      assert a + b == b;
    } else {
      assert (a + b)[0] == a[0] && (a + b)[1..] == a[1..] + b;
      ConcatAppend(a[1..], b);
      assert a[0].bytes + (Concat(a[1..]) + Concat(b)) == Concat(a) + Concat(b);
    }
  }

  lemma EnqueueIsSafe(s: Direction, chunks: seq<Chunk>, maxQueued: int)
    requires Safe(s) && !s.sourceEnded && !s.destroyed
    ensures
      var t := AfterEnqueue(s, chunks, maxQueued);
      if s.draining then Safe(t) else SafeInside(t.(draining := true), [])
    ensures maxQueued > 0 && FlowControlled(s, maxQueued) ==>
      FlowControlled(AfterEnqueue(s, chunks, maxQueued).(draining := true), maxQueued)
  {
    ConcatAppend(s.queue, chunks);
    var t := AfterEnqueue(s, chunks, maxQueued);
    hide Concat, QueueBytes;
    assert t.received == t.written + InFlight(t.tasks) + Concat(t.queue);
  }

  lemma DataIsSafe(s: Direction, chunks: seq<Chunk>, maxQueued: int, turns: Turns)
    requires Safe(s) && !s.sourceEnded
    ensures Safe(AfterData(s, chunks, maxQueued, turns))
    ensures maxQueued > 0 && FlowControlled(s, maxQueued) ==>
      FlowControlled(AfterData(s, chunks, maxQueued, turns), maxQueued)
  {
    if !s.destroyed {
      EnqueueIsSafe(s, chunks, maxQueued);
      var t := AfterEnqueue(s, chunks, maxQueued);
      hide Loop, Concat, QueueBytes, Safe, SafeInside;
      if s.draining {
        assert t == t.(draining := true);
      } else {
        LoopIsSafe(t.(draining := true), maxQueued, turns, 0);
      }
    }
  }

  lemma EndIsSafe(s: Direction, maxQueued: int, turns: Turns)
    requires Safe(s) && !s.sourceEnded
    ensures Safe(AfterEnd(s, maxQueued, turns))
    ensures maxQueued > 0 && FlowControlled(s, maxQueued) ==> FlowControlled(AfterEnd(s, maxQueued, turns), maxQueued)
  {}

  lemma WakeIsSafe(s: Direction, task: nat, maxQueued: int, turns: Turns)
    requires Safe(s) && task < |s.tasks|
    ensures Safe(AfterWake(s, task, maxQueued, turns))
    ensures maxQueued > 0 && FlowControlled(s, maxQueued) ==> FlowControlled(AfterWake(s, task, maxQueued, turns), maxQueued)
  {
    hide Loop, Deliver;
    var t := Woken(s, task);
    match s.tasks[task]
    case Sleeping(item) => DeliverIsSafe(t, item, maxQueued, turns, 0);
    case AwaitingDrain => LoopIsSafe(t, maxQueued, turns, 0);
  }

  lemma StepIsSafe(s: Direction, maxQueued: int, e: Event)
    requires Safe(s)
    ensures Safe(Step(s, maxQueued, e))
    ensures maxQueued > 0 && FlowControlled(s, maxQueued) ==>
      FlowControlled(Step(s, maxQueued, e), maxQueued)
  {
    hide AfterData, AfterEnd, AfterWake;
    match e
    case Data(chunks, turns) =>
      if !s.sourceEnded { DataIsSafe(s, chunks, maxQueued, turns); }
    case End(turns) =>
      if !s.sourceEnded { EndIsSafe(s, maxQueued, turns); }
    case Wake(task, turns) =>
      if task < |s.tasks| { WakeIsSafe(s, task, maxQueued, turns); }
    case Destroy =>
  }

  lemma {:induction false} RunIsSafe(s: Direction, maxQueued: int, events: seq<Event>)
    requires Safe(s)
    ensures Safe(Run(s, maxQueued, events))
    ensures maxQueued > 0 && FlowControlled(s, maxQueued) ==>
      FlowControlled(Run(s, maxQueued, events), maxQueued)
    decreases |events|
  {
    if events != [] {
      StepIsSafe(s, maxQueued, events[0]);
      RunIsSafe(Step(s, maxQueued, events[0]), maxQueued, events[1..]);
    }
  }

  /** Over every interleaving of data, end, timer, drain and close events. */
  lemma EveryRunIsSafe(maxQueued: int, events: seq<Event>)
    ensures
      var s := Run(INITIAL, maxQueued, events);
      Safe(s) && (maxQueued > 0 ==> FlowControlled(s, maxQueued))
  {
    RunIsSafe(INITIAL, maxQueued, events);
  }

  // ------------------------------------------------------------------- timing

  /** The loop is at its head: it has just started, had a write accepted, or was told to go on. */
  ghost predicate AtHead(last: Option<Action>) {
    last.None? || last.value.Drained? || (last.value.Wrote? && last.value.accepted)
  }

  /**
   * What a loop may do next. It sleeps only over a chunk that is not yet due, and then only wakes for that
   * chunk. It writes a chunk only when it has slept over it or when it is due. After a refused write it does
   * nothing until the destination has drained.
   */
  ghost predicate Follows(last: Option<Action>, next: Action) {
    match next
    case Slept(item, nowMs) => AtHead(last) && item.deliverAtMs > nowMs
    case Woke(item) => last.Some? && last.value.Slept? && last.value.item == item
    case Wrote(item, nowMs, _) => last == Some(Woke(item)) || (AtHead(last) && item.deliverAtMs <= nowMs)
    case Drained => last.Some? && last.value.Wrote? && !last.value.accepted
  }

  function Last(log: seq<Action>): Option<Action> {
    if log == [] then None else Some(log[|log| - 1])
  }

  ghost predicate Timely(log: seq<Action>) {
    forall k | 0 <= k < |log| :: Follows(Last(log[..k]), log[k])
  }

  function WrittenBy(log: seq<Action>): Bytes {
    if log == [] then []
    else
      var last := log[|log| - 1];
      WrittenBy(log[..|log| - 1]) + (if last.Wrote? then last.item.bytes else [])
  }

  /** Where the log ends is where the loop is, and it tells all that was written. */
  ghost predicate Timed(s: Direction) {
    && Timely(s.log)
    && WrittenBy(s.log) == s.written
    && (s.tasks == [] ==> s.destroyed || AtHead(Last(s.log)))
    && (|s.tasks| == 1 && s.tasks[0].Sleeping? ==>
          Last(s.log).Some? && Last(s.log).value.Slept? && Last(s.log).value.item == s.tasks[0].item)
    && (|s.tasks| == 1 && s.tasks[0].AwaitingDrain? ==>
          Last(s.log).Some? && Last(s.log).value.Wrote? && !Last(s.log).value.accepted)
  }

  lemma TimelySnoc(log: seq<Action>, next: Action)
    requires Timely(log) && Follows(Last(log), next)
    ensures Timely(log + [next]) && Last(log + [next]) == Some(next)
    ensures WrittenBy(log + [next]) == WrittenBy(log) + (if next.Wrote? then next.item.bytes else [])
  {
    var longer := log + [next];
    assert longer[..|log|] == log;
    forall k | 0 <= k < |longer|
      ensures Follows(Last(longer[..k]), longer[k])
    {
      if k < |log| {
        assert longer[..k] == log[..k] && Follows(Last(log[..k]), log[k]);
      }
    }
  }

  lemma UnwindIsTimed(s: Direction)
    requires Timed(s) && s.tasks == []
    ensures Timed(Unwind(s))
  {
    hide Timely, WrittenBy, AtHead, Last;
  }

  lemma {:induction false} LoopIsTimed(s: Direction, maxQueued: int, turns: Turns, i: nat)
    requires Timed(s) && s.tasks == []
    ensures Timed(Loop(s, maxQueued, turns, i))
    decreases |s.queue|, 0
  {
    hide Timely, WrittenBy, Unwind;
    if s.queue == [] || s.destroyed {
      UnwindIsTimed(s);
    } else {
      var item, t := s.queue[0], Pop(s, maxQueued);
      if item.deliverAtMs > turns(i).nowMs {
        TimelySnoc(t.log, Slept(item, turns(i).nowMs));
      } else {
        DeliverIsTimed(t, item, maxQueued, turns, i);
      }
    }
  }

  lemma {:induction false} DeliverIsTimed(s: Direction, item: Chunk, maxQueued: int, turns: Turns, i: nat)
    requires Timely(s.log) && WrittenBy(s.log) == s.written && s.tasks == []
    requires s.destroyed || Last(s.log) == Some(Woke(item)) || (AtHead(Last(s.log)) && item.deliverAtMs <= turns(i).nowMs)
    ensures Timed(Deliver(s, item, maxQueued, turns, i))
    decreases |s.queue|, 1
  {
    if !s.destroyed && turns(i).inspected {
      hide Timely, WrittenBy;
      TimelySnoc(s.log, Wrote(item, turns(i).nowMs, turns(i).accepted));
      if turns(i).accepted {
        LoopIsTimed(Written(s, item, turns(i)), maxQueued, turns, i + 1);
      }
    }
  }

  lemma WakeIsTimed(s: Direction, task: nat, maxQueued: int, turns: Turns)
    requires Timed(s) && |s.tasks| <= 1 && task < |s.tasks|
    ensures Timed(AfterWake(s, task, maxQueued, turns))
  {
    hide Loop, Deliver, Timely, WrittenBy;
    var t := Woken(s, task);
    TimelySnoc(s.log, t.log[|t.log| - 1]);
    match s.tasks[task]
    case Sleeping(item) => DeliverIsTimed(t, item, maxQueued, turns, 0);
    case AwaitingDrain => LoopIsTimed(t, maxQueued, turns, 0);
  }

  lemma StepIsTimed(s: Direction, maxQueued: int, e: Event)
    requires Safe(s) && Timed(s)
    ensures Timed(Step(s, maxQueued, e))
  {
    hide Loop, Deliver, Timely, WrittenBy, AfterWake;
    match e
    case Data(chunks, turns) =>
      if !s.destroyed && !s.draining {
        LoopIsTimed(AfterEnqueue(s, chunks, maxQueued).(draining := true), maxQueued, turns, 0);
      }
    case End(turns) =>
      if !s.draining {
        LoopIsTimed(s.(sourceEnded := true, draining := true), maxQueued, turns, 0);
      }
    case Wake(task, turns) =>
      if task < |s.tasks| { WakeIsTimed(s, task, maxQueued, turns); }
    case Destroy =>
  }

  lemma {:induction false} RunIsTimed(s: Direction, maxQueued: int, events: seq<Event>)
    requires Safe(s) && Timed(s)
    ensures Timed(Run(s, maxQueued, events))
    decreases |events|
  {
    if events != [] {
      StepIsSafe(s, maxQueued, events[0]);
      StepIsTimed(s, maxQueued, events[0]);
      hide Step, Safe, Timed;
      RunIsTimed(Step(s, maxQueued, events[0]), maxQueued, events[1..]);
    }
  }

  /**
   * Over every run: a chunk is written only after the loop has slept over it or when it is due, the loop sleeps
   * only over a chunk that is not, and a refused write holds the loop until the destination drains.
   */
  lemma EveryRunIsTimely(maxQueued: int, events: seq<Event>)
    ensures Timed(Run(INITIAL, maxQueued, events))
  {
    RunIsTimed(INITIAL, maxQueued, events);
  }

  /** No timer fires before its chunk is due. */
  ghost predicate TimersAreDue(s: Direction, maxQueued: int, events: seq<Event>)
    decreases |events|
  {
    events != [] ==>
      && (events[0].Wake? && events[0].task < |s.tasks| && s.tasks[events[0].task].Sleeping? ==>
            s.tasks[events[0].task].item.deliverAtMs <= events[0].turns(0).nowMs)
      && TimersAreDue(Step(s, maxQueued, events[0]), maxQueued, events[1..])
  }

  /** Nothing was written before it was due. */
  ghost predicate NeverEarly(log: seq<Action>) {
    forall a | a in log && a.Wrote? :: a.item.deliverAtMs <= a.nowMs
  }

  lemma {:induction false} LoopIsNeverEarly(s: Direction, maxQueued: int, turns: Turns, i: nat)
    requires NeverEarly(s.log)
    ensures NeverEarly(Loop(s, maxQueued, turns, i).log)
    decreases |s.queue|, 0
  {
    if s.queue != [] && !s.destroyed && !(s.queue[0].deliverAtMs > turns(i).nowMs) {
      DeliverIsNeverEarly(Pop(s, maxQueued), s.queue[0], maxQueued, turns, i);
    }
  }

  lemma {:induction false} DeliverIsNeverEarly(s: Direction, item: Chunk, maxQueued: int, turns: Turns, i: nat)
    requires NeverEarly(s.log) && item.deliverAtMs <= turns(i).nowMs
    ensures NeverEarly(Deliver(s, item, maxQueued, turns, i).log)
    decreases |s.queue|, 1
  {
    if !s.destroyed && turns(i).inspected && turns(i).accepted {
      LoopIsNeverEarly(Written(s, item, turns(i)), maxQueued, turns, i + 1);
    }
  }

  lemma StepIsNeverEarly(s: Direction, maxQueued: int, e: Event)
    requires NeverEarly(s.log) && TimersAreDue(s, maxQueued, [e])
    ensures NeverEarly(Step(s, maxQueued, e).log)
  {
    hide Loop, Deliver;
    match e
    case Data(chunks, turns) =>
      LoopIsNeverEarly(AfterEnqueue(s, chunks, maxQueued).(draining := true), maxQueued, turns, 0);
    case End(turns) => LoopIsNeverEarly(s.(sourceEnded := true, draining := true), maxQueued, turns, 0);
    case Wake(task, turns) =>
      if task < |s.tasks| {
        match s.tasks[task]
        case Sleeping(item) => DeliverIsNeverEarly(Woken(s, task), item, maxQueued, turns, 0);
        case AwaitingDrain => LoopIsNeverEarly(Woken(s, task), maxQueued, turns, 0);
      }
    case Destroy =>
  }

  /** With timers that do not fire early, every chunk waits out its latency and transmission before it is written. */
  lemma {:induction false} RunIsNeverEarly(s: Direction, maxQueued: int, events: seq<Event>)
    requires NeverEarly(s.log) && TimersAreDue(s, maxQueued, events)
    ensures NeverEarly(Run(s, maxQueued, events).log)
    decreases |events|
  {
    if events != [] {
      assert TimersAreDue(s, maxQueued, [events[0]]);
      StepIsNeverEarly(s, maxQueued, events[0]);
      hide Step, NeverEarly;
      RunIsNeverEarly(Step(s, maxQueued, events[0]), maxQueued, events[1..]);
    }
  }

  lemma LoopUninspected(s: Direction, maxQueued: int, turns: Turns)
    requires !turns(0).inspected
    ensures Loop(s, maxQueued, turns, 0).written == s.written
    ensures forall item :: Deliver(s, item, maxQueued, turns, 0).written == s.written
    ensures forall item :: Deliver(s, item, maxQueued, turns, 0).destroyed
  {}

  /** A chunk that the inspector throws on is not written, and the connection fails. */
  lemma NothingPassesUninspected(s: Direction, maxQueued: int, e: Event)
    requires !e.Destroy? ==> !e.turns(0).inspected
    ensures
      var t := Step(s, maxQueued, e);
      t.written == s.written
      && (e.Wake? && e.task < |s.tasks| && s.tasks[e.task].Sleeping? ==> t.destroyed)
  {
    hide Loop, Deliver;
    match e
    case Data(chunks, turns) => LoopUninspected(AfterEnqueue(s, chunks, maxQueued).(draining := true), maxQueued, turns);
    case End(turns) => LoopUninspected(s.(sourceEnded := true, draining := true), maxQueued, turns);
    case Wake(task, turns) =>
      if task < |s.tasks| { LoopUninspected(Woken(s, task), maxQueued, turns); }
    case Destroy =>
  }

  /**
   * After the connection has failed nothing is read, written or ended any more, and a loop that was suspended
   * clears the queue, lets the source flow and ends.
   */
  lemma NothingAfterFailure(s: Direction, maxQueued: int, e: Event)
    requires Safe(s) && s.destroyed
    ensures
      var t := Step(s, maxQueued, e);
      && t.destroyed && t.written == s.written && t.received == s.received && t.ends == s.ends && t.flow == s.flow
      && (e.Wake? && e.task < |s.tasks| ==>
            t.queue == [] && t.queuedBytes == 0 && !t.paused && !t.draining && t.tasks == [])
  {}

  // ------------------------------------------------------- what was read and held

  /** The source is paused with at least the bound queued, and resumed with less than half of it. */
  ghost predicate Regulated(s: Direction, maxQueued: int) {
    && (forall f | f in s.flow ::
          match f
          case Held(queued) => queued >= maxQueued
          case Resumed(queued) => 2 * queued < maxQueued)
    && (!s.destroyed ==> (s.paused <==> s.flow != [] && s.flow[|s.flow| - 1].Held?))
  }

  lemma {:induction false} LoopIsRegulated(s: Direction, maxQueued: int, turns: Turns, i: nat)
    requires Regulated(s, maxQueued)
    ensures
      var t := Loop(s, maxQueued, turns, i);
      Regulated(t, maxQueued) && t.received == s.received && t.sourceEnded == s.sourceEnded
      && (s.destroyed ==> t.destroyed)
    decreases |s.queue|, 0
  {
    if s.queue != [] && !s.destroyed {
      assert Regulated(Pop(s, maxQueued), maxQueued);
      hide Regulated;
      DeliverIsRegulated(Pop(s, maxQueued), s.queue[0], maxQueued, turns, i);
    }
  }

  lemma {:induction false} DeliverIsRegulated(s: Direction, item: Chunk, maxQueued: int, turns: Turns, i: nat)
    requires Regulated(s, maxQueued)
    ensures
      var t := Deliver(s, item, maxQueued, turns, i);
      Regulated(t, maxQueued) && t.received == s.received && t.sourceEnded == s.sourceEnded
      && (s.destroyed ==> t.destroyed)
    decreases |s.queue|, 1
  {
    if !s.destroyed && turns(i).inspected && turns(i).accepted {
      LoopIsRegulated(Written(s, item, turns(i)), maxQueued, turns, i + 1);
    }
  }

  /** What an event brings from the source. */
  function DataOf(e: Event): Bytes {
    if e.Data? then Concat(e.chunks) else []
  }

  lemma StepIsRegulated(s: Direction, maxQueued: int, e: Event)
    requires Regulated(s, maxQueued)
    ensures
      var t := Step(s, maxQueued, e);
      Regulated(t, maxQueued) && (s.destroyed ==> t.destroyed)
      && t.received == (if s.destroyed || s.sourceEnded then s.received else s.received + DataOf(e))
      && t.sourceEnded == (s.sourceEnded || e.End?)
  {
    hide Loop, Deliver, Concat, QueueBytes;
    match e
    case Data(chunks, turns) =>
      LoopIsRegulated(AfterEnqueue(s, chunks, maxQueued).(draining := true), maxQueued, turns, 0);
    case End(turns) => LoopIsRegulated(s.(sourceEnded := true, draining := true), maxQueued, turns, 0);
    case Wake(task, turns) =>
      if task < |s.tasks| {
        match s.tasks[task]
        case Sleeping(item) => DeliverIsRegulated(Woken(s, task), item, maxQueued, turns, 0);
        case AwaitingDrain => LoopIsRegulated(Woken(s, task), maxQueued, turns, 0);
      }
    case Destroy =>
  }

  /** Everything the source emitted before it ended. */
  function AllData(events: seq<Event>): Bytes
    decreases |events|
  {
    if events == [] || events[0].End? then [] else DataOf(events[0]) + AllData(events[1..])
  }

  lemma {:induction false} RunIsRegulated(s: Direction, maxQueued: int, events: seq<Event>)
    requires Regulated(s, maxQueued)
    ensures
      var t := Run(s, maxQueued, events);
      Regulated(t, maxQueued) && (s.destroyed ==> t.destroyed)
      && (!t.destroyed ==> t.received == s.received + (if s.sourceEnded then [] else AllData(events)))
    decreases |events|
  {
    if events == [] {
      assert s.received + [] == s.received;
    } else {
      StepIsRegulated(s, maxQueued, events[0]);
      hide Step, Regulated, DataOf;
      RunIsRegulated(Step(s, maxQueued, events[0]), maxQueued, events[1..]);
      AppendAssociates(s.received, DataOf(events[0]), AllData(events[1..]));
      EndBringsNothing(events[0]);
    }
  }

  lemma EndBringsNothing(e: Event)
    ensures e.End? ==> DataOf(e) == []
  {}

  /**
   * Over every run: until the connection fails, what counts as received is exactly what the source emitted; it
   * is paused only at the bound, resumed only below half of it, and is paused if it was paused last.
   */
  lemma EveryRunIsRegulated(maxQueued: int, events: seq<Event>)
    ensures
      var s := Run(INITIAL, maxQueued, events);
      Regulated(s, maxQueued) && (!s.destroyed ==> s.received == AllData(events))
  {
    RunIsRegulated(INITIAL, maxQueued, events);
    assert [] + AllData(events) == AllData(events);
  }

  // ---------------------------------------------------------------- progress

  ghost function Work(s: Direction): nat {
    2 * |s.queue| + (if |s.tasks| == 1 && s.tasks[0].Sleeping? then 1 else 0)
  }

  ghost predicate InspectorAccepts(turns: Turns) {
    forall i :: turns(i).inspected
  }

  lemma {:induction false} LoopProgress(s: Direction, maxQueued: int, turns: Turns, i: nat)
    requires SafeInside(s, []) && !s.destroyed && InspectorAccepts(turns)
    ensures
      var t := Loop(s, maxQueued, turns, i);
      !t.destroyed && t.sourceEnded == s.sourceEnded && t.received == s.received
      && (t.draining ==> Work(t) <= 2 * |s.queue| && (s.queue == [] ==> !t.draining))
      && (t.draining && s.queue != [] ==> Work(t) < 2 * |s.queue|)
    decreases |s.queue|, 0
  {
    if s.queue != [] {
      var item, t := s.queue[0], Pop(s, maxQueued);
      assert s.received == s.written + item.bytes + Concat(t.queue);
      if !(item.deliverAtMs > turns(i).nowMs) {
        DeliverProgress(t, item, maxQueued, turns, i);
      }
    }
  }

  lemma {:induction false} DeliverProgress(s: Direction, item: Chunk, maxQueued: int, turns: Turns, i: nat)
    requires SafeInside(s, item.bytes) && !s.destroyed && InspectorAccepts(turns)
    ensures
      var t := Deliver(s, item, maxQueued, turns, i);
      !t.destroyed && t.sourceEnded == s.sourceEnded && t.received == s.received
      && (t.draining ==> Work(t) <= 2 * |s.queue|)
    decreases |s.queue|, 1
  {
    assert turns(i).inspected;
    var t := Written(s, item, turns(i));
    assert t.written + [] + Concat(t.queue) == s.received;
    if turns(i).accepted {
      LoopProgress(t, maxQueued, turns, i + 1);
    }
  }

  lemma WakeProgress(s: Direction, maxQueued: int, turns: Turns)
    requires Safe(s) && s.draining && !s.destroyed && InspectorAccepts(turns)
    ensures
      var t := Step(s, maxQueued, Wake(0, turns));
      !t.destroyed && t.sourceEnded == s.sourceEnded && t.received == s.received && (t.draining ==> Work(t) < Work(s))
  {
    var t := Woken(s, 0);
    match s.tasks[0]
    case Sleeping(item) => DeliverProgress(t, item, maxQueued, turns, 0);
    case AwaitingDrain => LoopProgress(t, maxQueued, turns, 0);
  }

  function WakeAll(turns: seq<Turns>): seq<Event> {
    seq(|turns|, i requires 0 <= i < |turns| => Wake(0, turns[i]))
  }

  /**
   * A source cannot stay paused: after as many timer and drain events as there is work, every byte is
   * written, the source flows again, and a pending end of file has been passed on.
   */
  lemma {:induction false} DrainsToTheEnd(s: Direction, maxQueued: int, turns: seq<Turns>)
    requires maxQueued > 0 && Safe(s) && FlowControlled(s, maxQueued) && !s.destroyed
    requires (forall i | 0 <= i < |turns| :: InspectorAccepts(turns[i])) && |turns| > Work(s)
    ensures
      var t := Run(s, maxQueued, WakeAll(turns));
      !t.draining && !t.paused && t.queue == [] && t.received == s.received && t.written == t.received
      && (t.ends == 1 <==> s.sourceEnded)
    decreases |turns|
  {
    var e := Wake(0, turns[0]);
    assert WakeAll(turns)[0] == e && WakeAll(turns)[1..] == WakeAll(turns[1..]);
    StepIsSafe(s, maxQueued, e);
    var t := Step(s, maxQueued, e);
    if s.draining {
      WakeProgress(s, maxQueued, turns[0]);
      if t.draining {
        DrainsToTheEnd(t, maxQueued, turns[1..]);
      } else {
        IdleStays(t, maxQueued, turns[1..]);
      }
    } else {
      IdleStays(t, maxQueued, turns[1..]);
    }
  }

  lemma {:induction false} IdleStays(s: Direction, maxQueued: int, turns: seq<Turns>)
    requires s.tasks == []
    ensures Run(s, maxQueued, WakeAll(turns)) == s
  {
    if turns != [] {
      assert WakeAll(turns)[0] == Wake(0, turns[0]) && WakeAll(turns)[1..] == WakeAll(turns[1..]);
      IdleStays(s, maxQueued, turns[1..]);
    }
  }

  // ------------------------------------------------------ without room to queue

  /** A paused source with no drain loop and nothing queued. */
  ghost predicate Stuck(s: Direction) {
    s.paused && !s.draining && s.tasks == [] && s.queue == [] && !s.destroyed
  }

  /** Neither data nor a close. */
  ghost predicate WithoutData(events: seq<Event>) {
    forall e | e in events :: !e.Data? && !e.Destroy?
  }

  lemma {:induction false} StuckStays(s: Direction, maxQueued: int, events: seq<Event>)
    requires Stuck(s) && WithoutData(events)
    ensures Stuck(Run(s, maxQueued, events))
    decreases |events|
  {
    if events != [] {
      assert events[0] in events && forall e | e in events[1..] :: e in events;
      assert Stuck(Step(s, maxQueued, events[0]));
      hide Step, Stuck;
      StuckStays(Step(s, maxQueued, events[0]), maxQueued, events[1..]);
    }
  }

  /**
   * The queue bound must be positive for that: otherwise one chunk, once delivered, leaves the source paused
   * with no drain loop; and since a paused source emits no data, nothing but a close ever comes after.
   */
  lemma PausesForeverWithoutRoom(maxQueued: int, chunk: Chunk, turns: Turns, later: seq<Event>)
    requires maxQueued <= 0 && turns(0) == Turn(chunk.deliverAtMs, true, true)
    requires WithoutData(later)
    ensures Stuck(Run(Step(INITIAL, maxQueued, Data([chunk], turns)), maxQueued, later))
  {
    var e := Data([chunk], turns);
    var t := AfterEnqueue(INITIAL, [chunk], maxQueued).(draining := true);
    assert t.queue == [chunk] && QueueBytes([chunk]) == |chunk.bytes|;
    var u := Pop(t, maxQueued);
    var v := Written(u, chunk, turns(0));
    assert Loop(t, maxQueued, turns, 0) == Loop(v, maxQueued, turns, 1) == Unwind(v);
    assert Stuck(Step(INITIAL, maxQueued, e));
    hide Step, Stuck, Loop;
    StuckStays(Step(INITIAL, maxQueued, e), maxQueued, later);
  }

  /** Backpressure holds over all runs if and only if the queue bound is positive. */
  lemma FlowControlNeedsRoom(maxQueued: int)
    ensures (forall events :: FlowControlled(Run(INITIAL, maxQueued, events), maxQueued)) <==> maxQueued > 0
  {
    if maxQueued > 0 {
      forall events
        ensures FlowControlled(Run(INITIAL, maxQueued, events), maxQueued)
      {
        EveryRunIsSafe(maxQueued, events);
      }
    } else {
      var chunk := OneByteShaped();
      var turns := (i: nat) => Turn(chunk.deliverAtMs, true, true);
      var events := [Data([chunk], turns)];
      PausesForeverWithoutRoom(maxQueued, chunk, turns, []);
      assert Run(INITIAL, maxQueued, events) == Run(Step(INITIAL, maxQueued, events[0]), maxQueued, []);
      assert !FlowControlled(Run(INITIAL, maxQueued, events), maxQueued);
    }
  }

  /** What the shaper makes of one byte, at time zero and over a link without latency. */
  function OneByteShaped(): Chunk {
    var chunks := Shape([0], 1, _ => 0.0, 0, 0.0, 1.0, 0.0).0;
    assert chunks != [];
    chunks[0]
  }

  // ------------------------------------------------- the direction in place

  /** A chunk's quanta, each stamped by the clock in turn, and when the clock is free again. */
  function Shape(
      bytes: Bytes, quantum: nat, enqueuedMs: nat -> real, i: nat, oneWayLatencyMs: real, rate: real, busyUntil: real)
    : (r: (seq<Chunk>, real))
    requires quantum > 0 && rate > 0.0
    decreases |bytes|
  {
    if bytes == [] then ([], busyUntil)
    else
      var length := if |bytes| <= quantum then |bytes| else quantum;
      var finish := Next(busyUntil, Reservation(length, enqueuedMs(i), oneWayLatencyMs), rate);
      var rest := Shape(bytes[length..], quantum, enqueuedMs, i + 1, oneWayLatencyMs, rate, finish);
      ([Chunk(bytes[..length], finish)] + rest.0, rest.1)
  }

  lemma NothingToShape(
      bytes: Bytes, quantum: nat, enqueuedMs: nat -> real, i: nat, oneWayLatencyMs: real, rate: real, busyUntil: real)
    requires quantum > 0 && rate > 0.0 && |bytes| == 0
    ensures Shape(bytes, quantum, enqueuedMs, i, oneWayLatencyMs, rate, busyUntil) == ([], busyUntil)
  {}

  /** What the data handler tells the inspector. */
  datatype Report = Queued(queuedBytes: int, delayMs: real) | Paused

  /** After each quantum: the bytes queued by then, and how long the shared link keeps the quantum waiting. */
  function Reports(
      bytes: Bytes, quantum: nat, enqueuedMs: nat -> real, i: nat, oneWayLatencyMs: real, rate: real, busyUntil: real,
      queuedBytes: int)
    : seq<Report>
    requires quantum > 0 && rate > 0.0
    decreases |bytes|
  {
    if bytes == [] then []
    else
      var length := if |bytes| <= quantum then |bytes| else quantum;
      var r := Reservation(length, enqueuedMs(i), oneWayLatencyMs);
      [Queued(queuedBytes + length, MaxReal(0.0, busyUntil - r.ReadyMs()))]
      + Reports(
        bytes[length..], quantum, enqueuedMs, i + 1, oneWayLatencyMs, rate, Next(busyUntil, r, rate),
        queuedBytes + length)
  }

  lemma ReportTurn(
      bytes: Bytes, quantum: nat, enqueuedMs: nat -> real, i: nat, oneWayLatencyMs: real, rate: real, busyUntil: real,
      queuedBytes: int, done: seq<Report>)
    requires quantum > 0 && rate > 0.0 && |bytes| > 0
    ensures
      var length := if |bytes| <= quantum then |bytes| else quantum;
      var r := Reservation(length, enqueuedMs(i), oneWayLatencyMs);
      done + Reports(bytes, quantum, enqueuedMs, i, oneWayLatencyMs, rate, busyUntil, queuedBytes)
      == done + [Queued(queuedBytes + length, MaxReal(0.0, busyUntil - r.ReadyMs()))]
         + Reports(
           bytes[length..], quantum, enqueuedMs, i + 1, oneWayLatencyMs, rate, Next(busyUntil, r, rate),
           queuedBytes + length)
  {
    hide Next;
  }

  lemma NothingToReport(
      quantum: nat, enqueuedMs: nat -> real, i: nat, oneWayLatencyMs: real, rate: real, busyUntil: real,
      queuedBytes: int)
    requires quantum > 0 && rate > 0.0
    ensures Reports([], quantum, enqueuedMs, i, oneWayLatencyMs, rate, busyUntil, queuedBytes) == []
  {}

  lemma ShapeTurn(
      bytes: Bytes, quantum: nat, enqueuedMs: nat -> real, i: nat, oneWayLatencyMs: real, rate: real, busyUntil: real,
      done: seq<Chunk>)
    requires quantum > 0 && rate > 0.0 && |bytes| > 0
    ensures
      var length := if |bytes| <= quantum then |bytes| else quantum;
      var finish := Next(busyUntil, Reservation(length, enqueuedMs(i), oneWayLatencyMs), rate);
      var whole := Shape(bytes, quantum, enqueuedMs, i, oneWayLatencyMs, rate, busyUntil);
      var rest := Shape(bytes[length..], quantum, enqueuedMs, i + 1, oneWayLatencyMs, rate, finish);
      whole.1 == rest.1 && done + whole.0 == done + [Chunk(bytes[..length], finish)] + rest.0
  {
    hide Next;
  }

  /** Shaping keeps the bytes, in order, in quanta of at most the quantum. */
  lemma {:induction false} ShapeKeepsBytes(
      bytes: Bytes, quantum: nat, enqueuedMs: nat -> real, i: nat, oneWayLatencyMs: real, rate: real, busyUntil: real)
    requires quantum > 0 && rate > 0.0
    ensures
      var chunks := Shape(bytes, quantum, enqueuedMs, i, oneWayLatencyMs, rate, busyUntil).0;
      && Concat(chunks) == bytes && QueueBytes(chunks) == |bytes|
      && forall k | 0 <= k < |chunks| :: 1 <= |chunks[k].bytes| <= quantum
    decreases |bytes|
  {
    hide Next;
    if bytes != [] {
      var length := if |bytes| <= quantum then |bytes| else quantum;
      var finish := Next(busyUntil, Reservation(length, enqueuedMs(i), oneWayLatencyMs), rate);
      ShapeKeepsBytes(bytes[length..], quantum, enqueuedMs, i + 1, oneWayLatencyMs, rate, finish);
      assert bytes[..length] + bytes[length..] == bytes;
    }
  }

  /** Each chunk is due after the one ahead of it, and after its own propagation and transmission. */
  ghost predicate DueInOrder(
      chunks: seq<Chunk>, enqueuedMs: nat -> real, i: nat, oneWayLatencyMs: real, rate: real, busyUntil: real)
    requires rate > 0.0
  {
    chunks != [] ==>
      var due := chunks[0].deliverAtMs;
      && due > busyUntil
      && due >= enqueuedMs(i) + oneWayLatencyMs + SerializationMilliseconds(|chunks[0].bytes|, rate)
      && DueInOrder(chunks[1..], enqueuedMs, i + 1, oneWayLatencyMs, rate, due)
  }

  lemma {:induction false} ShapeDeliversInOrder(
      bytes: Bytes, quantum: nat, enqueuedMs: nat -> real, i: nat, oneWayLatencyMs: real, rate: real, busyUntil: real)
    requires quantum > 0 && rate > 0.0
    ensures DueInOrder(
      Shape(bytes, quantum, enqueuedMs, i, oneWayLatencyMs, rate, busyUntil).0,
      enqueuedMs, i, oneWayLatencyMs, rate, busyUntil)
    decreases |bytes|
  {
    if bytes != [] {
      var length := if |bytes| <= quantum then |bytes| else quantum;
      var r := Reservation(length, enqueuedMs(i), oneWayLatencyMs);
      var finish := Next(busyUntil, r, rate);
      ReservationWaits(busyUntil, r, rate);
      hide Next, SerializationMilliseconds;
      ShapeDeliversInOrder(bytes[length..], quantum, enqueuedMs, i + 1, oneWayLatencyMs, rate, finish);
      var rest := Shape(bytes[length..], quantum, enqueuedMs, i + 1, oneWayLatencyMs, rate, finish).0;
      assert Shape(bytes, quantum, enqueuedMs, i, oneWayLatencyMs, rate, busyUntil).0
          == [Chunk(bytes[..length], finish)] + rest;
      assert ([Chunk(bytes[..length], finish)] + rest)[1..] == rest;
    }
  }

  /** Reserving a block in quanta at one instant ends when reserving it whole would. */
  lemma {:induction false} QuantaFinishTogether(
      bytes: Bytes, quantum: nat, enqueuedMs: nat -> real, i: nat, oneWayLatencyMs: real, rate: real, busyUntil: real)
    requires quantum > 0 && rate > 0.0 && bytes != []
    requires forall k: nat :: enqueuedMs(k) == enqueuedMs(i)
    ensures Shape(bytes, quantum, enqueuedMs, i, oneWayLatencyMs, rate, busyUntil).1
         == Next(busyUntil, Reservation(|bytes|, enqueuedMs(i), oneWayLatencyMs), rate)
    decreases |bytes|
  {
    if |bytes| <= quantum {
      NothingToShape(
        bytes[|bytes|..], quantum, enqueuedMs, i + 1, oneWayLatencyMs, rate,
        Next(busyUntil, Reservation(|bytes|, enqueuedMs(i), oneWayLatencyMs), rate));
    } else {
      var first := Reservation(quantum, enqueuedMs(i), oneWayLatencyMs);
      assert enqueuedMs(i + 1) == enqueuedMs(i);
      QuantaFinishTogether(
        bytes[quantum..], quantum, enqueuedMs, i + 1, oneWayLatencyMs, rate, Next(busyUntil, first, rate));
      SerializationAdds(quantum, |bytes| - quantum, rate);
      hide SerializationMilliseconds;
    }
  }

  class ShapedDirection {
    const oneWayLatencyMs: real
    const megabitsPerSecond: real
    const quantumBytes: nat
    const maxQueuedBytes: int
    const clock: SerializationClock

    var queue: seq<Chunk>
    var queuedBytes: int
    var draining: bool
    var sourceEnded: bool
    /** `source.isPaused()` and `destination.destroyed`. */
    var paused: bool
    var destroyed: bool
    /** Drain loops suspended at an await. */
    var tasks: seq<Task>
    /** The destination's view: what was written, and how often it was ended. */
    var written: Bytes
    var ends: nat
    ghost var received: Bytes
    ghost var log: seq<Action>
    ghost var flow: seq<Flow>
    /** What the data handler has told the inspector. */
    var reports: seq<Report>

    ghost predicate Valid() {
      megabitsPerSecond > 0.0 && quantumBytes > 0
    }

    ghost function State(): Direction
      reads this
    {
      Direction(
        queue, queuedBytes, draining, sourceEnded, paused, destroyed, tasks, received, written, ends, log, flow)
    }

    constructor (
        oneWayLatencyMs: real, megabitsPerSecond: real, quantumBytes: nat, maxQueuedBytes: int, clock: SerializationClock)
      requires megabitsPerSecond > 0.0 && quantumBytes > 0
      ensures Valid() && State() == INITIAL && reports == []
      ensures this.oneWayLatencyMs == oneWayLatencyMs && this.megabitsPerSecond == megabitsPerSecond
      ensures this.quantumBytes == quantumBytes && this.maxQueuedBytes == maxQueuedBytes && this.clock == clock
    {
      this.oneWayLatencyMs, this.megabitsPerSecond := oneWayLatencyMs, megabitsPerSecond;
      this.quantumBytes, this.maxQueuedBytes, this.clock := quantumBytes, maxQueuedBytes, clock;
      queue, queuedBytes, draining, sourceEnded, paused, destroyed := [], 0, false, false, false, false;
      tasks, written, ends, received, reports, log, flow := [], [], 0, [], [], [], [];
    }

    /** Runs a drain loop, from its head or from the delivery of `resumed`, to its next await or its end. */
    method RunLoop(resumed: Option<Chunk>, turns: Turns)
      modifies this
      ensures State() ==
        if resumed.None? then Loop(old(State()), maxQueuedBytes, turns, 0)
        else Deliver(old(State()), resumed.value, maxQueuedBytes, turns, 0)
      ensures reports == old(reports)
    {
      ghost var target :=
        if resumed.None? then Loop(State(), maxQueuedBytes, turns, 0)
        else Deliver(State(), resumed.value, maxQueuedBytes, turns, 0);
      var i := 0;
      var current := resumed;
      while true
        invariant target ==
          if current.None? then Loop(State(), maxQueuedBytes, turns, i)
          else Deliver(State(), current.value, maxQueuedBytes, turns, i)
        invariant reports == old(reports)
        decreases |queue|, if current.Some? then 1 else 0
      {
        if current.None? {
          if queue == [] || destroyed { break; }
          var item := TakeNext();
          if item.deliverAtMs > turns(i).nowMs {
            tasks, log := tasks + [Sleeping(item)], log + [Slept(item, turns(i).nowMs)];
            return;
          }
          current := Some(item);
        } else {
          if destroyed { break; }
          if !turns(i).inspected {
            draining, destroyed := false, true;
            return;
          }
          written := written + current.value.bytes;
          log := log + [Wrote(current.value, turns(i).nowMs, turns(i).accepted)];
          if !turns(i).accepted {
            tasks := tasks + [AwaitingDrain];
            return;
          }
          current, i := None, i + 1;
        }
      }
      LeaveLoop();
    }

    /** The loop's `finally` block, and the end of file once everything has been written. */
    method LeaveLoop()
      modifies this
      ensures State() == Unwind(old(State()))
      ensures reports == old(reports)
    {
      if destroyed {
        queue, queuedBytes, paused := [], 0, false;
      }
      draining := false;
      if sourceEnded && !destroyed { ends := ends + 1; }
    }

    method TakeNext() returns (item: Chunk)
      requires queue != []
      modifies this
      ensures item == old(queue[0]) && State() == Pop(old(State()), maxQueuedBytes)
      ensures reports == old(reports)
    {
      item := queue[0];
      queue := queue[1..];
      queuedBytes := queuedBytes - |item.bytes|;
      if paused && 2 * queuedBytes < maxQueuedBytes {
        paused, flow := false, flow + [Resumed(queuedBytes)];
      }
    }

    method StartDrain(turns: Turns)
      modifies this
      ensures State() == AfterStart(old(State()), maxQueuedBytes, turns)
      ensures reports == old(reports)
    {
      if !draining {
        draining := true;
        RunLoop(None, turns);
      }
    }

    /** The chunks and the clock after reading `bytes`. */
    ghost function Shaped(bytes: Bytes, enqueuedMs: nat -> real): (seq<Chunk>, real)
      requires Valid()
      reads clock
    {
      Shape(bytes, quantumBytes, enqueuedMs, 0, oneWayLatencyMs, megabitsPerSecond, clock.nextFinishMs)
    }

    ghost function Reported(bytes: Bytes, enqueuedMs: nat -> real): seq<Report>
      requires Valid()
      reads this, clock
    {
      Reports(bytes, quantumBytes, enqueuedMs, 0, oneWayLatencyMs, megabitsPerSecond, clock.nextFinishMs, queuedBytes)
    }

    method OnData(bytes: Bytes, enqueuedMs: nat -> real, turns: Turns)
      requires Valid()
      modifies this, clock
      ensures State() == AfterData(old(State()), old(Shaped(bytes, enqueuedMs)).0, maxQueuedBytes, turns)
      ensures clock.nextFinishMs == if old(destroyed) then old(clock.nextFinishMs) else old(Shaped(bytes, enqueuedMs)).1
      ensures reports
        == if old(destroyed) then old(reports)
           else
             old(reports) + old(Reported(bytes, enqueuedMs))
             + (if old(queuedBytes) + |bytes| >= maxQueuedBytes then [Paused] else [])
    {
      hide Next, Loop, Shape, Reports;
      if destroyed { return; }
      ShapeKeepsBytes(bytes, quantumBytes, enqueuedMs, 0, oneWayLatencyMs, megabitsPerSecond, clock.nextFinishMs);
      Enqueue(bytes, enqueuedMs);
      received := received + bytes;
      if queuedBytes >= maxQueuedBytes {
        paused, flow, reports := true, flow + [Held(queuedBytes)], reports + [Paused];
      }
      StartDrain(turns);
    }

    /** With `rest` still to be cut, at reading `i` of the clock: what the queue, the clock and the reports become. */
    ghost predicate Enqueuing(
      goal: Direction, finish: real, told: seq<Report>, rest: Bytes, enqueuedMs: nat -> real, i: nat)
      requires Valid()
      reads this, clock
    {
      var shaped := Shape(rest, quantumBytes, enqueuedMs, i, oneWayLatencyMs, megabitsPerSecond, clock.nextFinishMs);
      && goal == State().(queue := queue + shaped.0, queuedBytes := queuedBytes + |rest|)
      && finish == shaped.1
      && told
         == reports + Reports(
           rest, quantumBytes, enqueuedMs, i, oneWayLatencyMs, megabitsPerSecond, clock.nextFinishMs, queuedBytes)
    }

    /** Cuts a chunk into quanta, and reserves, queues and reports each. */
    method Enqueue(bytes: Bytes, enqueuedMs: nat -> real)
      requires Valid()
      modifies this, clock
      ensures State() == old(State()).(
        queue := old(queue) + old(Shaped(bytes, enqueuedMs)).0,
        queuedBytes := old(queuedBytes) + |bytes|)
      ensures clock.nextFinishMs == old(Shaped(bytes, enqueuedMs)).1
      ensures reports == old(reports) + old(Reported(bytes, enqueuedMs))
    {
      ghost var shaped, told := Shaped(bytes, enqueuedMs), reports + Reported(bytes, enqueuedMs);
      ghost var goal := State().(queue := queue + shaped.0, queuedBytes := queuedBytes + |bytes|);
      var rest, i := bytes, 0;
      hide Next, Shape, Reports;
      while |rest| > 0
        invariant Enqueuing(goal, shaped.1, told, rest, enqueuedMs, i)
      {
        EnqueueNext(rest, enqueuedMs, i, goal, shaped.1, told);
        rest, i := rest[if |rest| <= quantumBytes then |rest| else quantumBytes..], i + 1;
      }
      NothingToShape(rest, quantumBytes, enqueuedMs, i, oneWayLatencyMs, megabitsPerSecond, clock.nextFinishMs);
      NothingToReport(
        quantumBytes, enqueuedMs, i, oneWayLatencyMs, megabitsPerSecond, clock.nextFinishMs, queuedBytes);
      assert rest == [] && reports + [] == reports && queue + [] == queue;
    }

    method EnqueueNext(
        rest: Bytes, enqueuedMs: nat -> real, i: nat, ghost goal: Direction, ghost finish: real,
        ghost told: seq<Report>)
      requires Valid() && |rest| > 0 && Enqueuing(goal, finish, told, rest, enqueuedMs, i)
      modifies this, clock
      ensures
        Enqueuing(
          goal, finish, told, rest[if |rest| <= quantumBytes then |rest| else quantumBytes..], enqueuedMs, i + 1)
    {
      hide Next, Shape, Reports;
      ShapeTurn(rest, quantumBytes, enqueuedMs, i, oneWayLatencyMs, megabitsPerSecond, clock.nextFinishMs, queue);
      ReportTurn(
        rest, quantumBytes, enqueuedMs, i, oneWayLatencyMs, megabitsPerSecond, clock.nextFinishMs, queuedBytes,
        reports);
      EnqueueQuantum(rest[..if |rest| <= quantumBytes then |rest| else quantumBytes], enqueuedMs(i));
    }

    method EnqueueQuantum(part: Bytes, enqueuedMs: real)
      requires Valid()
      modifies this, clock
      ensures clock.nextFinishMs
           == Next(old(clock.nextFinishMs), Reservation(|part|, enqueuedMs, oneWayLatencyMs), megabitsPerSecond)
      ensures State() == old(State()).(
        queue := old(queue) + [Chunk(part, clock.nextFinishMs)],
        queuedBytes := old(queuedBytes) + |part|)
      ensures reports
        == old(reports)
           + [Queued(
                old(queuedBytes) + |part|,
                MaxReal(0.0, old(clock.nextFinishMs) - Reservation(|part|, enqueuedMs, oneWayLatencyMs).ReadyMs()))]
    {
      DelayIsWaiting(clock.nextFinishMs, Reservation(|part|, enqueuedMs, oneWayLatencyMs), megabitsPerSecond);
      hide Next, SerializationMilliseconds;
      var finish := clock.Reserve(|part|, enqueuedMs, oneWayLatencyMs, megabitsPerSecond);
      queue := queue + [Chunk(part, finish.value)];
      queuedBytes := queuedBytes + |part|;
      var delayMs :=
        finish.value - enqueuedMs - oneWayLatencyMs - SerializationMilliseconds(|part|, megabitsPerSecond);
      reports := reports + [Queued(queuedBytes, MaxReal(0.0, delayMs))];
    }

    method OnEnd(turns: Turns)
      modifies this
      ensures State() == AfterEnd(old(State()), maxQueuedBytes, turns)
      ensures reports == old(reports)
    {
      sourceEnded := true;
      StartDrain(turns);
    }

    method OnWake(task: nat, turns: Turns)
      requires task < |tasks|
      modifies this
      ensures State() == AfterWake(old(State()), task, maxQueuedBytes, turns)
      ensures reports == old(reports)
    {
      var woken := tasks[task];
      tasks := tasks[..task] + tasks[task + 1..];
      log := log + [if woken.Sleeping? then Woke(woken.item) else Drained];
      RunLoop(if woken.Sleeping? then Some(woken.item) else None, turns);
    }
  }
}
