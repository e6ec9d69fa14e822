/**
 * The development server's rebuild queue and the timer around it, as a machine over its events. A drain
 * is interrupted only where it awaits a rebuild.
 */
module NativeRebuilds {
  import opened Basics

  datatype Queue = Queue(building: bool, dirty: bool, reloadRequested: bool)

  const IDLE := Queue(false, false, false)

  /** Where a drain gets to: it awaits a rebuild, or it returns. */
  datatype Progress = Awaits(reload: bool) | Returns(value: bool)

  function Requested(q: Queue, reload: bool): Queue {
    q.(dirty := true, reloadRequested := q.reloadRequested || reload)
  }

  /** A drain's loop from its head. */
  function Turn(q: Queue, latestSucceeded: bool, stopping: bool): (Queue, Progress) {
    if q.dirty && !stopping then (q.(dirty := false, reloadRequested := false), Awaits(q.reloadRequested))
    else (q.(building := false), Returns(latestSucceeded && !stopping))
  }

  function Started(q: Queue, stopping: bool): (Queue, Progress) {
    if q.building || stopping then (q, Returns(false)) else Turn(q.(building := true), true, stopping)
  }

  class NativeRebuildQueue {
    var building: bool
    var dirty: bool
    var reloadRequested: bool

    ghost function State(): Queue
      reads this
    {
      Queue(building, dirty, reloadRequested)
    }

    constructor ()
      ensures State() == IDLE
    {
      building, dirty, reloadRequested := false, false, false;
    }

    method Request(reload: bool)
      modifies this
      ensures State() == Requested(old(State()), reload)
    {
      dirty := true;
      reloadRequested := reloadRequested || reload;
    }

    /** A drain's first segment. */
    method Drain(stopping: bool) returns (p: Progress)
      modifies this
      ensures (State(), p) == Started(old(State()), stopping)
    {
      if building || stopping { return Returns(false); }
      building := true;
      p := Continue(true, stopping);
    }

    /** The segment after a rebuild has answered, and the loop's head in general. */
    method Continue(latestSucceeded: bool, stopping: bool) returns (p: Progress)
      modifies this
      ensures (State(), p) == Turn(old(State()), latestSucceeded, stopping)
    {
      if dirty && !stopping {
        dirty := false;
        var reload := reloadRequested;
        reloadRequested := false;
        return Awaits(reload);
      }
      p := Returns(latestSucceeded && !stopping);
      building := false;
    }

    /** The `finally` block when the rebuild throws. */
    method Abort()
      modifies this
      ensures State() == old(State()).(building := false)
    {
      building := false;
    }
  }

  // ------------------------------------------------------------------ the server

  /** What a drain's caller could see: whether work was pending, and how the latest rebuild had ended. */
  datatype Call = Call(pending: bool, latest: Option<bool>)

  /** A suspended activity: a drain awaiting its rebuild, or a failed background drain about to reschedule. */
  datatype Task = Rebuilding(initial: bool, call: Call) | Failing

  /** A rebuild's start: how many requests had been made by then, and the flag it was given. */
  datatype Start = Start(covered: nat, reload: bool)

  /**
   * A drain's return: whether it ran, whether the server was stopping, its own last rebuild's answer, whether
   * work is pending, what its caller saw, and how the server's latest rebuild has ended by now.
   */
  datatype Return = Return(
    value: bool, ran: bool, stopping: bool, own: Option<bool>, pending: bool, call: Call, latest: Option<bool>)

  datatype Server = Server(
    queue: Queue,
    timerArmed: bool,
    stopping: bool,
    tasks: seq<Task>,
    requests: seq<bool>,
    starts: seq<Start>,
    answers: seq<Return>,
    latest: Option<bool>)

  datatype Event =
    | Schedule(reload: bool)
    | TimerFires
    | Completes(task: nat, succeeded: bool)
    | Throws(task: nat)
    | Reschedules(task: nat)
    | Stop

  function Log(s: Server, p: Progress, initial: bool, ran: bool, own: Option<bool>, call: Call): Server {
    match p
    case Awaits(reload) =>
      s.(tasks := s.tasks + [Rebuilding(initial, call)], starts := s.starts + [Start(|s.requests|, reload)])
    case Returns(value) =>
      s.(answers := s.answers + [Return(value, ran, s.stopping, own, s.queue.dirty, call, s.latest)])
  }

  function StartDrain(s: Server, initial: bool): Server {
    var (q, p) := Started(s.queue, s.stopping);
    Log(s.(queue := q), p, initial, !s.queue.building && !s.stopping, None, Call(s.queue.dirty, s.latest))
  }

  function RequestRebuild(s: Server, reload: bool): Server {
    s.(queue := Requested(s.queue, reload), requests := s.requests + [reload])
  }

  function ScheduleRebuild(s: Server, reload: bool): Server {
    if s.stopping then s else RequestRebuild(s, reload).(timerArmed := true)
  }

  function Without(tasks: seq<Task>, i: nat): seq<Task>
    requires i < |tasks|
  {
    tasks[..i] + tasks[i + 1..]
  }

  const BLANK := Server(IDLE, false, false, [], [], [], [], None)

  /** The server right after configuration: one request, and the initial drain awaiting its rebuild. */
  function INITIAL(): Server {
    StartDrain(RequestRebuild(BLANK, false), true)
  }

  /** `initialMayThrow` says whether the first rebuild may throw; nothing reschedules after that drain. */
  function Step(s: Server, initialMayThrow: bool, e: Event): Server {
    match e
    case Schedule(reload) => ScheduleRebuild(s, reload)
    case TimerFires => if s.timerArmed then StartDrain(s.(timerArmed := false), false) else s
    case Completes(i, succeeded) =>
      if i < |s.tasks| && s.tasks[i].Rebuilding? then
        var (q, p) := Turn(s.queue, succeeded, s.stopping);
        Log(
          s.(queue := q, tasks := Without(s.tasks, i), latest := Some(succeeded)),
          p, s.tasks[i].initial, true, Some(succeeded), s.tasks[i].call)
      else s
    case Throws(i) =>
      if i < |s.tasks| && s.tasks[i].Rebuilding? && (initialMayThrow || !s.tasks[i].initial) then
        s.(
          queue := s.queue.(building := false),
          tasks := Without(s.tasks, i) + (if s.tasks[i].initial then [] else [Failing]),
          latest := Some(false))
      else s
    case Reschedules(i) =>
      if i < |s.tasks| && s.tasks[i].Failing? then
        var t := s.(tasks := Without(s.tasks, i));
        if t.queue.dirty then ScheduleRebuild(t, false) else t
      else s
    case Stop => s.(stopping := true, timerArmed := false)
  }

  function Run(s: Server, initialMayThrow: bool, events: seq<Event>): Server
    decreases |events|
  {
    if events == [] then s else Run(Step(s, initialMayThrow, events[0]), initialMayThrow, events[1..])
  }

  // ------------------------------------------------------------------- safety

  function AnyOf(flags: seq<bool>): bool {
    true in flags
  }

  function RebuildsInFlight(tasks: seq<Task>): nat {
    if tasks == [] then 0 else (if tasks[0].Rebuilding? then 1 else 0) + RebuildsInFlight(tasks[1..])
  }

  function Covered(starts: seq<Start>): nat {
    if starts == [] then 0 else starts[|starts| - 1].covered
  }

  ghost predicate Accounted(s: Server) {
    // One rebuild in flight at most, and exactly while the queue says so.
    && RebuildsInFlight(s.tasks) == (if s.queue.building then 1 else 0)
    // What no start has covered is pending, with the OR of its flags.
    && Covered(s.starts) <= |s.requests|
    && s.queue.dirty == (Covered(s.starts) < |s.requests|)
    && s.queue.reloadRequested == AnyOf(s.requests[Covered(s.starts)..])
    // Each start was given the OR of the flags requested since the previous start.
    && (forall k | 0 <= k < |s.starts| ::
          && Covered(s.starts[..k]) < s.starts[k].covered <= |s.requests|
          && s.starts[k].reload == AnyOf(s.requests[Covered(s.starts[..k])..s.starts[k].covered]))
    // A drain answers true exactly when it ran to the end and its own last rebuild, if any, succeeded.
    && (forall r | r in s.answers ::
          && (r.value <==> r.ran && !r.stopping && r.own != Some(false))
          && (r.value ==> !r.pending))
  }

  /**
   * A drain rebuilds only what was pending when it was called, or came after; its answer knows of the server's
   * latest rebuild only if it rebuilt something itself.
   */
  ghost predicate Informed(s: Server) {
    && (forall t | t in s.tasks && t.Rebuilding? :: t.call.pending)
    && (forall r | r in s.answers && r.value ::
          if r.call.pending then r.latest == Some(true) else r.latest == r.call.latest)
  }

  /** Pending work always has someone to do it. */
  ghost predicate Attended(s: Server) {
    s.queue.dirty && !s.stopping ==> s.queue.building || s.timerArmed || Failing in s.tasks
  }

  lemma {:induction false} InFlightAppend(a: seq<Task>, b: seq<Task>)
    ensures RebuildsInFlight(a + b) == RebuildsInFlight(a) + RebuildsInFlight(b)
  {
    if a == [] {
      assert a + b == b;
    } else {
      assert (a + b)[0] == a[0] && (a + b)[1..] == a[1..] + b;
      InFlightAppend(a[1..], b);
    }
  }

  lemma InFlightWithout(tasks: seq<Task>, i: nat)
    requires i < |tasks|
    ensures RebuildsInFlight(Without(tasks, i)) == RebuildsInFlight(tasks) - (if tasks[i].Rebuilding? then 1 else 0)
  {
    InFlightAppend(tasks[..i], tasks[i + 1..]);
    InFlightAppend(tasks[..i], [tasks[i]] + tasks[i + 1..]);
    InFlightAppend([tasks[i]], tasks[i + 1..]);
    assert tasks == tasks[..i] + ([tasks[i]] + tasks[i + 1..]);
    assert RebuildsInFlight([tasks[i]]) == if tasks[i].Rebuilding? then 1 else 0;
  }

  lemma RequestKeepsAccounted(s: Server, reload: bool)
    requires Accounted(s)
    ensures Accounted(RequestRebuild(s, reload))
  {
    var c := Covered(s.starts);
    var grown := s.requests + [reload];
    assert grown[c..] == s.requests[c..] + [reload];
    forall k | 0 <= k < |s.starts|
      ensures s.starts[k].reload == AnyOf(grown[Covered(s.starts[..k])..s.starts[k].covered])
    {
      assert grown[Covered(s.starts[..k])..s.starts[k].covered]
          == s.requests[Covered(s.starts[..k])..s.starts[k].covered];
    }
  }

  /** A turn of a drain that has the queue, whoever it is. */
  lemma TurnKeepsAccounted(s: Server, succeeded: bool, initial: bool, own: Option<bool>, call: Call)
    requires Accounted(s.(queue := s.queue.(building := false))) && s.queue.building
    requires own == Some(succeeded) || (own == None && succeeded)
    ensures
      var (q, p) := Turn(s.queue, succeeded, s.stopping);
      Accounted(Log(s.(queue := q), p, initial, true, own, call))
  {
    var (q, p) := Turn(s.queue, succeeded, s.stopping);
    if p.Awaits? {
      var started := s.starts + [Start(|s.requests|, p.reload)];
      InFlightAppend(s.tasks, [Rebuilding(initial, call)]);
      assert s.requests[|s.requests|..] == [];
      assert s.requests[Covered(s.starts)..|s.requests|] == s.requests[Covered(s.starts)..];
      forall k | 0 <= k < |started|
        ensures started[..k] == s.starts[..k]
      {}
      assert started[..|s.starts|] == s.starts && s.starts[..|s.starts|] == s.starts;
    }
  }

  lemma StartKeepsAccounted(s: Server, initial: bool)
    requires Accounted(s)
    ensures Accounted(StartDrain(s, initial))
  {
    if !s.queue.building && !s.stopping {
      var t := s.(queue := s.queue.(building := true));
      assert t.(queue := t.queue.(building := false)) == s;
      TurnKeepsAccounted(t, true, initial, None, Call(s.queue.dirty, s.latest));
    }
  }

  /** Only the number of rebuilds in flight ties the tasks to the queue. */
  lemma TasksAndFlag(s: Server, tasks: seq<Task>, building: bool, latest: Option<bool>)
    requires Accounted(s) && RebuildsInFlight(tasks) == (if building then 1 else 0)
    ensures Accounted(s.(tasks := tasks, latest := latest, queue := s.queue.(building := building)))
  {
    hide RebuildsInFlight, Covered, AnyOf;
  }

  lemma CompletionKeepsAccounted(s: Server, initialMayThrow: bool, i: nat, succeeded: bool)
    requires Accounted(s) && i < |s.tasks| && s.tasks[i].Rebuilding?
    ensures Accounted(Step(s, initialMayThrow, Completes(i, succeeded)))
  {
    InFlightWithout(s.tasks, i);
    assert RebuildsInFlight(s.tasks) == (if s.queue.building then 1 else 0);
    hide Accounted, Log, Turn, Without, RebuildsInFlight;
    TasksAndFlag(s, Without(s.tasks, i), false, Some(succeeded));
    var t := s.(tasks := Without(s.tasks, i), latest := Some(succeeded));
    assert t.(queue := t.queue.(building := false)) == t.(queue := s.queue.(building := false));
    TurnKeepsAccounted(t, succeeded, s.tasks[i].initial, Some(succeeded), s.tasks[i].call);
  }

  lemma ThrowKeepsAccounted(s: Server, initialMayThrow: bool, i: nat)
    requires Accounted(s) && i < |s.tasks| && s.tasks[i].Rebuilding?
    ensures Accounted(Step(s, initialMayThrow, Throws(i)))
  {
    InFlightWithout(s.tasks, i);
    NoneInFlight();
    assert RebuildsInFlight(s.tasks) == (if s.queue.building then 1 else 0);
    hide Accounted, Without, RebuildsInFlight;
    var tail := if s.tasks[i].initial then [] else [Failing];
    InFlightAppend(Without(s.tasks, i), tail);
    TasksAndFlag(s, Without(s.tasks, i) + tail, false, Some(false));
  }

  lemma StepKeepsAccounted(s: Server, initialMayThrow: bool, e: Event)
    requires Accounted(s)
    ensures Accounted(Step(s, initialMayThrow, e))
  {
    var inFlight := RebuildsInFlight(s.tasks);
    assert inFlight == (if s.queue.building then 1 else 0);
    hide Accounted, Log, RequestRebuild, StartDrain, Turn, Without, RebuildsInFlight;
    match e
    case Schedule(reload) =>
      RequestKeepsAccounted(s, reload);
      TimerIsIrrelevant(RequestRebuild(s, reload), true, s.stopping);
    case TimerFires =>
      TimerIsIrrelevant(s, false, s.stopping);
      StartKeepsAccounted(s.(timerArmed := false), false);
    case Completes(i, succeeded) =>
      if i < |s.tasks| && s.tasks[i].Rebuilding? { CompletionKeepsAccounted(s, initialMayThrow, i, succeeded); }
    case Throws(i) =>
      if i < |s.tasks| && s.tasks[i].Rebuilding? { ThrowKeepsAccounted(s, initialMayThrow, i); }
    case Reschedules(i) =>
      if i < |s.tasks| && s.tasks[i].Failing? {
        InFlightWithout(s.tasks, i);
        var t := s.(tasks := Without(s.tasks, i));
        TasksAndFlag(s, t.tasks, s.queue.building, s.latest);
        assert s.(tasks := t.tasks, latest := s.latest, queue := s.queue.(building := s.queue.building)) == t;
        RequestKeepsAccounted(t, false);
        TimerIsIrrelevant(RequestRebuild(t, false), true, s.stopping);
      }
    case Stop => TimerIsIrrelevant(s, false, true);
  }

  lemma NoneInFlight()
    ensures RebuildsInFlight([]) == 0 && RebuildsInFlight([Failing]) == 0
  {}

  lemma TimerIsIrrelevant(s: Server, timerArmed: bool, stopping: bool)
    requires Accounted(s)
    ensures Accounted(s.(timerArmed := timerArmed, stopping := stopping))
    ensures Accounted(s.(timerArmed := timerArmed))
  {
    hide RebuildsInFlight, Covered, AnyOf;
  }

  /** The first rebuild throws while work is pending and no timer will come back for it. */
  ghost predicate Strands(s: Server, initialMayThrow: bool, e: Event) {
    && initialMayThrow && e.Throws? && e.task < |s.tasks| && s.tasks[e.task].Rebuilding? && s.tasks[e.task].initial
    && s.queue.dirty && !s.stopping && !s.timerArmed && Failing !in s.tasks
  }

  /** Pending work is left unattended by that step, and by no other. */
  lemma StepKeepsAttended(s: Server, initialMayThrow: bool, e: Event)
    requires Accounted(s) && Attended(s)
    ensures Attended(Step(s, initialMayThrow, e)) <==> !Strands(s, initialMayThrow, e)
  {
    AccountedFlag(s);
    hide Accounted;
  }

  lemma AccountedFlag(s: Server)
    requires Accounted(s)
    ensures (exists t :: t in s.tasks && t.Rebuilding?) ==> s.queue.building
  {
    if t :| t in s.tasks && t.Rebuilding? {
      var i :| 0 <= i < |s.tasks| && s.tasks[i] == t;
      InFlightWithout(s.tasks, i);
    }
  }

  lemma StepKeepsInformed(s: Server, initialMayThrow: bool, e: Event)
    requires Informed(s)
    ensures Informed(Step(s, initialMayThrow, e))
  {
    match e
    case Completes(i, succeeded) =>
      if i < |s.tasks| && s.tasks[i].Rebuilding? {
        assert s.tasks[i].call.pending;
      }
    case _ =>
  }

  lemma {:induction false} RunIsSafe(s: Server, initialMayThrow: bool, events: seq<Event>)
    requires Accounted(s) && Informed(s) && (!initialMayThrow ==> Attended(s))
    ensures
      var t := Run(s, initialMayThrow, events);
      Accounted(t) && Informed(t) && (!initialMayThrow ==> Attended(t))
    decreases |events|
  {
    if events != [] {
      StepKeepsAccounted(s, initialMayThrow, events[0]);
      StepKeepsInformed(s, initialMayThrow, events[0]);
      if !initialMayThrow { StepKeepsAttended(s, initialMayThrow, events[0]); }
      hide Step, Accounted, Informed, Attended;
      RunIsSafe(Step(s, initialMayThrow, events[0]), initialMayThrow, events[1..]);
    }
  }

  /** Over every interleaving of requests, timer, completions, failures and stop. */
  lemma EveryRunIsSafe(initialMayThrow: bool, events: seq<Event>)
    ensures
      var s := Run(INITIAL(), initialMayThrow, events);
      Accounted(s) && Informed(s) && (!initialMayThrow ==> Attended(s))
  {
    InitialIsSafe();
    RunIsSafe(INITIAL(), initialMayThrow, events);
  }

  lemma InitialIsSafe()
    ensures Accounted(INITIAL()) && Informed(INITIAL()) && Attended(INITIAL())
  {
    assert Accounted(BLANK);
    assert Informed(INITIAL()) && Attended(INITIAL());
    hide *;
    InitialIsAccounted();
  }

  lemma InitialIsAccounted()
    requires Accounted(BLANK)
    ensures Accounted(INITIAL())
  {
    hide Accounted, RequestRebuild, StartDrain;
    RequestKeepsAccounted(BLANK, false);
    StartKeepsAccounted(RequestRebuild(BLANK, false), true);
  }

  /** Every request is still pending, or a later rebuild start covers it. */
  lemma RequestIsServed(s: Server, i: nat)
    requires Accounted(s) && i < |s.requests|
    ensures s.queue.dirty || exists k :: 0 <= k < |s.starts| && s.starts[k].covered > i
  {}

  /**
   * A throwing first rebuild breaks that: its drain does not reschedule, so a request whose timer fired
   * meanwhile waits for nothing.
   */
  lemma ThrowingInitialBuildStrandsWork()
    ensures
      var s := Run(INITIAL(), true, [Schedule(true), TimerFires, Throws(0)]);
      s.queue.dirty && !s.stopping && !s.queue.building && !s.timerArmed && s.tasks == []
  {}

  /**
   * What a true answer says of the server's latest rebuild, over every run: that it has not failed, if and only
   * if work was pending when the drain was called or the latest rebuild had not failed by then.
   */
  lemma TrueAnswers(initialMayThrow: bool, events: seq<Event>)
    ensures
      forall r | r in Run(INITIAL(), initialMayThrow, events).answers && r.value ::
        && !r.pending
        && (r.latest != Some(false) <==> r.call.pending || r.call.latest != Some(false))
        && (r.call.pending ==> r.latest == Some(true))
  {
    EveryRunIsSafe(initialMayThrow, events);
    hide Run, INITIAL;
  }

  /** A drain that answers true though the latest rebuild, the initial one, has failed: nothing was pending. */
  lemma TrueAnswerAfterFailedRebuild()
    ensures
      var s := Run(INITIAL(), false, [Schedule(true), Completes(0, true), Completes(0, false), TimerFires]);
      exists r :: r in s.answers && r.value && r.latest == Some(false) && r.call == Call(false, Some(false))
  {
    var e := [Schedule(true), Completes(0, true), Completes(0, false), TimerFires];
    var s0 := INITIAL();
    var s1 := Step(s0, false, e[0]);
    var s2 := Step(s1, false, e[1]);
    var s3 := Step(s2, false, e[2]);
    var s4 := Step(s3, false, e[3]);
    var first := Call(true, None);
    assert s1.tasks == [Rebuilding(true, first)];
    assert s2.tasks == [Rebuilding(true, first)] && s2.queue == Queue(true, false, false);
    assert s3.tasks == [] && s3.latest == Some(false);
    assert s4.answers == s3.answers + [Return(true, true, false, None, false, Call(false, Some(false)), Some(false))];
    assert e[1..][1..] == e[2..] && e[2..][1..] == e[3..] && e[3..][1..] == [];
    assert Run(s4, false, []) == s4;
    assert Run(s3, false, e[3..]) == s4;
    assert Run(s2, false, e[2..]) == s4;
    assert Run(s1, false, e[1..]) == s4;
  }

  /** Unless the server is stopping, scheduling is a request with its flag, and arms the timer. */
  lemma ScheduleIsRequest(s: Server, initialMayThrow: bool, reload: bool)
    requires Accounted(s)
    ensures
      var t := Step(s, initialMayThrow, Schedule(reload));
      if s.stopping then t == s
      else
        t.requests == s.requests + [reload] && t.timerArmed && t.queue.dirty
        && (t.queue.reloadRequested <==> s.queue.reloadRequested || reload)
  {}

  /** A timer that fires over pending work while no rebuild runs starts one that covers every request so far. */
  lemma TimerRebuilds(s: Server, initialMayThrow: bool)
    requires s.timerArmed && s.queue.dirty && !s.queue.building && !s.stopping
    ensures
      var t := Step(s, initialMayThrow, TimerFires);
      t.starts == s.starts + [Start(|s.requests|, s.queue.reloadRequested)] && t.queue.building && !t.timerArmed
  {}

  /** So does a rebuild that ends over work requested meanwhile, whether it succeeded or not. */
  lemma CompletionRebuilds(s: Server, initialMayThrow: bool, i: nat, succeeded: bool)
    requires i < |s.tasks| && s.tasks[i].Rebuilding? && s.queue.dirty && !s.stopping
    ensures
      var t := Step(s, initialMayThrow, Completes(i, succeeded));
      t.starts == s.starts + [Start(|s.requests|, s.queue.reloadRequested)] && t.latest == Some(succeeded)
  {}

  /** And a background drain that failed over pending work schedules another. */
  lemma FailureReschedules(s: Server, initialMayThrow: bool, i: nat)
    requires i < |s.tasks| && s.tasks[i] == Failing && s.queue.dirty && !s.stopping
    ensures
      var t := Step(s, initialMayThrow, Reschedules(i));
      t.timerArmed && t.requests == s.requests + [false]
  {}

  /** Once the server stops, the timer is never armed again, and no rebuild is requested or started any more. */
  lemma {:induction false} NothingStartsAfterStop(s: Server, initialMayThrow: bool, events: seq<Event>)
    ensures
      var stopped := Step(s, initialMayThrow, Stop);
      var t := Run(stopped, initialMayThrow, events);
      t.stopping && !t.timerArmed && t.starts == s.starts && t.requests == s.requests
  {
    StoppedStays(Step(s, initialMayThrow, Stop), initialMayThrow, events);
  }

  lemma {:induction false} StoppedStays(s: Server, initialMayThrow: bool, events: seq<Event>)
    requires s.stopping && !s.timerArmed
    ensures
      var t := Run(s, initialMayThrow, events);
      t.stopping && !t.timerArmed && t.starts == s.starts && t.requests == s.requests
    decreases |events|
  {
    if events != [] {
      StoppedStays(Step(s, initialMayThrow, events[0]), initialMayThrow, events[1..]);
    }
  }
}
