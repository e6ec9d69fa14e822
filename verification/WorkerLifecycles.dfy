/**
 * The engine worker: booting, the queue before the boot, dispatch, and disposal, as a machine over its
 * events. Handlers run to their next await without interruption.
 */
module WorkerLifecycles {
  import opened Basics

  /** What the page sends; only the display state is told apart, the rest is kept as it is. */
  datatype Message = Init | Destroy | Resize(size: nat) | ReducedMotion(reduced: bool) | Other(content: nat)

  predicate Coalesces(m: Message) {
    m.Resize? || m.ReducedMotion?
  }

  predicate SameKind(a: Message, b: Message) {
    (a.Resize? && b.Resize?) || (a.ReducedMotion? && b.ReducedMotion?)
  }

  // ------------------------------------------------------------- the pre-boot queue

  /** What is left of a log when of each display state only the last message stays, in its place. */
  function KeepLast(log: seq<Message>): seq<Message> {
    if log == [] then []
    else
      var rest := log[1..];
      (if exists m | m in rest :: SameKind(log[0], m) then [] else [log[0]]) + KeepLast(rest)
  }

  function Drop(pending: seq<Message>, m: Message): seq<Message> {
    if pending == [] then []
    else (if SameKind(pending[0], m) then [] else [pending[0]]) + Drop(pending[1..], m)
  }

  function Enqueued(pending: seq<Message>, m: Message): seq<Message> {
    (if Coalesces(m) then Drop(pending, m) else pending) + [m]
  }

  lemma {:induction false} DropAppend(a: seq<Message>, b: seq<Message>, m: Message)
    ensures Drop(a + b, m) == Drop(a, m) + Drop(b, m)
  {
    if a == [] {
      assert a + b == b;
    } else {
      assert (a + b)[0] == a[0] && (a + b)[1..] == a[1..] + b;
      DropAppend(a[1..], b, m);
      AppendAssociates(if SameKind(a[0], m) then [] else [a[0]], Drop(a[1..], m), Drop(b, m));
    }
  }

  lemma {:induction false} DropNothing(pending: seq<Message>, m: Message)
    requires !Coalesces(m)
    ensures Drop(pending, m) == pending
  {
    if pending != [] {
      DropNothing(pending[1..], m);
    }
  }

  lemma DropNothingUnless(pending: seq<Message>, m: Message)
    ensures Enqueued(pending, m) == Drop(pending, m) + [m]
  {
    if !Coalesces(m) {
      DropNothing(pending, m);
    }
  }

  ghost predicate Superseded(a: Message, later: seq<Message>) {
    exists m | m in later :: SameKind(a, m)
  }

  /** What the head of a log contributes: nothing once superseded. */
  ghost function HeadKept(a: Message, later: seq<Message>): seq<Message> {
    if Superseded(a, later) then [] else [a]
  }

  lemma HeadDropped(a: Message, later: seq<Message>, m: Message)
    ensures HeadKept(a, later + [m]) == Drop(HeadKept(a, later), m)
  {}

  lemma KeepLastHead(log: seq<Message>)
    requires log != []
    ensures KeepLast(log) == HeadKept(log[0], log[1..]) + KeepLast(log[1..])
  {}

  lemma {:induction false} DropKeepsLast(log: seq<Message>, m: Message)
    ensures KeepLast(log + [m]) == Drop(KeepLast(log), m) + [m]
  {
    if log == [] {
      assert log + [m] == [m];
    } else {
      var rest := log[1..];
      KeepLastHead(log);
      KeepLastHead(log + [m]);
      hide KeepLast, HeadKept, Drop, Superseded;
      assert (log + [m])[0] == log[0] && (log + [m])[1..] == rest + [m];
      DropKeepsLast(rest, m);
      HeadDropped(log[0], rest, m);
      var head := HeadKept(log[0], rest);
      DropAppend(head, KeepLast(rest), m);
      AppendAssociates(Drop(head, m), Drop(KeepLast(rest), m), [m]);
    }
  }

  /** Enqueueing keeps the queue what is left of everything enqueued so far. */
  lemma EnqueueKeepsLast(log: seq<Message>, m: Message)
    ensures KeepLast(log + [m]) == Enqueued(KeepLast(log), m)
  {
    hide KeepLast, Drop, Enqueued;
    DropKeepsLast(log, m);
    DropNothingUnless(KeepLast(log), m);
  }

  /** Two kinds of message are display state. */
  datatype MessageKind = Size | Motion | Rest

  function KindOf(m: Message): MessageKind {
    match m
    case Resize(_) => Size
    case ReducedMotion(_) => Motion
    case _ => Rest
  }

  function OfKind(log: seq<Message>, k: MessageKind): seq<Message> {
    if log == [] then [] else (if KindOf(log[0]) == k then [log[0]] else []) + OfKind(log[1..], k)
  }

  function LastOnly(log: seq<Message>): seq<Message> {
    if log == [] then [] else [log[|log| - 1]]
  }

  lemma {:induction false} NoneOfKind(log: seq<Message>, k: MessageKind)
    ensures OfKind(log, k) == [] <==> forall m | m in log :: KindOf(m) != k
  {
    if log != [] {
      NoneOfKind(log[1..], k);
      assert forall m :: m in log <==> m == log[0] || m in log[1..];
    }
  }

  lemma KindOfHead(head: seq<Message>, rest: seq<Message>, k: MessageKind)
    requires |head| <= 1
    ensures
      OfKind(head + rest, k) == (if |head| == 1 && KindOf(head[0]) == k then head else []) + OfKind(rest, k)
  {
    if head == [] {
      assert head + rest == rest;
    } else {
      assert (head + rest)[0] == head[0] && (head + rest)[1..] == rest && [head[0]] == head;
    }
  }

  lemma SupersededMeans(a: Message, later: seq<Message>)
    ensures Superseded(a, later) <==> KindOf(a) != Rest && OfKind(later, KindOf(a)) != []
  {
    NoneOfKind(later, KindOf(a));
    hide OfKind;
  }

  function Left(log: seq<Message>, k: MessageKind): seq<Message> {
    if k == Rest then OfKind(log, k) else LastOnly(OfKind(log, k))
  }

  lemma LeftHead(a: Message, rest: seq<Message>, k: MessageKind)
    ensures
      Left([a] + rest, k)
      == (if KindOf(a) == k && (k == Rest || OfKind(rest, k) == []) then [a] else []) + Left(rest, k)
  {
    KindOfHead([a], rest, k);
    LastOnlyCons(a, OfKind(rest, k));
    hide OfKind, KindOf, LastOnly;
    assert [] + OfKind(rest, k) == OfKind(rest, k) && [] + LastOnly(OfKind(rest, k)) == LastOnly(OfKind(rest, k));
  }

  lemma LastOnlyCons(a: Message, s: seq<Message>)
    ensures LastOnly([a] + s) == (if s == [] then [a] + LastOnly(s) else LastOnly(s))
  {
    assert [a] + [] == [a];
  }

  /** Of each kind of display state only the last message is left, and of everything else all. */
  lemma {:induction false} KeepLastMeans(log: seq<Message>, k: MessageKind)
    ensures OfKind(KeepLast(log), k) == Left(log, k)
  {
    if log != [] {
      var a, rest := log[0], log[1..];
      KeepLastMeans(rest, k);
      SupersededMeans(a, rest);
      KeepLastHead(log);
      CutJoins(log, 1);
      assert log[..1] == [a];
      var kept := HeadKept(a, rest);
      assert kept == if KindOf(a) != Rest && OfKind(rest, KindOf(a)) != [] then [] else [a];
      hide *;
      KindOfHead(kept, KeepLast(rest), k);
      LeftHead(a, rest, k);
    }
  }

  /** One turn of the backward loop: what is in front is untouched, what is behind has been filtered. */
  lemma DropTurn(before: seq<Message>, i: nat, m: Message)
    requires i < |before|
    ensures
      Drop(before[i..], m) == (if SameKind(before[i], m) then [] else [before[i]]) + Drop(before[i + 1..], m)
    ensures before[..i + 1] == before[..i] + [before[i]]
  {
    assert before[i..][0] == before[i] && before[i..][1..] == before[i + 1..];
  }

  lemma DropEnds(before: seq<Message>, m: Message)
    ensures before == before[..|before|] + Drop(before[|before|..], m)
    ensures before[..0] + Drop(before[0..], m) == Drop(before, m)
  {
    assert before[|before|..] == [] && before[0..] == before;
  }

  lemma SpliceOut(front: seq<Message>, x: Message, tail: seq<Message>)
    ensures
      var items := (front + [x]) + tail;
      items[|front|] == x && items[..|front|] + items[|front| + 1..] == front + tail
      && items == front + ([x] + tail)
  {}

  class MessageQueue {
    var items: seq<Message>

    constructor ()
      ensures items == []
    {
      items := [];
    }

    /** The back of a queue has been filtered down to position n. */
    ghost predicate Filtered(before: seq<Message>, n: int, m: Message)
      reads this
    {
      0 <= n <= |before| && items == before[..n] + Drop(before[n..], m)
    }

    /** Splices out stale display state from the back, then pushes. */
    method EnqueueBeforeWorkerBoot(m: Message)
      modifies this
      ensures items == Enqueued(old(items), m)
    {
      if Coalesces(m) {
        SpliceStale(m);
      }
      items := items + [m];
    }

    method SpliceStale(m: Message)
      modifies this
      ensures items == Drop(old(items), m)
    {
      ghost var before := items;
      DropEnds(before, m);
      var index := |items| - 1;
      assert Filtered(before, index + 1, m);
      hide Filtered, Drop;
      while index >= 0
        invariant -1 <= index < |before| && Filtered(before, index + 1, m)
      {
        SpliceTurn(before, index, m);
        index := index - 1;
      }
      assert Filtered(before, 0, m);
      FilteredThrough(before, m);
    }

    lemma FilteredThrough(before: seq<Message>, m: Message)
      requires Filtered(before, 0, m)
      ensures items == Drop(before, m)
    {
      DropEnds(before, m);
    }

    method SpliceTurn(ghost before: seq<Message>, index: nat, m: Message)
      requires index < |before| && Filtered(before, index + 1, m)
      modifies this
      ensures Filtered(before, index, m)
    {
      DropTurn(before, index, m);
      hide Drop;
      SpliceOut(before[..index], before[index], Drop(before[index + 1..], m));
      if SameKind(items[index], m) {
        items := items[..index] + items[index + 1..];
      }
    }

    /** Empties the queue in place. */
    method Clear()
      modifies this
      ensures items == []
    {
      items := [];
    }
  }

  // ----------------------------------------------------------------- the worker

  /** The boot promise; `handled` says whether its own handlers have run. */
  datatype Boot = NotStarted | Running | Booted(handled: bool) | BootFailed(handled: bool)

  /** Where disposal is: awaiting the boot, the engine's destruction, or nothing, or past its `finally`. */
  datatype Disposal = Never | AwaitingBoot | Destroying | Settling | Closed

  /**
   * A worker boots at most one engine. `destroys` counts calls of its `destroy`, `posted` the "destroyed"
   * messages, and the logs remember what arrived before and after the engine took over.
   */
  datatype Worker = Worker(
    hasHandle: bool,
    booting: bool,
    disposed: bool,
    pending: seq<Message>,
    boot: Boot,
    disposal: Disposal,
    destroys: nat,
    posted: nat,
    errors: nat,
    dispatched: seq<Message>,
    before: seq<Message>,
    after: seq<Message>,
    threw: bool)

  const INITIAL := Worker(false, false, false, [], NotStarted, Never, 0, 0, 0, [], [], [], false)

  datatype Event =
    | Receives(message: Message)
    | BootSettles(succeeded: bool)
    | BootHandled(throwsAt: Option<nat>)
    | DisposalResumes
    | UncaughtError

  function BeginDisposal(w: Worker): Worker {
    if w.disposal != Never then w
    else
      w.(
        disposed := true,
        pending := [],
        hasHandle := false,
        booting := false,
        disposal := if w.hasHandle then Destroying else if w.booting then AwaitingBoot else Settling,
        destroys := if w.hasHandle then w.destroys + 1 else w.destroys)
  }

  function Fail(w: Worker): Worker {
    if w.disposed then w else BeginDisposal(w.(errors := w.errors + 1))
  }

  function Receive(w: Worker, m: Message): Worker {
    if w.disposed then w
    else if m.Init? then
      if w.booting || w.hasHandle then Fail(w) else w.(booting := true, boot := Running)
    else if !w.hasHandle && !m.Destroy? then
      w.(pending := Enqueued(w.pending, m), before := w.before + [m])
    else if m.Destroy? then BeginDisposal(w)
    else w.(dispatched := w.dispatched + [m], after := w.after + [m])
  }

  /** The boot's own handlers. A dispatch that throws at position `throwsAt` fails the worker. */
  function HandleBoot(w: Worker, throwsAt: Option<nat>): Worker {
    if w.boot == Booted(false) then
      var handled := w.(boot := Booted(true), booting := false);
      if w.disposed then handled
      else
        var open := handled.(hasHandle := true, pending := []);
        if throwsAt.Some? && throwsAt.value <= |w.pending| then
          Fail(open.(dispatched := w.dispatched + w.pending[..throwsAt.value], threw := true))
        else open.(dispatched := w.dispatched + w.pending)
    else if w.boot == BootFailed(false) then
      var handled := w.(boot := BootFailed(true), booting := false);
      if w.disposed then handled else Fail(handled)
    else w
  }

  function Resume(w: Worker): Worker {
    match w.disposal
    case AwaitingBoot =>
      if w.boot.Booted? then w.(disposal := Destroying, destroys := w.destroys + 1)
      else if w.boot.BootFailed? then w.(disposal := Settling)
      else w
    case Destroying => w.(disposal := Closed, posted := w.posted + 1)
    case Settling => w.(disposal := Closed, posted := w.posted + 1)
    case _ => w
  }

  function Step(w: Worker, e: Event): Worker {
    match e
    case Receives(message) => Receive(w, message)
    case BootSettles(succeeded) =>
      if w.boot == Running then w.(boot := if succeeded then Booted(false) else BootFailed(false)) else w
    case BootHandled(throwsAt) => HandleBoot(w, throwsAt)
    case DisposalResumes => Resume(w)
    case UncaughtError => Fail(w)
  }

  function Run(w: Worker, events: seq<Event>): Worker
    decreases |events|
  {
    if events == [] then w else Run(Step(w, events[0]), events[1..])
  }

  /** The worker's module state and handlers; the logs and counters are its observable effects. */
  class EngineWorker {
    var hasHandle: bool
    var booting: bool
    var disposed: bool
    var disposal: Disposal
    var boot: Boot
    const pending: MessageQueue
    ghost var destroys: nat
    ghost var posted: nat
    ghost var errors: nat
    ghost var dispatched: seq<Message>
    ghost var before: seq<Message>
    ghost var after: seq<Message>
    ghost var threw: bool

    ghost function State(): Worker
      reads this, pending
    {
      Worker(hasHandle, booting, disposed, pending.items, boot, disposal, destroys, posted, errors, dispatched,
             before, after, threw)
    }

    constructor ()
      ensures State() == INITIAL && fresh(pending)
    {
      hasHandle, booting, disposed, disposal, boot := false, false, false, Never, NotStarted;
      pending := new MessageQueue();
      destroys, posted, errors, dispatched, before, after, threw := 0, 0, 0, [], [], [], false;
    }

    method StartDisposal()
      modifies this, pending
      ensures State() == BeginDisposal(old(State()))
    {
      if disposal != Never { return; }
      disposed := true;
      pending.Clear();
      var hadHandle := hasHandle;
      hasHandle := false;
      var pendingBoot := booting;
      booting := false;
      if hadHandle {
        disposal, destroys := Destroying, destroys + 1;
      } else if pendingBoot {
        disposal := AwaitingBoot;
      } else {
        disposal := Settling;
      }
    }

    method FailWith()
      modifies this, pending
      ensures State() == Fail(old(State()))
    {
      if disposed { return; }
      errors := errors + 1;
      StartDisposal();
    }

    method OnMessage(m: Message)
      modifies this, pending
      ensures State() == Receive(old(State()), m)
    {
      if disposed { return; }
      if m.Init? {
        if booting || hasHandle {
          FailWith();
          return;
        }
        booting, boot := true, Running;
      } else if !hasHandle && !m.Destroy? {
        pending.EnqueueBeforeWorkerBoot(m);
        before := before + [m];
      } else if m.Destroy? {
        StartDisposal();
      } else {
        dispatched, after := dispatched + [m], after + [m];
      }
    }

    /** The boot's `then` handler, followed by its `catch` handler when a dispatch throws. */
    method OnBooted(throwsAt: Option<nat>)
      requires boot == Booted(false)
      modifies this, pending
      ensures State() == HandleBoot(old(State()), throwsAt)
    {
      boot, booting := Booted(true), false;
      if disposed { return; }
      hasHandle := true;
      var queued := pending.items;
      pending.Clear();
      if throwsAt.Some? && throwsAt.value <= |queued| {
        dispatched, threw := dispatched + queued[..throwsAt.value], true;
        FailWith();
      } else {
        dispatched := dispatched + queued;
      }
    }

    method OnBootFailed()
      requires boot == BootFailed(false)
      modifies this, pending
      ensures State() == HandleBoot(old(State()), None)
    {
      boot, booting := BootFailed(true), false;
      if disposed { return; }
      FailWith();
    }

    /** The segment of the disposal after its current await has settled; its `finally` closes the worker. */
    method ResumeDisposal()
      modifies this
      ensures State() == Resume(old(State()))
    {
      if disposal == AwaitingBoot {
        if boot.Booted? {
          disposal, destroys := Destroying, destroys + 1;
        } else if boot.BootFailed? {
          disposal := Settling;
        }
      } else if disposal == Destroying || disposal == Settling {
        disposal, posted := Closed, posted + 1;
      }
    }
  }

  // ------------------------------------------------------------------- safety

  ghost predicate Safe(w: Worker) {
    // The flags and the boot promise agree.
    && (w.disposed <==> w.disposal != Never)
    && (w.booting ==> !w.disposed && w.boot in {Running, Booted(false), BootFailed(false)})
    && (!w.disposed && w.boot in {Running, Booted(false), BootFailed(false)} ==> w.booting)
    && (w.hasHandle ==> !w.disposed && w.boot == Booted(true) && !w.booting)
    && (!w.disposed && w.boot == Booted(true) ==> w.hasHandle)
    && (!w.disposed ==> w.boot != BootFailed(true))
    && (w.disposal == AwaitingBoot ==> w.boot != NotStarted)
    && (w.disposal == Destroying ==> w.boot.Booted?)
    // An engine that boots is destroyed once, by the time disposal is over, and never before it starts.
    && w.destroys == (if w.disposal == Destroying || (w.disposal == Closed && w.boot.Booted?) then 1 else 0)
    && (w.disposal == Settling || w.disposal == Closed ==>
          w.boot == NotStarted || w.boot.BootFailed? || (w.disposal == Closed && w.boot.Booted?))
    // "destroyed" is posted once, when disposal is over.
    && w.posted == (if w.disposal == Closed then 1 else 0)
    && w.errors <= 1
    && (!w.disposed ==> w.errors == 0)
  }

  /** What reaches the engine: the coalesced log, then everything after it in order. */
  ghost predicate InOrder(w: Worker) {
    && (!w.disposed && !w.hasHandle ==> w.pending == KeepLast(w.before) && w.dispatched == [] && w.after == [])
    && (w.hasHandle ==> w.pending == [] && w.dispatched == KeepLast(w.before) + w.after)
    && (w.disposed ==> w.pending == [])
    && (!w.threw ==> w.dispatched == [] || w.dispatched == KeepLast(w.before) + w.after)
    && (w.threw ==> w.disposed && w.dispatched <= KeepLast(w.before))
  }

  lemma StepKeepsSafe(w: Worker, e: Event)
    requires Safe(w)
    ensures Safe(Step(w, e))
  {
    hide Enqueued;
  }

  lemma StepKeepsInOrder(w: Worker, e: Event)
    requires Safe(w) && InOrder(w)
    ensures InOrder(Step(w, e))
  {
    hide Enqueued, KeepLast;
    match e
    case Receives(m) =>
      EnqueueKeepsLast(w.before, m);
      AppendAssociates(KeepLast(w.before), w.after, [m]);
    case _ =>
  }

  /** Nothing is dispatched once disposal has begun, and disposal does not begin twice. */
  lemma DisposalIsFinal(w: Worker, e: Event)
    requires Safe(w) && w.disposed
    ensures
      var t := Step(w, e);
      t.disposed && !t.hasHandle && t.dispatched == w.dispatched && t.errors == w.errors
      && t.destroys >= w.destroys && t.posted >= w.posted
  {}

  lemma {:induction false} RunIsSafe(w: Worker, events: seq<Event>)
    requires Safe(w) && InOrder(w)
    ensures Safe(Run(w, events)) && InOrder(Run(w, events))
    ensures w.disposed ==> Run(w, events).dispatched == w.dispatched
    decreases |events|
  {
    hide Safe, InOrder, Step;
    if events != [] {
      StepKeepsSafe(w, events[0]);
      StepKeepsInOrder(w, events[0]);
      if w.disposed { DisposalIsFinal(w, events[0]); }
      RunIsSafe(Step(w, events[0]), events[1..]);
    }
  }

  /** Over every ordering of messages, boot, failures and disposal. */
  lemma EveryRunIsSafe(events: seq<Event>)
    ensures Safe(Run(INITIAL, events)) && InOrder(Run(INITIAL, events))
  {
    RunIsSafe(INITIAL, events);
  }

  /** Disposal always finishes: once the boot has settled, three resumptions close the worker. */
  lemma DisposalFinishes(w: Worker)
    requires Safe(w) && w.disposed && w.boot != Running
    ensures
      var t := Resume(Resume(Resume(w)));
      t.disposal == Closed && t.posted == 1 && t.destroys == (if w.boot.Booted? then 1 else 0)
  {}

  // ----------------------------------------------------------------- what is heard

  /** What a run was sent besides the two commands that start and end it. */
  function Ordinary(events: seq<Event>): seq<Message>
    decreases |events|
  {
    if events == [] then []
    else
      var e := events[0];
      (if e.Receives? && !e.message.Init? && !e.message.Destroy? then [e.message] else []) + Ordinary(events[1..])
  }

  /** What calls for the worker's end: a destroy, an uncaught error, a second start, a failed or throwing boot. */
  predicate CallsForEnd(w: Worker, e: Event) {
    || e == Receives(Destroy)
    || e.UncaughtError?
    || (e == Receives(Init) && (w.booting || w.hasHandle))
    || (e.BootHandled? && w.boot == BootFailed(false))
    || (e.BootHandled? && w.boot == Booted(false) && e.throwsAt.Some? && e.throwsAt.value <= |w.pending|)
  }

  lemma OrdinaryOne(e: Event)
    ensures
      Ordinary([e])
      == if e.Receives? && !e.message.Init? && !e.message.Destroy? then [e.message] else []
  {
    assert [e][1..] == [] && Ordinary([]) == [];
  }

  /**
   * Disposal begins when it is called for, and never otherwise, with an error posted unless the page asked for
   * it; a first start begins a boot.
   */
  lemma StepHears(w: Worker, e: Event)
    requires Safe(w) && InOrder(w)
    ensures
      var t := Step(w, e);
      && (t.disposed <==> w.disposed || CallsForEnd(w, e))
      && (e == Receives(Init) && !w.disposed && w.boot == NotStarted ==> t.boot == Running && t.booting)
      && (w.boot != NotStarted ==> t.boot != NotStarted)
      && (!t.disposed ==> t.before + t.after == w.before + w.after + Ordinary([e]))
      && t.errors == w.errors + (if !w.disposed && CallsForEnd(w, e) && e != Receives(Destroy) then 1 else 0)
  {
    hide Enqueued, KeepLast;
    OrdinaryOne(e);
    assert w.before + w.after + [] == w.before + w.after;
    if e.Receives? {
      if w.hasHandle {
        AppendAssociates(w.before, w.after, [e.message]);
      } else if !w.disposed {
        assert w.after == [] && w.before + [] == w.before;
        assert (w.before + [e.message]) + [] == w.before + [e.message];
      }
    }
  }

  lemma {:induction false} RunHears(w: Worker, events: seq<Event>)
    requires Safe(w) && InOrder(w)
    ensures
      var t := Run(w, events);
      && (w.disposed ==> t.disposed)
      && (w.boot != NotStarted ==> t.boot != NotStarted)
      && (!t.disposed ==> t.before + t.after == w.before + w.after + Ordinary(events))
    decreases |events|
  {
    if events == [] {
      assert w.before + w.after + [] == w.before + w.after;
    } else {
      StepHears(w, events[0]);
      StepKeepsSafe(w, events[0]);
      StepKeepsInOrder(w, events[0]);
      OrdinaryOne(events[0]);
      hide Safe, InOrder, Step;
      RunHears(Step(w, events[0]), events[1..]);
      AppendAssociates(w.before + w.after, Ordinary([events[0]]), Ordinary(events[1..]));
    }
  }

  lemma {:induction false} RunInParts(w: Worker, first: seq<Event>, second: seq<Event>)
    ensures Run(w, first + second) == Run(Run(w, first), second)
    decreases |first|
  {
    if first == [] {
      assert first + second == second;
    } else {
      assert (first + second)[0] == first[0] && (first + second)[1..] == first[1..] + second;
      hide Step;
      RunInParts(Step(w, first[0]), first[1..], second);
    }
  }

  /**
   * Over every run: whatever calls for the end begins disposal at once and for good, a start begins a boot
   * unless the worker is already done with, and a worker that is not disposed of has heard every message,
   * and passed on to its engine, once it has one, the coalesced early ones and all later ones in order.
   */
  lemma EveryMessageIsHeard(events: seq<Event>, e: Event, later: seq<Event>)
    ensures
      var w, t := Run(INITIAL, events), Run(INITIAL, events + [e] + later);
      && (CallsForEnd(w, e) ==> t.disposed)
      && (e == Receives(Destroy) ==> t.disposed)
      && (e == Receives(Init) ==> t.disposed || t.boot != NotStarted)
      && (!t.disposed ==> t.before + t.after == Ordinary(events + [e] + later))
      && (t.hasHandle ==> t.dispatched == KeepLast(t.before) + t.after)
  {
    var w := Run(INITIAL, events);
    EveryRunIsSafe(events);
    EveryRunIsSafe(events + [e] + later);
    StepHears(w, e);
    StepKeepsSafe(w, e);
    StepKeepsInOrder(w, e);
    InitialHears();
    RunHears(INITIAL, events + [e] + later);
    RunHears(Step(w, e), later);
    assert events + [e] + later == events + ([e] + later);
    RunInParts(INITIAL, events, [e] + later);
    assert ([e] + later)[0] == e && ([e] + later)[1..] == later;
    assert Run(w, [e] + later) == Run(Step(w, e), later);
    InitHeard(w, e);
    OrderedWhenOpen(Run(INITIAL, events + [e] + later));
    hide Run, Step, Safe, InOrder, KeepLast, Ordinary;
    assert [] + [] + Ordinary(events + [e] + later) == Ordinary(events + [e] + later);
  }

  lemma InitialHears()
    ensures Safe(INITIAL) && InOrder(INITIAL) && INITIAL.before == [] && INITIAL.after == []
  {}

  lemma OrderedWhenOpen(w: Worker)
    requires InOrder(w)
    ensures w.hasHandle ==> w.dispatched == KeepLast(w.before) + w.after
  {}

  lemma InitHeard(w: Worker, e: Event)
    requires Safe(w)
    ensures e == Receives(Init) ==> Step(w, e).disposed || Step(w, e).boot != NotStarted
  {}
}
