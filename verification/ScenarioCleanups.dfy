/**
 * The automation scenario's resources: acquisition, abort, and the memoized cleanup, as a machine over its
 * events. Resources are numbered in the order in which they are handed over.
 */
module ScenarioCleanups {
  import opened Basics

  /** One run of the cleanup loop over the cleanups that were registered when it started. */
  datatype Loop = Loop(
    snapshot: seq<nat>, called: seq<nat>, remaining: seq<nat>, outcomes: seq<bool>, errors: seq<nat>)
  {
    /** Every callback has been called and has ended. */
    predicate Done() {
      |outcomes| == |called|
    }
  }

  /**
   * The cleanup promise is `stored` only when the call that starts a loop returns, that is, when a callback of
   * that loop first suspends or the loop ends without suspending. Until then callbacks run inside that call,
   * and a callback that calls `cleanup` itself starts another loop inside its own: the first `depth` loops are
   * such calls still running, each inside the one before. The other loops are suspended or done.
   *
   * The last four logs remember where resources went: registered before any loop, or while loops were starting;
   * released by the `acquire` that lost the race; refused.
   */
  datatype Scenario = Scenario(
    aborted: bool,
    cleanups: seq<nat>,
    stored: bool,
    loops: seq<Loop>,
    depth: nat,
    count: nat,
    registered: seq<nat>,
    late: seq<nat>,
    losers: seq<nat>,
    refused: seq<nat>)

  const INITIAL := Scenario(false, [], false, [], 0, 0, [], [], [], [])

  /**
   * `Throws` and `Suspends` end the first segment of the innermost running callback, which is also who calls
   * `Defers` and `Cleans` while one is running; `Settles` ends a suspended loop's callback.
   */
  datatype Event =
    | Acquires
    | Defers
    | Aborts
    | Cleans
    | Throws
    | Suspends
    | Settles(loop: nat, succeeded: bool)

  function Reversed(s: seq<nat>): seq<nat> {
    if s == [] then [] else Reversed(s[1..]) + [s[0]]
  }

  function Registered(s: Scenario): Scenario {
    var t := s.(cleanups := s.cleanups + [s.count], count := s.count + 1);
    if s.loops == [] then t.(registered := s.registered + [s.count]) else t.(late := s.late + [s.count])
  }

  function Deferred(s: Scenario): Scenario {
    if s.stored then s.(refused := s.refused + [s.count], count := s.count + 1) else Registered(s)
  }

  /** An acquisition resolves; it cannot do so while a callback is running. */
  function Acquired(s: Scenario): Scenario {
    if s.depth > 0 then s
    else if s.aborted || s.stored then s.(losers := s.losers + [s.count], count := s.count + 1)
    else Registered(s)
  }

  /** Loop i has called what it could without waiting: if its call is still running, that call returns. */
  function Returned(s: Scenario, i: nat): Scenario {
    if i < s.depth then s.(depth := i, stored := true) else s
  }

  /** Loop i from its head: the next callback, or the end, which empties the list. */
  function AtHead(s: Scenario, i: nat): Scenario
    requires i < |s.loops|
  {
    var l := s.loops[i];
    if l.remaining == [] then Returned(s.(cleanups := []), i)
    else s.(loops := s.loops[i := l.(called := l.called + [l.remaining[0]], remaining := l.remaining[1..])])
  }

  /** A call of `cleanup`. */
  function Cleaned(s: Scenario): Scenario {
    if s.stored then s
    else
      var started := Loop(s.cleanups, [], Reversed(s.cleanups), [], []);
      AtHead(s.(loops := s.loops + [started], depth := s.depth + 1), |s.loops|)
  }

  function Outcome(l: Loop, succeeded: bool): Loop
    requires l.called != []
  {
    l.(
      outcomes := l.outcomes + [succeeded],
      errors := if succeeded then l.errors else l.errors + [l.called[|l.called| - 1]])
  }

  /** The running or suspended callback of loop i has ended. */
  function Ended(s: Scenario, i: nat, succeeded: bool): Scenario {
    if i >= |s.loops| || s.loops[i].Done() || s.loops[i].called == [] then s
    else AtHead(s.(loops := s.loops[i := Outcome(s.loops[i], succeeded)]), i)
  }

  function Step(s: Scenario, e: Event): Scenario {
    match e
    case Acquires => Acquired(s)
    case Defers => Deferred(s)
    case Aborts => s.(aborted := true)
    case Cleans => Cleaned(s)
    case Throws => if s.depth > 0 then Ended(s, s.depth - 1, false) else s
    case Suspends => if s.depth > 0 then Returned(s, s.depth - 1) else s
    case Settles(i, succeeded) => if s.depth == 0 then Ended(s, i, succeeded) else s
  }

  function Run(s: Scenario, events: seq<Event>): Scenario
    decreases |events|
  {
    if events == [] then s else Run(Step(s, events[0]), events[1..])
  }

  class ScenarioContext {
    var aborted: bool
    var cleanups: seq<nat>
    /** Whether the cleanup promise is defined. */
    var stored: bool
    /** The running and suspended calls of the cleanup loop. */
    var loops: seq<Loop>
    var depth: nat
    var count: nat
    ghost var registered: seq<nat>
    ghost var late: seq<nat>
    ghost var losers: seq<nat>
    ghost var refused: seq<nat>

    ghost function State(): Scenario
      reads this
    {
      Scenario(aborted, cleanups, stored, loops, depth, count, registered, late, losers, refused)
    }

    constructor ()
      ensures State() == INITIAL
    {
      aborted, cleanups, stored, loops, depth, count := false, [], false, [], 0, 0;
      registered, late, losers, refused := [], [], [], [];
    }

    method Register()
      modifies this
      ensures State() == Registered(old(State()))
    {
      cleanups := cleanups + [count];
      if loops == [] {
        registered := registered + [count];
      } else {
        late := late + [count];
      }
      count := count + 1;
    }

    /** Registers a cleanup, or throws once the cleanup promise exists. */
    method Defer() returns (accepted: bool)
      modifies this
      ensures State() == Deferred(old(State())) && (accepted <==> !old(stored))
    {
      if stored {
        refused, count := refused + [count], count + 1;
        return false;
      }
      Register();
      accepted := true;
    }

    /** An acquisition's continuation: registers the resource or releases it at once. */
    method Acquire() returns (kept: bool)
      requires depth == 0
      modifies this
      ensures State() == Acquired(old(State())) && (kept <==> !old(aborted) && !old(stored))
    {
      if aborted || stored {
        losers, count := losers + [count], count + 1;
        return false;
      }
      Register();
      kept := true;
    }

    /** Starts a loop unless the promise exists, whoever calls. */
    method Cleanup()
      modifies this
      ensures State() == Cleaned(old(State()))
    {
      if stored { return; }
      loops, depth := loops + [Loop(cleanups, [], Reversed(cleanups), [], [])], depth + 1;
      Continue(|loops| - 1);
    }

    method Continue(i: nat)
      requires i < |loops|
      modifies this
      ensures State() == AtHead(old(State()), i)
    {
      var l := loops[i];
      if l.remaining == [] {
        cleanups := [];
        LeaveSegment(i);
      } else {
        loops := loops[i := l.(called := l.called + [l.remaining[0]], remaining := l.remaining[1..])];
      }
    }

    /** The call of loop i returns, and its promise is stored. */
    method LeaveSegment(i: nat)
      modifies this
      ensures State() == Returned(old(State()), i)
    {
      if i < depth {
        depth, stored := i, true;
      }
    }

    /** A callback has ended; a failure becomes one error and the loop goes on. */
    method CallbackEnds(i: nat, succeeded: bool)
      requires i < |loops| && !loops[i].Done() && loops[i].called != []
      modifies this
      ensures State() == Ended(old(State()), i, succeeded)
    {
      var l := loops[i];
      var errors := if succeeded then l.errors else l.errors + [l.called[|l.called| - 1]];
      loops := loops[i := l.(outcomes := l.outcomes + [succeeded], errors := errors)];
      Continue(i);
    }
  }

  // ------------------------------------------------------------------- safety

  /** The callbacks that failed, in the order in which they were called. */
  function Failing(called: seq<nat>, outcomes: seq<bool>): seq<nat>
    requires |outcomes| <= |called|
  {
    if outcomes == [] then []
    else (if outcomes[0] then [] else [called[0]]) + Failing(called[1..], outcomes[1..])
  }

  /**
   * A loop calls its callbacks one at a time in reverse registration order, a failing one does not stop it,
   * and its errors are exactly the failing callbacks in that order.
   */
  ghost predicate Orderly(l: Loop) {
    && l.called + l.remaining == Reversed(l.snapshot)
    && |l.outcomes| <= |l.called| <= |l.outcomes| + 1
    && (l.Done() ==> l.remaining == [])
    && l.errors == Failing(l.called, l.outcomes)
  }

  /** A loop has started over everything registered before the first one, and over some of the late arrivals. */
  ghost predicate Covers(s: Scenario, i: nat)
    requires i < |s.loops|
  {
    var snapshot := s.loops[i].snapshot;
    && s.registered <= snapshot <= s.registered + s.late
    && (i == 0 ==> snapshot == s.registered)
  }

  /** Where every resource went. */
  ghost function Fate(s: Scenario): multiset<nat> {
    multiset(s.registered) + multiset(s.late) + multiset(s.losers) + multiset(s.refused)
  }

  ghost predicate Numbered(s: Scenario) {
    forall r: nat :: Fate(s)[r] == if r < s.count then 1 else 0
  }

  /** Resources are numbered as they come, so numbers grow in registration order. */
  ghost predicate Ascending(numbers: seq<nat>) {
    forall i, j | 0 <= i < j < |numbers| :: numbers[i] < numbers[j]
  }

  ghost predicate Chronological(s: Scenario) {
    Ascending(s.registered + s.late) && forall r | r in s.registered + s.late :: r < s.count
  }

  ghost predicate Nested(s: Scenario) {
    && s.depth <= |s.loops|
    && (s.stored <==> s.depth < |s.loops|)
    && (!s.stored ==> s.cleanups == s.registered + s.late)
    && (s.loops == [] ==> s.late == [])
    && (|s.loops| > 1 ==> s.registered != [])
    && (forall i | 0 <= i < s.depth :: !s.loops[i].Done())
  }

  ghost predicate Safe(s: Scenario) {
    && Numbered(s)
    && Chronological(s)
    && Nested(s)
    && forall i | 0 <= i < |s.loops| :: Orderly(s.loops[i]) && Covers(s, i)
  }

  lemma {:induction false} FailingSnoc(called: seq<nat>, more: seq<nat>, outcomes: seq<bool>, succeeded: bool)
    requires |called| == |outcomes| + 1
    ensures
      Failing(called + more, outcomes + [succeeded])
      == Failing(called, outcomes) + (if succeeded then [] else [called[|called| - 1]])
  {
    if outcomes == [] {
      assert (outcomes + [succeeded])[1..] == [] && (called + more)[0] == called[0];
    } else {
      assert (outcomes + [succeeded])[1..] == outcomes[1..] + [succeeded];
      assert (called + more)[1..] == called[1..] + more && (called + more)[0] == called[0];
      FailingSnoc(called[1..], more, outcomes[1..], succeeded);
      AppendAssociates(
        if outcomes[0] then [] else [called[0]],
        Failing(called[1..], outcomes[1..]),
        if succeeded then [] else [called[|called| - 1]]);
    }
  }

  lemma {:induction false} FailingPrefix(called: seq<nat>, more: seq<nat>, outcomes: seq<bool>)
    requires |outcomes| <= |called|
    ensures Failing(called + more, outcomes) == Failing(called, outcomes)
  {
    if outcomes != [] {
      assert (called + more)[1..] == called[1..] + more && (called + more)[0] == called[0];
      FailingPrefix(called[1..], more, outcomes[1..]);
    }
  }

  lemma {:induction false} ReversedSameElements(s: seq<nat>)
    ensures multiset(Reversed(s)) == multiset(s) && |Reversed(s)| == |s|
  {
    if s != [] {
      ReversedSameElements(s[1..]);
      assert s == [s[0]] + s[1..];
    }
  }

  lemma {:induction false} ReversedAt(s: seq<nat>, k: nat)
    requires k < |s|
    ensures |Reversed(s)| == |s| && Reversed(s)[k] == s[|s| - 1 - k]
  {
    if |s| > 1 {
      ReversedAt(s[1..], if k < |s| - 1 then k else 0);
    }
  }

  lemma AddsResource(s: Scenario, t: Scenario)
    requires Numbered(s) && t.count == s.count + 1 && Fate(t) == Fate(s) + multiset{s.count}
    ensures Numbered(t)
  {}

  lemma KeepsNumbered(s: Scenario, t: Scenario)
    requires Numbered(s) && t.count == s.count && Fate(t) == Fate(s)
    ensures Numbered(t)
  {}

  lemma RegisterKeepsChronological(s: Scenario)
    requires Chronological(s) && Nested(s)
    ensures Chronological(Registered(s))
  {
    var t := Registered(s);
    assert t.registered + t.late == (s.registered + s.late) + [s.count];
    var all := s.registered + s.late;
    forall i, j | 0 <= i < j < |all| + 1
      ensures (all + [s.count])[i] < (all + [s.count])[j]
    {
      assert (all + [s.count])[i] == all[i] && all[i] in all;
    }
  }

  lemma RegisterKeepsSafe(s: Scenario)
    requires Safe(s) && !s.stored
    ensures Safe(Registered(s))
  {
    RegisterKeepsChronological(s);
    RegisterKeepsNested(s);
    RegisterKeepsNumbered(s);
    if s.loops != [] { LateKeepsCovers(s, Registered(s)); }
    hide Orderly, Numbered, Chronological, Nested, Covers;
  }

  lemma RegisterKeepsNumbered(s: Scenario)
    requires Numbered(s)
    ensures Numbered(Registered(s))
  {
    hide Numbered;
    AddsResource(s, Registered(s));
  }

  lemma RegisterKeepsNested(s: Scenario)
    requires Nested(s) && !s.stored
    ensures Nested(Registered(s))
  {
    var t := Registered(s);
    if s.loops != [] {
      AppendAssociates(s.registered, s.late, [s.count]);
    } else {
      assert s.registered + [] == s.registered && t.registered + [] == t.registered;
    }
  }

  lemma LateKeepsCovers(s: Scenario, t: Scenario)
    requires t == s.(cleanups := t.cleanups, late := s.late + [s.count], count := t.count)
    requires forall i | 0 <= i < |s.loops| :: Covers(s, i)
    ensures forall i | 0 <= i < |s.loops| :: Covers(t, i)
  {
    AppendAssociates(s.registered, s.late, [s.count]);
    var all := s.registered + s.late;
    assert t.registered + t.late == all + [s.count];
    forall i | 0 <= i < |s.loops|
      ensures Covers(t, i)
    {
      assert Covers(s, i) && s.loops[i].snapshot <= all;
    }
  }

  lemma LoserKeepsSafe(s: Scenario)
    requires Safe(s)
    ensures Safe(s.(losers := s.losers + [s.count], count := s.count + 1))
    ensures Safe(s.(refused := s.refused + [s.count], count := s.count + 1))
  {
    hide Orderly, Numbered;
    var t, u :=
      s.(losers := s.losers + [s.count], count := s.count + 1), s.(refused := s.refused + [s.count], count := s.count + 1);
    AddsResource(s, t);
    AddsResource(s, u);
    assert forall i | 0 <= i < |s.loops| :: Covers(s, i) ==> Covers(t, i) && Covers(u, i);
  }

  /** Loop i is between two callbacks: the last one has ended, or none has been called. */
  ghost predicate BetweenCallbacks(l: Loop) {
    && l.called + l.remaining == Reversed(l.snapshot)
    && |l.outcomes| == |l.called|
    && l.errors == Failing(l.called, l.outcomes)
  }

  /** Everything but loop i is as between events. */
  ghost predicate SafeAround(s: Scenario, i: nat) {
    && i < |s.loops|
    && Numbered(s)
    && Chronological(s)
    && s.depth <= |s.loops|
    && (i < s.depth ==> i == s.depth - 1)
    && (i >= s.depth ==> s.stored)
    && (s.stored <==> s.depth < |s.loops|)
    && (!s.stored ==> s.cleanups == s.registered + s.late)
    && (|s.loops| > 1 ==> s.registered != [])
    && (forall k | 0 <= k < s.depth && k != i :: !s.loops[k].Done())
    && (forall k | 0 <= k < |s.loops| :: Covers(s, k))
    && (forall k | 0 <= k < |s.loops| && k != i :: Orderly(s.loops[k]))
    && BetweenCallbacks(s.loops[i])
  }

  lemma NextIsOrderly(l: Loop)
    requires BetweenCallbacks(l) && l.remaining != []
    ensures Orderly(l.(called := l.called + [l.remaining[0]], remaining := l.remaining[1..]))
  {
    hide Reversed;
    FailingPrefix(l.called, [l.remaining[0]], l.outcomes);
    AppendAssociates(l.called, [l.remaining[0]], l.remaining[1..]);
    CutJoins(l.remaining, 1);
  }

  lemma HeadKeepsSafe(s: Scenario, i: nat)
    requires SafeAround(s, i)
    ensures Safe(AtHead(s, i))
  {
    var l := s.loops[i];
    var t := AtHead(s, i);
    KeepsNumbered(s, t);
    if l.remaining != [] {
      NextIsOrderly(l);
    }
    hide Numbered, Reversed, Failing;
    assert forall k | 0 <= k < |s.loops| :: Covers(s, k) ==> Covers(t, k);
  }

  lemma OutcomeIsBetween(l: Loop, succeeded: bool)
    requires Orderly(l) && !l.Done()
    ensures l.called != [] && BetweenCallbacks(Outcome(l, succeeded))
    ensures Outcome(l, succeeded).snapshot == l.snapshot
  {
    hide Reversed;
    FailingSnoc(l.called, [], l.outcomes, succeeded);
    assert l.called + [] == l.called && l.errors + [] == l.errors;
  }

  lemma EndKeepsSafe(s: Scenario, i: nat, succeeded: bool)
    requires Safe(s) && (i < s.depth ==> i == s.depth - 1)
    ensures Safe(Ended(s, i, succeeded))
  {
    hide Numbered, Orderly, BetweenCallbacks, AtHead;
    if i < |s.loops| && !s.loops[i].Done() && s.loops[i].called != [] {
      assert Orderly(s.loops[i]);
      OutcomeIsBetween(s.loops[i], succeeded);
      var t := s.(loops := s.loops[i := Outcome(s.loops[i], succeeded)]);
      hide Outcome;
      KeepsNumbered(s, t);
      assert forall k | 0 <= k < |s.loops| :: Covers(s, k) ==> Covers(t, k);
      HeadKeepsSafe(t, i);
    }
  }

  lemma CleanKeepsSafe(s: Scenario)
    requires Safe(s)
    ensures Safe(Cleaned(s))
  {
    if !s.stored {
      var started := Loop(s.cleanups, [], Reversed(s.cleanups), [], []);
      var t := s.(loops := s.loops + [started], depth := s.depth + 1);
      assert [] + started.remaining == started.remaining;
      assert BetweenCallbacks(started);
      KeepsNumbered(s, t);
      if s.loops != [] { FirstLoopHasCallbacks(s); }
      hide Numbered, Orderly, BetweenCallbacks, Failing, Reversed;
      StartCovers(s, t);
      HeadKeepsSafe(t, |s.loops|);
    }
  }

  /** A callback can only start another loop when there are callbacks. */
  lemma FirstLoopHasCallbacks(s: Scenario)
    requires Safe(s) && !s.stored && s.loops != []
    ensures s.registered != []
  {
    assert Orderly(s.loops[0]) && Covers(s, 0) && !s.loops[0].Done();
    ReversedSameElements(s.registered);
  }

  lemma StartCovers(s: Scenario, t: Scenario)
    requires Nested(s) && !s.stored && forall i | 0 <= i < |s.loops| :: Covers(s, i)
    requires |t.loops| == |s.loops| + 1 && t.loops[..|s.loops|] == s.loops
    requires t.loops[|s.loops|].snapshot == s.cleanups
    requires t.registered == s.registered && t.late == s.late
    ensures forall i | 0 <= i < |t.loops| :: Covers(t, i)
  {
    forall i | 0 <= i < |t.loops|
      ensures Covers(t, i)
    {
      if i < |s.loops| {
        assert Covers(s, i) && t.loops[i] == t.loops[..|s.loops|][i];
      } else {
        assert s.loops == [] ==> s.registered + s.late == s.registered;
      }
    }
  }

  lemma ReturnKeepsSafe(s: Scenario)
    requires Safe(s)
    ensures Safe(s.(aborted := true))
    ensures s.depth > 0 ==> Safe(Returned(s, s.depth - 1))
  {
    hide Orderly, Numbered, Reversed;
    var t, u := s.(aborted := true), Returned(s, if s.depth > 0 then s.depth - 1 else 0);
    KeepsNumbered(s, t);
    KeepsNumbered(s, u);
    assert forall i | 0 <= i < |s.loops| :: Covers(s, i) ==> Covers(t, i) && Covers(u, i);
  }

  lemma AcquireAndDeferKeepSafe(s: Scenario)
    requires Safe(s)
    ensures Safe(Acquired(s)) && Safe(Deferred(s))
  {
    hide Safe, Registered;
    LoserKeepsSafe(s);
    if !s.stored { RegisterKeepsSafe(s); }
  }

  lemma StepKeepsSafe(s: Scenario, e: Event)
    requires Safe(s)
    ensures Safe(Step(s, e))
  {
    hide Safe, Acquired, Deferred, Returned, Ended, Cleaned;
    match e
    case Acquires => AcquireAndDeferKeepSafe(s);
    case Defers => AcquireAndDeferKeepSafe(s);
    case Aborts => ReturnKeepsSafe(s);
    case Cleans => CleanKeepsSafe(s);
    case Throws =>
      if s.depth > 0 { EndKeepsSafe(s, s.depth - 1, false); }
    case Suspends => ReturnKeepsSafe(s);
    case Settles(i, succeeded) =>
      if s.depth == 0 { EndKeepsSafe(s, i, succeeded); }
  }

  lemma {:induction false} RunIsSafe(s: Scenario, events: seq<Event>)
    requires Safe(s)
    ensures Safe(Run(s, events))
    decreases |events|
  {
    if events != [] {
      StepKeepsSafe(s, events[0]);
      hide Safe, Step;
      RunIsSafe(Step(s, events[0]), events[1..]);
    }
  }

  /** Last in, first out: the later a resource was registered, the earlier it is released. */
  ghost predicate LastInFirstOut(l: Loop) {
    && (forall k | 0 <= k < |l.called| :: |l.snapshot| > k && l.called[k] == l.snapshot[|l.snapshot| - 1 - k])
    && Descending(l.called)
  }

  lemma OrderlyIsLastInFirstOut(s: Scenario, i: nat)
    requires Safe(s) && i < |s.loops|
    ensures LastInFirstOut(s.loops[i])
  {
    var l := s.loops[i];
    assert Orderly(l) && Covers(s, i);
    ReversedSameElements(l.snapshot);
    forall k | 0 <= k < |l.called|
      ensures |l.snapshot| > k && l.called[k] == l.snapshot[|l.snapshot| - 1 - k]
    {
      assert |l.called + l.remaining| == |l.snapshot|;
      ReversedAt(l.snapshot, k);
      assert (l.called + l.remaining)[k] == l.called[k];
    }
    assert forall j | 0 <= j < |l.snapshot| :: l.snapshot[j] == (s.registered + s.late)[j];
    hide Reversed;
  }

  ghost predicate Descending(numbers: seq<nat>) {
    forall j, k | 0 <= j < k < |numbers| :: numbers[j] > numbers[k]
  }

  ghost predicate FailedCallback(called: seq<nat>, outcomes: seq<bool>, r: nat)
    requires |outcomes| <= |called|
  {
    exists k :: 0 <= k < |outcomes| && called[k] == r && !outcomes[k]
  }

  lemma FailedLater(called: seq<nat>, outcomes: seq<bool>, r: nat)
    requires 0 < |outcomes| <= |called|
    ensures
      FailedCallback(called, outcomes, r) <==>
        (called[0] == r && !outcomes[0]) || FailedCallback(called[1..], outcomes[1..], r)
  {
    if k :| 0 <= k < |outcomes| && called[k] == r && !outcomes[k] {
      if k > 0 { assert called[1..][k - 1] == r && !outcomes[1..][k - 1]; }
    }
    if k :| 0 <= k < |outcomes[1..]| && called[1..][k] == r && !outcomes[1..][k] {
      assert called[k + 1] == r && !outcomes[k + 1];
    }
  }

  /** The errors are the callbacks that failed, one each, in the order in which they were called. */
  lemma {:induction false} FailingMeans(called: seq<nat>, outcomes: seq<bool>)
    requires |outcomes| <= |called| && Descending(called)
    ensures forall r :: r in Failing(called, outcomes) <==> FailedCallback(called, outcomes, r)
    ensures Descending(Failing(called, outcomes))
  {
    if outcomes != [] {
      var rest := Failing(called[1..], outcomes[1..]);
      FailingMeans(called[1..], outcomes[1..]);
      forall r
        ensures r in rest ==> called[0] > r
      {
        if r in rest {
          var k :| 0 <= k < |outcomes[1..]| && called[1..][k] == r && !outcomes[1..][k];
        }
      }
      ConsDescends(called[0], rest);
      hide Descending, FailedCallback;
      forall r
        ensures r in Failing(called, outcomes) <==> FailedCallback(called, outcomes, r)
      {
        FailedLater(called, outcomes, r);
      }
    }
  }

  lemma ConsDescends(x: nat, rest: seq<nat>)
    requires (forall r | r in rest :: x > r) && Descending(rest)
    ensures Descending([x] + rest) && [] + rest == rest
  {
    assert forall k | 0 <= k < |rest| :: rest[k] in rest;
  }

  /** What a run owes of a loop: who is called when, and which errors come of it. */
  ghost predicate Accountable(l: Loop) {
    && LastInFirstOut(l)
    && |l.outcomes| <= |l.called|
    && (forall r :: r in l.errors <==> FailedCallback(l.called, l.outcomes, r))
    && Descending(l.errors)
  }

  /**
   * Over every interleaving, re-entrant cleanup calls included, every loop is orderly: resources are released
   * last in, first out, and each failure gives one error, in that order.
   */
  lemma EveryRunIsSafe(events: seq<Event>)
    ensures
      var s := Run(INITIAL, events);
      Safe(s) && forall l | l in s.loops :: Accountable(l)
  {
    assert Safe(INITIAL);
    RunIsSafe(INITIAL, events);
    var s := Run(INITIAL, events);
    hide *;
    forall l | l in s.loops
      ensures Accountable(l)
    {
      var i :| 0 <= i < |s.loops| && s.loops[i] == l;
      LoopIsAccountable(s, i);
    }
  }

  lemma LoopIsAccountable(s: Scenario, i: nat)
    requires Safe(s) && i < |s.loops|
    ensures Accountable(s.loops[i])
  {
    var l := s.loops[i];
    OrderlyIsLastInFirstOut(s, i);
    assert Orderly(l);
    assert l.errors == Failing(l.called, l.outcomes);
    hide Safe, Failing, Reversed, Descending, FailedCallback;
    FailingMeans(l.called, l.outcomes);
  }

  /**
   * An acquisition that comes after an abort, or after the cleanup promise, is released at once and is
   * registered nowhere; an abort is never undone.
   */
  lemma AcquisitionLosesRace(s: Scenario, e: Event)
    requires Safe(s)
    ensures s.aborted ==> Step(s, e).aborted
    ensures
      var t := Step(s, Acquires);
      s.depth == 0 ==>
        if s.aborted || s.stored then
          t == s.(losers := s.losers + [s.count], count := s.count + 1)
          && Releases(t)[s.count] == Releases(s)[s.count] + 1
        else t.cleanups == s.cleanups + [s.count] && t.losers == s.losers
  {
    hide Reversed;
  }

  // ------------------------------------------------------------ released exactly once

  /** Every call of a release: by the loops, and by the acquisitions that came too late. */
  ghost function CalledBy(loops: seq<Loop>): multiset<nat> {
    if loops == [] then multiset{} else multiset(loops[0].called) + CalledBy(loops[1..])
  }

  ghost function Releases(s: Scenario): multiset<nat> {
    CalledBy(s.loops) + multiset(s.losers)
  }

  ghost function Holding(loops: seq<Loop>, r: nat): nat {
    if loops == [] then 0 else (if r in loops[0].snapshot then 1 else 0) + Holding(loops[1..], r)
  }

  /** A cleanup was started, and every loop has ended. */
  ghost predicate Settled(s: Scenario) {
    s.loops != [] && s.depth == 0 && forall i | 0 <= i < |s.loops| :: s.loops[i].Done()
  }

  /** What the program has taken charge of: everything but refused registrations. */
  ghost predicate Owned(s: Scenario, r: nat) {
    r < s.count && r !in s.refused
  }

  ghost predicate DistinctSnapshots(loops: seq<Loop>, r: nat) {
    forall l | l in loops :: Orderly(l) && multiset(l.snapshot)[r] <= 1
  }

  lemma {:induction false} EachLoopCallsOnce(loops: seq<Loop>, r: nat)
    requires DistinctSnapshots(loops, r)
    ensures CalledBy(loops)[r] <= Holding(loops, r)
    ensures (forall l | l in loops :: l.Done()) ==> CalledBy(loops)[r] == Holding(loops, r)
  {
    if loops != [] {
      assert forall l | l in loops[1..] :: l in loops;
      EachLoopCallsOnce(loops[1..], r);
      var l := loops[0];
      assert Orderly(l);
      LoopCallsOnce(l, r);
    }
  }

  lemma LoopCallsOnce(l: Loop, r: nat)
    requires Orderly(l) && multiset(l.snapshot)[r] <= 1
    ensures multiset(l.called)[r] <= (if r in l.snapshot then 1 else 0)
    ensures l.Done() ==> multiset(l.called)[r] == (if r in l.snapshot then 1 else 0)
  {
    ReversedSameElements(l.snapshot);
    hide Reversed, Failing;
    assert multiset(l.called) + multiset(l.remaining) == multiset(l.snapshot);
    assert r in l.snapshot <==> multiset(l.snapshot)[r] > 0;
  }

  /** No resource is numbered twice, so no snapshot holds one twice. */
  lemma SnapshotsAreDistinct(s: Scenario, r: nat)
    requires Safe(s)
    ensures DistinctSnapshots(s.loops, r)
  {
    hide Orderly;
    forall i | 0 <= i < |s.loops|
      ensures Orderly(s.loops[i]) && multiset(s.loops[i].snapshot)[r] <= 1
    {
      assert Orderly(s.loops[i]) && Covers(s, i);
      var snapshot := s.loops[i].snapshot;
      var all := s.registered + s.late;
      assert all == snapshot + all[|snapshot|..];
      assert multiset(all) == multiset(s.registered) + multiset(s.late);
      assert Fate(s)[r] <= 1;
    }
  }

  /**
   * How often a resource has been released once everything has ended: once by each loop that started over it,
   * and once by an acquisition that came too late.
   */
  lemma ReleaseCount(s: Scenario, r: nat)
    requires Safe(s)
    ensures Releases(s)[r] <= Holding(s.loops, r) + multiset(s.losers)[r]
    ensures Settled(s) ==> Releases(s)[r] == Holding(s.loops, r) + multiset(s.losers)[r]
  {
    SnapshotsAreDistinct(s, r);
    EachLoopCallsOnce(s.loops, r);
  }

  /** Nothing has been registered, and no second loop started, from inside a callback. */
  ghost predicate Calm(s: Scenario) {
    s.late == [] && |s.loops| <= 1
  }

  /** A callback registers a cleanup, or calls `cleanup` itself, before the cleanup promise is stored. */
  predicate Disturbs(s: Scenario, e: Event) {
    s.depth > 0 && !s.stored && (e.Defers? || e.Cleans?)
  }

  ghost predicate QuietStart(s: Scenario, events: seq<Event>)
    decreases |events|
  {
    events != [] ==> !Disturbs(s, events[0]) && QuietStart(Step(s, events[0]), events[1..])
  }

  lemma CalmStep(s: Scenario, e: Event)
    requires Nested(s)
    ensures Calm(Step(s, e)) <==> Calm(s) && !Disturbs(s, e)
  {
    hide Reversed;
  }

  lemma {:induction false} CalmRun(s: Scenario, events: seq<Event>)
    requires Safe(s)
    ensures Calm(Run(s, events)) <==> Calm(s) && QuietStart(s, events)
    decreases |events|
  {
    if events != [] {
      StepKeepsSafe(s, events[0]);
      CalmStep(s, events[0]);
      hide Safe, Step, Calm, Disturbs;
      CalmRun(Step(s, events[0]), events[1..]);
    }
  }

  lemma FateOf(s: Scenario, r: nat)
    requires Numbered(s)
    ensures
      Owned(s, r) <==>
        multiset(s.registered)[r] + multiset(s.late)[r] + multiset(s.losers)[r] == 1
    ensures multiset(s.registered)[r] + multiset(s.late)[r] + multiset(s.losers)[r] <= 1
    ensures r in s.registered <==> multiset(s.registered)[r] > 0
    ensures r in s.late <==> multiset(s.late)[r] > 0
  {
    assert Fate(s)[r] == if r < s.count then 1 else 0;
    assert r in s.refused <==> multiset(s.refused)[r] > 0;
  }

  /** In a calm run nothing is ever released twice, and once it has settled everything has been released. */
  lemma CalmReleasesOnce(s: Scenario, r: nat)
    requires Safe(s) && Calm(s)
    ensures Releases(s)[r] <= 1
    ensures Settled(s) && Owned(s, r) ==> Releases(s)[r] == 1
  {
    ReleaseCount(s, r);
    FateOf(s, r);
    if s.loops != [] {
      assert Covers(s, 0);
      assert s.loops[1..] == [] && Holding([], r) == 0;
      assert Holding(s.loops, r) == if r in s.registered then 1 else 0;
    }
    hide Releases, Fate, Orderly;
  }

  /** Otherwise something has been released never or more than once. */
  lemma DisturbedReleasesWrongly(s: Scenario) returns (r: nat)
    requires Safe(s) && Settled(s) && !Calm(s)
    ensures Owned(s, r) && Releases(s)[r] != 1
  {
    r := if |s.loops| > 1 then s.registered[0] else s.late[0];
    ReleaseCount(s, r);
    FateOf(s, r);
    assert Covers(s, 0);
    if |s.loops| > 1 {
      assert Covers(s, 1);
      assert s.loops[1..][0] == s.loops[1];
      assert Holding(s.loops, r) >= 2;
    } else {
      assert s.loops[1..] == [] && Holding([], r) == 0;
    }
    hide Releases, Fate, Orderly;
  }

  /**
   * Once everything has settled, every resource has been released exactly once if and only if no callback
   * registered a cleanup or called `cleanup` before the cleanup promise was stored. A registration then is
   * accepted, and released only if yet another loop starts; a call then runs every callback once more.
   */
  lemma AllReleasedOnce(events: seq<Event>)
    requires Settled(Run(INITIAL, events))
    ensures
      var s := Run(INITIAL, events);
      (forall r: nat | Owned(s, r) :: Releases(s)[r] == 1) <==> QuietStart(INITIAL, events)
  {
    var s := Run(INITIAL, events);
    assert Safe(INITIAL);
    RunIsSafe(INITIAL, events);
    CalmRun(INITIAL, events);
    hide Run, QuietStart, Safe, Releases, Settled, Owned;
    if Calm(s) {
      forall r: nat | Owned(s, r)
        ensures Releases(s)[r] == 1
      {
        CalmReleasesOnce(s, r);
      }
    } else {
      var r := DisturbedReleasesWrongly(s);
    }
  }

  /** The states of a loop over one resource: its callback has been called, and has succeeded. */
  const CALLED := Loop([0], [0], [], [], [])
  const RELEASED := Loop([0], [0], [], [true], [])

  lemma OneResource()
    ensures Run(INITIAL, [Acquires, Cleans]) == Scenario(false, [0], false, [CALLED], 1, 1, [0], [], [], [])
    ensures Outcome(CALLED, true) == RELEASED && CalledBy([RELEASED]) == multiset{0}
  {
    assert Reversed([0]) == [0] && [0][1..] == [] && [RELEASED][1..] == [];
    var s := Step(INITIAL, Acquires);
    assert s.cleanups == [0] && s.registered == [0];
    var t := Step(s, Cleans);
    assert t.loops == [CALLED];
    RunSteps(INITIAL, [Acquires, Cleans]);
    RunSteps(s, [Cleans]);
    assert [Acquires, Cleans][1..] == [Cleans];
  }

  lemma {:induction false} RunInParts(s: Scenario, first: seq<Event>, second: seq<Event>)
    ensures Run(s, first + second) == Run(Run(s, first), second)
    decreases |first|
  {
    if first == [] {
      assert first + second == second;
    } else {
      assert (first + second)[0] == first[0] && (first + second)[1..] == first[1..] + second;
      hide Step;
      RunInParts(Step(s, first[0]), first[1..], second);
    }
  }

  /** One resource, whose callback registers another while the cleanup starts: that one is never released. */
  lemma LateRegistrationIsDropped()
    ensures
      var s := Run(INITIAL, [Acquires, Cleans] + [Defers, Suspends, Settles(0, true)]);
      Settled(s) && Owned(s, 1) && Releases(s)[1] == 0 && Releases(s)[0] == 1
  {
    OneResource();
    var e := [Defers, Suspends, Settles(0, true)];
    RunInParts(INITIAL, [Acquires, Cleans], e);
    var s := Run(INITIAL, [Acquires, Cleans]);
    hide Run, Outcome, Reversed;
    var t := Step(s, e[0]);
    var u := Step(t, e[1]);
    var v := Step(u, e[2]);
    assert v.loops == [RELEASED] && v.depth == 0 && v.count == 2 && v.refused == [] && v.losers == [];
    RunSteps(s, e);
    RunSteps(t, e[1..]);
    RunSteps(u, e[2..]);
  }

  /** One resource, whose callback calls `cleanup` while the cleanup starts: it is released twice. */
  lemma NestedCleanupReleasesTwice()
    ensures
      var s := Run(
        INITIAL, [Acquires, Cleans] + [Cleans, Suspends, Suspends, Settles(0, true), Settles(1, true)]);
      Settled(s) && Owned(s, 0) && Releases(s)[0] == 2
  {
    OneResource();
    var e := [Cleans, Suspends, Suspends, Settles(0, true), Settles(1, true)];
    RunInParts(INITIAL, [Acquires, Cleans], e);
    var s := Run(INITIAL, [Acquires, Cleans]);
    assert Reversed([0]) == [0] && [0][1..] == [];
    hide Run, Outcome, Reversed;
    var t := Step(s, e[0]);
    assert t.loops == [CALLED, CALLED] && t.depth == 2;
    var u := Step(Step(t, e[1]), e[2]);
    assert u.loops == [CALLED, CALLED] && u.depth == 0 && u.stored;
    var v := Step(u, e[3]);
    assert v.loops == [RELEASED, CALLED] && v.depth == 0;
    var w := Step(v, e[4]);
    assert w.loops == [RELEASED, RELEASED] && w.depth == 0 && w.count == 1 && w.refused == [] && w.losers == [];
    RunSteps(s, e);
    RunSteps(t, e[1..]);
    RunSteps(Step(t, e[1]), e[2..]);
    RunSteps(u, e[3..]);
    RunSteps(v, e[4..]);
    assert w.loops[1..] == [RELEASED];
  }

  lemma RunSteps(s: Scenario, events: seq<Event>)
    requires events != []
    ensures Run(s, events) == Run(Step(s, events[0]), events[1..])
    ensures |events| == 1 ==> Run(s, events) == Step(s, events[0])
  {}

  function Answers(i: nat, outcomes: seq<bool>): seq<Event> {
    seq(|outcomes|, k requires 0 <= k < |outcomes| => Settles(i, outcomes[k]))
  }

  lemma AnswersHead(i: nat, outcomes: seq<bool>)
    requires outcomes != []
    ensures Answers(i, outcomes) != [] && Answers(i, outcomes)[0] == Settles(i, outcomes[0])
    ensures Answers(i, outcomes)[1..] == Answers(i, outcomes[1..])
  {}

  /** One more callback of loop i has ended; no other loop notices. */
  lemma SettleStep(s: Scenario, i: nat, succeeded: bool)
    requires Safe(s) && s.depth == 0 && i < |s.loops| && !s.loops[i].Done()
    ensures
      var t := Step(s, Settles(i, succeeded));
      && |t.loops| == |s.loops| && t.depth == 0
      && (t.loops[i].Done() <==> s.loops[i].remaining == [])
      && (!t.loops[i].Done() ==> |t.loops[i].remaining| == |s.loops[i].remaining| - 1)
      && forall k | 0 <= k < |s.loops| && k != i :: t.loops[k] == s.loops[k]
  {
    assert Orderly(s.loops[i]);
    hide Reversed, Failing, Numbered;
  }

  /** Whatever the callbacks answer, a suspended loop ends once each of its callbacks has. */
  lemma {:induction false} CleanupFinishes(s: Scenario, i: nat, outcomes: seq<bool>)
    requires Safe(s) && s.depth == 0 && i < |s.loops| && !s.loops[i].Done()
    requires |outcomes| == |s.loops[i].remaining| + 1
    ensures
      var t := Run(s, Answers(i, outcomes));
      && |t.loops| == |s.loops| && t.loops[i].Done() && t.depth == 0
      && forall k | 0 <= k < |s.loops| && k != i :: t.loops[k] == s.loops[k]
    decreases |outcomes|
  {
    AnswersHead(i, outcomes);
    assert Answers(i, []) == [];
    hide Safe, Answers, Step;
    SettleStep(s, i, outcomes[0]);
    StepKeepsSafe(s, Settles(i, outcomes[0]));
    RunSteps(s, Answers(i, outcomes));
    if s.loops[i].remaining == [] {
      assert outcomes[1..] == [];
    } else {
      CleanupFinishes(Step(s, Settles(i, outcomes[0])), i, outcomes[1..]);
    }
  }
}
