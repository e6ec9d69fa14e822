/** The bandwidth budget that every connection of one link direction shares. */
module SerializationClocks {
  import opened Basics

  function SerializationMilliseconds(bytes: nat, megabitsPerSecond: real): real
    requires megabitsPerSecond > 0.0
  {
    (bytes as real * 8.0) / (megabitsPerSecond * 1000.0)
  }

  datatype Reservation = Reservation(bytes: nat, enqueuedMs: real, oneWayLatencyMs: real) {
    function ReadyMs(): real {
      enqueuedMs + oneWayLatencyMs
    }
  }

  /** The finish time of one reservation made when the link is busy until `busyUntil`. */
  function Next(busyUntil: real, r: Reservation, rate: real): real
    requires rate > 0.0
  {
    MaxReal(r.ReadyMs(), busyUntil) + SerializationMilliseconds(r.bytes, rate)
  }

  /** The link's finish time after a history of reservations, oldest first. */
  function Finish(busyUntil: real, history: seq<Reservation>, rate: real): real
    requires rate > 0.0
  {
    if history == [] then busyUntil
    else
      var n := |history| - 1;
      Next(Finish(busyUntil, history[..n], rate), history[n], rate)
  }

  function TotalBytes(history: seq<Reservation>): nat {
    if history == [] then 0 else TotalBytes(history[..|history| - 1]) + history[|history| - 1].bytes
  }

  lemma SerializationAdds(a: nat, b: nat, rate: real)
    requires rate > 0.0
    ensures SerializationMilliseconds(a + b, rate)
         == SerializationMilliseconds(a, rate) + SerializationMilliseconds(b, rate)
    ensures SerializationMilliseconds(a, rate) * (rate * 1000.0) == a as real * 8.0
    ensures SerializationMilliseconds(a, rate) >= 0.0
    ensures a > 0 ==> SerializationMilliseconds(a, rate) > 0.0
  {}

  /** The k-th reservation never waits for more than what was reserved from it on. */
  function Candidate(history: seq<Reservation>, k: nat, rate: real): real
    requires rate > 0.0 && k < |history|
  {
    history[k].ReadyMs() + SerializationMilliseconds(TotalBytes(history[k..]), rate)
  }

  lemma {:induction false} CandidateSnoc(history: seq<Reservation>, k: nat, rate: real)
    requires rate > 0.0 && k < |history| - 1
    ensures
      var n := |history| - 1;
      Candidate(history, k, rate)
        == Candidate(history[..n], k, rate) + SerializationMilliseconds(history[n].bytes, rate)
  {
    var n := |history| - 1;
    assert history[k..][..n - k] == history[..n][k..];
    assert history[k..][n - k] == history[n];
    SerializationAdds(TotalBytes(history[..n][k..]), history[n].bytes, rate);
  }

  /** What the finish time would be if no reservation had to wait for its own latency. */
  function Backlog(busyUntil: real, history: seq<Reservation>, rate: real): real
    requires rate > 0.0
  {
    busyUntil + SerializationMilliseconds(TotalBytes(history), rate)
  }

  lemma ReservationExtends(busyUntil: real, history: seq<Reservation>, rate: real)
    requires rate > 0.0 && history != []
    ensures
      var n := |history| - 1;
      var own := SerializationMilliseconds(history[n].bytes, rate);
      && Candidate(history, n, rate) == history[n].ReadyMs() + own
      && Backlog(busyUntil, history, rate) == Backlog(busyUntil, history[..n], rate) + own
      && (forall k | 0 <= k < n :: Candidate(history, k, rate) == Candidate(history[..n], k, rate) + own)
  {
    var n := |history| - 1;
    assert history[n..] == [history[n]] && [history[n]][..0] == [];
    assert TotalBytes([history[n]]) == history[n].bytes;
    SerializationAdds(TotalBytes(history[..n]), history[n].bytes, rate);
    forall k | 0 <= k < n
      ensures
        Candidate(history, k, rate)
        == Candidate(history[..n], k, rate) + SerializationMilliseconds(history[n].bytes, rate)
    {
      CandidateSnoc(history, k, rate);
    }
  }

  /**
   * Closed form of the recursion: the finish time is the largest of the initial busy time plus all
   * transmissions, and of each reservation's ready time plus the transmissions from it on.
   */
  lemma {:induction false} FinishIsLargestCandidate(busyUntil: real, history: seq<Reservation>, rate: real)
    requires rate > 0.0
    ensures
      var finish := Finish(busyUntil, history, rate);
      && Backlog(busyUntil, history, rate) <= finish
      && (forall k | 0 <= k < |history| :: Candidate(history, k, rate) <= finish)
      && (finish == Backlog(busyUntil, history, rate)
          || exists k :: 0 <= k < |history| && Candidate(history, k, rate) == finish)
  {
    if history == [] {
      SerializationAdds(0, 0, rate);
    } else {
      var n := |history| - 1;
      var earlier := history[..n];
      FinishIsLargestCandidate(busyUntil, earlier, rate);
      ReservationExtends(busyUntil, history, rate);
      hide SerializationMilliseconds, Backlog, Candidate;
      var own := SerializationMilliseconds(history[n].bytes, rate);
      assert Finish(busyUntil, history, rate)
          == MaxReal(history[n].ReadyMs(), Finish(busyUntil, earlier, rate)) + own;
      if history[n].ReadyMs() < Finish(busyUntil, earlier, rate) {
        if best :| 0 <= best < n && Candidate(earlier, best, rate) == Finish(busyUntil, earlier, rate) {
          assert Candidate(history, best, rate) == Finish(busyUntil, history, rate);
        }
      }
    }
  }

  /** Every byte waits at least the propagation delay plus its own transmission; the link never goes back. */
  lemma ReservationWaits(busyUntil: real, r: Reservation, rate: real)
    requires rate > 0.0
    ensures Next(busyUntil, r, rate) - r.enqueuedMs >= r.oneWayLatencyMs + SerializationMilliseconds(r.bytes, rate)
    ensures Next(busyUntil, r, rate) >= busyUntil + SerializationMilliseconds(r.bytes, rate)
    ensures Next(busyUntil, r, rate) >= busyUntil
    ensures r.bytes > 0 ==> Next(busyUntil, r, rate) > busyUntil
  {
    SerializationAdds(r.bytes, 0, rate);
  }

  /** The delay that is measured, what remains of the due time, is the wait for the link. */
  lemma DelayIsWaiting(busyUntil: real, r: Reservation, rate: real)
    requires rate > 0.0
    ensures
      MaxReal(
        0.0,
        Next(busyUntil, r, rate) - r.enqueuedMs - r.oneWayLatencyMs - SerializationMilliseconds(r.bytes, rate))
      == MaxReal(0.0, busyUntil - r.ReadyMs())
  {}

  lemma {:induction false} ElapsedCoversTransmission(
      busyUntil: real, history: seq<Reservation>, i: nat, j: nat, rate: real)
    requires rate > 0.0 && i <= j <= |history|
    ensures SerializationMilliseconds(TotalBytes(history[i..j]), rate)
         <= Finish(busyUntil, history[..j], rate) - Finish(busyUntil, history[..i], rate)
    decreases j
  {
    SerializationAdds(0, 0, rate);
    if i < j {
      ElapsedCoversTransmission(busyUntil, history, i, j - 1, rate);
      assert history[..j][..j - 1] == history[..j - 1];
      assert history[i..j][..j - 1 - i] == history[i..j - 1];
      SerializationAdds(TotalBytes(history[i..j - 1]), history[j - 1].bytes, rate);
      ReservationWaits(Finish(busyUntil, history[..j - 1], rate), history[j - 1], rate);
      hide SerializationMilliseconds, Next;
    } else {
      assert history[i..j] == [];
    }
  }

  lemma Scale(a: real, b: real, factor: real)
    requires a <= b && factor > 0.0
    ensures a * factor <= b * factor
  {}

  /**
   * No rate above the link's: bytes finishing after the i-th reservation, up to and including the j-th,
   * fit in the time between the two, whichever connections made the reservations.
   */
  lemma RateIsNeverExceeded(busyUntil: real, history: seq<Reservation>, i: nat, j: nat, rate: real)
    requires rate > 0.0 && i <= j <= |history|
    ensures
      var elapsed := Finish(busyUntil, history[..j], rate) - Finish(busyUntil, history[..i], rate);
      0.0 <= elapsed && TotalBytes(history[i..j]) as real * 8.0 <= elapsed * (rate * 1000.0)
  {
    hide SerializationMilliseconds, Finish;
    var elapsed := Finish(busyUntil, history[..j], rate) - Finish(busyUntil, history[..i], rate);
    ElapsedCoversTransmission(busyUntil, history, i, j, rate);
    SerializationAdds(TotalBytes(history[i..j]), 0, rate);
    Scale(SerializationMilliseconds(TotalBytes(history[i..j]), rate), elapsed, rate * 1000.0);
  }

  class SerializationClock {
    var nextFinishMs: real

    constructor ()
      ensures nextFinishMs == 0.0
    {
      nextFinishMs := 0.0;
    }

    /** Throws on a bandwidth that is not positive, and then reserves nothing. */
    method Reserve(bytes: nat, enqueuedMs: real, oneWayLatencyMs: real, megabitsPerSecond: real)
      returns (finish: Option<real>)
      modifies this
      ensures finish.Some? <==> megabitsPerSecond > 0.0
      ensures megabitsPerSecond > 0.0 ==>
        nextFinishMs == Next(old(nextFinishMs), Reservation(bytes, enqueuedMs, oneWayLatencyMs), megabitsPerSecond)
      ensures finish.Some? ==> finish.value == nextFinishMs
      ensures finish.None? ==> nextFinishMs == old(nextFinishMs)
    {
      var readyMs := enqueuedMs + oneWayLatencyMs;
      var startMs := MaxReal(readyMs, nextFinishMs);
      if !(megabitsPerSecond > 0.0) { return None; }
      var finishMs := startMs + SerializationMilliseconds(bytes, megabitsPerSecond);
      nextFinishMs := finishMs;
      finish := Some(finishMs);
    }
  }
}
