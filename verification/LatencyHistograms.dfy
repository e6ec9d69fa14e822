/** The bucketed latency percentile of the link statistics against the sorted-list percentile. */
module LatencyHistograms {
  import opened Basics
  import opened Folds

  function Ceil(x: real): int {
    -((-x).Floor)
  }

  lemma CeilIsLeastAbove(x: real)
    ensures x <= Ceil(x) as real < x + 1.0
  {}

  /** The sorted-list percentile's rank, for a list that is not empty. */
  function NearestRank(n: nat, fraction: real): (index: nat)
    requires n > 0
    ensures index < n
  {
    var rank := Ceil(n as real * fraction) - 1;
    if rank < 0 then 0 else if rank > n - 1 then n - 1 else rank
  }

  /** The rank, counted from one, is the least that reaches the fraction of the list. */
  lemma NearestRankIsLeast(n: nat, fraction: real)
    requires n > 0 && 0.0 <= fraction <= 1.0
    ensures
      var rank := NearestRank(n, fraction) + 1;
      rank as real >= n as real * fraction && (rank == 1 || (rank - 1) as real < n as real * fraction)
  {
    CeilIsLeastAbove(n as real * fraction);
    FractionOf(n, fraction);
  }

  lemma FractionOf(n: nat, fraction: real)
    requires 0.0 <= fraction <= 1.0
    ensures 0.0 <= n as real * fraction <= n as real
  {
    ScaledDifference(n as real, 0.0, fraction);
    ScaledDifference(n as real, fraction, 1.0);
  }

  function Target(samples: nat, fraction: real): nat {
    Max(1, Ceil(samples as real * fraction))
  }

  ghost predicate Sorted(values: seq<nat>) {
    forall i, j | 0 <= i < j < |values| :: values[i] <= values[j]
  }

  ghost predicate StrictlySorted(keys: seq<nat>) {
    forall i, j | 0 <= i < j < |keys| :: keys[i] < keys[j]
  }

  lemma {:induction false} HasLeastFrom(keys: set<nat>, k: nat)
    requires k in keys
    ensures exists least :: least in keys && forall j | j in keys :: least <= j
    decreases k
  {
    if j :| j in keys && j < k {
      HasLeastFrom(keys, j);
    }
  }

  lemma HasLeast(keys: set<nat>)
    requires keys != {}
    ensures exists least :: least in keys && forall j | j in keys :: least <= j
  {
    var k :| k in keys;
    HasLeastFrom(keys, k);
  }

  function SortedKeys(keys: set<nat>): (sorted: seq<nat>)
    ensures StrictlySorted(sorted)
    ensures forall k :: k in sorted <==> k in keys
    decreases |keys|
  {
    if keys == {} then []
    else
      HasLeast(keys);
      var least :| least in keys && forall j | j in keys :: least <= j;
      [least] + SortedKeys(keys - {least})
  }

  /** Buckets that hold exactly a multiset of samples. */
  ghost predicate Represents(buckets: map<nat, nat>, samples: multiset<nat>) {
    forall k :: samples[k] == Get(buckets, k)
  }

  /** The first key at which the running count reaches the target. */
  function Scan(keys: seq<nat>, buckets: map<nat, nat>, seen: nat, target: nat): Option<nat>
    requires forall k | k in keys :: k in buckets
    decreases |keys|
  {
    if keys == [] then None
    else if seen + buckets[keys[0]] >= target then Some(keys[0])
    else Scan(keys[1..], buckets, seen + buckets[keys[0]], target)
  }

  function Percentile(buckets: map<nat, nat>, samples: nat, fraction: real): Option<nat> {
    if samples == 0 then None else Scan(SortedKeys(buckets.Keys), buckets, 0, Target(samples, fraction))
  }

  method LatencyPercentile(buckets: map<nat, nat>, samples: nat, fraction: real) returns (r: Option<nat>)
    ensures r == Percentile(buckets, samples, fraction)
  {
    if samples == 0 { return None; }
    hide Target, SortedKeys;
    r := ScanBuckets(SortedKeys(buckets.Keys), buckets, Target(samples, fraction));
  }

  method ScanBuckets(keys: seq<nat>, buckets: map<nat, nat>, target: nat) returns (r: Option<nat>)
    requires forall k | k in keys :: k in buckets
    ensures r == Scan(keys, buckets, 0, target)
  {
    var seen: nat := 0;
    assert keys[0..] == keys;
    for i := 0 to |keys|
      invariant Scan(keys, buckets, 0, target) == Scan(keys[i..], buckets, seen, target)
    {
      assert keys[i..][1..] == keys[i + 1..] && keys[i..][0] == keys[i];
      seen := seen + buckets[keys[i]];
      if seen >= target { return Some(keys[i]); }
    }
    r := None;
  }

  // --------------------------------------------- agreement with the sorted list

  ghost function CountBelow(values: seq<nat>, bound: nat): nat {
    if values == [] then 0
    else CountBelow(values[..|values| - 1], bound) + (if values[|values| - 1] < bound then 1 else 0)
  }

  /** With no value strictly between two bounds, the counts differ by the multiplicity of the lower one. */
  lemma {:induction false} CountAcrossGap(values: seq<nat>, low: nat, high: nat)
    requires low < high && forall v | v in values :: v <= low || high <= v
    ensures CountBelow(values, high) == CountBelow(values, low) + multiset(values)[low]
  {
    if values != [] {
      var n := |values| - 1;
      assert values == values[..n] + [values[n]];
      assert values[n] in values && forall v | v in values[..n] :: v in values;
      CountAcrossGap(values[..n], low, high);
    }
  }

  lemma {:induction false} CountBelowAll(values: seq<nat>, bound: nat)
    ensures CountBelow(values, bound) <= |values|
    ensures (forall v | v in values :: v < bound) ==> CountBelow(values, bound) == |values|
    ensures (forall v | v in values :: v >= bound) ==> CountBelow(values, bound) == 0
  {
    if values != [] {
      var n := |values| - 1;
      assert values[n] in values && forall v | v in values[..n] :: v in values;
      CountBelowAll(values[..n], bound);
    }
  }

  lemma {:induction false} CountBelowSorted(values: seq<nat>, bound: nat, i: nat)
    requires Sorted(values) && i < |values|
    ensures values[i] < bound <==> i < CountBelow(values, bound)
  {
    var n := |values| - 1;
    if i < n {
      CountBelowSorted(values[..n], bound, i);
    } else if values[n] < bound {
      CountBelowAll(values[..n], bound);
      assert forall v | v in values[..n] :: v <= values[n];
    } else {
      CountBelowAll(values[..n], bound);
    }
  }

  lemma InKeys(values: seq<nat>, buckets: map<nat, nat>, keys: seq<nat>, v: nat) returns (p: nat)
    requires Represents(buckets, multiset(values)) && (forall k :: k in keys <==> k in buckets) && v in values
    ensures p < |keys| && keys[p] == v
  {
    assert multiset(values)[v] > 0 && v in keys;
    p :| p < |keys| && keys[p] == v;
  }

  /** The scan, from the j-th key on, finds the sorted list's element at the target's rank. */
  lemma {:induction false} ScanFindsRank(
      values: seq<nat>, buckets: map<nat, nat>, keys: seq<nat>, j: nat, target: nat)
    requires Sorted(values) && Represents(buckets, multiset(values))
    requires StrictlySorted(keys) && (forall k :: k in keys <==> k in buckets)
    requires j < |keys| && CountBelow(values, keys[j]) < target <= |values|
    ensures Scan(keys[j..], buckets, CountBelow(values, keys[j]), target) == Some(values[target - 1])
    decreases |keys| - j
  {
    var low := keys[j];
    var high := if j + 1 < |keys| then keys[j + 1] else low + 1;
    forall v | v in values
      ensures v <= low || high <= v
    {
      var p := InKeys(values, buckets, keys, v);
    }
    CountAcrossGap(values, low, high);
    assert keys[j..][0] == low && keys[j..][1..] == keys[j + 1..];
    CountBelowSorted(values, low, target - 1);
    CountBelowSorted(values, high, target - 1);
    assert values[target - 1] in values;
    if CountBelow(values, high) < target {
      if j + 1 == |keys| {
        forall v | v in values
          ensures v < high
        {
          var p := InKeys(values, buckets, keys, v);
        }
        CountBelowAll(values, high);
        assert false;
      }
      ScanFindsRank(values, buckets, keys, j + 1, target);
    }
  }

  lemma CeilBounds(samples: nat, fraction: real)
    requires 0.0 <= fraction <= 1.0
    ensures Ceil(samples as real * fraction) <= samples
  {
    assert samples as real * fraction <= samples as real;
  }

  /** The histogram refines the sorted list: same percentile, and none only when there are no samples. */
  lemma PercentileIsNearestRank(values: seq<nat>, buckets: map<nat, nat>, fraction: real)
    requires Sorted(values) && Represents(buckets, multiset(values)) && 0.0 <= fraction <= 1.0
    ensures Percentile(buckets, |values|, fraction)
         == if values == [] then None else Some(values[NearestRank(|values|, fraction)])
  {
    if values != [] {
      var keys := SortedKeys(buckets.Keys);
      var target := Target(|values|, fraction);
      CeilBounds(|values|, fraction);
      assert NearestRank(|values|, fraction) == target - 1;
      assert values[0] in multiset(values) && values[0] in keys;
      forall v | v in values
        ensures v >= keys[0]
      {
        var p := InKeys(values, buckets, keys, v);
      }
      CountBelowAll(values, keys[0]);
      ScanFindsRank(values, buckets, keys, 0, target);
      assert keys[0..] == keys;
    }
  }

  lemma ScaledDifference(n: real, low: real, high: real)
    requires n >= 0.0 && low <= high
    ensures n * high - n * low == n * (high - low) >= 0.0
  {}

  lemma RankMonotone(n: nat, low: real, high: real)
    requires n > 0 && low <= high
    ensures NearestRank(n, low) <= NearestRank(n, high)
  {
    var a, b := n as real * low, n as real * high;
    assert b - a == n as real * (high - low) >= 0.0 by { ScaledDifference(n as real, low, high); }
    assert Ceil(a) <= Ceil(b);
  }

  lemma PercentilesAreMonotone(values: seq<nat>, buckets: map<nat, nat>, low: real, high: real)
    requires Sorted(values) && Represents(buckets, multiset(values)) && 0.0 <= low <= high <= 1.0 && values != []
    ensures
      var a, b := Percentile(buckets, |values|, low), Percentile(buckets, |values|, high);
      a.Some? && b.Some? && a.value <= b.value
  {
    hide NearestRank, Percentile;
    PercentileIsNearestRank(values, buckets, low);
    PercentileIsNearestRank(values, buckets, high);
    RankMonotone(|values|, low, high);
  }

  // ------------------------------------------------------------- recording

  datatype Histogram = Histogram(samples: nat, buckets: map<nat, nat>)

  const EMPTY := Histogram(0, map[])

  function Record(h: Histogram, elapsedMs: real): Histogram
    requires elapsedMs >= 0.0
  {
    Histogram(h.samples + 1, Bump(h.buckets, Ceil(elapsedMs)))
  }

  function RecordAll(elapsedMs: seq<real>): Histogram
    requires forall i | 0 <= i < |elapsedMs| :: elapsedMs[i] >= 0.0
  {
    if elapsedMs == [] then EMPTY
    else Record(RecordAll(elapsedMs[..|elapsedMs| - 1]), elapsedMs[|elapsedMs| - 1])
  }

  function RoundedUp(elapsedMs: seq<real>): seq<nat>
    requires forall i | 0 <= i < |elapsedMs| :: elapsedMs[i] >= 0.0
  {
    seq(|elapsedMs|, i requires 0 <= i < |elapsedMs| => Ceil(elapsedMs[i]))
  }

  lemma {:induction false} RecordedSamples(elapsedMs: seq<real>)
    requires forall i | 0 <= i < |elapsedMs| :: elapsedMs[i] >= 0.0
    ensures Represents(RecordAll(elapsedMs).buckets, multiset(RoundedUp(elapsedMs)))
    ensures RecordAll(elapsedMs).samples == |elapsedMs| == Sum(RecordAll(elapsedMs).buckets)
  {
    if elapsedMs != [] {
      var n := |elapsedMs| - 1;
      RecordedSamples(elapsedMs[..n]);
      assert RoundedUp(elapsedMs) == RoundedUp(elapsedMs[..n]) + [Ceil(elapsedMs[n])];
      var before := RecordAll(elapsedMs[..n]);
      var k: nat := Ceil(elapsedMs[n]);
      SumUpdate(before.buckets, k, Get(before.buckets, k) + 1);
    }
  }

  /** End to end: what the statistics report is the nearest-rank percentile of the rounded-up samples. */
  lemma ReportedPercentile(elapsedMs: seq<real>, sorted: seq<nat>, fraction: real)
    requires forall i | 0 <= i < |elapsedMs| :: elapsedMs[i] >= 0.0
    requires Sorted(sorted) && multiset(sorted) == multiset(RoundedUp(elapsedMs)) && 0.0 <= fraction <= 1.0
    ensures
      var h := RecordAll(elapsedMs);
      Percentile(h.buckets, h.samples, fraction)
        == if elapsedMs == [] then None else Some(sorted[NearestRank(|sorted|, fraction)])
  {
    RecordedSamples(elapsedMs);
    assert |sorted| == |multiset(sorted)| == |multiset(RoundedUp(elapsedMs))| == |elapsedMs|;
    PercentileIsNearestRank(sorted, RecordAll(elapsedMs).buckets, fraction);
  }
}
