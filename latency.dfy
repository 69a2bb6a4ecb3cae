/**
 * Latency percentiles: positive timestamp deltas between timestep-sorted
 * neighbours, sorted, read at the nearest-rank indices for 50%, 90% and 99%.
 */
module Latency {
  import opened Episodes
  import opened Sorting

  /** The delta a pair of neighbours contributes: both timestamps are
      integers and the later one is strictly larger. */
  function PairDelta(prev: State, curr: State): seq<int>
  {
    if prev.timestampMs.Some? && curr.timestampMs.Some? && curr.timestampMs.value - prev.timestampMs.value > 0
    then [curr.timestampMs.value - prev.timestampMs.value]
    else []
  }

  /** The `latencies` list the loop builds over consecutive pairs of `sorted`. */
  function PositiveDeltas(sorted: seq<State>): (d: seq<int>)
    ensures |d| <= if |sorted| < 2 then 0 else |sorted| - 1
    ensures forall i :: 0 <= i < |d| ==> d[i] > 0
  {
    if |sorted| < 2 then []
    else PositiveDeltas(sorted[..|sorted| - 1]) + PairDelta(sorted[|sorted| - 2], sorted[|sorted| - 1])
  }

  datatype LatencyStats = LatencyStats(p50: int, p90: int, p99: int)

  function Identity(x: int): int
  {
    x
  }

  /** The nearest-rank indices `int(n * 0.5)`, `int(n * 0.9)` and `int(n * 0.99)`
      are ordered and all lie below `n`. */
  lemma PercentileIndices(n: nat)
    requires n > 0
    ensures Rank(n, 50) <= Rank(n, 90) <= Rank(n, 99) < n
  {
    assert n * 99 / 100 < n by {
      assert n * 99 < n * 100;
    }
    assert n / 2 <= n * 9 / 10 by {
      var q := n / 2;
      assert q * 2 <= n;
      assert q * 10 <= n * 5 <= n * 9;
    }
    assert n * 9 / 10 <= n * 99 / 100 by {
      var q := n * 9 / 10;
      assert q * 10 <= n * 9;
      assert q * 100 <= n * 90 <= n * 99;
    }
  }

  /** The zero-based nearest-rank index `int(n * percent / 100)`. */
  function Rank(n: nat, percent: nat): nat
  {
    n * percent / 100
  }

  /** Reads the three percentiles from a non-empty list: each is an element
      of it, and on an ascending list they are ordered. */
  function Percentiles(latencies: seq<int>): (r: LatencyStats)
    requires |latencies| > 0
    ensures r.p50 in latencies && r.p90 in latencies && r.p99 in latencies
    ensures SortedBy(latencies, Identity) ==> r.p50 <= r.p90 <= r.p99
  {
    var n := |latencies|;
    PercentileIndices(n);
    assert SortedBy(latencies, Identity) ==>
             Identity(latencies[Rank(n, 50)]) <= Identity(latencies[Rank(n, 90)])
             <= Identity(latencies[Rank(n, 99)]);
    LatencyStats(latencies[Rank(n, 50)], latencies[Rank(n, 90)], latencies[Rank(n, 99)])
  }

  function LatencyStatsOf(states: seq<State>): LatencyStats
  {
    if |states| < 2 then LatencyStats(0, 0, 0)
    else
      var deltas := PositiveDeltas(SortBy(states, Timestep));
      if |deltas| == 0 then LatencyStats(0, 0, 0)
      else
        SortByCorrect(deltas, Identity);
        Percentiles(SortBy(deltas, Identity))
  }

  /** All three percentiles are 0 exactly when there are fewer than two
      states or no positive delta; otherwise each is one of the deltas,
      positive, and p50 <= p90 <= p99. */
  lemma LatencyStatsProperties(states: seq<State>)
    ensures var r := LatencyStatsOf(states);
            var deltas := PositiveDeltas(SortBy(states, Timestep));
            && (r == LatencyStats(0, 0, 0) <==> |states| < 2 || |deltas| == 0)
            && (|states| >= 2 && |deltas| > 0 ==>
                  && r.p50 in deltas && r.p90 in deltas && r.p99 in deltas
                  && 0 < r.p50 <= r.p90 <= r.p99)
  {
    var deltas := PositiveDeltas(SortBy(states, Timestep));
    if |states| >= 2 && |deltas| > 0 {
      var l := SortBy(deltas, Identity);
      SortByCorrect(deltas, Identity);
      var r := Percentiles(l);
      SortByMembers(deltas, Identity, r.p50);
      SortByMembers(deltas, Identity, r.p90);
      SortByMembers(deltas, Identity, r.p99);
      assert r.p50 > 0;
    }
  }

  /** The loop of `_compute_latency_stats` over neighbours of the
      timestep-sorted states, appending each positive delta. */
  method CollectLatencies(sorted: seq<State>) returns (latencies: seq<int>)
    requires |sorted| >= 2
    ensures latencies == PositiveDeltas(sorted)
  {
    latencies := [];
    for i := 1 to |sorted|
      invariant latencies == PositiveDeltas(sorted[..i])
    {
      assert sorted[..i + 1][..i] == sorted[..i];
      var prevTs := sorted[i - 1].timestampMs;
      var currTs := sorted[i].timestampMs;
      if prevTs.Some? && currTs.Some? {
        var delta := currTs.value - prevTs.value;
        if delta > 0 {
          latencies := latencies + [delta];
        }
      }
    }
    assert sorted[..|sorted|] == sorted;
  }

  /** `_compute_latency_stats`. */
  method ComputeLatencyStats(states: seq<State>) returns (stats: LatencyStats)
    ensures stats == LatencyStatsOf(states)
  {
    if |states| < 2 {
      return LatencyStats(0, 0, 0);
    }
    var latencies := CollectLatencies(SortBy(states, Timestep));
    if |latencies| == 0 {
      return LatencyStats(0, 0, 0);
    }
    SortByCorrect(latencies, Identity);
    latencies := SortBy(latencies, Identity);  // latencies.sort()
    var n := |latencies|;
    PercentileIndices(n);
    stats := LatencyStats(latencies[Rank(n, 50)], latencies[Rank(n, 90)], latencies[Rank(n, 99)]);
  }
}
