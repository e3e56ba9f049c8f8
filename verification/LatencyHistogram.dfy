/**
 The bucket histograms of request latency and response size, and the
 percentile that reads the latency histogram instead of sorting raw data.
 */
module LatencyHistogram {

  const LATENCY_BOUNDS: seq<nat> := [1, 5, 10, 25, 50, 100, 250, 500, 1000, 2500, 5000, 10000, 30000]
  const SIZE_BOUNDS: seq<nat> := [512, 1024, 2048, 4096, 8192, 16384, 32768, 65536, 262144, 1048576, 10485760]

  const LATENCY_BUCKETS: nat := 14
  const SIZE_BUCKETS: nat := 12

  ghost predicate Increasing(bounds: seq<nat>) {
    forall i, j :: 0 <= i < j < |bounds| ==> bounds[i] < bounds[j]
  }

  /** Bucket b holds exactly the values above all earlier bounds and not above its own; the last is open. */
  ghost predicate InBucket(bounds: seq<nat>, b: nat, value: nat) {
    && b <= |bounds|
    && (forall i :: 0 <= i < b ==> bounds[i] < value)
    && (b < |bounds| ==> value <= bounds[b])
  }

  function BucketOf(bounds: seq<nat>, value: nat): (b: nat)
    ensures InBucket(bounds, b, value)
  {
    if bounds == [] then 0
    else if value <= bounds[0] then 0
    else
      var b := BucketOf(bounds[1..], value);
      assert forall i :: 0 < i < 1 + b ==> bounds[i] == bounds[1..][i - 1];
      1 + b
  }

  /** A value lies in one bucket only. */
  lemma {:induction false} BucketUnique(bounds: seq<nat>, a: nat, b: nat, value: nat)
    requires InBucket(bounds, a, value) && InBucket(bounds, b, value)
    ensures a == b
  {
  }

  method LatencyBucket(ms: nat) returns (b: nat)
    ensures b == BucketOf(LATENCY_BOUNDS, ms) && b < LATENCY_BUCKETS
  {
    for i := 0 to LATENCY_BUCKETS - 1
      invariant forall k :: 0 <= k < i ==> LATENCY_BOUNDS[k] < ms
    {
      if ms <= LATENCY_BOUNDS[i] {
        BucketUnique(LATENCY_BOUNDS, i, BucketOf(LATENCY_BOUNDS, ms), ms);
        return i;
      }
    }
    BucketUnique(LATENCY_BOUNDS, LATENCY_BUCKETS - 1, BucketOf(LATENCY_BOUNDS, ms), ms);
    return LATENCY_BUCKETS - 1;
  }

  method SizeBucket(bytes: nat) returns (b: nat)
    ensures b == BucketOf(SIZE_BOUNDS, bytes) && b < SIZE_BUCKETS
  {
    for i := 0 to SIZE_BUCKETS - 1
      invariant forall k :: 0 <= k < i ==> SIZE_BOUNDS[k] < bytes
    {
      if bytes <= SIZE_BOUNDS[i] {
        BucketUnique(SIZE_BOUNDS, i, BucketOf(SIZE_BOUNDS, bytes), bytes);
        return i;
      }
    }
    BucketUnique(SIZE_BOUNDS, SIZE_BUCKETS - 1, BucketOf(SIZE_BOUNDS, bytes), bytes);
    return SIZE_BUCKETS - 1;
  }

  /** The counters after accounting every value once, one bucket each. */
  function Histogram(bounds: seq<nat>, values: seq<nat>): (h: seq<nat>)
    ensures |h| == |bounds| + 1
  {
    if values == [] then seq(|bounds| + 1, i => 0) else
    var h := Histogram(bounds, values[..|values| - 1]);
    var b := BucketOf(bounds, values[|values| - 1]);
    h[b := h[b] + 1]
  }

  lemma {:induction false} HistogramAppend(bounds: seq<nat>, values: seq<nat>, value: nat)
    ensures var h, b := Histogram(bounds, values), BucketOf(bounds, value);
            Histogram(bounds, values + [value]) == h[b := h[b] + 1]
  {
    assert (values + [value])[..|values|] == values;
  }

  /** The total of the first k buckets. */
  function Cumulative(buckets: seq<nat>, k: nat): nat
    requires k <= |buckets|
  {
    if k == 0 then 0 else Cumulative(buckets, k - 1) + buckets[k - 1]
  }

  lemma {:induction false} ProductMonotone(n: nat, p: real, q: real)
    requires 0.0 <= p <= q
    ensures 0.0 <= n as real * p <= n as real * q
  {
    assert n as real * (q - p) >= 0.0;
    assert n as real * q == n as real * p + n as real * (q - p);
  }

  /** The share of a total that p percent are. */
  function Share(total: nat, p: real): (x: real)
    requires p >= 0.0
    ensures x >= 0.0
  {
    ProductMonotone(total, 0.0, p);
    total as real * p / 100.0
  }

  lemma {:induction false} ShareMonotone(total: nat, p: real, q: real)
    requires 0.0 <= p <= q
    ensures Share(total, p) <= Share(total, q)
  {
    ProductMonotone(total, p, q);
  }

  /** The integer part, and at least 1. */
  function AtLeastOne(x: real): (rank: nat)
    requires x >= 0.0
    ensures rank >= 1
  {
    if x.Floor == 0 then 1 else x.Floor
  }

  lemma {:induction false} AtLeastOneMonotone(x: real, y: real)
    requires 0.0 <= x <= y
    ensures AtLeastOne(x) <= AtLeastOne(y)
  {
  }

  /** The rank read off the total: the exact integer part of `total * p / 100`, at least 1. */
  function Rank(total: nat, p: real): (rank: nat)
    requires p >= 0.0
    ensures rank >= 1
  {
    AtLeastOne(Share(total, p))
  }

  /** That many are `p` percent of a total, rounded down, and at least one. */
  predicate Enough(count: nat, total: nat, p: real) {
    count >= 1 && total as real * p < 100.0 * (count + 1) as real
  }

  lemma {:induction false} FloorBounds(x: real)
    requires x >= 0.0
    ensures AtLeastOne(x) == 1 || AtLeastOne(x) as real <= x
    ensures x < (AtLeastOne(x) + 1) as real
  {
  }

  /** The rank is the least count that is enough. */
  lemma {:induction false} RankIsLeastEnough(count: nat, total: nat, p: real)
    requires p >= 0.0
    ensures count >= Rank(total, p) <==> Enough(count, total, p)
  {
    FloorBounds(Share(total, p));
  }

  /** The first bucket, from i on, whose cumulative count reaches the rank; the last one if none does. */
  function FirstReaching(buckets: seq<nat>, rank: nat, i: nat): (b: nat)
    requires i < |buckets|
    ensures i <= b < |buckets|
    ensures forall k :: i < k <= b ==> Cumulative(buckets, k) < rank
    ensures b < |buckets| - 1 ==> Cumulative(buckets, b + 1) >= rank
    decreases |buckets| - i
  {
    if i == |buckets| - 1 || Cumulative(buckets, i + 1) >= rank then i else FirstReaching(buckets, rank, i + 1)
  }

  /** The value reported for a bucket: its bound, or `top` for the open bucket. */
  function Reported(bounds: seq<nat>, top: nat, b: nat): nat {
    if b < |bounds| then bounds[b] else top
  }

  /** The percentile from the counters the first pass saw, for the total, and those the second pass saw. */
  function PercentileSeen(bounds: seq<nat>, top: nat, first: seq<nat>, second: seq<nat>, p: real): nat
    requires |first| == |second| == |bounds| + 1 && p >= 0.0
  {
    var total := Cumulative(first, |first|);
    if total == 0 then 0 else Reported(bounds, top, FirstReaching(second, Rank(total, p), 0))
  }

  /** The percentile of counters at rest. */
  function PercentileIn(bounds: seq<nat>, top: nat, buckets: seq<nat>, p: real): nat
    requires |buckets| == |bounds| + 1 && p >= 0.0
  {
    PercentileSeen(bounds, top, buckets, buckets, p)
  }

  method RankOf(total: nat, p: real) returns (target: nat)
    requires p >= 0.0
    ensures target == Rank(total, p)
    ensures forall count: nat :: count >= target <==> Enough(count, total, p)
  {
    ProductMonotone(total, 0.0, p);
    target := (total as real * p / 100.0).Floor;
    if target == 0 {
      target := 1;
    }
    forall count: nat
      ensures count >= Rank(total, p) <==> Enough(count, total, p)
    {
      RankIsLeastEnough(count, total, p);
    }
  }

  /** Both passes over the counters; requests may be accounted between the loads. */
  method Percentile(first: array<nat>, second: array<nat>, p: real) returns (bound: nat)
    requires first.Length == second.Length == LATENCY_BUCKETS && p >= 0.0
    ensures bound == PercentileSeen(LATENCY_BOUNDS, 30000, first[..], second[..], p)
  {
    var total := 0;
    for i := 0 to LATENCY_BUCKETS
      invariant total == Cumulative(first[..], i)
    {
      total := total + first[i];
    }
    if total == 0 {
      return 0;
    }
    var target := RankOf(total, p);
    var count := 0;
    for i := 0 to LATENCY_BUCKETS - 1
      invariant count == Cumulative(second[..], i)
      invariant FirstReaching(second[..], target, 0) == FirstReaching(second[..], target, i)
    {
      count := count + second[i];
      if count >= target {
        return LATENCY_BOUNDS[i];
      }
    }
    return 30000;
  }

  /** The first bucket of the second pass with enough of the total of the first one decides. */
  lemma {:induction false} SeenIsFirstEnough(bounds: seq<nat>, top: nat, first: seq<nat>, second: seq<nat>, p: real)
      returns (b: nat)
    requires |first| == |second| == |bounds| + 1 && p >= 0.0 && Cumulative(first, |first|) > 0
    ensures b <= |bounds| && PercentileSeen(bounds, top, first, second, p) == if b < |bounds| then bounds[b] else top
    ensures var total := Cumulative(first, |first|);
            && (forall k :: 0 < k <= b ==> !Enough(Cumulative(second, k), total, p))
            && (b < |bounds| ==> Enough(Cumulative(second, b + 1), total, p))
  {
    var total := Cumulative(first, |first|);
    b := FirstReaching(second, Rank(total, p), 0);
    forall k | 0 < k <= |second|
      ensures Cumulative(second, k) >= Rank(total, p) <==> Enough(Cumulative(second, k), total, p)
    {
      RankIsLeastEnough(Cumulative(second, k), total, p);
    }
  }

  // ----- counters that grow while they are read

  ghost predicate Grown(first: seq<nat>, second: seq<nat>) {
    |first| == |second| && forall i :: 0 <= i < |first| ==> first[i] <= second[i]
  }

  lemma {:induction false} CumulativeGrows(first: seq<nat>, second: seq<nat>, k: nat)
    requires Grown(first, second) && k <= |first|
    ensures Cumulative(first, k) <= Cumulative(second, k)
  {
    if k > 0 {
      CumulativeGrows(first, second, k - 1);
    }
  }

  /** Grown counters reach a rank no later. */
  lemma {:induction false} GrownReachesSooner(first: seq<nat>, second: seq<nat>, rank: nat)
    requires Grown(first, second) && first != []
    ensures FirstReaching(second, rank, 0) <= FirstReaching(first, rank, 0)
  {
    var b := FirstReaching(first, rank, 0);
    if b < |first| - 1 {
      CumulativeGrows(first, second, b + 1);
    }
  }

  /** With requests accounted between the passes, the result is at most the percentile of what the first pass saw. */
  lemma {:induction false} LivePercentileAtMost(bounds: seq<nat>, top: nat, first: seq<nat>, second: seq<nat>, p: real)
    requires Increasing(bounds) && forall i :: 0 <= i < |bounds| ==> bounds[i] <= top
    requires |first| == |bounds| + 1 && Grown(first, second) && p >= 0.0
    ensures PercentileSeen(bounds, top, first, second, p) <= PercentileIn(bounds, top, first, p)
  {
    GrownReachesSooner(first, second, Rank(Cumulative(first, |first|), p));
  }

  // ----- the histogram against the raw data

  function CountUpTo(values: seq<nat>, limit: nat): (n: nat)
    ensures n <= |values|
  {
    if values == [] then 0 else
    CountUpTo(values[..|values| - 1], limit) + if values[|values| - 1] <= limit then 1 else 0
  }

  lemma {:induction false} CumulativeBump(buckets: seq<nat>, b: nat, k: nat)
    requires b < |buckets| && k <= |buckets|
    ensures Cumulative(buckets[b := buckets[b] + 1], k) == Cumulative(buckets, k) + if b < k then 1 else 0
  {
    if k > 0 {
      CumulativeBump(buckets, b, k - 1);
    }
  }

  lemma {:induction false} CumulativeZero(buckets: seq<nat>, k: nat)
    requires k <= |buckets| && forall i :: 0 <= i < |buckets| ==> buckets[i] == 0
    ensures Cumulative(buckets, k) == 0
  {
    if k > 0 {
      CumulativeZero(buckets, k - 1);
    }
  }

  /** The first k buckets together count exactly the values up to the k-th bound. */
  lemma {:induction false} CumulativeCounts(bounds: seq<nat>, values: seq<nat>, k: nat)
    requires Increasing(bounds) && k <= |bounds| + 1
    ensures Cumulative(Histogram(bounds, values), k) ==
            if k == 0 then 0 else if k <= |bounds| then CountUpTo(values, bounds[k - 1]) else |values|
  {
    if values == [] {
      CumulativeZero(Histogram(bounds, values), k);
    } else {
      var before, value := values[..|values| - 1], values[|values| - 1];
      CumulativeCounts(bounds, before, k);
      var b := BucketOf(bounds, value);
      CumulativeBump(Histogram(bounds, before), b, k);
      if 0 < k <= |bounds| {
        assert b < k <==> value <= bounds[k - 1] by {
          if b < k && b < k - 1 {
            assert bounds[b] < bounds[k - 1];
          }
        }
      }
    }
  }

  predicate Sorted(s: seq<nat>) {
    forall i, j :: 0 <= i <= j < |s| ==> s[i] <= s[j]
  }

  /** In sorted data, at least `rank` values are within a limit exactly when the value of that rank is. */
  lemma {:induction false} CountSorted(s: seq<nat>, limit: nat, rank: nat)
    requires Sorted(s) && 1 <= rank <= |s|
    ensures CountUpTo(s, limit) >= rank <==> s[rank - 1] <= limit
  {
    var before := s[..|s| - 1];
    if s[|s| - 1] <= limit {
      AllCounted(s, limit);
    } else if rank < |s| {
      CountSorted(before, limit, rank);
    }
  }

  lemma {:induction false} AllCounted(s: seq<nat>, limit: nat)
    requires forall i :: 0 <= i < |s| ==> s[i] <= limit
    ensures CountUpTo(s, limit) == |s|
  {
    if s != [] {
      AllCounted(s[..|s| - 1], limit);
    }
  }

  lemma {:induction false} CountWithout(s: seq<nat>, k: nat, limit: nat)
    requires k < |s|
    ensures CountUpTo(s, limit) == CountUpTo(s[..k] + s[k + 1..], limit) + if s[k] <= limit then 1 else 0
  {
    var last := |s| - 1;
    if k == last {
      assert s[..k] + s[k + 1..] == s[..last];
    } else {
      var less := s[..k] + s[k + 1..];
      assert less[..|less| - 1] == s[..last][..k] + s[..last][k + 1..];
      CountWithout(s[..last], k, limit);
    }
  }

  lemma {:induction false} MultisetWithout(s: seq<nat>, k: nat)
    requires k < |s|
    ensures multiset(s[..k] + s[k + 1..]) == multiset(s) - multiset{s[k]}
  {
    assert s == s[..k] + [s[k]] + s[k + 1..];
  }

  /** Counting does not depend on the order of the data. */
  lemma {:induction false} CountPermuted(a: seq<nat>, b: seq<nat>, limit: nat)
    requires multiset(a) == multiset(b)
    ensures CountUpTo(a, limit) == CountUpTo(b, limit)
    decreases |a|
  {
    assert |a| == |multiset(a)| == |multiset(b)| == |b|;
    if a != [] {
      var last := |a| - 1;
      assert a[last] in multiset(b);
      var k :| 0 <= k < |b| && b[k] == a[last];
      MultisetWithout(a, last);
      assert a[..last] + a[last + 1..] == a[..last];
      MultisetWithout(b, k);
      CountPermuted(a[..last], b[..k] + b[k + 1..], limit);
      CountWithout(b, k, limit);
    }
  }

  /** The least bucket bound not below the value, or `top` above the largest bound. */
  function RoundUp(bounds: seq<nat>, top: nat, value: nat): nat {
    Reported(bounds, top, BucketOf(bounds, value))
  }

  lemma {:induction false} RoundUpIsLeastBound(bounds: seq<nat>, top: nat, value: nat)
    requires Increasing(bounds)
    ensures (exists i :: 0 <= i < |bounds| && value <= bounds[i]) ==>
              value <= RoundUp(bounds, top, value) && RoundUp(bounds, top, value) in bounds
    ensures (forall i :: 0 <= i < |bounds| ==> bounds[i] < value) ==> RoundUp(bounds, top, value) == top
    ensures forall i :: 0 <= i < |bounds| && value <= bounds[i] ==> RoundUp(bounds, top, value) <= bounds[i]
  {
  }

  /** The first bucket that reaches a rank holds the value of that rank. */
  lemma {:induction false} BucketHoldsRank(bounds: seq<nat>, values: seq<nat>, sorted: seq<nat>, rank: nat)
    requires Increasing(bounds)
    requires Sorted(sorted) && multiset(sorted) == multiset(values) && rank >= 1
    ensures var b := FirstReaching(Histogram(bounds, values), rank, 0);
            if rank <= |sorted| then InBucket(bounds, b, sorted[rank - 1]) else b == |bounds|
  {
    assert |values| == |multiset(values)| == |sorted|;
    var h := Histogram(bounds, values);
    forall k | 0 < k <= |bounds|
      ensures Cumulative(h, k) >= rank <==> rank <= |sorted| && sorted[rank - 1] <= bounds[k - 1]
    {
      CumulativeCounts(bounds, values, k);
      CountPermuted(values, sorted, bounds[k - 1]);
      if rank <= |sorted| {
        CountSorted(sorted, bounds[k - 1], rank);
      }
    }
    var b := FirstReaching(h, rank, 0);
    if rank <= |sorted| {
      forall i | 0 <= i < b ensures bounds[i] < sorted[rank - 1] {
        assert Cumulative(h, i + 1) < rank;
      }
    }
  }

  /** Every value is in some bucket: the buckets together count all of them. */
  lemma {:induction false} TotalIsCount(bounds: seq<nat>, values: seq<nat>)
    requires Increasing(bounds)
    ensures Cumulative(Histogram(bounds, values), |bounds| + 1) == |values|
  {
    CumulativeCounts(bounds, values, |bounds| + 1);
  }

  /**
   The fast percentile is the nearest-rank percentile of the sorted raw values,
   rounded up to a bucket bound, for all increasing bounds, every sequence of
   values and every percentile; a rank beyond the data gives the top value.
   */
  lemma {:induction false} HistogramPercentile(bounds: seq<nat>, top: nat, values: seq<nat>, sorted: seq<nat>, p: real)
    requires Increasing(bounds) && p >= 0.0 && values != []
    requires Sorted(sorted) && multiset(sorted) == multiset(values)
    ensures var rank := Rank(|values|, p);
            PercentileIn(bounds, top, Histogram(bounds, values), p) ==
            if rank <= |sorted| then RoundUp(bounds, top, sorted[rank - 1]) else top
  {
    var rank := Rank(|values|, p);
    TotalIsCount(bounds, values);
    BucketHoldsRank(bounds, values, sorted, rank);
    if rank <= |sorted| {
      var value := sorted[rank - 1];
      BucketUnique(bounds, FirstReaching(Histogram(bounds, values), rank, 0), BucketOf(bounds, value), value);
    }
  }

  /** Bound b is the first that enough of the values do not exceed; there is none if b is their number. */
  ghost predicate FirstEnough(bounds: seq<nat>, values: seq<nat>, p: real, b: nat) {
    && (forall k :: 0 <= k < b && k < |bounds| ==> !Enough(CountUpTo(values, bounds[k]), |values|, p))
    && (b < |bounds| ==> Enough(CountUpTo(values, bounds[b]), |values|, p))
  }

  lemma {:induction false} FirstEnoughPermuted(bounds: seq<nat>, a: seq<nat>, b: seq<nat>, p: real, k: nat)
    requires multiset(a) == multiset(b) && FirstEnough(bounds, a, p, k)
    ensures FirstEnough(bounds, b, p, k)
  {
    assert |a| == |multiset(a)| == |multiset(b)| == |b|;
    forall i | 0 <= i < |bounds|
      ensures CountUpTo(a, bounds[i]) == CountUpTo(b, bounds[i])
    {
      CountPermuted(a, b, bounds[i]);
    }
  }

  lemma {:induction false} EnoughInBuckets(bounds: seq<nat>, values: seq<nat>, p: real, b: nat)
    requires Increasing(bounds) && b <= |bounds|
    requires var h := Histogram(bounds, values);
             && (forall k :: 0 < k <= b ==> !Enough(Cumulative(h, k), |values|, p))
             && (b < |bounds| ==> Enough(Cumulative(h, b + 1), |values|, p))
    ensures FirstEnough(bounds, values, p, b)
  {
    forall k | 0 <= k <= b && k < |bounds|
      ensures Cumulative(Histogram(bounds, values), k + 1) == CountUpTo(values, bounds[k])
    {
      CumulativeCounts(bounds, values, k + 1);
    }
    forall k | 0 <= k < b
      ensures !Enough(CountUpTo(values, bounds[k]), |values|, p)
    {
      assert !Enough(Cumulative(Histogram(bounds, values), k + 1), |values|, p);
    }
  }

  /**
   In terms of the raw values alone: the percentile is the least bound that
   enough of the values do not exceed, or the top value if no bound has that,
   and 0 without values.
   */
  lemma {:induction false} PercentileIsLeastBound(bounds: seq<nat>, top: nat, values: seq<nat>, p: real) returns (b: nat)
    requires Increasing(bounds) && p >= 0.0
    ensures var shown := PercentileIn(bounds, top, Histogram(bounds, values), p);
            if values == [] then shown == 0
            else b <= |bounds| && shown == if b < |bounds| then bounds[b] else top
    ensures values != [] ==> FirstEnough(bounds, values, p, b)
  {
    var h := Histogram(bounds, values);
    TotalIsCount(bounds, values);
    b := 0;
    if values != [] {
      b := SeenIsFirstEnough(bounds, top, h, h, p);
      EnoughInBuckets(bounds, values, p, b);
    }
  }

  /** The same for the code's bounds, and the same data in any order. */
  lemma {:induction false} LatencyPercentileIsLeast(latencies: seq<nat>, data: seq<nat>, p: real) returns (b: nat)
    requires p >= 0.0 && multiset(data) == multiset(latencies)
    ensures var shown := PercentileIn(LATENCY_BOUNDS, 30000, Histogram(LATENCY_BOUNDS, latencies), p);
            if data == [] then shown == 0
            else b <= |LATENCY_BOUNDS| && FirstEnough(LATENCY_BOUNDS, data, p, b)
                 && shown == if b < |LATENCY_BOUNDS| then LATENCY_BOUNDS[b] else 30000
  {
    b := PercentileIsLeastBound(LATENCY_BOUNDS, 30000, latencies, p);
    assert |latencies| == |multiset(latencies)| == |multiset(data)| == |data|;
    if latencies != [] {
      FirstEnoughPermuted(LATENCY_BOUNDS, latencies, data, p, b);
    }
  }

  /** The latency percentile the API reports, for every sequence of accounted latencies. */
  lemma {:induction false} PercentileIsNearestRank(latencies: seq<nat>, sorted: seq<nat>, p: real)
    requires p >= 0.0 && latencies != []
    requires Sorted(sorted) && multiset(sorted) == multiset(latencies)
    ensures var rank := Rank(|latencies|, p);
            PercentileIn(LATENCY_BOUNDS, 30000, Histogram(LATENCY_BOUNDS, latencies), p) ==
            if rank <= |sorted| then RoundUp(LATENCY_BOUNDS, 30000, sorted[rank - 1]) else 30000
  {
    HistogramPercentile(LATENCY_BOUNDS, 30000, latencies, sorted, p);
  }

  /** Up to p = 100 the rank lies within the data, and it grows with p. */
  lemma {:induction false} RankBounds(total: nat, p: real, q: real)
    requires 0.0 <= p <= q
    ensures Rank(total, p) <= Rank(total, q)
    ensures q <= 100.0 && total >= 1 ==> Rank(total, q) <= total
  {
    ShareMonotone(total, p, q);
    AtLeastOneMonotone(Share(total, p), Share(total, q));
    if q <= 100.0 {
      ShareMonotone(total, q, 100.0);
      AtLeastOneMonotone(Share(total, q), total as real);
    }
  }

  /** A higher percentile is never smaller, so p50 <= p90 <= p95 <= p99, whatever the counters hold. */
  lemma {:induction false} PercentileMonotone(bounds: seq<nat>, top: nat, buckets: seq<nat>, p: real, q: real)
    requires Increasing(bounds) && |buckets| == |bounds| + 1 && 0.0 <= p <= q
    requires forall i :: 0 <= i < |bounds| ==> bounds[i] <= top
    ensures PercentileIn(bounds, top, buckets, p) <= PercentileIn(bounds, top, buckets, q)
  {
    var total := Cumulative(buckets, |buckets|);
    RankBounds(total, p, q);
  }

  /** The four percentiles an API response carries are in order. */
  lemma {:induction false} ReportedPercentilesOrdered(buckets: seq<nat>)
    requires |buckets| == LATENCY_BUCKETS
    ensures PercentileIn(LATENCY_BOUNDS, 30000, buckets, 50.0) <= PercentileIn(LATENCY_BOUNDS, 30000, buckets, 90.0)
    ensures PercentileIn(LATENCY_BOUNDS, 30000, buckets, 90.0) <= PercentileIn(LATENCY_BOUNDS, 30000, buckets, 95.0)
    ensures PercentileIn(LATENCY_BOUNDS, 30000, buckets, 95.0) <= PercentileIn(LATENCY_BOUNDS, 30000, buckets, 99.0)
  {
    PercentileMonotone(LATENCY_BOUNDS, 30000, buckets, 50.0, 90.0);
    PercentileMonotone(LATENCY_BOUNDS, 30000, buckets, 90.0, 95.0);
    PercentileMonotone(LATENCY_BOUNDS, 30000, buckets, 95.0, 99.0);
  }

  // ----- two percentiles read one after the other

  /** Counters never gain more below a bound than they gain in all. */
  lemma {:induction false} GainBelow(first: seq<nat>, later: seq<nat>, k: nat)
    requires Grown(first, later) && k <= |first|
    ensures Cumulative(later, k) - Cumulative(first, k) <= Cumulative(later, |first|) - Cumulative(first, |first|)
    decreases |first| - k
  {
    if k < |first| {
      GainBelow(first, later, k + 1);
    }
  }

  /** With enough of a rank's lead over the requests in between, the later rank is not reached sooner. */
  lemma {:induction false} LeadKeepsOrder(first: seq<nat>, later: seq<nat>, low: nat, high: nat)
    requires first != [] && Grown(first, later)
    requires high + Cumulative(first, |first|) >= low + Cumulative(later, |later|)
    ensures FirstReaching(first, low, 0) <= FirstReaching(later, high, 0)
  {
    var b := FirstReaching(later, high, 0);
    if b < |later| - 1 {
      GainBelow(first, later, b + 1);
    }
  }

  /** a requests in the first bucket, b in the second, none elsewhere. */
  function TwoBuckets(buckets: nat, a: nat, b: nat): (h: seq<nat>)
    requires buckets >= 3
    ensures |h| == buckets
  {
    [a, b] + seq(buckets - 2, i => 0)
  }

  lemma {:induction false} TwoBucketsCumulative(buckets: nat, a: nat, b: nat, k: nat)
    requires buckets >= 3 && k <= buckets
    ensures Cumulative(TwoBuckets(buckets, a, b), k) == if k == 0 then 0 else if k == 1 then a else a + b
  {
    if k > 0 {
      TwoBucketsCumulative(buckets, a, b, k - 1);
    }
  }

  lemma {:induction false} TwoBucketsReach(buckets: nat, a: nat, b: nat, rank: nat)
    requires buckets >= 3 && 1 <= rank <= a + b
    ensures FirstReaching(TwoBuckets(buckets, a, b), rank, 0) == if rank <= a then 0 else 1
  {
    var h := TwoBuckets(buckets, a, b);
    TwoBucketsCumulative(buckets, a, b, 1);
    TwoBucketsCumulative(buckets, a, b, 2);
    assert FirstReaching(h, rank, 1) == 1;
  }

  /**
   What the two passes of one percentile and then the two passes of another
   load: n requests, then a, b and c more from each pass to the next. A pass
   need not be one instant: counters only grow, so no load sees less than the
   load of the same counter in an earlier pass.
   */
  ghost predicate Loaded(bounds: seq<nat>, f1: seq<nat>, s1: seq<nat>, f2: seq<nat>, s2: seq<nat>,
                         n: nat, a: nat, b: nat, c: nat) {
    && |f1| == |bounds| + 1 && Grown(f1, s1) && Grown(s1, f2) && Grown(f2, s2)
    && Cumulative(f1, |f1|) == n && Cumulative(s1, |s1|) == n + a
    && Cumulative(f2, |f2|) == n + a + b && Cumulative(s2, |s2|) == n + a + b + c
  }

  ghost predicate Usable(bounds: seq<nat>, top: nat) {
    Increasing(bounds) && |bounds| >= 2 && forall i :: 0 <= i < |bounds| ==> bounds[i] <= top
  }

  /** Four passes over counters with requests in the first two buckets only. */
  lemma {:induction false} TwoBucketsLoaded(bounds: seq<nat>, x: nat, y: nat, da: nat, b: nat, c: nat, db: nat, dc: nat)
    requires |bounds| >= 2
    ensures var k := |bounds| + 1;
            Loaded(bounds, TwoBuckets(k, x, y), TwoBuckets(k, x, y + da), TwoBuckets(k, x + b, y + da + db),
                   TwoBuckets(k, x + b + c, y + da + db + dc), x + y, da, b + db, c + dc)
  {
    var k := |bounds| + 1;
    TwoBucketsCumulative(k, x, y, k);
    TwoBucketsCumulative(k, x, y + da, k);
    TwoBucketsCumulative(k, x + b, y + da + db, k);
    TwoBucketsCumulative(k, x + b + c, y + da + db + dc, k);
  }

  /** With some requests in the first pass, the second pass tells the two buckets apart. */
  lemma {:induction false} TwoBucketsSeen(bounds: seq<nat>, top: nat, a: nat, b: nat, later: nat, more: nat, p: real)
    requires Usable(bounds, top) && 0.0 <= p <= 100.0 && 0 < a + b <= later + more
    ensures var k := |bounds| + 1;
            PercentileSeen(bounds, top, TwoBuckets(k, a, b), TwoBuckets(k, later, more), p) ==
            if Rank(a + b, p) <= later then bounds[0] else bounds[1]
  {
    var k := |bounds| + 1;
    RankBounds(a + b, p, p);
    TwoBucketsCumulative(k, a, b, k);
    TwoBucketsReach(k, later, more, Rank(a + b, p));
  }

  // The lower percentile is read first.

  /** However the requests are spread, the percentile read first is at most the one read second. */
  ghost predicate RisesSurely(bounds: seq<nat>, top: nat, n: nat, a: nat, b: nat, c: nat, p: real, q: real)
    requires 0.0 <= p && 0.0 <= q
  {
    forall f1, s1, f2, s2 :: Loaded(bounds, f1, s1, f2, s2, n, a, b, c) ==>
      PercentileSeen(bounds, top, f1, s1, p) <= PercentileSeen(bounds, top, f2, s2, q)
  }

  lemma {:induction false} LeadMeansRises(bounds: seq<nat>, top: nat, n: nat, a: nat, b: nat, c: nat, p: real, q: real)
    requires Usable(bounds, top) && 0.0 <= p && 0.0 <= q
    requires n == 0 || Rank(n + a + b, q) >= Rank(n, p) + b + c
    ensures RisesSurely(bounds, top, n, a, b, c, p, q)
  {
    forall f1, s1, f2, s2 | Loaded(bounds, f1, s1, f2, s2, n, a, b, c)
      ensures PercentileSeen(bounds, top, f1, s1, p) <= PercentileSeen(bounds, top, f2, s2, q)
    {
      if n > 0 {
        LeadKeepsOrder(s1, s2, Rank(n, p), Rank(n + a + b, q));
      }
    }
  }

  /** Slow requests from the rank on, and fast ones in between. */
  lemma {:induction false} NoLeadMeansFalls(bounds: seq<nat>, top: nat, n: nat, a: nat, b: nat, c: nat, p: real, q: real)
    requires Usable(bounds, top) && 0.0 <= p <= 100.0 && 0.0 <= q <= 100.0
    requires n > 0 && Rank(n + a + b, q) < Rank(n, p) + b + c
    ensures !RisesSurely(bounds, top, n, a, b, c, p, q)
  {
    RankBounds(n, p, p);
    var x, k := Rank(n, p) - 1, |bounds| + 1;
    var y := n - x;
    TwoBucketsLoaded(bounds, x, y, a, b, c, 0, 0);
    TwoBucketsSeen(bounds, top, x, y, x, y + a, p);
    TwoBucketsSeen(bounds, top, x + b, y + a, x + b + c, y + a, q);
  }

  /**
   With two passes each and requests accounted at any time, the percentile read
   second is sure not to be the lower one if and only if nothing was accounted
   before, or its rank leads by all requests since the first one's second pass.
   */
  lemma {:induction false} RisesSurelyIff(bounds: seq<nat>, top: nat, n: nat, a: nat, b: nat, c: nat, p: real, q: real)
    requires Usable(bounds, top) && 0.0 <= p <= 100.0 && 0.0 <= q <= 100.0
    ensures RisesSurely(bounds, top, n, a, b, c, p, q) <==> n == 0 || Rank(n + a + b, q) >= Rank(n, p) + b + c
  {
    if n == 0 || Rank(n + a + b, q) >= Rank(n, p) + b + c {
      LeadMeansRises(bounds, top, n, a, b, c, p, q);
    } else {
      NoLeadMeansFalls(bounds, top, n, a, b, c, p, q);
    }
  }

  // The higher percentile is read first.

  /** However the requests are spread, the percentile read second is at most the one read first. */
  ghost predicate FallsSurely(bounds: seq<nat>, top: nat, n: nat, a: nat, b: nat, c: nat, q: real, p: real)
    requires 0.0 <= p && 0.0 <= q
  {
    forall f1, s1, f2, s2 :: Loaded(bounds, f1, s1, f2, s2, n, a, b, c) ==>
      PercentileSeen(bounds, top, f2, s2, p) <= PercentileSeen(bounds, top, f1, s1, q)
  }

  /** A lower rank in grown counters is reached no later. */
  lemma {:induction false} LowerReachesSooner(first: seq<nat>, later: seq<nat>, low: nat, high: nat)
    requires first != [] && Grown(first, later) && low <= high
    ensures FirstReaching(later, low, 0) <= FirstReaching(first, high, 0)
  {
    var b := FirstReaching(first, high, 0);
    if b < |first| - 1 {
      CumulativeGrows(first, later, b + 1);
    }
  }

  lemma {:induction false} LowRankMeansFalls(bounds: seq<nat>, top: nat, n: nat, a: nat, b: nat, c: nat, q: real, p: real)
    requires Usable(bounds, top) && 0.0 <= p && 0.0 <= q
    requires n + a + b == 0 || (n > 0 && Rank(n + a + b, p) <= Rank(n, q))
    ensures FallsSurely(bounds, top, n, a, b, c, q, p)
  {
    forall f1, s1, f2, s2 | Loaded(bounds, f1, s1, f2, s2, n, a, b, c)
      ensures PercentileSeen(bounds, top, f2, s2, p) <= PercentileSeen(bounds, top, f1, s1, q)
    {
      if n > 0 {
        LowerReachesSooner(s1, s2, Rank(n + a + b, p), Rank(n, q));
      }
    }
  }

  /** As many fast requests as the rank needs, and slow ones ever after. */
  lemma {:induction false} HighRankMeansRises(bounds: seq<nat>, top: nat, n: nat, a: nat, b: nat, c: nat, q: real, p: real)
    requires Usable(bounds, top) && 0.0 <= p <= 100.0 && 0.0 <= q <= 100.0
    requires n > 0 && Rank(n + a + b, p) > Rank(n, q)
    ensures !FallsSurely(bounds, top, n, a, b, c, q, p)
  {
    RankBounds(n, q, q);
    var x, k := Rank(n, q), |bounds| + 1;
    var y := n - x;
    TwoBucketsLoaded(bounds, x, y, a, 0, 0, b, c);
    TwoBucketsSeen(bounds, top, x, y, x, y + a, q);
    TwoBucketsSeen(bounds, top, x, y + a + b, x, y + a + b + c, p);
  }

  lemma {:induction false} NothingSeen(bounds: seq<nat>, top: nat, a: nat, later: nat, q: real)
    requires |bounds| >= 2 && 0.0 <= q
    ensures PercentileSeen(bounds, top, TwoBuckets(|bounds| + 1, 0, 0), TwoBuckets(|bounds| + 1, a, later), q) == 0
  {
    TwoBucketsCumulative(|bounds| + 1, 0, 0, |bounds| + 1);
  }

  /** A first percentile that found nothing shows 0. */
  lemma {:induction false} NothingMeansRises(bounds: seq<nat>, top: nat, x: nat, a: nat, b: nat, c: nat, q: real, p: real)
    requires Usable(bounds, top) && 0.0 <= p <= 100.0 && 0.0 <= q <= 100.0 && x == 0 && a + b > 0
    ensures !FallsSurely(bounds, top, x, a, b, c, q, p)
  {
    RankBounds(a + b, p, p);
    TwoBucketsLoaded(bounds, x, x, a, x, x, b, c);
    NothingSeen(bounds, top, x, x + a, q);
    TwoBucketsSeen(bounds, top, x, x + a + b, x, x + a + b + c, p);
    assert bounds[0] < bounds[1];
  }

  /**
   The percentile read second is sure not to be the higher one if and only if
   its rank in its own first pass does not exceed the other's in its first pass,
   or both first passes found nothing.
   */
  lemma {:induction false} FallsSurelyIff(bounds: seq<nat>, top: nat, n: nat, a: nat, b: nat, c: nat, q: real, p: real)
    requires Usable(bounds, top) && 0.0 <= p <= 100.0 && 0.0 <= q <= 100.0
    ensures FallsSurely(bounds, top, n, a, b, c, q, p) <==>
            n + a + b == 0 || (n > 0 && Rank(n + a + b, p) <= Rank(n, q))
  {
    if n + a + b == 0 || (n > 0 && Rank(n + a + b, p) <= Rank(n, q)) {
      LowRankMeansFalls(bounds, top, n, a, b, c, q, p);
    } else if n == 0 {
      NothingMeansRises(bounds, top, n, a, b, c, q, p);
    } else {
      HighRankMeansRises(bounds, top, n, a, b, c, q, p);
    }
  }

  /** On the code's bounds, six requests between the two passes of p95 are enough to put it below p90. */
  lemma {:induction false} SixRequestsSuffice()
    ensures !RisesSurely(LATENCY_BOUNDS, 30000, 100, 0, 0, 6, 90.0, 95.0)
  {
    RisesSurelyIff(LATENCY_BOUNDS, 30000, 100, 0, 0, 6, 90.0, 95.0);
  }
}
