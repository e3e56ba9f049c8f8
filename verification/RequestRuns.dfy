/**
 What the request counters mean, after any sequence of whole calls on a fresh
 zone, in fields of the requests.
 */
module RequestRuns {
  import opened Accounting
  import opened LatencyHistogram
  import opened RequestCounters
  import opened RequestTables
  import opened Tally

  /** One whole call of the accounting. */
  datatype Call = Call(process: Process, request: Request, connection: Connection, target: Target)

  /** The counters after a sequence of calls. */
  ghost function After(start: Counters, calls: seq<Call>): (n: Counters)
    requires Sized(start)
    ensures Sized(n)
  {
    if calls == [] then start else
    var call := calls[|calls| - 1];
    CallCounted(After(start, calls[..|calls| - 1]), call.process, call.request, call.connection)
  }

  // ----- every call counts once in every stage

  /** The calls that belong to a counter of a stage. */
  function InCell(stage: nat, c: nat): Call -> bool {
    (call: Call) => Cell(stage, call.process.slot, call.request) == c
  }

  /** The calls that belong to one of the first k counters of a stage. */
  function InFirst(stage: nat, k: nat): Call -> bool {
    (call: Call) => Cell(stage, call.process.slot, call.request) < k
  }

  /** Each counter is the number of calls that belong to it. */
  lemma {:induction false} CountersAreCounts(start: Counters, calls: seq<Call>, stage: nat, c: nat)
    requires Zero(start) && stage < STAGES && c < Width(stage)
    ensures After(start, calls).rows[stage][c] == CountOf(calls, InCell(stage, c))
  {
    if calls != [] {
      CountersAreCounts(start, calls[..|calls| - 1], stage, c);
    }
  }

  lemma {:induction false} CallBumpsRow(n: Counters, call: Call, stage: nat, k: nat)
    requires Sized(n) && stage < STAGES && k <= Width(stage)
    ensures Cumulative(CallCounted(n, call.process, call.request, call.connection).rows[stage], k) ==
            Cumulative(n.rows[stage], k) + if InFirst(stage, k)(call) then 1 else 0
  {
    CumulativeBump(n.rows[stage], Cell(stage, call.process.slot, call.request), k);
  }

  /** The first k counters of a stage together are the number of calls that belong to one of them. */
  lemma {:induction false} FirstCountersAreCounts(start: Counters, calls: seq<Call>, stage: nat, k: nat)
    requires Zero(start) && stage < STAGES && k <= Width(stage)
    ensures Cumulative(After(start, calls).rows[stage], k) == CountOf(calls, InFirst(stage, k))
  {
    if calls == [] {
      CumulativeZero(start.rows[stage], k);
    } else {
      var before, call := After(start, calls[..|calls| - 1]), calls[|calls| - 1];
      FirstCountersAreCounts(start, calls[..|calls| - 1], stage, k);
      CallBumpsRow(before, call, stage, k);
    }
  }

  // ----- the same in fields of the requests

  /** The status a request counts under. */
  function CodeOf(call: Call): nat {
    if call.request.status == 0 then 499 else call.request.status
  }

  function CodeBelow(limit: nat): Call -> bool {
    (call: Call) => CodeOf(call) < limit
  }

  function TookAtMost(limit: nat): Call -> bool {
    (call: Call) => call.request.latency <= limit
  }

  function SentAtMost(limit: nat): Call -> bool {
    (call: Call) => call.request.bytes <= limit
  }

  function WithMethod(m: nat): Call -> bool {
    (call: Call) => call.request.methodIndex == m
  }

  function ByWorker(w: nat): Call -> bool {
    (call: Call) => call.process.slot % WORKERS_MAX == w
  }

  /** The counters of 1xx, of 1xx and 2xx, ... are the calls answered below 200, below 300, ... */
  lemma {:induction false} StatusesCount(start: Counters, calls: seq<Call>, k: nat)
    requires Zero(start) && 1 <= k < STATUS_CLASSES
    ensures Cumulative(After(start, calls).rows[STATUS], k) == CountOf(calls, CodeBelow(100 * (k + 1)))
  {
    FirstCountersAreCounts(start, calls, STATUS, k);
    CountSame(calls, InFirst(STATUS, k), CodeBelow(100 * (k + 1)));
  }

  /** A value lies in one of the first k buckets exactly if it is at most the k-th bound. */
  lemma {:induction false} BucketBelow(bounds: seq<nat>, value: nat, k: nat)
    requires Increasing(bounds) && 1 <= k <= |bounds|
    ensures BucketOf(bounds, value) < k <==> value <= bounds[k - 1]
  {
    var b := BucketOf(bounds, value);
    if b < k - 1 {
      assert bounds[b] < bounds[k - 1];
    }
  }

  lemma {:induction false} LatenciesBelow(call: Call, k: nat)
    requires 1 <= k <= |LATENCY_BOUNDS|
    ensures InFirst(LATENCY, k)(call) == TookAtMost(LATENCY_BOUNDS[k - 1])(call)
  {
    BucketBelow(LATENCY_BOUNDS, call.request.latency, k);
  }

  lemma {:induction false} LatenciesCount(start: Counters, calls: seq<Call>, k: nat)
    requires Zero(start) && 1 <= k <= |LATENCY_BOUNDS|
    ensures Cumulative(After(start, calls).rows[LATENCY], k) == CountOf(calls, TookAtMost(LATENCY_BOUNDS[k - 1]))
  {
    FirstCountersAreCounts(start, calls, LATENCY, k);
    forall i | 0 <= i < |calls|
      ensures InFirst(LATENCY, k)(calls[i]) == TookAtMost(LATENCY_BOUNDS[k - 1])(calls[i])
    {
      LatenciesBelow(calls[i], k);
    }
    CountSame(calls, InFirst(LATENCY, k), TookAtMost(LATENCY_BOUNDS[k - 1]));
  }

  lemma {:induction false} SizesBelow(call: Call, k: nat)
    requires 1 <= k <= |SIZE_BOUNDS|
    ensures InFirst(SIZE, k)(call) == SentAtMost(SIZE_BOUNDS[k - 1])(call)
  {
    BucketBelow(SIZE_BOUNDS, call.request.bytes, k);
  }

  lemma {:induction false} SizesCount(start: Counters, calls: seq<Call>, k: nat)
    requires Zero(start) && 1 <= k <= |SIZE_BOUNDS|
    ensures Cumulative(After(start, calls).rows[SIZE], k) == CountOf(calls, SentAtMost(SIZE_BOUNDS[k - 1]))
  {
    FirstCountersAreCounts(start, calls, SIZE, k);
    forall i | 0 <= i < |calls|
      ensures InFirst(SIZE, k)(calls[i]) == SentAtMost(SIZE_BOUNDS[k - 1])(calls[i])
    {
      SizesBelow(calls[i], k);
    }
    CountSame(calls, InFirst(SIZE, k), SentAtMost(SIZE_BOUNDS[k - 1]));
  }

  lemma {:induction false} MethodsCount(start: Counters, calls: seq<Call>, m: nat)
    requires Zero(start) && m < METHODS
    ensures After(start, calls).rows[METHOD][m] == CountOf(calls, WithMethod(m))
  {
    CountersAreCounts(start, calls, METHOD, m);
    CountSame(calls, InCell(METHOD, m), WithMethod(m));
  }

  function Slow(w: nat): Call -> bool {
    (call: Call) => call.process.slot % WORKERS_MAX == w && call.request.latency > 30000
  }

  function Failed(w: nat): Call -> bool {
    (call: Call) => call.process.slot % WORKERS_MAX == w && call.request.status >= 500
  }

  function PidOf(call: Call): nat { call.process.pid }

  function TimeOf(call: Call): nat { call.process.now }

  function Sent(call: Call): nat { call.request.bytes }

  function Took(call: Call): nat { call.request.latency }

  /** A worker's slot sums up its own calls, and names the last one's process and time. */
  lemma {:induction false} WorkersCount(start: Counters, calls: seq<Call>, w: nat)
    requires Zero(start) && w < WORKERS_MAX
    ensures After(start, calls).workers[w] ==
            WorkerMetric(LatestOf(calls, ByWorker(w), PidOf), LatestOf(calls, ByWorker(w), TimeOf),
                         CountOf(calls, ByWorker(w)), Among(calls, ByWorker(w), Sent),
                         CountOf(calls, Slow(w)) + CountOf(calls, Failed(w)))
    ensures After(start, calls).rows[WORKER][w] == CountOf(calls, ByWorker(w))
  {
    if calls != [] {
      WorkersCount(start, calls[..|calls| - 1], w);
    }
  }

  lemma {:induction false} RowGrows(row: seq<nat>, c: nat)
    requires c < |row|
    ensures SumOf(Incremented(row, c), Self) == SumOf(row, Self) + 1
  {
    SumUpdate(row, Self, c, row[c] + 1);
  }

  /** Whatever the stage, its counters add up to the calls. */
  lemma {:induction false} StagesCountCalls(start: Counters, calls: seq<Call>, stage: nat)
    requires Zero(start) && stage < STAGES
    ensures SumOf(After(start, calls).rows[stage], Self) == |calls|
  {
    if calls == [] {
      SumZero(start.rows[stage], Self);
    } else {
      var before, call := After(start, calls[..|calls| - 1]), calls[|calls| - 1];
      StagesCountCalls(start, calls[..|calls| - 1], stage);
      RowGrows(before.rows[stage], Cell(stage, call.process.slot, call.request));
    }
  }

  // ----- the worker slots against the totals

  function BytesOf(m: WorkerMetric): nat { m.bytes }

  function ErrorsOf(m: WorkerMetric): nat { m.errors }

  /** The bytes of all workers are the bytes of the zone and of the calls, and the times add up. */
  lemma {:induction false} WorkerBytesAddUp(start: Counters, calls: seq<Call>)
    requires Zero(start)
    ensures var n := After(start, calls);
            SumOf(n.workers, BytesOf) == n.bytes == SumOf(calls, Sent) && n.timeTotal == SumOf(calls, Took)
  {
    if calls == [] {
      SumZero(start.workers, BytesOf);
    } else {
      var before, call := After(start, calls[..|calls| - 1]), calls[|calls| - 1];
      WorkerBytesAddUp(start, calls[..|calls| - 1]);
      var slot := call.process.slot % WORKERS_MAX;
      SumUpdate(before.workers, BytesOf, slot, WorkerCounted(before.workers[slot], call.process, call.request));
    }
  }

  /** The last latency bucket holds what a worker calls slow, and the last status class what it calls failed. */
  lemma {:induction false} ErrorsAreLastCells(r: Request)
    ensures WorkerErrors(r.latency, r.status) ==
            (if BucketOf(LATENCY_BOUNDS, r.latency) == LATENCY_BUCKETS - 1 then 1 else 0)
            + (if StatusClass(r.status) == STATUS_CLASSES - 1 then 1 else 0)
  {
    assert LATENCY_BOUNDS[LATENCY_BUCKETS - 2] == 30000;
  }

  /** The counters of failed requests and of the slowest ones. */
  ghost function LastCells(n: Counters): nat
    requires Sized(n)
  {
    n.rows[STATUS][STATUS_CLASSES - 1] + n.rows[LATENCY][LATENCY_BUCKETS - 1]
  }

  lemma {:induction false} CallMovesLastCells(n: Counters, call: Call)
    requires Sized(n)
    ensures LastCells(CallCounted(n, call.process, call.request, call.connection)) ==
            LastCells(n) + WorkerErrors(call.request.latency, call.request.status)
  {
    ErrorsAreLastCells(call.request);
  }

  /** The errors of all workers are the failed requests and the slowest ones; one that is both counts twice. */
  lemma {:induction false} WorkerErrorsAddUp(start: Counters, calls: seq<Call>)
    requires Zero(start)
    ensures SumOf(After(start, calls).workers, ErrorsOf) == LastCells(After(start, calls))
  {
    if calls == [] {
      SumZero(start.workers, ErrorsOf);
    } else {
      var before, call := After(start, calls[..|calls| - 1]), calls[|calls| - 1];
      WorkerErrorsAddUp(start, calls[..|calls| - 1]);
      CallMovesLastCells(before, call);
      var slot := call.process.slot % WORKERS_MAX;
      SumUpdate(before.workers, ErrorsOf, slot, WorkerCounted(before.workers[slot], call.process, call.request));
    }
  }

  // ----- connections

  predicate OverTls(call: Call) { call.connection.ssl }

  predicate FirstOverTls(call: Call) { call.connection.ssl && call.connection.requests <= 1 }

  predicate Reuses(call: Call) { call.connection.requests > 1 }

  lemma {:induction false} ConnectionsCount(start: Counters, calls: seq<Call>)
    requires Zero(start)
    ensures var n := After(start, calls);
            && n.sslRequests == CountOf(calls, OverTls)
            && n.sslHandshakes == CountOf(calls, FirstOverTls)
            && n.keepaliveRequests == CountOf(calls, Reuses)
  {
    if calls != [] {
      ConnectionsCount(start, calls[..|calls| - 1]);
    }
  }

  /** Every TLS request is a handshake or a reuse, none is both, and no counter passes the calls. */
  lemma {:induction false} ConnectionsOrdered(start: Counters, calls: seq<Call>)
    requires Zero(start)
    ensures var n := After(start, calls);
            && n.sslHandshakes <= n.sslRequests <= n.sslHandshakes + n.keepaliveRequests <= |calls|
  {
    if calls != [] {
      ConnectionsOrdered(start, calls[..|calls| - 1]);
    }
  }
}
