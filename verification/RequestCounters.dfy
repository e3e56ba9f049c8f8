/**
 The request counters as one worker updates them in place, a whole request at a
 time: the same seven stages as in `Accounting`, without interruption.
 */
module RequestCounters {
  import opened Accounting
  import opened Bytes
  import opened LatencyHistogram
  import opened RequestTables
  import opened TopTable

  function Incremented(row: seq<nat>, c: nat): (r: seq<nat>)
    requires c < |row|
    ensures |r| == |row|
  {
    row[c := row[c] + 1]
  }

  ghost predicate Rows(rows: seq<seq<nat>>) {
    |rows| == STAGES && forall stage :: 0 <= stage < STAGES ==> |rows[stage]| == Width(stage)
  }

  /** Every stage counts the request once, in the cell it belongs to. */
  ghost function Counted(rows: seq<seq<nat>>, w: nat, r: Request): (after: seq<seq<nat>>)
    requires Rows(rows)
    ensures Rows(after)
  {
    seq(STAGES, stage requires 0 <= stage < STAGES => Incremented(rows[stage], Cell(stage, w, r)))
  }

  /** The seven stages of one request without interruption have the effect of the whole call. */
  lemma {:induction false} StagesMakeCall(s: State, w: nat, r: Request)
    requires Shaped(s) && w < |s.workers|
    ensures AfterStages(s, w, r, STAGES).counters == Counted(s.counters, w, r)
  {
    forall stage | 0 <= stage < STAGES
      ensures AfterStages(s, w, r, STAGES).counters[stage] == Counted(s.counters, w, r)[stage]
    {
      StagesCount(s, w, r, STAGES, stage);
    }
  }

  /** Slow requests and failed ones each count as an error, and one request can be both. */
  function WorkerErrors(latency: nat, status: nat): nat {
    (if latency > 30000 then 1 else 0) + if status >= 500 then 1 else 0
  }

  /** A request without a status counts as 499, so as an error of its path and user agent. */
  function KeyUpdate(key: Text, hash: Text -> nat, r: Request, now: nat): Update {
    TableUpdate(key, hash, r.latency, r.bytes, if r.status == 0 then 499 else r.status, now)
  }

  datatype WorkerMetric = WorkerMetric(pid: nat, lastSeen: nat, requests: nat, bytes: nat, errors: nat)

  const NO_WORKER := WorkerMetric(0, 0, 0, 0, 0)

  /** One worker process: its slot number, its pid and the time it sees. */
  datatype Process = Process(slot: nat, pid: nat, now: nat)

  /** The connection a request came on, and how many requests it has carried. */
  datatype Connection = Connection(ssl: bool, requests: nat)

  /** The counters that a call touches. */
  datatype Counters = Counters(
    rows: seq<seq<nat>>, bytes: nat, timeTotal: nat,
    sslRequests: nat, sslHandshakes: nat, keepaliveRequests: nat, workers: seq<WorkerMetric>)

  ghost predicate Sized(n: Counters) {
    Rows(n.rows) && |n.workers| == WORKERS_MAX
  }

  /** Nothing counted yet. */
  ghost predicate Zero(n: Counters) {
    && Sized(n)
    && (forall stage, c :: 0 <= stage < STAGES && 0 <= c < Width(stage) ==> n.rows[stage][c] == 0)
    && n.bytes == n.timeTotal == n.sslRequests == n.sslHandshakes == n.keepaliveRequests == 0
    && (forall w :: 0 <= w < |n.workers| ==> n.workers[w] == NO_WORKER)
  }

  function WorkerCounted(m: WorkerMetric, p: Process, r: Request): WorkerMetric {
    WorkerMetric(p.pid, p.now, m.requests + 1, m.bytes + r.bytes, m.errors + WorkerErrors(r.latency, r.status))
  }

  function UrlCapacity(maxTopUrls: nat): nat {
    if maxTopUrls < TOP_URLS_MAX then maxTopUrls else TOP_URLS_MAX
  }

  /** What a whole call leaves of the counters. */
  ghost function CallCounted(n: Counters, p: Process, r: Request, c: Connection): (after: Counters)
    requires Sized(n)
    ensures Sized(after)
  {
    var slot := p.slot % WORKERS_MAX;
    Counters(Counted(n.rows, p.slot, r), n.bytes + r.bytes, n.timeTotal + r.latency,
             n.sslRequests + (if c.ssl then 1 else 0),
             n.sslHandshakes + (if c.ssl && c.requests <= 1 then 1 else 0),
             n.keepaliveRequests + (if c.requests > 1 then 1 else 0),
             n.workers[slot := WorkerCounted(n.workers[slot], p, r)])
  }

  class Requests {
    var total: nat
    var responses: nat
    var bytes: nat
    var timeTotal: nat
    var status1xx: nat
    var status2xx: nat
    var status3xx: nat
    var status4xx: nat
    var status5xx: nat
    var sslRequests: nat
    var sslHandshakes: nat
    var keepaliveRequests: nat
    const methodHits: array<nat>
    const latencyBucket: array<nat>
    const sizeBucket: array<nat>
    const workers: array<WorkerMetric>
    const urls: array<Entry>
    const agents: array<Entry>
    const upstreams: array<Entry>

    ghost predicate Laid() {
      && methodHits.Length == METHODS && latencyBucket.Length == LATENCY_BUCKETS && sizeBucket.Length == SIZE_BUCKETS
      && workers.Length == WORKERS_MAX
      && methodHits != latencyBucket && methodHits != sizeBucket && latencyBucket != sizeBucket
    }

    ghost predicate Valid()
      reads urls, agents, upstreams
    {
      && Laid()
      && urls.Length == TOP_URLS_MAX && agents.Length == TOP_UA_MAX && upstreams.Length == UPSTREAMS_MAX
      && urls != agents && urls != upstreams && agents != upstreams
      && AllProper(urls[..]) && AllProper(agents[..]) && AllProper(upstreams[..])
    }

    ghost function Statuses(): seq<nat>
      reads this`status1xx, this`status2xx, this`status3xx, this`status4xx, this`status5xx
    {
      [status1xx, status2xx, status3xx, status4xx, status5xx]
    }

    ghost function WorkerRequests(): (row: seq<nat>)
      reads workers
      ensures |row| == workers.Length && forall w :: 0 <= w < |row| ==> row[w] == workers[w].requests
    {
      seq(workers.Length, w requires 0 <= w < workers.Length reads workers => workers[w].requests)
    }

    ghost function Now(): (rows: seq<seq<nat>>)
      requires Laid()
      reads this`total, this`responses
      reads this`status1xx, this`status2xx, this`status3xx, this`status4xx, this`status5xx
      reads methodHits, latencyBucket, sizeBucket, workers
      ensures Rows(rows)
    {
      [[total], [responses], methodHits[..], latencyBucket[..], sizeBucket[..], Statuses(), WorkerRequests()]
    }

    ghost function Totals(): (n: Counters)
      requires Laid()
      reads this, methodHits, latencyBucket, sizeBucket, workers
      ensures Sized(n)
    {
      Counters(Now(), bytes, timeTotal, sslRequests, sslHandshakes, keepaliveRequests, workers[..])
    }

    /** Nothing counted and nothing listed yet. */
    ghost predicate Unused()
      reads this, methodHits, latencyBucket, sizeBucket, workers, urls, agents, upstreams
    {
      && total == responses == bytes == timeTotal == sslRequests == sslHandshakes == keepaliveRequests == 0
      && status1xx == status2xx == status3xx == status4xx == status5xx == 0
      && (forall i :: 0 <= i < methodHits.Length ==> methodHits[i] == 0)
      && (forall i :: 0 <= i < latencyBucket.Length ==> latencyBucket[i] == 0)
      && (forall i :: 0 <= i < sizeBucket.Length ==> sizeBucket[i] == 0)
      && (forall w :: 0 <= w < workers.Length ==> workers[w] == NO_WORKER)
      && (forall i :: 0 <= i < urls.Length ==> urls[i] == BLANK)
      && (forall i :: 0 <= i < agents.Length ==> agents[i] == BLANK)
      && (forall i :: 0 <= i < upstreams.Length ==> upstreams[i] == BLANK)
    }

    lemma {:induction false} UnusedIsZero()
      requires Laid() && Unused()
      ensures Zero(Totals())
    {
    }

    constructor ()
      ensures Valid() && fresh({methodHits, latencyBucket, sizeBucket}) && fresh(workers) && fresh({urls, agents, upstreams})
      ensures Unused()
    {
      total, responses, bytes, timeTotal := 0, 0, 0, 0;
      status1xx, status2xx, status3xx, status4xx, status5xx := 0, 0, 0, 0, 0;
      sslRequests, sslHandshakes, keepaliveRequests := 0, 0, 0;
      methodHits := new nat[METHODS](_ => 0);
      latencyBucket := new nat[LATENCY_BUCKETS](_ => 0);
      sizeBucket := new nat[SIZE_BUCKETS](_ => 0);
      workers := new WorkerMetric[WORKERS_MAX](_ => NO_WORKER);
      urls := new Entry[TOP_URLS_MAX](_ => BLANK);
      agents := new Entry[TOP_UA_MAX](_ => BLANK);
      upstreams := new Entry[UPSTREAMS_MAX](_ => BLANK);
    }

    method UpdateStatus(status: nat)
      modifies this`status1xx, this`status2xx, this`status3xx, this`status4xx, this`status5xx
      ensures status > 0 ==> Statuses() == Incremented(old(Statuses()), StatusClass(status))
      ensures status1xx == old(status1xx) + if status < 200 then 1 else 0
      ensures status2xx == old(status2xx) + if 200 <= status < 300 then 1 else 0
      ensures status3xx == old(status3xx) + if 300 <= status < 400 then 1 else 0
      ensures status4xx == old(status4xx) + if 400 <= status < 500 then 1 else 0
      ensures status5xx == old(status5xx) + if 500 <= status then 1 else 0
    {
      if status < 200 {
        status1xx := status1xx + 1;
      } else if status < 300 {
        status2xx := status2xx + 1;
      } else if status < 400 {
        status3xx := status3xx + 1;
      } else if status < 500 {
        status4xx := status4xx + 1;
      } else {
        status5xx := status5xx + 1;
      }
    }

    /** Every first request of a TLS connection is a handshake, and every later request of any connection a reuse. */
    method UpdateConnection(c: Connection)
      modifies this`sslRequests, this`sslHandshakes, this`keepaliveRequests
      ensures sslRequests == old(sslRequests) + if c.ssl then 1 else 0
      ensures sslHandshakes == old(sslHandshakes) + if c.ssl && c.requests <= 1 then 1 else 0
      ensures keepaliveRequests == old(keepaliveRequests) + if c.requests > 1 then 1 else 0
    {
      if c.ssl {
        sslRequests := sslRequests + 1;
        if c.requests <= 1 {
          sslHandshakes := sslHandshakes + 1;
        }
      }
      if c.requests > 1 {
        keepaliveRequests := keepaliveRequests + 1;
      }
    }

    method UpdateWorker(p: Process, r: Request)
      requires Laid()
      modifies workers
      ensures var slot := p.slot % WORKERS_MAX;
              && workers[..] == old(workers[..])[slot := WorkerCounted(old(workers[slot]), p, r)]
              && WorkerRequests() == Incremented(old(WorkerRequests()), slot)
    {
      var slot := p.slot % WORKERS_MAX;
      workers[slot] := workers[slot].(pid := p.pid);
      workers[slot] := workers[slot].(lastSeen := p.now);
      workers[slot] := workers[slot].(requests := workers[slot].requests + 1);
      workers[slot] := workers[slot].(bytes := workers[slot].bytes + r.bytes);
      if r.latency > 30000 {
        workers[slot] := workers[slot].(errors := workers[slot].errors + 1);
      }
      if r.status >= 500 {
        workers[slot] := workers[slot].(errors := workers[slot].errors + 1);
      }
    }

    /** A method, a latency and a size each go into one counter. */
    method UpdateHistograms(r: Request)
      requires Laid()
      modifies methodHits, latencyBucket, sizeBucket
      ensures methodHits[..] == Incremented(old(methodHits[..]), r.methodIndex)
      ensures latencyBucket[..] == Incremented(old(latencyBucket[..]), BucketOf(LATENCY_BOUNDS, r.latency))
      ensures sizeBucket[..] == Incremented(old(sizeBucket[..]), BucketOf(SIZE_BOUNDS, r.bytes))
    {
      methodHits[r.methodIndex] := methodHits[r.methodIndex] + 1;
      var lb := LatencyBucket(r.latency);
      latencyBucket[lb] := latencyBucket[lb] + 1;
      var sb := SizeBucket(r.bytes);
      sizeBucket[sb] := sizeBucket[sb] + 1;
    }

    method UpdateTotals(r: Request)
      modifies this`total, this`responses, this`bytes, this`timeTotal
      ensures [total] == Incremented([old(total)], 0) && [responses] == Incremented([old(responses)], 0)
      ensures bytes == old(bytes) + r.bytes && timeTotal == old(timeTotal) + r.latency
    {
      total := total + 1;
      responses := responses + 1;
      bytes := bytes + r.bytes;
      timeTotal := timeTotal + r.latency;
    }

    /** All counters that do not depend on the worker. */
    method CountOverall(r: Request)
      requires Laid()
      modifies this`total, this`responses, this`bytes, this`timeTotal
      modifies this`status1xx, this`status2xx, this`status3xx, this`status4xx, this`status5xx
      modifies methodHits, latencyBucket, sizeBucket
      ensures [total] == Incremented([old(total)], 0) && [responses] == Incremented([old(responses)], 0)
      ensures bytes == old(bytes) + r.bytes && timeTotal == old(timeTotal) + r.latency
      ensures methodHits[..] == Incremented(old(methodHits[..]), r.methodIndex)
      ensures latencyBucket[..] == Incremented(old(latencyBucket[..]), BucketOf(LATENCY_BOUNDS, r.latency))
      ensures sizeBucket[..] == Incremented(old(sizeBucket[..]), BucketOf(SIZE_BOUNDS, r.bytes))
      ensures Statuses() == Incremented(old(Statuses()), StatusClass(r.status))
    {
      UpdateTotals(r);
      UpdateHistograms(r);
      UpdateStatus(if r.status == 0 then 499 else r.status);
    }

    /** The counters of the seven stages, the totals beside them, and the worker's slot. */
    method CountRequest(p: Process, r: Request)
      requires Laid()
      modifies this`total, this`responses, this`bytes, this`timeTotal
      modifies this`status1xx, this`status2xx, this`status3xx, this`status4xx, this`status5xx
      modifies methodHits, latencyBucket, sizeBucket, workers
      ensures Now() == Counted(old(Now()), p.slot, r)
      ensures bytes == old(bytes) + r.bytes && timeTotal == old(timeTotal) + r.latency
      ensures var slot := p.slot % WORKERS_MAX;
              workers[..] == old(workers[..])[slot := WorkerCounted(old(workers[slot]), p, r)]
    {
      ghost var before := Now();
      CountOverall(r);
      UpdateWorker(p, r);
    }

    /** The three tables: the path, the user agent if there is one, and every upstream attempt. */
    method CountKeys(p: Process, r: Request, t: Target, hash: Text -> nat, maxTopUrls: nat)
      requires Valid()
      modifies urls, agents, upstreams
      ensures Valid()
      ensures urls[..] == FrontApplied(old(urls[..]), UrlCapacity(maxTopUrls), KeyUpdate(t.uri, hash, r, p.now))
      ensures agents[..] == if t.agent.Some? then Apply(old(agents[..]), KeyUpdate(t.agent.value, hash, r, p.now))
                            else old(agents[..])
      ensures upstreams[..] == AttemptsApplied(old(upstreams[..]), t.attempts, hash, r.latency, p.now)
    {
      var capacity := if maxTopUrls < TOP_URLS_MAX then maxTopUrls else TOP_URLS_MAX;
      CountKey(urls, capacity, KeyUpdate(t.uri, hash, r, p.now));
      if t.agent.Some? {
        WholeIsFront(agents[..], KeyUpdate(t.agent.value, hash, r, p.now));
        CountKey(agents, TOP_UA_MAX, KeyUpdate(t.agent.value, hash, r, p.now));
      }
      AccountUpstream(upstreams, t.attempts, hash, r.latency, p.now);
    }

    /** All counters of a request, without the tables. */
    method CountCall(p: Process, r: Request, c: Connection)
      requires Laid()
      modifies this, methodHits, latencyBucket, sizeBucket, workers
      ensures Totals() == CallCounted(old(Totals()), p, r, c)
    {
      CountRequest(p, r);
      UpdateConnection(c);
    }

    method AccountRequest(p: Process, r: Request, c: Connection, t: Target, hash: Text -> nat, maxTopUrls: nat)
      requires Valid()
      modifies this, methodHits, latencyBucket, sizeBucket, workers, urls, agents, upstreams
      ensures Valid() && Totals() == CallCounted(old(Totals()), p, r, c)
      ensures urls[..] == FrontApplied(old(urls[..]), UrlCapacity(maxTopUrls), KeyUpdate(t.uri, hash, r, p.now))
      ensures agents[..] == if t.agent.Some? then Apply(old(agents[..]), KeyUpdate(t.agent.value, hash, r, p.now))
                            else old(agents[..])
      ensures upstreams[..] == AttemptsApplied(old(upstreams[..]), t.attempts, hash, r.latency, p.now)
    {
      CountCall(p, r, c);
      CountKeys(p, r, t, hash, maxTopUrls);
    }
  }
}
