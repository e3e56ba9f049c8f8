/**
 Request accounting by many workers at once. Each worker counts a request in a
 fixed sequence of atomic increments, one stage after the other; the stages of
 different workers interleave freely.
 */
module Accounting {
  import opened Tally
  import opened LatencyHistogram

  const METHODS: nat := 8
  const STATUS_CLASSES: nat := 5
  const WORKERS_MAX: nat := 128

  type MethodIndex = m: nat | m < METHODS

  datatype Request = Request(methodIndex: MethodIndex, latency: nat, bytes: nat, status: nat)

  // The stages, in program order: one counter or one array of counters each.
  const TOTAL: nat := 0
  const RESPONSES: nat := 1
  const METHOD: nat := 2
  const LATENCY: nat := 3
  const SIZE: nat := 4
  const STATUS: nat := 5
  const WORKER: nat := 6
  const STAGES: nat := 7

  function Width(stage: nat): (w: nat)
    ensures w > 0
  {
    if stage == METHOD then METHODS
    else if stage == LATENCY then |LATENCY_BOUNDS| + 1
    else if stage == SIZE then |SIZE_BOUNDS| + 1
    else if stage == STATUS then STATUS_CLASSES
    else if stage == WORKER then WORKERS_MAX
    else 1
  }

  /** The status class; a request without a status counts as 499. */
  function StatusClass(status: nat): (c: nat)
    ensures c < STATUS_CLASSES
  {
    var code := if status == 0 then 499 else status;
    if code < 200 then 0 else if code < 300 then 1 else if code < 400 then 2 else if code < 500 then 3 else 4
  }

  /** The counter a worker increments at a stage. */
  function Cell(stage: nat, worker: nat, r: Request): (c: nat)
    ensures c < Width(stage)
  {
    if stage == METHOD then r.methodIndex
    else if stage == LATENCY then BucketOf(LATENCY_BOUNDS, r.latency)
    else if stage == SIZE then BucketOf(SIZE_BOUNDS, r.bytes)
    else if stage == STATUS then StatusClass(r.status)
    else if stage == WORKER then worker % WORKERS_MAX
    else 0
  }

  /** `next` is the stage the worker does next; 0 between requests. */
  datatype Worker = Worker(next: nat, request: Request)

  datatype State = State(counters: seq<seq<nat>>, workers: seq<Worker>)

  datatype Action = Begin(w: nat, request: Request) | GoOn(w: nat)

  const NOBODY := Request(0, 0, 0, 0)

  function Init(workers: nat): State {
    State(seq(STAGES, stage requires 0 <= stage => seq(Width(stage), c => 0)), seq(workers, w => Worker(0, NOBODY)))
  }

  ghost predicate Shaped(s: State) {
    && |s.counters| == STAGES
    && (forall stage :: 0 <= stage < STAGES ==> |s.counters[stage]| == Width(stage))
    && (forall w :: 0 <= w < |s.workers| ==> s.workers[w].next < STAGES)
  }

  /** Worker w does one stage of request r, and is idle again after the last. */
  function Count(s: State, w: nat, stage: nat, r: Request): (s': State)
    requires Shaped(s) && w < |s.workers| && stage < STAGES
    ensures Shaped(s')
  {
    var row, c := s.counters[stage], Cell(stage, w, r);
    State(s.counters[stage := row[c := row[c] + 1]],
          s.workers[w := Worker(if stage + 1 < STAGES then stage + 1 else 0, r)])
  }

  /** The stage an action makes a worker do, if it is enabled. */
  function StageOf(s: State, a: Action): int {
    if a.w >= |s.workers| then -1
    else match a
      case Begin(w, _) => if s.workers[w].next == 0 then 0 else -1
      case GoOn(w) => if s.workers[w].next == 0 then -1 else s.workers[w].next
  }

  function RequestOf(s: State, a: Action): Request
    requires a.w < |s.workers|
  {
    match a
    case Begin(_, r) => r
    case GoOn(w) => s.workers[w].request
  }

  function Next(s: State, a: Action): (s': State)
    requires Shaped(s)
    ensures Shaped(s')
  {
    if StageOf(s, a) < 0 then s else Count(s, a.w, StageOf(s, a), RequestOf(s, a))
  }

  function Run(workers: nat, acts: seq<Action>): (s: State)
    ensures Shaped(s)
  {
    if acts == [] then Init(workers) else Next(Run(workers, acts[..|acts| - 1]), acts[|acts| - 1])
  }

  // ----- counter gaps

  function Self(n: nat): nat { n }

  function Sum(s: State, stage: nat): nat
    requires stage < |s.counters|
  {
    SumOf(s.counters[stage], Self)
  }

  /** 1 for a worker whose next stage is the given one. */
  function At(stage: nat): Worker -> nat {
    (w: Worker) => if w.next == stage then 1 else 0
  }

  function Between(first: nat, last: nat): Worker -> nat {
    (w: Worker) => if first < w.next <= last then 1 else 0
  }

  ghost predicate GapAt(s: State, stage: nat)
    requires Shaped(s) && stage + 1 < STAGES
  {
    Sum(s, stage) == Sum(s, stage + 1) + SumOf(s.workers, At(stage + 1))
  }

  lemma {:induction false} CountKeepsGap(s: State, w: nat, done: nat, r: Request, stage: nat)
    requires Shaped(s) && w < |s.workers| && done < STAGES && s.workers[w].next == done
    requires stage + 1 < STAGES && GapAt(s, stage)
    ensures GapAt(Count(s, w, done, r), stage)
  {
    var c := Cell(done, w, r);
    SumUpdate(s.counters[done], Self, c, s.counters[done][c] + 1);
    SumUpdate(s.workers, At(stage + 1), w, Count(s, w, done, r).workers[w]);
  }

  lemma {:induction false} RunKeepsGap(workers: nat, acts: seq<Action>, stage: nat)
    requires stage + 1 < STAGES
    ensures GapAt(Run(workers, acts), stage)
  {
    if acts == [] {
      var s := Init(workers);
      SumZero(s.counters[stage], Self);
      SumZero(s.counters[stage + 1], Self);
      SumZero(s.workers, At(stage + 1));
    } else {
      RunKeepsGap(workers, acts[..|acts| - 1], stage);
      var s, a := Run(workers, acts[..|acts| - 1]), acts[|acts| - 1];
      if StageOf(s, a) >= 0 {
        CountKeepsGap(s, a.w, StageOf(s, a), RequestOf(s, a), stage);
      }
    }
  }

  /**
   In every interleaving of any number of workers, the difference between the
   totals of two stages is the number of workers between the two program points.
   */
  lemma {:induction false} GapIsInFlight(workers: nat, acts: seq<Action>, first: nat, last: nat)
    requires first <= last < STAGES
    ensures var s := Run(workers, acts);
            Sum(s, first) - Sum(s, last) == SumOf(s.workers, Between(first, last))
    decreases last
  {
    var s := Run(workers, acts);
    if first == last {
      SumZero(s.workers, Between(first, last));
    } else {
      GapIsInFlight(workers, acts, first, last - 1);
      RunKeepsGap(workers, acts, last - 1);
      SumPlus(s.workers, Between(first, last), Between(first, last - 1), At(last));
    }
  }

  /** With nobody in mid-request, all stage totals are equal. */
  lemma {:induction false} QuietTotalsAgree(workers: nat, acts: seq<Action>, first: nat, last: nat)
    requires first <= last < STAGES
    requires forall w :: 0 <= w < |Run(workers, acts).workers| ==> Run(workers, acts).workers[w].next == 0
    ensures Sum(Run(workers, acts), first) == Sum(Run(workers, acts), last)
  {
    GapIsInFlight(workers, acts, first, last);
    SumZero(Run(workers, acts).workers, Between(first, last));
  }

  // ----- one request without interference

  function Uninterrupted(w: nat, r: Request, stages: nat): seq<Action>
    requires 1 <= stages <= STAGES
  {
    if stages == 1 then [Begin(w, r)] else Uninterrupted(w, r, stages - 1) + [GoOn(w)]
  }

  function AfterStages(s: State, w: nat, r: Request, stages: nat): (s': State)
    requires Shaped(s) && w < |s.workers| && stages <= STAGES
    ensures Shaped(s') && |s'.workers| == |s.workers|
  {
    if stages == 0 then s else Count(AfterStages(s, w, r, stages - 1), w, stages - 1, r)
  }

  lemma {:induction false} StagesRun(workers: nat, acts: seq<Action>, w: nat, r: Request, stages: nat)
    requires 1 <= stages <= STAGES && w < |Run(workers, acts).workers| && Run(workers, acts).workers[w].next == 0
    ensures Run(workers, acts + Uninterrupted(w, r, stages)) == AfterStages(Run(workers, acts), w, r, stages)
  {
    if stages == 1 {
      RunStep(workers, acts, Begin(w, r));
      Begins(Run(workers, acts), w, r);
    } else {
      var before := acts + Uninterrupted(w, r, stages - 1);
      assert acts + Uninterrupted(w, r, stages) == before + [GoOn(w)];
      RunStep(workers, before, GoOn(w));
      StagesRun(workers, acts, w, r, stages - 1);
      OnlyOneWorker(Run(workers, acts), w, r, stages - 1);
      GoesOn(AfterStages(Run(workers, acts), w, r, stages - 1), w, r, stages - 1);
    }
  }

  lemma {:induction false} RunStep(workers: nat, acts: seq<Action>, a: Action)
    ensures Run(workers, acts + [a]) == Next(Run(workers, acts), a)
  {
    assert (acts + [a])[..|acts|] == acts;
  }

  lemma {:induction false} Begins(s: State, w: nat, r: Request)
    requires Shaped(s) && w < |s.workers| && s.workers[w].next == 0
    ensures Next(s, Begin(w, r)) == AfterStages(s, w, r, 1)
  {
    assert AfterStages(s, w, r, 0) == s;
  }

  lemma {:induction false} GoesOn(s: State, w: nat, r: Request, stage: nat)
    requires Shaped(s) && w < |s.workers| && s.workers[w] == Worker(stage, r) && 0 < stage
    ensures Next(s, GoOn(w)) == Count(s, w, stage, r)
  {
  }

  lemma {:induction false} CountRow(s: State, w: nat, done: nat, r: Request, stage: nat)
    requires Shaped(s) && w < |s.workers| && done < STAGES && stage < STAGES
    ensures var row, c := s.counters[stage], Cell(stage, w, r);
            Count(s, w, done, r).counters[stage] == if stage == done then row[c := row[c] + 1] else row
  {
  }

  lemma {:induction false} StagesCount(s: State, w: nat, r: Request, stages: nat, stage: nat)
    requires Shaped(s) && w < |s.workers| && stages <= STAGES && stage < STAGES
    ensures var row, c := s.counters[stage], Cell(stage, w, r);
            AfterStages(s, w, r, stages).counters[stage] == if stage < stages then row[c := row[c] + 1] else row
  {
    if stages > 0 {
      StagesCount(s, w, r, stages - 1, stage);
      CountRow(AfterStages(s, w, r, stages - 1), w, stages - 1, r, stage);
    }
  }

  /** An uninterrupted request adds one to exactly one counter of every stage. */
  lemma {:induction false} OneRequestCountsOnce(workers: nat, acts: seq<Action>, w: nat, r: Request, stage: nat)
    requires w < |Run(workers, acts).workers| && Run(workers, acts).workers[w].next == 0 && stage < STAGES
    ensures var s, s' := Run(workers, acts), Run(workers, acts + Uninterrupted(w, r, STAGES));
            var row, c := s.counters[stage], Cell(stage, w, r);
            s'.counters[stage] == row[c := row[c] + 1] && s'.workers == s.workers[w := Worker(0, r)]
  {
    var s := Run(workers, acts);
    StagesRun(workers, acts, w, r, STAGES);
    StagesCount(s, w, r, STAGES, stage);
    OnlyOneWorker(s, w, r, STAGES);
  }

  lemma {:induction false} OnlyOneWorker(s: State, w: nat, r: Request, stages: nat)
    requires Shaped(s) && w < |s.workers| && 1 <= stages <= STAGES
    ensures AfterStages(s, w, r, stages).workers == s.workers[w := Worker(if stages < STAGES then stages else 0, r)]
  {
    if stages > 1 {
      OnlyOneWorker(s, w, r, stages - 1);
    }
  }

  // ----- the latency histogram under concurrency

  /** The latencies whose bucket increment has happened, in that order. */
  function Accounted(workers: nat, acts: seq<Action>): seq<nat> {
    if acts == [] then [] else
    var before := Accounted(workers, acts[..|acts| - 1]);
    var s, a := Run(workers, acts[..|acts| - 1]), acts[|acts| - 1];
    if StageOf(s, a) == LATENCY then before + [RequestOf(s, a).latency] else before
  }

  /** The latencies of all requests begun. */
  function Begun(workers: nat, acts: seq<Action>): seq<nat> {
    if acts == [] then [] else
    var before := Begun(workers, acts[..|acts| - 1]);
    var s, a := Run(workers, acts[..|acts| - 1]), acts[|acts| - 1];
    if StageOf(s, a) == TOTAL then before + [RequestOf(s, a).latency] else before
  }

  lemma {:induction false} StepKeepsHistogram(s: State, a: Action, latencies: seq<nat>)
    requires Shaped(s) && StageOf(s, a) >= 0 && s.counters[LATENCY] == Histogram(LATENCY_BOUNDS, latencies)
    ensures Next(s, a).counters[LATENCY] == Histogram(LATENCY_BOUNDS,
              if StageOf(s, a) == LATENCY then latencies + [RequestOf(s, a).latency] else latencies)
  {
    CountRow(s, a.w, StageOf(s, a), RequestOf(s, a), LATENCY);
    HistogramAppend(LATENCY_BOUNDS, latencies, RequestOf(s, a).latency);
  }

  lemma {:induction false} LiveHistogram(workers: nat, acts: seq<Action>)
    ensures Run(workers, acts).counters[LATENCY] == Histogram(LATENCY_BOUNDS, Accounted(workers, acts))
  {
    if acts != [] {
      LiveHistogram(workers, acts[..|acts| - 1]);
      var s, a := Run(workers, acts[..|acts| - 1]), acts[|acts| - 1];
      if StageOf(s, a) >= 0 {
        StepKeepsHistogram(s, a, Accounted(workers, acts[..|acts| - 1]));
      }
    }
  }

  /** 1 for a worker whose request has this latency and was begun but not yet put in a bucket. */
  function Holding(latency: nat): Worker -> nat {
    (w: Worker) => if TOTAL < w.next <= LATENCY && w.request.latency == latency then 1 else 0
  }

  /** Every latency begun is accounted or held by a worker on its way to the bucket. */
  lemma {:induction false} LatenciesConserved(workers: nat, acts: seq<Action>, latency: nat)
    ensures multiset(Begun(workers, acts))[latency] ==
            multiset(Accounted(workers, acts))[latency] + SumOf(Run(workers, acts).workers, Holding(latency))
  {
    if acts == [] {
      SumZero(Init(workers).workers, Holding(latency));
    } else {
      LatenciesConserved(workers, acts[..|acts| - 1], latency);
      var s, a := Run(workers, acts[..|acts| - 1]), acts[|acts| - 1];
      if StageOf(s, a) >= 0 {
        SumUpdate(s.workers, Holding(latency), a.w, Next(s, a).workers[a.w]);
      }
    }
  }

  lemma {:induction false} QuietAccountsAll(workers: nat, acts: seq<Action>)
    requires forall w :: 0 <= w < |Run(workers, acts).workers| ==> Run(workers, acts).workers[w].next == 0
    ensures multiset(Begun(workers, acts)) == multiset(Accounted(workers, acts))
  {
    forall latency: nat
      ensures multiset(Begun(workers, acts))[latency] == multiset(Accounted(workers, acts))[latency]
    {
      LatenciesConserved(workers, acts, latency);
      SumZero(Run(workers, acts).workers, Holding(latency));
    }
  }

  /**
   Whenever no worker is in mid-request, the reported percentile is the
   nearest-rank percentile of the latencies of all requests ever begun, in
   whatever order their increments interleaved.
   */
  lemma {:induction false} QuietPercentile(workers: nat, acts: seq<Action>, sorted: seq<nat>, p: real)
    requires p >= 0.0 && sorted != []
    requires forall w :: 0 <= w < |Run(workers, acts).workers| ==> Run(workers, acts).workers[w].next == 0
    requires Sorted(sorted) && multiset(sorted) == multiset(Begun(workers, acts))
    ensures var rank := Rank(|sorted|, p);
            PercentileIn(LATENCY_BOUNDS, 30000, Run(workers, acts).counters[LATENCY], p) ==
            if rank <= |sorted| then RoundUp(LATENCY_BOUNDS, 30000, sorted[rank - 1]) else 30000
  {
    LiveHistogram(workers, acts);
    QuietAccountsAll(workers, acts);
    var latencies := Accounted(workers, acts);
    assert |latencies| == |multiset(latencies)| == |multiset(sorted)| == |sorted|;
    PercentileIsNearestRank(latencies, sorted, p);
  }

  /**
   The same without ranks: with nobody in mid-request the reported percentile is
   the least bound that enough of all latencies begun do not exceed, the top
   value if there is none, and 0 before the first request.
   */
  lemma {:induction false} QuietPercentileIsLeast(workers: nat, acts: seq<Action>, p: real) returns (b: nat)
    requires p >= 0.0
    requires forall w :: 0 <= w < |Run(workers, acts).workers| ==> Run(workers, acts).workers[w].next == 0
    ensures var shown := PercentileIn(LATENCY_BOUNDS, 30000, Run(workers, acts).counters[LATENCY], p);
            if Begun(workers, acts) == [] then shown == 0
            else b <= |LATENCY_BOUNDS| && FirstEnough(LATENCY_BOUNDS, Begun(workers, acts), p, b)
                 && shown == if b < |LATENCY_BOUNDS| then LATENCY_BOUNDS[b] else 30000
  {
    LiveHistogram(workers, acts);
    QuietAccountsAll(workers, acts);
    b := LatencyPercentileIsLeast(Accounted(workers, acts), Begun(workers, acts), p);
  }
}
