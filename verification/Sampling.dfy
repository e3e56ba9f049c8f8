/**
 The history step of a collector pass: the spacing gate, the rates since the
 previous sample, the moving averages and the ring append, together with the
 reload of the ring and the reader that serialises it.
 */
module Sampling {
  import opened Common
  import opened HistoryRing
  import opened Tally
  import Ewma

  datatype Counters = Counters(req: nat, resp: nat, netRx: nat, netTx: nat, diskRead: nat, diskWrite: nat)

  /** The last readings of the system collectors: loads and processor use in thousandths, memory and swap in bytes. */
  datatype System = System(
    usage: nat, load1: nat, load5: nat, load15: nat,
    memTotal: nat, memAvailable: nat, swapTotal: nat, swapFree: nat)

  /** What one collector pass sees: the clock, the configuration in force, the counters and the system readings. */
  datatype Pass = Pass(
    now: nat, resolution: nat, refresh: nat, counters: Counters, system: System, p95: nat, s4xx: nat, s5xx: nat)

  datatype Gauges = Gauges(cpu: real, load1: real, load5: real, load15: real, memory: real, swap: real)

  /** The averages are in thousandths per second. */
  datatype Sample = Sample(
    at: nat, gauges: Gauges, rps: nat, resps: nat,
    netRx: nat, netTx: nat, diskRead: nat, diskWrite: nat,
    p95: nat, requests: nat, s4xx: nat, s5xx: nat)

  const NOTHING := Counters(0, 0, 0, 0, 0, 0)
  const NO_GAUGES := Gauges(0.0, 0.0, 0.0, 0.0, 0.0, 0.0)
  const BLANK := Sample(0, NO_GAUGES, 0, 0, 0, 0, 0, 0, 0, 0, 0, 0)

  datatype State = State(ring: Ring<Sample>, prev: Counters, prevCollect: nat, prevHistory: nat, rps: nat, resps: nat)

  // ----- arithmetic of one sample

  const WORD: nat := 0x1_0000_0000_0000_0000

  /** Unsigned 64-bit difference of two clock readings. */
  function Since(now: nat, before: nat): int {
    (now - before) % WORD
  }

  predicate Due(now: nat, prevHistory: nat, resolution: nat) {
    prevHistory == 0 || Since(now, prevHistory) >= resolution
  }

  function Delta(now: nat, prev: nat): nat {
    if now >= prev then now - prev else 0
  }

  function Interval(now: nat, prevCollect: nat, refresh: nat): (dt: nat)
    ensures dt >= 1
  {
    var dt := if prevCollect == 0 || now <= prevCollect then refresh else now - prevCollect;
    if dt == 0 then 1 else dt
  }

  function Rate(now: nat, prev: nat, scale: nat, dt: nat): nat
    requires dt >= 1
  {
    Delta(now, prev) * scale / dt
  }

  function Rates(now: Counters, prev: Counters, dt: nat): Counters
    requires dt >= 1
  {
    Counters(Rate(now.req, prev.req, 1000000, dt), Rate(now.resp, prev.resp, 1000000, dt),
             Rate(now.netRx, prev.netRx, 1000, dt), Rate(now.netTx, prev.netTx, 1000, dt),
             Rate(now.diskRead, prev.diskRead, 1000, dt), Rate(now.diskWrite, prev.diskWrite, 1000, dt))
  }

  /** The rate is the scaled difference by the interval, rounded down. */
  ghost predicate IsFloor(rate: nat, delta: nat, scale: nat, dt: nat) {
    rate * dt <= delta * scale < (rate + 1) * dt
  }

  lemma {:induction false} RateIsFloor(now: nat, prev: nat, scale: nat, dt: nat)
    requires dt >= 1
    ensures IsFloor(Rate(now, prev, scale, dt), Delta(now, prev), scale, dt)
  {
    var total := Delta(now, prev) * scale;
    assert total == (total / dt) * dt + total % dt;
    assert (total / dt + 1) * dt == (total / dt) * dt + dt;
  }

  /** An average restarted from the rate, or moved to seven parts of itself and three of the rate, rounded down. */
  ghost predicate Averaged(restart: bool, before: nat, rate: nat, after: nat) {
    if restart then after == rate else 10 * after <= 7 * before + 3 * rate < 10 * after + 10
  }

  function Thousandths(n: nat): real { n as real / 1000.0 }

  /** The used share of a total in percent, from an unsigned difference. */
  function UsedPercent(total: nat, free: nat): real {
    if total > 0 then ((total - free) % WORD) as real * 100.0 / total as real else 0.0
  }

  /** The difference of two 64-bit readings, which wraps if the second is larger. */
  function Left(total: nat, free: nat): int {
    if free <= total then total - free else WORD + total - free
  }

  /** The share of a reading in percent, exactly; 0 without a total. */
  ghost predicate Shares(percent: real, total: nat, free: nat) {
    if total == 0 then percent == 0.0
    else total < WORD && free < WORD ==> percent * total as real == Left(total, free) as real * 100.0
  }

  lemma {:induction false} PercentShares(total: nat, free: nat)
    ensures Shares(UsedPercent(total, free), total, free)
  {
    if 0 < total < WORD && free < WORD {
      assert (total - free) % WORD == Left(total, free);
      QuotientTimes(Left(total, free) as real * 100.0, total as real);
    }
  }

  lemma {:induction false} QuotientTimes(x: real, t: real)
    requires t > 0.0
    ensures (x / t) * t == x
  {
  }

  /** With consistent readings the share is exact and between 0 and 100. */
  lemma {:induction false} UsedPercentIsShare(total: nat, free: nat)
    requires 0 < total < WORD && free <= total
    ensures UsedPercent(total, free) * total as real == (total - free) as real * 100.0
    ensures 0.0 <= UsedPercent(total, free) <= 100.0
  {
    var t, used := total as real, (total - free) as real;
    assert (total - free) % WORD == total - free;
    ShareBounds(used, t);
  }

  lemma {:induction false} ShareBounds(used: real, t: real)
    requires 0.0 <= used <= t && t > 0.0
    ensures (used * 100.0 / t) * t == used * 100.0
    ensures 0.0 <= used * 100.0 / t <= 100.0
  {
    var share := used * 100.0 / t;
    assert share * t == used * 100.0;
    assert share < 0.0 ==> share * t < 0.0;
    assert share > 100.0 ==> share * t > 100.0 * t;
  }

  function GaugesOf(y: System): Gauges {
    Gauges(Thousandths(y.usage), Thousandths(y.load1), Thousandths(y.load5), Thousandths(y.load15),
           UsedPercent(y.memTotal, y.memAvailable), UsedPercent(y.swapTotal, y.swapFree))
  }

  function SampleOf(st: State, p: Pass): Sample {
    var rates := Rates(p.counters, st.prev, Interval(p.now, st.prevCollect, p.refresh));
    var (rps, resps) := Ewma.StepPair(st.rps, st.resps, rates.req, rates.resp);
    Sample(p.now, GaugesOf(p.system), rps, resps, rates.netRx, rates.netTx, rates.diskRead, rates.diskWrite,
           p.p95, p.counters.req, p.s4xx, p.s5xx)
  }

  function Collect(st: State, p: Pass): State
    requires |st.ring.slots| == HISTORY_MAX
  {
    if !Due(p.now, st.prevHistory, p.resolution) then st else
    var sample := SampleOf(st, p);
    State(Append(st.ring, sample), p.counters, p.now, p.now, sample.rps, sample.resps)
  }

  // ----- the shared history, updated in place

  class History {
    var slots: array<Sample>
    var write: nat
    var count: nat
    var capacity: nat
    var prev: Counters
    var prevCollect: nat
    var prevHistory: nat
    var ewmaRps: nat
    var ewmaResp: nat

    ghost function Now(): State
      reads this, slots
    {
      State(Ring(slots[..], write, count, capacity), prev, prevCollect, prevHistory, ewmaRps, ewmaResp)
    }

    ghost predicate Ready()
      reads this, slots
    {
      Valid(Now().ring)
    }

    constructor (history: nat, resolution: nat)
      ensures Ready() && fresh(slots)
      ensures Now() == State(Fresh(BLANK, CapacityFor(history, resolution)), NOTHING, 0, 0, 0, 0)
      ensures 1 <= capacity <= HISTORY_MAX && Covers(history, resolution, capacity)
    {
      slots := new Sample[HISTORY_MAX](i => BLANK);
      write, count, capacity := 0, 0, CapacityFor(history, resolution);
      prev, prevCollect, prevHistory, ewmaRps, ewmaResp := NOTHING, 0, 0, 0, 0;
      new;
      assert slots[..] == seq(HISTORY_MAX, i => BLANK);
      CapacityCovers(history, resolution, capacity);
    }

    /** A configuration reload that finds the zone already there. */
    method Reconfigure(history: nat, resolution: nat)
      requires Ready()
      modifies this`capacity, this`count
      ensures Ready() && slots == old(slots)
      ensures Now() == old(Now()).(ring := Reload(old(Now()).ring, CapacityFor(history, resolution)))
      ensures 1 <= capacity <= HISTORY_MAX && Covers(history, resolution, capacity)
    {
      capacity := history / (if resolution > 1 then resolution else 1);
      if capacity == 0 {
        capacity := 1;
      }
      if capacity > HISTORY_MAX {
        capacity := HISTORY_MAX;
      }
      if count > capacity {
        count := capacity;
      }
      CapacityCovers(history, resolution, capacity);
    }

    /** Claims the next position, fills its slot and counts it while the ring is not full. */
    method Push(sample: Sample)
      requires Ready()
      modifies this`write, this`count, slots
      ensures Ready() && Now() == old(Now()).(ring := Append(old(Now()).ring, sample))
    {
      var modulus := capacity;
      if modulus == 0 || modulus > HISTORY_MAX {
        modulus := HISTORY_MAX;
      }
      var pos := write % modulus;
      SlotIsRemainder(write, modulus);
      write := write + 1;
      slots[pos] := sample;
      if count < modulus {
        count := count + 1;
      }
    }

    method UpdateAverages(rpsRate: nat, respRate: nat)
      modifies this`ewmaRps, this`ewmaResp
      ensures (ewmaRps, ewmaResp) == Ewma.StepPair(old(ewmaRps), old(ewmaResp), rpsRate, respRate)
      ensures Averaged(old(ewmaRps) == 0, old(ewmaRps), rpsRate, ewmaRps)
      ensures Averaged(old(ewmaRps) == 0, old(ewmaResp), respRate, ewmaResp)
    {
      if ewmaRps == 0 {
        ewmaRps := rpsRate;
        ewmaResp := respRate;
      } else {
        ewmaRps := (ewmaRps * 7 + rpsRate * 3) / 10;
        ewmaResp := (ewmaResp * 7 + respRate * 3) / 10;
      }
    }

    static method ReadGauges(y: System) returns (g: Gauges)
      ensures g == GaugesOf(y)
    {
      var memory, swap := 0.0, 0.0;
      if y.memTotal > 0 {
        memory := ((y.memTotal - y.memAvailable) % WORD) as real * 100.0 / y.memTotal as real;
      }
      if y.swapTotal > 0 {
        swap := ((y.swapTotal - y.swapFree) % WORD) as real * 100.0 / y.swapTotal as real;
      }
      g := Gauges(Thousandths(y.usage), Thousandths(y.load1), Thousandths(y.load5), Thousandths(y.load15), memory, swap);
    }

    /** The rates and averages of a sample that is due, and its gauges. */
    method NewSample(p: Pass) returns (sample: Sample)
      modifies this`ewmaRps, this`ewmaResp
      ensures sample == SampleOf(old(Now()), p) && ewmaRps == sample.rps && ewmaResp == sample.resps
    {
      var dt := if prevCollect == 0 || p.now <= prevCollect then p.refresh else p.now - prevCollect;
      if dt == 0 {
        dt := 1;
      }
      var rates := Rates(p.counters, prev, dt);
      UpdateAverages(rates.req, rates.resp);
      var gauges := ReadGauges(p.system);
      sample := Sample(p.now, gauges, ewmaRps, ewmaResp, rates.netRx, rates.netTx, rates.diskRead, rates.diskWrite,
                       p.p95, p.counters.req, p.s4xx, p.s5xx);
    }

    method CollectHistory(p: Pass)
      requires Ready()
      modifies this, slots
      ensures Ready() && slots == old(slots)
      ensures Now() == Collect(old(Now()), p)
    {
      if prevHistory != 0 && Since(p.now, prevHistory) < p.resolution {
        return;
      }
      var sample := NewSample(p);
      Push(sample);
      prev, prevCollect, prevHistory := p.counters, p.now, p.now;
    }

    /** The samples an API request emits, in order. */
    method ReadHistory() returns (out: seq<Sample>)
      requires Ready()
      ensures out == Read(Now().ring)
    {
      var shown := if count < HISTORY_MAX then count else HISTORY_MAX;
      var modulus := if capacity < HISTORY_MAX then capacity else HISTORY_MAX;
      out := [];
      if modulus == 0 {
        return;
      }
      for i := 0 to shown
        invariant out == Read(Now().ring)[..i]
      {
        ghost var shape := Read(Now().ring);
        assert shape[..i + 1] == shape[..i] + [shape[i]];
        var idx := (write + modulus - shown + i) % modulus;
        SlotIsRemainder(write + modulus - shown + i, modulus);
        assert shape[i] == slots[idx];
        out := out + [slots[idx]];
      }
    }
  }

  // ----- whole runs

  datatype Input = Collected(pass: Pass) | Reconfigured(history: nat, resolution: nat)

  /** A sample that was taken: the pass, and the counter differences, the interval and the rates behind it. */
  datatype Taken = Taken(pass: Pass, sample: Sample, deltas: Counters, dt: nat, rates: Counters)

  function Deltas(now: Counters, prev: Counters): Counters {
    Counters(Delta(now.req, prev.req), Delta(now.resp, prev.resp), Delta(now.netRx, prev.netRx),
             Delta(now.netTx, prev.netTx), Delta(now.diskRead, prev.diskRead), Delta(now.diskWrite, prev.diskWrite))
  }

  function TakenBy(st: State, p: Pass): Taken {
    var dt := Interval(p.now, st.prevCollect, p.refresh);
    Taken(p, SampleOf(st, p), Deltas(p.counters, st.prev), dt, Rates(p.counters, st.prev, dt))
  }

  function Start(capacity: nat): State {
    State(Fresh(BLANK, capacity), NOTHING, 0, 0, 0, 0)
  }

  function RunInputs(capacity: nat, inputs: seq<Input>): (st: State)
    requires 1 <= capacity <= HISTORY_MAX
    ensures Valid(st.ring)
  {
    if inputs == [] then Start(capacity) else
    var st := RunInputs(capacity, inputs[..|inputs| - 1]);
    match inputs[|inputs| - 1]
    case Collected(p) => Collect(st, p)
    case Reconfigured(history, resolution) => st.(ring := Reload(st.ring, CapacityFor(history, resolution)))
  }

  /** The samples taken over a run, oldest first. */
  function Log(capacity: nat, inputs: seq<Input>): seq<Taken>
    requires 1 <= capacity <= HISTORY_MAX
  {
    if inputs == [] then [] else
    var before := inputs[..|inputs| - 1];
    var st := RunInputs(capacity, before);
    match inputs[|inputs| - 1]
    case Collected(p) =>
      if Due(p.now, st.prevHistory, p.resolution) then Log(capacity, before) + [TakenBy(st, p)] else Log(capacity, before)
    case Reconfigured(_, _) => Log(capacity, before)
  }

  /** The ring events of a run: one append for each sample taken, one reload for each reconfiguration. */
  function Events(capacity: nat, inputs: seq<Input>): seq<Event<Sample>>
    requires 1 <= capacity <= HISTORY_MAX
  {
    if inputs == [] then [] else
    var before := inputs[..|inputs| - 1];
    var st := RunInputs(capacity, before);
    match inputs[|inputs| - 1]
    case Collected(p) =>
      if Due(p.now, st.prevHistory, p.resolution) then Events(capacity, before) + [Appended(SampleOf(st, p))]
      else Events(capacity, before)
    case Reconfigured(history, resolution) => Events(capacity, before) + [Reloaded(history, resolution)]
  }

  lemma {:induction false} RingFollowsEvents(capacity: nat, inputs: seq<Input>)
    requires 1 <= capacity <= HISTORY_MAX
    ensures RunInputs(capacity, inputs).ring == Run(Fresh(BLANK, capacity), Events(capacity, inputs))
  {
    if inputs != [] {
      RingFollowsEvents(capacity, inputs[..|inputs| - 1]);
      var events := Events(capacity, inputs);
      if events != Events(capacity, inputs[..|inputs| - 1]) {
        assert events[..|events| - 1] == Events(capacity, inputs[..|inputs| - 1]);
      }
    }
  }

  /** The samples taken since the last reload. */
  function Recent(capacity: nat, inputs: seq<Input>): seq<Sample>
    requires 1 <= capacity <= HISTORY_MAX
  {
    SinceReload(Events(capacity, inputs))
  }

  /** What an API request reads after a run ends with the samples taken since the last reload. */
  lemma {:induction false} ReaderShowsSamplesTaken(capacity: nat, inputs: seq<Input>)
    requires 1 <= capacity <= HISTORY_MAX
    ensures var r := RunInputs(capacity, inputs).ring;
            var recent := Recent(capacity, inputs);
            var m := Min(|recent|, r.capacity);
            m <= |Read(r)| && Last(Read(r), m) == Last(recent, m)
  {
    RingFollowsEvents(capacity, inputs);
    SelfStabilising(Fresh(BLANK, capacity), Events(capacity, inputs));
  }

  /** Clock and request counter of the last pass, zero before the first. */
  function LastSeen(inputs: seq<Input>): (nat, nat) {
    if inputs == [] then (0, 0) else
    match inputs[|inputs| - 1]
    case Collected(p) => (p.now, p.counters.req)
    case Reconfigured(_, _) => LastSeen(inputs[..|inputs| - 1])
  }

  /** The clock is positive and, like the request counter, never goes back from one pass to the next. */
  predicate Steady(inputs: seq<Input>) {
    inputs == [] || (
      var before := inputs[..|inputs| - 1];
      && Steady(before)
      && match inputs[|inputs| - 1]
         case Collected(p) => 0 < p.now < WORD && LastSeen(before).0 <= p.now && LastSeen(before).1 <= p.counters.req
         case Reconfigured(_, _) => true)
  }

  /** Consecutive samples are a resolution apart, and the rate of each covers exactly the time between them. */
  ghost predicate Spaced(log: seq<Taken>) {
    forall k :: 1 <= k < |log| ==>
      && log[k].pass.now - log[k - 1].pass.now >= log[k].pass.resolution
      && (log[k].pass.resolution > 0 ==> log[k].dt == log[k].pass.now - log[k - 1].pass.now)
      && log[k].deltas.req == log[k].pass.counters.req - log[k - 1].pass.counters.req
  }

  function ReqDelta(t: Taken): nat { t.deltas.req }

  /** The state remembers the time and the request total of the last sample, and nothing newer was seen. */
  ghost predicate Remembers(st: State, log: seq<Taken>) {
    && st.prevCollect == st.prevHistory
    && (if log == [] then st.prevHistory == 0 && st.prev.req == 0
        else 0 < st.prevHistory == log[|log| - 1].pass.now && st.prev.req == log[|log| - 1].pass.counters.req)
    && Spaced(log)
    && SumOf(log, ReqDelta) == st.prev.req
  }

  lemma {:induction false} SpacedAppend(log: seq<Taken>, t: Taken)
    requires Spaced(log)
    requires log != [] ==>
      var last := log[|log| - 1];
      && t.pass.now - last.pass.now >= t.pass.resolution
      && (t.pass.resolution > 0 ==> t.dt == t.pass.now - last.pass.now)
      && t.deltas.req == t.pass.counters.req - last.pass.counters.req
    ensures Spaced(log + [t])
  {
  }

  /** The age test is the distance when the clock did not go back, and the wrapped distance when it did. */
  lemma {:induction false} DueMeansApart(now: nat, before: nat, resolution: nat)
    requires 0 < before < WORD && now < WORD
    ensures before <= now ==> (Due(now, before, resolution) <==> now - before >= resolution)
    ensures now < before ==> (Due(now, before, resolution) <==> WORD - (before - now) >= resolution)
  {
  }

  lemma {:induction false} SampleKeepsSpacing(st: State, log: seq<Taken>, p: Pass)
    requires Remembers(st, log) && |st.ring.slots| == HISTORY_MAX
    requires 0 < p.now < WORD && st.prevHistory <= p.now && st.prev.req <= p.counters.req
    requires Due(p.now, st.prevHistory, p.resolution)
    ensures Remembers(Collect(st, p), log + [TakenBy(st, p)])
  {
    var t := TakenBy(st, p);
    SumAppend(log, ReqDelta, t);
    if log != [] {
      DueMeansApart(p.now, st.prevHistory, p.resolution);
    }
    SpacedAppend(log, t);
  }

  /**
   Over any run with a steady clock and counters, samples keep their distance,
   the deltas telescope to the request total of the last sample, and both time
   stamps of the state are the time of that sample.
   */
  lemma {:induction false} SamplesSpacedAndTelescoping(capacity: nat, inputs: seq<Input>)
    requires 1 <= capacity <= HISTORY_MAX && Steady(inputs)
    ensures Remembers(RunInputs(capacity, inputs), Log(capacity, inputs))
    ensures RunInputs(capacity, inputs).prevHistory <= LastSeen(inputs).0
    ensures RunInputs(capacity, inputs).prev.req <= LastSeen(inputs).1
  {
    if inputs != [] {
      var before := inputs[..|inputs| - 1];
      SamplesSpacedAndTelescoping(capacity, before);
      var st := RunInputs(capacity, before);
      match inputs[|inputs| - 1]
      case Collected(p) =>
        if Due(p.now, st.prevHistory, p.resolution) {
          SampleKeepsSpacing(st, Log(capacity, before), p);
        }
      case Reconfigured(_, _) =>
    }
  }

  ghost predicate AllFloors(t: Taken) {
    && t.dt >= 1
    && IsFloor(t.rates.req, t.deltas.req, 1000000, t.dt) && IsFloor(t.rates.resp, t.deltas.resp, 1000000, t.dt)
    && IsFloor(t.rates.netRx, t.deltas.netRx, 1000, t.dt) && IsFloor(t.rates.netTx, t.deltas.netTx, 1000, t.dt)
    && IsFloor(t.rates.diskRead, t.deltas.diskRead, 1000, t.dt) && IsFloor(t.rates.diskWrite, t.deltas.diskWrite, 1000, t.dt)
  }

  lemma {:induction false} TakenIsFloor(st: State, p: Pass)
    ensures AllFloors(TakenBy(st, p))
  {
    var now, prev, dt := p.counters, st.prev, Interval(p.now, st.prevCollect, p.refresh);
    RateIsFloor(now.req, prev.req, 1000000, dt);
    RateIsFloor(now.resp, prev.resp, 1000000, dt);
    RateIsFloor(now.netRx, prev.netRx, 1000, dt);
    RateIsFloor(now.netTx, prev.netTx, 1000, dt);
    RateIsFloor(now.diskRead, prev.diskRead, 1000, dt);
    RateIsFloor(now.diskWrite, prev.diskWrite, 1000, dt);
  }

  /** All six rates behind every sample have a positive divisor and are the exact quotients rounded down. */
  lemma {:induction false} EveryRateIsFloor(capacity: nat, inputs: seq<Input>, k: nat)
    requires 1 <= capacity <= HISTORY_MAX && k < |Log(capacity, inputs)|
    ensures AllFloors(Log(capacity, inputs)[k])
  {
    var before := inputs[..|inputs| - 1];
    if k < |Log(capacity, before)| {
      EveryRateIsFloor(capacity, before, k);
    } else {
      TakenIsFloor(RunInputs(capacity, before), inputs[|inputs| - 1].pass);
    }
  }

  // ----- what each sample holds

  /** The readings of a pass, each under its own name. */
  ghost predicate Reads(s: Sample, p: Pass) {
    && s.at == p.now && s.p95 == p.p95 && s.requests == p.counters.req && s.s4xx == p.s4xx && s.s5xx == p.s5xx
    && s.gauges.cpu * 1000.0 == p.system.usage as real
    && s.gauges.load1 * 1000.0 == p.system.load1 as real
    && s.gauges.load5 * 1000.0 == p.system.load5 as real
    && s.gauges.load15 * 1000.0 == p.system.load15 as real
    && Shares(s.gauges.memory, p.system.memTotal, p.system.memAvailable)
    && Shares(s.gauges.swap, p.system.swapTotal, p.system.swapFree)
  }

  /** What a counter grew by; one that went back counts as not grown. */
  ghost predicate Grew(delta: nat, now: nat, before: nat) {
    delta == if now > before then now - before else 0
  }

  ghost predicate AllGrew(d: Counters, now: Counters, before: Counters) {
    && Grew(d.req, now.req, before.req) && Grew(d.resp, now.resp, before.resp)
    && Grew(d.netRx, now.netRx, before.netRx) && Grew(d.netTx, now.netTx, before.netTx)
    && Grew(d.diskRead, now.diskRead, before.diskRead) && Grew(d.diskWrite, now.diskWrite, before.diskWrite)
  }

  /** The interval to the sample before: the clock's difference if it went on, else the configured one, at least 1. */
  ghost predicate IsInterval(dt: nat, now: nat, before: nat, refresh: nat) {
    if before > 0 && now > before then dt == now - before
    else if refresh > 0 then dt == refresh else dt == 1
  }

  /** A sample follows from its pass and from the counters, the time and the averages of the sample before. */
  ghost predicate Explained(t: Taken, counters: Counters, at: nat, rps: nat, resps: nat) {
    && Reads(t.sample, t.pass)
    && AllGrew(t.deltas, t.pass.counters, counters)
    && IsInterval(t.dt, t.pass.now, at, t.pass.refresh)
    && AllFloors(t)
    && t.sample.netRx == t.rates.netRx && t.sample.netTx == t.rates.netTx
    && t.sample.diskRead == t.rates.diskRead && t.sample.diskWrite == t.rates.diskWrite
    && Averaged(rps == 0, rps, t.rates.req, t.sample.rps)
    && Averaged(rps == 0, resps, t.rates.resp, t.sample.resps)
  }

  lemma {:induction false} TakenIsExplained(st: State, p: Pass)
    ensures Explained(TakenBy(st, p), st.prev, st.prevCollect, st.rps, st.resps)
  {
    TakenIsFloor(st, p);
    PercentShares(p.system.memTotal, p.system.memAvailable);
    PercentShares(p.system.swapTotal, p.system.swapFree);
  }

  /** The state carries counters, time and averages from the last sample to the next. */
  ghost predicate Carries(st: State, log: seq<Taken>) {
    if log == [] then st.prev == NOTHING && st.prevCollect == 0 && st.rps == 0 && st.resps == 0
    else var last := log[|log| - 1];
      && st.prev == last.pass.counters && st.prevCollect == last.pass.now
      && st.rps == last.sample.rps && st.resps == last.sample.resps
  }

  lemma {:induction false} RunCarries(capacity: nat, inputs: seq<Input>)
    requires 1 <= capacity <= HISTORY_MAX
    ensures Carries(RunInputs(capacity, inputs), Log(capacity, inputs))
  {
    if inputs != [] {
      RunCarries(capacity, inputs[..|inputs| - 1]);
    }
  }

  /**
   Every sample of every run follows from its own pass and from the sample
   before it; the first one from counters and averages of zero.
   */
  lemma {:induction false} EverySampleIsExplained(capacity: nat, inputs: seq<Input>, k: nat)
    requires 1 <= capacity <= HISTORY_MAX && k < |Log(capacity, inputs)|
    ensures var log := Log(capacity, inputs);
            if k == 0 then Explained(log[0], NOTHING, 0, 0, 0)
            else var before := log[k - 1];
              Explained(log[k], before.pass.counters, before.pass.now, before.sample.rps, before.sample.resps)
  {
    var before := inputs[..|inputs| - 1];
    if k < |Log(capacity, before)| {
      EverySampleIsExplained(capacity, before, k);
    } else {
      RunCarries(capacity, before);
      TakenIsExplained(RunInputs(capacity, before), inputs[|inputs| - 1].pass);
    }
  }

  /** With a steady clock a pass takes a sample exactly if it is the first or a resolution after the last one. */
  lemma {:induction false} TakenExactlyWhenDue(capacity: nat, inputs: seq<Input>, p: Pass)
    requires 1 <= capacity <= HISTORY_MAX && Steady(inputs + [Collected(p)])
    ensures var log := Log(capacity, inputs);
            Log(capacity, inputs + [Collected(p)]) ==
            if log == [] || p.now - log[|log| - 1].pass.now >= p.resolution
            then log + [TakenBy(RunInputs(capacity, inputs), p)] else log
  {
    assert (inputs + [Collected(p)])[..|inputs|] == inputs;
    SamplesSpacedAndTelescoping(capacity, inputs);
    var st := RunInputs(capacity, inputs);
    if Log(capacity, inputs) != [] {
      DueMeansApart(p.now, st.prevHistory, p.resolution);
    }
  }

  // ----- how far back the ring reaches

  lemma {:induction false} RecentNext(capacity: nat, inputs: seq<Input>)
    requires 1 <= capacity <= HISTORY_MAX && inputs != []
    ensures var before, last := inputs[..|inputs| - 1], inputs[|inputs| - 1];
            var st := RunInputs(capacity, before);
            Recent(capacity, inputs) ==
            if last.Reconfigured? then []
            else if Due(last.pass.now, st.prevHistory, last.pass.resolution)
            then Recent(capacity, before) + [SampleOf(st, last.pass)] else Recent(capacity, before)
  {
    var before, events := Events(capacity, inputs[..|inputs| - 1]), Events(capacity, inputs);
    if events != before {
      assert events[..|events| - 1] == before;
    }
  }

  /** One list is the end of another. */
  ghost predicate EndsLog(recent: seq<Sample>, log: seq<Taken>) {
    |recent| <= |log| && forall i :: 0 <= i < |recent| ==> recent[i] == log[|log| - |recent| + i].sample
  }

  lemma {:induction false} EndGrows(recent: seq<Sample>, log: seq<Taken>, t: Taken)
    requires EndsLog(recent, log)
    ensures EndsLog(recent + [t.sample], log + [t])
  {
  }

  lemma {:induction false} RecentIsLogged(capacity: nat, inputs: seq<Input>)
    requires 1 <= capacity <= HISTORY_MAX
    ensures EndsLog(Recent(capacity, inputs), Log(capacity, inputs))
  {
    if inputs != [] {
      var before, last := inputs[..|inputs| - 1], inputs[|inputs| - 1];
      RecentIsLogged(capacity, before);
      RecentNext(capacity, inputs);
      if last.Collected? {
        EndGrows(Recent(capacity, before), Log(capacity, before), TakenBy(RunInputs(capacity, before), last.pass));
      }
    }
  }

  /** No pass asked for less than this resolution. */
  ghost predicate AtLeastApart(log: seq<Taken>, r: nat) {
    forall k :: 0 <= k < |log| ==> log[k].pass.resolution >= r && log[k].sample.at == log[k].pass.now
  }

  lemma {:induction false} LogSpans(log: seq<Taken>, r: nat, i: nat, j: nat)
    requires Spaced(log) && AtLeastApart(log, r) && i <= j < |log|
    ensures log[j].sample.at - log[i].sample.at >= (j - i) * r
    decreases j
  {
    if i < j {
      LogSpans(log, r, i, j - 1);
      assert (j - i) * r == (j - 1 - i) * r + r;
    }
  }

  /** No pass of the run asks for less than this resolution. */
  ghost predicate Resolved(inputs: seq<Input>, r: nat) {
    forall i :: 0 <= i < |inputs| && inputs[i].Collected? ==> inputs[i].pass.resolution >= r
  }

  lemma {:induction false} LogApart(capacity: nat, inputs: seq<Input>, r: nat)
    requires 1 <= capacity <= HISTORY_MAX && Resolved(inputs, r)
    ensures AtLeastApart(Log(capacity, inputs), r)
  {
    if inputs != [] {
      LogApart(capacity, inputs[..|inputs| - 1], r);
    }
  }

  /** At least a resolution between samples, and a ring sized for a retention shows it up to two resolutions. */
  ghost predicate ReachesBack(shown: seq<Sample>, history: nat, r: nat) {
    && shown != []
    && var span := shown[|shown| - 1].at - shown[0].at;
       span >= (|shown| - 1) * r
       && (Covers(history, r, |shown|) && |shown| < HISTORY_MAX ==> span + 2 * r > history)
  }

  lemma {:induction false} EndReachesBack(log: seq<Taken>, recent: seq<Sample>, c: nat, history: nat, r: nat)
    requires Spaced(log) && AtLeastApart(log, r) && EndsLog(recent, log) && 0 < c <= |recent| && r > 0
    ensures ReachesBack(Last(recent, c), history, r)
  {
    LogSpans(log, r, |log| - c, |log| - 1);
    var shown := Last(recent, c);
    assert shown[0] == recent[|recent| - c] && shown[c - 1] == recent[|recent| - 1];
    assert (c + 1) * r == (c - 1) * r + 2 * r;
  }

  lemma {:induction false} RecentReachesBack(capacity: nat, inputs: seq<Input>, c: nat, history: nat, r: nat)
    requires 1 <= capacity <= HISTORY_MAX && Steady(inputs) && r > 0 && Resolved(inputs, r)
    requires 0 < c <= |Recent(capacity, inputs)|
    ensures ReachesBack(Last(Recent(capacity, inputs), c), history, r)
  {
    RecentIsLogged(capacity, inputs);
    LogApart(capacity, inputs, r);
    SamplesSpacedAndTelescoping(capacity, inputs);
    EndReachesBack(Log(capacity, inputs), Recent(capacity, inputs), c, history, r);
  }

  /**
   A ring filled since the last reload reaches back over the retention it was
   sized for, up to two resolutions, unless it is as long as rings get.
   */
  lemma {:induction false} FullRingReachesBack(capacity: nat, inputs: seq<Input>, history: nat, r: nat)
    requires 1 <= capacity <= HISTORY_MAX && Steady(inputs) && r > 0 && Resolved(inputs, r)
    requires RunInputs(capacity, inputs).ring.capacity <= |Recent(capacity, inputs)|
    ensures var ring := RunInputs(capacity, inputs).ring;
            ring.capacity <= |Read(ring)| && ReachesBack(Last(Read(ring), ring.capacity), history, r)
  {
    ReaderShowsSamplesTaken(capacity, inputs);
    RecentReachesBack(capacity, inputs, RunInputs(capacity, inputs).ring.capacity, history, r);
  }
}
