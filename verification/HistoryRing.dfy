/**
 The history ring of the shared zone: one collector appends samples at
 `write % capacity`, configuration reloads change `capacity` without moving a
 sample, and the API reads the ring back, oldest sample first.
 */
module HistoryRing {
  import opened Common

  const HISTORY_MAX: nat := 3600

  datatype Ring<T> = Ring(slots: seq<T>, write: nat, count: nat, capacity: nat)

  /** The count may exceed the capacity: a reload can fall between a collector's test and its increment. */
  ghost predicate Valid<T>(r: Ring<T>) {
    && |r.slots| == HISTORY_MAX
    && 1 <= r.capacity <= HISTORY_MAX
    && r.count <= HISTORY_MAX
    && r.count <= r.write
  }

  /** Ring length for a retention time and a sampling resolution, in milliseconds. */
  function CapacityFor(history: nat, resolution: nat): (c: nat)
    ensures 1 <= c <= HISTORY_MAX
  {
    var wanted := history / (if resolution > 1 then resolution else 1);
    if wanted == 0 then 1 else if wanted > HISTORY_MAX then HISTORY_MAX else wanted
  }

  /**
   A ring of c slots holds no more samples, a resolution apart, than the
   retention has room for, and one slot more would be too many.
   */
  predicate Covers(history: nat, resolution: nat, c: nat) {
    var r := if resolution > 1 then resolution else 1;
    && (c > 1 ==> c * r <= history)
    && (c < HISTORY_MAX ==> history < (c + 1) * r)
  }

  lemma {:induction false} LessTimes(a: nat, b: nat, r: nat)
    requires a < b
    ensures a * r + r <= b * r
  {
    assert b * r == a * r + (b - a) * r;
    assert (b - a) * r == r + (b - a - 1) * r;
  }

  lemma {:induction false} FitsIff(history: nat, r: nat, c: nat)
    requires r > 0
    ensures c * r <= history <==> c <= history / r
  {
    var wanted := history / r;
    assert history == wanted * r + history % r;
    if c < wanted {
      LessTimes(c, wanted, r);
    } else if c > wanted {
      LessTimes(wanted, c, r);
    }
  }

  /** The ring length is the only one in range that covers the retention. */
  lemma {:induction false} CapacityCovers(history: nat, resolution: nat, c: nat)
    requires 1 <= c <= HISTORY_MAX
    ensures Covers(history, resolution, c) <==> c == CapacityFor(history, resolution)
  {
    var r := if resolution > 1 then resolution else 1;
    FitsIff(history, r, c);
    FitsIff(history, r, c + 1);
  }

  function Fresh<T>(blank: T, capacity: nat): (r: Ring<T>)
    ensures 1 <= capacity <= HISTORY_MAX ==> Valid(r)
  {
    Ring(seq(HISTORY_MAX, i => blank), 0, 0, capacity)
  }

  function Reload<T>(r: Ring<T>, capacity: nat): Ring<T> {
    r.(capacity := capacity, count := if r.count > capacity then capacity else r.count)
  }

  /** The modulus a collector uses: the stored capacity, or the whole array if that is out of range. */
  function Modulus(capacity: nat): (m: nat)
    ensures 1 <= m <= HISTORY_MAX
  {
    if capacity == 0 || capacity > HISTORY_MAX then HISTORY_MAX else capacity
  }

  /** The slot of the sample with a given position in the whole history: the position less all full laps. */
  function Slot(position: nat, capacity: nat): (k: nat)
    requires capacity > 0
    ensures k < capacity
    decreases position
  {
    if position < capacity then position else Slot(position - capacity, capacity)
  }

  function Append<T>(r: Ring<T>, x: T): Ring<T>
    requires |r.slots| == HISTORY_MAX
  {
    var m := Modulus(r.capacity);
    Ring(r.slots[Slot(r.write, m) := x], r.write + 1, if r.count < m then r.count + 1 else r.count, r.capacity)
  }

  function Read<T>(r: Ring<T>): seq<T>
    requires Valid(r)
  {
    seq(r.count, i requires 0 <= i < r.count => r.slots[Slot(r.write + r.capacity - r.count + i, r.capacity)])
  }

  // ----- arithmetic of slot positions

  /** The source computes a slot as a remainder. */
  lemma {:induction false} SlotIsRemainder(position: nat, capacity: nat)
    requires capacity > 0
    ensures Slot(position, capacity) == position % capacity
    decreases position
  {
    if position >= capacity {
      SlotIsRemainder(position - capacity, capacity);
      RemainderLessLap(position, capacity);
    }
  }

  lemma {:induction false} RemainderLessLap(p: nat, c: nat)
    requires 0 < c <= p
    ensures p % c == (p - c) % c
  {
    var laps := p / c - 1 - (p - c) / c;
    assert c * laps == (p - c) % c - p % c;
    assert laps >= 1 ==> c * laps >= c;
    assert laps <= -1 ==> c * laps + c <= 0;
  }

  /** Two positions less than one lap apart use different slots. */
  lemma {:induction false} SlotDistinct(p: nat, q: nat, c: nat)
    requires p < q < p + c
    ensures Slot(p, c) != Slot(q, c)
    decreases q
  {
    if c <= p {
      SlotDistinct(p - c, q - c, c);
    }
  }

  /** Inside a lap, consecutive positions use consecutive slots; the lap ends at slot 0. */
  lemma {:induction false} SlotSteps(first: nat, j: nat, c: nat)
    requires c > 0 && Slot(first, c) + j <= c
    ensures Slot(first + j, c) == if Slot(first, c) + j < c then Slot(first, c) + j else 0
    decreases first
  {
    if c <= first {
      SlotSteps(first - c, j, c);
    }
  }

  /** The reader returns the sample of every position in its window from that position's slot. */
  lemma {:induction false} ReadAt<T>(r: Ring<T>, p: nat)
    requires Valid(r) && r.write - r.count <= p < r.write
    ensures Read(r)[p - (r.write - r.count)] == r.slots[Slot(p, r.capacity)]
  {
    var i := p - (r.write - r.count);
    assert r.write + r.capacity - r.count + i == p + r.capacity;
    assert Slot(p + r.capacity, r.capacity) == Slot(p, r.capacity);
    assert Read(r)[i] == r.slots[Slot(r.write + r.capacity - r.count + i, r.capacity)];
  }

  // ----- runs

  datatype Event<T> = Appended(sample: T) | Reloaded(history: nat, resolution: nat)

  function Run<T>(start: Ring<T>, events: seq<Event<T>>): (r: Ring<T>)
    requires Valid(start)
    ensures Valid(r)
  {
    if events == [] then start else
    var r := Run(start, events[..|events| - 1]);
    match events[|events| - 1]
    case Appended(x) => Append(r, x)
    case Reloaded(history, resolution) => Reload(r, CapacityFor(history, resolution))
  }

  /** The samples appended after the last reload, oldest first. */
  function SinceReload<T>(events: seq<Event<T>>): seq<T> {
    if events == [] then [] else
    match events[|events| - 1]
    case Appended(x) => SinceReload(events[..|events| - 1]) + [x]
    case Reloaded(_, _) => []
  }

  function Last<T>(s: seq<T>, k: nat): seq<T>
    requires k <= |s|
  {
    s[|s| - k..]
  }

  /** The newest min(k, capacity) samples of `recent` sit at the slots their positions name. */
  ghost predicate Holds<T>(r: Ring<T>, recent: seq<T>) {
    && Valid(r)
    && |recent| <= r.write
    && Min(|recent|, r.capacity) <= r.count
    && forall p: nat :: r.write - Min(|recent|, r.capacity) <= p < r.write ==>
         r.slots[Slot(p, r.capacity)] == recent[p - (r.write - |recent|)]
  }

  lemma {:induction false} AppendHolds<T>(r: Ring<T>, recent: seq<T>, x: T)
    requires Holds(r, recent)
    ensures Holds(Append(r, x), recent + [x])
  {
    var r' := Append(r, x);
    var recent' := recent + [x];
    forall p: nat | r'.write - Min(|recent'|, r.capacity) <= p < r'.write
      ensures r'.slots[Slot(p, r.capacity)] == recent'[p - (r'.write - |recent'|)]
    {
      if p < r.write {
        SlotDistinct(p, r.write, r.capacity);
      }
    }
  }

  lemma {:induction false} RunHolds<T>(start: Ring<T>, events: seq<Event<T>>)
    requires Valid(start)
    ensures Holds(Run(start, events), SinceReload(events))
  {
    if events != [] {
      var before := events[..|events| - 1];
      RunHolds(start, before);
      match events[|events| - 1]
      case Appended(x) => AppendHolds(Run(start, before), SinceReload(before), x);
      case Reloaded(_, _) =>
    }
  }

  lemma {:induction false} ReadHoldsAt<T>(r: Ring<T>, recent: seq<T>, m: nat, i: nat)
    requires Holds(r, recent) && m == Min(|recent|, r.capacity) && i < m
    ensures m <= |Read(r)| && Last(Read(r), m)[i] == Last(recent, m)[i]
  {
    var p := r.write - m + i;
    ReadAt(r, p);
    assert p - (r.write - r.count) == r.count - m + i;
    assert p - (r.write - |recent|) == |recent| - m + i;
  }

  lemma {:induction false} ReadHolds<T>(r: Ring<T>, recent: seq<T>)
    requires Holds(r, recent)
    ensures var m := Min(|recent|, r.capacity);
            m <= |Read(r)| && Last(Read(r), m) == Last(recent, m)
  {
    var m := Min(|recent|, r.capacity);
    var x, y := Last(Read(r), m), Last(recent, m);
    forall i | 0 <= i < m
      ensures x[i] == y[i]
    {
      ReadHoldsAt(r, recent, m, i);
    }
    assert x == y;
  }

  /**
   Self-stabilisation: after any run of appends and reloads, from any ring
   whatever its slots and counters hold, the newest min(k, capacity) samples
   read are the newest min(k, capacity) of the k samples appended since the
   last reload, oldest first.
   */
  lemma {:induction false} SelfStabilising<T>(start: Ring<T>, events: seq<Event<T>>)
    requires Valid(start)
    ensures var r := Run(start, events);
            var recent := SinceReload(events);
            var m := Min(|recent|, r.capacity);
            m <= |Read(r)| && Last(Read(r), m) == Last(recent, m)
  {
    RunHolds(start, events);
    ReadHolds(Run(start, events), SinceReload(events));
  }

  lemma {:induction false} FreshCount<T>(blank: T, capacity: nat, events: seq<Event<T>>)
    requires 1 <= capacity <= HISTORY_MAX
    requires forall i :: 0 <= i < |events| ==> events[i].Appended?
    ensures var r := Run(Fresh(blank, capacity), events);
            && r.capacity == capacity && r.write == |events| && r.count == Min(|events|, capacity)
            && |SinceReload(events)| == |events|
    ensures forall i :: 0 <= i < |events| ==> SinceReload(events)[i] == events[i].sample
  {
    if events != [] {
      FreshCount(blank, capacity, events[..|events| - 1]);
    }
  }

  function Appends<T>(samples: seq<T>): (events: seq<Event<T>>)
    ensures |events| == |samples| && forall i :: 0 <= i < |events| ==> events[i] == Appended(samples[i])
  {
    seq(|samples|, i requires 0 <= i < |samples| => Appended(samples[i]))
  }

  lemma {:induction false} FreshHolds<T>(blank: T, capacity: nat, samples: seq<T>)
    requires 1 <= capacity <= HISTORY_MAX
    ensures var r := Run(Fresh(blank, capacity), Appends(samples));
            && Holds(r, samples) && r.capacity == capacity
            && r.write == |samples| && r.count == Min(|samples|, capacity)
  {
    var events := Appends(samples);
    FreshCount(blank, capacity, events);
    RunHolds(Fresh(blank, capacity), events);
    assert SinceReload(events) == samples;
  }

  /** Without a reload, a fresh zone reads back exactly the last min(n, capacity) of all n samples. */
  lemma {:induction false} FreshZoneReadsLast<T>(blank: T, capacity: nat, samples: seq<T>)
    requires 1 <= capacity <= HISTORY_MAX
    ensures Read(Run(Fresh(blank, capacity), Appends(samples))) == Last(samples, Min(|samples|, capacity))
  {
    var r := Run(Fresh(blank, capacity), Appends(samples));
    FreshHolds(blank, capacity, samples);
    ReadHolds(r, samples);
    assert Read(r) == Last(Read(r), r.count);
  }

  // ----- a count above the capacity

  /** With a count above the capacity the reader laps the ring: everything before the last lap repeats it. */
  lemma {:induction false} OverfullReadsRepeat<T>(r: Ring<T>, i: nat)
    requires Valid(r) && i + r.capacity < r.count
    ensures Read(r)[i] == Read(r)[i + r.capacity]
  {
    var p := r.write - r.count + i;
    ReadAt(r, p);
    ReadAt(r, p + r.capacity);
    assert Slot(p + r.capacity, r.capacity) == Slot(p, r.capacity);
  }

  /** Appends leave a count at or above the capacity as it is; only a reload brings it back. */
  lemma {:induction false} AppendsKeepOverfull<T>(start: Ring<T>, events: seq<Event<T>>)
    requires Valid(start) && start.count >= start.capacity
    requires forall i :: 0 <= i < |events| ==> events[i].Appended?
    ensures Run(start, events).count == start.count && Run(start, events).capacity == start.capacity
  {
    if events != [] {
      AppendsKeepOverfull(start, events[..|events| - 1]);
    }
  }

  predicate HasReload<T>(events: seq<Event<T>>) {
    exists i :: 0 <= i < |events| && events[i].Reloaded?
  }

  lemma {:induction false} HasReloadNext<T>(events: seq<Event<T>>)
    requires events != []
    ensures HasReload(events) <==> HasReload(events[..|events| - 1]) || events[|events| - 1].Reloaded?
  {
    var before := events[..|events| - 1];
    if HasReload(before) {
      var i :| 0 <= i < |before| && before[i].Reloaded?;
      assert events[i].Reloaded?;
    }
  }

  /** A run ends with the count within the capacity if and only if it started so or contains a reload. */
  lemma {:induction false} OverfullEndsIff<T>(start: Ring<T>, events: seq<Event<T>>)
    requires Valid(start)
    ensures Run(start, events).count <= Run(start, events).capacity <==>
            start.count <= start.capacity || HasReload(events)
  {
    if events != [] {
      OverfullEndsIff(start, events[..|events| - 1]);
      HasReloadNext(events);
    }
  }

  // ----- what one reload keeps

  /** Neither the old nor the new modulus wraps inside the window, and both start it at the same slot. */
  predicate SameLayout(first: nat, kept: nat, oldCapacity: nat, newCapacity: nat)
    requires oldCapacity > 0 && newCapacity > 0
  {
    || kept == 0
    || oldCapacity == newCapacity
    || (&& Slot(first, oldCapacity) == Slot(first, newCapacity)
        && Slot(first, oldCapacity) + kept <= Min(oldCapacity, newCapacity))
  }

  /** Every position of the window uses the same slot under both capacities. */
  ghost predicate SameSlots(first: nat, kept: nat, oldCapacity: nat, newCapacity: nat)
    requires oldCapacity > 0 && newCapacity > 0
  {
    forall p: nat :: first <= p < first + kept ==> Slot(p, oldCapacity) == Slot(p, newCapacity)
  }

  lemma {:induction false} SameLayoutMeansSameSlots(first: nat, kept: nat, oldCapacity: nat, newCapacity: nat)
    requires 0 < oldCapacity && 0 < newCapacity
    ensures SameLayout(first, kept, oldCapacity, newCapacity) <==> SameSlots(first, kept, oldCapacity, newCapacity)
  {
    var least := Min(oldCapacity, newCapacity);
    if kept == 0 || oldCapacity == newCapacity {
    } else if Slot(first, oldCapacity) != Slot(first, newCapacity) {
      assert !SameSlots(first, kept, oldCapacity, newCapacity);
    } else if Slot(first, oldCapacity) + kept <= least {
      forall p: nat | first <= p < first + kept ensures Slot(p, oldCapacity) == Slot(p, newCapacity) {
        SlotSteps(first, p - first, oldCapacity);
        SlotSteps(first, p - first, newCapacity);
      }
    } else {
      var j := least - Slot(first, oldCapacity);
      SlotSteps(first, j, oldCapacity);
      SlotSteps(first, j, newCapacity);
      assert Slot(first + j, oldCapacity) != Slot(first + j, newCapacity);
    }
  }

  lemma {:induction false} SlotsRead<T>(r: Ring<T>, newCapacity: nat, j: nat)
    requires Valid(r) && 1 <= newCapacity <= HISTORY_MAX && j < Min(r.count, newCapacity)
    ensures var kept := Min(r.count, newCapacity);
            && Read(Reload(r, newCapacity))[j] == r.slots[Slot(r.write - kept + j, newCapacity)]
            && Last(Read(r), kept)[j] == r.slots[Slot(r.write - kept + j, r.capacity)]
  {
    var p := r.write - Min(r.count, newCapacity) + j;
    ReadAt(Reload(r, newCapacity), p);
    ReadAt(r, p);
  }

  ghost predicate KeepsOrder<T>(r: Ring<T>, newCapacity: nat)
    requires Valid(r) && 1 <= newCapacity <= HISTORY_MAX
  {
    Read(Reload(r, newCapacity)) == Last(Read(r), Min(r.count, newCapacity))
  }

  lemma {:induction false} SameSlotsKeepOrder<T>(r: Ring<T>, newCapacity: nat)
    requires Valid(r) && 1 <= newCapacity <= HISTORY_MAX
    requires var kept := Min(r.count, newCapacity); SameSlots(r.write - kept, kept, r.capacity, newCapacity)
    ensures KeepsOrder(r, newCapacity)
  {
    var kept := Min(r.count, newCapacity);
    forall j | 0 <= j < kept
      ensures Read(Reload(r, newCapacity))[j] == Last(Read(r), kept)[j]
    {
      SlotsRead(r, newCapacity, j);
    }
  }

  /** One position whose sample differs between its two slots is enough to lose the order. */
  lemma {:induction false} OtherSampleLosesOrder<T>(r: Ring<T>, newCapacity: nat, j: nat)
    requires Valid(r) && 1 <= newCapacity <= HISTORY_MAX && j < Min(r.count, newCapacity)
    requires var p := r.write - Min(r.count, newCapacity) + j;
             r.slots[Slot(p, r.capacity)] != r.slots[Slot(p, newCapacity)]
    ensures !KeepsOrder(r, newCapacity)
  {
    SlotsRead(r, newCapacity, j);
  }

  /** The counters alone decide: whatever the slots hold, the reload keeps the order. */
  ghost predicate AlwaysKeepsOrder(write: nat, count: nat, oldCapacity: nat, newCapacity: nat)
    requires 1 <= oldCapacity <= HISTORY_MAX && 1 <= newCapacity <= HISTORY_MAX
    requires count <= HISTORY_MAX && count <= write
  {
    forall slots: seq<int> :: |slots| == HISTORY_MAX ==> KeepsOrder(Ring(slots, write, count, oldCapacity), newCapacity)
  }

  lemma {:induction false} SameSlotsAlwaysKeep(write: nat, count: nat, oldCapacity: nat, newCapacity: nat)
    requires 1 <= oldCapacity <= HISTORY_MAX && 1 <= newCapacity <= HISTORY_MAX
    requires count <= HISTORY_MAX && count <= write
    requires var kept := Min(count, newCapacity); SameSlots(write - kept, kept, oldCapacity, newCapacity)
    ensures AlwaysKeepsOrder(write, count, oldCapacity, newCapacity)
  {
    forall slots: seq<int> | |slots| == HISTORY_MAX
      ensures KeepsOrder(Ring(slots, write, count, oldCapacity), newCapacity)
    {
      SameSlotsKeepOrder(Ring(slots, write, count, oldCapacity), newCapacity);
    }
  }

  lemma {:induction false} OtherSlotsCanLose(write: nat, count: nat, oldCapacity: nat, newCapacity: nat)
    requires 1 <= oldCapacity <= HISTORY_MAX && 1 <= newCapacity <= HISTORY_MAX
    requires count <= HISTORY_MAX && count <= write
    requires var kept := Min(count, newCapacity); !SameSlots(write - kept, kept, oldCapacity, newCapacity)
    ensures !AlwaysKeepsOrder(write, count, oldCapacity, newCapacity)
  {
    var slots: seq<int> := seq(HISTORY_MAX, i => i);
    var first := write - Min(count, newCapacity);
    var p: nat :| first <= p < write && Slot(p, oldCapacity) != Slot(p, newCapacity);
    OtherSampleLosesOrder(Ring(slots, write, count, oldCapacity), newCapacity, p - first);
  }

  /**
   A reload keeps the newest samples in order, whatever the slots hold, exactly
   when the kept window has the same layout under both capacities.
   */
  lemma {:induction false} ReloadKeepsOrderIff(write: nat, count: nat, oldCapacity: nat, newCapacity: nat)
    requires 1 <= oldCapacity <= HISTORY_MAX && 1 <= newCapacity <= HISTORY_MAX
    requires count <= HISTORY_MAX && count <= write
    ensures var kept := Min(count, newCapacity);
            SameLayout(write - kept, kept, oldCapacity, newCapacity) <==>
            AlwaysKeepsOrder(write, count, oldCapacity, newCapacity)
  {
    var kept := Min(count, newCapacity);
    SameLayoutMeansSameSlots(write - kept, kept, oldCapacity, newCapacity);
    if SameSlots(write - kept, kept, oldCapacity, newCapacity) {
      SameSlotsAlwaysKeep(write, count, oldCapacity, newCapacity);
    } else {
      OtherSlotsCanLose(write, count, oldCapacity, newCapacity);
    }
  }

  /** A slot of a fresh zone holds the blank or a sample whose position has this slot. */
  lemma {:induction false} SlotHolds<T>(blank: T, capacity: nat, samples: seq<T>, k: nat)
    requires 1 <= capacity <= HISTORY_MAX && k < HISTORY_MAX
    ensures var x := Run(Fresh(blank, capacity), Appends(samples)).slots[k];
            x == blank || exists p :: 0 <= p < |samples| && Slot(p, capacity) == k && x == samples[p]
  {
    if samples != [] {
      var before := samples[..|samples| - 1];
      assert Appends(samples)[..|before|] == Appends(before);
      SlotHolds(blank, capacity, before, k);
      FreshHolds(blank, capacity, before);
      var x := Run(Fresh(blank, capacity), Appends(before)).slots[k];
      if x != blank {
        var p :| 0 <= p < |before| && Slot(p, capacity) == k && x == before[p];
        assert samples[p] == before[p];
      }
    }
  }

  /** Different samples, none of them the blank: every slot tells which position it holds. */
  ghost predicate Telling<T>(blank: T, samples: seq<T>) {
    && blank !in samples
    && forall p, q :: 0 <= p < q < |samples| ==> samples[p] != samples[q]
  }

  lemma {:induction false} OtherSlotOtherSample<T>(blank: T, capacity: nat, samples: seq<T>, p: nat, k: nat)
    requires 1 <= capacity <= HISTORY_MAX && k < HISTORY_MAX && Telling(blank, samples)
    requires p < |samples| && Slot(p, capacity) != k
    ensures Run(Fresh(blank, capacity), Appends(samples)).slots[k] != samples[p]
  {
    SlotHolds(blank, capacity, samples, k);
  }

  lemma {:induction false} TellingSamplesLoseOrder<T>(blank: T, capacity: nat, samples: seq<T>, newCapacity: nat, p: nat)
    requires 1 <= capacity <= HISTORY_MAX && 1 <= newCapacity <= HISTORY_MAX && Telling(blank, samples)
    requires |samples| - Min(Min(|samples|, capacity), newCapacity) <= p < |samples|
    requires Slot(p, capacity) != Slot(p, newCapacity)
    ensures !KeepsOrder(Run(Fresh(blank, capacity), Appends(samples)), newCapacity)
  {
    var r := Run(Fresh(blank, capacity), Appends(samples));
    FreshHolds(blank, capacity, samples);
    assert r.slots[Slot(p, capacity)] == samples[p];
    OtherSlotOtherSample(blank, capacity, samples, p, Slot(p, newCapacity));
    OtherSampleLosesOrder(r, newCapacity, p - (|samples| - Min(r.count, newCapacity)));
  }

  /**
   On runs: after any number of different samples in a fresh zone, a reload
   keeps what is read exactly when the kept window has one layout.
   */
  lemma {:induction false} RunKeepsOrderIff<T>(blank: T, capacity: nat, samples: seq<T>, newCapacity: nat)
    requires 1 <= capacity <= HISTORY_MAX && 1 <= newCapacity <= HISTORY_MAX && Telling(blank, samples)
    ensures var kept := Min(Min(|samples|, capacity), newCapacity);
            KeepsOrder(Run(Fresh(blank, capacity), Appends(samples)), newCapacity) <==>
            SameLayout(|samples| - kept, kept, capacity, newCapacity)
  {
    var kept := Min(Min(|samples|, capacity), newCapacity);
    var first := |samples| - kept;
    SameLayoutMeansSameSlots(first, kept, capacity, newCapacity);
    if SameSlots(first, kept, capacity, newCapacity) {
      FreshHolds(blank, capacity, samples);
      SameSlotsKeepOrder(Run(Fresh(blank, capacity), Appends(samples)), newCapacity);
    } else {
      var p: nat :| first <= p < first + kept && Slot(p, capacity) != Slot(p, newCapacity);
      TellingSamplesLoseOrder(blank, capacity, samples, newCapacity, p);
    }
  }

  /** 25 samples in a ring of 10, then capacity 20: the reader visits slot 15, which was never written. */
  lemma {:induction false} ReloadCanLoseOrder()
    ensures var r := Run(Fresh(0, 10), Appends(seq(25, i => i + 1)));
            && Read(r) == seq(10, i => i + 16)
            && Read(Reload(r, 20))[0] == 0
            && Read(Reload(r, 20)) != Read(r)
  {
    var samples: seq<int> := seq(25, i => i + 1);
    var r := Run(Fresh(0, 10), Appends(samples));
    FreshHolds(0, 10, samples);
    FreshZoneReadsLast(0, 10, samples);
    SlotHolds(0, 10, samples, 15);
    ReadAt(Reload(r, 20), 15);
    assert Read(r)[0] == 16;
  }
}
