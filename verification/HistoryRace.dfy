/**
 The history counters under full interleaving: one collector (elected by the
 collector lock), any number of reloads and any number of readers, each taking
 one shared load or store at a time. A run is any sequence of actions; an
 action whose process is not at that point changes nothing.
 */
module HistoryRace {
  import opened Common
  import opened HistoryRing

  type Positive = n: nat | n > 0 witness 1

  datatype Collector =
    | Resting
    | Loaded(modulus: Positive)
    | Claimed(modulus: Positive, pos: nat)
    | RoomSeen

  datatype Reloader =
    | Waiting
    | Stored(wanted: nat)
    | Clamping(wanted: nat)

  datatype Reader =
    | Away
    | HasCount(count: nat)
    | HasCapacity(count: nat, capacity: Positive)
    | Visiting(count: nat, capacity: Positive, write: nat, i: nat)

  datatype State = State(
    write: nat, count: nat, capacity: nat,
    collector: Collector, reloaders: seq<Reloader>, readers: seq<Reader>)

  datatype Action =
    | Collect
    | StartReload(r: nat, history: nat, resolution: nat)
    | GoOnReload(r: nat)
    | GoOnRead(r: nat)

  function Init(capacity: nat, reloaders: nat, readers: nat): State {
    State(0, 0, capacity, Resting, seq(reloaders, i => Waiting), seq(readers, i => Away))
  }

  function CollectStep(s: State): State {
    match s.collector
    case Resting => s.(collector := Loaded(Modulus(s.capacity)))
    case Loaded(modulus) => s.(write := s.write + 1, collector := Claimed(modulus, Slot(s.write, modulus)))
    case Claimed(modulus, _) => s.(collector := if s.count < modulus then RoomSeen else Resting)
    case RoomSeen => s.(count := s.count + 1, collector := Resting)
  }

  function ReloadStep(s: State, r: nat): State
    requires r < |s.reloaders|
  {
    match s.reloaders[r]
    case Waiting => s
    case Stored(wanted) =>
      s.(reloaders := s.reloaders[r := if s.count > wanted then Clamping(wanted) else Waiting])
    case Clamping(wanted) => s.(count := wanted, reloaders := s.reloaders[r := Waiting])
  }

  function ReadStep(s: State, r: nat): State
    requires r < |s.readers|
  {
    var next := match s.readers[r]
      case Away => HasCount(Min(s.count, HISTORY_MAX))
      case HasCount(count) =>
        if Min(s.capacity, HISTORY_MAX) == 0 then Away else HasCapacity(count, Min(s.capacity, HISTORY_MAX))
      case HasCapacity(count, capacity) => Visiting(count, capacity, s.write, 0)
      case Visiting(count, capacity, write, i) =>
        if i < count then Visiting(count, capacity, write, i + 1) else Away;
    s.(readers := s.readers[r := next])
  }

  function Next(s: State, a: Action): State {
    match a
    case Collect => CollectStep(s)
    case StartReload(r, history, resolution) =>
      if r < |s.reloaders| && s.reloaders[r].Waiting? then
        var wanted := CapacityFor(history, resolution);
        s.(capacity := wanted, reloaders := s.reloaders[r := Stored(wanted)])
      else s
    case GoOnReload(r) => if r < |s.reloaders| then ReloadStep(s, r) else s
    case GoOnRead(r) => if r < |s.readers| then ReadStep(s, r) else s
  }

  function Run(capacity: nat, reloaders: nat, readers: nat, acts: seq<Action>): State {
    if acts == [] then Init(capacity, reloaders, readers)
    else Next(Run(capacity, reloaders, readers, acts[..|acts| - 1]), acts[|acts| - 1])
  }

  /** A position the collector has claimed but not yet counted. */
  function Pending(c: Collector): nat {
    if c.Claimed? || c.RoomSeen? then 1 else 0
  }

  ghost predicate ReaderSafe(r: Reader, write: nat) {
    match r
    case Away => true
    case HasCount(count) => count <= write
    case HasCapacity(count, capacity) => count <= write && capacity <= HISTORY_MAX
    case Visiting(count, capacity, seen, i) => i <= count <= seen && capacity <= HISTORY_MAX
  }

  ghost predicate Inv(s: State) {
    && s.count + Pending(s.collector) <= s.write
    && 1 <= s.capacity <= HISTORY_MAX
    && s.count <= HISTORY_MAX && (s.collector.RoomSeen? ==> s.count < HISTORY_MAX)
    && (s.collector.Loaded? || s.collector.Claimed? ==> s.collector.modulus <= HISTORY_MAX)
    && (s.collector.Claimed? ==> s.collector.pos < HISTORY_MAX)
    && (forall r :: 0 <= r < |s.reloaders| && s.reloaders[r].Clamping? ==>
          s.reloaders[r].wanted + Pending(s.collector) <= s.write && s.reloaders[r].wanted < HISTORY_MAX)
    && (forall r :: 0 <= r < |s.readers| ==> ReaderSafe(s.readers[r], s.write))
  }

  lemma {:induction false} StepKeepsInv(s: State, a: Action)
    requires Inv(s)
    ensures Inv(Next(s, a))
  {
  }

  lemma {:induction false} RunKeepsInv(capacity: nat, reloaders: nat, readers: nat, acts: seq<Action>)
    requires 1 <= capacity <= HISTORY_MAX
    ensures Inv(Run(capacity, reloaders, readers, acts))
  {
    if acts != [] {
      RunKeepsInv(capacity, reloaders, readers, acts[..|acts| - 1]);
      StepKeepsInv(Run(capacity, reloaders, readers, acts[..|acts| - 1]), acts[|acts| - 1]);
    }
  }

  /**
   In every interleaving the sample count never passes the write count, so the
   reader's unsigned `write + capacity - count` cannot wrap, and every slot the
   collector fills or a reader visits lies inside the array.
   */
  lemma {:induction false} AccessesInBounds(capacity: nat, reloaders: nat, readers: nat, acts: seq<Action>)
    requires 1 <= capacity <= HISTORY_MAX
    ensures var s := Run(capacity, reloaders, readers, acts);
            && s.count <= s.write
            && (s.collector.Claimed? ==> s.collector.pos < HISTORY_MAX)
            && forall r :: 0 <= r < |s.readers| && s.readers[r].Visiting? ==>
                 var v := s.readers[r];
                 && v.count <= v.write + v.capacity
                 && Slot(v.write + v.capacity - v.count + v.i, v.capacity) < HISTORY_MAX
  {
    RunKeepsInv(capacity, reloaders, readers, acts);
  }

  /** What a reader has loaded it keeps until it leaves, and it visits one place after the other. */
  ghost predicate KeepsLoads(before: Reader, after: Reader) {
    match before
    case Away => after.Away? || after.HasCount?
    case HasCount(count) => after == before || (after.HasCapacity? && after.count == count)
    case HasCapacity(count, capacity) =>
      after == before || (after.Visiting? && after.count == count && after.capacity == capacity && after.i == 0)
    case Visiting(count, capacity, write, i) =>
      after == before || (if i < count then after == Visiting(count, capacity, write, i + 1) else after.Away?)
  }

  /** Whatever collector, reloads and other readers do, a reader works with one load of each counter. */
  lemma {:induction false} ReadersKeepLoads(capacity: nat, reloaders: nat, readers: nat, acts: seq<Action>, a: Action, r: nat)
    requires 1 <= capacity <= HISTORY_MAX && r < |Run(capacity, reloaders, readers, acts).readers|
    ensures var s, s' := Run(capacity, reloaders, readers, acts), Run(capacity, reloaders, readers, acts + [a]);
            |s'.readers| == |s.readers| && KeepsLoads(s.readers[r], s'.readers[r])
  {
    RunKeepsInv(capacity, reloaders, readers, acts);
    assert (acts + [a])[..|acts|] == acts;
  }

  // ----- the steps against whole operations

  /** The counters of a state, with some contents of the slots, as a ring. */
  function RingOf<T>(s: State, slots: seq<T>): Ring<T> {
    Ring(slots, s.write, s.count, s.capacity)
  }

  /** In every interleaving the counters make a ring the order theorems speak about. */
  lemma {:induction false} RunIsRing<T>(capacity: nat, reloaders: nat, readers: nat, acts: seq<Action>, slots: seq<T>)
    requires 1 <= capacity <= HISTORY_MAX && |slots| == HISTORY_MAX
    ensures Valid(RingOf(Run(capacity, reloaders, readers, acts), slots))
  {
    RunKeepsInv(capacity, reloaders, readers, acts);
  }

  function Collects(s: State, n: nat): State {
    if n == 0 then s else CollectStep(Collects(s, n - 1))
  }

  /** A pass without interruption claims the slot that an append fills, and leaves the counters of the append. */
  lemma {:induction false} PassIsAppend<T>(s: State, slots: seq<T>, x: T)
    requires s.collector.Resting? && Valid(RingOf(s, slots))
    ensures var m, n := Modulus(s.capacity), if s.count < Modulus(s.capacity) then 4 else 3;
            && Collects(s, 2).collector == Claimed(m, Slot(s.write, m))
            && RingOf(Collects(s, n), slots[Slot(s.write, m) := x]) == Append(RingOf(s, slots), x)
            && Collects(s, n).(write := s.write, count := s.count) == s
  {
    var m := Modulus(s.capacity);
    assert Collects(s, 0) == s && Collects(s, 1) == s.(collector := Loaded(m));
    assert Collects(s, 2) == s.(write := s.write + 1, collector := Claimed(m, Slot(s.write, m)));
    assert Collects(s, 3) == s.(write := s.write + 1, collector := if s.count < m then RoomSeen else Resting);
    assert s.count < m ==> Collects(s, 4) == CollectStep(Collects(s, 3));
  }

  /** A reload without interruption is the ring's reload. */
  lemma {:induction false} StepsAreReload<T>(s: State, slots: seq<T>, r: nat, history: nat, resolution: nat)
    requires r < |s.reloaders| && s.reloaders[r].Waiting?
    ensures var s' := Next(Next(Next(s, StartReload(r, history, resolution)), GoOnReload(r)), GoOnReload(r));
            && RingOf(s', slots) == Reload(RingOf(s, slots), CapacityFor(history, resolution))
            && s'.(capacity := s.capacity, count := s.count) == s
  {
    var wanted := CapacityFor(history, resolution);
    assert s.reloaders[r := Stored(wanted)][r := Waiting] == s.reloaders;
    assert s.reloaders[r := Stored(wanted)][r := Clamping(wanted)][r := Waiting] == s.reloaders;
  }

  function Reads(s: State, r: nat, n: nat): State {
    if n == 0 then s else Next(Reads(s, r, n - 1), GoOnRead(r))
  }

  /** Reading moves no counter and no other reader. */
  lemma {:induction false} ReadsOnlyRead(s: State, r: nat, n: nat)
    requires r < |s.readers|
    ensures Reads(s, r, n).(readers := s.readers) == s && |Reads(s, r, n).readers| == |s.readers|
  {
    if n > 0 {
      ReadsOnlyRead(s, r, n - 1);
    }
  }

  /** A reader without interruption visits the slots of the ring's read, one after the other, and leaves. */
  lemma {:induction false} StepsAreRead<T>(s: State, slots: seq<T>, r: nat, i: nat)
    requires Valid(RingOf(s, slots)) && r < |s.readers| && s.readers[r].Away? && i <= s.count
    ensures |Reads(s, r, 3 + i).readers| == |Reads(s, r, 4 + i).readers| == |s.readers|
    ensures Reads(s, r, 3 + i).readers[r] == Visiting(s.count, s.capacity, s.write, i)
    ensures i < s.count ==> Read(RingOf(s, slots))[i] == slots[Slot(s.write + s.capacity - s.count + i, s.capacity)]
    ensures i == s.count ==> Reads(s, r, 4 + i).readers[r] == Away
  {
    ReadsOnlyRead(s, r, 3 + i);
    ReadsOnlyRead(s, r, 4 + i);
    if i == 0 {
      assert Reads(s, r, 0) == s;
      ReadsOnlyRead(s, r, 1);
      ReadsOnlyRead(s, r, 2);
      assert Reads(s, r, 1).readers[r] == HasCount(s.count);
      assert Reads(s, r, 2).readers[r] == HasCapacity(s.count, s.capacity);
      assert Reads(s, r, 3) == Next(Reads(s, r, 2), GoOnRead(r));
    } else {
      StepsAreRead(s, slots, r, i - 1);
      ReadsOnlyRead(s, r, 3 + (i - 1));
      assert Reads(s, r, 3 + i) == Next(Reads(s, r, 3 + (i - 1)), GoOnRead(r));
    }
    assert Reads(s, r, 4 + i) == Next(Reads(s, r, 3 + i), GoOnRead(r));
  }

  // ----- passes against one reload

  /** A reload that happens once, and passes: one of them, or as many as the moves ask for. */
  datatype Bout = Bout(s: State, passed: bool, reloaded: bool)

  datatype Setting = Setting(history: nat, resolution: nat)

  function Wanted(reload: Setting): nat {
    CapacityFor(reload.history, reload.resolution)
  }

  /** The next step of a pass or of the reload, if it is not over; `once` allows a single pass. */
  function BoutNext(b: Bout, once: bool, reload: Setting, byCollector: bool): Bout {
    if byCollector then
      if b.s.collector.Resting? && b.passed && once then b else Bout(Next(b.s, Collect), true, b.reloaded)
    else if b.s.reloaders == [Waiting] then
      if b.reloaded then b else Bout(Next(b.s, StartReload(0, reload.history, reload.resolution)), b.passed, true)
    else Bout(Next(b.s, GoOnReload(0)), b.passed, b.reloaded)
  }

  function BoutRun(start: State, once: bool, reload: Setting, moves: seq<bool>): Bout {
    if moves == [] then Bout(start, false, false)
    else BoutNext(BoutRun(start, once, reload, moves[..|moves| - 1]), once, reload, moves[|moves| - 1])
  }

  predicate Over(b: Bout) {
    b.passed && b.reloaded && b.s.collector.Resting? && b.s.reloaders == [Waiting]
  }

  function Quiet(write: nat, count: nat, capacity: nat): State {
    State(write, count, capacity, Resting, [Waiting], [])
  }

  /** A reload to more than the count: at most one sample is added, and nothing is clamped. */
  ghost predicate Roomy(b: Bout, count: nat, capacity: nat, wanted: nat) {
    && b.s.count + (if b.passed && b.s.collector.Resting? then 0 else 1) <= count + 1
    && |b.s.reloaders| == 1 && !b.s.reloaders[0].Clamping?
    && (b.s.reloaders[0].Stored? ==> b.s.reloaders[0].wanted == wanted)
    && (if b.reloaded then b.s.capacity == wanted else b.s.capacity == capacity && b.s.reloaders == [Waiting])
  }

  lemma {:induction false} StaysRoomy(write: nat, count: nat, capacity: nat, reload: Setting, moves: seq<bool>)
    requires count < Wanted(reload)
    ensures Roomy(BoutRun(Quiet(write, count, capacity), true, reload, moves), count, capacity, Wanted(reload))
  {
    if moves != [] {
      StaysRoomy(write, count, capacity, reload, moves[..|moves| - 1]);
    }
  }

  /** A full ring and a reload to the same capacity: nothing is added and nothing is clamped. */
  ghost predicate Full(b: Bout, capacity: nat) {
    && b.s.count == b.s.capacity == capacity && !b.s.collector.RoomSeen?
    && (b.s.collector.Loaded? || b.s.collector.Claimed? ==> b.s.collector.modulus == capacity)
    && |b.s.reloaders| == 1 && !b.s.reloaders[0].Clamping?
    && (b.s.reloaders[0].Stored? ==> b.s.reloaders[0].wanted == capacity)
  }

  lemma {:induction false} StaysFull(write: nat, reload: Setting, moves: seq<bool>)
    ensures Full(BoutRun(Quiet(write, Wanted(reload), Wanted(reload)), true, reload, moves), Wanted(reload))
  {
    if moves != [] {
      StaysFull(write, reload, moves[..|moves| - 1]);
    }
  }

  lemma {:induction false} Move(start: State, once: bool, reload: Setting, moves: seq<bool>, byCollector: bool, expected: Bout)
      returns (more: seq<bool>)
    requires BoutNext(BoutRun(start, once, reload, moves), once, reload, byCollector) == expected
    ensures BoutRun(start, once, reload, more) == expected
  {
    more := moves + [byCollector];
    assert more[..|moves|] == moves;
  }

  /** The whole reload, while the collector has claimed a position. */
  lemma {:induction false} ReloadingMoves(start: State, once: bool, reload: Setting, before: seq<bool>, s: State)
      returns (moves: seq<bool>)
    requires BoutRun(start, once, reload, before) == Bout(s, true, false)
    requires s.collector.Claimed? && s.reloaders == [Waiting] && s.count >= Wanted(reload)
    ensures BoutRun(start, once, reload, moves) == Bout(s.(capacity := Wanted(reload), count := Wanted(reload)), true, true)
  {
    var w := Wanted(reload);
    var kept := s.(capacity := w);
    moves := Move(start, once, reload, before, false, Bout(kept.(reloaders := [Stored(w)]), true, true));
    if s.count > w {
      moves := Move(start, once, reload, moves, false, Bout(kept.(reloaders := [Clamping(w)]), true, true));
      moves := Move(start, once, reload, moves, false, Bout(kept.(count := w), true, true));
    } else {
      moves := Move(start, once, reload, moves, false, Bout(kept, true, true));
    }
  }

  /** The reload falls between the claim of a position and the test for room. */
  lemma {:induction false} OverfillingMoves(start: State, once: bool, reload: Setting, before: seq<bool>,
                                            write: nat, count: nat, capacity: nat) returns (moves: seq<bool>)
    requires var b := BoutRun(start, once, reload, before);
             b.s == Quiet(write, count, capacity) && !b.reloaded && !(once && b.passed)
    requires count <= capacity <= HISTORY_MAX && Wanted(reload) <= count && Wanted(reload) < capacity
    ensures BoutRun(start, once, reload, moves) == Bout(Quiet(write + 1, Wanted(reload) + 1, Wanted(reload)), true, true)
  {
    var q, w := Quiet(write, count, capacity), Wanted(reload);
    var claimed := q.(write := write + 1, collector := Claimed(capacity, Slot(write, capacity)));
    moves := Move(start, once, reload, before, true, Bout(q.(collector := Loaded(capacity)), true, false));
    moves := Move(start, once, reload, moves, true, Bout(claimed, true, false));
    moves := ReloadingMoves(start, once, reload, moves, claimed);
    moves := Move(start, once, reload, moves, true, Bout(Quiet(write + 1, w, w).(collector := RoomSeen), true, true));
    moves := Move(start, once, reload, moves, true, Bout(Quiet(write + 1, w + 1, w), true, true));
  }

  /**
   One pass and one reload from a quiet state within its capacity end within
   the capacity in every interleaving, if and only if the reload leaves room
   above the count, or changes nothing on a full ring.
   */
  lemma {:induction false} CountStaysWithinIff(write: nat, count: nat, capacity: nat, reload: Setting)
    requires 1 <= capacity <= HISTORY_MAX && count <= capacity
    ensures (forall moves :: var b := BoutRun(Quiet(write, count, capacity), true, reload, moves);
                             Over(b) ==> b.s.count <= b.s.capacity) <==>
            Wanted(reload) > count || Wanted(reload) == count == capacity
  {
    var start := Quiet(write, count, capacity);
    if Wanted(reload) > count {
      forall moves | Over(BoutRun(start, true, reload, moves))
        ensures BoutRun(start, true, reload, moves).s.count <= BoutRun(start, true, reload, moves).s.capacity
      {
        StaysRoomy(write, count, capacity, reload, moves);
      }
    } else if Wanted(reload) == count == capacity {
      forall moves | Over(BoutRun(start, true, reload, moves))
        ensures BoutRun(start, true, reload, moves).s.count <= BoutRun(start, true, reload, moves).s.capacity
      {
        StaysFull(write, reload, moves);
      }
    } else {
      var moves := OverfillingMoves(start, true, reload, [], write, count, capacity);
      assert Over(BoutRun(start, true, reload, moves));
    }
  }

  // ----- any number of passes and reloads

  /** No capacity stored so far is below the one before it. */
  ghost predicate NeverShrinks(capacity: nat, reloaders: nat, readers: nat, acts: seq<Action>) {
    acts == [] || (
      var before := acts[..|acts| - 1];
      && NeverShrinks(capacity, reloaders, readers, before)
      && Next(Run(capacity, reloaders, readers, before), acts[|acts| - 1]).capacity
         >= Run(capacity, reloaders, readers, before).capacity)
  }

  ghost predicate Fits(s: State) {
    && s.count <= s.capacity && 1 <= s.capacity <= HISTORY_MAX
    && (s.collector.Loaded? || s.collector.Claimed? ==> s.collector.modulus <= s.capacity)
    && (s.collector.RoomSeen? ==> s.count < s.capacity)
    && (forall r :: 0 <= r < |s.reloaders| && s.reloaders[r].Stored? ==> s.reloaders[r].wanted <= s.capacity)
    && (forall r :: 0 <= r < |s.reloaders| && s.reloaders[r].Clamping? ==> s.reloaders[r].wanted < s.capacity)
  }

  lemma {:induction false} StepFits(s: State, a: Action)
    requires Fits(s) && Next(s, a).capacity >= s.capacity
    ensures Fits(Next(s, a))
  {
  }

  /** While no reload stores less than is stored, the count stays within the capacity in every interleaving. */
  lemma {:induction false} GrowingStaysWithin(capacity: nat, reloaders: nat, readers: nat, acts: seq<Action>)
    requires 1 <= capacity <= HISTORY_MAX && NeverShrinks(capacity, reloaders, readers, acts)
    ensures Fits(Run(capacity, reloaders, readers, acts))
  {
    if acts != [] {
      GrowingStaysWithin(capacity, reloaders, readers, acts[..|acts| - 1]);
      StepFits(Run(capacity, reloaders, readers, acts[..|acts| - 1]), acts[|acts| - 1]);
    }
  }

  // ----- any number of passes and one reload

  /** With one reload that does not shrink the ring, nothing ever stores less than is stored. */
  ghost predicate Grows(b: Bout, capacity: nat, wanted: nat) {
    && Fits(b.s) && |b.s.reloaders| == 1
    && (if b.reloaded then b.s.capacity == wanted else b.s.capacity == capacity)
  }

  lemma {:induction false} KeepsGrowing(write: nat, count: nat, capacity: nat, reload: Setting, moves: seq<bool>)
    requires 1 <= capacity <= HISTORY_MAX && count <= capacity && Wanted(reload) >= capacity
    ensures Grows(BoutRun(Quiet(write, count, capacity), false, reload, moves), capacity, Wanted(reload))
  {
    if moves != [] {
      KeepsGrowing(write, count, capacity, reload, moves[..|moves| - 1]);
      var b := BoutRun(Quiet(write, count, capacity), false, reload, moves[..|moves| - 1]);
      if moves[|moves| - 1] {
        StepFits(b.s, Collect);
      } else if b.s.reloaders != [Waiting] {
        StepFits(b.s, GoOnReload(0));
      } else if !b.reloaded {
        StepFits(b.s, StartReload(0, reload.history, reload.resolution));
      }
    }
  }

  /** Passes alone fill the ring up to any count within its capacity. */
  lemma {:induction false} FillingMoves(write: nat, count: nat, capacity: nat, reload: Setting, target: nat)
      returns (moves: seq<bool>)
    requires count <= target <= capacity <= HISTORY_MAX && 1 <= capacity
    ensures var b := BoutRun(Quiet(write, count, capacity), false, reload, moves);
            b.s == Quiet(write + target - count, target, capacity) && !b.reloaded
    decreases target - count
  {
    var start := Quiet(write, count, capacity);
    moves := [];
    if target > count {
      moves := FillingMoves(write, count, capacity, reload, target - 1);
      var w := write + (target - 1) - count;
      var q := Quiet(w, target - 1, capacity);
      var claimed := q.(write := w + 1, collector := Claimed(capacity, Slot(w, capacity)));
      moves := Move(start, false, reload, moves, true, Bout(q.(collector := Loaded(capacity)), true, false));
      moves := Move(start, false, reload, moves, true, Bout(claimed, true, false));
      moves := Move(start, false, reload, moves, true, Bout(claimed.(collector := RoomSeen), true, false));
      moves := Move(start, false, reload, moves, true, Bout(Quiet(w + 1, target, capacity), true, false));
    }
  }

  predicate Still(b: Bout) {
    b.s.collector.Resting? && b.s.reloaders == [Waiting]
  }

  /**
   One reload and any number of passes from a quiet state within its capacity:
   every quiet state of every interleaving is within the capacity, if and only
   if the reload does not shrink the ring.
   */
  lemma {:induction false} OneReloadStaysWithinIff(write: nat, count: nat, capacity: nat, reload: Setting)
    requires 1 <= capacity <= HISTORY_MAX && count <= capacity
    ensures (forall moves :: var b := BoutRun(Quiet(write, count, capacity), false, reload, moves);
                             Still(b) ==> b.s.count <= b.s.capacity) <==>
            Wanted(reload) >= capacity
  {
    var start := Quiet(write, count, capacity);
    if Wanted(reload) >= capacity {
      forall moves | Still(BoutRun(start, false, reload, moves))
        ensures BoutRun(start, false, reload, moves).s.count <= BoutRun(start, false, reload, moves).s.capacity
      {
        KeepsGrowing(write, count, capacity, reload, moves);
      }
    } else {
      var full := if count < Wanted(reload) then Wanted(reload) else count;
      var moves := FillingMoves(write, count, capacity, reload, full);
      moves := OverfillingMoves(start, false, reload, moves, write + full - count, full, capacity);
      assert Still(BoutRun(start, false, reload, moves));
    }
  }

  // ----- a run that ends above the capacity

  lemma {:induction false} RunStep(capacity: nat, reloaders: nat, readers: nat, acts: seq<Action>, a: Action)
    ensures Run(capacity, reloaders, readers, acts + [a]) == Next(Run(capacity, reloaders, readers, acts), a)
  {
    assert (acts + [a])[..|acts|] == acts;
  }

  /**
   The count may pass the capacity, when a reload falls between the collector's
   test and its increment; a reader then emits one slot twice.
   */
  lemma {:induction false} CountCanPassCapacity() returns (acts: seq<Action>)
    ensures var s := Run(2, 1, 0, acts);
            s.count == 2 && s.capacity == 1 && s.collector == Resting && s.reloaders == [Waiting]
    ensures forall slots: seq<int> :: |slots| == HISTORY_MAX ==>
              Valid(RingOf(Run(2, 1, 0, acts), slots)) && Read(RingOf(Run(2, 1, 0, acts), slots)) == [slots[0], slots[0]]
  {
    acts := [];
    assert Run(2, 1, 0, acts) == State(0, 0, 2, Resting, [Waiting], []);
    acts := CollectOnce(acts, Loaded(2));
    acts := CollectOnce(acts, Claimed(2, 0));
    acts := CollectOnce(acts, RoomSeen);
    acts := CollectOnce(acts, Resting);
    acts := CollectOnce(acts, Loaded(2));
    acts := CollectOnce(acts, Claimed(2, 1));
    acts := CollectOnce(acts, RoomSeen);
    assert Run(2, 1, 0, acts) == State(2, 1, 2, RoomSeen, [Waiting], []);
    RunStep(2, 1, 0, acts, StartReload(0, 1, 1));
    acts := acts + [StartReload(0, 1, 1)];
    assert Run(2, 1, 0, acts) == State(2, 1, 1, RoomSeen, [Stored(1)], []);
    RunStep(2, 1, 0, acts, GoOnReload(0));
    acts := acts + [GoOnReload(0)];
    assert Run(2, 1, 0, acts) == State(2, 1, 1, RoomSeen, [Waiting], []);
    acts := CollectOnce(acts, Resting);
    forall slots: seq<int> | |slots| == HISTORY_MAX
      ensures Valid(RingOf(Run(2, 1, 0, acts), slots)) && Read(RingOf(Run(2, 1, 0, acts), slots)) == [slots[0], slots[0]]
    {
      LapsSlotZero(RingOf(Run(2, 1, 0, acts), slots));
    }
  }

  lemma {:induction false} LapsSlotZero(r: Ring<int>)
    requires Valid(r) && r.write == 2 && r.count == 2 && r.capacity == 1
    ensures Read(r) == [r.slots[0], r.slots[0]]
  {
    ReadAt(r, 0);
    ReadAt(r, 1);
  }

  lemma {:induction false} CollectOnce(acts: seq<Action>, expected: Collector) returns (more: seq<Action>)
    requires CollectStep(Run(2, 1, 0, acts)).collector == expected
    ensures Run(2, 1, 0, more) == CollectStep(Run(2, 1, 0, acts)) && Run(2, 1, 0, more).collector == expected
  {
    RunStep(2, 1, 0, acts, Collect);
    more := acts + [Collect];
  }
}
