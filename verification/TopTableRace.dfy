/**
 The top-N tables under full interleaving: scans and hit increments run without
 the lock, and only the rewriting of a slot is done under the mutex. The outcome
 of a key comparison is arbitrary here, since it may read a key being rewritten;
 `TopTableUnique` says what follows when it is not.
 */
module TopTableRace {
  import opened Bytes
  import opened Common
  import opened Tally
  import opened TopTable

  /** The shared words of a slot this model tracks. */
  datatype Slot = Slot(hits: nat, gain: Gain, hash: nat, key: seq<Byte>)

  const EMPTY := Slot(0, NO_GAIN, 0, Zeros(KEY_LEN))

  datatype Phase =
    | Idle
    | Scanning(u: Update, i: nat, empty: nat, victim: nat, least: int)
    | Comparing(u: Update, i: nat, empty: nat, victim: nat, least: int)
    | Weighing(u: Update, i: nat, empty: nat, victim: nat, least: int)
    | Missed(u: Update, k: nat)
    | Owning(u: Update, k: nat)
    | Zeroed(u: Update, k: nat)
    | Keyed(u: Update, k: nat)
    | Hashed(u: Update, k: nat)
    | Hitting(u: Update, k: nat)
    | Adding(u: Update, k: nat)

  /** `increments` counts the hit increments executed; `erased` the hits lost in zeroing stores. */
  datatype State = State(slots: seq<Slot>, lock: Lock, phases: seq<Phase>, increments: nat, erased: nat)

  /** `same` is the outcome of a key comparison, where the step is one. */
  datatype Action = Begin(w: nat, u: Update) | GoOn(w: nat, same: bool)

  function Init(capacity: nat, workers: nat): State {
    State(seq(capacity, i => EMPTY), Free, seq(workers, w => Idle), 0, 0)
  }

  function To(s: State, w: nat, p: Phase): State
    requires w < |s.phases|
  {
    s.(phases := s.phases[w := p])
  }

  /** The scan moves to slot i, or ends with the slot for a miss. */
  function ScanFrom(capacity: nat, u: Update, i: nat, empty: nat, victim: nat, least: int): Phase {
    if i < capacity then Scanning(u, i, empty, victim, least)
    else Missed(u, if empty != capacity then empty else victim)
  }

  function Step(s: State, w: nat, same: bool): State
    requires w < |s.phases|
  {
    var capacity := |s.slots|;
    match s.phases[w]
    case Idle => s
    case Scanning(u, i, empty, victim, least) =>
      if i >= capacity then s
      else if s.slots[i].hits == 0 && empty == capacity then To(s, w, ScanFrom(capacity, u, i + 1, i, victim, least))
      else To(s, w, Comparing(u, i, empty, victim, least))
    case Comparing(u, i, empty, victim, least) =>
      To(s, w, if same then Hitting(u, i) else Weighing(u, i, empty, victim, least))
    case Weighing(u, i, empty, victim, least) =>
      if i >= capacity then s
      else if least == -1 || s.slots[i].hits < least then To(s, w, ScanFrom(capacity, u, i + 1, empty, i, s.slots[i].hits))
      else To(s, w, ScanFrom(capacity, u, i + 1, empty, victim, least))
    case Missed(u, k) => if s.lock == Free then To(s, w, Owning(u, k)).(lock := Held(w)) else s
    case Owning(u, k) =>
      if k >= capacity then s
      else To(s, w, Zeroed(u, k)).(slots := s.slots[k := EMPTY], erased := s.erased + s.slots[k].hits)
    case Zeroed(u, k) =>
      if k >= capacity then s
      else To(s, w, Keyed(u, k)).(slots := s.slots[k := s.slots[k].(key := Stored(u.key))])
    case Keyed(u, k) =>
      if k >= capacity then s
      else To(s, w, Hashed(u, k)).(slots := s.slots[k := s.slots[k].(hash := u.hash)])
    case Hashed(u, k) => To(s, w, Hitting(u, k)).(lock := Free)
    case Hitting(u, k) =>
      if k >= capacity then s
      else To(s, w, Adding(u, k)).(slots := s.slots[k := s.slots[k].(hits := s.slots[k].hits + 1)], increments := s.increments + 1)
    case Adding(u, k) =>
      if k >= capacity then s
      else To(s, w, Idle).(slots := s.slots[k := s.slots[k].(gain := s.slots[k].gain.Plus(u.gain))])
  }

  function Next(s: State, a: Action): State {
    if a.w >= |s.phases| then s else
    match a
    case Begin(w, u) =>
      if s.phases[w].Idle? && u.key != [] && s.slots != [] then To(s, w, Scanning(u, 0, |s.slots|, 0, -1)) else s
    case GoOn(w, same) => Step(s, w, same)
  }

  function Run(capacity: nat, workers: nat, acts: seq<Action>): State {
    if acts == [] then Init(capacity, workers)
    else Next(Run(capacity, workers, acts[..|acts| - 1]), acts[|acts| - 1])
  }

  // ----- every index stays in the table

  ghost predicate PhaseInRange(p: Phase, capacity: nat) {
    match p
    case Idle => true
    case Scanning(_, i, empty, victim, _) => i < capacity && empty <= capacity && victim < capacity
    case Comparing(_, i, empty, victim, _) => i < capacity && empty <= capacity && victim < capacity
    case Weighing(_, i, empty, victim, _) => i < capacity && empty <= capacity && victim < capacity
    case Missed(_, k) => k < capacity
    case Owning(_, k) => k < capacity
    case Zeroed(_, k) => k < capacity
    case Keyed(_, k) => k < capacity
    case Hashed(_, k) => k < capacity
    case Hitting(_, k) => k < capacity
    case Adding(_, k) => k < capacity
  }

  ghost predicate InRange(s: State) {
    forall w :: 0 <= w < |s.phases| ==> PhaseInRange(s.phases[w], |s.slots|)
  }

  lemma {:induction false} NextKeepsRange(s: State, a: Action)
    requires InRange(s)
    ensures InRange(Next(s, a)) && |Next(s, a).slots| == |s.slots| && |Next(s, a).phases| == |s.phases|
  {
  }

  // ----- conservation of hits

  function HitsOf(slot: Slot): nat { slot.hits }

  ghost predicate Conserved(s: State) {
    SumOf(s.slots, HitsOf) + s.erased == s.increments
  }

  lemma {:induction false} NextConserves(s: State, a: Action)
    requires Conserved(s)
    ensures Conserved(Next(s, a))
  {
    var s' := Next(s, a);
    if s'.slots != s.slots {
      var k := s.phases[a.w].k;
      assert s'.slots == s.slots[k := s'.slots[k]];
      SumUpdate(s.slots, HitsOf, k, s'.slots[k]);
    }
  }

  /**
   In every interleaving, the hits in the table plus the hits erased by zeroing
   stores are exactly the increments executed, and no step leaves the table.
   */
  lemma {:induction false} HitsConserved(capacity: nat, workers: nat, acts: seq<Action>)
    ensures var s := Run(capacity, workers, acts);
            Conserved(s) && InRange(s) && |s.slots| == capacity && |s.phases| == workers
  {
    if acts == [] {
      SumZero(Init(capacity, workers).slots, HitsOf);
    } else {
      HitsConserved(capacity, workers, acts[..|acts| - 1]);
      NextConserves(Run(capacity, workers, acts[..|acts| - 1]), acts[|acts| - 1]);
      NextKeepsRange(Run(capacity, workers, acts[..|acts| - 1]), acts[|acts| - 1]);
    }
  }

  // ----- key and hash belong together

  predicate InLock(p: Phase) {
    p.Owning? || p.Zeroed? || p.Keyed? || p.Hashed?
  }

  ghost predicate Exclusive(s: State) {
    forall w :: 0 <= w < |s.phases| ==> (InLock(s.phases[w]) <==> s.lock == Held(w))
  }

  /** Blank, or key and hash of one update among those begun. */
  ghost predicate FromOne(slot: Slot, begun: seq<Update>) {
    (slot.key == EMPTY.key && slot.hash == 0) || exists u :: u in begun && slot.key == Stored(u.key) && slot.hash == u.hash
  }

  /** How far the owner of the mutex has rewritten its slot. */
  ghost predicate PartWritten(slot: Slot, p: Phase)
    requires InLock(p)
  {
    match p
    case Owning(_, _) => true
    case Zeroed(_, _) => slot.key == EMPTY.key && slot.hash == 0
    case Keyed(u, _) => slot.key == Stored(u.key) && slot.hash == 0
    case Hashed(u, _) => slot.key == Stored(u.key) && slot.hash == u.hash
  }

  ghost predicate CallsBegun(s: State, begun: seq<Update>) {
    forall w :: 0 <= w < |s.phases| && !s.phases[w].Idle? ==> s.phases[w].u in begun
  }

  ghost predicate OwnerInStep(s: State) {
    forall w :: 0 <= w < |s.phases| && InLock(s.phases[w]) && s.phases[w].k < |s.slots| ==>
      PartWritten(s.slots[s.phases[w].k], s.phases[w])
  }

  ghost predicate SlotConsistent(s: State, begun: seq<Update>, k: nat)
    requires k < |s.slots|
  {
    FromOne(s.slots[k], begun) || (s.lock.Held? && s.lock.worker < |s.phases| && Rewrites(s.phases[s.lock.worker], k))
  }

  ghost predicate Consistent(s: State, begun: seq<Update>) {
    && Exclusive(s)
    && OwnerInStep(s)
    && CallsBegun(s, begun)
    && forall k :: 0 <= k < |s.slots| ==> SlotConsistent(s, begun, k)
  }

  /** The owner has stored a key without its hash. */
  predicate Rewrites(p: Phase, k: nat) {
    p.Keyed? && p.k == k
  }

  function BegunBy(acts: seq<Action>): seq<Update> {
    if acts == [] then [] else
    var a := acts[|acts| - 1];
    BegunBy(acts[..|acts| - 1]) + if a.Begin? then [a.u] else []
  }

  lemma {:induction false} BeginKeepsConsistent(s: State, w: nat, u: Update, begun: seq<Update>)
    requires Consistent(s, begun)
    ensures Consistent(Next(s, Begin(w, u)), begun + [u])
  {
    var s' := Next(s, Begin(w, u));
    forall k | 0 <= k < |s'.slots| ensures SlotConsistent(s', begun + [u], k) {
      assert SlotConsistent(s, begun, k);
    }
  }

  lemma {:induction false} StepKeepsExclusive(s: State, w: nat, same: bool)
    requires Exclusive(s) && w < |s.phases|
    ensures Exclusive(Step(s, w, same))
  {
  }

  /** Outside the mutex no step touches a key or a hash. */
  lemma {:induction false} OnlyOwnerWrites(s: State, w: nat, same: bool)
    requires w < |s.phases| && !InLock(s.phases[w])
    ensures var s' := Step(s, w, same);
            |s'.slots| == |s.slots| && forall k :: 0 <= k < |s.slots| ==>
              s'.slots[k].key == s.slots[k].key && s'.slots[k].hash == s.slots[k].hash
  {
  }

  lemma {:induction false} OwnerFrame(s: State, s': State, w: nat)
    requires Exclusive(s) && OwnerInStep(s) && w < |s.phases| == |s'.phases| && s'.phases == s.phases[w := s'.phases[w]]
    requires InLock(s'.phases[w]) && s'.phases[w].k < |s'.slots| ==> PartWritten(s'.slots[s'.phases[w].k], s'.phases[w])
    requires !InLock(s.phases[w]) ==> |s'.slots| == |s.slots| && forall k :: 0 <= k < |s.slots| ==>
               s'.slots[k].key == s.slots[k].key && s'.slots[k].hash == s.slots[k].hash
    ensures OwnerInStep(s')
  {
  }

  lemma {:induction false} StepKeepsOwner(s: State, w: nat, same: bool)
    requires Exclusive(s) && OwnerInStep(s) && w < |s.phases|
    ensures OwnerInStep(Step(s, w, same))
  {
    if !InLock(s.phases[w]) {
      OnlyOwnerWrites(s, w, same);
    }
    OwnerFrame(s, Step(s, w, same), w);
  }

  lemma {:induction false} StepKeepsSlot(s: State, w: nat, same: bool, begun: seq<Update>, k: nat)
    requires Consistent(s, begun) && w < |s.phases| && k < |s.slots|
    ensures |Step(s, w, same).slots| == |s.slots| && SlotConsistent(Step(s, w, same), begun, k)
  {
    var s' := Step(s, w, same);
    assert s'.phases == s.phases[w := s'.phases[w]];
    assert SlotConsistent(s, begun, k);
    if s.phases[w].Keyed? && s.phases[w].k == k {
      assert s.phases[w].u in begun;
    } else if s'.slots[k] == s.slots[k] && !FromOne(s.slots[k], begun) {
      assert s.lock == Held(s.lock.worker) && InLock(s.phases[s.lock.worker]);
    }
  }

  lemma {:induction false} StepKeepsCalls(s: State, w: nat, same: bool, begun: seq<Update>)
    requires CallsBegun(s, begun) && w < |s.phases|
    ensures CallsBegun(Step(s, w, same), begun) && |Step(s, w, same).slots| == |s.slots|
  {
    var s' := Step(s, w, same);
    assert s'.phases == s.phases[w := s'.phases[w]];
    assert !s.phases[w].Idle? ==> s.phases[w].u in begun;
  }

  lemma {:induction false} StepKeepsConsistent(s: State, w: nat, same: bool, begun: seq<Update>)
    requires Consistent(s, begun) && w < |s.phases|
    ensures Consistent(Step(s, w, same), begun)
  {
    StepKeepsExclusive(s, w, same);
    StepKeepsOwner(s, w, same);
    StepKeepsCalls(s, w, same, begun);
    forall k | 0 <= k < |s.slots| ensures SlotConsistent(Step(s, w, same), begun, k) {
      StepKeepsSlot(s, w, same, begun, k);
    }
  }

  lemma {:induction false} NextKeepsConsistent(s: State, a: Action, begun: seq<Update>)
    requires Consistent(s, begun)
    ensures Consistent(Next(s, a), begun + if a.Begin? then [a.u] else [])
  {
    if a.Begin? {
      BeginKeepsConsistent(s, a.w, a.u, begun);
    } else {
      assert begun + [] == begun;
      if a.w < |s.phases| {
        StepKeepsConsistent(s, a.w, a.same, begun);
      }
    }
  }

  lemma {:induction false} RunConsistent(capacity: nat, workers: nat, acts: seq<Action>)
    ensures Consistent(Run(capacity, workers, acts), BegunBy(acts))
  {
    if acts != [] {
      var before := acts[..|acts| - 1];
      RunConsistent(capacity, workers, before);
      NextKeepsConsistent(Run(capacity, workers, before), acts[|acts| - 1], BegunBy(before));
    }
  }

  /** Whenever the mutex is free, the key and hash of each slot are both blank or both from one single update. */
  lemma {:induction false} KeyAndHashTogether(capacity: nat, workers: nat, acts: seq<Action>)
    requires Run(capacity, workers, acts).lock == Free
    ensures var slots := Run(capacity, workers, acts).slots;
            |slots| == capacity && forall k :: 0 <= k < |slots| ==> FromOne(slots[k], BegunBy(acts))
  {
    HitsConserved(capacity, workers, acts);
    RunConsistent(capacity, workers, acts);
    var s := Run(capacity, workers, acts);
    forall k | 0 <= k < |s.slots| ensures FromOne(s.slots[k], BegunBy(acts)) {
      assert SlotConsistent(s, BegunBy(acts), k);
    }
  }
}
