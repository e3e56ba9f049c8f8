/**
 The interleaved table against the sequential one: a call whose steps nobody
 interrupts has the effect of the whole update.
 */
module TopTableSolo {
  import opened Bytes
  import opened Common
  import opened TopTable
  import R = TopTableRace

  function SlotOf(e: Entry): R.Slot {
    R.Slot(e.hits, e.gain, e.hash, e.key)
  }

  function Shared(table: seq<Entry>): (slots: seq<R.Slot>)
    ensures |slots| == |table| && forall i :: 0 <= i < |slots| ==> slots[i] == SlotOf(table[i])
  {
    seq(|table|, i requires 0 <= i < |table| => SlotOf(table[i]))
  }

  /** What the key comparison gives when it reads a slot at rest. */
  predicate Same(slots: seq<R.Slot>, p: R.Phase) {
    p.Comparing? && p.i < |slots| && slots[p.i].hash == p.u.hash && CString(slots[p.i].key) == Truncated(p.u.key)
  }

  function Iter<T>(f: T -> T, s: T, n: nat): T {
    if n == 0 then s else Iter(f, f(s), n - 1)
  }

  lemma {:induction false} IterOn<T>(f: T -> T, s: T, m: nat, n: nat)
    ensures Iter(f, s, m + n) == Iter(f, Iter(f, s, m), n)
  {
    if m > 0 {
      IterOn(f, f(s), m - 1, n);
    }
  }

  /** What worker w does next, with a truthful comparison. */
  function Turn(s: R.State, w: nat): R.State {
    if w < |s.phases| then R.Step(s, w, Same(s.slots, s.phases[w])) else s
  }

  /** f is a turn of worker w. */
  ghost predicate Turns(f: R.State -> R.State, w: nat) {
    forall s {:trigger Turn(s, w)} :: f(s) == Turn(s, w)
  }

  function TurnOf(w: nat): (f: R.State -> R.State)
    ensures Turns(f, w)
  {
    s => Turn(s, w)
  }

  /** n steps of worker w alone. */
  function Alone(s: R.State, w: nat, n: nat): R.State {
    Iter(TurnOf(w), s, n)
  }

  lemma {:induction false} AloneOn(s: R.State, w: nat, m: nat, n: nat)
    ensures Alone(s, w, m + n) == Alone(Alone(s, w, m), w, n)
  {
    IterOn(TurnOf(w), s, m, n);
  }

  // ----- the scan

  /** What a scan has picked so far: the first empty slot, and the first slot with the fewest hits. */
  datatype Choice = Choice(empty: nat, victim: nat, least: int)

  function Begun(table: seq<Entry>): Choice { Choice(|table|, 0, -1) }

  function Scanning(u: Update, i: nat, c: Choice): R.Phase {
    R.Scanning(u, i, c.empty, c.victim, c.least)
  }

  function From(table: seq<Entry>, u: Update, i: nat, c: Choice): R.Phase {
    R.ScanFrom(|table|, u, i, c.empty, c.victim, c.least)
  }

  /** How far a scan has got, as in the sequential loop. */
  ghost predicate ScannedTo(table: seq<Entry>, id: Identity, i: nat, c: Choice) {
    && i <= |table| && c.empty <= |table| && c.victim < |table|
    && FirstHit(table, id, 0) == FirstHit(table, id, i)
    && (if c.empty < |table| then c.empty == FirstEmpty(table, 0) else FirstEmpty(table, 0) == FirstEmpty(table, i))
    && (if i == 0 then c.least == -1
        else c.empty == |table| ==> c.victim == Victim(table, i) && c.least == table[c.victim].hits)
  }

  /** Where a scan ends up. */
  function Scanned(table: seq<Entry>, u: Update): R.Phase
    requires table != []
  {
    var k := FirstHit(table, UpdateId(u), 0);
    if k < |table| then R.Hitting(u, k) else R.Missed(u, MissSlot(table))
  }

  predicate TakesEmpty(table: seq<Entry>, i: nat, c: Choice)
    requires i < |table|
  {
    table[i].hits == 0 && c.empty == |table|
  }

  /** The slot is taken for empty, or does not hold the identity. */
  predicate PassesBy(table: seq<Entry>, id: Identity, i: nat, c: Choice)
    requires i < |table|
  {
    TakesEmpty(table, i, c) || !Hit(table[i], id)
  }

  function After(table: seq<Entry>, i: nat, c: Choice): Choice
    requires i < |table|
  {
    if TakesEmpty(table, i, c) then c.(empty := i)
    else if c.least == -1 || table[i].hits < c.least then c.(victim := i, least := table[i].hits)
    else c
  }

  /** The scan from slot i on. */
  function ScanOn(table: seq<Entry>, u: Update, i: nat, c: Choice): R.Phase
    requires i <= |table|
    decreases |table| - i
  {
    if i == |table| then From(table, u, i, c)
    else if PassesBy(table, UpdateId(u), i, c) then ScanOn(table, u, i + 1, After(table, i, c))
    else R.Hitting(u, i)
  }

  lemma {:induction false} ScanEnds(table: seq<Entry>, u: Update, c: Choice)
    requires table != [] && ScannedTo(table, UpdateId(u), |table|, c)
    ensures From(table, u, |table|, c) == Scanned(table, u)
  {
  }

  /** One more slot without the identity keeps the choices right. */
  lemma {:induction false} ScannedOne(table: seq<Entry>, id: Identity, i: nat, c: Choice)
    requires i < |table| && ScannedTo(table, id, i, c) && PassesBy(table, id, i, c)
    ensures ScannedTo(table, id, i + 1, After(table, i, c))
  {
    assert FirstHit(table, id, i) == FirstHit(table, id, i + 1);
  }

  lemma {:induction false} StopsAtHit(table: seq<Entry>, u: Update, i: nat, c: Choice)
    requires i < |table| && ScannedTo(table, UpdateId(u), i, c) && !PassesBy(table, UpdateId(u), i, c)
    ensures R.Hitting(u, i) == Scanned(table, u)
  {
  }

  lemma {:induction false} ScanOnIsScanned(table: seq<Entry>, u: Update, i: nat, c: Choice)
    requires table != [] && i <= |table| && ScannedTo(table, UpdateId(u), i, c)
    ensures ScanOn(table, u, i, c) == Scanned(table, u)
    decreases |table| - i
  {
    if i == |table| {
      ScanEnds(table, u, c);
    } else if PassesBy(table, UpdateId(u), i, c) {
      ScannedOne(table, UpdateId(u), i, c);
      ScanOnIsScanned(table, u, i + 1, After(table, i, c));
    } else {
      StopsAtHit(table, u, i, c);
    }
  }

  /** Worker w stands at slot i of a scan of this table. */
  ghost predicate AtSlot(table: seq<Entry>, s: R.State, w: nat, u: Update, i: nat, c: Choice) {
    && AllProper(table) && u.key != [] && s.slots == Shared(table)
    && i < |table| && w < |s.phases| && s.phases[w] == Scanning(u, i, c)
  }

  /** Over a slot that is passed by, a scan takes one step or three. */
  lemma {:induction false} StepsOverEmpty(f: R.State -> R.State, table: seq<Entry>, s: R.State, w: nat, u: Update, i: nat, c: Choice)
    requires Turns(f, w) && AtSlot(table, s, w, u, i, c) && TakesEmpty(table, i, c)
    ensures Iter(f, s, 1) == R.To(s, w, From(table, u, i + 1, After(table, i, c)))
  {
    assert f(s) == Turn(s, w);
  }

  lemma {:induction false} StepsOverOther(f: R.State -> R.State, table: seq<Entry>, s: R.State, w: nat, u: Update, i: nat, c: Choice)
    requires Turns(f, w) && AtSlot(table, s, w, u, i, c) && !TakesEmpty(table, i, c) && !Hit(table[i], UpdateId(u))
    ensures Iter(f, s, 3) == R.To(s, w, From(table, u, i + 1, After(table, i, c)))
  {
    var s1 := R.To(s, w, R.Comparing(u, i, c.empty, c.victim, c.least));
    var s2 := R.To(s, w, R.Weighing(u, i, c.empty, c.victim, c.least));
    assert Turn(s, w) == s1 && Turn(s1, w) == s2;
    assert f(s2) == Turn(s2, w);
  }

  lemma {:induction false} StepsToHit(f: R.State -> R.State, table: seq<Entry>, s: R.State, w: nat, u: Update, i: nat, c: Choice)
    requires Turns(f, w) && AtSlot(table, s, w, u, i, c) && !PassesBy(table, UpdateId(u), i, c)
    ensures Iter(f, s, 2) == R.To(s, w, R.Hitting(u, i))
  {
    var s1 := R.To(s, w, R.Comparing(u, i, c.empty, c.victim, c.least));
    assert Turn(s, w) == s1 && Turn(s1, w) == R.To(s, w, R.Hitting(u, i));
  }

  /** Worker w has come to slot i of a scan of this table, or to its end. */
  ghost predicate Come(table: seq<Entry>, s: R.State, w: nat, u: Update, i: nat, c: Choice) {
    && AllProper(table) && u.key != [] && s.slots == Shared(table)
    && i <= |table| && w < |s.phases| && s.phases[w] == From(table, u, i, c)
  }

  lemma {:induction false} ScanIsOver(f: R.State -> R.State, table: seq<Entry>, s: R.State, w: nat, u: Update, c: Choice)
      returns (n: nat, p: R.Phase)
    requires Come(table, s, w, u, |table|, c)
    ensures Iter(f, s, n) == R.To(s, w, p) && p == ScanOn(table, u, |table|, c)
  {
    n, p := 0, s.phases[w];
    assert s.phases[w := s.phases[w]] == s.phases;
  }

  lemma {:induction false} ScanPasses(f: R.State -> R.State, table: seq<Entry>, s: R.State, w: nat, u: Update, i: nat, c: Choice)
      returns (m: nat, p: R.Phase)
    requires Turns(f, w) && Come(table, s, w, u, i, c) && i < |table| && PassesBy(table, UpdateId(u), i, c)
    ensures Iter(f, s, m) == R.To(s, w, p) && Come(table, R.To(s, w, p), w, u, i + 1, After(table, i, c))
  {
    p := From(table, u, i + 1, After(table, i, c));
    if TakesEmpty(table, i, c) {
      m := 1;
      StepsOverEmpty(f, table, s, w, u, i, c);
    } else {
      m := 3;
      StepsOverOther(f, table, s, w, u, i, c);
    }
  }

  lemma {:induction false} ScanHits(f: R.State -> R.State, table: seq<Entry>, s: R.State, w: nat, u: Update, i: nat, c: Choice)
      returns (n: nat, p: R.Phase)
    requires Turns(f, w) && Come(table, s, w, u, i, c) && i < |table| && !PassesBy(table, UpdateId(u), i, c)
    ensures Iter(f, s, n) == R.To(s, w, p) && p == ScanOn(table, u, i, c)
  {
    n, p := 2, R.Hitting(u, i);
    StepsToHit(f, table, s, w, u, i, c);
  }

  lemma {:induction false} ScanGoesOn(f: R.State -> R.State, s: R.State, w: nat, m: nat, p: R.Phase, more: nat, q: R.Phase)
    requires w < |s.phases| && Iter(f, s, m) == R.To(s, w, p) && Iter(f, R.To(s, w, p), more) == R.To(R.To(s, w, p), w, q)
    ensures Iter(f, s, m + more) == R.To(s, w, q)
  {
    IterOn(f, s, m, more);
  }

  /** A scan that runs alone ends where the sequential scan does, and has changed nothing. */
  lemma {:induction false} ScanRunsAlone(f: R.State -> R.State, table: seq<Entry>, s: R.State, w: nat, u: Update, i: nat, c: Choice)
      returns (n: nat, p: R.Phase)
    requires Turns(f, w) && Come(table, s, w, u, i, c)
    ensures Iter(f, s, n) == R.To(s, w, p) && p == ScanOn(table, u, i, c)
    decreases |table| - i
  {
    if i == |table| {
      n, p := ScanIsOver(f, table, s, w, u, c);
    } else if PassesBy(table, UpdateId(u), i, c) {
      var m, next := ScanPasses(f, table, s, w, u, i, c);
      n, p := ScanRunsAlone(f, table, R.To(s, w, next), w, u, i + 1, After(table, i, c));
      ScanGoesOn(f, s, w, m, next, n, p);
      n := m + n;
    } else {
      n, p := ScanHits(f, table, s, w, u, i, c);
    }
  }

  /** A slot just rewritten for an update, before its first hit. */
  function Filled(u: Update): R.Slot {
    R.Slot(0, NO_GAIN, u.hash, Stored(u.key))
  }

  /** A miss that has the mutex to itself rewrites its slot and gives the mutex back. */
  lemma {:induction false} WritesAlone(s: R.State, w: nat, u: Update, k: nat)
    requires s.lock == Free && w < |s.phases| && k < |s.slots| && s.phases[w] == R.Missed(u, k)
    ensures Alone(s, w, 5) == R.To(s, w, R.Hitting(u, k)).(slots := s.slots[k := Filled(u)], erased := s.erased + s.slots[k].hits)
  {
    var s2 := Alone(s, w, 2);
    var s4 := Alone(s2, w, 2);
    AloneOn(s, w, 2, 2);
    AloneOn(s, w, 4, 1);
    assert s.slots[k := R.EMPTY][k := Filled(u)] == s.slots[k := Filled(u)];
  }

  /** It leaves the entry that the sequential insertion leaves. */
  lemma {:induction false} MissRunsAlone(table: seq<Entry>, s: R.State, w: nat, u: Update, k: nat)
    requires s.slots == Shared(table) && s.lock == Free && w < |s.phases| && k < |table| && s.phases[w] == R.Missed(u, k)
    ensures Alone(s, w, 7) == R.State(Shared(table[k := Inserted(u)]), Free, s.phases[w := R.Idle],
                                      s.increments + 1, s.erased + table[k].hits)
  {
    WritesAlone(s, w, u, k);
    AloneOn(s, w, 5, 2);
  }

  /** The end of a call after its scan. */
  lemma {:induction false} FinishesAlone(table: seq<Entry>, s: R.State, w: nat, u: Update) returns (n: nat)
    requires table != [] && u.key != [] && s.slots == Shared(table) && s.lock == Free
    requires w < |s.phases| && s.phases[w] == Scanned(table, u)
    ensures var s' := Alone(s, w, n);
            s'.slots == Shared(Apply(table, u)) && s'.lock == Free && s'.phases == s.phases[w := R.Idle]
            && s'.increments == s.increments + 1
  {
    var k := FirstHit(table, UpdateId(u), 0);
    if k < |table| {
      n := 2;
    } else {
      n := 7;
      MissRunsAlone(table, s, w, u, MissSlot(table));
    }
  }

  /** A call that begins and scans alone stops short of its slot, and has changed nothing. */
  lemma {:induction false} ScansAlone(table: seq<Entry>, s: R.State, w: nat, u: Update) returns (n: nat)
    requires AllProper(table) && table != [] && u.key != []
    requires s.slots == Shared(table) && w < |s.phases| && s.phases[w] == R.Idle
    ensures Alone(R.Next(s, R.Begin(w, u)), w, n) == R.To(s, w, Scanned(table, u))
  {
    var p;
    n, p := ScanRunsAlone(TurnOf(w), table, R.To(s, w, Scanning(u, 0, Begun(table))), w, u, 0, Begun(table));
    ScanOnIsScanned(table, u, 0, Begun(table));
  }

  /** A call that nobody interrupts applies its update: the slots are those of the sequential table afterwards. */
  lemma {:induction false} SoloCallIsApply(table: seq<Entry>, s: R.State, w: nat, u: Update) returns (n: nat)
    requires AllProper(table) && table != [] && u.key != []
    requires s.slots == Shared(table) && s.lock == Free && w < |s.phases| && s.phases[w] == R.Idle
    ensures |R.Next(s, R.Begin(w, u)).phases| == |s.phases|
    ensures var s' := Alone(R.Next(s, R.Begin(w, u)), w, n);
            s'.slots == Shared(Apply(table, u)) && s'.lock == Free && s'.phases == s.phases
            && s'.increments == s.increments + 1
  {
    var s1 := R.Next(s, R.Begin(w, u));
    var m := ScansAlone(table, s, w, u);
    var s2 := Alone(s1, w, m);
    var more := FinishesAlone(table, s2, w, u);
    AloneOn(s1, w, m, more);
    n := m + more;
    assert s2.phases[w := R.Idle] == s.phases;
  }
}
