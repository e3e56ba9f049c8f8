/**
 When the interleaved table keeps one slot for each identity: as long as no two
 calls in flight carry the same one.
 */
module TopTableUnique {
  import opened Bytes
  import opened Common
  import opened TopTable
  import R = TopTableRace
  import S = TopTableSolo
  import Runs = TopTableRuns

  /** Hash and key buffer, as a slot stores them. */
  datatype Mark = Mark(hash: nat, key: seq<Byte>)

  function MarkOf(u: Update): Mark { Mark(u.hash, Stored(u.key)) }

  function MarkAt(slot: R.Slot): Mark { Mark(slot.hash, slot.key) }

  lemma {:induction false} MarkIsIdentity(u: Update, v: Update)
    ensures MarkOf(u) == MarkOf(v) <==> UpdateId(u) == UpdateId(v)
  {
    CStringOf(Truncated(u.key), Zeros(KEY_LEN - |Truncated(u.key)|));
    CStringOf(Truncated(v.key), Zeros(KEY_LEN - |Truncated(v.key)|));
  }

  lemma {:induction false} MarkIsNotBlank(u: Update)
    requires u.key != []
    ensures MarkOf(u).key != R.EMPTY.key
  {
    assert MarkOf(u).key[0] == u.key[0] != 0;
    assert R.EMPTY.key[0] == 0;
  }

  // ----- the hypotheses

  /** No two calls in flight carry the same identity. */
  ghost predicate Apart(s: R.State) {
    forall v, w :: 0 <= v < w < |s.phases| && !s.phases[v].Idle? && !s.phases[w].Idle? ==>
      UpdateId(s.phases[v].u) != UpdateId(s.phases[w].u)
  }

  /** That holds in every state of the run. */
  ghost predicate AlwaysApart(capacity: nat, workers: nat, acts: seq<R.Action>) {
    Apart(R.Run(capacity, workers, acts)) && (acts == [] || AlwaysApart(capacity, workers, acts[..|acts| - 1]))
  }

  function Owner(s: R.State): R.Phase {
    if s.lock.Held? && s.lock.worker < |s.phases| then s.phases[s.lock.worker] else R.Idle
  }

  /** Nobody is rewriting the slot. */
  predicate AtRest(s: R.State, j: nat) {
    var p := Owner(s);
    !(R.InLock(p) && p.k == j)
  }

  /** A comparison finds the identity it looks for in a slot at rest; whatever else it reports is left open. */
  predicate Sees(s: R.State, a: R.Action) {
    a.GoOn? && a.w < |s.phases| && s.phases[a.w].Comparing? ==>
      var p := s.phases[a.w];
      p.i < |s.slots| && AtRest(s, p.i) && MarkAt(s.slots[p.i]) == MarkOf(p.u) ==> a.same
  }

  /** A comparison of a slot at rest reports exactly whether it holds the identity. */
  predicate Tells(s: R.State, a: R.Action) {
    a.GoOn? && a.w < |s.phases| && s.phases[a.w].Comparing? ==>
      var p := s.phases[a.w];
      p.i < |s.slots| && AtRest(s, p.i) ==> (a.same <==> S.Same(s.slots, p))
  }

  ghost predicate Sighted(capacity: nat, workers: nat, acts: seq<R.Action>) {
    acts == [] || (Sighted(capacity, workers, acts[..|acts| - 1])
                   && Sees(R.Run(capacity, workers, acts[..|acts| - 1]), acts[|acts| - 1]))
  }

  ghost predicate Truthful(capacity: nat, workers: nat, acts: seq<R.Action>) {
    acts == [] || (Truthful(capacity, workers, acts[..|acts| - 1])
                   && Tells(R.Run(capacity, workers, acts[..|acts| - 1]), acts[|acts| - 1]))
  }

  lemma {:induction false} TellsMeansSees(s: R.State, a: R.Action)
    requires Tells(s, a)
    ensures Sees(s, a)
  {
    if a.GoOn? && a.w < |s.phases| && s.phases[a.w].Comparing? {
      var u := s.phases[a.w].u;
      CStringOf(Truncated(u.key), Zeros(KEY_LEN - |Truncated(u.key)|));
    }
  }

  lemma {:induction false} TruthfulIsSighted(capacity: nat, workers: nat, acts: seq<R.Action>)
    requires Truthful(capacity, workers, acts)
    ensures Sighted(capacity, workers, acts)
  {
    if acts != [] {
      TruthfulIsSighted(capacity, workers, acts[..|acts| - 1]);
      TellsMeansSees(R.Run(capacity, workers, acts[..|acts| - 1]), acts[|acts| - 1]);
    }
  }

  /** No two slots with a key hold the same identity. */
  ghost predicate Distinct(slots: seq<R.Slot>) {
    forall i, j :: 0 <= i < j < |slots| && slots[i].key != R.EMPTY.key ==> MarkAt(slots[i]) != MarkAt(slots[j])
  }

  // ----- the invariant

  /** Zeroed, or with a key but not yet its hash. */
  predicate Torn(s: R.State, j: nat) {
    var p := Owner(s);
    (p.Zeroed? || p.Keyed?) && p.k == j
  }

  /** About to be zeroed. */
  predicate Doomed(s: R.State, j: nat) {
    var p := Owner(s);
    p.Owning? && p.k == j
  }

  predicate Holds(s: R.State, j: nat, m: Mark)
    requires j < |s.slots|
  {
    MarkAt(s.slots[j]) == m && !Torn(s, j)
  }

  predicate Gone(s: R.State, j: nat, m: Mark)
    requires j < |s.slots|
  {
    Holds(s, j, m) ==> Doomed(s, j)
  }

  /** How many slots a scan has left behind. */
  function Passed(p: R.Phase, capacity: nat): nat {
    match p
    case Scanning(_, i, _, _, _) => i
    case Comparing(_, i, _, _, _) => i
    case Weighing(_, i, _, _, _) => i + 1
    case Missed(_, _) => capacity
    case _ => 0
  }

  /** The identity of a scanning call is nowhere behind it; that of a rewriting call is nowhere but in its slot. */
  ghost predicate Cleared(s: R.State, w: nat)
    requires w < |s.phases|
  {
    var p := s.phases[w];
    && (forall j :: 0 <= j < |s.slots| && j < Passed(p, |s.slots|) ==> Gone(s, j, MarkOf(p.u)))
    && (R.InLock(p) ==> forall j :: 0 <= j < |s.slots| && (j != p.k || p.Owning?) ==> !Holds(s, j, MarkOf(p.u)))
  }

  /** The call that wrote this slot, on its way to counting its hit. */
  predicate Due(s: R.State, v: nat, j: nat)
    requires j < |s.slots|
  {
    && v < |s.phases|
    && (s.phases[v].Hashed? || s.phases[v].Hitting?)
    && s.phases[v].k == j && MarkOf(s.phases[v].u) == MarkAt(s.slots[j])
  }

  /** A slot with a key and no hit belongs to a call in flight. */
  ghost predicate Backed(s: R.State, j: nat)
    requires j < |s.slots|
  {
    s.slots[j].hits == 0 && s.slots[j].key != R.EMPTY.key && !Torn(s, j) ==> exists v :: Due(s, v, j)
  }

  ghost predicate Unique(s: R.State) {
    forall i, j :: 0 <= i < j < |s.slots| && s.slots[i].key != R.EMPTY.key && !Torn(s, i) ==> !Holds(s, j, MarkAt(s.slots[i]))
  }

  ghost predicate Keyed(s: R.State) {
    forall w :: 0 <= w < |s.phases| && !s.phases[w].Idle? ==> s.phases[w].u.key != []
  }

  ghost predicate Sound(s: R.State) {
    && R.Exclusive(s) && R.OwnerInStep(s) && R.InRange(s) && Keyed(s)
    && (s.lock.Held? ==> s.lock.worker < |s.phases|)
  }

  ghost predicate Inv(s: R.State) {
    && Sound(s)
    && Unique(s)
    && (forall w :: 0 <= w < |s.phases| ==> Cleared(s, w))
    && (forall j :: 0 <= j < |s.slots| ==> Backed(s, j))
  }

  // ----- one step

  lemma {:induction false} StepFrame(s: R.State, w: nat, same: bool)
    requires w < |s.phases|
    ensures |R.Step(s, w, same).slots| == |s.slots| && |R.Step(s, w, same).phases| == |s.phases|
    ensures forall v :: 0 <= v < |s.phases| && v != w ==> R.Step(s, w, same).phases[v] == s.phases[v]
    ensures s.phases[w].Idle? || R.Step(s, w, same).phases[w].Idle? || R.Step(s, w, same).phases[w].u == s.phases[w].u
    ensures R.Step(s, w, same).lock.Held? ==> R.Step(s, w, same).lock == s.lock || R.Step(s, w, same).lock.worker == w
    ensures s.phases[w].Idle? ==> R.Step(s, w, same) == s
  {
  }

  lemma {:induction false} StepSound(s: R.State, w: nat, same: bool)
    requires Sound(s) && w < |s.phases|
    ensures Sound(R.Step(s, w, same))
    ensures |R.Step(s, w, same).slots| == |s.slots| && |R.Step(s, w, same).phases| == |s.phases|
    ensures forall v :: 0 <= v < |s.phases| && v != w ==> R.Step(s, w, same).phases[v] == s.phases[v]
  {
    R.StepKeepsExclusive(s, w, same);
    R.StepKeepsOwner(s, w, same);
    R.NextKeepsRange(s, R.GoOn(w, same));
    StepFrame(s, w, same);
  }

  /** A step makes a slot hold an identity only by storing the hash. */
  lemma {:induction false} HoldsOnly(s: R.State, w: nat, same: bool, j: nat, m: Mark)
    requires Sound(s) && w < |s.phases| && j < |s.slots| && j < |R.Step(s, w, same).slots|
    requires Holds(R.Step(s, w, same), j, m) && m.key != R.EMPTY.key
    ensures Holds(s, j, m) || (s.phases[w].Keyed? && s.phases[w].k == j && m == MarkOf(s.phases[w].u))
  {
  }

  lemma {:induction false} GoneStays(s: R.State, w: nat, same: bool, j: nat, m: Mark)
    requires Sound(s) && w < |s.phases| && j < |s.slots| == |R.Step(s, w, same).slots|
    requires Gone(s, j, m) && m.key != R.EMPTY.key && (s.phases[w].Keyed? ==> m != MarkOf(s.phases[w].u))
    ensures Gone(R.Step(s, w, same), j, m)
  {
    if Holds(R.Step(s, w, same), j, m) {
      HoldsOnly(s, w, same, j, m);
    }
  }

  lemma {:induction false} OtherMark(s: R.State, v: nat, w: nat)
    requires Apart(s) && v < |s.phases| && w < |s.phases| && v != w && !s.phases[v].Idle? && !s.phases[w].Idle?
    ensures MarkOf(s.phases[v].u) != MarkOf(s.phases[w].u)
  {
    MarkIsIdentity(s.phases[v].u, s.phases[w].u);
  }

  lemma {:induction false} OthersStayCleared(s: R.State, w: nat, same: bool, v: nat)
    requires Inv(s) && Apart(s) && w < |s.phases| && v < |s.phases| && v != w
    requires v < |R.Step(s, w, same).phases|
    ensures Cleared(R.Step(s, w, same), v)
  {
    var s' := R.Step(s, w, same);
    StepSound(s, w, same);
    var p := s.phases[v];
    assert Cleared(s, v);
    if !p.Idle? {
      var m := MarkOf(p.u);
      MarkIsNotBlank(p.u);
      if s.phases[w].Keyed? {
        OtherMark(s, v, w);
      }
      forall j | 0 <= j < |s'.slots| && j < Passed(p, |s'.slots|)
        ensures Gone(s', j, m)
      {
        GoneStays(s, w, same, j, m);
      }
      if R.InLock(p) {
        forall j | 0 <= j < |s'.slots| && (j != p.k || p.Owning?)
          ensures !Holds(s', j, m)
        {
          if Holds(s', j, m) {
            HoldsOnly(s, w, same, j, m);
          }
        }
      }
    }
  }

  /** A scan does not step over its own identity: in a slot without hits it would be another call's. */
  lemma {:induction false} NotInEmptySlot(s: R.State, w: nat, i: nat)
    requires Inv(s) && Apart(s) && w < |s.phases| && s.phases[w].Scanning? && s.phases[w].i == i < |s.slots|
    requires s.slots[i].hits == 0
    ensures !Holds(s, i, MarkOf(s.phases[w].u))
  {
    var m := MarkOf(s.phases[w].u);
    MarkIsNotBlank(s.phases[w].u);
    if Holds(s, i, m) {
      assert Backed(s, i);
      var v :| Due(s, v, i);
      OtherMark(s, v, w);
    }
  }

  /** A comparison that fails means the slot does not hold the identity, or is about to lose it. */
  lemma {:induction false} FailedMeansGone(s: R.State, w: nat)
    requires Inv(s) && Apart(s) && w < |s.phases| && s.phases[w].Comparing? && Sees(s, R.GoOn(w, false))
    requires s.phases[w].i < |s.slots|
    ensures Gone(s, s.phases[w].i, MarkOf(s.phases[w].u))
  {
    var i, m := s.phases[w].i, MarkOf(s.phases[w].u);
    if Holds(s, i, m) && !Doomed(s, i) {
      assert !AtRest(s, i);
      var v := s.lock.worker;
      assert s.phases[v].Hashed? && s.phases[v].k == i;
      OtherMark(s, v, w);
    }
  }

  lemma {:induction false} ScanStaysCleared(s: R.State, w: nat, same: bool)
    requires Inv(s) && Apart(s) && w < |s.phases| && Sees(s, R.GoOn(w, same)) && w < |R.Step(s, w, same).phases|
    requires s.phases[w].Scanning? || s.phases[w].Comparing? || s.phases[w].Weighing?
    ensures Cleared(R.Step(s, w, same), w)
  {
    var s', p := R.Step(s, w, same), s.phases[w];
    var q, m := s'.phases[w], MarkOf(p.u);
    StepSound(s, w, same);
    assert Cleared(s, w);
    MarkIsNotBlank(p.u);
    if q.Scanning? || q.Missed? || q.Comparing? || q.Weighing? {
      if p.Scanning? && s.slots[p.i].hits == 0 {
        NotInEmptySlot(s, w, p.i);
      }
      if p.Comparing? {
        FailedMeansGone(s, w);
      }
      forall j | 0 <= j < |s'.slots| && j < Passed(q, |s'.slots|)
        ensures Gone(s', j, m)
      {
        assert Gone(s, j, m);
        GoneStays(s, w, same, j, m);
      }
    }
  }

  lemma {:induction false} WriterStaysCleared(s: R.State, w: nat, same: bool)
    requires Inv(s) && w < |s.phases| && w < |R.Step(s, w, same).phases|
    requires s.phases[w].Missed? || R.InLock(s.phases[w]) || s.phases[w].Hitting? || s.phases[w].Adding? || s.phases[w].Idle?
    ensures Cleared(R.Step(s, w, same), w)
  {
    var s', p := R.Step(s, w, same), s.phases[w];
    var q := s'.phases[w];
    StepSound(s, w, same);
    assert Cleared(s, w);
    if p.Missed? && q.Missed? {
      assert s' == s;
    } else if R.InLock(q) {
      MarkIsNotBlank(p.u);
      forall j | 0 <= j < |s'.slots| && (j != q.k || q.Owning?)
        ensures !Holds(s', j, MarkOf(q.u))
      {
        assert p.Missed? ==> Gone(s, j, MarkOf(p.u));
        if Holds(s', j, MarkOf(q.u)) {
          HoldsOnly(s, w, same, j, MarkOf(q.u));
        }
      }
    }
  }

  lemma {:induction false} StepKeepsUnique(s: R.State, w: nat, same: bool)
    requires Inv(s) && w < |s.phases|
    ensures Unique(R.Step(s, w, same))
  {
    var s' := R.Step(s, w, same);
    StepSound(s, w, same);
    assert Cleared(s, w);
    forall i, j | 0 <= i < j < |s'.slots| && s'.slots[i].key != R.EMPTY.key && !Torn(s', i)
      ensures !Holds(s', j, MarkAt(s'.slots[i]))
    {
      var m := MarkAt(s'.slots[i]);
      if Holds(s', j, m) {
        HoldsOnly(s, w, same, i, m);
        HoldsOnly(s, w, same, j, m);
      }
    }
  }

  lemma {:induction false} StepKeepsBacked(s: R.State, w: nat, same: bool, j: nat)
    requires Inv(s) && w < |s.phases| && j < |s.slots| == |R.Step(s, w, same).slots|
    ensures Backed(R.Step(s, w, same), j)
  {
    var s' := R.Step(s, w, same);
    StepSound(s, w, same);
    var m := MarkAt(s'.slots[j]);
    if s'.slots[j].hits == 0 && m.key != R.EMPTY.key && !Torn(s', j) {
      HoldsOnly(s, w, same, j, m);
      if s.phases[w].Keyed? && s.phases[w].k == j && m == MarkOf(s.phases[w].u) {
        assert Due(s', w, j);
      } else {
        assert Backed(s, j);
        var v :| Due(s, v, j);
        assert Due(s', v, j);
      }
    }
  }

  lemma {:induction false} StepKeepsInv(s: R.State, w: nat, same: bool)
    requires Inv(s) && Apart(s) && w < |s.phases| && Sees(s, R.GoOn(w, same))
    ensures Inv(R.Step(s, w, same))
  {
    var s' := R.Step(s, w, same);
    StepSound(s, w, same);
    StepKeepsUnique(s, w, same);
    forall v | 0 <= v < |s'.phases|
      ensures Cleared(s', v)
    {
      if v != w {
        OthersStayCleared(s, w, same, v);
      } else if s.phases[w].Scanning? || s.phases[w].Comparing? || s.phases[w].Weighing? {
        ScanStaysCleared(s, w, same);
      } else {
        WriterStaysCleared(s, w, same);
      }
    }
    forall j | 0 <= j < |s'.slots|
      ensures Backed(s', j)
    {
      StepKeepsBacked(s, w, same, j);
    }
  }

  /** Slots and owner are all an identity's place depends on. */
  ghost predicate SameView(s: R.State, s': R.State) {
    s'.slots == s.slots && Owner(s') == Owner(s)
  }

  lemma {:induction false} ViewKeepsUnique(s: R.State, s': R.State)
    requires SameView(s, s') && Unique(s)
    ensures Unique(s')
  {
    forall i, j | 0 <= i < j < |s'.slots| && s'.slots[i].key != R.EMPTY.key && !Torn(s', i)
      ensures !Holds(s', j, MarkAt(s'.slots[i]))
    {
      assert !Torn(s, i) && !Holds(s, j, MarkAt(s.slots[i]));
    }
  }

  lemma {:induction false} ViewKeepsCleared(s: R.State, s': R.State, v: nat)
    requires SameView(s, s') && v < |s.phases| && v < |s'.phases|
    requires s'.phases[v] == s.phases[v] && Cleared(s, v)
    ensures Cleared(s', v)
  {
    var p := s.phases[v];
    forall j | 0 <= j < |s'.slots| && j < Passed(p, |s'.slots|)
      ensures Gone(s', j, MarkOf(p.u))
    {
      assert Gone(s, j, MarkOf(p.u));
    }
    if R.InLock(p) {
      forall j | 0 <= j < |s'.slots| && (j != p.k || p.Owning?)
        ensures !Holds(s', j, MarkOf(p.u))
      {
        assert !Holds(s, j, MarkOf(p.u));
      }
    }
  }

  lemma {:induction false} ViewKeepsBacked(s: R.State, s': R.State, w: nat, j: nat)
    requires SameView(s, s') && j < |s.slots| && Backed(s, j) && w < |s.phases| && s.phases[w].Idle?
    requires |s'.phases| == |s.phases| && forall v :: 0 <= v < |s.phases| && v != w ==> s'.phases[v] == s.phases[v]
    ensures Backed(s', j)
  {
    if s.slots[j].hits == 0 && s.slots[j].key != R.EMPTY.key && !Torn(s, j) {
      var v :| Due(s, v, j);
      assert Due(s', v, j);
    }
  }

  lemma {:induction false} BeginKeepsInv(s: R.State, w: nat, u: Update)
    requires Inv(s) && w < |s.phases|
    ensures Inv(R.Next(s, R.Begin(w, u)))
  {
    var s' := R.Next(s, R.Begin(w, u));
    R.NextKeepsRange(s, R.Begin(w, u));
    if s' != s {
      assert s'.phases == s.phases[w := s'.phases[w]] && SameView(s, s');
      ViewKeepsUnique(s, s');
      forall v | 0 <= v < |s'.phases|
        ensures Cleared(s', v)
      {
        if v != w {
          ViewKeepsCleared(s, s', v);
        }
      }
      forall j | 0 <= j < |s'.slots|
        ensures Backed(s', j)
      {
        ViewKeepsBacked(s, s', w, j);
      }
    }
  }

  lemma {:induction false} RunKeepsInv(capacity: nat, workers: nat, acts: seq<R.Action>)
    requires Sighted(capacity, workers, acts) && AlwaysApart(capacity, workers, acts)
    ensures Inv(R.Run(capacity, workers, acts))
  {
    if acts != [] {
      var s, a := R.Run(capacity, workers, acts[..|acts| - 1]), acts[|acts| - 1];
      RunKeepsInv(capacity, workers, acts[..|acts| - 1]);
      if a.w < |s.phases| {
        match a
        case Begin(w, u) => BeginKeepsInv(s, w, u);
        case GoOn(w, same) => StepKeepsInv(s, w, same);
      }
    }
  }

  /**
   In every interleaving in which no two calls in flight carry the same
   identity, no two slots hold the same one whenever the mutex is free.
   */
  lemma {:induction false} UniqueWhileApart(capacity: nat, workers: nat, acts: seq<R.Action>)
    requires Sighted(capacity, workers, acts) && AlwaysApart(capacity, workers, acts)
    requires R.Run(capacity, workers, acts).lock == Free
    ensures Distinct(R.Run(capacity, workers, acts).slots)
  {
    RunKeepsInv(capacity, workers, acts);
    var s := R.Run(capacity, workers, acts);
    forall i, j | 0 <= i < j < |s.slots| && s.slots[i].key != R.EMPTY.key
      ensures MarkAt(s.slots[i]) != MarkAt(s.slots[j])
    {
      assert !Holds(s, j, MarkAt(s.slots[i]));
    }
  }

  // ----- calls that run alone, as a run

  lemma {:induction false} Extend(capacity: nat, workers: nat, acts: seq<R.Action>, a: R.Action) returns (more: seq<R.Action>)
    requires Truthful(capacity, workers, acts) && Tells(R.Run(capacity, workers, acts), a)
    ensures Truthful(capacity, workers, more)
    ensures R.Run(capacity, workers, more) == R.Next(R.Run(capacity, workers, acts), a)
    ensures R.BegunBy(more) == R.BegunBy(acts) + if a.Begin? then [a.u] else []
  {
    more := acts + [a];
    assert more[..|acts|] == acts;
  }

  lemma {:induction false} AloneRuns(capacity: nat, workers: nat, acts: seq<R.Action>, w: nat, n: nat) returns (more: seq<R.Action>)
    requires Truthful(capacity, workers, acts) && w < |R.Run(capacity, workers, acts).phases|
    ensures Truthful(capacity, workers, more)
    ensures R.Run(capacity, workers, more) == S.Alone(R.Run(capacity, workers, acts), w, n)
    ensures R.BegunBy(more) == R.BegunBy(acts)
    decreases n
  {
    more := acts;
    if n > 0 {
      var s := R.Run(capacity, workers, acts);
      var next := Extend(capacity, workers, acts, R.GoOn(w, S.Same(s.slots, s.phases[w])));
      more := AloneRuns(capacity, workers, next, w, n - 1);
    }
  }

  /** A whole call without interruption, appended to a run. */
  lemma {:induction false} CallAlone(capacity: nat, workers: nat, acts: seq<R.Action>, table: seq<Entry>, w: nat, u: Update)
      returns (more: seq<R.Action>)
    requires Truthful(capacity, workers, acts) && AllProper(table) && table != [] && u.key != []
    requires var s := R.Run(capacity, workers, acts);
             s.slots == S.Shared(table) && s.lock == Free && w < |s.phases| && s.phases[w] == R.Idle
    ensures Truthful(capacity, workers, more)
    ensures var s, s' := R.Run(capacity, workers, acts), R.Run(capacity, workers, more);
            s'.slots == S.Shared(Apply(table, u)) && s'.lock == Free && s'.phases == s.phases
    ensures R.BegunBy(more) == R.BegunBy(acts) + [u]
  {
    var s := R.Run(capacity, workers, acts);
    more := Extend(capacity, workers, acts, R.Begin(w, u));
    var n := S.SoloCallIsApply(table, s, w, u);
    more := AloneRuns(capacity, workers, more, w, n);
  }

  /**
   Whole calls one after the other, by whatever workers: the interleaved
   machine has a truthful run that leaves the slots of the sequential run.
   */
  lemma {:induction false} SerialRunIsSequential(capacity: nat, workers: nat, us: seq<Update>, ws: seq<nat>)
      returns (acts: seq<R.Action>)
    requires capacity > 0 && |ws| == |us| && forall i :: 0 <= i < |ws| ==> ws[i] < workers
    ensures Truthful(capacity, workers, acts)
    ensures var s := R.Run(capacity, workers, acts);
            && s.slots == S.Shared(Runs.Run(capacity, us).table)
            && s.lock == Free && s.phases == R.Init(capacity, workers).phases
    decreases |us|
  {
    acts := [];
    if us != [] {
      var before, u, w := us[..|us| - 1], us[|us| - 1], ws[|ws| - 1];
      acts := SerialRunIsSequential(capacity, workers, before, ws[..|ws| - 1]);
      Runs.RunKeepsShape(capacity, before);
      if u.key != [] {
        acts := CallAlone(capacity, workers, acts, Runs.Run(capacity, before).table, w, u);
      }
    }
  }

  // ----- the exact condition

  lemma {:induction false} LoneWorkerIsApart(capacity: nat, workers: nat, acts: seq<R.Action>)
    requires workers <= 1
    ensures AlwaysApart(capacity, workers, acts)
  {
    R.HitsConserved(capacity, workers, acts);
    if acts != [] {
      LoneWorkerIsApart(capacity, workers, acts[..|acts| - 1]);
    }
  }

  function BlankTable(capacity: nat): (table: seq<Entry>)
    ensures |table| == capacity && forall i :: 0 <= i < |table| ==> table[i] == BLANK
  {
    seq(capacity, i => BLANK)
  }

  /** A first update goes to slot 0 of a blank table, and one of another identity to slot 1. */
  lemma {:induction false} FirstTwoSlots(capacity: nat, x: Update, y: Update)
    requires capacity >= 2 && x.key != [] && y.key != [] && UpdateId(x) != UpdateId(y)
    ensures var blank := BlankTable(capacity);
            && AllProper(blank) && S.Scanned(blank, x) == R.Missed(x, 0)
            && Apply(blank, y) == blank[0 := Inserted(y)] && AllProper(Apply(blank, y))
            && Apply(Apply(blank, y), x) == blank[0 := Inserted(y)][1 := Inserted(x)]
  {
    var blank := BlankTable(capacity);
    InsertedIsProper(y);
    assert FirstEmpty(blank, 0) == 0;
    var one := blank[0 := Inserted(y)];
    assert FirstHit(one, UpdateId(x), 0) == |one|;
    assert FirstEmpty(one, 0) == 1;
  }

  /** A scan without interruption, appended to a run: the call stops short of its slot. */
  lemma {:induction false} ScanAhead(capacity: nat, workers: nat, acts: seq<R.Action>, table: seq<Entry>, w: nat, u: Update)
      returns (more: seq<R.Action>)
    requires Truthful(capacity, workers, acts) && AllProper(table) && table != [] && u.key != []
    requires var s := R.Run(capacity, workers, acts); s.slots == S.Shared(table) && w < |s.phases| && s.phases[w] == R.Idle
    ensures Truthful(capacity, workers, more)
    ensures R.Run(capacity, workers, more) == R.To(R.Run(capacity, workers, acts), w, S.Scanned(table, u))
    ensures R.BegunBy(more) == R.BegunBy(acts) + [u]
  {
    var start := R.Run(capacity, workers, acts);
    more := Extend(capacity, workers, acts, R.Begin(w, u));
    var n := S.ScansAlone(table, start, w, u);
    more := AloneRuns(capacity, workers, more, w, n);
  }

  /** Worker 0 has scanned for x, and worker 1 has counted y and x since. */
  lemma {:induction false} OvertakingRun(capacity: nat, workers: nat, x: Update, y: Update) returns (acts: seq<R.Action>)
    requires capacity >= 2 && workers >= 2 && x.key != [] && y.key != [] && UpdateId(x) != UpdateId(y)
    ensures Truthful(capacity, workers, acts) && R.BegunBy(acts) == [x, y, x]
    ensures var s := R.Run(capacity, workers, acts);
            && s.slots == S.Shared(BlankTable(capacity)[0 := Inserted(y)][1 := Inserted(x)])
            && s.lock == Free && s.phases == R.Init(capacity, workers).phases[0 := R.Missed(x, 0)]
  {
    var blank := BlankTable(capacity);
    FirstTwoSlots(capacity, x, y);
    assert R.Init(capacity, workers).slots == S.Shared(blank);
    acts := ScanAhead(capacity, workers, [], blank, 0, x);
    acts := CallAlone(capacity, workers, acts, blank, 1, y);
    acts := CallAlone(capacity, workers, acts, Apply(blank, y), 1, x);
  }

  lemma {:induction false} DuplicatingRun(capacity: nat, workers: nat, x: Update, y: Update) returns (acts: seq<R.Action>)
    requires capacity >= 2 && workers >= 2 && x.key != [] && y.key != [] && UpdateId(x) != UpdateId(y)
    ensures Truthful(capacity, workers, acts) && R.BegunBy(acts) == [x, y, x]
    ensures var s := R.Run(capacity, workers, acts);
            && s.lock == Free && (forall w :: 0 <= w < |s.phases| ==> s.phases[w] == R.Idle)
            && |s.slots| == capacity && s.slots[0] == s.slots[1] == S.SlotOf(Inserted(x))
  {
    acts := OvertakingRun(capacity, workers, x, y);
    var table := BlankTable(capacity)[0 := Inserted(y)][1 := Inserted(x)];
    S.MissRunsAlone(table, R.Run(capacity, workers, acts), 0, x, 0);
    acts := AloneRuns(capacity, workers, acts, 0, 7);
    assert table[0 := Inserted(x)][1] == Inserted(x);
  }

  lemma {:induction false} AlikeMeansTogether(capacity: nat, workers: nat, acts: seq<R.Action>)
    requires Truthful(capacity, workers, acts) && R.Run(capacity, workers, acts).lock == Free
    requires !Distinct(R.Run(capacity, workers, acts).slots)
    ensures !AlwaysApart(capacity, workers, acts)
  {
    TruthfulIsSighted(capacity, workers, acts);
    if AlwaysApart(capacity, workers, acts) {
      UniqueWhileApart(capacity, workers, acts);
    }
  }

  /**
   The scan is not repeated under the mutex: while worker 0 stands between its
   scan for x and the mutex, worker 1 counts y and x in whole calls, and then
   worker 0 writes x a second time. Every comparison is truthful.
   */
  lemma {:induction false} IdentityCanBeDuplicated(capacity: nat, workers: nat, x: Update, y: Update) returns (acts: seq<R.Action>)
    requires capacity >= 2 && workers >= 2 && x.key != [] && y.key != [] && UpdateId(x) != UpdateId(y)
    ensures Truthful(capacity, workers, acts) && R.BegunBy(acts) == [x, y, x] && !AlwaysApart(capacity, workers, acts)
    ensures var s := R.Run(capacity, workers, acts);
            && s.lock == Free && (forall w :: 0 <= w < |s.phases| ==> s.phases[w] == R.Idle)
            && |s.slots| == capacity && s.slots[0] == s.slots[1] == S.SlotOf(Inserted(x))
  {
    acts := DuplicatingRun(capacity, workers, x, y);
    MarkIsNotBlank(x);
    AlikeMeansTogether(capacity, workers, acts);
  }

  /**
   Whenever the mutex is free, slots hold distinct identities in every
   interleaving with truthful comparisons, if and only if the table has at most
   one slot or there is at most one worker.
   */
  lemma {:induction false} UniqueIff(capacity: nat, workers: nat)
    ensures (forall acts :: Truthful(capacity, workers, acts) && R.Run(capacity, workers, acts).lock == Free ==>
               Distinct(R.Run(capacity, workers, acts).slots)) <==> capacity <= 1 || workers <= 1
  {
    if capacity <= 1 || workers <= 1 {
      forall acts | Truthful(capacity, workers, acts) && R.Run(capacity, workers, acts).lock == Free
        ensures Distinct(R.Run(capacity, workers, acts).slots)
      {
        R.HitsConserved(capacity, workers, acts);
        if workers <= 1 {
          TruthfulIsSighted(capacity, workers, acts);
          LoneWorkerIsApart(capacity, workers, acts);
          UniqueWhileApart(capacity, workers, acts);
        }
      }
    } else {
      var x, y := Update([1], 11, NO_GAIN, 0), Update([2], 22, NO_GAIN, 0);
      var acts := IdentityCanBeDuplicated(capacity, workers, x, y);
      MarkIsNotBlank(x);
      assert !Distinct(R.Run(capacity, workers, acts).slots);
    }
  }
}
