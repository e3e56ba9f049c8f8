/**
 Errors against hits in the interleaved table: a call counts its hit and then
 adds its gain, and another call can rewrite the slot in between.
 */
module TopTableErrors {
  import opened Common
  import opened Tally
  import opened TopTable
  import R = TopTableRace
  import S = TopTableSolo
  import U = TopTableUnique

  /** Each call counts as one error at most. */
  ghost predicate Mild(acts: seq<R.Action>) {
    forall u :: u in R.BegunBy(acts) ==> u.gain.errors <= 1
  }

  ghost predicate MildCalls(s: R.State) {
    forall w :: 0 <= w < |s.phases| && !s.phases[w].Idle? ==> s.phases[w].u.gain.errors <= 1
  }

  /** No slot shows more errors than hits. */
  ghost predicate Ordered(s: R.State) {
    forall k :: 0 <= k < |s.slots| ==> s.slots[k].gain.errors <= s.slots[k].hits
  }

  ghost predicate AtRest(s: R.State) {
    forall w :: 0 <= w < |s.phases| ==> s.phases[w].Idle?
  }

  // ----- when the order survives

  /** A call between its hit and its gain owes slot k its error. */
  function Owed(p: R.Phase, k: nat): nat {
    if p.Adding? && p.k == k then p.u.gain.errors else 0
  }

  function OwedTo(k: nat): R.Phase -> nat {
    p => Owed(p, k)
  }

  /** The step zeroes a slot that some other call still owes an error. */
  ghost predicate Disturbs(s: R.State, a: R.Action) {
    && a.GoOn? && a.w < |s.phases| && s.phases[a.w].Owning?
    && exists v :: 0 <= v < |s.phases| && Owed(s.phases[v], s.phases[a.w].k) > 0
  }

  ghost predicate Undisturbed(capacity: nat, workers: nat, acts: seq<R.Action>) {
    acts == [] || (Undisturbed(capacity, workers, acts[..|acts| - 1])
                   && !Disturbs(R.Run(capacity, workers, acts[..|acts| - 1]), acts[|acts| - 1]))
  }

  /** Errors shown and errors owed are together within the hits. */
  ghost predicate Covered(s: R.State, k: nat)
    requires k < |s.slots|
  {
    s.slots[k].gain.errors + SumOf(s.phases, OwedTo(k)) <= s.slots[k].hits
  }

  ghost predicate AllCovered(s: R.State) {
    forall k :: 0 <= k < |s.slots| ==> Covered(s, k)
  }

  lemma {:induction false} ZeroingKeepsCovered(s: R.State, w: nat, same: bool, k: nat)
    requires w < |s.phases| && s.phases[w].Owning? && k < |s.slots| && Covered(s, k) && !Disturbs(s, R.GoOn(w, same))
    ensures |R.Step(s, w, same).slots| == |s.slots| && Covered(R.Step(s, w, same), k)
  {
    var s' := R.Step(s, w, same);
    SumUpdate(s.phases, OwedTo(k), w, s'.phases[w]);
    assert s'.phases == s.phases[w := s'.phases[w]];
    if s.phases[w].k == k {
      SumZero(s.phases, OwedTo(k));
    }
  }

  lemma {:induction false} HitKeepsCovered(s: R.State, w: nat, same: bool, k: nat)
    requires w < |s.phases| && s.phases[w].Hitting? && k < |s.slots| && Covered(s, k) && MildCalls(s)
    ensures |R.Step(s, w, same).slots| == |s.slots| && Covered(R.Step(s, w, same), k)
  {
    SumUpdate(s.phases, OwedTo(k), w, R.Adding(s.phases[w].u, s.phases[w].k));
  }

  lemma {:induction false} GainKeepsCovered(s: R.State, w: nat, same: bool, k: nat)
    requires w < |s.phases| && s.phases[w].Adding? && k < |s.slots| && Covered(s, k)
    ensures |R.Step(s, w, same).slots| == |s.slots| && Covered(R.Step(s, w, same), k)
  {
    SumUpdate(s.phases, OwedTo(k), w, R.Idle);
  }

  /** All other steps but zeroing leave hits, errors and what is owed alone. */
  lemma {:induction false} RestKeepsCovered(s: R.State, w: nat, same: bool, k: nat)
    requires w < |s.phases| && !s.phases[w].Owning? && !s.phases[w].Hitting? && !s.phases[w].Adding?
    requires k < |s.slots| && Covered(s, k)
    ensures |R.Step(s, w, same).slots| == |s.slots| && Covered(R.Step(s, w, same), k)
  {
    var s' := R.Step(s, w, same);
    assert s'.phases == s.phases[w := s'.phases[w]] && !s'.phases[w].Adding?;
    SumUpdate(s.phases, OwedTo(k), w, s'.phases[w]);
  }

  lemma {:induction false} BeginKeepsCovered(s: R.State, w: nat, u: Update, k: nat)
    requires w < |s.phases| && k < |s.slots| && Covered(s, k)
    ensures Covered(R.Next(s, R.Begin(w, u)), k)
  {
    var s' := R.Next(s, R.Begin(w, u));
    SumUpdate(s.phases, OwedTo(k), w, s'.phases[w]);
    assert s'.phases == s.phases[w := s'.phases[w]];
  }

  lemma {:induction false} NextKeepsCovered(s: R.State, a: R.Action)
    requires AllCovered(s) && MildCalls(s) && !Disturbs(s, a) && (a.Begin? ==> a.u.gain.errors <= 1)
    ensures AllCovered(R.Next(s, a)) && MildCalls(R.Next(s, a))
  {
    if a.w < |s.phases| {
      forall k | 0 <= k < |R.Next(s, a).slots|
        ensures Covered(R.Next(s, a), k)
      {
        match a
        case Begin(w, u) => BeginKeepsCovered(s, w, u, k);
        case GoOn(w, same) =>
          if s.phases[w].Owning? {
            ZeroingKeepsCovered(s, w, same, k);
          } else if s.phases[w].Hitting? {
            HitKeepsCovered(s, w, same, k);
          } else if s.phases[w].Adding? {
            GainKeepsCovered(s, w, same, k);
          } else {
            RestKeepsCovered(s, w, same, k);
          }
      }
    }
  }

  lemma {:induction false} RunKeepsCovered(capacity: nat, workers: nat, acts: seq<R.Action>)
    requires Mild(acts) && Undisturbed(capacity, workers, acts)
    ensures AllCovered(R.Run(capacity, workers, acts)) && MildCalls(R.Run(capacity, workers, acts))
  {
    var s := R.Run(capacity, workers, acts);
    if acts == [] {
      forall k | 0 <= k < |s.slots| ensures Covered(s, k) {
        SumZero(s.phases, OwedTo(k));
      }
    } else {
      RunKeepsCovered(capacity, workers, acts[..|acts| - 1]);
      assert acts[|acts| - 1].Begin? ==> acts[|acts| - 1].u in R.BegunBy(acts);
      NextKeepsCovered(R.Run(capacity, workers, acts[..|acts| - 1]), acts[|acts| - 1]);
    }
  }

  /**
   In every interleaving in which no call zeroes a slot while a failed call
   stands between its hit and its error on it, errors stay within hits.
   */
  lemma {:induction false} OrderedWhileUndisturbed(capacity: nat, workers: nat, acts: seq<R.Action>)
    requires Mild(acts) && Undisturbed(capacity, workers, acts)
    ensures Ordered(R.Run(capacity, workers, acts))
  {
    RunKeepsCovered(capacity, workers, acts);
    var s := R.Run(capacity, workers, acts);
    forall k | 0 <= k < |s.slots| ensures s.slots[k].gain.errors <= s.slots[k].hits {
      assert Covered(s, k);
    }
  }

  lemma {:induction false} LoneNeverDisturbs(s: R.State, a: R.Action)
    requires |s.phases| <= 1
    ensures !Disturbs(s, a)
  {
  }

  lemma {:induction false} LoneWorkerIsUndisturbed(capacity: nat, workers: nat, acts: seq<R.Action>)
    requires workers <= 1
    ensures Undisturbed(capacity, workers, acts)
  {
    if acts != [] {
      LoneWorkerIsUndisturbed(capacity, workers, acts[..|acts| - 1]);
      R.HitsConserved(capacity, workers, acts[..|acts| - 1]);
      LoneNeverDisturbs(R.Run(capacity, workers, acts[..|acts| - 1]), acts[|acts| - 1]);
    }
  }

  // ----- when it does not

  /** A blank table with slot 0 written for x and hit once. */
  function HitOnly(capacity: nat, x: Update): (table: seq<Entry>)
    requires capacity > 0
    ensures |table| == capacity
  {
    U.BlankTable(capacity)[0 := Inserted(x).(gain := NO_GAIN)]
  }

  /** Workers 0 and 1 have scanned a blank table for x and y. */
  lemma {:induction false} BothScan(capacity: nat, workers: nat, x: Update, y: Update) returns (acts: seq<R.Action>)
    requires capacity > 0 && workers >= 2 && x.key != [] && y.key != []
    ensures U.Truthful(capacity, workers, acts) && R.BegunBy(acts) == [x, y]
    ensures R.Run(capacity, workers, acts) ==
            R.To(R.To(R.Init(capacity, workers), 0, R.Missed(x, 0)), 1, R.Missed(y, 0))
  {
    assert R.Init(capacity, workers).slots == S.Shared(U.BlankTable(capacity));
    acts := U.ScanAhead(capacity, workers, [], U.BlankTable(capacity), 0, x);
    acts := U.ScanAhead(capacity, workers, acts, U.BlankTable(capacity), 1, y);
  }

  /** Worker 0 writes slot 0 and counts its hit, but not yet its gain. */
  lemma {:induction false} HitsFirst(capacity: nat, s: R.State, x: Update)
    requires capacity > 0 && s.slots == S.Shared(U.BlankTable(capacity)) && s.lock == Free
    requires |s.phases| > 0 && s.phases[0] == R.Missed(x, 0)
    ensures var s' := S.Alone(s, 0, 6);
            && s'.slots == S.Shared(HitOnly(capacity, x)) && s'.lock == Free
            && s'.phases == s.phases[0 := R.Adding(x, 0)]
  {
    S.WritesAlone(s, 0, x, 0);
    var s5 := S.Alone(s, 0, 5);
    S.AloneOn(s, 0, 5, 1);
    assert s.phases[0 := R.Hitting(x, 0)][0 := R.Adding(x, 0)] == s.phases[0 := R.Adding(x, 0)];
    assert S.Turn(s5, 0).slots == S.Shared(HitOnly(capacity, x));
  }

  /** Everything the call for x had to add ends up under y, beside a single hit. */
  function Misled(x: Update, y: Update): Entry {
    Inserted(y).(gain := y.gain.Plus(x.gain))
  }

  /** The late gain of worker 0 falls on whatever slot 0 holds by then. */
  lemma {:induction false} AddsLast(table: seq<Entry>, s: R.State, x: Update, y: Update)
    requires table != [] && s.slots == S.Shared(table[0 := Inserted(y)])
    requires |s.phases| > 0 && s.phases[0] == R.Adding(x, 0)
    ensures var s' := S.Alone(s, 0, 1);
            s'.slots == S.Shared(table[0 := Misled(x, y)]) && s'.lock == s.lock && s'.phases == s.phases[0 := R.Idle]
  {
    assert S.Turn(s, 0).slots == S.Shared(table[0 := Misled(x, y)]);
  }

  lemma {:induction false} AllIdle(workers: nat, phases: seq<R.Phase>, x: Update, y: Update)
    requires workers >= 2 && phases == R.Init(0, workers).phases
    ensures phases[0 := R.Missed(x, 0)][1 := R.Missed(y, 0)][0 := R.Adding(x, 0)][1 := R.Idle][0 := R.Idle] == phases
  {
  }

  /**
   Two workers find the same slot free. Worker 0 writes it for x and counts its
   hit; worker 1 rewrites it for y in a whole call; then worker 0 adds its gain.
   Every comparison is truthful, and in the end nobody is in a call.
   */
  lemma {:induction false} GainCanBeMisled(capacity: nat, workers: nat, x: Update, y: Update) returns (acts: seq<R.Action>)
    requires capacity > 0 && workers >= 2 && x.key != [] && y.key != []
    ensures U.Truthful(capacity, workers, acts) && R.BegunBy(acts) == [x, y] && AtRest(R.Run(capacity, workers, acts))
    ensures R.Run(capacity, workers, acts).slots == S.Shared(U.BlankTable(capacity)[0 := Misled(x, y)])
  {
    acts := BothScan(capacity, workers, x, y);
    HitsFirst(capacity, R.Run(capacity, workers, acts), x);
    acts := U.AloneRuns(capacity, workers, acts, 0, 6);
    S.MissRunsAlone(HitOnly(capacity, x), R.Run(capacity, workers, acts), 1, y, 0);
    acts := U.AloneRuns(capacity, workers, acts, 1, 7);
    var table := U.BlankTable(capacity);
    assert HitOnly(capacity, x)[0 := Inserted(y)] == table[0 := Inserted(y)];
    AddsLast(table, R.Run(capacity, workers, acts), x, y);
    acts := U.AloneRuns(capacity, workers, acts, 0, 1);
    AllIdle(workers, R.Init(capacity, workers).phases, x, y);
  }

  /**
   With calls of at most one error each and truthful comparisons, errors are
   within hits at rest after every interleaving, if and only if there is no
   slot or at most one worker.
   */
  lemma {:induction false} OrderedIff(capacity: nat, workers: nat)
    ensures (forall acts :: U.Truthful(capacity, workers, acts) && Mild(acts) && AtRest(R.Run(capacity, workers, acts)) ==>
               Ordered(R.Run(capacity, workers, acts))) <==> capacity == 0 || workers <= 1
  {
    if capacity == 0 || workers <= 1 {
      forall acts | Mild(acts)
        ensures Ordered(R.Run(capacity, workers, acts))
      {
        R.HitsConserved(capacity, workers, acts);
        if workers <= 1 {
          LoneWorkerIsUndisturbed(capacity, workers, acts);
          OrderedWhileUndisturbed(capacity, workers, acts);
        }
      }
    } else {
      var x, y := Update([1], 11, TopGain(0, 0, true), 0), Update([2], 22, TopGain(0, 0, true), 0);
      var acts := GainCanBeMisled(capacity, workers, x, y);
      assert R.Run(capacity, workers, acts).slots[0].gain.errors == 2;
    }
  }
}
