/**
 The API rate limiter: a window second and a count in shared memory. The window
 is compared without the lock, compared again under it, and then reset; every
 limited call then takes a number by fetch-and-add.
 */
module RateLimiter {
  import opened Common
  import opened Tally

  datatype Window = Window(second: nat, count: nat, limited: nat)

  // ----- calls one after the other

  datatype Call = Call(now: nat, limit: nat)

  /** The effect of one uninterrupted call. A limit of 0 means no limit. */
  function After(w: Window, c: Call): Window {
    if c.limit == 0 then w else
    var count := (if w.second == c.now then w.count else 0) + 1;
    Window(c.now, count, if count > c.limit then w.limited + 1 else w.limited)
  }

  predicate Admits(w: Window, c: Call) {
    c.limit == 0 || (if w.second == c.now then w.count else 0) < c.limit
  }

  class Limiter {
    var second: nat
    var count: nat
    var limited: nat

    ghost function Now(): Window
      reads this
    {
      Window(second, count, limited)
    }

    constructor ()
      ensures Now() == Window(0, 0, 0)
    {
      second, count, limited := 0, 0, 0;
    }

    method Check(c: Call) returns (ok: bool)
      modifies this
      ensures ok <==> Admits(old(Now()), c)
      ensures Now() == After(old(Now()), c)
    {
      if c.limit == 0 {
        return true;
      }
      if second != c.now {
        second := c.now;
        count := 0;
      }
      count := count + 1;
      if count > c.limit {
        limited := limited + 1;
        return false;
      }
      return true;
    }
  }

  function Calls(calls: seq<Call>): Window {
    if calls == [] then Window(0, 0, 0) else After(Calls(calls[..|calls| - 1]), calls[|calls| - 1])
  }

  /** How many limited calls fell into a second. */
  function InSecond(calls: seq<Call>, second: nat): nat {
    if calls == [] then 0 else
    var c := calls[|calls| - 1];
    InSecond(calls[..|calls| - 1], second) + if c.limit > 0 && c.now == second then 1 else 0
  }

  function Rejected(calls: seq<Call>): nat {
    if calls == [] then 0 else
    var before := calls[..|calls| - 1];
    Rejected(before) + if Admits(Calls(before), calls[|calls| - 1]) then 0 else 1
  }

  ghost predicate Clocked(calls: seq<Call>) {
    forall i, j :: 0 <= i < j < |calls| ==> calls[i].now <= calls[j].now
  }

  lemma {:induction false} WindowCountsSecond(calls: seq<Call>)
    requires Clocked(calls)
    ensures var w := Calls(calls);
            && w.count == InSecond(calls, w.second)
            && (calls != [] ==> w.second <= calls[|calls| - 1].now)
            && (forall second :: second > w.second ==> InSecond(calls, second) == 0)
            && w.limited == Rejected(calls)
  {
    if calls != [] {
      WindowCountsSecond(calls[..|calls| - 1]);
    }
  }

  /**
   With calls one after the other and a clock that does not go back, a limited
   call is admitted exactly when its ordinal among the limited calls of its
   second is within its own limit; the others make up the rejection counter.
   */
  lemma {:induction false} AdmittedByOrdinal(calls: seq<Call>, c: Call)
    requires Clocked(calls + [c])
    ensures Admits(Calls(calls), c) <==> c.limit == 0 || InSecond(calls + [c], c.now) <= c.limit
    ensures Calls(calls).limited == Rejected(calls)
  {
    assert forall i :: 0 <= i < |calls| ==> calls[i] == (calls + [c])[i];
    WindowCountsSecond(calls);
    assert (calls + [c])[..|calls|] == calls;
    if calls != [] {
      assert calls[|calls| - 1].now <= c.now;
    }
  }

  // ----- calls of many workers, step by step

  datatype Phase =
    | Idle
    | Locking(call: Call)
    | Retesting(call: Call)
    | Opening(call: Call)
    | Zeroing(call: Call)
    | Unlocking(call: Call)
    | Taking(call: Call)
    | Refusing

  /**
   `resets`, `epoch`, `admitted` and `refused` record the history: count resets,
   calls admitted since the last one, and all calls admitted and refused.
   */
  datatype State = State(
    window: Window, lock: Lock, phases: seq<Phase>,
    resets: nat, epoch: nat, admitted: nat, refused: nat)

  datatype Action = Start(w: nat, call: Call) | GoOn(w: nat)

  function Quiet(window: Window, workers: nat): State {
    State(window, Free, seq(workers, w => Idle), 0, 0, 0, 0)
  }

  function To(s: State, w: nat, p: Phase): State
    requires w < |s.phases|
  {
    s.(phases := s.phases[w := p])
  }

  function Step(s: State, w: nat): State
    requires w < |s.phases|
  {
    match s.phases[w]
    case Idle => s
    case Locking(c) => if s.lock == Free then To(s, w, Retesting(c)).(lock := Held(w)) else s
    case Retesting(c) => To(s, w, if s.window.second != c.now then Opening(c) else Unlocking(c))
    case Opening(c) => To(s, w, Zeroing(c)).(window := s.window.(second := c.now))
    case Zeroing(c) => To(s, w, Unlocking(c)).(window := s.window.(count := 0), resets := s.resets + 1, epoch := 0)
    case Unlocking(c) => To(s, w, Taking(c)).(lock := Free)
    case Taking(c) =>
      var count := s.window.count + 1;
      var taken := s.(window := s.window.(count := count));
      if count > c.limit then To(taken, w, Refusing).(refused := s.refused + 1)
      else To(taken, w, Idle).(epoch := s.epoch + 1, admitted := s.admitted + 1)
    case Refusing => To(s, w, Idle).(window := s.window.(limited := s.window.limited + 1))
  }

  function Next(s: State, a: Action): State {
    if a.w >= |s.phases| then s else
    match a
    case Start(w, c) =>
      if !s.phases[w].Idle? || c.limit == 0 then s
      else To(s, w, if s.window.second != c.now then Locking(c) else Taking(c))
    case GoOn(w) => Step(s, w)
  }

  function Run(start: State, acts: seq<Action>): State {
    if acts == [] then start else Next(Run(start, acts[..|acts| - 1]), acts[|acts| - 1])
  }

  function IsRefusing(p: Phase): nat { if p.Refusing? then 1 else 0 }

  predicate InLock(p: Phase) {
    p.Retesting? || p.Opening? || p.Zeroing? || p.Unlocking?
  }

  ghost predicate Exclusive(s: State) {
    forall w :: 0 <= w < |s.phases| ==> (InLock(s.phases[w]) <==> s.lock == Held(w))
  }

  /** Every call in flight has this limit. */
  ghost predicate Uniform(s: State, limit: nat) {
    forall w :: 0 <= w < |s.phases| && !s.phases[w].Idle? && !s.phases[w].Refusing? ==> s.phases[w].call.limit == limit
  }

  /** What a number of full epochs may admit. */
  function Quota(epochs: nat, limit: nat): nat {
    if epochs == 0 then 0 else Quota(epochs - 1, limit) + limit
  }

  lemma {:induction false} QuotaIsProduct(epochs: nat, limit: nat)
    ensures Quota(epochs, limit) == epochs * limit
  {
    if epochs > 0 {
      QuotaIsProduct(epochs - 1, limit);
      assert epochs * limit == (epochs - 1) * limit + limit;
    }
  }

  ghost predicate Bounded(s: State, limit: nat) {
    && Uniform(s, limit)
    && s.epoch <= s.window.count && s.epoch <= limit
    && s.admitted <= Quota(s.resets, limit) + s.epoch
  }

  lemma {:induction false} RunKeepsBounds(window: Window, workers: nat, acts: seq<Action>, limit: nat)
    requires forall k :: 0 <= k < |acts| && acts[k].Start? ==> acts[k].call.limit == 0 || acts[k].call.limit == limit
    ensures Bounded(Run(Quiet(window, workers), acts), limit)
  {
    if acts != [] {
      RunKeepsBounds(window, workers, acts[..|acts| - 1], limit);
    }
  }

  /**
   In every interleaving with a constant limit, at most `limit` calls are
   admitted between two resets of the count, so at most `limit` per epoch overall.
   */
  lemma {:induction false} AdmittedPerEpoch(window: Window, workers: nat, acts: seq<Action>, limit: nat)
    requires forall k :: 0 <= k < |acts| && acts[k].Start? ==> acts[k].call.limit == 0 || acts[k].call.limit == limit
    ensures var s := Run(Quiet(window, workers), acts);
            s.epoch <= limit && s.admitted <= (s.resets + 1) * limit
  {
    RunKeepsBounds(window, workers, acts, limit);
    QuotaIsProduct(Run(Quiet(window, workers), acts).resets + 1, limit);
  }

  lemma {:induction false} StepKeepsExclusive(s: State, a: Action)
    requires Exclusive(s)
    ensures Exclusive(Next(s, a))
  {
  }

  lemma {:induction false} StepKeepsRefusals(s: State, a: Action, total: int)
    requires s.window.limited + SumOf(s.phases, IsRefusing) == total + s.refused
    ensures Next(s, a).window.limited + SumOf(Next(s, a).phases, IsRefusing) == total + Next(s, a).refused
  {
    if a.w < |s.phases| {
      var p := Next(s, a).phases[a.w];
      SumUpdate(s.phases, IsRefusing, a.w, p);
      assert Next(s, a).phases == s.phases[a.w := p];
    }
  }

  /** Mutual exclusion, and: refused calls are in the counter except those about to add themselves. */
  lemma {:induction false} RefusalsCounted(window: Window, workers: nat, acts: seq<Action>)
    ensures var s := Run(Quiet(window, workers), acts);
            Exclusive(s) && s.window.limited + SumOf(s.phases, IsRefusing) == window.limited + s.refused
  {
    if acts == [] {
      SumZero(Quiet(window, workers).phases, IsRefusing);
    } else {
      RefusalsCounted(window, workers, acts[..|acts| - 1]);
      var s, a := Run(Quiet(window, workers), acts[..|acts| - 1]), acts[|acts| - 1];
      StepKeepsExclusive(s, a);
      StepKeepsRefusals(s, a, window.limited);
    }
  }

  /** With nobody in a call, rejections equal the counter. */
  lemma {:induction false} QuietRefusals(window: Window, workers: nat, acts: seq<Action>)
    requires forall w :: 0 <= w < |Run(Quiet(window, workers), acts).phases| ==>
               Run(Quiet(window, workers), acts).phases[w] == Idle
    ensures Run(Quiet(window, workers), acts).window.limited == window.limited + Run(Quiet(window, workers), acts).refused
  {
    RefusalsCounted(window, workers, acts);
    SumZero(Run(Quiet(window, workers), acts).phases, IsRefusing);
  }

  // ----- calls that all read the same second

  /** What a worker about to open the window or to zero the count relies on. */
  ghost predicate MayReset(p: Phase, window: Window, resets: nat, second: nat) {
    && (!p.Idle? && !p.Refusing? ==> p.call.now == second)
    && (p.Opening? ==> resets == 0 && window.second != second)
    && (p.Zeroing? ==> resets == 0 && window.second == second)
  }

  /** One worker at most can reset the count, and only before the window shows the second. */
  ghost predicate OneReset(s: State, second: nat) {
    && Exclusive(s)
    && (s.resets == 0 || (s.resets == 1 && s.window.second == second))
    && (forall w :: 0 <= w < |s.phases| ==> MayReset(s.phases[w], s.window, s.resets, second))
  }

  lemma {:induction false} StepKeepsOneReset(s: State, a: Action, second: nat)
    requires OneReset(s, second) && (a.Start? && a.call.limit > 0 ==> a.call.now == second)
    ensures OneReset(Next(s, a), second)
  {
    StepKeepsExclusive(s, a);
    var s' := Next(s, a);
    forall w | 0 <= w < |s'.phases|
      ensures MayReset(s'.phases[w], s'.window, s'.resets, second)
    {
      assert w != a.w && InLock(s.phases[w]) && a.w < |s.phases| ==> !InLock(s.phases[a.w]);
    }
  }

  lemma {:induction false} SameSecondResetsOnce(window: Window, workers: nat, acts: seq<Action>, second: nat)
    requires forall k :: 0 <= k < |acts| && acts[k].Start? ==> acts[k].call.limit == 0 || acts[k].call.now == second
    ensures OneReset(Run(Quiet(window, workers), acts), second)
  {
    if acts != [] {
      SameSecondResetsOnce(window, workers, acts[..|acts| - 1], second);
      StepKeepsOneReset(Run(Quiet(window, workers), acts[..|acts| - 1]), acts[|acts| - 1], second);
    }
  }

  /** If all calls read the same second, at most twice the limit is admitted, whatever the window held before. */
  lemma {:induction false} SameSecondAdmitsTwice(window: Window, workers: nat, acts: seq<Action>, second: nat, limit: nat)
    requires forall k :: 0 <= k < |acts| && acts[k].Start? ==> acts[k].call == Call(second, limit)
    ensures Run(Quiet(window, workers), acts).admitted <= 2 * limit
  {
    AdmittedPerEpoch(window, workers, acts, limit);
    SameSecondResetsOnce(window, workers, acts, second);
    var s := Run(Quiet(window, workers), acts);
    assert s.resets + 1 == 1 || s.resets + 1 == 2;
  }

  lemma {:induction false} Extend(start: State, acts: seq<Action>, a: Action, expected: State) returns (more: seq<Action>)
    requires Next(Run(start, acts), a) == expected
    ensures more == acts + [a] && Run(start, more) == expected
  {
    more := acts + [a];
  }

  // ----- the worst case, exactly

  /** Every call that starts is of this second and this limit. */
  ghost predicate OnlyCalls(acts: seq<Action>, c: Call) {
    forall k :: 0 <= k < |acts| && acts[k].Start? ==> acts[k].call == c
  }

  /** What a limit leaves above a count. */
  function Spare(limit: nat, count: nat): nat {
    if limit > count then limit - count else 0
  }

  /**
   The most calls of one second any interleaving admits. A window of another
   second is reset once; while one worker stands between the window store and
   the count reset, others still take numbers on top of the old count.
   */
  function MostAdmitted(window: Window, workers: nat, c: Call): nat {
    if workers == 0 then 0
    else if window.second == c.now then Spare(c.limit, window.count)
    else if workers == 1 then c.limit
    else c.limit + Spare(c.limit, window.count)
  }

  /** Numbers go up from the start count before the reset and from 0 after it. */
  ghost predicate Numbered(s: State, window: Window, c: Call) {
    var base := if s.resets == 0 then window.count else 0;
    && base + s.epoch <= s.window.count
    && (s.epoch > 0 ==> base + s.epoch <= c.limit)
    && s.admitted <= (if s.resets == 0 then 0 else Spare(c.limit, window.count)) + s.epoch
  }

  lemma {:induction false} RunNumbered(window: Window, workers: nat, acts: seq<Action>, c: Call)
    requires OnlyCalls(acts, c)
    ensures OneReset(Run(Quiet(window, workers), acts), c.now) && Numbered(Run(Quiet(window, workers), acts), window, c)
  {
    SameSecondResetsOnce(window, workers, acts, c.now);
    if acts != [] {
      var before := acts[..|acts| - 1];
      RunNumbered(window, workers, before, c);
      RunKeepsBounds(window, workers, before, c.limit);
    }
  }

  predicate Short(p: Phase) {
    p.Idle? || p.Taking? || p.Refusing?
  }

  /** A window that already shows the second is never reset. */
  lemma {:induction false} NoResetInSecond(window: Window, workers: nat, acts: seq<Action>, c: Call)
    requires OnlyCalls(acts, c) && window.second == c.now
    ensures var s := Run(Quiet(window, workers), acts);
            s.window.second == c.now && s.resets == 0 && forall w :: 0 <= w < |s.phases| ==> Short(s.phases[w])
  {
    if acts != [] {
      NoResetInSecond(window, workers, acts[..|acts| - 1], c);
    }
  }

  predicate BeforeReset(p: Phase) {
    p.Locking? || p.Retesting? || p.Opening? || p.Zeroing?
  }

  /** One worker alone admits nothing before its reset, and takes numbers only in the second. */
  ghost predicate ResetsFirst(s: State, c: Call) {
    && |s.phases| == 1 && s.admitted <= s.epoch
    && (s.window.second != c.now || BeforeReset(s.phases[0]) ==> s.admitted == 0)
    && (s.phases[0].Unlocking? || s.phases[0].Taking? ==> s.window.second == c.now)
  }

  lemma {:induction false} OneWorkerResetsFirst(window: Window, acts: seq<Action>, c: Call)
    requires OnlyCalls(acts, c) && window.second != c.now
    ensures ResetsFirst(Run(Quiet(window, 1), acts), c)
  {
    if acts != [] {
      var before := acts[..|acts| - 1];
      OneWorkerResetsFirst(window, before, c);
      SameSecondResetsOnce(window, 1, before, c.now);
    }
  }

  lemma {:induction false} NobodyAdmits(window: Window, acts: seq<Action>)
    ensures Run(Quiet(window, 0), acts) == Quiet(window, 0)
  {
    if acts != [] {
      NobodyAdmits(window, acts[..|acts| - 1]);
    }
  }

  lemma {:induction false} NeverMore(window: Window, workers: nat, acts: seq<Action>, c: Call)
    requires OnlyCalls(acts, c)
    ensures Run(Quiet(window, workers), acts).admitted <= MostAdmitted(window, workers, c)
  {
    RunNumbered(window, workers, acts, c);
    if workers == 0 {
      NobodyAdmits(window, acts);
    } else if window.second == c.now {
      NoResetInSecond(window, workers, acts, c);
    } else if workers == 1 {
      OneWorkerResetsFirst(window, acts, c);
    }
  }

  /** A worker that makes n calls in a row while the window shows their second. */
  lemma {:induction false} TakeMany(start: State, acts: seq<Action>, w: nat, c: Call, n: nat) returns (more: seq<Action>)
    requires OnlyCalls(acts, c)
    requires var s := Run(start, acts);
             w < |s.phases| && s.phases[w].Idle? && s.window.second == c.now && (n > 0 ==> s.window.count + n <= c.limit)
    ensures OnlyCalls(more, c)
    ensures var s := Run(start, acts);
            Run(start, more) == s.(window := s.window.(count := s.window.count + n),
                                   epoch := s.epoch + n, admitted := s.admitted + n)
  {
    more := acts;
    if n > 0 {
      more := TakeMany(start, acts, w, c, n - 1);
      var s := Run(start, more);
      more := Extend(start, more, Start(w, c), To(s, w, Taking(c)));
      assert s.phases[w := Taking(c)][w := Idle] == s.phases;
      more := Extend(start, more, GoOn(w), s.(window := s.window.(count := s.window.count + 1),
                                              epoch := s.epoch + 1, admitted := s.admitted + 1));
    }
  }

  /** Worker 0 up to the point between the window store and the count reset. */
  lemma {:induction false} ReachZeroing(window: Window, workers: nat, c: Call) returns (acts: seq<Action>)
    requires workers >= 1 && c.limit > 0 && window.second != c.now
    ensures OnlyCalls(acts, c)
    ensures Run(Quiet(window, workers), acts) ==
            To(Quiet(window, workers), 0, Zeroing(c)).(window := window.(second := c.now), lock := Held(0))
  {
    var q := Quiet(window, workers);
    acts := Extend(q, [], Start(0, c), To(q, 0, Locking(c)));
    acts := Extend(q, acts, GoOn(0), To(q, 0, Retesting(c)).(lock := Held(0)));
    acts := Extend(q, acts, GoOn(0), To(q, 0, Opening(c)).(lock := Held(0)));
    acts := Extend(q, acts, GoOn(0), To(q, 0, Zeroing(c)).(window := window.(second := c.now), lock := Held(0)));
  }

  /** Worker 0 resets the count, leaves the lock and takes the first number. */
  lemma {:induction false} FinishReset(start: State, acts: seq<Action>, c: Call) returns (more: seq<Action>)
    requires OnlyCalls(acts, c) && c.limit > 0
    requires var s := Run(start, acts); s.phases != [] && s.phases[0] == Zeroing(c)
    ensures OnlyCalls(more, c)
    ensures var s := Run(start, acts);
            Run(start, more) == To(s, 0, Idle).(window := s.window.(count := 1), lock := Free,
                                                resets := s.resets + 1, epoch := 1, admitted := s.admitted + 1)
  {
    var s := Run(start, acts);
    var zeroed := s.(window := s.window.(count := 0), resets := s.resets + 1, epoch := 0);
    more := Extend(start, acts, GoOn(0), To(zeroed, 0, Unlocking(c)));
    more := Extend(start, more, GoOn(0), To(zeroed, 0, Taking(c)).(lock := Free));
    more := Extend(start, more, GoOn(0), To(s, 0, Idle).(window := s.window.(count := 1), lock := Free,
                                                         resets := s.resets + 1, epoch := 1, admitted := s.admitted + 1));
  }

  lemma {:induction false} MostIsReached(window: Window, workers: nat, c: Call) returns (acts: seq<Action>)
    ensures OnlyCalls(acts, c)
    ensures Run(Quiet(window, workers), acts).admitted == MostAdmitted(window, workers, c)
  {
    var q := Quiet(window, workers);
    acts := [];
    if workers == 0 || c.limit == 0 {
    } else if window.second == c.now {
      acts := TakeMany(q, [], 0, c, Spare(c.limit, window.count));
    } else {
      acts := ReachZeroing(window, workers, c);
      if workers > 1 {
        acts := TakeMany(q, acts, 1, c, Spare(c.limit, window.count));
      }
      acts := FinishReset(q, acts, c);
      acts := TakeMany(q, acts, 0, c, c.limit - 1);
    }
  }

  /**
   Calls that all read one second stay within the limit in every interleaving
   if and only if the window already shows the second, or there is only one
   worker, or the old count is at the limit anyway.
   */
  lemma {:induction false} LimitHoldsIff(window: Window, workers: nat, c: Call)
    ensures (forall acts :: OnlyCalls(acts, c) ==> Run(Quiet(window, workers), acts).admitted <= c.limit) <==>
            window.second == c.now || workers <= 1 || c.limit <= window.count
  {
    forall acts | OnlyCalls(acts, c)
      ensures Run(Quiet(window, workers), acts).admitted <= MostAdmitted(window, workers, c)
    {
      NeverMore(window, workers, acts, c);
    }
    var worst := MostIsReached(window, workers, c);
    assert OnlyCalls(worst, c);
  }

  /** An old count that has reached the limit refuses whoever comes between the window store and the count reset. */
  lemma {:induction false} FullWindowProtects(window: Window, workers: nat, acts: seq<Action>, c: Call)
    requires OnlyCalls(acts, c) && c.limit <= window.count
    ensures Run(Quiet(window, workers), acts).admitted <= c.limit
  {
    NeverMore(window, workers, acts, c);
  }

  /** From an old window with nothing counted, two workers are enough for twice any limit. */
  lemma {:induction false} TwiceIsReached(window: Window, workers: nat, c: Call) returns (acts: seq<Action>)
    requires window.second != c.now && window.count == 0 && workers >= 2
    ensures OnlyCalls(acts, c) && Run(Quiet(window, workers), acts).admitted == 2 * c.limit
  {
    acts := MostIsReached(window, workers, c);
  }

  // ----- the steps against the whole call

  function Steps(s: State, w: nat, n: nat): State
    requires w < |s.phases|
  {
    if n == 0 then s else
    var s' := Steps(s, w, n - 1);
    if w < |s'.phases| then Step(s', w) else s'
  }

  /** A call that runs its steps without interference has the effect of the whole call. */
  lemma {:induction false} SoloCallIsCheck(s: State, w: nat, c: Call)
    requires w < |s.phases| && s.phases[w] == Idle && s.lock == Free
    ensures exists n: nat :: n <= 7 &&
              var s' := Steps(Next(s, Start(w, c)), w, n);
              && s'.window == After(s.window, c) && s'.lock == Free && s'.phases == s.phases
              && s'.admitted - s.admitted == (if c.limit > 0 && Admits(s.window, c) then 1 else 0)
  {
    var s1 := Next(s, Start(w, c));
    if c.limit == 0 {
      assert Steps(s1, w, 0).phases == s.phases;
    } else {
      var taken := if s.window.second == c.now then s1 else Steps(s1, w, 5);
      if s.window.second != c.now {
        assert Steps(s1, w, 1) == To(s, w, Retesting(c)).(lock := Held(w));
        assert Steps(s1, w, 2) == To(s, w, Opening(c)).(lock := Held(w));
        assert Steps(s1, w, 3).phases[w] == Zeroing(c);
        assert Steps(s1, w, 4).phases[w] == Unlocking(c);
        assert taken.phases == s.phases[w := Taking(c)];
      }
      var n := if s.window.second == c.now then 0 else 5;
      assert taken == Steps(s1, w, n);
      var done := Steps(s1, w, n + 1);
      assert done == Step(taken, w);
      if Admits(s.window, c) {
        assert done.phases == s.phases[w := Idle] == s.phases;
      } else {
        assert Steps(s1, w, n + 2) == Step(done, w);
        assert Steps(s1, w, n + 2).phases == s.phases[w := Idle] == s.phases;
      }
    }
  }
}
