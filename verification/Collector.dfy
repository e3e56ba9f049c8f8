/**
 Election of the collector: every worker's timer tries to set `collector_lock`
 from 0 to its own pid; the winner makes a pass, bumps `generation` with a plain
 load and store, and clears the lock.
 */
module Collector {
  import Sampling

  type Pid = p: nat | p > 0 witness 1

  datatype Phase =
    | Outside
    | InPass
    | Bumping(seen: nat)
    | Bumped

  datatype State = State(lock: nat, generation: nat, phases: map<Pid, Phase>)

  /** `Try` is the compare-and-set; the other actions are the winner's loads and stores. */
  datatype Action = Try(p: Pid) | LoadGeneration(p: Pid) | StoreGeneration(p: Pid) | Release(p: Pid)

  function Init(workers: set<Pid>): State {
    State(0, 1, map p | p in workers :: Outside)
  }

  predicate Enabled(s: State, a: Action) {
    && a.p in s.phases
    && match a
       case Try(p) => s.phases[p].Outside? && s.lock == 0
       case LoadGeneration(p) => s.phases[p].InPass?
       case StoreGeneration(p) => s.phases[p].Bumping?
       case Release(p) => s.phases[p].Bumped?
  }

  function Next(s: State, a: Action): State {
    if !Enabled(s, a) then s else
    match a
    case Try(p) => s.(lock := p, phases := s.phases[p := InPass])
    case LoadGeneration(p) => s.(phases := s.phases[p := Bumping(s.generation)])
    case StoreGeneration(p) => s.(generation := s.phases[p].seen + 1, phases := s.phases[p := Bumped])
    case Release(p) => s.(lock := 0, phases := s.phases[p := Outside])
  }

  function Run(workers: set<Pid>, acts: seq<Action>): State {
    if acts == [] then Init(workers) else Next(Run(workers, acts[..|acts| - 1]), acts[|acts| - 1])
  }

  /** How many generation bumps completed over a run. */
  function Bumps(workers: set<Pid>, acts: seq<Action>): nat {
    if acts == [] then 0 else
    var before := acts[..|acts| - 1];
    var a := acts[|acts| - 1];
    Bumps(workers, before) + if a.StoreGeneration? && Enabled(Run(workers, before), a) then 1 else 0
  }

  /** The lock names the one worker that is inside a pass, and nobody is inside while it is 0. */
  ghost predicate Exclusive(s: State) {
    && (s.lock != 0 ==> s.lock in s.phases)
    && forall p: Pid :: p in s.phases ==> (!s.phases[p].Outside? <==> s.lock == p)
  }

  ghost predicate Inv(s: State) {
    && Exclusive(s)
    && forall p: Pid :: p in s.phases && s.phases[p].Bumping? ==> s.phases[p].seen == s.generation
  }

  lemma {:induction false} StepKeepsInv(s: State, a: Action)
    requires Inv(s)
    ensures Inv(Next(s, a))
  {
  }

  /**
   In every run of any set of workers: at most one is ever inside a pass, the
   lock holds exactly its pid, and the generation counts the completed bumps,
   none of them lost, although a bump is a separate load and store.
   */
  lemma {:induction false} OneCollector(workers: set<Pid>, acts: seq<Action>)
    ensures var s := Run(workers, acts);
            && Inv(s)
            && (forall p: Pid, q: Pid ::
                  p in s.phases && q in s.phases && !s.phases[p].Outside? && !s.phases[q].Outside? ==> p == q)
            && s.generation == 1 + Bumps(workers, acts)
  {
    if acts != [] {
      OneCollector(workers, acts[..|acts| - 1]);
      StepKeepsInv(Run(workers, acts[..|acts| - 1]), acts[|acts| - 1]);
    }
  }

  /** The steps of one pass without interruption: the generation goes up by one and everything else is as before. */
  lemma {:induction false} PassAlone(s: State, p: Pid)
    requires s.lock == 0 && p in s.phases && s.phases[p].Outside?
    ensures Next(Next(Next(Next(s, Try(p)), LoadGeneration(p)), StoreGeneration(p)), Release(p)) ==
            s.(generation := s.generation + 1)
  {
    var phases := s.phases[p := InPass][p := Bumping(s.generation)][p := Bumped][p := Outside];
    assert phases == s.phases;
  }

  class Zone {
    var lock: nat
    var generation: nat
    const history: Sampling.History

    ghost predicate Ready()
      reads history, history.slots
    {
      history.Ready()
    }

    constructor (retention: nat, resolution: nat)
      ensures Ready() && fresh(history) && fresh(history.slots)
      ensures lock == 0 && generation == 1
    {
      history := new Sampling.History(retention, resolution);
      lock, generation := 0, 1;
    }

    /**
     One timer of a worker that nobody interrupts; `won` says whether it made
     the pass, which takes a history sample if one is due.
     */
    method Collect(p: Pid, pass: Sampling.Pass) returns (won: bool)
      requires Ready()
      modifies this, history, history.slots
      ensures Ready() && history.slots == old(history.slots)
      ensures won <==> old(lock) == 0
      ensures lock == old(lock) && generation == old(generation) + if won then 1 else 0
      ensures history.Now() == if won then Sampling.Collect(old(history.Now()), pass) else old(history.Now())
    {
      won := false;
      if lock == 0 {
        lock := p;
        won := true;
        history.CollectHistory(pass);
        generation := generation + 1;
        lock := 0;
      }
    }
  }
}
