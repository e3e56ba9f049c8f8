/**
 Which event-stream clients go on writing: the timer of an open client, and the
 buffer that waits for a drain.
 */
module SseTimers {
  import opened SseClients

  lemma {:induction false} RunNext(acts: seq<Action>, a: Action)
    ensures Run(acts + [a]) == Next(Run(acts), a)
  {
    assert (acts + [a])[..|acts|] == acts;
  }

  // ----- the timer

  /** The action makes the handler give the request up: a full buffer, a failed output call, or a connection error. */
  predicate GivesUp(k: Client, a: Action) {
    || (a.Fill? && !a.fits && k.phase.Filling?)
    || (a.Send? && a.output.Failed? && k.phase.Sending?)
    || (a.Tick? && a.error && k.phase.Waiting? && k.timer)
  }

  /** Some handler of client c gave the request up. */
  predicate GivenUp(acts: seq<Action>, c: nat) {
    acts != [] && (
      var before, a := acts[..|acts| - 1], acts[|acts| - 1];
      || GivenUp(before, c)
      || (!a.Open? && a.c == c < |Run(before).table| && GivesUp(Run(before).table[c], a)))
  }

  /** Between handlers an open client has its timer set unless its request was given up. */
  ghost predicate TimerRight(k: Client, givenUp: bool) {
    k.closed || (if k.phase.Waiting? then k.timer <==> !givenUp else !givenUp)
  }

  lemma {:induction false} ActedTimerRight(k: Client, a: Action, clients: nat, givenUp: bool)
    requires Sound(k) && TimerRight(k, givenUp)
    ensures TimerRight(Acted(k, a, clients), givenUp || GivesUp(k, a))
  {
  }

  lemma {:induction false} OpenedLast(acts: seq<Action>, c: nat)
    requires c >= |Run(acts).table|
    ensures !GivenUp(acts, c)
  {
    if acts != [] {
      OpenedLast(acts[..|acts| - 1], c);
    }
  }

  /**
   In every interleaving: an open client between two handlers has its timer
   set if and only if no handler of it has given the request up.
   */
  lemma {:induction false} TimersRight(acts: seq<Action>, c: nat)
    requires c < |Run(acts).table|
    ensures TimerRight(Run(acts).table[c], GivenUp(acts, c))
  {
    var before, a := acts[..|acts| - 1], acts[|acts| - 1];
    var s := Run(before);
    if c >= |s.table| {
      OpenedLast(before, c);
    } else {
      TimersRight(before, c);
      RunSound(before);
      if !a.Open? && a.c == c {
        ActedTimerRight(s.table[c], a, s.clients, GivenUp(before, c));
      }
    }
  }

  // ----- an open client goes on writing

  lemma {:induction false} RunActs(acts: seq<Action>, c: nat, a: Action, k: Client)
    requires c < |Run(acts).table| && !a.Open? && a.c == c && Acted(Run(acts).table[c], a, Run(acts).clients) == k
    ensures c < |Run(acts + [a]).table| && Run(acts + [a]).table[c] == k
  {
    RunNext(acts, a);
  }

  /** A tick that finds data buffered changes nothing: the timer stays set. */
  lemma {:induction false} BufferedTickWaits(acts: seq<Action>, c: nat)
    requires c < |Run(acts).table| && Run(acts).table[c].phase.Waiting? && !Run(acts).table[c].closed
    requires Run(acts).table[c].buffered
    ensures Run(acts + [Tick(c, false)]) == Run(acts)
  {
    RunNext(acts, Tick(c, false));
  }

  lemma {:induction false} TickStarts(acts: seq<Action>, c: nat, k: Client)
    requires c < |Run(acts).table| && Run(acts).table[c] == k && k.phase.Waiting? && !k.closed && k.timer
    ensures var after := acts + [Drain(c)] + [Tick(c, false)];
            c < |Run(after).table| && Run(after).table[c] == k.(buffered := false, pending := {}, timer := false, phase := Flipping)
  {
    RunActs(acts, c, Drain(c), k.(buffered := false, pending := {}));
    RunActs(acts + [Drain(c)], c, Tick(c, false), k.(buffered := false, pending := {}, timer := false, phase := Flipping));
  }

  lemma {:induction false} WriteSends(acts: seq<Action>, c: nat, k: Client, stays: bool)
    requires c < |Run(acts).table| && Run(acts).table[c] == k && k.phase.Flipping? && !k.buffered && k.pending == {}
    ensures var after := acts + [GoOn(c)] + [Fill(c, true)] + [Send(c, Accepted(stays))];
            c < |Run(after).table| && Run(after).table[c] ==
              k.(phase := Reporting, slot := 1 - k.slot, filled := k.sequence, sent := k.sent + [k.sequence],
                 buffered := stays, pending := if stays then {1 - k.slot} else {})
  {
    var filling := k.(phase := Filling, slot := 1 - k.slot);
    RunActs(acts, c, GoOn(c), filling);
    RunActs(acts + [GoOn(c)], c, Fill(c, true), filling.(phase := Sending, filled := k.sequence));
    RunActs(acts + [GoOn(c)] + [Fill(c, true)], c, Send(c, Accepted(stays)),
            Delivered(filling.(phase := Sending, filled := k.sequence), Accepted(stays)));
  }

  lemma {:induction false} ReportEnds(acts: seq<Action>, c: nat, k: Client)
    requires c < |Run(acts).table| && Run(acts).table[c] == k && k.phase.Reporting?
    ensures var after := acts + [GoOn(c)] + [GoOn(c)];
            c < |Run(after).table| && Run(after).table[c] == k.(phase := Waiting, sequence := k.sequence + 1, timer := true)
  {
    RunActs(acts, c, GoOn(c), k.(phase := Advancing));
    RunActs(acts + [GoOn(c)], c, GoOn(c), k.(phase := Waiting, sequence := k.sequence + 1, timer := true));
  }

  /**
   After a drain, the next tick of an open client whose request was not given up
   writes: if the write succeeds, the client has sent one more event under its
   next id from its other buffer, that buffer is pending exactly if the data
   stayed, and the timer is set again.
   */
  lemma {:induction false} OpenClientWrites(acts: seq<Action>, c: nat, stays: bool) returns (after: seq<Action>)
    requires c < |Run(acts).table| && Run(acts).table[c].phase.Waiting? && !Run(acts).table[c].closed
    requires !GivenUp(acts, c)
    ensures after == acts + [Drain(c)] + [Tick(c, false)]
                     + [GoOn(c)] + [Fill(c, true)] + [Send(c, Accepted(stays))] + [GoOn(c)] + [GoOn(c)]
    ensures var k := Run(acts).table[c];
            c < |Run(after).table| && Run(after).table[c] ==
              Client(Waiting, false, true, 1 - k.slot, k.sequence + 1, stays, if stays then {1 - k.slot} else {},
                     k.sequence, k.sent + [k.sequence])
  {
    TimersRight(acts, c);
    var k := Run(acts).table[c];
    TickStarts(acts, c, k);
    after := acts + [Drain(c)] + [Tick(c, false)];
    WriteSends(after, c, Run(after).table[c], stays);
    after := after + [GoOn(c)] + [Fill(c, true)] + [Send(c, Accepted(stays))];
    ReportEnds(after, c, Run(after).table[c]);
    after := after + [GoOn(c)] + [GoOn(c)];
  }

  // ----- a pending buffer

  /** The buffer and what was sent are as before, and no write is on its way. */
  ghost predicate Holds(k: Client, k': Client) {
    k'.pending == k.pending && k'.buffered && k'.slot == k.slot && k'.sent == k.sent && !Writing(k'.phase)
  }

  lemma {:induction false} ActedHolds(k: Client, a: Action, clients: nat)
    requires Sound(k) && k.pending != {} && !a.Drain?
    ensures Holds(k, Acted(k, a, clients))
  {
  }

  lemma {:induction false} NextHolds(s: State, a: Action, c: nat)
    requires AllSound(s) && c < |s.table| && s.table[c].pending != {} && a != Drain(c)
    ensures c < |Next(s, a).table| && Holds(s.table[c], Next(s, a).table[c])
  {
    if !a.Open? && a.c == c {
      ActedHolds(s.table[c], a, s.clients);
    }
  }

  /** Until its next drain a client with a pending buffer keeps it, begins no write and sends nothing. */
  lemma {:induction false} PendingUntilDrained(acts: seq<Action>, more: seq<Action>, c: nat)
    requires c < |Run(acts).table| && Run(acts).table[c].pending != {}
    requires Drain(c) !in more
    ensures c < |Run(acts + more).table| && Holds(Run(acts).table[c], Run(acts + more).table[c])
  {
    if more == [] {
      assert acts + more == acts;
      RunSound(acts);
    } else {
      var before, a := more[..|more| - 1], more[|more| - 1];
      PendingUntilDrained(acts, before, c);
      assert acts + more == acts + before + [a];
      RunNext(acts + before, a);
      RunSound(acts + before);
      NextHolds(Run(acts + before), a, c);
    }
  }
}
