/**
 The handlers of one server-sent-event client as the code runs them. Each is
 the uninterrupted run of that client's steps; a step that its branches skip is
 not enabled and changes nothing.
 */
module SseHandlers {
  import opened SseClients

  /** `sse_write` from the flip of the buffer on, and the timer set again if it succeeded. */
  function Written(s: State, c: nat, fits: bool, output: Output): State {
    Next(Next(Next(Next(Next(s, GoOn(c)), Fill(c, fits)), Send(c, output)), GoOn(c)), GoOn(c))
  }

  /** `send_sse` from the registration on. */
  function Started(s: State, c: nat, fits: bool, output: Output): State {
    Written(Next(s, GoOn(c)), c, fits, output)
  }

  function TimerRan(s: State, c: nat, error: bool, fits: bool, output: Output): State {
    Written(Next(s, Tick(c, error)), c, fits, output)
  }

  function CleanupRan(s: State, c: nat): State {
    Next(Next(Next(s, Cleanup(c)), GoOn(c)), GoOn(c))
  }

  function TimerOff(s: State): State
    requires |s.table| == 1
  {
    s.(table := [s.table[0].(timer := false)])
  }

  function Flipped(k: Client): Client {
    k.(phase := Waiting, slot := 1 - k.slot, filled := k.sequence)
  }

  function Reported(k: Client, stays: bool): Client {
    var f := Flipped(k);
    f.(sent := k.sent + [k.sequence], buffered := k.buffered || stays,
       pending := if k.buffered || stays then k.pending + {f.slot} else k.pending,
       sequence := k.sequence + 1, timer := true)
  }

  lemma {:induction false} OneStep(clients: nat, events: nat, k: Client, a: Action)
    requires !a.Open? && a.c == 0
    ensures var s := Next(State(clients, events, [k]), a);
            && s.table == [Acted(k, a, clients)]
            && (a.GoOn? || (s.clients == clients && s.events == events))
            && (a.GoOn? && !k.phase.Registered? && !k.phase.Dropping? ==> s.clients == clients)
            && (a.GoOn? ==> s.events == if k.phase.Reporting? then events + 1 else events)
  {
    assert [k][0 := Acted(k, a, clients)] == [Acted(k, a, clients)];
  }

  /** The three ways a write ends. */
  lemma {:induction false} WriteEnds(clients: nat, events: nat, k: Client, fits: bool, output: Output)
    requires k.phase.Flipping? && !k.timer
    ensures Written(State(clients, events, [k]), 0, fits, output) ==
            if fits && output.Accepted? then State(clients, events + 1, [Reported(k, output.stays)])
            else State(clients, events, [Flipped(k)])
  {
    OneStep(clients, events, k, GoOn(0));
    var k1 := k.(phase := Filling, slot := 1 - k.slot);
    OneStep(clients, events, k1, Fill(0, fits));
    var k2 := Filled(k1, fits);
    OneStep(clients, events, k2, Send(0, output));
    var k3 := Delivered(k2, output);
    OneStep(clients, events, k3, GoOn(0));
    var k4 := Stepped(k3, clients);
    OneStep(clients, if k3.phase.Reporting? then events + 1 else events, k4, GoOn(0));
  }

  lemma {:induction false} NoWrite(clients: nat, events: nat, k: Client, fits: bool, output: Output)
    requires k.phase.Waiting?
    ensures Written(State(clients, events, [k]), 0, fits, output) == State(clients, events, [k])
  {
    OneStep(clients, events, k, GoOn(0));
    OneStep(clients, events, k, Fill(0, fits));
    OneStep(clients, events, k, Send(0, output));
  }

  /** The counters all clients share. */
  class Hub {
    var clients: nat
    var events: nat

    constructor ()
      ensures clients == 0 && events == 0
    {
      clients, events := 0, 0;
    }
  }

  class Handler {
    const hub: Hub
    var closed: bool
    var timer: bool
    var slot: Buffer
    var sequence: nat
    var buffered: bool
    ghost var phase: Phase
    ghost var pending: set<Buffer>
    ghost var filled: nat
    ghost var sent: seq<nat>

    ghost function Mine(): Client
      reads this
    {
      Client(phase, closed, timer, slot, sequence, buffered, pending, filled, sent)
    }

    /** The shared counters and this client, as a system of one. */
    ghost function Now(): State
      reads this, hub
    {
      State(hub.clients, hub.events, [Mine()])
    }

    constructor (hub: Hub, headerBuffered: bool)
      ensures this.hub == hub && Mine() == Opened(headerBuffered)
    {
      this.hub := hub;
      closed, timer, slot, sequence, buffered := false, false, 0, 0, headerBuffered;
      phase, pending, filled, sent := Registered, {}, 0, [];
    }

    /** Writes one event into the other buffer and hands it to the output filter. */
    method Write(fits: bool, output: Output) returns (ok: bool)
      requires phase.Flipping? && !timer
      modifies this, hub`events
      ensures var s := Written(old(Now()), 0, fits, output);
              |s.table| == 1 && Now() == TimerOff(s) && ok == s.table[0].timer
    {
      WriteEnds(hub.clients, hub.events, Mine(), fits, output);
      slot := 1 - slot;
      filled := sequence;
      phase := Waiting;
      if !fits {
        return false;
      }
      if output.Failed? {
        return false;
      }
      sent := sent + [filled];
      buffered := buffered || output.stays;
      if buffered {
        pending := pending + {slot};
      }
      hub.events := hub.events + 1;
      sequence := sequence + 1;
      return true;
    }

    method Start(fits: bool, output: Output)
      requires phase.Registered? && !timer
      modifies this, hub
      ensures Now() == Started(old(Now()), 0, fits, output)
    {
      hub.clients := hub.clients + 1;
      phase := Flipping;
      assert Now() == Next(old(Now()), GoOn(0));
      var ok := Write(fits, output);
      if !ok {
        return;
      }
      timer := true;
    }

    /** The timer event, which is no longer set when its handler runs. */
    method OnTimer(error: bool, fits: bool, output: Output)
      requires phase.Waiting? && timer
      modifies this, hub`events
      ensures Now() == TimerRan(old(Now()), 0, error, fits, output)
    {
      OneStep(hub.clients, hub.events, Mine(), Tick(0, error));
      timer := false;
      if closed || error {
        NoWrite(hub.clients, hub.events, Mine(), fits, output);
        return;
      }
      if buffered {
        timer := true;
        NoWrite(hub.clients, hub.events, Mine(), fits, output);
        return;
      }
      phase := Flipping;
      WriteEnds(hub.clients, hub.events, Mine(), fits, output);
      var ok := Write(fits, output);
      if !ok {
        return;
      }
      timer := true;
    }

    method OnCleanup()
      requires phase.Waiting? || (phase.Gone? && closed)
      modifies this, hub`clients
      ensures Now() == CleanupRan(old(Now()), 0)
    {
      if closed {
        return;
      }
      closed := true;
      if timer {
        timer := false;
      }
      if hub.clients > 0 {
        hub.clients := hub.clients - 1;
      }
      phase := Gone;
    }
  }
}
