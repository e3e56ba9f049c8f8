/**
 The life cycle of server-sent-event clients: each request registers a client,
 writes one event at once and one per timer tick into two alternating buffers,
 and unregisters in its pool cleanup. Clients live in different workers, so
 their updates of the shared counters interleave.
 */
module SseClients {
  import opened Tally

  /** Where a client's handler stands; `Waiting` is between handlers, `Gone` is after the cleanup. */
  datatype Phase =
    | Registered
    | Flipping
    | Filling
    | Sending
    | Reporting
    | Advancing
    | Waiting
    | Closing
    | Dropping
    | Gone

  type Buffer = b: nat | b < 2

  /**
   `pending` holds the buffers handed to the output filter and not yet drained,
   `buffered` is the connection's flag, `filled` the event id in the buffer being
   written, and `sent` the ids the output filter accepted.
   */
  datatype Client = Client(
    phase: Phase, closed: bool, timer: bool, slot: Buffer, sequence: nat,
    buffered: bool, pending: set<Buffer>, filled: nat, sent: seq<nat>)

  datatype State = State(clients: nat, events: nat, table: seq<Client>)

  /** What the environment decides: how an output call ends, and whether the data stayed buffered. */
  datatype Output = Failed | Accepted(stays: bool)

  datatype Action =
    | Open(headerBuffered: bool)
    | GoOn(c: nat)
    | Fill(c: nat, fits: bool)
    | Send(c: nat, output: Output)
    | Drain(c: nat)
    | Tick(c: nat, error: bool)
    | Cleanup(c: nat)

  const NONE: State := State(0, 0, [])

  function Opened(headerBuffered: bool): Client {
    Client(Registered, false, false, 0, 0, headerBuffered, {}, 0, [])
  }

  // What each action does to its client; a client that is not at that point stays as it is.

  /** The unconditional next step of a handler. `clients` is the shared count the cleanup tests. */
  function Stepped(k: Client, clients: nat): Client {
    match k.phase
    case Registered => k.(phase := Flipping)
    case Flipping => k.(phase := Filling, slot := 1 - k.slot)
    case Reporting => k.(phase := Advancing)
    case Advancing => k.(phase := Waiting, sequence := k.sequence + 1, timer := true)
    case Closing => k.(phase := if clients > 0 then Dropping else Gone)
    case Dropping => k.(phase := Gone)
    case _ => k
  }

  /** A payload that fills the buffer ends the write with an error; no timer is set again. */
  function Filled(k: Client, fits: bool): Client {
    if k.phase.Filling? then k.(phase := if fits then Sending else Waiting, filled := k.sequence) else k
  }

  function Delivered(k: Client, output: Output): Client {
    if !k.phase.Sending? then k else
    match output
    case Failed => k.(phase := Waiting)
    case Accepted(stays) =>
      k.(phase := Reporting, sent := k.sent + [k.filled], buffered := k.buffered || stays,
         pending := if k.buffered || stays then k.pending + {k.slot} else k.pending)
  }

  function Ticked(k: Client, error: bool): Client {
    if !k.phase.Waiting? || !k.timer then k
    else if k.closed || error then k.(timer := false)
    else if k.buffered then k
    else k.(timer := false, phase := Flipping)
  }

  function CleanedUp(k: Client): Client {
    if k.phase.Waiting? && !k.closed then k.(phase := Closing, closed := true, timer := false) else k
  }

  function Acted(k: Client, a: Action, clients: nat): Client {
    match a
    case Open(_) => k
    case GoOn(_) => Stepped(k, clients)
    case Fill(_, fits) => Filled(k, fits)
    case Send(_, output) => Delivered(k, output)
    case Drain(_) => k.(buffered := false, pending := {})
    case Tick(_, error) => Ticked(k, error)
    case Cleanup(_) => CleanedUp(k)
  }

  function Next(s: State, a: Action): State {
    if a.Open? then s.(table := s.table + [Opened(a.headerBuffered)])
    else if a.c >= |s.table| then s
    else
      var k := s.table[a.c];
      var table := s.table[a.c := Acted(k, a, s.clients)];
      if a.GoOn? && k.phase.Registered? then State(s.clients + 1, s.events, table)
      else if a.GoOn? && k.phase.Dropping? then State(if s.clients > 0 then s.clients - 1 else 0, s.events, table)
      else if a.GoOn? && k.phase.Reporting? then State(s.clients, s.events + 1, table)
      else State(s.clients, s.events, table)
  }

  function Run(acts: seq<Action>): State {
    if acts == [] then NONE else Next(Run(acts[..|acts| - 1]), acts[|acts| - 1])
  }

  // ----- the shared counters

  /** 1 while the client is counted: after its increment and before its decrement. */
  function Counted(k: Client): nat {
    if k.phase.Registered? || k.phase.Gone? then 0 else 1
  }

  function SequenceOf(k: Client): nat { k.sequence }

  /** 1 between the two updates after an accepted event. */
  function IsAdvancing(k: Client): nat { if k.phase.Advancing? then 1 else 0 }

  ghost predicate Tallied(s: State) {
    && s.clients == SumOf(s.table, Counted)
    && s.events == SumOf(s.table, SequenceOf) + SumOf(s.table, IsAdvancing)
  }

  lemma {:induction false} SetTallied(s: State, c: nat, k: Client, clients: nat, events: nat)
    requires Tallied(s) && c < |s.table|
    requires clients + Counted(s.table[c]) == s.clients + Counted(k)
    requires events + s.table[c].sequence + IsAdvancing(s.table[c]) == s.events + k.sequence + IsAdvancing(k)
    ensures Tallied(State(clients, events, s.table[c := k]))
  {
    SumUpdate(s.table, Counted, c, k);
    SumUpdate(s.table, SequenceOf, c, k);
    SumUpdate(s.table, IsAdvancing, c, k);
  }

  /** A client that is counted keeps the shared count positive, so the guarded decrement always runs and never underflows. */
  lemma {:induction false} CountedIsPositive(s: State, c: nat)
    requires Tallied(s) && c < |s.table| && Counted(s.table[c]) == 1
    ensures s.clients > 0
  {
    SumAtLeast(s.table, Counted, c);
  }

  lemma {:induction false} NextTallied(s: State, a: Action)
    requires Tallied(s)
    ensures Tallied(Next(s, a))
  {
    var s' := Next(s, a);
    if a.Open? {
      SumAppend(s.table, Counted, Opened(a.headerBuffered));
      SumAppend(s.table, SequenceOf, Opened(a.headerBuffered));
      SumAppend(s.table, IsAdvancing, Opened(a.headerBuffered));
    } else if a.c < |s.table| {
      if s.table[a.c].phase.Closing? || s.table[a.c].phase.Dropping? {
        CountedIsPositive(s, a.c);
      }
      SetTallied(s, a.c, s'.table[a.c], s'.clients, s'.events);
    }
  }

  /**
   In every interleaving `sse_clients` is the number of clients counted and not
   yet uncounted, and `sse_events` is the sum of the client sequences plus the
   clients between the two updates.
   */
  lemma {:induction false} CountersExact(acts: seq<Action>)
    ensures Tallied(Run(acts))
  {
    if acts != [] {
      CountersExact(acts[..|acts| - 1]);
      NextTallied(Run(acts[..|acts| - 1]), acts[|acts| - 1]);
    }
  }

  ghost predicate Uncounting(s: State, c: nat) {
    c < |s.table| && (s.table[c].phase.Closing? || s.table[c].phase.Dropping?)
  }

  /** The decrement of a cleanup finds the count positive, however many other clients come and go. */
  lemma {:induction false} DecrementNeverUnderflows(acts: seq<Action>, c: nat)
    requires Uncounting(Run(acts), c)
    ensures Run(acts).clients > 0
  {
    var s := Run(acts);
    CountersExact(acts);
    CountedIsPositive(s, c);
  }

  // ----- one client

  predicate Writing(p: Phase) {
    p.Flipping? || p.Filling? || p.Sending?
  }

  /** Ids sent so far are 0, 1, 2, ... */
  ghost predicate InOrder(sent: seq<nat>) {
    forall i :: 0 <= i < |sent| ==> sent[i] == i
  }

  ghost predicate Sound(k: Client) {
    && |k.pending| <= 1
    && (k.pending != {} ==> k.buffered)
    && (k.phase.Registered? || Writing(k.phase) ==> k.pending == {})
    && (k.phase.Sending? ==> k.filled == k.sequence)
    && InOrder(k.sent)
    && |k.sent| == (if k.phase.Reporting? || k.phase.Advancing? then k.sequence + 1 else k.sequence)
    && (k.closed <==> k.phase.Closing? || k.phase.Dropping? || k.phase.Gone?)
    && (k.timer ==> k.phase.Waiting?)
    && Alternates(k)
  }

  /** Event n is written into buffer (n + 1) mod 2. */
  ghost predicate Alternates(k: Client) {
    && (k.phase.Registered? || k.phase.Flipping? || k.timer ==> k.slot == k.sequence % 2)
    && (k.phase.Filling? || k.phase.Sending? || k.phase.Reporting? || k.phase.Advancing? ==> k.slot == (k.sequence + 1) % 2)
  }

  ghost predicate AllSound(s: State) {
    forall c :: 0 <= c < |s.table| ==> Sound(s.table[c])
  }

  lemma {:induction false} SteppedSound(k: Client, clients: nat)
    requires Sound(k)
    ensures Sound(Stepped(k, clients))
  {
  }

  lemma {:induction false} WrittenSound(k: Client, fits: bool, output: Output)
    requires Sound(k)
    ensures Sound(Filled(k, fits)) && Sound(Delivered(k, output))
  {
  }

  lemma {:induction false} TickedSound(k: Client, error: bool)
    requires Sound(k)
    ensures Sound(Ticked(k, error)) && Sound(CleanedUp(k))
  {
  }

  lemma {:induction false} ActedSound(k: Client, a: Action, clients: nat)
    requires Sound(k)
    ensures Sound(Acted(k, a, clients))
  {
    match a
    case GoOn(_) => SteppedSound(k, clients);
    case Fill(_, fits) => WrittenSound(k, fits, Failed);
    case Send(_, output) => WrittenSound(k, true, output);
    case Tick(_, error) => TickedSound(k, error);
    case Cleanup(_) => TickedSound(k, false);
    case _ =>
  }

  lemma {:induction false} RunSound(acts: seq<Action>)
    ensures AllSound(Run(acts))
  {
    if acts != [] {
      RunSound(acts[..|acts| - 1]);
      var s, a := Run(acts[..|acts| - 1]), acts[|acts| - 1];
      if !a.Open? && a.c < |s.table| {
        ActedSound(s.table[a.c], a, s.clients);
      }
    }
  }

  /**
   In every interleaving a client has at most one buffer pending, never starts a
   write while one is, alternates between its two buffers, and its accepted
   event ids are 0, 1, 2, ... without gaps.
   */
  lemma {:induction false} ClientsSound(acts: seq<Action>, c: nat)
    requires c < |Run(acts).table|
    ensures var k := Run(acts).table[c];
            && |k.pending| <= 1
            && (Writing(k.phase) ==> k.slot !in k.pending && 1 - k.slot !in k.pending)
            && InOrder(k.sent)
            && Alternates(k)
            && k.sequence <= |k.sent| <= k.sequence + 1
            && (k.phase.Waiting? ==> |k.sent| == k.sequence)
  {
    RunSound(acts);
  }
}
