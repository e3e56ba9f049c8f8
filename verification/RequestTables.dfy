/** What one request adds to the URL, user-agent and upstream tables. */
module RequestTables {
  import opened Bytes
  import opened Common
  import opened TopTable

  /** One attempt at an upstream peer; no response time means the request's own latency counts. */
  datatype Attempt = Attempt(peer: Option<Text>, responseTime: Option<nat>, status: nat)

  /** What a request asked for, who asked, and which upstream peers were tried. */
  datatype Target = Target(uri: Text, agent: Option<Text>, attempts: seq<Attempt>)

  /** "unknown" */
  const UNKNOWN: Text := [117, 110, 107, 110, 111, 119, 110]

  function PeerOf(a: Attempt): (peer: Text)
    ensures peer != []
  {
    if a.peer.Some? && a.peer.value != [] then a.peer.value else UNKNOWN
  }

  function TableUpdate(key: Text, hash: Text -> nat, latency: nat, bytes: nat, status: nat, now: nat): Update {
    Update(key, hash(key), TopGain(latency, bytes, status >= 400), now)
  }

  function AttemptUpdate(a: Attempt, hash: Text -> nat, latency: nat, now: nat): Update {
    var time := if a.responseTime.Some? then a.responseTime.value else latency;
    Update(PeerOf(a), hash(PeerOf(a)), UpstreamGain(time, a.status), now)
  }

  /** One update for each attempt, in order. */
  function AttemptsApplied(table: seq<Entry>, attempts: seq<Attempt>, hash: Text -> nat, latency: nat, now: nat): (t: seq<Entry>)
    requires table != []
    ensures |t| == |table|
  {
    if attempts == [] then table else
    var before := AttemptsApplied(table, attempts[..|attempts| - 1], hash, latency, now);
    Apply(before, AttemptUpdate(attempts[|attempts| - 1], hash, latency, now))
  }

  lemma {:induction false} AttemptsNext(table: seq<Entry>, attempts: seq<Attempt>, a: Attempt, hash: Text -> nat, latency: nat, now: nat)
    requires table != []
    ensures AttemptsApplied(table, attempts + [a], hash, latency, now) ==
            Apply(AttemptsApplied(table, attempts, hash, latency, now), AttemptUpdate(a, hash, latency, now))
  {
    assert (attempts + [a])[..|attempts|] == attempts;
  }

  /** An update within the first `capacity` slots. */
  function FrontApplied(table: seq<Entry>, capacity: nat, u: Update): (t: seq<Entry>)
    requires capacity <= |table|
    ensures |t| == |table|
  {
    (if capacity > 0 then Apply(table[..capacity], u) else []) + table[capacity..]
  }

  lemma {:induction false} ApplyKeepsProper(table: seq<Entry>, u: Update)
    requires table != [] && AllProper(table)
    ensures AllProper(Apply(table, u))
  {
    if u.key != [] {
      InsertedIsProper(u);
    }
  }

  lemma {:induction false} FrontKeepsProper(table: seq<Entry>, capacity: nat, u: Update)
    requires capacity <= |table| && AllProper(table)
    ensures AllProper(FrontApplied(table, capacity, u))
  {
    if capacity > 0 {
      ApplyKeepsProper(table[..capacity], u);
    }
  }

  lemma {:induction false} WholeIsFront(table: seq<Entry>, u: Update)
    requires table != []
    ensures FrontApplied(table, |table|, u) == Apply(table, u)
  {
    assert table[..|table|] == table && table[|table|..] == [];
  }

  method CountKey(entries: array<Entry>, capacity: nat, u: Update)
    requires capacity <= entries.Length && AllProper(entries[..])
    modifies entries
    ensures entries[..] == FrontApplied(old(entries[..]), capacity, u) && AllProper(entries[..])
  {
    ghost var before := entries[..];
    assert entries[..capacity] == before[..capacity] && entries[capacity..] == before[capacity..];
    FrontKeepsProper(before, capacity, u);
    UpdateTop(entries, capacity, u);
  }

  /** `account_upstream`: every attempt counts for its peer. */
  method AccountUpstream(upstreams: array<Entry>, attempts: seq<Attempt>, hash: Text -> nat, latency: nat, now: nat)
    requires upstreams.Length > 0 && AllProper(upstreams[..])
    modifies upstreams
    ensures upstreams[..] == AttemptsApplied(old(upstreams[..]), attempts, hash, latency, now) && AllProper(upstreams[..])
  {
    ghost var before := upstreams[..];
    for i := 0 to |attempts|
      invariant upstreams[..] == AttemptsApplied(before, attempts[..i], hash, latency, now) && AllProper(upstreams[..])
    {
      assert attempts[..i + 1] == attempts[..i] + [attempts[i]];
      AttemptsNext(before, attempts[..i], attempts[i], hash, latency, now);
      var peer := if attempts[i].peer.Some? && attempts[i].peer.value != [] then attempts[i].peer.value else UNKNOWN;
      var time := if attempts[i].responseTime.Some? then attempts[i].responseTime.value else latency;
      WholeIsFront(upstreams[..], AttemptUpdate(attempts[i], hash, latency, now));
      CountKey(upstreams, upstreams.Length, Update(peer, hash(peer), UpstreamGain(time, attempts[i].status), now));
    }
    assert attempts[..|attempts|] == attempts;
  }
}
