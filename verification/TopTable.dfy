/**
 The bounded top-N tables (URLs, user agents and upstream peers): linear scan,
 first-empty insertion, and eviction of the first entry with the fewest hits.
 */
module TopTable {
  import opened Bytes

  const KEY_LEN: nat := 128
  const TOP_URLS_MAX: nat := 256
  const TOP_UA_MAX: nat := 64
  const UPSTREAMS_MAX: nat := 128

  /** What one update adds to an entry besides its hit. */
  datatype Gain = Gain(bytes: nat, latency: nat, errors: nat, s4xx: nat, s5xx: nat) {
    function Plus(g: Gain): Gain {
      Gain(bytes + g.bytes, latency + g.latency, errors + g.errors, s4xx + g.s4xx, s5xx + g.s5xx)
    }
  }

  const NO_GAIN := Gain(0, 0, 0, 0, 0)

  function TopGain(latency: nat, bytes: nat, isError: bool): Gain {
    Gain(bytes, latency, if isError then 1 else 0, 0, 0)
  }

  function UpstreamGain(latency: nat, status: nat): Gain {
    Gain(0, latency, if status == 0 || status >= 500 then 1 else 0,
         if 400 <= status < 500 then 1 else 0, if status >= 500 then 1 else 0)
  }

  datatype Entry = Entry(hits: nat, gain: Gain, lastSeen: nat, hash: nat, key: seq<Byte>)

  const BLANK := Entry(0, NO_GAIN, 0, 0, Zeros(KEY_LEN))

  /** One call; the hash is whatever the hash function gives for the whole key. */
  datatype Update = Update(key: Text, hash: nat, gain: Gain, now: nat)

  datatype Identity = Identity(hash: nat, text: Text)

  function Truncated(key: Text): (t: Text)
    ensures |t| < KEY_LEN && |t| <= |key|
  {
    if |key| < KEY_LEN then key else key[..KEY_LEN - 1]
  }

  function Stored(key: Text): (b: seq<Byte>)
    ensures |b| == KEY_LEN
  {
    Truncated(key) + Zeros(KEY_LEN - |Truncated(key)|)
  }

  function EntryId(e: Entry): Identity {
    Identity(e.hash, CString(e.key))
  }

  function UpdateId(u: Update): Identity {
    Identity(u.hash, Truncated(u.key))
  }

  /** The comparison of the scan: hash, `strncmp` over the truncated length, and a NUL right after it. */
  predicate Matches(e: Entry, u: Update)
    requires |e.key| == KEY_LEN
  {
    var len := |Truncated(u.key)|;
    e.hash == u.hash && SameFirst(e.key, u.key, len) && e.key[len] == 0
  }

  /** A slot is blank, or it was hit and its buffer holds a non-empty NUL-terminated key. */
  ghost predicate Proper(e: Entry) {
    && |e.key| == KEY_LEN
    && (e.hits == 0 ==> e == BLANK)
    && (e.hits > 0 ==> 0 < |CString(e.key)| < KEY_LEN)
  }

  /** The byte comparison decides identity exactly. */
  lemma {:induction false} MatchesIsIdentity(e: Entry, u: Update)
    requires Proper(e) && u.key != []
    ensures Matches(e, u) <==> EntryId(e) == UpdateId(u)
  {
    var text, len := CString(e.key), |Truncated(u.key)|;
    SameFirstIsPrefix(e.key, u.key, len);
    assert u.key[..len] == Truncated(u.key);
    if e.key[..len] == u.key[..len] && e.key[len] == 0 {
      assert forall i :: 0 <= i < len ==> e.key[i] == e.key[..len][i] == u.key[i] != 0;
      assert forall i :: 0 <= i < |text| ==> text[i] == e.key[i];
    }
  }

  function Inserted(u: Update): Entry {
    Entry(1, u.gain, u.now, u.hash, Stored(u.key))
  }

  lemma {:induction false} InsertedIsProper(u: Update)
    requires u.key != []
    ensures Proper(Inserted(u)) && EntryId(Inserted(u)) == UpdateId(u)
  {
    CStringOf(Truncated(u.key), Zeros(KEY_LEN - |Truncated(u.key)|));
  }

  function Bumped(e: Entry, u: Update): Entry {
    e.(hits := e.hits + 1, gain := e.gain.Plus(u.gain), lastSeen := u.now)
  }

  // ----- which slot an update goes to

  ghost predicate AllProper(table: seq<Entry>) {
    forall i :: 0 <= i < |table| ==> Proper(table[i])
  }

  predicate Hit(e: Entry, id: Identity) {
    e.hits > 0 && EntryId(e) == id
  }

  /** The first slot from i on that holds the identity, or the length. */
  function FirstHit(table: seq<Entry>, id: Identity, i: nat): (k: nat)
    requires i <= |table|
    ensures i <= k <= |table|
    ensures forall j :: i <= j < k ==> !Hit(table[j], id)
    ensures k < |table| ==> Hit(table[k], id)
    decreases |table| - i
  {
    if i == |table| || Hit(table[i], id) then i else FirstHit(table, id, i + 1)
  }

  /** The first slot from i on that no update has hit, or the length. */
  function FirstEmpty(table: seq<Entry>, i: nat): (k: nat)
    requires i <= |table|
    ensures i <= k <= |table|
    ensures forall j :: i <= j < k ==> table[j].hits > 0
    ensures k < |table| ==> table[k].hits == 0
    decreases |table| - i
  {
    if i == |table| || table[i].hits == 0 then i else FirstEmpty(table, i + 1)
  }

  /** Among the first n slots, k is the first with the fewest hits. */
  ghost predicate FirstLeast(table: seq<Entry>, n: nat, k: nat) {
    && k < n <= |table|
    && (forall j :: 0 <= j < n ==> table[k].hits <= table[j].hits)
    && (forall j :: 0 <= j < k ==> table[k].hits < table[j].hits)
  }

  function Victim(table: seq<Entry>, n: nat): (k: nat)
    requires 0 < n <= |table|
    ensures FirstLeast(table, n, k)
  {
    if n == 1 then 0 else
    var k := Victim(table, n - 1);
    if table[n - 1].hits < table[k].hits then n - 1 else k
  }

  /** The slot a miss is written to: the first empty one, or else the victim. */
  function MissSlot(table: seq<Entry>): (k: nat)
    requires table != []
    ensures k < |table|
  {
    var empty := FirstEmpty(table, 0);
    if empty < |table| then empty else Victim(table, |table|)
  }

  function Apply(table: seq<Entry>, u: Update): (after: seq<Entry>)
    requires table != []
    ensures |after| == |table|
  {
    if u.key == [] then table else
    var k := FirstHit(table, UpdateId(u), 0);
    if k < |table| then table[k := Bumped(table[k], u)] else table[MissSlot(table) := Inserted(u)]
  }

  method SameKey(e: Entry, u: Update) returns (same: bool)
    requires Proper(e) && u.key != []
    ensures same <==> EntryId(e) == UpdateId(u)
  {
    MatchesIsIdentity(e, u);
    same := Matches(e, u);
  }

  /** The lock-free scan: the first match, or else the first empty slot and the first slot with the fewest hits. */
  method Scan(entries: array<Entry>, capacity: nat, u: Update) returns (found: nat, empty: nat, victim: nat)
    requires 0 < capacity <= entries.Length && AllProper(entries[..capacity]) && u.key != []
    ensures found == FirstHit(entries[..capacity], UpdateId(u), 0)
    ensures found == capacity ==> empty == FirstEmpty(entries[..capacity], 0)
    ensures found == capacity && empty == capacity ==> victim == Victim(entries[..capacity], capacity)
  {
    ghost var table := entries[..capacity];
    ghost var id := UpdateId(u);
    empty, victim := capacity, 0;
    var least: int := -1;  // no slot compared yet
    for i := 0 to capacity
      invariant FirstHit(table, id, 0) == FirstHit(table, id, i)
      invariant empty < capacity ==> empty == FirstEmpty(table, 0)
      invariant empty == capacity ==> FirstEmpty(table, 0) == FirstEmpty(table, i)
      invariant empty == capacity && i > 0 ==> victim == Victim(table, i) && least == table[victim].hits
      invariant i == 0 ==> least == -1
      invariant empty <= capacity
    {
      var e := entries[i];
      assert e == table[i];
      var same := SameKey(e, u);
      if e.hits == 0 && empty == capacity {
        empty := i;
        continue;
      }
      if same {
        return i, empty, victim;
      }
      if least == -1 || e.hits < least {
        least := e.hits;
        victim := i;
      }
    }
    assert FirstEmpty(table, capacity) == capacity;
    return capacity, empty, victim;
  }

  /** Zeroes the entry, writes key, hash and time, then counts the first hit. */
  method Insert(entries: array<Entry>, i: nat, u: Update)
    requires i < entries.Length
    modifies entries
    ensures entries[..] == old(entries[..])[i := Inserted(u)]
  {
    entries[i] := BLANK.(key := Stored(u.key), hash := u.hash, lastSeen := u.now);
    entries[i] := entries[i].(hits := entries[i].hits + 1, gain := entries[i].gain.Plus(u.gain));
  }

  method Bump(entries: array<Entry>, i: nat, u: Update)
    requires i < entries.Length
    modifies entries
    ensures entries[..] == old(entries[..])[i := Bumped(old(entries[i]), u)]
  {
    entries[i] := entries[i].(hits := entries[i].hits + 1, gain := entries[i].gain.Plus(u.gain), lastSeen := u.now);
  }

  lemma {:induction false} UpdateFront(front: seq<Entry>, back: seq<Entry>, k: nat, e: Entry)
    requires k < |front|
    ensures (front + back)[k := e] == front[k := e] + back
  {
  }

  /** `update_top` and `update_upstream_slot`, over the first `capacity` slots of the shared array. */
  method UpdateTop(entries: array<Entry>, capacity: nat, u: Update)
    requires capacity <= entries.Length && AllProper(entries[..capacity])
    modifies entries
    ensures entries[..] ==
            (if capacity > 0 then Apply(old(entries[..capacity]), u) else []) + old(entries[capacity..])
  {
    ghost var table, beyond := entries[..capacity], entries[capacity..];
    assert entries[..] == table + beyond;
    if u.key == [] || capacity == 0 {
      return;
    }
    var found, empty, victim := Scan(entries, capacity, u);
    if found < capacity {
      UpdateFront(table, beyond, found, Bumped(table[found], u));
      Bump(entries, found, u);
    } else {
      var i := if empty != capacity then empty else victim;
      UpdateFront(table, beyond, i, Inserted(u));
      Insert(entries, i, u);
    }
  }
}
