/**
 What the top-N tables mean over whole runs of updates, one after the other, at
 a fixed capacity.
 */
module TopTableRuns {
  import opened Tally
  import opened TopTable

  /** A table with, per slot, the number of the update that last inserted its entry, and the hits lost to evictions. */
  datatype Traced = Traced(table: seq<Entry>, origin: seq<nat>, erased: nat)

  function Init(capacity: nat): Traced {
    Traced(seq(capacity, i => BLANK), seq(capacity, i => 0), 0)
  }

  predicate IsMiss(table: seq<Entry>, u: Update)
    requires table != []
  {
    u.key != [] && FirstHit(table, UpdateId(u), 0) == |table|
  }

  /** Update number n. */
  function Next(t: Traced, u: Update, n: nat): Traced
    requires t.table != [] && |t.origin| == |t.table|
  {
    if IsMiss(t.table, u) then
      var k := MissSlot(t.table);
      Traced(Apply(t.table, u), t.origin[k := n], t.erased + t.table[k].hits)
    else
      t.(table := Apply(t.table, u))
  }

  function Run(capacity: nat, us: seq<Update>): (t: Traced)
    requires capacity > 0
    ensures |t.table| == |t.origin| == capacity
  {
    if us == [] then Init(capacity) else Next(Run(capacity, us[..|us| - 1]), us[|us| - 1], |us| - 1)
  }

  predicate Concerns(u: Update, id: Identity) {
    u.key != [] && UpdateId(u) == id
  }

  /** The updates of an identity from number `from` on: how many, and what they add up to. */
  function HitsSince(us: seq<Update>, from: nat, id: Identity): nat {
    if |us| <= from then 0 else
    HitsSince(us[..|us| - 1], from, id) + if Concerns(us[|us| - 1], id) then 1 else 0
  }

  function GainSince(us: seq<Update>, from: nat, id: Identity): Gain {
    if |us| <= from then NO_GAIN else
    var before := GainSince(us[..|us| - 1], from, id);
    if Concerns(us[|us| - 1], id) then before.Plus(us[|us| - 1].gain) else before
  }

  /** The time of the latest of these updates. */
  function SeenSince(us: seq<Update>, from: nat, id: Identity): nat {
    if |us| <= from then 0
    else if Concerns(us[|us| - 1], id) then us[|us| - 1].now
    else SeenSince(us[..|us| - 1], from, id)
  }

  function Effective(us: seq<Update>): nat {
    if us == [] then 0 else Effective(us[..|us| - 1]) + if us[|us| - 1].key != [] then 1 else 0
  }

  function HitsOf(e: Entry): nat { e.hits }

  // ----- the invariant

  ghost predicate OccupiedFirst(table: seq<Entry>) {
    forall i, j :: 0 <= i < j < |table| && table[j].hits > 0 ==> table[i].hits > 0
  }

  ghost predicate Distinct(table: seq<Entry>) {
    forall i, j :: 0 <= i < j < |table| && table[j].hits > 0 ==> EntryId(table[i]) != EntryId(table[j])
  }

  /** The entry sums up exactly the updates of its identity since the update that inserted it. */
  ghost predicate SumsSince(us: seq<Update>, e: Entry, origin: nat) {
    && origin < |us|
    && Concerns(us[origin], EntryId(e))
    && e.hits == HitsSince(us, origin, EntryId(e))
    && e.gain == GainSince(us, origin, EntryId(e))
    && e.lastSeen == SeenSince(us, origin, EntryId(e))
  }

  ghost predicate AllSum(us: seq<Update>, t: Traced)
    requires |t.table| == |t.origin|
  {
    forall i :: 0 <= i < |t.table| && t.table[i].hits > 0 ==> SumsSince(us, t.table[i], t.origin[i])
  }

  ghost predicate Shape(table: seq<Entry>) {
    AllProper(table) && OccupiedFirst(table) && Distinct(table)
  }

  lemma {:induction false} ApplyKeepsShape(table: seq<Entry>, u: Update)
    requires table != [] && Shape(table)
    ensures Shape(Apply(table, u))
  {
    if IsMiss(table, u) {
      InsertedIsProper(u);
    }
  }

  lemma {:induction false} RunKeepsShape(capacity: nat, us: seq<Update>)
    requires capacity > 0
    ensures Shape(Run(capacity, us).table)
  {
    if us != [] {
      RunKeepsShape(capacity, us[..|us| - 1]);
      ApplyKeepsShape(Run(capacity, us[..|us| - 1]).table, us[|us| - 1]);
    }
  }

  /** One more update of another identity changes no sum; one of the same identity adds itself. */
  lemma {:induction false} SumsGoOn(before: seq<Update>, u: Update, e: Entry, origin: nat)
    requires SumsSince(before, e, origin)
    ensures !Concerns(u, EntryId(e)) ==> SumsSince(before + [u], e, origin)
    ensures Concerns(u, EntryId(e)) ==> SumsSince(before + [u], Bumped(e, u), origin)
  {
    assert (before + [u])[..|before|] == before;
  }

  lemma {:induction false} SumsStart(before: seq<Update>, u: Update)
    requires u.key != []
    ensures SumsSince(before + [u], Inserted(u), |before|)
  {
    InsertedIsProper(u);
    assert (before + [u])[..|before|] == before;
  }

  lemma {:induction false} NextKeepsSums(before: seq<Update>, t: Traced, u: Update)
    requires t.table != [] && |t.origin| == |t.table| && Shape(t.table) && AllSum(before, t)
    ensures AllSum(before + [u], Next(t, u, |before|))
  {
    var t' := Next(t, u, |before|);
    forall i | 0 <= i < |t'.table| && t'.table[i].hits > 0
      ensures SumsSince(before + [u], t'.table[i], t'.origin[i])
    {
      if IsMiss(t.table, u) && i == MissSlot(t.table) {
        SumsStart(before, u);
      } else {
        SumsGoOn(before, u, t.table[i], t.origin[i]);
      }
    }
  }

  lemma {:induction false} RunKeepsSums(capacity: nat, us: seq<Update>)
    requires capacity > 0
    ensures AllSum(us, Run(capacity, us))
  {
    if us != [] {
      var before, u := us[..|us| - 1], us[|us| - 1];
      assert us == before + [u];
      RunKeepsSums(capacity, before);
      RunKeepsShape(capacity, before);
      NextKeepsSums(before, Run(capacity, before), u);
    }
  }

  /**
   Sequential meaning: after any run, the occupied slots form a prefix, no two
   share an identity, and each carries the exact hits and sums of its identity
   since its latest insertion.
   */
  lemma {:induction false} EntriesSumSinceInsertion(capacity: nat, us: seq<Update>)
    requires capacity > 0
    ensures var t := Run(capacity, us);
            OccupiedFirst(t.table) && Distinct(t.table) && AllSum(us, t)
  {
    RunKeepsShape(capacity, us);
    RunKeepsSums(capacity, us);
  }

  // ----- bounds on single entries

  lemma {:induction false} HitsFromStart(us: seq<Update>, from: nat, id: Identity)
    ensures HitsSince(us, from, id) <= HitsSince(us, 0, id)
  {
    if |us| > from {
      HitsFromStart(us[..|us| - 1], from, id);
    }
  }

  lemma {:induction false} GainsWithinHits(us: seq<Update>, from: nat, id: Identity)
    ensures (forall k :: 0 <= k < |us| ==> us[k].gain.errors <= 1) ==>
              GainSince(us, from, id).errors <= HitsSince(us, from, id)
    ensures (forall k :: 0 <= k < |us| ==> us[k].gain.errors + us[k].gain.s4xx <= 1 && us[k].gain.s5xx <= us[k].gain.errors) ==>
              var g := GainSince(us, from, id);
              g.s5xx <= g.errors && g.errors + g.s4xx <= HitsSince(us, from, id)
  {
    if |us| > from {
      GainsWithinHits(us[..|us| - 1], from, id);
    }
  }

  /** Errors never exceed hits, and hits never exceed the true count of the identity. */
  lemma {:induction false} CountsOrdered(capacity: nat, us: seq<Update>, i: nat)
    requires capacity > 0 && i < capacity
    requires forall k :: 0 <= k < |us| ==> exists latency, bytes, isError :: us[k].gain == TopGain(latency, bytes, isError)
    requires Run(capacity, us).table[i].hits > 0
    ensures var e := Run(capacity, us).table[i];
            e.gain.errors <= e.hits <= HitsSince(us, 0, EntryId(e))
  {
    EntriesSumSinceInsertion(capacity, us);
    var t := Run(capacity, us);
    GainsWithinHits(us, t.origin[i], EntryId(t.table[i]));
    HitsFromStart(us, t.origin[i], EntryId(t.table[i]));
  }

  /** For upstream peers: 5xx within failures, and failures and 4xx together within requests. */
  lemma {:induction false} UpstreamCountsOrdered(capacity: nat, us: seq<Update>, i: nat)
    requires capacity > 0 && i < capacity
    requires forall k :: 0 <= k < |us| ==> exists latency, status :: us[k].gain == UpstreamGain(latency, status)
    requires Run(capacity, us).table[i].hits > 0
    ensures var e := Run(capacity, us).table[i];
            e.gain.s5xx <= e.gain.errors && e.gain.errors + e.gain.s4xx <= e.hits
  {
    EntriesSumSinceInsertion(capacity, us);
    var t := Run(capacity, us);
    GainsWithinHits(us, t.origin[i], EntryId(t.table[i]));
  }

  // ----- conservation and eviction

  /** No hit is lost unaccounted: the table plus the evicted hits make up all updates. */
  lemma {:induction false} HitsConserved(capacity: nat, us: seq<Update>)
    requires capacity > 0
    ensures var t := Run(capacity, us);
            SumOf(t.table, HitsOf) + t.erased == Effective(us) <= |us|
  {
    if us == [] {
      SumZero(Init(capacity).table, HitsOf);
    } else {
      HitsConserved(capacity, us[..|us| - 1]);
      var t, u := Run(capacity, us[..|us| - 1]), us[|us| - 1];
      if IsMiss(t.table, u) {
        SumUpdate(t.table, HitsOf, MissSlot(t.table), Inserted(u));
      } else if u.key != [] {
        var k := FirstHit(t.table, UpdateId(u), 0);
        SumUpdate(t.table, HitsOf, k, Bumped(t.table[k], u));
      }
    }
  }

  predicate Evicts(table: seq<Entry>, u: Update)
    requires table != []
  {
    IsMiss(table, u) && FirstEmpty(table, 0) == |table|
  }

  lemma {:induction false} VictimIsSmall(table: seq<Entry>, u: Update, n: nat)
    requires table != [] && Evicts(table, u) && SumOf(table, HitsOf) <= n
    ensures FirstLeast(table, |table|, MissSlot(table)) && |table| * table[MissSlot(table)].hits <= n
  {
    SumLowerBound(table, HitsOf, table[Victim(table, |table|)].hits);
  }

  lemma {:induction false} HeavyIsNotVictim(table: seq<Entry>, u: Update, n: nat, i: nat)
    requires i < |table| && SumOf(table, HitsOf) <= n && |table| * table[i].hits > n
    ensures EntryId(Apply(table, u)[i]) == EntryId(table[i]) && Apply(table, u)[i].hits >= table[i].hits
  {
    if Evicts(table, u) {
      VictimIsSmall(table, u, n);
    }
    assert table[i].hits > 0;
  }

  /** An eviction takes the first entry with the fewest hits, and erases at most an n / capacity share of them. */
  lemma {:induction false} EvictionIsSmall(capacity: nat, us: seq<Update>, u: Update)
    requires capacity > 0 && Evicts(Run(capacity, us).table, u)
    ensures var t := Run(capacity, us);
            var lost := Run(capacity, us + [u]).erased - t.erased;
            && FirstLeast(t.table, capacity, MissSlot(t.table))
            && lost == t.table[MissSlot(t.table)].hits
            && capacity * lost <= |us|
  {
    HitsConserved(capacity, us);
    VictimIsSmall(Run(capacity, us).table, u, |us|);
  }

  /** An entry with more than an n / capacity share of hits keeps its slot and its hits through the next update. */
  lemma {:induction false} HeavyEntrySurvives(capacity: nat, us: seq<Update>, u: Update, i: nat)
    requires capacity > 0 && i < capacity
    requires capacity * Run(capacity, us).table[i].hits > |us|
    ensures var e, e' := Run(capacity, us).table[i], Run(capacity, us + [u]).table[i];
            EntryId(e') == EntryId(e) && e'.hits >= e.hits
  {
    HitsConserved(capacity, us);
    HeavyIsNotVictim(Run(capacity, us).table, u, |us|, i);
  }

  // ----- exactness while the identities fit

  /** The identities updated so far. */
  function Seen(us: seq<Update>): set<Identity> {
    if us == [] then {} else
    Seen(us[..|us| - 1]) + if us[|us| - 1].key != [] then {UpdateId(us[|us| - 1])} else {}
  }

  function Ids(table: seq<Entry>): set<Identity> {
    if table == [] then {} else
    Ids(table[..|table| - 1]) + if table[|table| - 1].hits > 0 then {EntryId(table[|table| - 1])} else {}
  }

  lemma {:induction false} IdsAreHits(table: seq<Entry>, id: Identity)
    ensures id in Ids(table) <==> exists i :: 0 <= i < |table| && Hit(table[i], id)
  {
    if table != [] {
      IdsAreHits(table[..|table| - 1], id);
      if exists i :: 0 <= i < |table| && Hit(table[i], id) {
        var i :| 0 <= i < |table| && Hit(table[i], id);
        assert i < |table| - 1 ==> table[i] == table[..|table| - 1][i];
      }
    }
  }

  lemma {:induction false} FullTableIds(table: seq<Entry>)
    requires Distinct(table) && forall i :: 0 <= i < |table| ==> table[i].hits > 0
    ensures |Ids(table)| == |table|
  {
    if table != [] {
      var front := table[..|table| - 1];
      FullTableIds(front);
      IdsAreHits(front, EntryId(table[|table| - 1]));
    }
  }

  /** Every identity seen is in the table with its whole history, and nothing was ever evicted. */
  ghost predicate Complete(us: seq<Update>, t: Traced) {
    && Ids(t.table) == Seen(us)
    && t.erased == 0
    && forall i :: 0 <= i < |t.table| && t.table[i].hits > 0 ==>
         && t.table[i].hits == HitsSince(us, 0, EntryId(t.table[i]))
         && t.table[i].gain == GainSince(us, 0, EntryId(t.table[i]))
  }

  lemma {:induction false} UnseenHasNoHits(us: seq<Update>, id: Identity)
    requires id !in Seen(us)
    ensures HitsSince(us, 0, id) == 0 && GainSince(us, 0, id) == NO_GAIN
  {
    if us != [] {
      UnseenHasNoHits(us[..|us| - 1], id);
    }
  }

  /** A full table that already holds every identity seen has no room for one more identity within the capacity. */
  lemma {:induction false} NoEviction(before: seq<Update>, table: seq<Entry>, u: Update)
    requires table != [] && Distinct(table) && Ids(table) == Seen(before)
    requires Evicts(table, u)
    ensures |Seen(before + [u])| > |table|
  {
    assert (before + [u])[..|before|] == before;
    FullTableIds(table);
    IdsAreHits(table, UpdateId(u));
    assert Seen(before + [u]) == Ids(table) + {UpdateId(u)};
  }

  lemma {:induction false} IdsUpdate(table: seq<Entry>, k: nat, e: Entry)
    requires k < |table| && e.hits > 0 && (table[k].hits == 0 || EntryId(table[k]) == EntryId(e))
    ensures Ids(table[k := e]) == Ids(table) + {EntryId(e)}
  {
    var last := |table| - 1;
    if k == last {
      assert table[k := e][..last] == table[..last];
    } else {
      assert table[k := e][..last] == table[..last][k := e];
      IdsUpdate(table[..last], k, e);
    }
  }

  lemma {:induction false} HitStaysComplete(before: seq<Update>, t: Traced, u: Update, k: nat)
    requires Complete(before, t) && k < |t.table| && u.key != [] && Hit(t.table[k], UpdateId(u)) && Distinct(t.table)
    ensures Complete(before + [u], t.(table := t.table[k := Bumped(t.table[k], u)]))
  {
    assert (before + [u])[..|before|] == before;
    IdsUpdate(t.table, k, Bumped(t.table[k], u));
  }

  lemma {:induction false} PlaceStaysComplete(before: seq<Update>, t: Traced, u: Update, k: nat, e: Entry)
    requires Complete(before, t) && k < |t.table| && t.table[k].hits == 0 && u.key != []
    requires EntryId(e) == UpdateId(u) && e.hits == 1 && e.gain == u.gain
    requires forall i :: 0 <= i < |t.table| ==> !Hit(t.table[i], UpdateId(u))
    ensures Complete(before + [u], t.(table := t.table[k := e]))
  {
    assert (before + [u])[..|before|] == before;
    IdsUpdate(t.table, k, e);
    IdsAreHits(t.table, UpdateId(u));
    UnseenHasNoHits(before, UpdateId(u));
  }

  lemma {:induction false} NextStaysComplete(before: seq<Update>, t: Traced, u: Update)
    requires t.table != [] && |t.origin| == |t.table| && Shape(t.table)
    requires Complete(before, t) && !Evicts(t.table, u)
    ensures Complete(before + [u], Next(t, u, |before|))
  {
    if u.key == [] {
      assert (before + [u])[..|before|] == before;
    } else if IsMiss(t.table, u) {
      InsertedIsProper(u);
      PlaceStaysComplete(before, t, u, MissSlot(t.table), Inserted(u));
    } else {
      HitStaysComplete(before, t, u, FirstHit(t.table, UpdateId(u), 0));
    }
  }

  lemma {:induction false} SeenGrows(us: seq<Update>)
    requires us != []
    ensures |Seen(us[..|us| - 1])| <= |Seen(us)|
  {
    var before := Seen(us[..|us| - 1]);
    assert Seen(us) == before + (Seen(us) - before);
  }

  /** While at most `capacity` identities have appeared, every identity's hits and sums are exact. */
  lemma {:induction false} ExactWhileFitting(capacity: nat, us: seq<Update>)
    requires capacity > 0 && |Seen(us)| <= capacity
    ensures Complete(us, Run(capacity, us))
  {
    if us == [] {
      BlankHasNoIds(Init(capacity).table);
    } else {
      var before, u := us[..|us| - 1], us[|us| - 1];
      assert us == before + [u];
      SeenGrows(us);
      ExactWhileFitting(capacity, before);
      RunKeepsShape(capacity, before);
      var t := Run(capacity, before);
      if Evicts(t.table, u) {
        NoEviction(before, t.table, u);
      }
      NextStaysComplete(before, t, u);
    }
  }

  lemma {:induction false} BlankHasNoIds(table: seq<Entry>)
    requires forall i :: 0 <= i < |table| ==> table[i].hits == 0
    ensures Ids(table) == {}
  {
    if table != [] {
      BlankHasNoIds(table[..|table| - 1]);
    }
  }
}
