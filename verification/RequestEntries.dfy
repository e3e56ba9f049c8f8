/**
 What the three tables list, after any sequence of whole calls on a fresh zone,
 in fields of the requests and of their upstream attempts.
 */
module RequestEntries {
  import opened Bytes
  import opened Common
  import opened Folds
  import opened RequestCounters
  import opened RequestRuns
  import opened RequestTables
  import opened Tally
  import opened TopTable
  import Runs = TopTableRuns

  // ----- updates that come from a list of anything

  function Mapped<T>(xs: seq<T>, f: T -> Update): (us: seq<Update>)
    ensures |us| == |xs| && forall i :: 0 <= i < |us| ==> us[i] == f(xs[i])
  {
    if xs == [] then [] else Mapped(xs[..|xs| - 1], f) + [f(xs[|xs| - 1])]
  }

  /** An update, also of a table without slots. */
  function Applied(table: seq<Entry>, u: Update): (after: seq<Entry>)
    ensures |after| == |table|
  {
    if table == [] then table else Apply(table, u)
  }

  function Updating<T>(f: T -> Update): (seq<Entry>, T) -> seq<Entry> {
    (table, x) => Applied(table, f(x))
  }

  ghost predicate AllBlank(table: seq<Entry>) {
    forall i :: 0 <= i < |table| ==> table[i] == BLANK
  }

  /** A blank table that gets the updates one after the other is the table of their run. */
  lemma {:induction false} FoldIsRun<T>(start: seq<Entry>, xs: seq<T>, f: T -> Update)
    requires start != [] && AllBlank(start)
    ensures Fold(start, xs, Updating(f)) == Runs.Run(|start|, Mapped(xs, f)).table
  {
    var us := Mapped(xs, f);
    if xs == [] {
      assert start == Runs.Init(|start|).table;
    } else {
      FoldIsRun(start, xs[..|xs| - 1], f);
      assert us[..|us| - 1] == Mapped(xs[..|xs| - 1], f);
    }
  }

  /** What an entry has to show for the elements p picks: how many, their sums, and the latest time. */
  datatype Shown = Shown(hits: nat, bytes: nat, latency: nat, errors: nat, s4xx: nat, s5xx: nat, lastSeen: nat)

  /** The measures of one element. */
  datatype Measures<!T> = Measures(
    bytes: T -> nat, latency: T -> nat, errors: T -> nat, s4xx: T -> nat, s5xx: T -> nat, time: T -> nat)

  function ShownFor<T>(xs: seq<T>, p: T -> bool, m: Measures<T>): Shown {
    Shown(CountOf(xs, p), Among(xs, p, m.bytes), Among(xs, p, m.latency), Among(xs, p, m.errors),
          Among(xs, p, m.s4xx), Among(xs, p, m.s5xx), LatestOf(xs, p, m.time))
  }

  function ShownBy(e: Entry): Shown {
    Shown(e.hits, e.gain.bytes, e.gain.latency, e.gain.errors, e.gain.s4xx, e.gain.s5xx, e.lastSeen)
  }

  /** The update of x concerns the identity exactly if p picks x, and then carries its measures. */
  ghost predicate Carries<T>(x: T, u: Update, id: Identity, p: T -> bool, m: Measures<T>) {
    && (p(x) <==> Runs.Concerns(u, id))
    && u.gain == Gain(m.bytes(x), m.latency(x), m.errors(x), m.s4xx(x), m.s5xx(x))
    && u.now == m.time(x)
  }

  /** What a run of updates sums up for an identity since one of them. */
  ghost function SummedSince(us: seq<Update>, from: nat, id: Identity): Shown {
    var g := Runs.GainSince(us, from, id);
    Shown(Runs.HitsSince(us, from, id), g.bytes, g.latency, g.errors, g.s4xx, g.s5xx, Runs.SeenSince(us, from, id))
  }

  ghost function Added(s: Shown, u: Update): Shown {
    Shown(s.hits + 1, s.bytes + u.gain.bytes, s.latency + u.gain.latency, s.errors + u.gain.errors,
          s.s4xx + u.gain.s4xx, s.s5xx + u.gain.s5xx, u.now)
  }

  lemma {:induction false} SummedNext(us: seq<Update>, u: Update, from: nat, id: Identity)
    requires from <= |us|
    ensures SummedSince(us + [u], from, id) ==
            if Runs.Concerns(u, id) then Added(SummedSince(us, from, id), u) else SummedSince(us, from, id)
  {
    assert (us + [u])[..|us|] == us;
  }

  lemma {:induction false} ShownNext<T>(xs: seq<T>, x: T, u: Update, id: Identity, p: T -> bool, m: Measures<T>)
    requires Carries(x, u, id, p, m)
    ensures ShownFor(xs + [x], p, m) == if p(x) then Added(ShownFor(xs, p, m), u) else ShownFor(xs, p, m)
  {
    assert (xs + [x])[..|xs|] == xs;
  }

  lemma {:induction false} SinceNext<T>(xs: seq<T>, x: T, f: T -> Update, from: nat, id: Identity, p: T -> bool, m: Measures<T>)
    requires from <= |xs| && Carries(x, f(x), id, p, m)
    requires SummedSince(Mapped(xs, f), from, id) == ShownFor(xs[from..], p, m)
    ensures SummedSince(Mapped(xs + [x], f), from, id) == ShownFor((xs + [x])[from..], p, m)
  {
    assert (xs + [x])[..|xs|] == xs && Mapped(xs + [x], f) == Mapped(xs, f) + [f(x)];
    SummedNext(Mapped(xs, f), f(x), from, id);
    assert (xs + [x])[from..] == xs[from..] + [x];
    ShownNext(xs[from..], x, f(x), id, p, m);
  }

  lemma {:induction false} SinceIsShown<T>(xs: seq<T>, f: T -> Update, from: nat, id: Identity, p: T -> bool, m: Measures<T>)
    requires from <= |xs| && forall i :: 0 <= i < |xs| ==> Carries(xs[i], f(xs[i]), id, p, m)
    ensures SummedSince(Mapped(xs, f), from, id) == ShownFor(xs[from..], p, m)
  {
    if from < |xs| {
      var before, last := xs[..|xs| - 1], xs[|xs| - 1];
      SinceIsShown(before, f, from, id, p, m);
      SinceNext(before, last, f, from, id, p, m);
      assert xs == before + [last];
    }
  }

  /** An entry of a run of such updates shows what its elements add up to since its insertion. */
  lemma {:induction false} EntryShows<T>(capacity: nat, xs: seq<T>, f: T -> Update, i: nat, p: T -> bool, m: Measures<T>)
    requires i < capacity && Runs.Run(capacity, Mapped(xs, f)).table[i].hits > 0
    requires var id := EntryId(Runs.Run(capacity, Mapped(xs, f)).table[i]);
             forall k :: 0 <= k < |xs| ==> Carries(xs[k], f(xs[k]), id, p, m)
    ensures var t := Runs.Run(capacity, Mapped(xs, f));
            && t.origin[i] < |xs| && p(xs[t.origin[i]])
            && ShownBy(t.table[i]) == ShownFor(xs[t.origin[i]..], p, m)
  {
    var us := Mapped(xs, f);
    var t := Runs.Run(capacity, us);
    Runs.EntriesSumSinceInsertion(capacity, us);
    assert Runs.SumsSince(us, t.table[i], t.origin[i]);
    SinceIsShown(xs, f, t.origin[i], EntryId(t.table[i]), p, m);
    assert Carries(xs[t.origin[i]], f(xs[t.origin[i]]), EntryId(t.table[i]), p, m);
  }

  /** Hash and, up to 127 bytes, the text of a key are those of the entry. */
  predicate Lists(e: Entry, key: Text, hash: Text -> nat) {
    && key != []
    && e.hash == hash(key)
    && CString(e.key) == key[..Min(|key|, 127)]
  }

  // ----- the URL table

  /** What all calls share: the hash function and the configured number of URLs. */
  datatype Setup = Setup(hash: Text -> nat, maxTopUrls: nat)

  function UrlUpdate(setup: Setup): Call -> Update {
    (call: Call) => KeyUpdate(call.target.uri, setup.hash, call.request, call.process.now)
  }

  function UrlUpdates(calls: seq<Call>, setup: Setup): seq<Update> {
    Mapped(calls, UrlUpdate(setup))
  }

  /** The URL table after a sequence of calls. */
  function UrlsAfter(start: seq<Entry>, calls: seq<Call>, setup: Setup): (urls: seq<Entry>)
    requires |start| == TOP_URLS_MAX
    ensures |urls| == |start|
  {
    if calls == [] then start else
    FrontApplied(UrlsAfter(start, calls[..|calls| - 1], setup), UrlCapacity(setup.maxTopUrls),
                 UrlUpdate(setup)(calls[|calls| - 1]))
  }

  function WithPath(calls: seq<Call>): nat {
    CountOf(calls, (call: Call) => call.target.uri != [])
  }

  lemma {:induction false} UrlUpdatesCount(calls: seq<Call>, setup: Setup)
    ensures Runs.Effective(UrlUpdates(calls, setup)) == WithPath(calls)
  {
    if calls != [] {
      var before := calls[..|calls| - 1];
      UrlUpdatesCount(before, setup);
      assert UrlUpdates(calls, setup)[..|before|] == UrlUpdates(before, setup);
    }
  }

  /** The first n slots are those of a run, and the others blank. */
  ghost predicate RunInFront(urls: seq<Entry>, n: nat, us: seq<Update>) {
    && n <= |urls|
    && (n > 0 ==> urls[..n] == Runs.Run(n, us).table)
    && forall i :: n <= i < |urls| ==> urls[i] == BLANK
  }

  lemma {:induction false} FrontGoesOn(urls: seq<Entry>, n: nat, us: seq<Update>, u: Update)
    requires RunInFront(urls, n, us)
    ensures RunInFront(FrontApplied(urls, n, u), n, us + [u])
  {
    if n > 0 {
      assert (us + [u])[..|us|] == us;
      assert FrontApplied(urls, n, u)[..n] == Apply(urls[..n], u);
    }
  }

  /** As many slots as are configured, at most 256, are a run of one update for each call; the rest stays blank. */
  lemma {:induction false} UrlsAreRun(start: seq<Entry>, calls: seq<Call>, setup: Setup)
    requires |start| == TOP_URLS_MAX && AllBlank(start)
    ensures RunInFront(UrlsAfter(start, calls, setup), Min(setup.maxTopUrls, 256), UrlUpdates(calls, setup))
  {
    var n := Min(setup.maxTopUrls, 256);
    if calls == [] {
      assert n > 0 ==> start[..n] == Runs.Init(n).table;
    } else {
      var before, call := calls[..|calls| - 1], calls[|calls| - 1];
      UrlsAreRun(start, before, setup);
      FrontGoesOn(UrlsAfter(start, before, setup), n, UrlUpdates(before, setup), UrlUpdate(setup)(call));
    }
  }

  /** The hits in the URL table and those evicted from it are the calls with a path. */
  lemma {:induction false} UrlHitsConserved(start: seq<Entry>, calls: seq<Call>, setup: Setup)
    requires |start| == TOP_URLS_MAX && AllBlank(start) && setup.maxTopUrls > 0
    ensures var n := Min(setup.maxTopUrls, 256);
            SumOf(UrlsAfter(start, calls, setup)[..n], Runs.HitsOf) + Runs.Run(n, UrlUpdates(calls, setup)).erased
            == WithPath(calls)
  {
    UrlsAreRun(start, calls, setup);
    UrlUpdatesCount(calls, setup);
    Runs.HitsConserved(Min(setup.maxTopUrls, 256), UrlUpdates(calls, setup));
  }

  function Erred(call: Call): nat {
    if call.request.status == 0 || call.request.status >= 400 then 1 else 0
  }

  /** A request counts its bytes, its time, and itself if it failed. */
  function RequestMeasures(): Measures<Call> {
    Measures(Sent, Took, Erred, _ => 0, _ => 0, TimeOf)
  }

  function OfUrl(e: Entry, hash: Text -> nat): Call -> bool {
    (call: Call) => Lists(e, call.target.uri, hash)
  }

  lemma {:induction false} KeyUpdateCarries(key: Text, hash: Text -> nat, call: Call, e: Entry)
    ensures var u := KeyUpdate(key, hash, call.request, call.process.now);
            && (Lists(e, key, hash) <==> Runs.Concerns(u, EntryId(e)))
            && u.gain == Gain(Sent(call), Took(call), Erred(call), 0, 0) && u.now == TimeOf(call)
  {
    assert Truncated(key) == key[..Min(|key|, 127)];
  }

  /**
   After any sequence of calls every URL entry shows, over the calls for its
   path since its insertion: how many, their bytes, their time, how many ended
   without a status or with one from 400 up, and when the last one came.
   */
  lemma {:induction false} UrlEntriesShowRequests(start: seq<Entry>, calls: seq<Call>, setup: Setup, i: nat)
    requires |start| == TOP_URLS_MAX && AllBlank(start) && i < TOP_URLS_MAX && UrlsAfter(start, calls, setup)[i].hits > 0
    ensures i < Min(setup.maxTopUrls, 256)
    ensures var e := UrlsAfter(start, calls, setup)[i];
            var origin := Runs.Run(Min(setup.maxTopUrls, 256), UrlUpdates(calls, setup)).origin[i];
            && origin < |calls| && Lists(e, calls[origin].target.uri, setup.hash)
            && ShownBy(e) == ShownFor(calls[origin..], OfUrl(e, setup.hash), RequestMeasures())
  {
    UrlsAreRun(start, calls, setup);
    var n, urls := Min(setup.maxTopUrls, 256), UrlsAfter(start, calls, setup);
    var e := urls[i];
    assert e == urls[..n][i];
    forall k | 0 <= k < |calls|
      ensures Carries(calls[k], UrlUpdate(setup)(calls[k]), EntryId(e), OfUrl(e, setup.hash), RequestMeasures())
    {
      KeyUpdateCarries(calls[k].target.uri, setup.hash, calls[k], e);
    }
    EntryShows(n, calls, UrlUpdate(setup), i, OfUrl(e, setup.hash), RequestMeasures());
  }

  // ----- the user agents

  predicate HasAgent(call: Call) { call.target.agent.Some? }

  /** The calls that named a user agent. */
  function Named(calls: seq<Call>): seq<Call> {
    Kept(calls, HasAgent)
  }

  function AgentOf(call: Call): Text {
    if call.target.agent.Some? then call.target.agent.value else []
  }

  function AgentUpdate(hash: Text -> nat): Call -> Update {
    (call: Call) => KeyUpdate(AgentOf(call), hash, call.request, call.process.now)
  }

  function AgentStep(hash: Text -> nat): (seq<Entry>, Call) -> seq<Entry> {
    (table, call: Call) => if call.target.agent.Some? then Applied(table, AgentUpdate(hash)(call)) else table
  }

  /** The user-agent table after a sequence of calls. */
  function AgentsAfter(start: seq<Entry>, calls: seq<Call>, hash: Text -> nat): seq<Entry> {
    Fold(start, calls, AgentStep(hash))
  }

  /** The user-agent table is a run of one update for each call that named an agent. */
  lemma {:induction false} AgentsAreRun(start: seq<Entry>, calls: seq<Call>, hash: Text -> nat)
    requires |start| == TOP_UA_MAX && AllBlank(start)
    ensures AgentsAfter(start, calls, hash) == Runs.Run(TOP_UA_MAX, Mapped(Named(calls), AgentUpdate(hash))).table
  {
    FoldKept(start, calls, AgentStep(hash), HasAgent);
    FoldSame(start, Named(calls), AgentStep(hash), Updating(AgentUpdate(hash)));
    FoldIsRun(start, Named(calls), AgentUpdate(hash));
  }

  function OfAgent(e: Entry, hash: Text -> nat): Call -> bool {
    (call: Call) => Lists(e, AgentOf(call), hash)
  }

  /** Every user-agent entry shows the same over the calls of its agent since its insertion. */
  lemma {:induction false} AgentEntriesShowRequests(start: seq<Entry>, calls: seq<Call>, hash: Text -> nat, i: nat)
    requires |start| == TOP_UA_MAX && AllBlank(start) && i < TOP_UA_MAX
    requires i < |AgentsAfter(start, calls, hash)| && AgentsAfter(start, calls, hash)[i].hits > 0
    ensures var e := AgentsAfter(start, calls, hash)[i];
            var origin := Runs.Run(TOP_UA_MAX, Mapped(Named(calls), AgentUpdate(hash))).origin[i];
            && origin < |Named(calls)| && Lists(e, AgentOf(Named(calls)[origin]), hash)
            && ShownBy(e) == ShownFor(Named(calls)[origin..], OfAgent(e, hash), RequestMeasures())
  {
    AgentsAreRun(start, calls, hash);
    var e, named := AgentsAfter(start, calls, hash)[i], Named(calls);
    forall k | 0 <= k < |named|
      ensures Carries(named[k], AgentUpdate(hash)(named[k]), EntryId(e), OfAgent(e, hash), RequestMeasures())
    {
      KeyUpdateCarries(AgentOf(named[k]), hash, named[k], e);
    }
    EntryShows(TOP_UA_MAX, named, AgentUpdate(hash), i, OfAgent(e, hash), RequestMeasures());
  }

  // ----- the upstream peers

  /** An attempt and the call it was made for. */
  datatype Try = Try(attempt: Attempt, call: Call)

  function TriesOf(call: Call, n: nat): (tries: seq<Try>)
    requires n <= |call.target.attempts|
    ensures |tries| == n && forall i :: 0 <= i < n ==> tries[i] == Try(call.target.attempts[i], call)
  {
    if n == 0 then [] else TriesOf(call, n - 1) + [Try(call.target.attempts[n - 1], call)]
  }

  function AllTries(call: Call): seq<Try> { TriesOf(call, |call.target.attempts|) }

  /** All attempts of a sequence of calls, in order. */
  function Tries(calls: seq<Call>): seq<Try> {
    Flat(calls, AllTries)
  }

  function TryUpdate(hash: Text -> nat): Try -> Update {
    (x: Try) => AttemptUpdate(x.attempt, hash, x.call.request.latency, x.call.process.now)
  }

  function UpstreamStep(hash: Text -> nat): (seq<Entry>, Call) -> seq<Entry> {
    (table, call: Call) =>
      if table == [] then table
      else AttemptsApplied(table, call.target.attempts, hash, call.request.latency, call.process.now)
  }

  /** The upstream table after a sequence of calls. */
  function UpstreamsAfter(start: seq<Entry>, calls: seq<Call>, hash: Text -> nat): seq<Entry> {
    Fold(start, calls, UpstreamStep(hash))
  }

  lemma {:induction false} EmptyStays(xs: seq<Try>, hash: Text -> nat)
    ensures Fold([], xs, Updating(TryUpdate(hash))) == []
  {
    if xs != [] {
      EmptyStays(xs[..|xs| - 1], hash);
    }
  }

  /** The table after the first n attempts of a call. */
  function TriedUpTo(table: seq<Entry>, call: Call, hash: Text -> nat): nat -> seq<Entry>
    requires table != []
  {
    (n: nat) =>
      if n > |call.target.attempts| then []
      else AttemptsApplied(table, call.target.attempts[..n], hash, call.request.latency, call.process.now)
  }

  lemma {:induction false} UpdatingIs<T>(f: T -> Update, table: seq<Entry>, x: T)
    requires table != []
    ensures Updating(f)(table, x) == Apply(table, f(x))
  {
  }

  lemma {:induction false} TriedNext(table: seq<Entry>, call: Call, n: nat, hash: Text -> nat)
    requires table != [] && n < |call.target.attempts|
    ensures TriedUpTo(table, call, hash)(n + 1) ==
            Updating(TryUpdate(hash))(TriedUpTo(table, call, hash)(n), Try(call.target.attempts[n], call))
  {
    var attempts := call.target.attempts;
    assert attempts[..n + 1] == attempts[..n] + [attempts[n]];
    AttemptsNext(table, attempts[..n], attempts[n], hash, call.request.latency, call.process.now);
    UpdatingIs(TryUpdate(hash), TriedUpTo(table, call, hash)(n), Try(attempts[n], call));
  }

  lemma {:induction false} CallIsFolded(table: seq<Entry>, call: Call, hash: Text -> nat)
    ensures UpstreamStep(hash)(table, call) == Fold(table, AllTries(call), Updating(TryUpdate(hash)))
  {
    var n := |call.target.attempts|;
    if table == [] {
      EmptyStays(AllTries(call), hash);
    } else {
      forall i: nat | i < n
        ensures TriedUpTo(table, call, hash)(i + 1) ==
                Updating(TryUpdate(hash))(TriedUpTo(table, call, hash)(i), AllTries(call)[i])
      {
        TriedNext(table, call, i, hash);
      }
      FoldFollows(table, AllTries(call), Updating(TryUpdate(hash)), TriedUpTo(table, call, hash), n);
      assert AllTries(call)[..n] == AllTries(call) && call.target.attempts[..n] == call.target.attempts;
    }
  }

  /** The upstream table is a run of one update for each attempt. */
  lemma {:induction false} UpstreamsAreRun(start: seq<Entry>, calls: seq<Call>, hash: Text -> nat)
    requires |start| == UPSTREAMS_MAX && AllBlank(start)
    ensures UpstreamsAfter(start, calls, hash) == Runs.Run(UPSTREAMS_MAX, Mapped(Tries(calls), TryUpdate(hash))).table
  {
    forall table: seq<Entry>, i | 0 <= i < |calls|
      ensures UpstreamStep(hash)(table, calls[i]) == Fold(table, AllTries(calls[i]), Updating(TryUpdate(hash)))
    {
      CallIsFolded(table, calls[i], hash);
    }
    FoldFlat(start, calls, AllTries, UpstreamStep(hash), Updating(TryUpdate(hash)));
    FoldIsRun(start, Tries(calls), TryUpdate(hash));
  }

  lemma {:induction false} TriesAreEffective(xs: seq<Try>, hash: Text -> nat)
    ensures Runs.Effective(Mapped(xs, TryUpdate(hash))) == |xs|
  {
    if xs != [] {
      TriesAreEffective(xs[..|xs| - 1], hash);
      assert Mapped(xs, TryUpdate(hash))[..|xs| - 1] == Mapped(xs[..|xs| - 1], TryUpdate(hash));
    }
  }

  /** The hits in the upstream table and those evicted from it are the attempts. */
  lemma {:induction false} AttemptsConserved(start: seq<Entry>, calls: seq<Call>, hash: Text -> nat)
    requires |start| == UPSTREAMS_MAX && AllBlank(start)
    ensures SumOf(UpstreamsAfter(start, calls, hash), Runs.HitsOf)
            + Runs.Run(UPSTREAMS_MAX, Mapped(Tries(calls), TryUpdate(hash))).erased == |Tries(calls)|
  {
    UpstreamsAreRun(start, calls, hash);
    TriesAreEffective(Tries(calls), hash);
    Runs.HitsConserved(UPSTREAMS_MAX, Mapped(Tries(calls), TryUpdate(hash)));
  }

  /** The peer an attempt counts for. */
  function PeerName(x: Try): seq<Byte> {
    match x.attempt.peer
    case Some(name) => if name == [] then Spelled("unknown") else name
    case None => Spelled("unknown")
  }

  function Spelled(s: string): seq<Byte> {
    seq(|s|, i requires 0 <= i < |s| => s[i] as int % 256)
  }

  function TryTook(x: Try): nat {
    match x.attempt.responseTime
    case Some(time) => time
    case None => x.call.request.latency
  }

  function TryFailed(x: Try): nat { if x.attempt.status == 0 || x.attempt.status >= 500 then 1 else 0 }

  function Try4xx(x: Try): nat { if 400 <= x.attempt.status < 500 then 1 else 0 }

  function Try5xx(x: Try): nat { if x.attempt.status >= 500 then 1 else 0 }

  function TryTime(x: Try): nat { x.call.process.now }

  function TryMeasures(): Measures<Try> {
    Measures(_ => 0, TryTook, TryFailed, Try4xx, Try5xx, TryTime)
  }

  predicate ListsPeer(e: Entry, x: Try, hash: Text -> nat) {
    var name := PeerName(x);
    (forall i :: 0 <= i < |name| ==> name[i] != 0) && Lists(e, name, hash)
  }

  function OfPeer(e: Entry, hash: Text -> nat): Try -> bool {
    (x: Try) => ListsPeer(e, x, hash)
  }

  lemma {:induction false} TryCarries(x: Try, hash: Text -> nat, e: Entry)
    ensures Carries(x, TryUpdate(hash)(x), EntryId(e), OfPeer(e, hash), TryMeasures())
  {
    assert UNKNOWN == Spelled("unknown");
    assert PeerName(x) == PeerOf(x.attempt);
    assert Truncated(PeerOf(x.attempt)) == PeerOf(x.attempt)[..Min(|PeerOf(x.attempt)|, 127)];
  }

  /**
   Every upstream entry shows, over the attempts at its peer since its
   insertion: how many, the response times or else the requests' own, the
   failures without a status or from 500 up, the 4xx and the 5xx, and the time
   of the last one.
   */
  lemma {:induction false} PeerEntriesShowAttempts(start: seq<Entry>, calls: seq<Call>, hash: Text -> nat, i: nat)
    requires |start| == UPSTREAMS_MAX && AllBlank(start)
    requires i < UPSTREAMS_MAX && i < |UpstreamsAfter(start, calls, hash)| && UpstreamsAfter(start, calls, hash)[i].hits > 0
    ensures var e, tries := UpstreamsAfter(start, calls, hash)[i], Tries(calls);
            var origin := Runs.Run(UPSTREAMS_MAX, Mapped(tries, TryUpdate(hash))).origin[i];
            && origin < |tries| && ListsPeer(e, tries[origin], hash)
            && ShownBy(e) == ShownFor(tries[origin..], OfPeer(e, hash), TryMeasures())
  {
    UpstreamsAreRun(start, calls, hash);
    var e, tries := UpstreamsAfter(start, calls, hash)[i], Tries(calls);
    forall k | 0 <= k < |tries|
      ensures Carries(tries[k], TryUpdate(hash)(tries[k]), EntryId(e), OfPeer(e, hash), TryMeasures())
    {
      TryCarries(tries[k], hash, e);
    }
    EntryShows(UPSTREAMS_MAX, tries, TryUpdate(hash), i, OfPeer(e, hash), TryMeasures());
  }
}
