/**
 What a reader of the written lists finds under each name, in fields of the
 table's entries.
 */
module ListFields {
  import opened Bytes
  import opened Common
  import opened JsonText
  import opened ListText
  import opened TopList
  import opened TopTable

  function Find(members: seq<Member>, name: string): Option<Json> {
    if members == [] then None
    else if members[0].name == name then Some(members[0].value)
    else Find(members[1..], name)
  }

  /** The value of the first member of that name. */
  function Lookup(v: Json, name: string): Option<Json> {
    if v.Obj? then Find(v.members, name) else None
  }

  lemma {:induction false} FindsAt(members: seq<Member>, name: string, j: nat)
    requires j < |members| && members[j].name == name
    requires forall i :: 0 <= i < j ==> members[i].name != name
    ensures Find(members, name) == Some(members[j].value)
  {
    if j > 0 {
      FindsAt(members[1..], name, j - 1);
    }
  }

  /** A value with three decimals that is a nearest thousandth of a quotient, or 0 without a divisor. */
  ghost predicate ShowsQuotient(v: Option<Json>, total: nat, count: nat) {
    && v.Some? && v.value.Num? && |v.value.fraction| == 3
    && (forall i :: 0 <= i < 3 ==> IsDigit(v.value.fraction[i]))
    && var m := 1000 * v.value.whole + ValueOf(v.value.fraction);
       if count == 0 then m == 0 else 2000 * total - count <= 2 * count * m <= 2000 * total + count
  }

  lemma {:induction false} ThreeDigits(n: nat)
    requires n < 1000
    ensures ValueOf(Three(n)) == n
  {
    var d := Three(n);
    assert d[..2][..1] == [d[0]] && d[..1][..0] == "" && d[..2][1] == d[1];
    assert ValueOf(d[..1]) == n / 100;
    assert ValueOf(d[..2]) == 10 * (n / 100) + n / 10 % 10;
    TenTimes(n);
  }

  lemma {:induction false} TenTimes(n: nat)
    requires n < 1000
    ensures 10 * (10 * (n / 100) + n / 10 % 10) + n % 10 == n
  {
    assert n / 100 == n / 10 / 10;
  }

  lemma {:induction false} AverageShows(total: nat, count: nat)
    ensures ShowsQuotient(Some(Average(total, count)), total, count)
  {
    var m := if count == 0 then 0 else AvgMilli(total, count);
    ThreeDigits(m % 1000);
    assert m == 1000 * (m / 1000) + m % 1000;
    if count > 0 {
      AvgIsNearest(total, count);
    }
  }

  // ----- the top tables

  /** An object shows an entry: the first 127 bytes of its key under the list's own name, and every counter. */
  ghost predicate ShowsEntry(v: Json, e: Entry, name: string) {
    && Lookup(v, name) == Some(Str(Chars(CString(e.key)[..Min(|CString(e.key)|, 127)])))
    && Lookup(v, "hits") == Some(Num(e.hits, ""))
    && Lookup(v, "errors") == Some(Num(e.gain.errors, ""))
    && Lookup(v, "bytes") == Some(Num(e.gain.bytes, ""))
    && ShowsQuotient(Lookup(v, "avg_latency"), e.gain.latency, e.hits)
    && Lookup(v, "last_seen") == Some(Num(e.lastSeen, ""))
  }

  ghost predicate OwnName(name: string) {
    name == "url" || name == "user_agent"
  }

  lemma {:induction false} CutTo127(key: Text)
    ensures Truncated(key) == key[..Min(|key|, 127)]
  {
  }

  lemma {:induction false} ObjectShowsEntry(e: Entry, name: string)
    requires OwnName(name)
    ensures ShowsEntry(Obj(TopMembers(ViewOf(e), name)), e, name)
  {
    var m := TopMembers(ViewOf(e), name);
    CutTo127(CString(e.key));
    FindsAt(m, name, 0);
    FindsAt(m, "hits", 1);
    FindsAt(m, "errors", 2);
    FindsAt(m, "bytes", 3);
    FindsAt(m, "avg_latency", 4);
    FindsAt(m, "last_seen", 5);
    AverageShows(e.gain.latency, e.hits);
  }

  lemma {:induction false} OccupiedIsHit(table: seq<Entry>, j: nat) returns (k: nat)
    requires j < |Occupied(table)|
    ensures k < |table| && table[k].hits > 0 && table[k] == Occupied(table)[j]
  {
    var last := |table| - 1;
    if j < |Occupied(table[..last])| {
      k := OccupiedIsHit(table[..last], j);
    } else {
      k := last;
    }
  }

  /** Every object of a list shows a slot that was hit. */
  lemma {:induction false} ItemShowsSlot(table: seq<Entry>, name: string, i: nat) returns (k: nat)
    requires OwnName(name) && i < |TopArray(table, name).items|
    ensures k < |table| && table[k].hits > 0 && ShowsEntry(TopArray(table, name).items[i], table[k], name)
  {
    var views := Views(Occupied(table));
    SortedIsStableSort(views);
    assert Sorted(views)[i] in multiset(Sorted(views));
    var j :| 0 <= j < |views| && views[j] == Sorted(views)[i];
    k := OccupiedIsHit(table, j);
    ObjectShowsEntry(table[k], name);
  }

  /** Every slot that was hit is shown by an object of the list. */
  lemma {:induction false} SlotIsShown(table: seq<Entry>, name: string, k: nat) returns (i: nat)
    requires OwnName(name) && k < |table| && table[k].hits > 0
    ensures i < |TopArray(table, name).items| && ShowsEntry(TopArray(table, name).items[i], table[k], name)
  {
    var views := Views(Occupied(table));
    OccupiedPrefix(table, k);
    SortedIsStableSort(views);
    var v := ViewOf(table[k]);
    assert views[|Occupied(table[..k])|] == v;
    assert v in multiset(Sorted(views));
    i :| 0 <= i < |Sorted(views)| && Sorted(views)[i] == v;
    ObjectShowsEntry(table[k], name);
  }

  /** There are as many objects as hit slots, and the hits they show never rise. */
  lemma {:induction false} ItemsAreOrdered(table: seq<Entry>, name: string, i: nat, j: nat) returns (x: nat, y: nat)
    requires OwnName(name) && i < j < |TopArray(table, name).items|
    ensures |TopArray(table, name).items| == |Occupied(table)|
    ensures var items := TopArray(table, name).items;
            Lookup(items[i], "hits") == Some(Num(x, "")) && Lookup(items[j], "hits") == Some(Num(y, "")) && x >= y
  {
    var s := Sorted(Views(Occupied(table)));
    SortedIsStableSort(Views(Occupied(table)));
    x, y := s[i].hits, s[j].hits;
    FindsAt(TopMembers(s[i], name), "hits", 1);
    FindsAt(TopMembers(s[j], name), "hits", 1);
  }

  // ----- the upstream table

  ghost predicate ShowsPeer(v: Json, e: Entry) {
    && Lookup(v, "peer") == Some(Str(Chars(CString(e.key))))
    && Lookup(v, "requests") == Some(Num(e.hits, ""))
    && Lookup(v, "failures") == Some(Num(e.gain.errors, ""))
    && Lookup(v, "status_4xx") == Some(Num(e.gain.s4xx, ""))
    && Lookup(v, "status_5xx") == Some(Num(e.gain.s5xx, ""))
    && ShowsQuotient(Lookup(v, "avg_latency"), e.gain.latency, e.hits)
    && Lookup(v, "last_seen") == Some(Num(e.lastSeen, ""))
  }

  lemma {:induction false} ObjectShowsPeer(e: Entry)
    ensures ShowsPeer(Obj(PeerMembers(e)), e)
  {
    var m := PeerMembers(e);
    assert "requests"[0] != "failures"[0] && "status_4xx"[7] != "status_5xx"[7];
    FindsAt(m, "peer", 0);
    FindsAt(m, "requests", 1);
    FindsAt(m, "failures", 2);
    FindsAt(m, "status_4xx", 3);
    FindsAt(m, "status_5xx", 4);
    FindsAt(m, "avg_latency", 5);
    FindsAt(m, "last_seen", 6);
    AverageShows(e.gain.latency, e.hits);
  }

  /** The object of a hit peer stands where its slot stands among the hit ones. */
  lemma {:induction false} PeerIsShown(table: seq<Entry>, k: nat)
    requires k < |table| && table[k].hits > 0
    ensures var i := |Occupied(table[..k])|;
            i < |PeerArray(table).items| && ShowsPeer(PeerArray(table).items[i], table[k])
  {
    OccupiedPrefix(table, k);
    ObjectShowsPeer(table[k]);
  }

  // ----- both top tables in their object

  /** The pieces written around the two lists are members of the enclosing object, after one that ends in an array. */
  lemma {:induction false} TopTablesRead(urls: seq<Entry>, agents: seq<Entry>, first: string)
    requires Plain(first) && first != "top_urls" && first != "user_agents"
    ensures var text := "{\"" + first + "\":" + "[" + TopTablesText(urls, agents);
            exists v :: Read(text) == Some((v, ""))
                        && Lookup(v, "top_urls") == Some(TopArray(urls, "url"))
                        && Lookup(v, "user_agents") == Some(TopArray(agents, "user_agent"))
  {
    var members := [Member(first, Arr([])), Member("top_urls", TopArray(urls, "url")),
                    Member("user_agents", TopArray(agents, "user_agent"))];
    EnclosingText(first, members[1], members[2]);
    TopArrayIsProper(urls, "url");
    TopArrayIsProper(agents, "user_agent");
    ProperObject(members);
    DocumentRoundTrip(Obj(members));
    FindsAt(members, "top_urls", 1);
    FindsAt(members, "user_agents", 2);
    assert Print(Obj(members)) == "{\"" + first + "\":" + "[" + TopTablesText(urls, agents);
  }

  lemma {:induction false} FieldsOfTwo(x: Member, y: Member)
    ensures Fields([x, y]) == (",\"" + x.name + "\":" + Print(x.value)) + (",\"" + y.name + "\":" + Print(y.value))
  {
    assert [x, y][1..] == [y] && [y][1..] == [];
    assert Fields([y]) == ",\"" + y.name + "\":" + Print(y.value);
  }

  lemma {:induction false} Seam(open: string, x: string, a: string, y: string, b: string)
    ensures open + "[]" + ((x + a) + (y + b) + "}") == open + "[" + (("]" + x) + a + (y + b + "}"))
  {
    assert "[]" == "[" + "]";
  }

  lemma {:induction false} ObjectOfThree(first: string, x: Member, y: Member)
    requires Plain(first) && Plain(x.name) && Plain(y.name)
    ensures Print(Obj([Member(first, Arr([])), x, y])) ==
            "{\"" + first + "\":" + "[]"
            + ((",\"" + x.name + "\":" + Print(x.value)) + (",\"" + y.name + "\":" + Print(y.value)) + "}")
  {
    var members := [Member(first, Arr([])), x, y];
    ObjectText(members);
    assert members[1..] == [x, y] && Print(Arr([])) == "[]";
    FieldsOfTwo(x, y);
  }

  lemma {:induction false} ListNames()
    ensures Plain("top_urls") && Plain("user_agents")
    ensures ",\"" + "top_urls" + "\":" == ",\"top_urls\":" && ",\"" + "user_agents" + "\":" == ",\"user_agents\":"
    ensures "]" + ",\"top_urls\":" == "],\"top_urls\":"
  {
  }

  lemma {:induction false} EnclosingText(first: string, x: Member, y: Member)
    requires Plain(first) && x.name == "top_urls" && y.name == "user_agents"
    ensures Print(Obj([Member(first, Arr([])), x, y])) ==
            "{\"" + first + "\":" + "["
            + ("],\"top_urls\":" + Print(x.value) + (",\"user_agents\":" + Print(y.value) + "}"))
  {
    ListNames();
    ObjectOfThree(first, x, y);
    Seam("{\"" + first + "\":", ",\"top_urls\":", Print(x.value), ",\"user_agents\":", Print(y.value));
  }
}
