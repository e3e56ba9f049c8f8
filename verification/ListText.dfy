/** The arrays written for the top tables and for the upstream table. */
module ListText {
  import opened Bytes
  import opened Common
  import opened JsonText
  import opened JsonWriter
  import opened TopList
  import opened TopTable

  function Chars(t: seq<Byte>): (s: string)
    ensures |s| == |t| && forall i :: 0 <= i < |s| ==> s[i] as int == t[i]
  {
    seq(|t|, i requires 0 <= i < |t| => t[i] as char)
  }

  // ----- an average shown with three decimals

  function AvgMilli(total: nat, count: nat): nat
    requires count > 0
  {
    (2000 * total + count) / (2 * count)
  }

  /** It is a nearest thousandth of the quotient. */
  lemma {:induction false} AvgIsNearest(total: nat, count: nat)
    requires count > 0
    ensures 2000 * total - count <= 2 * count * AvgMilli(total, count) <= 2000 * total + count
  {
    var x, d := 2000 * total + count, 2 * count;
    assert x == d * (x / d) + x % d;
  }

  function Three(n: nat): (d: string)
    requires n < 1000
    ensures |d| == 3 && forall i :: 0 <= i < |d| ==> IsDigit(d[i])
  {
    [DigitOf(n / 100), DigitOf(n / 10 % 10), DigitOf(n % 10)]
  }

  function Average(total: nat, count: nat): (j: Json)
    ensures j.Num? && JsonText.Proper(j)
  {
    var m := if count == 0 then 0 else AvgMilli(total, count);
    Num(m / 1000, Three(m % 1000))
  }

  function Count(n: nat): Json { Num(n, "") }

  // ----- objects as they are written: one opening write, then a formatted tail

  /** Characters the escaper leaves alone. */
  ghost predicate Plain(s: string) {
    forall i :: 0 <= i < |s| ==> ' ' <= s[i] && s[i] != '"' && s[i] != '\\'
  }

  lemma {:induction false} PlainEscape(s: string)
    requires Plain(s)
    ensures Escape(s) == s
  {
    if s != "" {
      assert forall i :: 0 <= i < |s[1..]| ==> s[1..][i] == s[i + 1];
      PlainEscape(s[1..]);
    }
  }

  function Fields(members: seq<Member>): string {
    if members == [] then "" else
    ",\"" + members[0].name + "\":" + Print(members[0].value) + Fields(members[1..])
  }

  ghost predicate PlainNames(members: seq<Member>) {
    forall i :: 0 <= i < |members| ==> Plain(members[i].name)
  }

  lemma {:induction false} MemberText(m: Member)
    requires Plain(m.name)
    ensures PrintMember(m) == "\"" + m.name + "\":" + Print(m.value)
  {
    PlainEscape(m.name);
    assert "\"" + m.name + "\"" + ":" == "\"" + m.name + "\":";
  }

  lemma {:induction false} MembersText(members: seq<Member>)
    requires members != [] && PlainNames(members)
    ensures PrintMembers(members) == PrintMember(members[0]) + Fields(members[1..])
  {
    var m, more := members[0], members[1..];
    if more != [] {
      MembersText(more);
      MemberText(more[0]);
      CommaFirst(more[0].name, Print(more[0].value), Fields(more[1..]));
      Group(PrintMember(m), ",", PrintMembers(more));
    }
  }

  lemma {:induction false} CommaFirst(name: string, value: string, rest: string)
    ensures "," + (("\"" + name + "\":" + value) + rest) == ",\"" + name + "\":" + value + rest
  {
    assert "," + "\"" == ",\"";
  }

  lemma {:induction false} ObjectText(members: seq<Member>)
    requires members != [] && PlainNames(members)
    ensures Print(Obj(members)) ==
            "{\"" + members[0].name + "\":" + Print(members[0].value) + (Fields(members[1..]) + "}")
  {
    MembersText(members);
    MemberText(members[0]);
    Braced(members[0].name, Print(members[0].value), Fields(members[1..]));
  }

  lemma {:induction false} Braced(name: string, value: string, rest: string)
    ensures "{" + (("\"" + name + "\":" + value) + rest) + "}" == "{\"" + name + "\":" + value + (rest + "}")
  {
    assert "{" + "\"" == "{\"";
  }

  // ----- arrays

  lemma {:induction false} ItemsNext(items: seq<Json>, v: Json)
    ensures PrintItems(items + [v]) == if items == [] then Print(v) else PrintItems(items) + "," + Print(v)
  {
    if items == [] {
      assert items + [v] == [v];
    } else {
      assert (items + [v])[1..] == items[1..] + [v];
      ItemsNext(items[1..], v);
      if |items| > 1 {
        Regroup(Print(items[0]), ",", PrintItems(items[1..]), "," + Print(v));
        Group(PrintItems(items[1..]), ",", Print(v));
        Group(Print(items[0]) + "," + PrintItems(items[1..]), ",", Print(v));
        Group(Print(items[0]), ",", PrintItems(items[1..]) + "," + Print(v));
      }
    }
  }

  lemma {:induction false} ProperArray(items: seq<Json>)
    requires forall i :: 0 <= i < |items| ==> JsonText.Proper(items[i])
    ensures ProperItems(items)
  {
    if items != [] {
      assert forall i :: 0 <= i < |items[1..]| ==> items[1..][i] == items[i + 1];
      ProperArray(items[1..]);
    }
  }

  lemma {:induction false} ProperObject(members: seq<Member>)
    requires forall i :: 0 <= i < |members| ==> JsonText.Proper(members[i].value)
    ensures ProperMembers(members)
  {
    if members != [] {
      assert forall i :: 0 <= i < |members[1..]| ==> members[1..][i] == members[i + 1];
      ProperObject(members[1..]);
    }
  }

  /** A whole document reads back with nothing left over. */
  lemma {:induction false} DocumentRoundTrip(v: Json)
    requires JsonText.Proper(v)
    ensures Read(Print(v)) == Some((v, ""))
  {
    PrintRoundTrip(v);
    assert Print(v) + "" == Print(v);
  }

  // ----- top tables

  function TopMembers(v: View, name: string): (m: seq<Member>)
    ensures |m| == 6
  {
    [Member(name, Str(Chars(v.text))),
     Member("hits", Count(v.hits)), Member("errors", Count(v.errors)), Member("bytes", Count(v.bytes)),
     Member("avg_latency", Average(v.latency, v.hits)), Member("last_seen", Count(v.lastSeen))]
  }

  function TopItems(views: seq<View>, name: string): (items: seq<Json>)
    ensures |items| == |views|
    ensures forall i :: 0 <= i < |items| ==> items[i] == Obj(TopMembers(views[i], name))
  {
    seq(|views|, i requires 0 <= i < |views| => Obj(TopMembers(views[i], name)))
  }

  function TopArray(table: seq<Entry>, name: string): Json {
    Arr(TopItems(Sorted(Views(Occupied(table))), name))
  }

  lemma {:induction false} FixedNamesArePlain()
    ensures Plain("hits") && Plain("errors") && Plain("bytes") && Plain("avg_latency") && Plain("last_seen")
    ensures Plain("peer") && Plain("requests") && Plain("failures") && Plain("status_4xx") && Plain("status_5xx")
  {
  }

  lemma {:induction false} TopObject(v: View, name: string)
    requires Plain(name)
    ensures Print(Obj(TopMembers(v, name))) ==
            "{\"" + name + "\":" + Quote(Chars(v.text)) + (Fields(TopMembers(v, name)[1..]) + "}")
  {
    FixedNamesArePlain();
    ObjectText(TopMembers(v, name));
  }

  lemma {:induction false} TopObjectIsProper(v: View, name: string)
    ensures JsonText.Proper(Obj(TopMembers(v, name)))
  {
    ProperObject(TopMembers(v, name));
  }

  lemma {:induction false} TopItemsAreProper(views: seq<View>, name: string)
    ensures ProperItems(TopItems(views, name))
  {
    var items := TopItems(views, name);
    forall i | 0 <= i < |items|
      ensures JsonText.Proper(items[i])
    {
      TopObjectIsProper(views[i], name);
    }
    ProperArray(items);
  }

  lemma {:induction false} TopArrayIsProper(table: seq<Entry>, name: string)
    ensures JsonText.Proper(TopArray(table, name))
  {
    TopItemsAreProper(Sorted(Views(Occupied(table))), name);
  }

  lemma {:induction false} SourceNamesArePlain()
    ensures Plain("url") && Plain("user_agent")
  {
  }

  lemma {:induction false} OpenedThenTail(before: string, name: string, value: string, tail: string)
    ensures before + "{\"" + name + "\":" + value + tail == before + ("{\"" + name + "\":" + value + tail)
  {
  }

  /** The entry's key, escaped, and then the formatted counters. */
  method WriteTop(w: Writer, v: View, name: string)
    requires w.Valid() && Plain(name)
    modifies w, w.buf
    ensures w.Valid() && w.full == old(w.full) + Print(Obj(TopMembers(v, name)))
    ensures w.starved == old(w.starved) && (old(w.failed) ==> w.failed)
  {
    ghost var before := w.full;
    w.Append("{\"");
    w.Append(name);
    w.Append("\":");
    w.String(Chars(v.text));
    w.Printf(Fields(TopMembers(v, name)[1..]) + "}");
    TopObject(v, name);
    OpenedThenTail(before, name, Quote(Chars(v.text)), Fields(TopMembers(v, name)[1..]) + "}");
  }

  /** An array with its first i items written and no closing bracket yet. */
  ghost function Opened(before: string, items: seq<Json>, i: nat): string
    requires i <= |items|
  {
    before + ("[" + PrintItems(items[..i]))
  }

  /** One more item in an array under way. */
  lemma {:induction false} ArrayGrows(before: string, items: seq<Json>, i: nat)
    requires i < |items|
    ensures Opened(before, items, i) + (if i == 0 then "" else ",") + Print(items[i]) == Opened(before, items, i + 1)
  {
    assert items[..i + 1] == items[..i] + [items[i]];
    ItemsNext(items[..i], items[i]);
  }

  lemma {:induction false} ArrayCloses(before: string, items: seq<Json>)
    ensures Opened(before, items, |items|) + "]" == before + Print(Arr(items))
  {
    assert items[..|items|] == items;
  }

  /** What an unfailed writer holds since a call began is what the call wrote. */
  lemma {:induction false} WrittenSince(w: Writer, before: string, v: Json)
    requires w.Valid() && !w.failed && w.full == before + Print(v) && JsonText.Proper(v)
    ensures Read(w.buf[|before|..w.pos]) == Some((v, ""))
  {
    assert w.buf[..w.pos] == before + Print(v);
    assert w.buf[|before|..w.pos] == Print(v);
    DocumentRoundTrip(v);
  }

  method WriteNextTop(w: Writer, v: View, name: string, i: nat, ghost before: string, ghost items: seq<Json>)
    requires w.Valid() && Plain(name)
    requires i < |items| && items[i] == Obj(TopMembers(v, name)) && w.full == Opened(before, items, i)
    modifies w, w.buf
    ensures w.Valid() && w.full == Opened(before, items, i + 1)
    ensures w.starved == old(w.starved) && (old(w.failed) ==> w.failed)
  {
    ArrayGrows(before, items, i);
    if i > 0 {
      w.Append(",");
    }
    WriteTop(w, v, name);
  }

  method WriteViews(w: Writer, view: array<View>, n: nat, name: string)
    requires w.Valid() && Plain(name) && n <= view.Length
    modifies w, w.buf
    ensures w.Valid() && w.full == old(w.full) + Print(Arr(TopItems(view[..n], name)))
    ensures w.starved == old(w.starved) && (old(w.failed) ==> w.failed)
  {
    ghost var before, items := w.full, TopItems(view[..n], name);
    w.Append("[");
    for i := 0 to n
      invariant w.Valid() && w.full == Opened(before, items, i)
      invariant w.starved == old(w.starved) && (old(w.failed) ==> w.failed)
    {
      WriteNextTop(w, view[i], name, i, before, items);
    }
    w.Append("]");
    ArrayCloses(before, items);
  }

  /** `json_top_entries`; the scratch memory for the view may not be there. */
  method WriteTopEntries(w: Writer, entries: array<Entry>, capacity: nat, name: string, haveMemory: bool)
    requires w.Valid() && capacity <= entries.Length && Plain(name)
    modifies w, w.buf
    ensures w.Valid() && w.full == old(w.full) + Print(TopArray(entries[..capacity], name))
    ensures old(w.failed) || !haveMemory ==> w.failed
    ensures w.starved == (old(w.starved) || !haveMemory)
    ensures !w.failed ==> Read(w.buf[old(w.pos)..w.pos]) == Some((TopArray(entries[..capacity], name), ""))
  {
    ghost var before, shown := w.full, TopArray(entries[..capacity], name);
    if haveMemory {
      var view, n := BuildView(entries, capacity);
      SortTop(view, n);
      WriteViews(w, view, n, name);
      if !w.failed {
        TopArrayIsProper(entries[..capacity], name);
        WrittenSince(w, before, shown);
      }
    } else {
      assert Print(shown)[0] == '[';
      w.Starve(Print(shown));
    }
  }

  /** The end of the requests object: both top tables, each under its own key name. */
  function TopTablesText(urls: seq<Entry>, agents: seq<Entry>): string {
    "],\"top_urls\":" + Print(TopArray(urls, "url")) + (",\"user_agents\":" + Print(TopArray(agents, "user_agent")) + "}")
  }

  lemma {:induction false} TopTablesGroup(before: string, a: string, x: string, b: string, y: string, c: string)
    ensures before + a + x + b + y + c == before + (a + x + (b + y + c))
  {
    Group(before, a, x);
    Group(before + (a + x), b, y);
    Group(before + (a + x), b + y, c);
    Group(before, a + x, b + y + c);
  }

  method WriteTopTables(w: Writer, urls: array<Entry>, agents: array<Entry>, urlMemory: bool, agentMemory: bool)
    requires w.Valid() && urls.Length == TOP_URLS_MAX && agents.Length == TOP_UA_MAX
    modifies w, w.buf
    ensures w.Valid() && w.full == old(w.full) + TopTablesText(urls[..], agents[..])
    ensures old(w.failed) || !urlMemory || !agentMemory ==> w.failed
  {
    SourceNamesArePlain();
    ghost var before := w.full;
    assert urls[..TOP_URLS_MAX] == urls[..] && agents[..TOP_UA_MAX] == agents[..];
    w.Append("],\"top_urls\":");
    WriteTopEntries(w, urls, TOP_URLS_MAX, "url", urlMemory);
    w.Append(",\"user_agents\":");
    WriteTopEntries(w, agents, TOP_UA_MAX, "user_agent", agentMemory);
    w.Append("}");
    TopTablesGroup(before, "],\"top_urls\":", Print(TopArray(urls[..], "url")),
                   ",\"user_agents\":", Print(TopArray(agents[..], "user_agent")), "}");
  }

  // ----- the upstream table

  function PeerMembers(e: Entry): (m: seq<Member>)
    ensures |m| == 7
  {
    [Member("peer", Str(Chars(CString(e.key)))),
     Member("requests", Count(e.hits)), Member("failures", Count(e.gain.errors)),
     Member("status_4xx", Count(e.gain.s4xx)), Member("status_5xx", Count(e.gain.s5xx)),
     Member("avg_latency", Average(e.gain.latency, e.hits)), Member("last_seen", Count(e.lastSeen))]
  }

  function PeerItems(entries: seq<Entry>): (items: seq<Json>)
    ensures |items| == |entries|
    ensures forall i :: 0 <= i < |items| ==> items[i] == Obj(PeerMembers(entries[i]))
  {
    seq(|entries|, i requires 0 <= i < |entries| => Obj(PeerMembers(entries[i])))
  }

  function PeerArray(table: seq<Entry>): Json {
    Arr(PeerItems(Occupied(table)))
  }

  lemma {:induction false} PeerObject(e: Entry)
    ensures Print(Obj(PeerMembers(e))) ==
            "{\"" + "peer" + "\":" + Quote(Chars(CString(e.key))) + (Fields(PeerMembers(e)[1..]) + "}")
  {
    FixedNamesArePlain();
    ObjectText(PeerMembers(e));
  }

  lemma {:induction false} PeerObjectIsProper(e: Entry)
    ensures JsonText.Proper(Obj(PeerMembers(e)))
  {
    ProperObject(PeerMembers(e));
  }

  lemma {:induction false} PeerArrayIsProper(table: seq<Entry>)
    ensures JsonText.Proper(PeerArray(table))
  {
    var entries := Occupied(table);
    var items := PeerItems(entries);
    forall i | 0 <= i < |items|
      ensures JsonText.Proper(items[i])
    {
      PeerObjectIsProper(entries[i]);
    }
    ProperArray(items);
  }

  method WritePeer(w: Writer, e: Entry)
    requires w.Valid()
    modifies w, w.buf
    ensures w.Valid() && w.full == old(w.full) + Print(Obj(PeerMembers(e)))
    ensures w.starved == old(w.starved) && (old(w.failed) ==> w.failed)
  {
    ghost var before := w.full;
    w.Append("{\"peer\":");
    w.String(Chars(CString(e.key)));
    w.Printf(Fields(PeerMembers(e)[1..]) + "}");
    PeerObject(e);
    assert "{\"peer\":" == "{\"" + "peer" + "\":";
    Group(before, "{\"peer\":", Quote(Chars(CString(e.key))));
    Group(before, "{\"peer\":" + Quote(Chars(CString(e.key))), Fields(PeerMembers(e)[1..]) + "}");
  }

  method WriteNextPeer(w: Writer, e: Entry, i: nat, ghost before: string, ghost items: seq<Json>)
    requires w.Valid()
    requires i < |items| && items[i] == Obj(PeerMembers(e)) && w.full == Opened(before, items, i)
    modifies w, w.buf
    ensures w.Valid() && w.full == Opened(before, items, i + 1)
    ensures w.starved == old(w.starved) && (old(w.failed) ==> w.failed)
  {
    ArrayGrows(before, items, i);
    if i > 0 {
      w.Append(",");
    }
    WritePeer(w, e);
  }

  /** `json_upstreams`, straight from the table: every slot that was hit, in slot order. */
  method WriteUpstreams(w: Writer, upstreams: array<Entry>)
    requires w.Valid() && forall i :: 0 <= i < upstreams.Length ==> |CString(upstreams[i].key)| < |upstreams[i].key|
    modifies w, w.buf
    ensures w.Valid() && w.full == old(w.full) + Print(PeerArray(upstreams[..]))
    ensures w.starved == old(w.starved) && (old(w.failed) ==> w.failed)
    ensures !w.failed ==> Read(w.buf[old(w.pos)..w.pos]) == Some((PeerArray(upstreams[..]), ""))
  {
    ghost var before, table := w.full, upstreams[..];
    ghost var items := PeerItems(Occupied(table));
    var emitted := 0;
    w.Append("[");
    for i := 0 to upstreams.Length
      invariant emitted == |Occupied(table[..i])| && emitted <= |items|
      invariant w.Valid() && w.full == Opened(before, items, emitted)
      invariant w.starved == old(w.starved) && (old(w.failed) ==> w.failed)
    {
      OccupiedPrefix(table, i);
      if upstreams[i].hits == 0 {
        continue;
      }
      WriteNextPeer(w, upstreams[i], emitted, before, items);
      emitted := emitted + 1;
    }
    assert table[..upstreams.Length] == table;
    w.Append("]");
    ArrayCloses(before, items);
    if !w.failed {
      PeerArrayIsProper(table);
      WrittenSince(w, before, PeerArray(table));
    }
  }
}
