/**
 When the lists of the API are well-formed UTF-8: as far as the keys shown are,
 and those as far as the cut to the key buffer leaves their characters whole.
 */
module ListUtf8 {
  import opened Bytes
  import opened JsonText
  import opened ListText
  import opened TopList
  import opened TopTable
  import Runs = TopTableRuns
  import U = Utf8Text

  predicate NamedNumber(m: Member) {
    m.value.Num? && U.IsAscii(m.name)
  }

  lemma {:induction false} NumbersWellFormed(members: seq<Member>)
    requires forall i :: 0 <= i < |members| ==> NamedNumber(members[i])
    ensures U.MembersWellFormed(members)
  {
    if members != [] {
      assert forall i :: 0 <= i < |members[1..]| ==> members[1..][i] == members[i + 1];
      assert NamedNumber(members[0]);
      U.JudgedAscii(members[0].name);
      NumbersWellFormed(members[1..]);
    }
  }

  /** One string first and only numbers after it: the string decides. */
  lemma {:induction false} KeyDecides(members: seq<Member>, name: string, text: string)
    requires members != [] && members[0] == Member(name, Str(text)) && U.IsAscii(name)
    requires forall i :: 1 <= i < |members| ==> NamedNumber(members[i])
    ensures U.AllWellFormed(Obj(members)) <==> U.WellFormed(text)
  {
    U.JudgedAscii(name);
    assert forall i :: 0 <= i < |members[1..]| ==> members[1..][i] == members[i + 1];
    NumbersWellFormed(members[1..]);
    assert U.AllWellFormed(Str(text)) == U.WellFormed(text);
    assert U.MembersWellFormed(members) ==
           (U.WellFormed(name) && U.AllWellFormed(members[0].value) && U.MembersWellFormed(members[1..]));
  }

  ghost predicate KeysWellFormed(views: seq<View>) {
    forall i :: 0 <= i < |views| ==> U.WellFormed(Chars(views[i].text))
  }

  lemma {:induction false} TopItemWellFormed(views: seq<View>, name: string, i: nat)
    requires U.IsAscii(name) && i < |views|
    ensures U.AllWellFormed(TopItems(views, name)[i]) <==> U.WellFormed(Chars(views[i].text))
  {
    KeyDecides(TopMembers(views[i], name), name, Chars(views[i].text));
  }

  lemma {:induction false} TopItemsWellFormed(views: seq<View>, name: string)
    requires U.IsAscii(name)
    ensures U.ItemsWellFormed(TopItems(views, name)) <==> KeysWellFormed(views)
  {
    var items := TopItems(views, name);
    U.ItemsWellFormedAll(items);
    forall i | 0 <= i < |views|
      ensures U.AllWellFormed(items[i]) <==> U.WellFormed(Chars(views[i].text))
    {
      TopItemWellFormed(views, name, i);
    }
  }

  /** The list of a top table is well-formed UTF-8 if and only if every key shown is. */
  lemma {:induction false} TopTextWellFormedIff(table: seq<Entry>, name: string)
    requires U.IsAscii(name)
    ensures U.WellFormed(Print(TopArray(table, name))) <==> KeysWellFormed(Sorted(Views(Occupied(table))))
  {
    TopArrayIsProper(table, name);
    U.PrintWellFormedIff(TopArray(table, name));
    TopItemsWellFormed(Sorted(Views(Occupied(table))), name);
  }

  lemma {:induction false} PeerItemWellFormed(entries: seq<Entry>, i: nat)
    requires i < |entries|
    ensures U.AllWellFormed(PeerItems(entries)[i]) <==> U.WellFormed(Chars(CString(entries[i].key)))
  {
    KeyDecides(PeerMembers(entries[i]), "peer", Chars(CString(entries[i].key)));
  }

  ghost predicate PeersWellFormed(entries: seq<Entry>) {
    forall i :: 0 <= i < |entries| ==> U.WellFormed(Chars(CString(entries[i].key)))
  }

  lemma {:induction false} PeerItemsWellFormed(entries: seq<Entry>)
    ensures U.ItemsWellFormed(PeerItems(entries)) <==> PeersWellFormed(entries)
  {
    var items := PeerItems(entries);
    U.ItemsWellFormedAll(items);
    forall i | 0 <= i < |entries|
      ensures U.AllWellFormed(items[i]) <==> U.WellFormed(Chars(CString(entries[i].key)))
    {
      PeerItemWellFormed(entries, i);
    }
  }

  /** The list of the upstreams is well-formed UTF-8 if and only if every peer shown is. */
  lemma {:induction false} PeerTextWellFormedIff(table: seq<Entry>)
    ensures U.WellFormed(Print(PeerArray(table))) <==> PeersWellFormed(Occupied(table))
  {
    PeerArrayIsProper(table);
    U.PrintWellFormedIff(PeerArray(table));
    PeerItemsWellFormed(Occupied(table));
  }

  // ----- the cut

  /** The byte at which a key is cut does not go on with a character. */
  predicate Kept(key: Text) {
    |key| < KEY_LEN || !(0x80 <= key[KEY_LEN - 1] <= 0xBF)
  }

  /** A well-formed key is well-formed after the cut if and only if the cut falls between two characters. */
  lemma {:induction false} CutKeepsIff(key: Text)
    requires U.WellFormed(Chars(key))
    ensures U.WellFormed(Chars(Truncated(key))) <==> Kept(key)
  {
    if |key| >= KEY_LEN {
      U.PrefixIff(Chars(key), KEY_LEN - 1);
      assert Chars(Truncated(key)) == Chars(key)[..KEY_LEN - 1];
    }
  }

  /** A key of letters and one two-byte character that the cut splits. */
  lemma {:induction false} CutCanSplit() returns (key: Text)
    ensures U.WellFormed(Chars(key)) && !U.WellFormed(Chars(Truncated(key)))
  {
    var letters: Text := seq(KEY_LEN - 2, i => 97);
    key := letters + [0xC3, 0xA9];
    U.TwoByteEnd(Chars(letters), 0xC3 as char, 0xA9 as char);
    assert Chars(key) == Chars(letters) + [0xC3 as char, 0xA9 as char];
    CutKeepsIff(key);
  }

  // ----- whole runs

  lemma {:induction false} OccupiedHas(table: seq<Entry>, e: Entry)
    ensures e in Occupied(table) <==> e in table && e.hits > 0
  {
    if table != [] {
      OccupiedHas(table[..|table| - 1], e);
      assert table == table[..|table| - 1] + [table[|table| - 1]];
    }
  }

  ghost predicate SlotWellFormed(e: Entry) {
    e.hits > 0 ==> U.WellFormed(Chars(CString(e.key)))
  }

  /** The peers shown are the slots hit. */
  lemma {:induction false} PeersAreSlots(table: seq<Entry>)
    ensures PeersWellFormed(Occupied(table)) <==> forall i :: 0 <= i < |table| ==> SlotWellFormed(table[i])
  {
    var shown := Occupied(table);
    forall i | 0 <= i < |table| && table[i].hits > 0
      ensures table[i] in shown
    {
      OccupiedHas(table, table[i]);
    }
    forall k | 0 <= k < |shown|
      ensures shown[k] in table && shown[k].hits > 0
    {
      OccupiedHas(table, shown[k]);
    }
  }

  lemma {:induction false} SameViews(a: seq<View>, b: seq<View>)
    requires multiset(a) == multiset(b) && KeysWellFormed(a)
    ensures KeysWellFormed(b)
  {
    forall i | 0 <= i < |b|
      ensures U.WellFormed(Chars(b[i].text))
    {
      assert b[i] in multiset(b);
      assert b[i] in a;
    }
  }

  /** The keys of a proper table's view are the keys of the slots hit. */
  lemma {:induction false} ViewsAreSlots(table: seq<Entry>)
    requires AllProper(table)
    ensures KeysWellFormed(Sorted(Views(Occupied(table)))) <==> forall i :: 0 <= i < |table| ==> SlotWellFormed(table[i])
  {
    var shown := Occupied(table);
    SortedOrdered(Views(shown));
    if KeysWellFormed(Views(shown)) {
      SameViews(Views(shown), Sorted(Views(shown)));
    } else if KeysWellFormed(Sorted(Views(shown))) {
      SameViews(Sorted(Views(shown)), Views(shown));
    }
    forall k | 0 <= k < |shown|
      ensures Views(shown)[k].text == CString(shown[k].key)
    {
      OccupiedHas(table, shown[k]);
    }
    assert KeysWellFormed(Views(shown)) <==> PeersWellFormed(shown);
    PeersAreSlots(table);
  }

  ghost predicate RequestsWellFormed(us: seq<Update>) {
    forall k :: 0 <= k < |us| && us[k].key != [] ==> U.WellFormed(Chars(us[k].key))
  }

  /** The key that last took the slot was cut between two characters, or not at all. */
  ghost predicate SlotKept(t: Runs.Traced, us: seq<Update>, i: nat)
    requires i < |t.table| == |t.origin|
  {
    t.table[i].hits > 0 ==> t.origin[i] < |us| && Kept(us[t.origin[i]].key)
  }

  ghost predicate AllKept(t: Runs.Traced, us: seq<Update>)
    requires |t.table| == |t.origin|
  {
    forall i :: 0 <= i < |t.table| ==> SlotKept(t, us, i)
  }

  lemma {:induction false} SlotKeptIff(capacity: nat, us: seq<Update>, i: nat)
    requires capacity > 0 && i < capacity && RequestsWellFormed(us)
    ensures SlotWellFormed(Runs.Run(capacity, us).table[i]) <==> SlotKept(Runs.Run(capacity, us), us, i)
  {
    Runs.EntriesSumSinceInsertion(capacity, us);
    var t := Runs.Run(capacity, us);
    if t.table[i].hits > 0 {
      assert Runs.SumsSince(us, t.table[i], t.origin[i]);
      CutKeepsIff(us[t.origin[i]].key);
    }
  }

  lemma {:induction false} AllKeptIff(capacity: nat, us: seq<Update>)
    requires capacity > 0 && RequestsWellFormed(us)
    ensures AllKept(Runs.Run(capacity, us), us) <==>
            forall i :: 0 <= i < capacity ==> SlotWellFormed(Runs.Run(capacity, us).table[i])
  {
    var t := Runs.Run(capacity, us);
    forall i | 0 <= i < capacity
      ensures SlotWellFormed(t.table[i]) <==> SlotKept(t, us, i)
    {
      SlotKeptIff(capacity, us, i);
    }
  }

  /**
   After any run of requests with well-formed keys, the list of a top table is
   well-formed UTF-8 if and only if the key that last took each slot shown was
   not cut inside a character.
   */
  lemma {:induction false} TopRunWellFormedIff(capacity: nat, us: seq<Update>, name: string)
    requires capacity > 0 && RequestsWellFormed(us) && U.IsAscii(name)
    ensures U.WellFormed(Print(TopArray(Runs.Run(capacity, us).table, name))) <==> AllKept(Runs.Run(capacity, us), us)
  {
    Runs.RunKeepsShape(capacity, us);
    TopTextWellFormedIff(Runs.Run(capacity, us).table, name);
    ViewsAreSlots(Runs.Run(capacity, us).table);
    AllKeptIff(capacity, us);
  }

  /** The same for the list of the upstreams. */
  lemma {:induction false} PeerRunWellFormedIff(capacity: nat, us: seq<Update>)
    requires capacity > 0 && RequestsWellFormed(us)
    ensures U.WellFormed(Print(PeerArray(Runs.Run(capacity, us).table))) <==> AllKept(Runs.Run(capacity, us), us)
  {
    PeerTextWellFormedIff(Runs.Run(capacity, us).table);
    PeersAreSlots(Runs.Run(capacity, us).table);
    AllKeptIff(capacity, us);
  }
}
