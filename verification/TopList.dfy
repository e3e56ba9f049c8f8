/** The view of a top table and its in-place sort. */
module TopList {
  import opened Bytes
  import opened TopTable

  datatype View = View(text: Text, hits: nat, errors: nat, bytes: nat, latency: nat, lastSeen: nat)

  function ViewOf(e: Entry): View {
    View(Truncated(CString(e.key)), e.hits, e.gain.errors, e.gain.bytes, e.gain.latency, e.lastSeen)
  }

  /** The entries that were hit, in slot order. */
  function Occupied(table: seq<Entry>): seq<Entry> {
    if table == [] then [] else
    var front, last := table[..|table| - 1], table[|table| - 1];
    Occupied(front) + if last.hits == 0 then [] else [last]
  }

  function Views(entries: seq<Entry>): (views: seq<View>)
    ensures |views| == |entries|
    ensures forall i :: 0 <= i < |views| ==> views[i] == ViewOf(entries[i])
  {
    seq(|entries|, i requires 0 <= i < |entries| => ViewOf(entries[i]))
  }

  lemma {:induction false} OccupiedNext(table: seq<Entry>, i: nat)
    requires i < |table|
    ensures Occupied(table[..i + 1]) == Occupied(table[..i]) + if table[i].hits == 0 then [] else [table[i]]
  {
    assert table[..i + 1][..i] == table[..i];
  }

  lemma {:induction false} OccupiedGrows(table: seq<Entry>, i: nat)
    requires i <= |table|
    ensures Occupied(table[..i]) <= Occupied(table)
    decreases |table| - i
  {
    if i == |table| {
      assert table[..i] == table;
    } else {
      OccupiedNext(table, i);
      OccupiedGrows(table, i + 1);
    }
  }

  /** The place of a hit slot in the list is the number of hit slots before it. */
  lemma {:induction false} OccupiedPrefix(table: seq<Entry>, i: nat)
    requires i < |table|
    ensures |Occupied(table[..i + 1])| == |Occupied(table[..i])| + if table[i].hits == 0 then 0 else 1
    ensures |Occupied(table[..i + 1])| <= |Occupied(table)|
    ensures table[i].hits > 0 ==> Occupied(table)[|Occupied(table[..i])|] == table[i]
  {
    OccupiedNext(table, i);
    OccupiedGrows(table, i + 1);
  }

  method BuildView(entries: array<Entry>, capacity: nat) returns (view: array<View>, n: nat)
    requires capacity <= entries.Length
    ensures fresh(view) && n <= view.Length == capacity
    ensures view[..n] == Views(Occupied(entries[..capacity]))
  {
    view := new View[capacity](_ => View([], 0, 0, 0, 0, 0));
    n := 0;
    for i := 0 to capacity
      invariant n <= i
      invariant view[..n] == Views(Occupied(entries[..i]))
    {
      OccupiedNext(entries[..], i);
      assert entries[..][..i] == entries[..i] && entries[..][..i + 1] == entries[..i + 1];
      if entries[i].hits == 0 {
        continue;
      }
      view[n] := ViewOf(entries[i]);
      n := n + 1;
      assert view[..n] == view[..n - 1] + [ViewOf(entries[i])];
    }
  }

  // ----- the sort

  /** Moves v forward from the end past every view with fewer hits. */
  function InsertLast(s: seq<View>, v: View): (r: seq<View>)
    ensures |r| == |s| + 1
  {
    if s == [] || s[|s| - 1].hits >= v.hits then s + [v]
    else InsertLast(s[..|s| - 1], v) + [s[|s| - 1]]
  }

  function Sorted(s: seq<View>): (r: seq<View>)
    ensures |r| == |s|
  {
    if s == [] then [] else InsertLast(Sorted(s[..|s| - 1]), s[|s| - 1])
  }

  /** Where the backward walk from j stops. */
  function Stop(s: seq<View>, v: View, j: nat): (k: nat)
    requires j <= |s|
    ensures k <= j
  {
    if j == 0 || s[j - 1].hits >= v.hits then j else Stop(s, v, j - 1)
  }

  lemma {:induction false} StopInFront(s: seq<View>, t: seq<View>, v: View, j: nat)
    requires j <= |s| && s <= t
    ensures Stop(s, v, j) == Stop(t, v, j)
  {
    if j > 0 { StopInFront(s, t, v, j - 1); }
  }

  lemma {:induction false} InsertedAt(s: seq<View>, v: View)
    ensures var k := Stop(s, v, |s|); InsertLast(s, v) == s[..k] + ([v] + s[k..])
  {
    if s != [] && s[|s| - 1].hits < v.hits {
      var front, k := s[..|s| - 1], Stop(s, v, |s|);
      InsertedAt(front, v);
      StopInFront(front, s, v, |front|);
      assert s[k..] == front[k..] + [s[|s| - 1]];
    }
  }

  /** Inserts v[i] into the sorted stretch before it, shifting in place. */
  method ShiftIn(v: array<View>, i: nat)
    requires i < v.Length
    modifies v
    ensures v[..i + 1] == InsertLast(old(v[..i]), old(v[i]))
    ensures forall k :: i < k < v.Length ==> v[k] == old(v[k])
  {
    ghost var base := v[..i];
    var tmp := v[i];
    var j := i;
    while j > 0 && v[j - 1].hits < tmp.hits
      invariant j <= i
      invariant forall k :: 0 <= k < j ==> v[k] == base[k]
      invariant forall k :: j < k <= i ==> v[k] == base[k - 1]
      invariant forall k :: i < k < v.Length ==> v[k] == old(v[k])
      invariant Stop(base, tmp, i) == Stop(base, tmp, j)
    {
      v[j] := v[j - 1];
      j := j - 1;
    }
    v[j] := tmp;
    InsertedAt(base, tmp);
  }

  method SortTop(v: array<View>, n: nat)
    requires n <= v.Length
    modifies v
    ensures v[..n] == Sorted(old(v[..n]))
    ensures forall k :: n <= k < v.Length ==> v[k] == old(v[k])
  {
    ghost var s := v[..n];
    var i := 1;
    while i < n
      invariant 1 <= i && (i <= n || n == 0)
      invariant i <= n ==> v[..i] == Sorted(s[..i])
      invariant forall k :: i <= k < v.Length ==> v[k] == old(v[k])
      invariant n == 0 ==> v[..] == old(v[..])
    {
      assert s[..i + 1][..i] == s[..i] && s[..i + 1][i] == v[i];
      ShiftIn(v, i);
      i := i + 1;
    }
    assert s[..n] == s;
  }

  // ----- what the sort means

  ghost predicate NonIncreasing(s: seq<View>) {
    forall i, j :: 0 <= i < j < |s| ==> s[i].hits >= s[j].hits
  }

  /** The views with exactly h hits, in order. */
  ghost function Level(s: seq<View>, h: nat): seq<View> {
    if s == [] then [] else
    var front, last := s[..|s| - 1], s[|s| - 1];
    if last.hits == h then Level(front, h) + [last] else Level(front, h)
  }

  lemma {:induction false} InsertOrdered(s: seq<View>, v: View)
    requires NonIncreasing(s)
    ensures NonIncreasing(InsertLast(s, v))
    ensures forall i :: 0 <= i < |InsertLast(s, v)| ==> InsertLast(s, v)[i] == v || InsertLast(s, v)[i] in s
  {
    if s != [] && s[|s| - 1].hits < v.hits {
      var front, r := s[..|s| - 1], InsertLast(s[..|s| - 1], v);
      InsertOrdered(front, v);
      assert InsertLast(s, v) == r + [s[|s| - 1]];
      assert forall i :: 0 <= i < |r| ==> r[i] == v || r[i] in front;
      assert forall w :: w in front ==> w in s && w.hits >= s[|s| - 1].hits;
    }
  }

  lemma {:induction false} InsertPermutes(s: seq<View>, v: View)
    ensures multiset(InsertLast(s, v)) == multiset(s) + multiset{v}
  {
    if s != [] && s[|s| - 1].hits < v.hits {
      InsertPermutes(s[..|s| - 1], v);
      assert s == s[..|s| - 1] + [s[|s| - 1]];
    }
  }

  lemma {:induction false} LevelAppend(s: seq<View>, v: View, h: nat)
    ensures Level(s + [v], h) == if v.hits == h then Level(s, h) + [v] else Level(s, h)
  {
    assert (s + [v])[..|s|] == s;
  }

  lemma {:induction false} InsertStable(s: seq<View>, v: View, h: nat)
    ensures Level(InsertLast(s, v), h) == Level(s + [v], h)
  {
    LevelAppend(s, v, h);
    if s != [] && s[|s| - 1].hits < v.hits {
      var front, last := s[..|s| - 1], s[|s| - 1];
      InsertStable(front, v, h);
      LevelAppend(front, v, h);
      LevelAppend(InsertLast(front, v), last, h);
    }
  }

  lemma {:induction false} SortedStable(s: seq<View>, h: nat)
    ensures Level(Sorted(s), h) == Level(s, h)
  {
    if s != [] {
      var front, last := s[..|s| - 1], s[|s| - 1];
      SortedStable(front, h);
      InsertStable(Sorted(front), last, h);
      LevelAppend(Sorted(front), last, h);
    }
  }

  lemma {:induction false} SortedOrdered(s: seq<View>)
    ensures NonIncreasing(Sorted(s)) && multiset(Sorted(s)) == multiset(s)
  {
    if s != [] {
      var front, last := s[..|s| - 1], s[|s| - 1];
      SortedOrdered(front);
      InsertOrdered(Sorted(front), last);
      InsertPermutes(Sorted(front), last);
      assert s == front + [last];
    }
  }

  /** The sort orders by hits, loses and invents nothing, and keeps ties in slot order. */
  lemma {:induction false} SortedIsStableSort(s: seq<View>)
    ensures NonIncreasing(Sorted(s))
    ensures multiset(Sorted(s)) == multiset(s)
    ensures forall h: nat :: Level(Sorted(s), h) == Level(s, h)
  {
    SortedOrdered(s);
    forall h: nat
      ensures Level(Sorted(s), h) == Level(s, h)
    {
      SortedStable(s, h);
    }
  }

  lemma {:induction false} LevelMember(s: seq<View>, h: nat)
    ensures Level(s, h) != [] <==> exists i :: 0 <= i < |s| && s[i].hits == h
    ensures Level(s, h) != [] ==> Level(s, h)[|Level(s, h)| - 1].hits == h
  {
    if s != [] {
      LevelMember(s[..|s| - 1], h);
      assert s[..|s| - 1] + [s[|s| - 1]] == s;
    }
  }

  lemma {:induction false} SameEnds(s: seq<View>, x: View, t: seq<View>, y: View)
    requires s + [x] == t + [y]
    ensures s == t && x == y
  {
    assert (s + [x])[..|s|] == s && (t + [y])[..|t|] == t;
    assert (s + [x])[|s|] == x && (t + [y])[|t|] == y;
  }

  lemma {:induction false} SameEmpty(a: seq<View>, b: seq<View>)
    requires a == [] && forall h: nat :: Level(a, h) == Level(b, h)
    ensures b == []
  {
    if b != [] {
      LevelMember(b, b[0].hits);
      assert Level(a, b[0].hits) == [];
    }
  }

  lemma {:induction false} LevelFronts(a: seq<View>, b: seq<View>, h: nat)
    requires a != [] && b != [] && a[|a| - 1].hits == b[|b| - 1].hits && Level(a, h) == Level(b, h)
    ensures Level(a[..|a| - 1], h) == Level(b[..|b| - 1], h)
    ensures h == a[|a| - 1].hits ==> a[|a| - 1] == b[|b| - 1]
  {
    var x, y := a[|a| - 1], b[|b| - 1];
    if x.hits == h {
      SameEnds(Level(a[..|a| - 1], h), x, Level(b[..|b| - 1], h), y);
    }
  }

  /** Order and ties leave only one result. */
  lemma {:induction false} StableSortIsUnique(a: seq<View>, b: seq<View>)
    requires NonIncreasing(a) && NonIncreasing(b)
    requires forall h: nat :: Level(a, h) == Level(b, h)
    ensures a == b
  {
    if a == [] {
      SameEmpty(a, b);
    } else if b == [] {
      SameEmpty(b, a);
    } else {
      var x := a[|a| - 1];
      SameLast(a, b);
      SameLast(b, a);
      var frontA, frontB := a[..|a| - 1], b[..|b| - 1];
      forall h: nat
        ensures Level(frontA, h) == Level(frontB, h)
      {
        LevelFronts(a, b, h);
      }
      StableSortIsUnique(frontA, frontB);
      LevelFronts(a, b, x.hits);
      assert a == frontA + [x] && b == frontB + [x];
    }
  }

  lemma {:induction false} SameLast(a: seq<View>, b: seq<View>)
    requires a != [] && b != [] && NonIncreasing(a)
    requires forall h: nat :: Level(a, h) == Level(b, h)
    ensures a[|a| - 1].hits <= b[|b| - 1].hits
  {
    LevelMember(a, b[|b| - 1].hits);
    LevelMember(b, b[|b| - 1].hits);
  }
}
