/**
 Whether written text is well-formed UTF-8 (section 4 of RFC 3629): the escaper
 passes bytes from 0x80 up as they are, so that depends on the strings alone.
 */
module Utf8Text {
  import opened JsonText

  /** What the bytes read so far still ask for; `Bad` is final. */
  datatype Progress = Ready | Tail(n: nat) | AfterE0 | AfterED | AfterF0 | AfterF4 | Bad

  predicate Within(b: int, low: int, high: int) { low <= b <= high }

  function Feed(p: Progress, c: char): Progress {
    var b := c as int;
    match p
    case Ready =>
      if b < 0x80 then Ready
      else if Within(b, 0xC2, 0xDF) then Tail(1)
      else if b == 0xE0 then AfterE0
      else if b == 0xED then AfterED
      else if Within(b, 0xE1, 0xEF) then Tail(2)
      else if b == 0xF0 then AfterF0
      else if Within(b, 0xF1, 0xF3) then Tail(3)
      else if b == 0xF4 then AfterF4
      else Bad
    case Tail(n) => if Within(b, 0x80, 0xBF) then if n <= 1 then Ready else Tail(n - 1) else Bad
    case AfterE0 => if Within(b, 0xA0, 0xBF) then Tail(1) else Bad
    case AfterED => if Within(b, 0x80, 0x9F) then Tail(1) else Bad
    case AfterF0 => if Within(b, 0x90, 0xBF) then Tail(2) else Bad
    case AfterF4 => if Within(b, 0x80, 0x8F) then Tail(2) else Bad
    case Bad => Bad
  }

  function Fed(p: Progress, s: string): Progress
    decreases |s|
  {
    if s == "" then p else Fed(Feed(p, s[0]), s[1..])
  }

  predicate WellFormed(s: string) { Fed(Ready, s) == Ready }

  lemma {:induction false} FedAppend(p: Progress, a: string, b: string)
    ensures Fed(p, a + b) == Fed(Fed(p, a), b)
    decreases |a|
  {
    if a == "" {
      assert a + b == b;
    } else {
      assert (a + b)[1..] == a[1..] + b;
      FedAppend(Feed(p, a[0]), a[1..], b);
    }
  }

  predicate IsAscii(s: string) {
    forall i :: 0 <= i < |s| ==> s[i] as int < 0x80
  }

  /** Plain ASCII is fine between characters and fatal inside one. */
  lemma {:induction false} FedAscii(p: Progress, s: string)
    requires IsAscii(s) && s != ""
    ensures Fed(p, s) == if p.Ready? then Ready else Bad
    decreases |s|
  {
    assert Fed(p, s) == Fed(Feed(p, s[0]), s[1..]);
    if |s| > 1 {
      FedAscii(Feed(p, s[0]), s[1..]);
    }
  }

  lemma {:induction false} EscapeCharFeeds(p: Progress, c: char)
    ensures Fed(p, EscapeChar(c)) == Feed(p, c)
  {
    if c as int < 0x80 {
      FedAscii(p, EscapeChar(c));
    } else {
      assert EscapeChar(c) == [c] && [c][1..] == "";
      assert Fed(p, [c]) == Fed(Feed(p, c), [c][1..]);
    }
  }

  /** Escaping neither repairs nor breaks a byte string. */
  lemma {:induction false} EscapeFeeds(p: Progress, text: string)
    ensures Fed(p, Escape(text)) == Fed(p, text)
    decreases |text|
  {
    if text != "" {
      FedAppend(p, EscapeChar(text[0]), Escape(text[1..]));
      EscapeCharFeeds(p, text[0]);
      EscapeFeeds(Feed(p, text[0]), text[1..]);
    }
  }

  /** A text that comes to a decision: ready for more, or beyond repair. */
  ghost predicate Judged(s: string, good: bool) {
    Fed(Ready, s) == if good then Ready else Bad
  }

  lemma {:induction false} BadStays(s: string)
    ensures Fed(Bad, s) == Bad
  {
    if s != "" {
      BadStays(s[1..]);
    }
  }

  lemma {:induction false} JudgedAppend(a: string, x: bool, b: string, y: bool)
    requires Judged(a, x) && Judged(b, y)
    ensures Judged(a + b, x && y)
  {
    FedAppend(Ready, a, b);
    BadStays(b);
  }

  lemma {:induction false} JudgedAscii(s: string)
    requires IsAscii(s)
    ensures Judged(s, true)
  {
    if s != "" {
      FedAscii(Ready, s);
    }
  }

  /** The closing quote decides a string. */
  lemma {:induction false} QuoteJudged(text: string)
    ensures Judged(Quote(text), WellFormed(text))
  {
    FedAppend(Ready, "\"" + Escape(text), "\"");
    FedAppend(Ready, "\"", Escape(text));
    FedAscii(Ready, "\"");
    EscapeFeeds(Ready, text);
    FedAscii(Fed(Ready, text), "\"");
  }

  lemma {:induction false} NumberJudged(whole: nat, fraction: string)
    requires forall i :: 0 <= i < |fraction| ==> IsDigit(fraction[i])
    ensures Judged(PrintNumber(whole, fraction), true)
  {
    JudgedAscii(PrintNumber(whole, fraction));
  }

  // ----- whole values

  /** Every string of a value is well-formed. */
  predicate AllWellFormed(v: Json)
    decreases v, 1
  {
    match v
    case Str(text) => WellFormed(text)
    case Num(_, _) => true
    case Arr(items) => ItemsWellFormed(items)
    case Obj(members) => MembersWellFormed(members)
  }

  predicate ItemsWellFormed(items: seq<Json>)
    decreases items, 0
  {
    items == [] || (AllWellFormed(items[0]) && ItemsWellFormed(items[1..]))
  }

  predicate MembersWellFormed(members: seq<Member>)
    decreases members, 0
  {
    members == [] ||
    (WellFormed(members[0].name) && AllWellFormed(members[0].value) && MembersWellFormed(members[1..]))
  }

  lemma {:induction false} Bracketed(open: string, s: string, good: bool, close: string)
    requires Judged(s, good) && IsAscii(open) && IsAscii(close)
    ensures Judged(open + s + close, good)
  {
    JudgedAscii(open);
    JudgedAscii(close);
    JudgedAppend(open, true, s, good);
    JudgedAppend(open + s, good, close, true);
  }

  lemma {:induction false} Separated(a: string, x: bool, middle: string, b: string, y: bool)
    requires Judged(a, x) && Judged(b, y) && IsAscii(middle)
    ensures Judged(a + middle + b, x && y)
  {
    JudgedAscii(middle);
    JudgedAppend(a, x, middle, true);
    JudgedAppend(a + middle, x, b, y);
  }

  lemma {:induction false} PrintJudged(v: Json)
    requires Proper(v)
    ensures Judged(Print(v), AllWellFormed(v))
    decreases v, 1
  {
    match v
    case Str(text) => QuoteJudged(text);
    case Num(whole, fraction) => NumberJudged(whole, fraction);
    case Arr(items) =>
      ItemsJudged(items);
      Bracketed("[", PrintItems(items), ItemsWellFormed(items), "]");
    case Obj(members) =>
      MembersJudged(members);
      Bracketed("{", PrintMembers(members), MembersWellFormed(members), "}");
  }

  lemma {:induction false} ItemsJudged(items: seq<Json>)
    requires ProperItems(items)
    ensures Judged(PrintItems(items), ItemsWellFormed(items))
    decreases items, 0
  {
    if items != [] {
      PrintJudged(items[0]);
      if |items| > 1 {
        ItemsJudged(items[1..]);
        Separated(Print(items[0]), AllWellFormed(items[0]), ",", PrintItems(items[1..]), ItemsWellFormed(items[1..]));
      } else {
        assert items[1..] == [];
      }
    }
  }

  lemma {:induction false} MembersJudged(members: seq<Member>)
    requires ProperMembers(members)
    ensures Judged(PrintMembers(members), MembersWellFormed(members))
    decreases members, 0
  {
    if members != [] {
      var m := members[0];
      PrintJudged(m.value);
      QuoteJudged(m.name);
      Separated(Quote(m.name), WellFormed(m.name), ":", Print(m.value), AllWellFormed(m.value));
      var good := WellFormed(m.name) && AllWellFormed(m.value);
      if |members| > 1 {
        MembersJudged(members[1..]);
        Separated(PrintMember(m), good, ",", PrintMembers(members[1..]), MembersWellFormed(members[1..]));
      } else {
        assert members[1..] == [];
      }
    }
  }

  /** Printed text is well-formed UTF-8 if and only if every string in it is. */
  lemma {:induction false} PrintWellFormedIff(v: Json)
    requires Proper(v)
    ensures WellFormed(Print(v)) <==> AllWellFormed(v)
  {
    PrintJudged(v);
  }

  lemma {:induction false} ItemsWellFormedAll(items: seq<Json>)
    ensures ItemsWellFormed(items) <==> forall i :: 0 <= i < |items| ==> AllWellFormed(items[i])
  {
    if items != [] {
      ItemsWellFormedAll(items[1..]);
      assert forall i :: 0 <= i < |items[1..]| ==> items[1..][i] == items[i + 1];
      if forall i :: 0 <= i < |items[1..]| ==> AllWellFormed(items[1..][i]) {
        assert forall i :: 1 <= i < |items| ==> items[i] == items[1..][i - 1];
      }
    }
  }

  predicate IsContinuation(c: char) { 0x80 <= c as int <= 0xBF }

  /** A front part of a well-formed text is well-formed if and only if the next byte starts a character. */
  lemma {:induction false} PrefixIff(s: string, k: nat)
    requires WellFormed(s) && k < |s|
    ensures WellFormed(s[..k]) <==> !IsContinuation(s[k])
  {
    var p := Fed(Ready, s[..k]);
    FedAppend(Ready, s[..k], s[k..]);
    assert s == s[..k] + s[k..];
    assert Fed(p, s[k..]) == Fed(Feed(p, s[k]), s[k..][1..]);
    BadStays(s[k..]);
    BadStays(s[k..][1..]);
  }

  lemma {:induction false} TwoByteEnd(front: string, lead: char, next: char)
    requires IsAscii(front) && 0xC2 <= lead as int <= 0xDF && IsContinuation(next)
    ensures WellFormed(front + [lead, next])
  {
    JudgedAscii(front);
    FedAppend(Ready, front, [lead, next]);
    assert [lead, next][1..] == [next] && [next][1..] == "";
    assert Fed(Tail(1), [next]) == Fed(Feed(Tail(1), next), [next][1..]) == Ready;
    assert Fed(Ready, [lead, next]) == Fed(Tail(1), [lead, next][1..]);
  }
}
