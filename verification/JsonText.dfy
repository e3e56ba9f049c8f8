/**
 JSON text as the API writes it, and a reader for it by sections 2 to 7 of
 RFC 8259, without insignificant white space, signs, exponents and literals.
 Bytes are characters below 256.
 */
module JsonText {
  import opened Common

  datatype Json =
    | Str(text: string)
    | Num(whole: nat, fraction: string)
    | Arr(items: seq<Json>)
    | Obj(members: seq<Member>)

  datatype Member = Member(name: string, value: Json)

  /** Concatenation associates. */
  lemma {:induction false} Regroup(a: string, b: string, c: string, d: string)
    ensures a + b + c + d == a + (b + (c + d))
  {
  }

  // ----- strings

  const HEX: string := "0123456789abcdef"

  predicate IsControl(c: char) {
    c < ' ' && c != '\n' && c != '\r' && c != '\t'
  }

  predicate HasShortEscape(c: char) {
    c == '"' || c == '\\' || c == '\n' || c == '\r' || c == '\t'
  }

  /** The escape of one byte of string contents. */
  function EscapeChar(c: char): (e: string)
    ensures |e| == if HasShortEscape(c) then 2 else if c < ' ' then 6 else 1
  {
    if c == '"' || c == '\\' then ['\\', c]
    else if c == '\n' then "\\n"
    else if c == '\r' then "\\r"
    else if c == '\t' then "\\t"
    else if c < ' ' then ['\\', 'u', '0', '0', HEX[c as int / 16], HEX[c as int % 16]]
    else [c]
  }

  function Escape(s: string): string {
    if s == "" then "" else EscapeChar(s[0]) + Escape(s[1..])
  }

  function Quote(s: string): string {
    "\"" + Escape(s) + "\""
  }

  function HexValue(c: char): int {
    if '0' <= c <= '9' then c as int - '0' as int
    else if 'a' <= c <= 'f' then c as int - 'a' as int + 10
    else if 'A' <= c <= 'F' then c as int - 'A' as int + 10
    else -1
  }

  /** The UTF-8 bytes of a code unit of the basic plane. */
  function Utf8(code: nat): string
    requires code < 0x10000
  {
    if code < 0x80 then [code as char]
    else if code < 0x800 then [(0xC0 + code / 64) as char, (0x80 + code % 64) as char]
    else [(0xE0 + code / 4096) as char, (0x80 + code / 64 % 64) as char, (0x80 + code % 64) as char]
  }

  /** The code unit of four hex digits, if they are hex digits and not half of a surrogate pair. */
  function UnitOf(a: char, b: char, c: char, d: char): Option<nat> {
    var w, x, y, z := HexValue(a), HexValue(b), HexValue(c), HexValue(d);
    if w < 0 || x < 0 || y < 0 || z < 0 then None else
    var code := w * 4096 + x * 256 + y * 16 + z;
    if 0xD800 <= code < 0xE000 then None else Some(code)
  }

  /** One escape sequence after its backslash: the bytes it stands for and how many characters it takes. */
  function Unescape(s: string): Option<(string, nat)>
    requires s != ""
  {
    match s[0]
    case '"' => Some(("\"", 1))
    case '\\' => Some(("\\", 1))
    case '/' => Some(("/", 1))
    case 'b' => Some(([8 as char], 1))
    case 'f' => Some(([12 as char], 1))
    case 'n' => Some(("\n", 1))
    case 'r' => Some(("\r", 1))
    case 't' => Some(("\t", 1))
    case 'u' =>
      if |s| < 5 then None else
      (match UnitOf(s[1], s[2], s[3], s[4])
       case None => None
       case Some(code) => if code < 0x10000 then Some((Utf8(code), 5)) else None)
    case _ => None
  }

  function Before(prefix: string, r: Option<(string, string)>): Option<(string, string)> {
    match r
    case None => None
    case Some((text, rest)) => Some((prefix + text, rest))
  }

  /** String contents up to the closing quote, and what follows it. */
  function ReadString(s: string): (r: Option<(string, string)>)
    ensures r.Some? ==> |r.value.1| < |s|
    decreases |s|
  {
    if s == "" then None
    else if s[0] == '"' then Some(("", s[1..]))
    else if s[0] == '\\' then
      if |s| == 1 then None else
      (match Unescape(s[1..])
       case None => None
       case Some((bytes, n)) => if n < |s| then Before(bytes, ReadString(s[1 + n..])) else None)
    else if s[0] < ' ' then None
    else Before([s[0]], ReadString(s[1..]))
  }

  lemma {:induction false} ControlEscape(c: char)
    requires c < ' '
    ensures UnitOf('0', '0', HEX[c as int / 16], HEX[c as int % 16]) == Some(c as int)
  {
    var high, low := c as int / 16, c as int % 16;
    assert high == 0 || high == 1;
    assert HexValue(HEX[low]) == low by {
      assert low < 10 ==> HEX[low] == ('0' as int + low) as char;
      assert low >= 10 ==> HEX[low] == ('a' as int + low - 10) as char;
    }
  }

  lemma {:induction false} ReadEscapedChar(c: char, rest: string)
    ensures ReadString(EscapeChar(c) + rest) == Before([c], ReadString(rest))
  {
    var e := EscapeChar(c);
    var s := e + rest;
    assert s[|e|..] == rest;
    if e[0] == '\\' {
      if IsControl(c) {
        ControlEscape(c);
        assert s[1..][0] == 'u' && s[1..][1] == '0' && s[1..][2] == '0' && s[1..][3] == e[4] && s[1..][4] == e[5];
        assert Unescape(s[1..]) == Some(([c], 5));
      } else {
        assert s[1..][0] == e[1];
        assert Unescape(s[1..]) == Some(([c], 1));
      }
    }
  }

  /** An escaped string reads back exactly, whatever follows its closing quote. */
  lemma {:induction false} QuoteRoundTrip(text: string, rest: string)
    ensures ReadString(Escape(text) + "\"" + rest) == Some((text, rest))
  {
    if text == "" {
      assert Escape(text) + "\"" + rest == "\"" + rest;
    } else {
      var more := Escape(text[1..]) + "\"" + rest;
      assert Escape(text) + "\"" + rest == EscapeChar(text[0]) + more;
      QuoteRoundTrip(text[1..], rest);
      ReadEscapedChar(text[0], more);
      assert text == [text[0]] + text[1..];
    }
  }

  /** The length of the run of backslashes right before position i. */
  function Slashes(t: string, i: nat): (n: nat)
    requires i <= |t|
    ensures n <= i
  {
    if i > 0 && t[i - 1] == '\\' then 1 + Slashes(t, i - 1) else 0
  }

  predicate Odd(n: nat) { n % 2 == 1 }

  /**
   No control character, every quote escaped by the last of an odd number of
   backslashes, and no backslash left over to escape what follows.
   */
  ghost predicate Clean(t: string) {
    && (forall i :: 0 <= i < |t| ==> ' ' <= t[i])
    && (forall i :: 0 <= i < |t| && t[i] == '"' ==> Odd(Slashes(t, i)))
    && !Odd(Slashes(t, |t|))
  }

  lemma {:induction false} SlashesInFront(a: string, b: string, i: nat)
    requires i <= |a|
    ensures Slashes(a + b, i) == Slashes(a, i)
  {
    if i > 0 {
      SlashesInFront(a, b, i - 1);
    }
  }

  /** A run that reaches back over all of b goes on into a. */
  lemma {:induction false} SlashesBehind(a: string, b: string, i: nat)
    requires i <= |b|
    ensures Slashes(a + b, |a| + i) == Slashes(b, i) + if Slashes(b, i) == i then Slashes(a, |a|) else 0
  {
    if i > 0 {
      assert (a + b)[|a| + i - 1] == b[i - 1];
      SlashesBehind(a, b, i - 1);
    } else {
      SlashesInFront(a, b, |a|);
    }
  }

  lemma {:induction false} CleanAppendAt(a: string, b: string, i: nat)
    requires Clean(a) && Clean(b) && i < |a + b| && (a + b)[i] == '"'
    ensures Odd(Slashes(a + b, i))
  {
    if i < |a| {
      SlashesInFront(a, b, i);
    } else {
      SlashesBehind(a, b, i - |a|);
    }
  }

  lemma {:induction false} CleanAppend(a: string, b: string)
    requires Clean(a) && Clean(b)
    ensures Clean(a + b)
  {
    forall i | 0 <= i < |a + b| && (a + b)[i] == '"'
      ensures Odd(Slashes(a + b, i))
    {
      CleanAppendAt(a, b, i);
    }
    SlashesBehind(a, b, |b|);
  }

  lemma {:induction false} EscapeCharIsClean(c: char)
    ensures Clean(EscapeChar(c))
  {
    var e := EscapeChar(c);
    assert forall k :: 0 <= k < |HEX| ==> HEX[k] > '"' && HEX[k] != '\\';
    assert Slashes(e, 0) == 0;
    assert Slashes(e, 1) == if e[0] == '\\' then 1 else 0;
    if |e| == 2 {
      assert Slashes(e, 2) == if e[1] == '\\' then 2 else 0;
    } else if |e| > 2 {
      assert e[5] != '\\';
    }
  }

  /** Escaped contents are clean, so the quote that closes the string is the first unescaped one. */
  lemma {:induction false} EscapedIsClean(text: string)
    ensures Clean(Escape(text))
  {
    if text != "" {
      EscapedIsClean(text[1..]);
      EscapeCharIsClean(text[0]);
      CleanAppend(EscapeChar(text[0]), Escape(text[1..]));
    }
  }

  lemma {:induction false} EscapeConcat(a: string, b: string)
    ensures Escape(a + b) == Escape(a) + Escape(b)
  {
    if a == "" {
      assert a + b == b;
    } else {
      assert (a + b)[1..] == a[1..] + b;
      EscapeConcat(a[1..], b);
    }
  }

  lemma {:induction false} EscapeAppend(s: string, c: char)
    ensures Escape(s + [c]) == Escape(s) + EscapeChar(c)
  {
    EscapeConcat(s, [c]);
    assert Escape([c]) == EscapeChar(c) + Escape("");
  }

  // ----- numbers

  predicate IsDigit(c: char) { '0' <= c <= '9' }

  function DigitOf(n: nat): (c: char)
    requires n < 10
    ensures IsDigit(c)
  {
    ('0' as int + n) as char
  }

  function Digits(n: nat): (d: string)
    ensures d != "" && forall i :: 0 <= i < |d| ==> IsDigit(d[i])
    ensures d[0] == '0' ==> n == 0
  {
    if n < 10 then [DigitOf(n)] else Digits(n / 10) + [DigitOf(n % 10)]
  }

  function ValueOf(d: string): nat
    requires forall i :: 0 <= i < |d| ==> IsDigit(d[i])
  {
    if d == "" then 0 else 10 * ValueOf(d[..|d| - 1]) + DigitValue(d[|d| - 1])
  }

  function DigitValue(c: char): nat
    requires IsDigit(c)
  {
    c as int - '0' as int
  }

  lemma {:induction false} DigitsValue(n: nat)
    ensures ValueOf(Digits(n)) == n
  {
    if n >= 10 {
      DigitsValue(n / 10);
      assert (Digits(n / 10) + [DigitOf(n % 10)])[..|Digits(n / 10)|] == Digits(n / 10);
    } else {
      assert Digits(n)[..0] == "";
    }
  }

  /** The length of the leading run of digits. */
  function Run(s: string): (n: nat)
    ensures n <= |s| && forall i :: 0 <= i < n ==> IsDigit(s[i])
  {
    if s == "" || !IsDigit(s[0]) then 0 else 1 + Run(s[1..])
  }

  lemma {:induction false} RunOf(d: string, rest: string)
    requires forall i :: 0 <= i < |d| ==> IsDigit(d[i])
    requires rest == "" || !IsDigit(rest[0])
    ensures Run(d + rest) == |d|
  {
    if d == "" {
      assert d + rest == rest;
    } else {
      assert (d + rest)[1..] == d[1..] + rest;
      RunOf(d[1..], rest);
    }
  }

  /** What follows the digits of the whole part: digits after a point, if there is one. */
  function ReadFraction(whole: nat, rest: string): (r: Option<(Json, string)>)
    ensures r.Some? ==> |r.value.1| <= |rest|
  {
    if rest == "" || rest[0] != '.' then Some((Num(whole, ""), rest)) else
    var k := Run(rest[1..]);
    if k == 0 then None else Some((Num(whole, rest[1..1 + k]), rest[1 + k..]))
  }

  /** A number: no leading zero before another digit. */
  function ReadNumber(s: string): (r: Option<(Json, string)>)
    ensures r.Some? ==> |r.value.1| < |s|
  {
    var n := if s != "" && s[0] == '0' then 1 else Run(s);
    if n == 0 then None else ReadFraction(ValueOf(s[..n]), s[n..])
  }

  function PrintNumber(whole: nat, fraction: string): string {
    Digits(whole) + if fraction == "" then "" else "." + fraction
  }

  predicate EndsNumber(rest: string) {
    rest == "" || (!IsDigit(rest[0]) && rest[0] != '.')
  }

  lemma {:induction false} WholeReads(d: string, after: string)
    requires d != "" && forall i :: 0 <= i < |d| ==> IsDigit(d[i])
    requires d[0] == '0' ==> |d| == 1
    requires after == "" || !IsDigit(after[0])
    ensures ReadNumber(d + after) == ReadFraction(ValueOf(d), after)
  {
    RunOf(d, after);
  }

  lemma {:induction false} FractionReads(whole: nat, fraction: string, rest: string)
    requires fraction != "" && forall i :: 0 <= i < |fraction| ==> IsDigit(fraction[i])
    requires rest == "" || !IsDigit(rest[0])
    ensures ReadFraction(whole, "." + (fraction + rest)) == Some((Num(whole, fraction), rest))
  {
    var tail := fraction + rest;
    RunOf(fraction, rest);
    assert ("." + tail)[1..1 + |fraction|] == tail[..|fraction|] && ("." + tail)[1 + |fraction|..] == tail[|fraction|..];
  }

  lemma {:induction false} NumberRoundTrip(whole: nat, fraction: string, rest: string)
    requires EndsNumber(rest) && forall i :: 0 <= i < |fraction| ==> IsDigit(fraction[i])
    ensures ReadNumber(PrintNumber(whole, fraction) + rest) == Some((Num(whole, fraction), rest))
  {
    var d := Digits(whole);
    DigitsValue(whole);
    assert d[0] == '0' ==> |d| == 1;
    if fraction == "" {
      assert PrintNumber(whole, fraction) + rest == d + rest;
      WholeReads(d, rest);
    } else {
      Regroup(d, ".", fraction, rest);
      assert PrintNumber(whole, fraction) == d + "." + fraction;
      WholeReads(d, "." + (fraction + rest));
      FractionReads(whole, fraction, rest);
    }
  }

  // ----- values

  function Print(v: Json): string
    decreases v, 1
  {
    match v
    case Str(text) => Quote(text)
    case Num(whole, fraction) => PrintNumber(whole, fraction)
    case Arr(items) => "[" + PrintItems(items) + "]"
    case Obj(members) => "{" + PrintMembers(members) + "}"
  }

  function PrintItems(items: seq<Json>): string
    decreases items, 0
  {
    if items == [] then ""
    else if |items| == 1 then Print(items[0])
    else Print(items[0]) + "," + PrintItems(items[1..])
  }

  function PrintMember(m: Member): string
    decreases m, 2
  {
    Quote(m.name) + ":" + Print(m.value)
  }

  function PrintMembers(members: seq<Member>): string
    decreases members, 0
  {
    if members == [] then ""
    else if |members| == 1 then PrintMember(members[0])
    else PrintMember(members[0]) + "," + PrintMembers(members[1..])
  }

  function Read(s: string): (r: Option<(Json, string)>)
    ensures r.Some? ==> |r.value.1| < |s|
    decreases |s|, 2
  {
    if s == "" then None
    else if s[0] == '"' then
      (match ReadString(s[1..])
       case None => None
       case Some((text, rest)) => Some((Str(text), rest)))
    else if s[0] == '[' then
      if |s| > 1 && s[1] == ']' then Some((Arr([]), s[2..])) else
      (match ReadItems(s[1..])
       case None => None
       case Some((items, rest)) => Some((Arr(items), rest)))
    else if s[0] == '{' then
      if |s| > 1 && s[1] == '}' then Some((Obj([]), s[2..])) else
      (match ReadMembers(s[1..])
       case None => None
       case Some((members, rest)) => Some((Obj(members), rest)))
    else ReadNumber(s)
  }

  /** One or more values separated by commas, up to the closing bracket. */
  function ReadItems(s: string): (r: Option<(seq<Json>, string)>)
    ensures r.Some? ==> |r.value.1| < |s|
    decreases |s|, 3
  {
    match Read(s)
    case None => None
    case Some((v, rest)) =>
      if rest == "" then None
      else if rest[0] == ']' then Some(([v], rest[1..]))
      else if rest[0] == ',' then
        (match ReadItems(rest[1..])
         case None => None
         case Some((more, rest')) => Some(([v] + more, rest')))
      else None
  }

  /** A name, a colon and a value. */
  function ReadMember(s: string): (r: Option<(Member, string)>)
    ensures r.Some? ==> |r.value.1| < |s|
    decreases |s|, 3
  {
    if s == "" || s[0] != '"' then None else
    match ReadString(s[1..])
    case None => None
    case Some((name, rest)) =>
      if rest == "" || rest[0] != ':' then None else
      (match Read(rest[1..])
       case None => None
       case Some((v, rest')) => Some((Member(name, v), rest')))
  }

  function ReadMembers(s: string): (r: Option<(seq<Member>, string)>)
    ensures r.Some? ==> |r.value.1| < |s|
    decreases |s|, 4
  {
    match ReadMember(s)
    case None => None
    case Some((m, rest)) =>
      if rest == "" then None
      else if rest[0] == '}' then Some(([m], rest[1..]))
      else if rest[0] == ',' then
        (match ReadMembers(rest[1..])
         case None => None
         case Some((more, rest')) => Some(([m] + more, rest')))
      else None
  }

  /** Fractions consist of digits, everywhere inside. */
  ghost predicate Proper(v: Json)
    decreases v, 1
  {
    match v
    case Str(_) => true
    case Num(_, fraction) => forall i :: 0 <= i < |fraction| ==> IsDigit(fraction[i])
    case Arr(items) => ProperItems(items)
    case Obj(members) => ProperMembers(members)
  }

  ghost predicate ProperItems(items: seq<Json>)
    decreases items, 0
  {
    items == [] || (Proper(items[0]) && ProperItems(items[1..]))
  }

  ghost predicate ProperMembers(members: seq<Member>)
    decreases members, 0
  {
    members == [] || (Proper(members[0].value) && ProperMembers(members[1..]))
  }

  // One step of the reader each, over text whose pieces are known.

  lemma {:induction false} ReadsStr(text: string, rest: string)
    ensures Read(Quote(text) + rest) == Some((Str(text), rest))
  {
    var s := Quote(text) + rest;
    assert s[1..] == Escape(text) + "\"" + rest;
    QuoteRoundTrip(text, rest);
  }

  lemma {:induction false} ReadsNameAndValue(name: string, t: string, v: Json, rest: string)
    requires Read(t) == Some((v, rest))
    ensures ReadMember(Quote(name) + (":" + t)) == Some((Member(name, v), rest))
  {
    var s := Quote(name) + (":" + t);
    assert s[1..] == Escape(name) + "\"" + (":" + t);
    QuoteRoundTrip(name, ":" + t);
    assert (":" + t)[1..] == t;
  }

  lemma {:induction false} ReadsNumber(whole: nat, fraction: string, rest: string)
    requires EndsNumber(rest) && forall i :: 0 <= i < |fraction| ==> IsDigit(fraction[i])
    ensures Read(PrintNumber(whole, fraction) + rest) == Some((Num(whole, fraction), rest))
  {
    NumberRoundTrip(whole, fraction, rest);
    assert (PrintNumber(whole, fraction) + rest)[0] == Digits(whole)[0];
  }

  // What it means that a text reads back, whatever follows it.

  ghost predicate ReadsAs(p: string, v: Json) {
    forall rest: string :: EndsNumber(rest) ==> Read(p + rest) == Some((v, rest))
  }

  ghost predicate ReadsAsItems(p: string, items: seq<Json>) {
    p != "" && p[0] != ']' && forall rest: string :: ReadItems(p + ("]" + rest)) == Some((items, rest))
  }

  ghost predicate ReadsAsMember(p: string, m: Member) {
    p != "" && p[0] == '"' && forall rest: string :: EndsNumber(rest) ==> ReadMember(p + rest) == Some((m, rest))
  }

  ghost predicate ReadsAsMembers(p: string, members: seq<Member>) {
    p != "" && p[0] == '"' && forall rest: string :: ReadMembers(p + ("}" + rest)) == Some((members, rest))
  }

  lemma {:induction false} StrReads(text: string)
    ensures ReadsAs(Quote(text), Str(text))
  {
    forall rest: string | EndsNumber(rest)
      ensures Read(Quote(text) + rest) == Some((Str(text), rest))
    {
      ReadsStr(text, rest);
    }
  }

  lemma {:induction false} NumReads(whole: nat, fraction: string)
    requires forall i :: 0 <= i < |fraction| ==> IsDigit(fraction[i])
    ensures ReadsAs(PrintNumber(whole, fraction), Num(whole, fraction))
  {
    forall rest: string | EndsNumber(rest)
      ensures Read(PrintNumber(whole, fraction) + rest) == Some((Num(whole, fraction), rest))
    {
      ReadsNumber(whole, fraction, rest);
    }
  }

  lemma {:induction false} ArrReads(p: string, items: seq<Json>)
    requires ReadsAsItems(p, items)
    ensures ReadsAs("[" + p + "]", Arr(items))
  {
    forall rest: string | EndsNumber(rest)
      ensures Read("[" + p + "]" + rest) == Some((Arr(items), rest))
    {
      assert "[" + p + "]" + rest == "[" + (p + ("]" + rest));
    }
  }

  lemma {:induction false} ObjReads(p: string, members: seq<Member>)
    requires ReadsAsMembers(p, members)
    ensures ReadsAs("{" + p + "}", Obj(members))
  {
    forall rest: string | EndsNumber(rest)
      ensures Read("{" + p + "}" + rest) == Some((Obj(members), rest))
    {
      assert "{" + p + "}" + rest == "{" + (p + ("}" + rest));
    }
  }

  lemma {:induction false} ItemReads(p: string, v: Json, q: string, more: seq<Json>)
    requires p != "" && p[0] != ']' && ReadsAs(p, v) && ReadsAsItems(q, more)
    ensures ReadsAsItems(p + "," + q, [v] + more)
  {
    forall rest: string
      ensures ReadItems(p + "," + q + ("]" + rest)) == Some(([v] + more, rest))
    {
      var tail := q + ("]" + rest);
      Regroup(p, ",", q, "]" + rest);
      assert EndsNumber("," + tail);
    }
  }

  lemma {:induction false} MemberReads(name: string, p: string, v: Json)
    requires ReadsAs(p, v)
    ensures ReadsAsMember(Quote(name) + ":" + p, Member(name, v))
  {
    forall rest: string | EndsNumber(rest)
      ensures ReadMember(Quote(name) + ":" + p + rest) == Some((Member(name, v), rest))
    {
      Regroup(Quote(name), ":", p, rest);
      ReadsNameAndValue(name, p + rest, v, rest);
    }
  }

  lemma {:induction false} NextMemberReads(p: string, m: Member, q: string, more: seq<Member>)
    requires ReadsAsMember(p, m) && ReadsAsMembers(q, more)
    ensures ReadsAsMembers(p + "," + q, [m] + more)
  {
    forall rest: string
      ensures ReadMembers(p + "," + q + ("}" + rest)) == Some(([m] + more, rest))
    {
      var tail := q + ("}" + rest);
      Regroup(p, ",", q, "}" + rest);
      assert EndsNumber("," + tail);
    }
  }

  /** Reading inverts printing, for every value and whatever follows. */
  lemma {:induction false} PrintRoundTrip(v: Json)
    requires Proper(v)
    ensures ReadsAs(Print(v), v)
    decreases v, 1
  {
    match v
    case Str(text) => StrReads(text);
    case Num(whole, fraction) => NumReads(whole, fraction);
    case Arr(items) =>
      if items != [] { ItemsRoundTrip(items); ArrReads(PrintItems(items), items); }
    case Obj(members) =>
      if members != [] { MembersRoundTrip(members); ObjReads(PrintMembers(members), members); }
  }

  lemma {:induction false} ItemsRoundTrip(items: seq<Json>)
    requires items != [] && ProperItems(items)
    ensures ReadsAsItems(PrintItems(items), items)
    decreases items, 0
  {
    PrintRoundTrip(items[0]);
    if |items| == 1 {
      assert items == [items[0]];
    } else {
      assert items == [items[0]] + items[1..];
      ItemsRoundTrip(items[1..]);
      ItemReads(Print(items[0]), items[0], PrintItems(items[1..]), items[1..]);
    }
  }

  lemma {:induction false} MembersRoundTrip(members: seq<Member>)
    requires members != [] && ProperMembers(members)
    ensures ReadsAsMembers(PrintMembers(members), members)
    decreases members, 0
  {
    var m := members[0];
    PrintRoundTrip(m.value);
    MemberReads(m.name, Print(m.value), m.value);
    if |members| == 1 {
      assert members == [m];
    } else {
      assert members == [m] + members[1..];
      MembersRoundTrip(members[1..]);
      NextMemberReads(PrintMember(m), m, PrintMembers(members[1..]), members[1..]);
    }
  }
}
