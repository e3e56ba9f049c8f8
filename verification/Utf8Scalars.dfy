/**
 The byte-by-byte test of UTF-8 against its definition: well-formed text is
 exactly the encodings of Unicode scalar values, one after the other (section 3
 of RFC 3629).
 */
module Utf8Scalars {
  import opened Utf8Text

  predicate Scalar(v: nat) {
    v < 0xD800 || 0xE000 <= v < 0x110000
  }

  /** The bytes of one scalar value. */
  function Encoding(v: nat): (s: string)
    requires Scalar(v)
    ensures 1 <= |s| <= 4
  {
    if v < 0x80 then [v as char]
    else if v < 0x800 then [(0xC0 + v / 64) as char, (0x80 + v % 64) as char]
    else if v < 0x10000 then [(0xE0 + v / 4096) as char, (0x80 + v / 64 % 64) as char, (0x80 + v % 64) as char]
    else [(0xF0 + v / 262144) as char, (0x80 + v / 4096 % 64) as char, (0x80 + v / 64 % 64) as char, (0x80 + v % 64) as char]
  }

  function Encodings(vs: seq<nat>): string
    requires forall i :: 0 <= i < |vs| ==> Scalar(vs[i])
  {
    if vs == [] then "" else Encoding(vs[0]) + Encodings(vs[1..])
  }

  // ----- encodings pass the test

  lemma {:induction false} FedOne(p: Progress, s: string)
    requires s != ""
    ensures Fed(p, s) == Fed(Feed(p, s[0]), s[1..])
  {
  }

  lemma {:induction false} FedTwo(p: Progress, a: char, b: char)
    ensures Fed(p, [a, b]) == Feed(Feed(p, a), b)
  {
    FedOne(p, [a, b]);
    assert [a, b][1..] == [b];
    FedOne(Feed(p, a), [b]);
    assert [b][1..] == "";
  }

  lemma {:induction false} FedThree(p: Progress, a: char, b: char, c: char)
    ensures Fed(p, [a, b, c]) == Feed(Feed(Feed(p, a), b), c)
  {
    FedOne(p, [a, b, c]);
    assert [a, b, c][1..] == [b, c];
    FedTwo(Feed(p, a), b, c);
  }

  lemma {:induction false} FedFour(p: Progress, a: char, b: char, c: char, d: char)
    ensures Fed(p, [a, b, c, d]) == Feed(Feed(Feed(Feed(p, a), b), c), d)
  {
    FedOne(p, [a, b, c, d]);
    assert [a, b, c, d][1..] == [b, c, d];
    FedThree(Feed(p, a), b, c, d);
  }

  lemma {:induction false} EncodingPasses(v: nat)
    requires Scalar(v)
    ensures WellFormed(Encoding(v))
  {
    var s := Encoding(v);
    if v < 0x80 {
      FedOne(Ready, s);
      assert s[1..] == "";
    } else if v < 0x800 {
      FedTwo(Ready, s[0], s[1]);
    } else if v < 0x10000 {
      FedThree(Ready, s[0], s[1], s[2]);
    } else {
      FedFour(Ready, s[0], s[1], s[2], s[3]);
    }
  }

  lemma {:induction false} EncodingsPass(vs: seq<nat>)
    requires forall i :: 0 <= i < |vs| ==> Scalar(vs[i])
    ensures WellFormed(Encodings(vs))
  {
    if vs != [] {
      EncodingPasses(vs[0]);
      EncodingsPass(vs[1..]);
      FedAppend(Ready, Encoding(vs[0]), Encodings(vs[1..]));
    }
  }

  // ----- text that passes is made of encodings

  /** How many bytes the test still asks for. */
  function Owed(p: Progress): nat {
    match p
    case Ready => 0
    case Tail(n) => if n <= 1 then 1 else n
    case AfterE0 => 2
    case AfterED => 2
    case AfterF0 => 3
    case AfterF4 => 3
    case Bad => 0
  }

  /** A text that passes from inside a character has all the bytes owed, and passes from behind them. */
  lemma {:induction false} HasOwed(p: Progress, s: string)
    requires Fed(p, s) == Ready
    ensures Owed(p) <= |s| && Fed(p, s[..Owed(p)]) == Ready && WellFormed(s[Owed(p)..])
    decreases |s|
  {
    if p.Bad? {
      BadStays(s);
    } else if p.Ready? {
      assert s[..0] == "" && s[0..] == s;
    } else {
      if s != "" {
        var q := Feed(p, s[0]);
        FedOne(p, s);
        if q.Bad? {
          BadStays(s[1..]);
        }
        HasOwed(q, s[1..]);
        var n := Owed(p);
        assert Owed(q) == n - 1;
        assert s[..n][1..] == s[1..][..n - 1] && s[n..] == s[1..][n - 1..];
        FedOne(p, s[..n]);
      }
    }
  }

  lemma {:induction false} TwoBytes(s: string) returns (v: nat)
    requires |s| == 2 && Feed(Ready, s[0]) == Tail(1) && WellFormed(s)
    ensures Scalar(v) && s == Encoding(v)
  {
    FedTwo(Ready, s[0], s[1]);
    assert s == [s[0], s[1]];
    v := (s[0] as int - 0xC0) * 64 + (s[1] as int - 0x80);
  }

  lemma {:induction false} ThreeBytes(s: string) returns (v: nat)
    requires |s| == 3 && Owed(Feed(Ready, s[0])) == 2 && WellFormed(s)
    ensures Scalar(v) && s == Encoding(v)
  {
    FedThree(Ready, s[0], s[1], s[2]);
    assert s == [s[0], s[1], s[2]];
    var b := (s[0] as int - 0xE0) * 64 + (s[1] as int - 0x80);
    v := b * 64 + (s[2] as int - 0x80);
    assert v / 64 == b && v / 4096 == b / 64 == s[0] as int - 0xE0;
  }

  lemma {:induction false} FourBytes(s: string) returns (v: nat)
    requires |s| == 4 && Owed(Feed(Ready, s[0])) == 3 && WellFormed(s)
    ensures Scalar(v) && s == Encoding(v)
  {
    FedFour(Ready, s[0], s[1], s[2], s[3]);
    assert s == [s[0], s[1], s[2], s[3]];
    var b := (s[0] as int - 0xF0) * 64 + (s[1] as int - 0x80);
    var c := b * 64 + (s[2] as int - 0x80);
    v := c * 64 + (s[3] as int - 0x80);
    assert v / 64 == c && v / 4096 == c / 64 == b && v / 262144 == b / 64 == s[0] as int - 0xF0;
  }

  lemma {:induction false} FirstCharacter(s: string) returns (v: nat)
    requires WellFormed(s) && s != ""
    ensures Scalar(v) && |Encoding(v)| <= |s| && s[..|Encoding(v)|] == Encoding(v) && WellFormed(s[|Encoding(v)|..])
  {
    var p := Feed(Ready, s[0]);
    FedOne(Ready, s);
    if p.Bad? {
      BadStays(s[1..]);
    }
    HasOwed(p, s[1..]);
    var n := 1 + Owed(p);
    var front := s[..n];
    assert front[1..] == s[1..][..n - 1] && s[n..] == s[1..][n - 1..];
    FedOne(Ready, front);
    if n == 1 {
      v := s[0] as int;
      assert front == [s[0]];
    } else if n == 2 {
      v := TwoBytes(front);
    } else if n == 3 {
      v := ThreeBytes(front);
    } else {
      v := FourBytes(front);
    }
  }

  lemma {:induction false} EncodingsNext(v: nat, more: seq<nat>)
    requires Scalar(v) && forall i :: 0 <= i < |more| ==> Scalar(more[i])
    ensures forall i :: 0 <= i < |[v] + more| ==> Scalar(([v] + more)[i])
    ensures Encodings([v] + more) == Encoding(v) + Encodings(more)
  {
    assert ([v] + more)[1..] == more;
  }

  lemma {:induction false} PassesMeansEncodings(s: string) returns (vs: seq<nat>)
    requires WellFormed(s)
    ensures (forall i :: 0 <= i < |vs| ==> Scalar(vs[i])) && Encodings(vs) == s
    decreases |s|
  {
    vs := [];
    if s != "" {
      var v := FirstCharacter(s);
      var n := |Encoding(v)|;
      var more := PassesMeansEncodings(s[n..]);
      EncodingsNext(v, more);
      vs := [v] + more;
      assert s == s[..n] + s[n..];
    }
  }

  ghost predicate AllScalar(vs: seq<nat>) {
    forall i :: 0 <= i < |vs| ==> Scalar(vs[i])
  }

  /** The test accepts exactly the encodings of sequences of scalar values. */
  lemma {:induction false} WellFormedIff(s: string)
    ensures WellFormed(s) <==> exists vs :: AllScalar(vs) && Encodings(vs) == s
  {
    if WellFormed(s) {
      var vs := PassesMeansEncodings(s);
      assert AllScalar(vs);
    }
    if vs :| AllScalar(vs) && Encodings(vs) == s {
      EncodingsPass(vs);
    }
  }
}
