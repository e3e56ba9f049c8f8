/** Bytes, and C strings in fixed buffers. */
module Bytes {

  type Byte = b: nat | b < 256

  /** Key or field contents: no NUL inside. */
  type Text = s: seq<Byte> | forall i :: 0 <= i < |s| ==> s[i] != 0

  function Zeros(n: nat): (z: seq<Byte>)
    ensures |z| == n
  {
    seq(n, i => 0)
  }

  /** The bytes before the first NUL. */
  function CString(buffer: seq<Byte>): (s: Text)
    ensures |s| <= |buffer| && s == buffer[..|s|]
    ensures |s| < |buffer| ==> buffer[|s|] == 0
  {
    if buffer == [] || buffer[0] == 0 then [] else [buffer[0]] + CString(buffer[1..])
  }

  /** `strncmp(a, b, n) == 0`: equal up to n bytes or up to a common NUL. */
  predicate SameFirst(a: seq<Byte>, b: seq<Byte>, n: nat)
    requires n <= |a| && n <= |b|
  {
    n == 0 || (a[0] == b[0] && (a[0] == 0 || SameFirst(a[1..], b[1..], n - 1)))
  }

  lemma {:induction false} SameFirstIsPrefix(a: seq<Byte>, b: seq<Byte>, n: nat)
    requires n <= |a| && n <= |b|
    requires forall i :: 0 <= i < n ==> b[i] != 0
    ensures SameFirst(a, b, n) <==> a[..n] == b[..n]
  {
    if n > 0 {
      SameFirstIsPrefix(a[1..], b[1..], n - 1);
      assert a[..n] == [a[0]] + a[1..][..n - 1];
      assert b[..n] == [b[0]] + b[1..][..n - 1];
    }
  }

  lemma {:induction false} CStringOf(s: Text, rest: seq<Byte>)
    requires rest != [] && rest[0] == 0
    ensures CString(s + rest) == s
  {
    if s == [] {
      assert s + rest == rest;
    } else {
      assert (s + rest)[1..] == s[1..] + rest;
      CStringOf(s[1..], rest);
    }
  }
}
