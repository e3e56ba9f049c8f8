/**
 The `/proc/mounts` line parser: a tokenizer that cuts fields in place and a
 copier that undoes octal escapes, against the escaping writer they read.
 */
module MountFields {
  import opened Bytes
  import opened Common

  const TAB: Byte := 9
  const NEWLINE: Byte := 10
  const SPACE: Byte := 32
  const ZERO_DIGIT: Byte := 48
  const SEVEN_DIGIT: Byte := 55
  const BACKSLASH: Byte := 92

  predicate IsBlank(b: Byte) { b == SPACE || b == TAB }

  predicate IsBreak(b: Byte) { b == 0 || b == NEWLINE || IsBlank(b) }

  /** A line buffer that ends with a NUL. */
  predicate IsLine(line: seq<Byte>) {
    line != [] && line[|line| - 1] == 0
  }

  // ----- the tokenizer

  function SkipBlanks(line: seq<Byte>, p: nat): (q: nat)
    requires IsLine(line) && p < |line|
    ensures p <= q < |line| && !IsBlank(line[q])
    ensures forall i :: p <= i < q ==> IsBlank(line[i])
    decreases |line| - p
  {
    if IsBlank(line[p]) then SkipBlanks(line, p + 1) else p
  }

  function FieldEnd(line: seq<Byte>, p: nat): (q: nat)
    requires IsLine(line) && p < |line|
    ensures p <= q < |line| && IsBreak(line[q])
    ensures forall i :: p <= i < q ==> !IsBreak(line[i])
    decreases |line| - p
  {
    if IsBreak(line[p]) then p else FieldEnd(line, p + 1)
  }

  /** The end of the line seen from p: its first NUL. */
  function LineEnd(line: seq<Byte>, p: nat): (q: nat)
    requires IsLine(line) && p < |line|
    ensures p <= q < |line| && line[q] == 0
    ensures forall i :: p <= i < q ==> line[i] != 0
    decreases |line| - p
  {
    if line[p] == 0 then p else LineEnd(line, p + 1)
  }

  datatype Token = Token(found: bool, start: nat, cursor: nat, line: seq<Byte>)

  /** One call of the tokenizer: the field start, the new cursor and the line with the field cut off. */
  function NextField(line: seq<Byte>, cursor: nat): (t: Token)
    requires IsLine(line) && cursor < |line|
    ensures IsLine(t.line) && |t.line| == |line| && t.cursor < |line|
    ensures cursor <= t.start < |line|
  {
    var start := SkipBlanks(line, cursor);
    if line[start] == 0 || line[start] == NEWLINE then Token(false, start, start, line) else
    var end := FieldEnd(line, start);
    if line[end] == 0 then Token(true, start, end, line) else Token(true, start, end + 1, line[end := 0])
  }

  /** A call never passes the end of the line, and a found field lies before the new cursor. */
  lemma {:induction false} NextStaysInLine(line: seq<Byte>, cursor: nat)
    requires IsLine(line) && cursor < |line|
    ensures var t := NextField(line, cursor);
            cursor <= t.start <= t.cursor <= LineEnd(line, cursor) && (t.found ==> t.start < t.cursor)
  {
    var end := LineEnd(line, cursor);
    var start := SkipBlanks(line, cursor);
    assert start <= end;
    if line[start] != 0 && line[start] != NEWLINE {
      assert start < FieldEnd(line, start) <= end;
    }
  }

  method NextMountField(line: array<Byte>, cursor: nat) returns (found: bool, start: nat, next: nat)
    requires IsLine(line[..]) && cursor < line.Length
    modifies line
    ensures Token(found, start, next, line[..]) == NextField(old(line[..]), cursor)
  {
    var p := cursor;
    while line[p] == SPACE || line[p] == TAB
      invariant cursor <= p < line.Length
      invariant SkipBlanks(line[..], cursor) == SkipBlanks(line[..], p)
      decreases line.Length - p
    {
      p := p + 1;
    }
    if line[p] == 0 || line[p] == NEWLINE {
      return false, p, p;
    }
    start := p;
    while line[p] != 0 && line[p] != NEWLINE && line[p] != SPACE && line[p] != TAB
      invariant start <= p < line.Length
      invariant FieldEnd(line[..], start) == FieldEnd(line[..], p)
      decreases line.Length - p
    {
      p := p + 1;
    }
    if line[p] != 0 {
      line[p] := 0;
      p := p + 1;
    }
    return true, start, p;
  }

  // ----- the octal escapes

  predicate IsOctal(b: Byte) { ZERO_DIGIT <= b <= SEVEN_DIGIT }

  predicate StartsEscape(s: seq<Byte>) {
    |s| >= 4 && s[0] == BACKSLASH && IsOctal(s[1]) && IsOctal(s[2]) && IsOctal(s[3])
  }

  /** The byte of three octal digits, cut to 8 bits. */
  function OctalValue(a: Byte, b: Byte, c: Byte): Byte
    requires IsOctal(a) && IsOctal(b) && IsOctal(c)
  {
    ((a - ZERO_DIGIT) * 64 + (b - ZERO_DIGIT) * 8 + (c - ZERO_DIGIT)) % 256
  }

  function Decode(s: seq<Byte>): (d: seq<Byte>)
    ensures |d| <= |s|
  {
    if s == [] then []
    else if StartsEscape(s) then [OctalValue(s[1], s[2], s[3])] + Decode(s[4..])
    else [s[0]] + Decode(s[1..])
  }

  function OctalOf(b: Byte): (s: seq<Byte>)
    ensures StartsEscape(s) && |s| == 4
  {
    [BACKSLASH, ZERO_DIGIT + b / 64, ZERO_DIGIT + b / 8 % 8, ZERO_DIGIT + b % 8]
  }

  /** The writer escapes at least the bytes that would break a line or an escape. */
  ghost predicate Covers(escapes: Byte -> bool) {
    escapes(SPACE) && escapes(TAB) && escapes(NEWLINE) && escapes(BACKSLASH)
  }

  function Escaped(raw: seq<Byte>, escapes: Byte -> bool): seq<Byte> {
    if raw == [] then [] else
    (if escapes(raw[0]) then OctalOf(raw[0]) else [raw[0]]) + Escaped(raw[1..], escapes)
  }

  lemma {:induction false} OctalInverse(b: Byte)
    ensures var s := OctalOf(b); OctalValue(s[1], s[2], s[3]) == b
  {
    var eighths := b / 8;
    assert b == 8 * eighths + b % 8 && eighths == 8 * (b / 64) + eighths % 8;
  }

  /** Three octal digits after a backslash stand for the low 8 bits of their value, whatever follows. */
  lemma {:induction false} DecodeOctal(a: nat, b: nat, c: nat, rest: seq<Byte>)
    requires a < 8 && b < 8 && c < 8
    ensures Decode([BACKSLASH, 48 + a, 48 + b, 48 + c] + rest) == [(64 * a + 8 * b + c) % 256] + Decode(rest)
  {
    var s: seq<Byte> := [BACKSLASH, 48 + a, 48 + b, 48 + c] + rest;
    assert s[4..] == rest && StartsEscape(s);
  }

  /** Every other byte stands for itself. */
  lemma {:induction false} DecodePlain(s: seq<Byte>)
    requires s != []
    requires !(s[0] == BACKSLASH && |s| >= 4 && 48 <= s[1] < 56 && 48 <= s[2] < 56 && 48 <= s[3] < 56)
    ensures Decode(s) == [s[0]] + Decode(s[1..])
  {
  }

  lemma {:induction false} DecodeInvertsEscaped(raw: seq<Byte>, escapes: Byte -> bool)
    requires Covers(escapes)
    ensures Decode(Escaped(raw, escapes)) == raw
  {
    if raw != [] {
      var rest := Escaped(raw[1..], escapes);
      DecodeInvertsEscaped(raw[1..], escapes);
      if escapes(raw[0]) {
        OctalInverse(raw[0]);
        var s := OctalOf(raw[0]) + rest;
        assert s[4..] == rest;
        assert StartsEscape(s);
      } else {
        var s := [raw[0]] + rest;
        assert s[1..] == rest;
        assert !StartsEscape(s);
      }
    }
  }

  /** Nothing in an escaped NUL-free field can end it. */
  lemma {:induction false} EscapedHasNoBreak(raw: Text, escapes: Byte -> bool)
    requires Covers(escapes)
    ensures raw != [] ==> Escaped(raw, escapes) != []
    ensures forall i :: 0 <= i < |Escaped(raw, escapes)| ==> !IsBreak(Escaped(raw, escapes)[i])
  {
    if raw != [] {
      EscapedHasNoBreak(raw[1..], escapes);
    }
  }

  /** The text seen k bytes further on. */
  lemma {:induction false} TextFurther(line: seq<Byte>, from: nat, k: nat)
    requires IsLine(line) && from + k < |line| && k <= |CString(line[from..])|
    ensures CString(line[from + k..]) == CString(line[from..])[k..]
    decreases k
  {
    if k > 0 {
      assert line[from..][1..] == line[from + 1..];
      TextFurther(line, from + 1, k - 1);
    }
  }

  /** The bytes a copy delivers from position q on. */
  function Remaining(line: seq<Byte>, q: nat): seq<Byte>
    requires IsLine(line) && q < |line|
    decreases |line| - q
  {
    if line[q] == 0 then []
    else if line[q] == BACKSLASH && IsOctal(line[q + 1]) && IsOctal(line[q + 2]) && IsOctal(line[q + 3]) then
      [OctalValue(line[q + 1], line[q + 2], line[q + 3])] + Remaining(line, q + 4)
    else [line[q]] + Remaining(line, q + 1)
  }

  lemma {:induction false} RemainingIsDecoded(line: seq<Byte>, q: nat)
    requires IsLine(line) && q < |line|
    ensures Remaining(line, q) == Decode(CString(line[q..]))
    decreases |line| - q
  {
    var text := CString(line[q..]);
    if line[q] != 0 {
      var k := if StartsEscape(text) then 4 else 1;
      TextFurther(line, q, k);
      RemainingIsDecoded(line, q + k);
    }
  }

  /** Copies a field, undoing escapes, into a buffer of `size` bytes that it always terminates. */
  method CopyMountField(dst: array<Byte>, size: nat, src: array<Byte>, from: nat)
    requires size <= dst.Length && dst != src && IsLine(src[..]) && from < src.Length
    modifies dst
    ensures size == 0 ==> dst[..] == old(dst[..])
    ensures size > 0 ==>
      var bytes := Remaining(src[..], from);
      var n := Min(|bytes|, size - 1);
      dst[..n] == bytes[..n] && dst[n] == 0 && forall i :: n < i < dst.Length ==> dst[i] == old(dst[i])
  {
    if size == 0 {
      return;
    }
    ghost var text, bytes := src[..], Remaining(src[..], from);
    var q, p, last := from, 0, size - 1;
    while src[q] != 0 && p < last
      invariant from <= q < src.Length && 0 <= p <= last && src[..] == text
      invariant p <= |bytes| && Remaining(text, q) == bytes[p..]
      invariant forall i :: 0 <= i < p ==> dst[i] == bytes[i]
      invariant forall i :: p <= i < dst.Length ==> dst[i] == old(dst[i])
      decreases src.Length - q
    {
      ghost var before := q;
      if src[q] == BACKSLASH && IsOctal(src[q + 1]) && IsOctal(src[q + 2]) && IsOctal(src[q + 3]) {
        dst[p] := OctalValue(src[q + 1], src[q + 2], src[q + 3]);
        q := q + 4;
      } else {
        dst[p] := src[q];
        q := q + 1;
      }
      assert Remaining(text, before) == [dst[p]] + Remaining(text, q);
      assert bytes[p] == bytes[p..][0] == dst[p] && bytes[p + 1..] == bytes[p..][1..] == Remaining(text, q);
      p := p + 1;
    }
    assert src[q] == 0 ==> Remaining(text, q) == [];
    dst[p] := 0;
  }

  // ----- the parser inverts the writer

  /** From cursor to start there are only blanks and tabs. */
  ghost predicate GapAt(line: seq<Byte>, cursor: nat, start: nat) {
    && IsLine(line) && cursor <= start < |line|
    && forall i :: cursor <= i < start ==> line[i] == SPACE || line[i] == TAB
  }

  /** A byte that ends a field: a blank, a tab, a newline or the NUL. */
  predicate Ends(b: Byte) {
    b == SPACE || b == TAB || b == NEWLINE || b == 0
  }

  /** Between cursor and start only blanks, between start and end nothing that ends a field, and such a byte at end. */
  ghost predicate FieldAt(line: seq<Byte>, cursor: nat, start: nat, end: nat) {
    && GapAt(line, cursor, start) && start < end < |line|
    && (forall i :: start <= i < end ==> !Ends(line[i]))
    && Ends(line[end])
  }

  lemma {:induction false} BreakEnds(line: seq<Byte>, p: nat, q: nat)
    requires IsLine(line) && p <= q < |line| && IsBreak(line[q])
    requires forall i :: p <= i < q ==> !IsBreak(line[i])
    ensures FieldEnd(line, p) == q
    decreases q - p
  {
    if p < q {
      BreakEnds(line, p + 1, q);
    }
  }

  /** One call cuts off exactly the field ahead and steps over its break unless that is the line's NUL. */
  lemma {:induction false} NextCutsField(line: seq<Byte>, cursor: nat, start: nat, end: nat)
    requires FieldAt(line, cursor, start, end)
    ensures NextField(line, cursor) == Token(true, start, if line[end] == 0 then end else end + 1, line[end := 0])
  {
    BreakEnds(line, start, end);
    assert line[end] == 0 ==> line[end := 0] == line;
  }

  lemma {:induction false} GapSkipped(line: seq<Byte>, cursor: nat, start: nat)
    requires GapAt(line, cursor, start) && line[start] != SPACE && line[start] != TAB
    ensures SkipBlanks(line, cursor) == start
    decreases start - cursor
  {
    if cursor < start {
      GapSkipped(line, cursor + 1, start);
    }
  }

  /** Before the newline or the NUL that ends a line a call finds nothing, cuts nothing and stops there. */
  lemma {:induction false} NextStopsAtEnd(line: seq<Byte>, cursor: nat, end: nat)
    requires GapAt(line, cursor, end) && (line[end] == NEWLINE || line[end] == 0)
    ensures NextField(line, cursor) == Token(false, end, end, line)
  {
    GapSkipped(line, cursor, end);
  }

  /** A call always stands before a field or before the end of the line. */
  lemma {:induction false} FieldOrEnd(line: seq<Byte>, cursor: nat) returns (start: nat, end: nat)
    requires IsLine(line) && cursor < |line|
    ensures GapAt(line, cursor, start)
    ensures FieldAt(line, cursor, start, end) || line[start] == NEWLINE || line[start] == 0
  {
    start := SkipBlanks(line, cursor);
    end := FieldEnd(line, start);
  }

  datatype Cut = Cut(found: bool, starts: seq<nat>, line: seq<Byte>)

  /** n calls in a row. */
  function CutFields(line: seq<Byte>, cursor: nat, n: nat): (c: Cut)
    requires IsLine(line) && cursor < |line|
    ensures IsLine(c.line) && |c.line| == |line| && |c.starts| == n
    ensures forall i :: 0 <= i < n ==> c.starts[i] < |line|
    decreases n
  {
    if n == 0 then Cut(true, [], line) else
    var t := NextField(line, cursor);
    var c := CutFields(t.line, t.cursor, n - 1);
    Cut(t.found && c.found, [t.start] + c.starts, c.line)
  }

  /** The text at `start` is the field: its bytes are there and a NUL follows. */
  ghost predicate CutAt(line: seq<Byte>, start: nat, field: seq<Byte>) {
    start + |field| < |line| && line[start + |field|] == 0 && forall i :: 0 <= i < |field| ==> line[start + i] == field[i]
  }

  lemma {:induction false} CutDecodes(line: seq<Byte>, start: nat, raw: Text, escapes: Byte -> bool)
    requires IsLine(line) && Covers(escapes) && CutAt(line, start, Escaped(raw, escapes))
    ensures Remaining(line, start) == raw
  {
    var field := Escaped(raw, escapes);
    EscapedHasNoBreak(raw, escapes);
    assert line[start..] == field + line[start + |field|..];
    CStringOf(field, line[start + |field|..]);
    RemainingIsDecoded(line, start);
    DecodeInvertsEscaped(raw, escapes);
  }

  ghost predicate AllBlank(s: seq<Byte>) {
    forall i :: 0 <= i < |s| ==> s[i] == SPACE || s[i] == TAB
  }

  /** From `at` on, the line reads the given bytes. */
  ghost predicate ReadsAt(line: seq<Byte>, at: nat, s: seq<Byte>) {
    at + |s| <= |line| && forall i :: 0 <= i < |s| ==> line[at + i] == s[i]
  }

  lemma {:induction false} ReadsPieces(line: seq<Byte>, at: nat, a: seq<Byte>, b: seq<Byte>)
    requires ReadsAt(line, at, a + b)
    ensures ReadsAt(line, at, a) && ReadsAt(line, at + |a|, b)
  {
    forall i | 0 <= i < |a| ensures line[at + i] == a[i] {
      assert (a + b)[i] == a[i];
    }
    forall i | 0 <= i < |b| ensures line[at + |a| + i] == b[i] {
      assert (a + b)[|a| + i] == b[i];
    }
  }

  /** Blanks, then an escaped field, then a break. */
  lemma {:induction false} PieceIsField(line: seq<Byte>, cursor: nat, gap: seq<Byte>, raw: Text, escapes: Byte -> bool)
    requires IsLine(line) && Covers(escapes) && raw != [] && AllBlank(gap)
    requires ReadsAt(line, cursor, gap) && ReadsAt(line, cursor + |gap|, Escaped(raw, escapes))
    requires var end := cursor + |gap| + |Escaped(raw, escapes)|; end < |line| && Ends(line[end])
    ensures FieldAt(line, cursor, cursor + |gap|, cursor + |gap| + |Escaped(raw, escapes)|)
  {
    var field, start := Escaped(raw, escapes), cursor + |gap|;
    EscapedHasNoBreak(raw, escapes);
    forall i | cursor <= i < start ensures line[i] == SPACE || line[i] == TAB {
      assert line[cursor + (i - cursor)] == gap[i - cursor];
    }
    forall i | start <= i < start + |field| ensures !Ends(line[i]) {
      assert line[start + (i - start)] == field[i - start];
    }
  }

  /** Blanks, then a field, then a byte that ends it, read from the cursor on. */
  lemma {:induction false} FieldPiece(line: seq<Byte>, cursor: nat, gap: seq<Byte>, raw: Text, escapes: Byte -> bool,
                                      stop: Byte, rest: seq<Byte>)
    requires IsLine(line) && Covers(escapes) && raw != [] && AllBlank(gap) && Ends(stop)
    requires ReadsAt(line, cursor, gap + (Escaped(raw, escapes) + ([stop] + rest)))
    ensures var start := cursor + |gap|;
            var end := start + |Escaped(raw, escapes)|;
            && FieldAt(line, cursor, start, end) && line[end] == stop
            && ReadsAt(line, start, Escaped(raw, escapes)) && ReadsAt(line, end + 1, rest)
  {
    var field := Escaped(raw, escapes);
    ReadsPieces(line, cursor, gap, field + ([stop] + rest));
    ReadsPieces(line, cursor + |gap|, field, [stop] + rest);
    ReadsPieces(line, cursor + |gap| + |field|, [stop], rest);
    assert line[cursor + |gap| + |field| + 0] == [stop][0];
    PieceIsField(line, cursor, gap, raw, escapes);
  }

  /** A field of a line as the kernel writes it: the blanks before it, its contents, and the byte behind it. */
  datatype Piece = Piece(gap: seq<Byte>, raw: Text, stop: Byte)

  function Written(pieces: seq<Piece>, escapes: Byte -> bool): seq<Byte> {
    if pieces == [] then [] else
    pieces[0].gap + (Escaped(pieces[0].raw, escapes) + ([pieces[0].stop] + Written(pieces[1..], escapes)))
  }

  /** Non-empty NUL-free fields, blanks between them, and any break behind the last. */
  ghost predicate Fields(pieces: seq<Piece>) {
    forall i :: 0 <= i < |pieces| ==>
      && AllBlank(pieces[i].gap) && pieces[i].raw != []
      && (if i < |pieces| - 1 then pieces[i].stop == SPACE || pieces[i].stop == TAB else Ends(pieces[i].stop))
  }

  ghost predicate SameBefore(a: seq<Byte>, b: seq<Byte>, k: nat) {
    |a| == |b| && k <= |a| && forall i :: 0 <= i < k ==> a[i] == b[i]
  }

  /** A field cut by a NUL decodes to its contents in every line that agrees up to that NUL. */
  lemma {:induction false} CutFieldDecodes(line: seq<Byte>, final: seq<Byte>, start: nat, raw: Text, escapes: Byte -> bool)
    requires IsLine(final) && Covers(escapes)
    requires var end := start + |Escaped(raw, escapes)|;
             end < |line| && ReadsAt(line, start, Escaped(raw, escapes)) && SameBefore(final, line[end := 0], end + 1)
    ensures Remaining(final, start) == raw
  {
    CutDecodes(final, start, raw, escapes);
  }

  lemma {:induction false} FieldsRest(pieces: seq<Piece>)
    requires Fields(pieces) && pieces != []
    ensures Fields(pieces[1..])
  {
    assert forall i :: 0 <= i < |pieces[1..]| ==> pieces[1..][i] == pieces[i + 1];
  }

  /** Where the first of several pieces stands, and that the others follow its break. */
  lemma {:induction false} FirstLayout(line: seq<Byte>, cursor: nat, pieces: seq<Piece>, escapes: Byte -> bool)
      returns (start: nat, end: nat)
    requires Covers(escapes) && IsLine(line) && cursor < |line| && Fields(pieces) && pieces != []
    requires ReadsAt(line, cursor, Written(pieces, escapes))
    ensures FieldAt(line, cursor, start, end) && end == start + |Escaped(pieces[0].raw, escapes)|
    ensures ReadsAt(line, start, Escaped(pieces[0].raw, escapes)) && Fields(pieces[1..])
    ensures |pieces| > 1 ==> line[end] != 0 && ReadsAt(line, end + 1, Written(pieces[1..], escapes))
  {
    var p, more := pieces[0], pieces[1..];
    FieldsRest(pieces);
    start := cursor + |p.gap|;
    end := start + |Escaped(p.raw, escapes)|;
    FieldPiece(line, cursor, p.gap, p.raw, escapes, p.stop, Written(more, escapes));
  }

  /** One call over the first of several pieces: the field is cut, and the others are still ahead. */
  lemma {:induction false} FirstPiece(line: seq<Byte>, cursor: nat, pieces: seq<Piece>, escapes: Byte -> bool) returns (end: nat)
    requires Covers(escapes) && IsLine(line) && cursor < |line| && Fields(pieces) && pieces != []
    requires ReadsAt(line, cursor, Written(pieces, escapes))
    ensures var t := NextField(line, cursor);
            && t.found && end == t.start + |Escaped(pieces[0].raw, escapes)| < |line|
            && t.line == line[end := 0] && cursor <= t.start
            && ReadsAt(line, t.start, Escaped(pieces[0].raw, escapes))
            && Fields(pieces[1..])
            && (|pieces| > 1 ==> t.cursor == end + 1 && ReadsAt(t.line, t.cursor, Written(pieces[1..], escapes)))
  {
    var start;
    start, end := FirstLayout(line, cursor, pieces, escapes);
    NextCutsField(line, cursor, start, end);
  }

  /** Every field was found and decodes to what it was. */
  ghost predicate Restored(c: Cut, pieces: seq<Piece>) {
    && c.found && IsLine(c.line) && |c.starts| == |pieces|
    && forall i :: 0 <= i < |pieces| ==> c.starts[i] < |c.line| && Remaining(c.line, c.starts[i]) == pieces[i].raw
  }

  lemma {:induction false} RestoredWith(start: nat, c: Cut, pieces: seq<Piece>)
    requires pieces != [] && Restored(c, pieces[1..])
    requires start < |c.line| && Remaining(c.line, start) == pieces[0].raw
    ensures Restored(Cut(true, [start] + c.starts, c.line), pieces)
  {
  }

  /** A field cut in front of others that are restored is restored with them. */
  lemma {:induction false} RestoredFirst(line: seq<Byte>, cursor: nat, start: nat, end: nat, c: Cut,
                                         pieces: seq<Piece>, escapes: Byte -> bool)
    requires Covers(escapes) && pieces != [] && Restored(c, pieces[1..]) && cursor <= start
    requires end == start + |Escaped(pieces[0].raw, escapes)| < |line| && ReadsAt(line, start, Escaped(pieces[0].raw, escapes))
    requires SameBefore(c.line, line[end := 0], end + 1)
    ensures Restored(Cut(true, [start] + c.starts, c.line), pieces) && SameBefore(c.line, line, cursor)
  {
    CutFieldDecodes(line, c.line, start, pieces[0].raw, escapes);
    RestoredWith(start, c, pieces);
  }

  /**
   The round trip, for any number of fields: calls of the tokenizer split a line
   of escaped fields, and the copier restores each field exactly. Bytes before
   the cursor stay as they were.
   */
  lemma {:induction false} FieldsRoundTrip(line: seq<Byte>, cursor: nat, pieces: seq<Piece>, escapes: Byte -> bool)
    requires Covers(escapes) && IsLine(line) && cursor < |line| && Fields(pieces)
    requires ReadsAt(line, cursor, Written(pieces, escapes))
    ensures var c := CutFields(line, cursor, |pieces|);
            Restored(c, pieces) && SameBefore(c.line, line, cursor)
    decreases |pieces|
  {
    if pieces != [] {
      var end := FirstPiece(line, cursor, pieces, escapes);
      var t, more := NextField(line, cursor), pieces[1..];
      if more != [] {
        FieldsRoundTrip(t.line, t.cursor, more, escapes);
      }
      RestoredFirst(line, cursor, t.start, end, CutFields(t.line, t.cursor, |more|), pieces, escapes);
    }
  }

  const MOUNT_FIELDS: nat := 3

  method CutThree(line: array<Byte>) returns (found: bool, second: nat, third: nat)
    requires IsLine(line[..])
    modifies line
    ensures var c := CutFields(old(line[..]), 0, MOUNT_FIELDS);
            found == c.found && second == c.starts[1] && third == c.starts[2] && line[..] == c.line
  {
    var found1, start1, next1 := NextMountField(line, 0);
    var found2, start2, next2 := NextMountField(line, next1);
    var found3, start3, next3 := NextMountField(line, next2);
    return found1 && found2 && found3, start2, start3;
  }

  /** The buffer holds the bytes truncated to its size less one, and a NUL. */
  ghost predicate Copied(buffer: seq<Byte>, bytes: seq<Byte>) {
    buffer != [] && var n := Min(|bytes|, |buffer| - 1); buffer[..n] == bytes[..n] && buffer[n] == 0
  }

  method CopyBoth(line: array<Byte>, path: array<Byte>, fsType: array<Byte>, second: nat, third: nat)
    requires IsLine(line[..]) && line != path && line != fsType && path != fsType
    requires path.Length > 0 && fsType.Length > 0 && second < line.Length && third < line.Length
    modifies path, fsType
    ensures Copied(path[..], Remaining(line[..], second)) && Copied(fsType[..], Remaining(line[..], third))
  {
    CopyMountField(path, path.Length, line, second);
    CopyMountField(fsType, fsType.Length, line, third);
  }

  /** The line starts with three fields, escaped and written one behind the other. */
  ghost predicate WrittenLine(line: seq<Byte>, pieces: seq<Piece>, escapes: Byte -> bool)
    requires IsLine(line)
  {
    Covers(escapes) && |pieces| == MOUNT_FIELDS && Fields(pieces) && ReadsAt(line, 0, Written(pieces, escapes))
  }

  lemma {:induction false} ThreeFieldsRoundTrip(line: seq<Byte>, pieces: seq<Piece>, escapes: Byte -> bool)
    requires IsLine(line) && WrittenLine(line, pieces, escapes)
    ensures var c := CutFields(line, 0, MOUNT_FIELDS);
            && c.found
            && Remaining(c.line, c.starts[1]) == pieces[1].raw
            && Remaining(c.line, c.starts[2]) == pieces[2].raw
  {
    FieldsRoundTrip(line, 0, pieces, escapes);
  }

  /**
   The collector's use of both: three fields per line, the second and third
   copied out if all were found. A line written with any sufficient escaping
   gives back the contents of both fields, cut to their buffers.
   */
  method ReadMount(line: array<Byte>, path: array<Byte>, fsType: array<Byte>) returns (found: bool)
    requires IsLine(line[..]) && line != path && line != fsType && path != fsType
    requires path.Length > 0 && fsType.Length > 0
    modifies line, path, fsType
    ensures var c := CutFields(old(line[..]), 0, MOUNT_FIELDS);
            && found == c.found
            && (found ==> Copied(path[..], Remaining(c.line, c.starts[1])) && Copied(fsType[..], Remaining(c.line, c.starts[2])))
    ensures forall pieces: seq<Piece>, escapes: Byte -> bool :: WrittenLine(old(line[..]), pieces, escapes) ==>
              found && Copied(path[..], pieces[1].raw) && Copied(fsType[..], pieces[2].raw)
  {
    ghost var before := line[..];
    var second, third;
    found, second, third := CutThree(line);
    if found {
      CopyBoth(line, path, fsType, second, third);
    }
    forall pieces: seq<Piece>, escapes: Byte -> bool | WrittenLine(before, pieces, escapes)
      ensures found && Copied(path[..], pieces[1].raw) && Copied(fsType[..], pieces[2].raw)
    {
      ThreeFieldsRoundTrip(before, pieces, escapes);
    }
  }
}
