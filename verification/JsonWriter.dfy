/**
 The bounded writer: `pos` advances through a fixed buffer, and the first
 write that does not fit sets `failed` for good.
 */
module JsonWriter {
  import opened JsonText

  class Writer {
    const buf: array<char>
    var pos: nat
    var failed: bool
    ghost var full: string   // what an unbounded buffer would hold
    ghost var starved: bool  // some scratch memory could not be had

    /** What was kept is a prefix of the unbounded output, and all of it exactly when nothing failed. */
    ghost predicate Valid()
      reads this, buf
    {
      && pos <= buf.Length && pos <= |full|
      && buf[..pos] == full[..pos]
      && (failed <==> pos < |full|)
      && (failed ==> starved || buf.Length <= |full|)
    }

    constructor (capacity: nat)
      ensures Valid() && fresh(buf) && buf.Length == capacity && full == "" && !starved
    {
      buf := new char[capacity];
      pos, failed, full, starved := 0, false, "", false;
    }

    /** Stores text that fits; `full` is brought up to date by the callers. */
    method Store(s: string)
      requires pos + |s| <= buf.Length
      modifies buf
      ensures buf[..pos] == old(buf[..pos]) && buf[pos..pos + |s|] == s
    {
      for i := 0 to |s|
        invariant buf[..pos] == old(buf[..pos])
        invariant buf[pos..pos + i] == s[..i]
      {
        buf[pos + i] := s[i];
      }
    }

    method Append(s: string)
      requires Valid()
      modifies this, buf
      ensures Valid() && full == old(full) + s && starved == old(starved)
      ensures failed <==> old(failed) || old(pos) + |s| > buf.Length
    {
      full := full + s;
      if failed {
        return;
      }
      if buf.Length - pos < |s| {
        failed := true;
        return;
      }
      Store(s);
      pos := pos + |s|;
    }

    /** A formatted write, given what the format expands to: it also fails when the buffer ends up full. */
    method Printf(s: string)
      requires Valid() && s != ""
      modifies this, buf
      ensures Valid() && full == old(full) + s && starved == old(starved)
      ensures failed <==> old(failed) || old(pos) + |s| >= buf.Length
    {
      full := full + s;
      if failed {
        return;
      }
      if buf.Length - pos <= 1 {
        failed := true;
        return;
      }
      var n := if |s| <= buf.Length - pos then |s| else buf.Length - pos;
      Store(s[..n]);
      if pos + n >= buf.Length {
        failed := true;
        return;
      }
      pos := pos + n;
    }

    /** Gives up on text s that could not even be prepared. */
    method Starve(ghost s: string)
      requires Valid() && s != ""
      modifies this
      ensures Valid() && failed && starved && full == old(full) + s
    {
      failed, starved, full := true, true, full + s;
    }

    /** One byte of string contents. */
    method Char(c: char)
      requires Valid() && !failed
      modifies this, buf
      ensures Valid() && full == old(full) + EscapeChar(c) && starved == old(starved)
      ensures failed <==> old(pos) + |EscapeChar(c)| + (if IsControl(c) then 1 else 0) > buf.Length
    {
      if c == '"' || c == '\\' {
        full := full + EscapeChar(c);
        if buf.Length - pos < 2 {
          failed := true;
          return;
        }
        buf[pos] := '\\';
        pos := pos + 1;
        buf[pos] := c;
        pos := pos + 1;
      } else if c == '\n' {
        Append("\\n");
      } else if c == '\r' {
        Append("\\r");
      } else if c == '\t' {
        Append("\\t");
      } else if c < ' ' {
        Printf(EscapeChar(c));
      } else {
        full := full + [c];
        if buf.Length - pos < 1 {
          failed := true;
          return;
        }
        buf[pos] := c;
        pos := pos + 1;
        assert buf[..pos] == buf[..pos - 1] + [c];
      }
    }

    /** The loop over string contents; it stops at the first failure. */
    method Contents(data: string)
      requires Valid()
      modifies this, buf
      ensures Valid() && full == old(full) + Escape(data) && starved == old(starved)
      ensures old(failed) ==> failed
    {
      ghost var before := full;
      var i := 0;
      while i < |data| && !failed
        invariant i <= |data| && Valid() && starved == old(starved)
        invariant full == before + Escape(data[..i])
        invariant old(failed) ==> failed
      {
        EscapeNext(before, data, i);
        Char(data[i]);
        i := i + 1;
      }
      EscapeRest(before, data, i);
      full := full + Escape(data[i..]);
    }

    /** A quoted and escaped string. */
    method String(data: string)
      requires Valid()
      modifies this, buf
      ensures Valid() && full == old(full) + Quote(data) && starved == old(starved)
      ensures old(failed) ==> failed
    {
      ghost var before := full;
      Append("\"");
      Contents(data);
      Append("\"");
      Regroup(before, "\"", Escape(data), "\"");
    }
  }

  lemma {:induction false} EscapeNext(before: string, s: string, i: nat)
    requires i < |s|
    ensures before + Escape(s[..i]) + EscapeChar(s[i]) == before + Escape(s[..i + 1])
  {
    assert s[..i + 1] == s[..i] + [s[i]];
    EscapeAppend(s[..i], s[i]);
  }

  lemma {:induction false} Group(a: string, b: string, c: string)
    ensures a + b + c == a + (b + c)
  {
  }

  lemma {:induction false} EscapeRest(before: string, s: string, i: nat)
    requires i <= |s|
    ensures before + Escape(s[..i]) + Escape(s[i..]) == before + Escape(s)
    ensures i == |s| ==> Escape(s[i..]) == ""
  {
    Group(before, Escape(s[..i]), Escape(s[i..]));
    assert s == s[..i] + s[i..];
    EscapeConcat(s[..i], s[i..]);
  }
}
