/** nni_url_canonify_uri (url.c) in place: each pass rewrites a NUL-terminated buffer with two cursors. */
module UrlBuffer {
  import opened Wrappers
  import opened UrlCanon

  /** The buffer holds the C string `s`. */
  ghost predicate Holds(buf: array<char>, s: string)
    reads buf
  {
    |s| < buf.Length && buf[..|s|] == s && buf[|s|] == '\0' && '\0' !in s
  }

  /** What is left to do, after what has been written. */
  ghost function Onto(done: string, rest: Option<string>): Option<string> {
    if rest.None? then None else Some(done + rest.value)
  }

  lemma {:induction false} UnescapeNoNul(s: string)
    requires '\0' !in s && Unescape(s).Some?
    ensures '\0' !in Unescape(s).value
  {
    if s != "" {
      if s[0] != '%' { UnescapeNoNul(s[1..]); } else { UnescapeNoNul(s[3..]); }
    }
  }

  lemma {:induction false} CollapseNoNul(s: string, skip: bool)
    requires '\0' !in s
    ensures '\0' !in Collapse(s, skip)
    decreases |s|
  {
    if s == "" {
    } else if s[0] == '/' && !skip {
      DropSlashesRest(s[1..]);
      CollapseNoNul(DropSlashes(s[1..]), false);
    } else {
      CollapseNoNul(s[1..], skip || EndsPath(s[0]));
    }
  }

  lemma {:induction false} DotsNoNul(acc: string, rest: string, skip: bool)
    requires '\0' !in acc && '\0' !in rest
    ensures '\0' !in Dots(acc, rest, skip)
    decreases |rest|
  {
    if rest == "" {
    } else if rest[0] == '/' && !skip {
      if IsDotDot(rest) { DotsNoNul(Pop(acc), rest[3..], false); }
      else if IsDot(rest) { DotsNoNul(acc, rest[2..], false); }
      else { DotsNoNul(acc + "/", rest[1..], false); }
    } else {
      DotsNoNul(acc + [rest[0]], rest[1..], skip || EndsPath(rest[0]));
    }
  }

  /** The cursors of a pass: `dst` has not passed `src`, and the text from `src` on is untouched. */
  ghost predicate Cursors(buf: array<char>, s: string, src: nat, dst: nat)
    reads buf
  {
    dst <= src <= |s| < buf.Length && buf[src..|s|] == s[src..] && buf[|s|] == '\0' && '\0' !in s
  }

  lemma CursorAt(buf: array<char>, s: string, src: nat, dst: nat, k: nat)
    requires Cursors(buf, s, src, dst) && src + k <= |s|
    ensures buf[src + k] == if src + k < |s| then s[src + k] else '\0'
    ensures buf[src + k] == '\0' <==> src + k == |s|
  {
    if src + k < |s| {
      assert buf[src + k] == buf[src..|s|][k] == s[src..][k];
      assert s[src + k] in s;
    }
  }

  lemma CursorsAdvance(buf: array<char>, s: string, src: nat, dst: nat, src': nat)
    requires Cursors(buf, s, src, dst) && src <= src' <= |s|
    ensures Cursors(buf, s, src', dst)
  {
    assert buf[src'..|s|] == buf[src..|s|][src' - src..];
    assert s[src'..] == s[src..][src' - src..];
  }

  /** out[dst] = c, behind the read cursor. */
  method Put(buf: array<char>, ghost s: string, ghost src: nat, dst: nat, c: char)
    requires Cursors(buf, s, src, dst) && dst < src
    modifies buf
    ensures Cursors(buf, s, src, dst + 1) && buf[..dst + 1] == old(buf[..dst]) + [c]
  {
    buf[dst] := c;
    assert buf[src..|s|] == old(buf[src..|s|]);
  }

  /** out[dst] = 0: the buffer holds what was written. */
  method Terminate(buf: array<char>, ghost s: string, dst: nat)
    requires Cursors(buf, s, |s|, dst) && '\0' !in buf[..dst]
    modifies buf
    ensures Holds(buf, old(buf[..dst]))
  {
    buf[dst] := '\0';
  }

  lemma HoldsCursors(buf: array<char>, s: string)
    requires Holds(buf, s)
    ensures Cursors(buf, s, 0, 0) && s[0..] == s && buf[..0] == ""
  {
  }

  // ---- first pass ----

  lemma UnescapePlain(done: string, t: string)
    requires t != "" && t[0] != '%'
    ensures Onto(done, Unescape(t)) == Onto(done + [t[0]], Unescape(t[1..]))
  {
    var r := Unescape(t[1..]);
    if r.Some? { assert done + ([t[0]] + r.value) == done + [t[0]] + r.value; }
  }

  lemma UnescapeToken(done: string, t: string)
    requires |t| >= 3 && t[0] == '%' && IsHex(t[1]) && IsHex(t[2])
    ensures Onto(done, Unescape(t)) == Onto(done + Token(t[1], t[2]), Unescape(t[3..]))
  {
    var r := Unescape(t[3..]);
    if r.Some? { assert done + (Token(t[1], t[2]) + r.value) == done + Token(t[1], t[2]) + r.value; }
  }

  /** Write what an escape becomes: the character itself if it is safe, and the escape in upper case if not. */
  method PutToken(buf: array<char>, ghost s: string, ghost src: nat, dst: nat, hi: char, lo: char) returns (at: nat)
    requires Cursors(buf, s, src, dst) && dst + 3 <= src && IsHex(hi) && IsHex(lo)
    modifies buf
    ensures at <= src && Cursors(buf, s, src, at) && buf[..at] == old(buf[..dst]) + Token(hi, lo)
  {
    hide Cursors, Safe;
    if Safe(Escaped(hi, lo)) {
      Put(buf, s, src, dst, Escaped(hi, lo) as char);
      return dst + 1;
    }
    Put(buf, s, src, dst, '%');
    Put(buf, s, src, dst + 1, ToUpper(hi));
    Put(buf, s, src, dst + 2, ToUpper(lo));
    assert old(buf[..dst]) + ['%'] + [ToUpper(hi)] + [ToUpper(lo)] == old(buf[..dst]) + Token(hi, lo);
    return dst + 3;
  }

  /** First pass: convert escapes of safe characters. */
  method UnescapePass(buf: array<char>, ghost s: string) returns (ok: bool)
    requires Holds(buf, s)
    modifies buf
    ensures ok == Unescape(s).Some?
    ensures ok ==> Holds(buf, Unescape(s).value)
  {
    hide Unescape, Onto, Cursors, Holds, Safe;
    HoldsCursors(buf, s);
    OntoNothing(Unescape(s));
    CursorBounds(buf, s, 0, 0);
    var src: nat, dst: nat := 0, 0;
    while buf[src] != '\0'
      invariant Cursors(buf, s, src, dst) && dst <= src <= |s| < buf.Length
      invariant Unescape(s) == Onto(buf[..dst], Unescape(s[src..]))
      decreases |s| - src
    {
      ghost var done, t := buf[..dst], s[src..];
      CursorAt(buf, s, src, dst, 0);
      var c := buf[src];
      if c == '%' {
        CursorAt(buf, s, src, dst, 1);
        if src + 1 < |s| { CursorAt(buf, s, src, dst, 2); }
        if !IsHex(buf[src + 1]) || !IsHex(buf[src + 2]) {
          UnescapeBad(t);
          OntoNone(done, Unescape(t));
          return false;
        }
        var hi, lo := buf[src + 1], buf[src + 2];
        UnescapeToken(done, t);
        CursorsAdvance(buf, s, src, dst, src + 3);
        assert t[3..] == s[src + 3..];
        src := src + 3;
        dst := PutToken(buf, s, src, dst, hi, lo);
      } else {
        UnescapePlain(done, t);
        CursorsAdvance(buf, s, src, dst, src + 1);
        assert t[1..] == s[src + 1..];
        src := src + 1;
        Put(buf, s, src, dst, c);
        dst := dst + 1;
      }
      CursorBounds(buf, s, src, dst);
    }
    CursorAt(buf, s, src, dst, 0);
    assert s[src..] == "";
    UnescapeEnd(buf[..dst], s);
    UnescapeNoNul(s);
    Terminate(buf, s, dst);
    return true;
  }

  lemma CursorBounds(buf: array<char>, s: string, src: nat, dst: nat)
    requires Cursors(buf, s, src, dst)
    ensures dst <= src <= |s| < buf.Length && '\0' !in s
  {
  }

  lemma OntoNothing(rest: Option<string>)
    ensures Onto("", rest) == rest
  {
    if rest.Some? { assert "" + rest.value == rest.value; }
  }

  lemma OntoNone(done: string, rest: Option<string>)
    ensures rest.None? ==> Onto(done, rest).None?
  {
  }

  lemma UnescapeBad(t: string)
    requires t != "" && t[0] == '%' && (|t| < 3 || !IsHex(t[1]) || !IsHex(t[2]))
    ensures Unescape(t).None?
  {
  }

  lemma UnescapeEnd(done: string, s: string)
    requires Unescape(s) == Onto(done, Unescape(""))
    ensures Unescape(s) == Some(done)
  {
    assert done + "" == done;
  }

  // ---- second pass ----

  lemma CollapseSlash(done: string, t: string)
    requires t != "" && t[0] == '/'
    ensures done + Collapse(t, false) == done + "/" + Collapse(DropSlashes(t[1..]), false)
  {
  }

  lemma CollapseOther(done: string, t: string, skip: bool)
    requires t != "" && (t[0] != '/' || skip)
    ensures done + Collapse(t, skip) == done + [t[0]] + Collapse(t[1..], skip || EndsPath(t[0]))
  {
  }

  /** The inner loop: step over a run of slashes. */
  method SkipSlashes(buf: array<char>, ghost s: string, src: nat, ghost dst: nat) returns (src': nat)
    requires Cursors(buf, s, src, dst)
    ensures src <= src' <= |s| && s[src'..] == DropSlashes(s[src..])
  {
    hide Cursors, DropSlashes;
    CursorBounds(buf, s, src, dst);
    src' := src;
    while buf[src'] == '/'
      invariant src <= src' <= |s|
      invariant DropSlashes(s[src'..]) == DropSlashes(s[src..])
      decreases |s| - src'
    {
      CursorAt(buf, s, src, dst, src' - src);
      DropOne(s, src');
      src' := src' + 1;
    }
    CursorAt(buf, s, src, dst, src' - src);
    DropNone(s, src');
  }

  lemma DropOne(s: string, i: nat)
    requires i < |s| && s[i] == '/'
    ensures DropSlashes(s[i..]) == DropSlashes(s[i + 1..])
  {
    assert s[i..][1..] == s[i + 1..];
  }

  lemma DropNone(s: string, i: nat)
    requires i <= |s| && (i < |s| ==> s[i] != '/')
    ensures DropSlashes(s[i..]) == s[i..]
  {
  }

  /** Second pass: eliminate redundant slashes. */
  method CollapsePass(buf: array<char>, ghost s: string)
    requires Holds(buf, s)
    modifies buf
    ensures Holds(buf, Collapse(s, false))
  {
    hide Collapse, Cursors, Holds, DropSlashes;
    HoldsCursors(buf, s);
    CursorBounds(buf, s, 0, 0);
    var src: nat, dst: nat, skip := 0, 0, false;
    assert "" + Collapse(s, false) == Collapse(s, false);
    while buf[src] != '\0'
      invariant Cursors(buf, s, src, dst) && dst <= src <= |s| < buf.Length
      invariant Collapse(s, false) == buf[..dst] + Collapse(s[src..], skip)
      decreases |s| - src
    {
      ghost var done, t := buf[..dst], s[src..];
      CursorAt(buf, s, src, dst, 0);
      var c := buf[src];
      CursorsAdvance(buf, s, src, dst, src + 1);
      assert t[1..] == s[src + 1..];
      src := src + 1;
      Put(buf, s, src, dst, c);
      dst := dst + 1;
      if c == '/' && !skip {
        CollapseSlash(done, t);
        var next := SkipSlashes(buf, s, src, dst);
        CursorsAdvance(buf, s, src, dst, next);
        src := next;
      } else {
        CollapseOther(done, t, skip);
        if EndsPath(c) { skip := true; }
      }
      CursorBounds(buf, s, src, dst);
    }
    CursorAt(buf, s, src, dst, 0);
    CollapseEnd(buf[..dst], s, src, skip);
    CollapseNoNul(s, false);
    Terminate(buf, s, dst);
  }

  lemma CollapseEnd(done: string, s: string, src: nat, skip: bool)
    requires src == |s| && Collapse(s, false) == done + Collapse(s[src..], skip)
    ensures Collapse(s, false) == done
  {
    assert done + "" == done;
  }

  // ---- third pass ----

  /** do { dst--; } while (dst && out[dst] != '/') */
  method PopCursor(buf: array<char>, dst: nat) returns (dst': nat)
    requires 0 < dst <= buf.Length
    ensures dst' < dst && buf[..dst'] == Pop(buf[..dst])
  {
    dst' := dst - 1;
    assert buf[..dst][..dst - 1] == buf[..dst - 1];
    while dst' > 0 && buf[dst'] != '/'
      invariant dst' < dst
      invariant Pop(buf[..dst]) == if dst' == 0 || buf[dst'] == '/' then buf[..dst'] else Pop(buf[..dst'])
    {
      assert buf[..dst'][..dst' - 1] == buf[..dst' - 1];
      assert buf[..dst'][|buf[..dst']| - 1] == buf[dst' - 1];
      dst' := dst' - 1;
    }
  }

  lemma DotsPush(acc: string, t: string, skip: bool)
    requires t != "" && !(t[0] == '/' && !skip && (IsDotDot(t) || IsDot(t)))
    ensures Dots(acc, t, skip) == Dots(acc + [t[0]], t[1..], skip || EndsPath(t[0]))
  {
  }

  lemma DotsPop(acc: string, t: string)
    requires IsDotDot(t)
    ensures |t| >= 3 && t[0] == '/' && Dots(acc, t, false) == Dots(Pop(acc), t[3..], false)
  {
  }

  lemma DotsHop(acc: string, t: string)
    requires IsDot(t) && !IsDotDot(t)
    ensures |t| >= 2 && t[0] == '/' && Dots(acc, t, false) == Dots(acc, t[2..], false)
  {
  }

  /** strncmp(out + src, "/..", 3) and the end-of-segment test, read off the buffer. */
  method AtDotDot(buf: array<char>, ghost s: string, src: nat, ghost dst: nat) returns (b: bool)
    requires Cursors(buf, s, src, dst)
    ensures b == IsDotDot(s[src..])
  {
    CursorBounds(buf, s, src, dst);
    ghost var t := s[src..];
    CursorAt(buf, s, src, dst, 0);
    if buf[src] != '/' { return false; }
    CursorAt(buf, s, src, dst, 1);
    if buf[src + 1] != '.' { return false; }
    CursorAt(buf, s, src, dst, 2);
    if buf[src + 2] != '.' { return false; }
    CursorAt(buf, s, src, dst, 3);
    var e := buf[src + 3];
    b := e == '\0' || e == '/' || EndsPath(e);
  }

  method AtDot(buf: array<char>, ghost s: string, src: nat, ghost dst: nat) returns (b: bool)
    requires Cursors(buf, s, src, dst)
    ensures b == IsDot(s[src..])
  {
    CursorBounds(buf, s, src, dst);
    ghost var t := s[src..];
    CursorAt(buf, s, src, dst, 0);
    if buf[src] != '/' { return false; }
    CursorAt(buf, s, src, dst, 1);
    if buf[src + 1] != '.' { return false; }
    CursorAt(buf, s, src, dst, 2);
    var e := buf[src + 2];
    b := e == '\0' || e == '/' || EndsPath(e);
  }

  /** Third pass: reduce "/." and "/.." elements, but only in the path. */
  method DotsPass(buf: array<char>, ghost s: string)
    requires Holds(buf, s)
    modifies buf
    ensures Holds(buf, Dots("", s, false))
  {
    hide Dots, Cursors, Holds, Pop, IsDot, IsDotDot;
    HoldsCursors(buf, s);
    CursorBounds(buf, s, 0, 0);
    var src: nat, dst: nat, skip := 0, 0, false;
    while buf[src] != '\0'
      invariant Cursors(buf, s, src, dst) && dst <= src <= |s| < buf.Length
      invariant Dots("", s, false) == Dots(buf[..dst], s[src..], skip)
      decreases |s| - src
    {
      ghost var acc, t := buf[..dst], s[src..];
      CursorAt(buf, s, src, dst, 0);
      var c := buf[src];
      var dotdot := AtDotDot(buf, s, src, dst);
      var dot := AtDot(buf, s, src, dst);
      if c == '/' && !skip && dotdot {
        DotsPop(acc, t);
        assert t[3..] == s[src + 3..];
        CursorsAdvance(buf, s, src, dst, src + 3);
        src := src + 3;
        if dst > 0 {
          dst := PopCursor(buf, dst);
          CursorsBack(buf, s, src, |acc|, dst);
        } else {
          PopEmpty();
        }
      } else if c == '/' && !skip && dot {
        DotsHop(acc, t);
        assert t[2..] == s[src + 2..];
        CursorsAdvance(buf, s, src, dst, src + 2);
        src := src + 2;
      } else {
        DotsPush(acc, t, skip);
        assert t[1..] == s[src + 1..];
        CursorsAdvance(buf, s, src, dst, src + 1);
        src := src + 1;
        Put(buf, s, src, dst, c);
        dst := dst + 1;
        skip := skip || EndsPath(c);
      }
      CursorBounds(buf, s, src, dst);
    }
    CursorAt(buf, s, src, dst, 0);
    assert s[src..] == "";
    DotsEnd(buf[..dst], skip);
    DotsNoNul("", s, false);
    Terminate(buf, s, dst);
  }

  lemma CursorsBack(buf: array<char>, s: string, src: nat, dst: nat, dst': nat)
    requires Cursors(buf, s, src, dst) && dst' <= dst
    ensures Cursors(buf, s, src, dst')
  {
  }

  lemma PopEmpty()
    ensures Pop("") == ""
  {
  }

  lemma DotsEnd(acc: string, skip: bool)
    ensures Dots(acc, "", skip) == acc
  {
  }

  // ---- the whole function ----

  /** nni_url_canonify_uri on the C string `s`. */
  method Canonify(s: string) returns (r: Result<string>)
    requires '\0' !in s
    ensures r == Canon(s)
  {
    hide Unescape, Collapse, Dots, Utf8Valid;
    var buf := new char[|s| + 1](i requires 0 <= i <= |s| => if i < |s| then s[i] else '\0');
    assert buf[..|s|] == s;
    var ok := UnescapePass(buf, s);
    if !ok { return Err(EINVAL); }
    ghost var u := Unescape(s).value;
    CollapsePass(buf, u);
    ghost var c := Collapse(u, false);
    DotsPass(buf, c);
    var d := Contents(buf, Dots("", c, false));
    if !Utf8Valid(d) { return Err(EINVAL); }
    return Ok(d);
  }

  /** nni_strdup: the characters before the NUL. */
  method Contents(buf: array<char>, ghost s: string) returns (d: string)
    requires Holds(buf, s)
    ensures d == s
  {
    HoldsCursors(buf, s);
    var n := 0;
    CursorAt(buf, s, 0, 0, 0);
    while buf[n] != '\0'
      invariant n <= |s| < buf.Length
      decreases |s| - n
    {
      CursorAt(buf, s, 0, 0, n);
      n := n + 1;
    }
    CursorAt(buf, s, 0, 0, n);
    d := buf[..n];
  }
}
