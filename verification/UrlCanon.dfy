/** URI canonicalisation (url.c) as three rewriting passes on strings, and what the passes establish. */
module UrlCanon {
  import opened Wrappers

  predicate IsHex(c: char) {
    '0' <= c <= '9' || 'A' <= c <= 'F' || 'a' <= c <= 'f'
  }

  /** url_hex_val */
  function HexVal(c: char): (v: nat)
    ensures v < 16
  {
    if '0' <= c <= '9' then c as int - '0' as int
    else if 'A' <= c <= 'F' then c as int - 'A' as int + 10
    else if 'a' <= c <= 'f' then c as int - 'a' as int + 10
    else 0
  }

  /** toupper and tolower in the C locale */
  function ToUpper(c: char): char {
    if 'a' <= c <= 'z' then (c as int - 32) as char else c
  }

  function ToLower(c: char): char {
    if 'A' <= c <= 'Z' then (c as int + 32) as char else c
  }

  function Escaped(hi: char, lo: char): nat {
    HexVal(hi) * 16 + HexVal(lo)
  }

  /** The characters an escape is decoded to: the unreserved ones, and all bytes above 127. */
  predicate Safe(v: nat) {
    || 'A' as int <= v <= 'Z' as int || 'a' as int <= v <= 'z' as int || '0' as int <= v <= '9' as int
    || v == '.' as int || v == '~' as int || v == '_' as int || v == '-' as int || v >= 0x80
  }

  /** First pass: decode escapes of safe characters, and write the others in upper case. */
  function Unescape(s: string): Option<string> {
    if s == "" then Some("")
    else if s[0] != '%' then
      var t := Unescape(s[1..]);
      if t.None? then None else Some([s[0]] + t.value)
    else if |s| < 3 || !IsHex(s[1]) || !IsHex(s[2]) then None
    else
      var t := Unescape(s[3..]);
      if t.None? then None else Some(Token(s[1], s[2]) + t.value)
  }

  /** What one escape becomes. */
  function Token(hi: char, lo: char): string
  {
    if Safe(Escaped(hi, lo)) then [Escaped(hi, lo) as char] else ['%', ToUpper(hi), ToUpper(lo)]
  }

  function DropSlashes(s: string): (r: string)
    ensures |r| <= |s|
  {
    if s == "" || s[0] != '/' then s else DropSlashes(s[1..])
  }

  lemma {:induction false} DropSlashesRest(s: string)
    ensures var r := DropSlashes(s);
            r == s[|s| - |r|..] && (r == "" || r[0] != '/')
  {
    if s != "" && s[0] == '/' {
      DropSlashesRest(s[1..]);
      var n := |DropSlashes(s[1..])|;
      assert s[1..][|s| - 1 - n..] == s[|s| - n..];
    }
  }

  predicate EndsPath(c: char) {
    c == '?' || c == '#'
  }

  /** Second pass: runs of slashes become one, up to the query or fragment. */
  function Collapse(s: string, skip: bool): string
    decreases |s|
  {
    if s == "" then ""
    else if s[0] == '/' && !skip then "/" + Collapse(DropSlashes(s[1..]), false)
    else [s[0]] + Collapse(s[1..], skip || EndsPath(s[0]))
  }

  /** The segment that starts at s[0] ends before s[k]. */
  predicate SegmentEnds(s: string, k: nat) {
    k == |s| || (k < |s| && (s[k] == '/' || EndsPath(s[k])))
  }

  predicate IsDotDot(s: string) {
    |s| >= 3 && s[0] == '/' && s[1] == '.' && s[2] == '.' && SegmentEnds(s, 3)
  }

  predicate IsDot(s: string) {
    |s| >= 2 && s[0] == '/' && s[1] == '.' && SegmentEnds(s, 2)
  }

  /** Drop the last segment together with the slash before it. */
  function Pop(acc: string): (r: string)
    ensures |r| <= |acc| && r == acc[..|r|]
    ensures r == "" || (|r| < |acc| && acc[|r|] == '/')
    ensures |acc| > 0 ==> |r| < |acc|
    ensures forall i :: |r| < i < |acc| ==> acc[i] != '/'
  {
    if acc == "" then ""
    else if |acc| == 1 || acc[|acc| - 1] == '/' then acc[..|acc| - 1]
    else Pop(acc[..|acc| - 1])
  }

  /** Third pass: remove dot segments from `rest`, `acc` being the output so far. */
  function Dots(acc: string, rest: string, skip: bool): string
    decreases |rest|
  {
    if rest == "" then acc
    else if rest[0] == '/' && !skip then
      if IsDotDot(rest) then Dots(Pop(acc), rest[3..], false)
      else if IsDot(rest) then Dots(acc, rest[2..], false)
      else Dots(acc + "/", rest[1..], false)
    else Dots(acc + [rest[0]], rest[1..], skip || EndsPath(rest[0]))
  }

  /** url_utf8_validate, as written: each code point is accumulated from the byte after the one checked. */
  predicate Utf8Valid(s: string)
    decreases |s|, 0
  {
    if s == "" then true
    else
      var b := s[0] as int;
      if b < 0x80 then Utf8Valid(s[1..])
      else if 0xc0 <= b < 0xe0 then Utf8Tail(s[1..], b % 0x20, 1, 0x80)
      else if 0xe0 <= b < 0xf0 then Utf8Tail(s[1..], b % 0x10, 2, 0x800)
      else if 0xf0 <= b < 0xf8 then Utf8Tail(s[1..], b % 0x08, 3, 0x10000)
      else false
  }

  predicate Utf8Tail(s: string, v: nat, nb: nat, min: nat)
    decreases |s|, 1
  {
    if nb == 0 then v >= min && !(0xd800 <= v <= 0xdfff) && v <= 0x10ffff && Utf8Valid(s)
    else if s == "" || !(0x80 <= s[0] as int < 0xc0) then false
    else Utf8Tail(s[1..], v * 64 + (if |s| > 1 then s[1] as int % 64 else 0), nb - 1, min)
  }

  /** nni_url_canonify_uri */
  function Canon(s: string): Result<string> {
    var u := Unescape(s);
    if u.None? then Err(EINVAL)
    else
      var d := Dots("", Collapse(u.value, false), false);
      if Utf8Valid(d) then Ok(d) else Err(EINVAL)
  }

  // ---- what each pass establishes ----

  predicate IsUpperHex(c: char) {
    '0' <= c <= '9' || 'A' <= c <= 'F'
  }

  /** Every escape is complete, in upper case, and of a character that has to be escaped. */
  ghost predicate EscapesNormal(s: string) {
    forall i :: 0 <= i < |s| && s[i] == '%' ==> NormalEscapeAt(s, i)
  }

  ghost predicate NormalEscapeAt(s: string, i: nat) {
    i + 2 < |s| && IsUpperHex(s[i + 1]) && IsUpperHex(s[i + 2]) && !Safe(Escaped(s[i + 1], s[i + 2]))
  }

  /** Where the path ends: the first '?' or '#', or the end. */
  function PathEnd(s: string): (n: nat)
    ensures n <= |s|
    ensures forall i :: 0 <= i < n ==> !EndsPath(s[i])
    ensures n < |s| ==> EndsPath(s[n])
  {
    if s == "" || EndsPath(s[0]) then 0 else 1 + PathEnd(s[1..])
  }

  ghost predicate NoDoubleSlash(s: string) {
    forall i :: 0 <= i && i + 1 < PathEnd(s) ==> !(s[i] == '/' && s[i + 1] == '/')
  }

  ghost predicate NoDotSegment(s: string) {
    forall i :: 0 <= i < PathEnd(s) && s[i] == '/' ==> !IsDot(s[i..]) && !IsDotDot(s[i..])
  }

  ghost predicate Canonical(s: string) {
    EscapesNormal(s) && NoDoubleSlash(s) && NoDotSegment(s)
  }

  // ---- first pass ----

  lemma {:induction false} UnescapeNormal(s: string)
    requires Unescape(s).Some?
    ensures EscapesNormal(Unescape(s).value) && |Unescape(s).value| <= |s|
  {
    if s == "" {
    } else if s[0] != '%' {
      UnescapeNormal(s[1..]);
      ConsNormal([s[0]], Unescape(s[1..]).value);
    } else {
      UnescapeNormal(s[3..]);
      TokenNormal(s[1], s[2]);
      ConsNormal(Token(s[1], s[2]), Unescape(s[3..]).value);
    }
  }

  lemma TokenNormal(hi: char, lo: char)
    requires IsHex(hi) && IsHex(lo)
    ensures EscapesNormal(Token(hi, lo)) && |Token(hi, lo)| <= 3
  {
    assert HexVal(ToUpper(hi)) == HexVal(hi) && HexVal(ToUpper(lo)) == HexVal(lo);
    assert IsUpperHex(ToUpper(hi)) && IsUpperHex(ToUpper(lo));
  }

  lemma ConsNormal(a: string, b: string)
    requires EscapesNormal(a) && EscapesNormal(b)
    ensures EscapesNormal(a + b)
  {
    forall i | 0 <= i < |a + b| && (a + b)[i] == '%' ensures NormalEscapeAt(a + b, i) {
      if i < |a| { assert NormalEscapeAt(a, i); } else { assert NormalEscapeAt(b, i - |a|); }
    }
  }

  lemma SuffixNormal(s: string, k: nat)
    requires EscapesNormal(s) && k <= |s|
    ensures EscapesNormal(s[k..])
  {
    forall i | 0 <= i < |s[k..]| && s[k..][i] == '%' ensures NormalEscapeAt(s[k..], i) {
      assert NormalEscapeAt(s, i + k);
    }
  }

  lemma {:induction false} UnescapeFixed(s: string)
    requires EscapesNormal(s)
    ensures Unescape(s) == Some(s)
  {
    if s == "" {
    } else if s[0] != '%' {
      SuffixNormal(s, 1);
      UnescapeFixed(s[1..]);
      assert [s[0]] + s[1..] == s;
    } else {
      assert NormalEscapeAt(s, 0);
      SuffixNormal(s, 3);
      UnescapeFixed(s[3..]);
      assert Token(s[1], s[2]) == s[..3];
      assert s[..3] + s[3..] == s;
    }
  }

  // ---- second pass ----

  lemma {:induction false} CollapseSkip(s: string)
    ensures Collapse(s, true) == s
  {
    if s != "" { CollapseSkip(s[1..]); }
  }

  lemma {:induction false} CollapseShorter(s: string, skip: bool)
    ensures |Collapse(s, skip)| <= |s|
    ensures s != "" ==> Collapse(s, skip) != "" && Collapse(s, skip)[0] == s[0]
    decreases |s|
  {
    if s == "" {
    } else if s[0] == '/' && !skip {
      CollapseShorter(DropSlashes(s[1..]), false);
    } else {
      CollapseShorter(s[1..], skip || EndsPath(s[0]));
    }
  }

  /** A character that is neither a slash nor the end of the path is passed through. */
  lemma CollapsePlain(s: string, skip: bool)
    requires s != "" && s[0] != '/' && !EndsPath(s[0])
    ensures Collapse(s, skip) == [s[0]] + Collapse(s[1..], skip)
  {
  }

  lemma CollapseEscape(s: string, skip: bool)
    requires s != "" && s[0] == '%' && NormalEscapeAt(s, 0)
    ensures Collapse(s, skip) == s[..3] + Collapse(s[3..], skip)
  {
    hide Collapse, Safe, HexVal;
    CollapsePlain(s, skip);
    CollapsePlain(s[1..], skip);
    CollapsePlain(s[2..], skip);
    assert s[1..][1..] == s[2..] && s[2..][1..] == s[3..];
    var t := Collapse(s[3..], skip);
    assert [s[0]] + ([s[1]] + ([s[2]] + t)) == s[..3] + t;
  }

  lemma EscapeNormal(s: string)
    requires s != "" && s[0] == '%' && NormalEscapeAt(s, 0)
    ensures EscapesNormal(s[..3])
  {
    assert NormalEscapeAt(s[..3], 0);
  }

  lemma {:induction false} CollapseNormal(s: string, skip: bool)
    requires EscapesNormal(s)
    ensures EscapesNormal(Collapse(s, skip))
    decreases |s|
  {
    if s == "" {
    } else if s[0] == '/' && !skip {
      var r := DropSlashes(s[1..]);
      DropSlashesRest(s[1..]);
      SuffixNormal(s, 1);
      SuffixNormal(s[1..], |s| - 1 - |r|);
      CollapseNormal(r, false);
      ConsNormal("/", Collapse(r, false));
    } else if s[0] == '%' {
      SuffixNormal(s, 3);
      CollapseNormal(s[3..], skip);
      CollapseEscape(s, skip);
      EscapeNormal(s);
      ConsNormal(s[..3], Collapse(s[3..], skip));
    } else {
      SuffixNormal(s, 1);
      CollapseNormal(s[1..], skip || EndsPath(s[0]));
      ConsNormal([s[0]], Collapse(s[1..], skip || EndsPath(s[0])));
    }
  }

  lemma PathEndCons(c: char, t: string)
    ensures PathEnd([c] + t) == if EndsPath(c) then 0 else 1 + PathEnd(t)
  {
    assert ([c] + t)[1..] == t;
  }

  lemma {:induction false} CollapseNoDouble(s: string)
    ensures NoDoubleSlash(Collapse(s, false))
    decreases |s|
  {
    if s == "" {
    } else if s[0] == '/' {
      var r := DropSlashes(s[1..]);
      DropSlashesRest(s[1..]);
      CollapseNoDouble(r);
      CollapseShorter(r, false);
      ConsNoDouble('/', Collapse(r, false));
    } else if EndsPath(s[0]) {
      PathEndCons(s[0], Collapse(s[1..], true));
    } else {
      CollapseNoDouble(s[1..]);
      ConsNoDouble(s[0], Collapse(s[1..], false));
    }
  }

  lemma ConsNoDouble(c: char, t: string)
    requires NoDoubleSlash(t) && (c == '/' ==> t == "" || t[0] != '/')
    ensures NoDoubleSlash([c] + t)
  {
    PathEndCons(c, t);
    var x := [c] + t;
    forall i | 0 <= i && i + 1 < PathEnd(x) ensures !(x[i] == '/' && x[i + 1] == '/') {
      if i > 0 { assert x[i] == t[i - 1] && x[i + 1] == t[i]; }
    }
  }

  lemma {:induction false} CollapseFixed(s: string)
    requires NoDoubleSlash(s)
    ensures Collapse(s, false) == s
  {
    if s != "" {
      assert [s[0]] + s[1..] == s;
      PathEndCons(s[0], s[1..]);
      if EndsPath(s[0]) {
        CollapseSkip(s[1..]);
      } else {
        forall i | 0 <= i && i + 1 < PathEnd(s[1..]) ensures !(s[1..][i] == '/' && s[1..][i + 1] == '/') {
          assert s[1..][i] == s[i + 1];
        }
        CollapseFixed(s[1..]);
        if s[0] == '/' && |s| > 1 {
          assert PathEnd(s) > 1 ==> !(s[0] == '/' && s[0 + 1] == '/');
          assert EndsPath(s[1]) || s[1] != '/';
        }
      }
    }
  }

  // ---- third pass ----

  lemma {:induction false} DotsSkip(acc: string, rest: string)
    ensures Dots(acc, rest, true) == acc + rest
    decreases |rest|
  {
    if rest != "" {
      DotsSkip(acc + [rest[0]], rest[1..]);
      assert acc + [rest[0]] + rest[1..] == acc + rest;
    }
  }

  lemma {:induction false} DotsShorter(acc: string, rest: string, skip: bool)
    ensures |Dots(acc, rest, skip)| <= |acc| + |rest|
    decreases |rest|
  {
    if rest == "" {
    } else if rest[0] == '/' && !skip {
      if IsDotDot(rest) { DotsShorter(Pop(acc), rest[3..], false); }
      else if IsDot(rest) { DotsShorter(acc, rest[2..], false); }
      else { DotsShorter(acc + "/", rest[1..], false); }
    } else {
      DotsShorter(acc + [rest[0]], rest[1..], skip || EndsPath(rest[0]));
    }
  }

  /** The string is empty or starts where a segment has ended. */
  predicate AtBoundary(s: string) {
    SegmentEnds(s, 0)
  }

  /** Whether a slash opens a dot segment depends only on what precedes the next boundary. */
  lemma DotLocal(a: string, b: string, c: string, i: nat)
    requires i < |a| && AtBoundary(b) && AtBoundary(c)
    ensures IsDot((a + b)[i..]) <==> IsDot((a + c)[i..])
    ensures IsDotDot((a + b)[i..]) <==> IsDotDot((a + c)[i..])
  {
    var x, y := (a + b)[i..], (a + c)[i..];
    var n := |a| - i;
    assert forall j :: 0 <= j < n ==> x[j] == a[i + j] == y[j];
    assert n < |x| ==> x[n] == b[0];
    assert n < |y| ==> y[n] == c[0];
  }

  /** No slash of `acc` opens a dot segment of acc + rest. */
  ghost predicate AccDotFree(acc: string, rest: string) {
    && (forall i :: 0 <= i < |acc| ==> !EndsPath(acc[i]))
    && (forall i :: 0 <= i < |acc| && acc[i] == '/' ==> !IsDot((acc + rest)[i..]) && !IsDotDot((acc + rest)[i..]))
  }

  lemma AccDotFreeCut(acc: string, k: nat, rest: string, rest': string)
    requires AccDotFree(acc, rest) && k <= |acc| && AtBoundary(acc[k..] + rest) && AtBoundary(rest')
    ensures AccDotFree(acc[..k], rest')
  {
    forall i | 0 <= i < k && acc[i] == '/'
      ensures !IsDot((acc[..k] + rest')[i..]) && !IsDotDot((acc[..k] + rest')[i..])
    {
      assert acc + rest == acc[..k] + (acc[k..] + rest);
      DotLocal(acc[..k], acc[k..] + rest, rest', i);
    }
  }

  lemma AccDotFreePush(acc: string, rest: string)
    requires AccDotFree(acc, rest) && rest != "" && !EndsPath(rest[0])
    requires !IsDot(rest) && !IsDotDot(rest)
    ensures AccDotFree(acc + [rest[0]], rest[1..])
  {
    assert acc + [rest[0]] + rest[1..] == acc + rest;
    assert (acc + rest)[|acc|..] == rest;
  }

  lemma AccDotFreePop(acc: string, rest: string)
    requires AccDotFree(acc, rest) && IsDotDot(rest)
    ensures AccDotFree(Pop(acc), rest[3..])
  {
    var k := |Pop(acc)|;
    if k > 0 {
      assert (acc[k..] + rest)[0] == '/';
      AccDotFreeCut(acc, k, rest, rest[3..]);
    }
  }

  lemma AccDotFreeSkip(acc: string, rest: string)
    requires AccDotFree(acc, rest) && IsDot(rest)
    ensures AccDotFree(acc, rest[2..])
  {
    assert acc[|acc|..] + rest == rest && acc[..|acc|] == acc;
    AccDotFreeCut(acc, |acc|, rest, rest[2..]);
  }

  lemma AccDotFreeEnd(acc: string, rest: string)
    requires AccDotFree(acc, rest) && (rest == "" || EndsPath(rest[0]))
    ensures NoDotSegment(acc + rest)
  {
    PathEndAt(acc, rest);
  }

  lemma {:induction false} DotsClean(acc: string, rest: string)
    requires AccDotFree(acc, rest)
    ensures NoDotSegment(Dots(acc, rest, false))
    decreases |rest|
  {
    hide AccDotFree, NoDotSegment, IsDot, IsDotDot;
    if rest == "" {
      AccDotFreeEnd(acc, rest);
      assert acc + rest == acc;
    } else if rest[0] == '/' && IsDotDot(rest) {
      AccDotFreePop(acc, rest);
      DotDotLong(rest);
      DotsClean(Pop(acc), rest[3..]);
    } else if rest[0] == '/' && IsDot(rest) {
      AccDotFreeSkip(acc, rest);
      DotLong(rest);
      DotsClean(acc, rest[2..]);
    } else if EndsPath(rest[0]) {
      AccDotFreeEnd(acc, rest);
      DotsSkip(acc + [rest[0]], rest[1..]);
      assert acc + [rest[0]] + rest[1..] == acc + rest;
    } else {
      if rest[0] != '/' { NotDots(rest); }
      AccDotFreePush(acc, rest);
      DotsClean(acc + [rest[0]], rest[1..]);
    }
  }

  lemma DotDotLong(rest: string)
    requires IsDotDot(rest)
    ensures |rest| >= 3
  {
  }

  lemma DotLong(rest: string)
    requires IsDot(rest)
    ensures |rest| >= 2
  {
  }

  lemma NotDots(rest: string)
    requires rest != "" && rest[0] != '/'
    ensures !IsDot(rest) && !IsDotDot(rest)
  {
  }

  lemma {:induction false} PathEndAt(acc: string, rest: string)
    requires forall i :: 0 <= i < |acc| ==> !EndsPath(acc[i])
    ensures PathEnd(acc + rest) == |acc| + PathEnd(rest)
  {
    if acc == "" {
      assert acc + rest == rest;
    } else {
      assert (acc + rest)[1..] == acc[1..] + rest;
      PathEndAt(acc[1..], rest);
    }
  }

  lemma {:induction false} DotsFixed(acc: string, rest: string)
    requires NoDotSegment(rest)
    ensures Dots(acc, rest, false) == acc + rest
    decreases |rest|
  {
    if rest != "" {
      assert [rest[0]] + rest[1..] == rest;
      PathEndCons(rest[0], rest[1..]);
      assert acc + [rest[0]] + rest[1..] == acc + rest;
      if EndsPath(rest[0]) {
        DotsSkip(acc + [rest[0]], rest[1..]);
      } else {
        assert rest[0..] == rest;
        forall i | 0 <= i < PathEnd(rest[1..]) && rest[1..][i] == '/'
          ensures !IsDot(rest[1..][i..]) && !IsDotDot(rest[1..][i..])
        {
          assert rest[1..][i..] == rest[i + 1..] && rest[i + 1] == '/';
        }
        DotsFixed(acc + [rest[0]], rest[1..]);
      }
    }
  }

  /** A popped accumulator ends where a slash stood. */
  lemma PopNormal(acc: string, rest: string, rest': string)
    requires EscapesNormal(acc + rest) && EscapesNormal(rest')
    ensures EscapesNormal(Pop(acc) + rest')
  {
    var p := Pop(acc);
    forall i | 0 <= i < |p| && p[i] == '%' ensures NormalEscapeAt(p, i) {
      assert (acc + rest)[i] == '%';
      assert NormalEscapeAt(acc + rest, i);
    }
    ConsNormal(p, rest');
  }

  lemma SkipNormal(acc: string, rest: string, k: nat)
    requires EscapesNormal(acc + rest) && k <= |rest| && rest != "" && rest[0] == '/'
    ensures EscapesNormal(rest[k..]) && EscapesNormal(acc + rest[k..])
  {
    SuffixNormal(acc + rest, |acc| + k);
    assert (acc + rest)[|acc| + k..] == rest[k..];
    forall i | 0 <= i < |acc| && acc[i] == '%' ensures NormalEscapeAt(acc, i) {
      assert (acc + rest)[i] == '%';
      assert NormalEscapeAt(acc + rest, i);
      assert (acc + rest)[|acc|] == '/';
    }
    ConsNormal(acc, rest[k..]);
  }

  lemma {:induction false} DotsNormal(acc: string, rest: string, skip: bool)
    requires EscapesNormal(acc + rest)
    ensures EscapesNormal(Dots(acc, rest, skip))
    decreases |rest|
  {
    hide EscapesNormal;
    if rest == "" {
      assert acc + rest == acc;
    } else if rest[0] == '/' && !skip && IsDotDot(rest) {
      SkipNormal(acc, rest, 3);
      PopNormal(acc, rest, rest[3..]);
      DotsNormal(Pop(acc), rest[3..], false);
    } else if rest[0] == '/' && !skip && IsDot(rest) {
      SkipNormal(acc, rest, 2);
      DotsNormal(acc, rest[2..], false);
    } else {
      assert acc + [rest[0]] + rest[1..] == acc + rest;
      DotsNormal(acc + [rest[0]], rest[1..], skip || EndsPath(rest[0]));
    }
  }

  lemma NoDoubleAt(s: string, i: nat)
    requires NoDoubleSlash(s) && i + 1 < PathEnd(s)
    ensures !(s[i] == '/' && s[i + 1] == '/')
  {
  }

  /** What it takes to splice acc[..k] and rest[j..] without making two slashes meet. */
  ghost predicate Spliceable(acc: string, k: nat, rest: string, j: nat) {
    && k <= |acc| && j <= |rest|
    && (forall i :: 0 <= i < |acc| ==> !EndsPath(acc[i]))
    && (forall i :: 0 <= i < j ==> !EndsPath(rest[i]))
    && (k > 0 && j < |rest| && rest[j] == '/' ==> acc[k - 1] != '/')
  }

  lemma SplicedPath(acc: string, k: nat, rest: string, j: nat)
    requires Spliceable(acc, k, rest, j)
    ensures PathEnd(acc + rest) == |acc| + j + PathEnd(rest[j..])
    ensures PathEnd(acc[..k] + rest[j..]) == k + PathEnd(rest[j..])
  {
    hide PathEnd, EndsPath;
    PathEndAt(acc, rest);
    PathEndAt(acc[..k], rest[j..]);
    assert rest == rest[..j] + rest[j..];
    PathEndAt(rest[..j], rest[j..]);
  }

  lemma NoDoubleCutAt(acc: string, k: nat, rest: string, j: nat, i: nat)
    requires NoDoubleSlash(acc + rest) && Spliceable(acc, k, rest, j)
    requires i + 1 < PathEnd(acc[..k] + rest[j..])
    ensures !((acc[..k] + rest[j..])[i] == '/' && (acc[..k] + rest[j..])[i + 1] == '/')
  {
    hide NoDoubleSlash;
    hide PathEnd, EndsPath, NoDoubleSlash;
    var x, y := acc + rest, acc[..k] + rest[j..];
    SplicedPath(acc, k, rest, j);
    if i + 1 < k {
      assert y[i] == x[i] && y[i + 1] == x[i + 1];
      NoDoubleAt(x, i);
    } else if i >= k {
      var o := i - k + j + |acc|;
      assert y[i] == x[o] && y[i + 1] == x[o + 1];
      NoDoubleAt(x, o);
    } else {
      assert y[i] == acc[k - 1] && y[i + 1] == rest[j];
    }
  }

  lemma NoDoubleCut(acc: string, k: nat, rest: string, j: nat)
    requires NoDoubleSlash(acc + rest) && Spliceable(acc, k, rest, j)
    ensures NoDoubleSlash(acc[..k] + rest[j..])
  {
    var y := acc[..k] + rest[j..];
    forall i | 0 <= i && i + 1 < PathEnd(y) ensures !(y[i] == '/' && y[i + 1] == '/') {
      NoDoubleCutAt(acc, k, rest, j, i);
    }
  }

  lemma NoDoubleBefore(acc: string, k: nat, rest: string)
    requires NoDoubleSlash(acc + rest) && 0 < k <= |acc| && rest != "" && rest[0] == '/'
    requires (k == |acc| || acc[k] == '/') && forall i :: 0 <= i < |acc| ==> !EndsPath(acc[i])
    ensures acc[k - 1] != '/'
  {
    hide NoDoubleSlash;
    PathEndAt(acc, rest);
    PathEndCons(rest[0], rest[1..]);
    assert [rest[0]] + rest[1..] == rest;
    NoDoubleAt(acc + rest, k - 1);
  }

  lemma NoDoublePop(acc: string, rest: string)
    requires NoDoubleSlash(acc + rest) && IsDotDot(rest) && forall i :: 0 <= i < |acc| ==> !EndsPath(acc[i])
    ensures NoDoubleSlash(Pop(acc) + rest[3..])
  {
    hide NoDoubleSlash, Pop;
    var k := |Pop(acc)|;
    if k > 0 { NoDoubleBefore(acc, k, rest); }
    assert forall i :: 0 <= i < 3 ==> !EndsPath(rest[i]);
    NoDoubleCut(acc, k, rest, 3);
    assert acc[..k] == Pop(acc);
  }

  lemma NoDoubleSkip(acc: string, rest: string)
    requires NoDoubleSlash(acc + rest) && IsDot(rest) && forall i :: 0 <= i < |acc| ==> !EndsPath(acc[i])
    ensures NoDoubleSlash(acc + rest[2..])
  {
    hide NoDoubleSlash;
    if acc != "" { NoDoubleBefore(acc, |acc|, rest); }
    NoDoubleCut(acc, |acc|, rest, 2);
    assert acc[..|acc|] == acc;
  }

  lemma {:induction false} DotsNoDouble(acc: string, rest: string)
    requires NoDoubleSlash(acc + rest) && forall i :: 0 <= i < |acc| ==> !EndsPath(acc[i])
    ensures NoDoubleSlash(Dots(acc, rest, false))
    decreases |rest|
  {
    hide NoDoubleSlash;
    if rest == "" {
      assert acc + rest == acc;
    } else if rest[0] == '/' && IsDotDot(rest) {
      NoDoublePop(acc, rest);
      DotsNoDouble(Pop(acc), rest[3..]);
    } else if rest[0] == '/' && IsDot(rest) {
      NoDoubleSkip(acc, rest);
      DotsNoDouble(acc, rest[2..]);
    } else {
      assert acc + [rest[0]] + rest[1..] == acc + rest;
      if EndsPath(rest[0]) {
        DotsSkip(acc + [rest[0]], rest[1..]);
      } else {
        DotsNoDouble(acc + [rest[0]], rest[1..]);
      }
    }
  }

  // ---- the canonical form ----

  /** The result is never longer, and canonical: no needless escape, no doubled slash, no dot segment. */
  lemma CanonIsCanonical(s: string)
    requires Canon(s).Ok?
    ensures Canonical(Canon(s).value) && Utf8Valid(Canon(s).value) && |Canon(s).value| <= |s|
  {
    hide EscapesNormal, NoDoubleSlash, NoDotSegment, Utf8Valid, Unescape, Collapse, Dots;
    var u := Unescape(s).value;
    var c := Collapse(u, false);
    UnescapeNormal(s);
    CollapseNormal(u, false);
    CollapseNoDouble(u);
    CollapseShorter(u, false);
    DotsShorter("", c, false);
    assert "" + c == c;
    DotsNormal("", c, false);
    DotsNoDouble("", c);
    DotsClean("", c);
  }

  /** A canonical string is left as it is. */
  lemma CanonFixed(s: string)
    requires Canonical(s) && Utf8Valid(s)
    ensures Canon(s) == Ok(s)
  {
    hide EscapesNormal, NoDoubleSlash, NoDotSegment, Utf8Valid, Unescape, Collapse, Dots;
    UnescapeFixed(s);
    CollapseFixed(s);
    DotsFixed("", s);
    assert "" + s == s;
  }

  /** Canonicalising is idempotent on every accepted input. */
  lemma CanonIdempotent(s: string)
    requires Canon(s).Ok?
    ensures Canon(Canon(s).value) == Canon(s)
  {
    CanonIsCanonical(s);
    CanonFixed(Canon(s).value);
  }

  // ---- paths from the root ----

  lemma UnescapeStart(s: string)
    requires Unescape(s).Some? && AtBoundary(s)
    ensures AtBoundary(Unescape(s).value)
  {
  }

  /** While nothing but path has been written, the output starts with a slash. */
  lemma {:induction false} DotsStart(acc: string, rest: string)
    requires if acc == "" then AtBoundary(rest) else acc[0] == '/'
    ensures AtBoundary(Dots(acc, rest, false))
    decreases |rest|
  {
    if rest == "" {
    } else if rest[0] == '/' {
      if IsDotDot(rest) { DotsStart(Pop(acc), rest[3..]); }
      else if IsDot(rest) { DotsStart(acc, rest[2..]); }
      else { DotsStart(acc + "/", rest[1..]); }
    } else if EndsPath(rest[0]) {
      DotsSkip(acc + [rest[0]], rest[1..]);
    } else {
      DotsStart(acc + [rest[0]], rest[1..]);
    }
  }

  lemma CanonStart(s: string)
    requires Canon(s).Ok? && AtBoundary(s)
    ensures AtBoundary(Canon(s).value)
  {
    var u := Unescape(s).value;
    UnescapeStart(s);
    CollapseShorter(u, false);
    DotsStart("", Collapse(u, false));
  }

  /**
   The path of a canonical request URI: it is empty or absolute, none of its segments is "." or "..",
   and only its last segment can be empty.
   */
  lemma PathSegments(s: string, i: nat, j: nat)
    requires Canon(s).Ok? && AtBoundary(s)
    requires var r := Canon(s).value;
             i < j <= PathEnd(r) && r[i] == '/' && (j == PathEnd(r) || r[j] == '/') && '/' !in r[i + 1..j]
    ensures var r := Canon(s).value;
            && (PathEnd(r) > 0 ==> r[0] == '/')
            && r[i + 1..j] != "." && r[i + 1..j] != ".." && (r[i + 1..j] == "" ==> j == PathEnd(r))
  {
    hide Canon, EscapesNormal;
    var r := Canon(s).value;
    CanonStart(s);
    CanonIsCanonical(s);
    SegmentIsDot(r, i, j);
    if r[i + 1..j] == "" && j < PathEnd(r) { NoDoubleAt(r, i); }
  }

  lemma SegmentIsDot(r: string, i: nat, j: nat)
    requires i < j <= |r| && r[i] == '/' && SegmentEnds(r, j)
    ensures r[i + 1..j] == "." ==> IsDot(r[i..])
    ensures r[i + 1..j] == ".." ==> IsDotDot(r[i..])
  {
    var seg := r[i + 1..j];
    assert forall k :: 0 <= k < |seg| ==> r[i..][k + 1] == seg[k];
    assert j < |r| ==> r[i..][j - i] == r[j];
  }
}
