/**
 What canonicalisation and parsing compute (url.c), said without the passes: escapes stand for bytes, a path is a list
 of segments, and a request URI is a path, a query and a fragment.
 */
module UrlMeaning {
  import opened Wrappers
  import opened UrlCanon

  // ---- escapes ----

  const DIGITS: string := "0123456789ABCDEF"

  /** The bytes a string stands for, every escape decoded. */
  ghost function Bytes(s: string): seq<int> {
    if s == "" then []
    else if s[0] == '%' && |s| >= 3 && IsHex(s[1]) && IsHex(s[2]) then [Escaped(s[1], s[2])] + Bytes(s[3..])
    else [s[0] as int] + Bytes(s[1..])
  }

  /** A digit is worth its position in the list of digits, in either case. */
  lemma HexDigits(v: nat)
    requires v < 16
    ensures IsHex(DIGITS[v]) && HexVal(DIGITS[v]) == v
    ensures IsHex(ToLower(DIGITS[v])) && HexVal(ToLower(DIGITS[v])) == v
    ensures forall hi: nat, lo: nat :: hi < 16 && lo < 16 ==> Escaped(DIGITS[hi], DIGITS[lo]) == 16 * hi + lo
  {
    forall d: nat | d < 16 ensures IsHex(DIGITS[d]) && HexVal(DIGITS[d]) == d {
      if d < 10 {
        assert DIGITS[d] as int == '0' as int + d;
      } else {
        assert DIGITS[d] as int == 'A' as int + (d - 10);
      }
    }
  }

  lemma UpperDigit(c: char)
    requires IsHex(c)
    ensures IsHex(ToUpper(c)) && HexVal(ToUpper(c)) == HexVal(c)
  {
  }

  /** The escapes that are decoded: the unreserved characters of section 2.3 of RFC 3986, and bytes above 127. */
  lemma SafeIsUnreserved(v: nat)
    ensures Safe(v) <==>
              || 0x41 <= v <= 0x5a || 0x61 <= v <= 0x7a || 0x30 <= v <= 0x39
              || v in {0x2d, 0x2e, 0x5f, 0x7e} || v > 0x7f
  {
  }

  /** The first pass changes how the bytes are written, and not the bytes. */
  lemma {:induction false} UnescapeKeepsBytes(s: string)
    requires Unescape(s).Some?
    ensures Bytes(Unescape(s).value) == Bytes(s)
  {
    hide Safe, Escaped;
    if s == "" {
    } else if s[0] != '%' {
      UnescapeKeepsBytes(s[1..]);
      OneChar(s[0], Unescape(s[1..]).value);
    } else {
      UnescapeKeepsBytes(s[3..]);
      OneToken(s[1], s[2], Unescape(s[3..]).value);
    }
  }

  lemma OneChar(c: char, t: string)
    requires c != '%'
    ensures Bytes([c] + t) == [c as int] + Bytes(t)
  {
    assert ([c] + t)[1..] == t;
  }

  lemma OneToken(hi: char, lo: char, t: string)
    requires IsHex(hi) && IsHex(lo)
    ensures Bytes(Token(hi, lo) + t) == [Escaped(hi, lo)] + Bytes(t)
  {
    if Safe(Escaped(hi, lo)) {
      OneChar(Escaped(hi, lo) as char, t);
    } else {
      UpperDigit(hi);
      UpperDigit(lo);
      assert (['%', ToUpper(hi), ToUpper(lo)] + t)[3..] == t;
    }
  }

  // ---- paths as lists of segments ----

  /** Without delimiters of segments or of the path. */
  ghost predicate IsSegment(g: string) {
    forall i :: 0 <= i < |g| ==> g[i] != '/' && !EndsPath(g[i])
  }

  ghost predicate AreSegments(gs: seq<string>) {
    forall i :: 0 <= i < |gs| ==> IsSegment(gs[i])
  }

  /** The segments, with a slash in front of each. */
  ghost function Slashed(gs: seq<string>): string {
    if gs == [] then "" else "/" + gs[0] + Slashed(gs[1..])
  }

  /** The segments, with a slash between any two. */
  ghost function Join(gs: seq<string>): string
    requires gs != []
  {
    gs[0] + Slashed(gs[1..])
  }

  /** A path, cut at its slashes. */
  ghost function Split(p: string): (gs: seq<string>)
    ensures gs != []
  {
    if p == "" then [""]
    else
      var rest := Split(p[1..]);
      if p[0] == '/' then [""] + rest else [[p[0]] + rest[0]] + rest[1..]
  }

  /** Cutting and joining are inverse, so the list says all there is to say about a path. */
  lemma {:induction false} SplitJoins(p: string)
    requires forall i :: 0 <= i < |p| ==> !EndsPath(p[i])
    ensures Join(Split(p)) == p && AreSegments(Split(p))
  {
    if p != "" {
      SplitJoins(p[1..]);
      assert p == [p[0]] + p[1..];
      SplitMore(p[0], Split(p[1..]));
    }
  }

  /** One more character in front opens a segment or joins the first one. */
  lemma SplitMore(c: char, rest: seq<string>)
    requires rest != [] && AreSegments(rest) && !EndsPath(c)
    ensures var gs := if c == '/' then [""] + rest else [[c] + rest[0]] + rest[1..];
            Join(gs) == [c] + Join(rest) && AreSegments(gs)
  {
    if c == '/' {
      assert ([""] + rest)[1..] == rest;
      assert Slashed(rest) == "/" + Join(rest);
    } else {
      var gs := [[c] + rest[0]] + rest[1..];
      assert gs[1..] == rest[1..];
      assert IsSegment(rest[0]) && forall i :: 1 <= i < |gs| ==> gs[i] == rest[i];
      assert [c] + rest[0] + Slashed(rest[1..]) == [c] + (rest[0] + Slashed(rest[1..]));
    }
  }

  lemma {:induction false} SlashedAppend(gs: seq<string>, g: string)
    ensures Slashed(gs + [g]) == Slashed(gs) + "/" + g
  {
    if gs == [] {
      assert [] + [g] == [g] && [g][1..] == [];
    } else {
      assert (gs + [g])[1..] == gs[1..] + [g];
      SlashedAppend(gs[1..], g);
    }
  }

  lemma JoinAppend(st: seq<string>, g: string)
    requires st != []
    ensures Join(st + [g]) == Join(st) + "/" + g
  {
    assert (st + [g])[1..] == st[1..] + [g];
    SlashedAppend(st[1..], g);
  }

  // ---- the second pass ----

  /** Of the segments after the first, empty ones go, except at the very end. */
  ghost function Squeeze(gs: seq<string>): seq<string> {
    if |gs| <= 1 then gs
    else if gs[0] == "" then Squeeze(gs[1..])
    else [gs[0]] + Squeeze(gs[1..])
  }

  lemma {:induction false} CollapseTail(t: string)
    ensures Collapse(t, true) == t
  {
    if t != "" { CollapseTail(t[1..]); }
  }

  /** A tail starts with the query or the fragment, or is empty. */
  ghost predicate IsTail(t: string) {
    t == "" || EndsPath(t[0])
  }

  lemma CollapseAtTail(t: string)
    requires IsTail(t)
    ensures Collapse(t, false) == t
  {
    if t != "" { CollapseTail(t[1..]); }
  }

  lemma {:induction false} CollapseSegment(g: string, t: string)
    requires IsSegment(g)
    ensures Collapse(g + t, false) == g + Collapse(t, false)
  {
    if g == "" {
      assert g + t == t;
    } else {
      assert (g + t)[1..] == g[1..] + t;
      CollapseSegment(g[1..], t);
    }
  }

  /** A slash and a segment that is not empty are passed through. */
  lemma CollapseFull(g: string, more: string)
    requires IsSegment(g) && g != ""
    ensures Collapse("/" + g + more, false) == "/" + g + Collapse(more, false)
  {
    var s := "/" + g + more;
    assert s[1..] == g + more && DropSlashes(g + more) == g + more;
    CollapseSegment(g, more);
    assert "/" + (g + Collapse(more, false)) == "/" + g + Collapse(more, false);
  }

  /** An empty segment goes if another follows, and stays at the end. */
  lemma CollapseEmpty(more: string)
    ensures more != "" && more[0] == '/' ==> Collapse("/" + more, false) == Collapse(more, false)
    ensures IsTail(more) ==> Collapse("/" + more, false) == "/" + more
  {
    var s := "/" + more;
    assert s[1..] == more;
    if more != "" && more[0] == '/' {
      assert DropSlashes(more) == DropSlashes(more[1..]);
    } else if IsTail(more) {
      assert DropSlashes(more) == more;
      CollapseAtTail(more);
    }
  }

  lemma {:induction false} CollapseSlashed(gs: seq<string>, t: string)
    requires AreSegments(gs) && IsTail(t)
    ensures Collapse(Slashed(gs) + t, false) == Slashed(Squeeze(gs)) + t
    decreases |gs|
  {
    hide Collapse;
    if gs == [] {
      assert Slashed(gs) + t == t;
      CollapseAtTail(t);
    } else {
      var g, more := gs[0], Slashed(gs[1..]) + t;
      assert AreSegments(gs[1..]);
      CollapseSlashed(gs[1..], t);
      SlashedCons(gs, t);
      if g == "" {
        CollapseEmpty(more);
        LastOrMore(gs, t);
      } else {
        CollapseFull(g, more);
        SqueezeFull(gs, t);
      }
    }
  }

  lemma SlashedCons(gs: seq<string>, t: string)
    requires gs != []
    ensures Slashed(gs) + t == "/" + gs[0] + (Slashed(gs[1..]) + t)
    ensures gs[0] == "" ==> Slashed(gs) + t == "/" + (Slashed(gs[1..]) + t)
  {
    var rest := Slashed(gs[1..]);
    assert Slashed(gs) == "/" + gs[0] + rest;
    Assoc("/" + gs[0], rest, t);
    if gs[0] == "" { assert "/" + gs[0] == "/"; }
  }

  lemma Assoc(a: string, b: string, c: string)
    ensures a + b + c == a + (b + c)
  {
  }

  lemma LastOrMore(gs: seq<string>, t: string)
    requires gs != [] && gs[0] == ""
    ensures if |gs| == 1 then Slashed(gs[1..]) + t == t && Slashed(Squeeze(gs)) + t == "/" + t
            else (Slashed(gs[1..]) + t)[..1] == "/" && Squeeze(gs) == Squeeze(gs[1..])
  {
    if |gs| == 1 {
      assert gs[1..] == [] && "" + t == t;
      SlashedCons(gs, t);
    }
  }

  lemma SqueezeFull(gs: seq<string>, t: string)
    requires gs != [] && gs[0] != ""
    ensures Slashed(Squeeze(gs)) + t == "/" + gs[0] + (Slashed(Squeeze(gs[1..])) + t)
  {
    if |gs| == 1 {
      assert gs[1..] == [] && Squeeze([]) == [];
    } else {
      assert ([gs[0]] + Squeeze(gs[1..]))[1..] == Squeeze(gs[1..]);
    }
    SlashedCons(Squeeze(gs), t);
  }

  /** The second pass squeezes the segments of the path, and leaves the tail alone. */
  lemma CollapseSqueezes(p: string, t: string)
    requires (forall i :: 0 <= i < |p| ==> !EndsPath(p[i])) && IsTail(t)
    ensures var gs := Split(p);
            Collapse(p + t, false) == Join([gs[0]] + Squeeze(gs[1..])) + t
  {
    hide Collapse, Squeeze, Split, Slashed, Join, IsSegment;
    SplitJoins(p);
    var gs := Split(p);
    assert AreSegments(gs[1..]);
    Pieces(gs, gs[1..], t);
    Pieces(gs, Squeeze(gs[1..]), t);
    assert [gs[0]] + gs[1..] == gs;
    CollapseSegment(gs[0], Slashed(gs[1..]) + t);
    CollapseSlashed(gs[1..], t);
  }

  lemma Pieces(gs: seq<string>, rest: seq<string>, t: string)
    requires gs != []
    ensures Join([gs[0]] + rest) + t == gs[0] + (Slashed(rest) + t)
  {
    assert ([gs[0]] + rest)[1..] == rest;
  }

  // ---- the third pass ----

  /** ".." takes the last segment away; the first can only be emptied. */
  ghost function Shorter(st: seq<string>): (r: seq<string>)
    requires st != []
    ensures r != []
  {
    if |st| > 1 then st[..|st| - 1] else [""]
  }

  /** A stack of segments: "." leaves it, ".." pops it, any other segment is pushed. */
  ghost function Reduce(st: seq<string>, gs: seq<string>): (r: seq<string>)
    requires st != []
    ensures r != []
    decreases |gs|
  {
    if gs == [] then st
    else Reduce(if gs[0] == "." then st else if gs[0] == ".." then Shorter(st) else st + [gs[0]], gs[1..])
  }

  lemma {:induction false} PopSegment(acc: string, g: string)
    requires IsSegment(g)
    ensures Pop(acc + "/" + g) == acc
    decreases |g|
  {
    var s := acc + "/" + g;
    if g == "" {
      assert s[..|s| - 1] == acc;
    } else {
      assert s[..|s| - 1] == acc + "/" + g[..|g| - 1];
      PopSegment(acc, g[..|g| - 1]);
    }
  }

  lemma {:induction false} PopAll(g: string)
    requires IsSegment(g)
    ensures Pop(g) == ""
    decreases |g|
  {
    if |g| > 1 { PopAll(g[..|g| - 1]); }
  }

  lemma PopIsShorter(st: seq<string>)
    requires st != [] && AreSegments(st)
    ensures Pop(Join(st)) == Join(Shorter(st))
  {
    hide Pop;
    if |st| == 1 {
      assert Join(st) == st[0] && Join([""]) == "";
      PopAll(st[0]);
    } else {
      var init, g := st[..|st| - 1], st[|st| - 1];
      assert st == init + [g];
      JoinAppend(init, g);
      PopSegment(Join(init), g);
    }
  }

  lemma {:induction false} DotsTail(acc: string, t: string)
    ensures Dots(acc, t, true) == acc + t
    decreases |t|
  {
    if t == "" {
      assert acc + t == acc;
    } else {
      DotsTail(acc + [t[0]], t[1..]);
      assert acc + t == acc + [t[0]] + t[1..];
    }
  }

  lemma DotsAtTail(acc: string, t: string)
    requires IsTail(t)
    ensures Dots(acc, t, false) == acc + t
  {
    if t == "" {
      assert acc + t == acc;
    } else {
      DotsTail(acc + [t[0]], t[1..]);
      assert acc + t == acc + [t[0]] + t[1..];
    }
  }

  lemma {:induction false} DotsSegment(acc: string, g: string, t: string)
    requires IsSegment(g)
    ensures Dots(acc, g + t, false) == Dots(acc + g, t, false)
    decreases |g|
  {
    if g == "" {
      assert g + t == t && acc + g == acc;
    } else {
      assert (g + t)[1..] == g[1..] + t && (g + t)[0] == g[0];
      DotsSegment(acc + [g[0]], g[1..], t);
      assert acc + [g[0]] + g[1..] == acc + g;
    }
  }

  /** The text after a segment: another slash, the tail, or nothing. */
  ghost predicate AfterSegment(more: string) {
    more == "" || more[0] == '/' || EndsPath(more[0])
  }

  lemma DotTests(g: string, more: string)
    requires IsSegment(g) && AfterSegment(more)
    ensures IsDotDot("/" + g + more) <==> g == ".."
    ensures IsDot("/" + g + more) <==> g == "."
  {
    var s := "/" + g + more;
    assert forall i :: 0 <= i < |g| ==> s[i + 1] == g[i];
    assert more != "" ==> s[|g| + 1] == more[0];
    if |g| >= 1 { assert s[1] == g[0]; }
    if |g| >= 2 { assert s[2] == g[1]; }
    if |g| >= 3 { assert s[3] == g[2]; }
    assert |g| == 2 && g[0] == '.' && g[1] == '.' ==> g == "..";
    assert |g| == 1 && g[0] == '.' ==> g == ".";
  }

  lemma DotsStep(acc: string, g: string, more: string)
    requires IsSegment(g) && AfterSegment(more)
    ensures Dots(acc, "/" + g + more, false) ==
            Dots(if g == "." then acc else if g == ".." then Pop(acc) else acc + "/" + g, more, false)
  {
    hide Dots, Pop, IsDotDot, IsDot, IsSegment, AfterSegment;
    DotTests(g, more);
    AtSlash(acc, "/" + g + more);
    Behind(g, more);
    if g != ".." && g != "." { DotsSegment(acc + "/", g, more); }
  }

  lemma AtSlash(acc: string, s: string)
    requires s != "" && s[0] == '/' && (IsDotDot(s) ==> |s| >= 3) && (IsDot(s) ==> |s| >= 2)
    ensures Dots(acc, s, false) == if IsDotDot(s) then Dots(Pop(acc), s[3..], false)
                                   else if IsDot(s) then Dots(acc, s[2..], false)
                                   else Dots(acc + "/", s[1..], false)
  {
    hide Pop, IsDotDot, IsDot;
  }

  lemma Behind(g: string, more: string)
    ensures var s := "/" + g + more;
            && s != "" && s[0] == '/' && s[1..] == g + more
            && (g == ".." ==> |s| >= 3 && s[3..] == more) && (g == "." ==> |s| >= 2 && s[2..] == more)
  {
  }

  lemma {:induction false} DotsReduces(st: seq<string>, gs: seq<string>, t: string)
    requires st != [] && AreSegments(st) && AreSegments(gs) && IsTail(t)
    ensures Dots(Join(st), Slashed(gs) + t, false) == Join(Reduce(st, gs)) + t
    decreases |gs|
  {
    hide Dots, Pop, Join;
    if gs == [] {
      assert Slashed(gs) + t == t;
      DotsAtTail(Join(st), t);
    } else {
      var g, more := gs[0], Slashed(gs[1..]) + t;
      assert Slashed(gs) + t == "/" + g + more;
      assert AfterSegment(more) by { SlashFirst(gs[1..], t); }
      DotsStep(Join(st), g, more);
      var next := if g == "." then st else if g == ".." then Shorter(st) else st + [g];
      if g == ".." {
        PopIsShorter(st);
      } else if g != "." {
        JoinAppend(st, g);
      }
      assert AreSegments(gs[1..]) && AreSegments(next);
      DotsReduces(next, gs[1..], t);
    }
  }

  lemma SlashFirst(gs: seq<string>, t: string)
    requires IsTail(t)
    ensures AfterSegment(Slashed(gs) + t)
  {
  }

  /** The third pass reduces the segments of the path with a stack, and leaves the tail alone. */
  lemma DotsAreReduced(p: string, t: string)
    requires (forall i :: 0 <= i < |p| ==> !EndsPath(p[i])) && IsTail(t)
    ensures var gs := Split(p);
            Dots("", p + t, false) == Join(Reduce([gs[0]], gs[1..])) + t
  {
    hide Dots, Split, Reduce, Join, Slashed, AreSegments;
    SplitJoins(p);
    var gs := Split(p);
    FirstSegment(gs, t);
    DotsSegment("", gs[0], Slashed(gs[1..]) + t);
    DotsReduces([gs[0]], gs[1..], t);
  }

  lemma FirstSegment(gs: seq<string>, t: string)
    requires gs != [] && AreSegments(gs)
    ensures IsSegment(gs[0]) && AreSegments(gs[1..]) && AreSegments([gs[0]])
    ensures Join(gs) + t == gs[0] + (Slashed(gs[1..]) + t)
    ensures Join([gs[0]]) == gs[0] == "" + gs[0]
  {
    hide Slashed, IsSegment;
    var rest := Slashed(gs[1..]);
    assert gs[0] + rest + t == gs[0] + (rest + t);
    assert [gs[0]][1..] == [];
    NoSlashes();
    assert gs[0] + "" == gs[0];
  }

  lemma NoSlashes()
    ensures Slashed([]) == ""
  {
  }

  // ---- the three passes together ----

  lemma {:induction false} SplitSegment(g: string, more: string)
    requires IsSegment(g) && (more == "" || more[0] == '/')
    ensures Split(g + more) == [g + Split(more)[0]] + Split(more)[1..]
  {
    if g == "" {
      assert g + more == more;
      assert Split(more) == [Split(more)[0]] + Split(more)[1..] && "" + Split(more)[0] == Split(more)[0];
    } else {
      assert (g + more)[1..] == g[1..] + more && (g + more)[0] == g[0];
      SplitSegment(g[1..], more);
      var rest := Split(g[1..] + more);
      assert rest[0] == g[1..] + Split(more)[0] && rest[1..] == Split(more)[1..];
      assert [g[0]] + rest[0] == g + Split(more)[0];
    }
  }

  /** A list of segments comes back from the path it makes. */
  lemma {:induction false} JoinSplits(gs: seq<string>)
    requires gs != [] && AreSegments(gs)
    ensures Split(Join(gs)) == gs
    decreases |gs|
  {
    var g, more := gs[0], Slashed(gs[1..]);
    SplitSegment(g, more);
    if gs[1..] == [] {
      assert gs == [g] && g + "" == g;
    } else {
      assert AreSegments(gs[1..]);
      JoinSplits(gs[1..]);
      assert more == "/" + gs[1] + Slashed(gs[2..]) && gs[1..][1..] == gs[2..];
      assert more[1..] == Join(gs[1..]);
      assert Split(more) == [""] + gs[1..];
      assert g + "" == g && gs == [g] + gs[1..];
    }
  }

  lemma {:induction false} SqueezedSegments(gs: seq<string>)
    requires AreSegments(gs)
    ensures AreSegments(Squeeze(gs))
  {
    if |gs| > 1 {
      assert AreSegments(gs[1..]);
      SqueezedSegments(gs[1..]);
    }
  }

  /** The path of a canonical URI: its segments squeezed, then reduced with a stack. */
  ghost function CanonPath(p: string): string {
    var gs := Split(p);
    Join(Reduce([gs[0]], Squeeze(gs[1..])))
  }

  lemma PathPasses(p: string, t: string)
    requires (forall i :: 0 <= i < |p| ==> !EndsPath(p[i])) && IsTail(t)
    ensures Dots("", Collapse(p + t, false), false) == CanonPath(p) + t
  {
    hide Dots, Collapse, Split, Reduce, Squeeze, Slashed, Join, IsSegment, EndsPath;
    var gs := Split(p);
    SplitJoins(p);
    assert AreSegments(gs[1..]);
    SqueezedSegments(gs[1..]);
    var sq := [gs[0]] + Squeeze(gs[1..]);
    assert AreSegments(sq) && sq[0] == gs[0] && sq[1..] == Squeeze(gs[1..]);
    CollapseSqueezes(p, t);
    JoinSplits(sq);
    JoinPlain(sq);
    DotsAreReduced(Join(sq), t);
  }

  lemma {:induction false} SlashedPlain(gs: seq<string>)
    requires AreSegments(gs)
    ensures forall i :: 0 <= i < |Slashed(gs)| ==> !EndsPath(Slashed(gs)[i])
  {
    if gs != [] {
      assert AreSegments(gs[1..]) && IsSegment(gs[0]);
      SlashedPlain(gs[1..]);
    }
  }

  lemma JoinPlain(gs: seq<string>)
    requires gs != [] && AreSegments(gs)
    ensures forall i :: 0 <= i < |Join(gs)| ==> !EndsPath(Join(gs)[i])
  {
    hide Slashed;
    assert AreSegments(gs[1..]) && IsSegment(gs[0]);
    SlashedPlain(gs[1..]);
  }

  /**
   What canonicalisation gives: the same bytes with the escapes that are not needed decoded; the path of that with its
   empty and dot segments removed as a stack removes them; and the query and fragment as they are.
   */
  lemma CanonMeans(s: string)
    requires Canon(s).Ok?
    ensures Unescape(s).Some? && Bytes(Unescape(s).value) == Bytes(s)
    ensures var u := Unescape(s).value;
            Canon(s).value == CanonPath(u[..PathEnd(u)]) + u[PathEnd(u)..]
  {
    hide Unescape, Dots, Collapse, CanonPath, Bytes, PathEnd;
    UnescapeKeepsBytes(s);
    var u := Unescape(s).value;
    var n := PathEnd(u);
    assert u == u[..n] + u[n..];
    PathPasses(u[..n], u[n..]);
  }
}
