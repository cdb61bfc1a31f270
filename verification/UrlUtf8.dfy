/**
 The UTF-8 check of the canonicaliser (url.c), against the syntax in section 4 of RFC 3629. The check adds the byte
 after each continuation byte to the code point, so the range it tests is that of the third byte of a sequence and
 not that of the second.
 */
module UrlUtf8 {
  import opened Wrappers
  import opened UrlCanon

  /** How many bytes a lead byte announces; 0 for a byte that is no lead byte. */
  function Length(b: char): nat {
    if b < 0x80 as char then 1
    else if 0xc2 as char <= b < 0xe0 as char then 2
    else if 0xe0 as char <= b < 0xf0 as char then 3
    else if 0xf0 as char <= b < 0xf5 as char then 4
    else 0
  }

  predicate Continues(b: char) {
    0x80 as char <= b < 0xc0 as char
  }

  /** The lead bytes that restrict a later byte: overlong forms, surrogates and the end of the code space. */
  predicate Allowed(lead: char, b: char) {
    && (lead == 0xe0 as char ==> b >= 0xa0 as char)
    && (lead == 0xed as char ==> b < 0xa0 as char)
    && (lead == 0xf0 as char ==> b >= 0x90 as char)
    && (lead == 0xf4 as char ==> b < 0x90 as char)
  }

  /** Lead bytes, each followed by as many continuation bytes as it announces. */
  ghost predicate Shaped(s: string)
    decreases |s|
  {
    s == "" || (Starts(s) && Shaped(s[Length(s[0])..]))
  }

  ghost predicate Starts(s: string) {
    s != "" && 0 < Length(s[0]) <= |s| && forall i :: 1 <= i < Length(s[0]) ==> Continues(s[i])
  }

  /** Every lead byte of three or more allows the byte `k` places after it. */
  ghost predicate EachAllows(s: string, k: nat) {
    forall i: nat :: i + k < |s| ==> AllowsAt(s, i, k)
  }

  ghost predicate AllowsAt(s: string, i: nat, k: nat)
    requires i + k < |s|
  {
    s[i] >= 0xe0 as char ==> Allowed(s[i], s[i + k])
  }

  /** UTF8-octets of RFC 3629: the range of the second byte depends on the first. */
  ghost predicate WellFormed(s: string) {
    Shaped(s) && EachAllows(s, 1)
  }

  /** Whether the code point the check computes passes, for the bytes at the front of `s`. */
  ghost predicate Passes(s: string)
    requires Starts(s)
  {
    Length(s[0]) >= 3 ==> Allowed(s[0], s[2])
  }

  /** Byte `i` behind the front, or the terminating NUL. */
  function ByteAt(s: string, i: nat): nat {
    if i < |s| then s[i] as int else 0
  }

  lemma TailEnds(s: string, v: nat, min: nat)
    ensures Utf8Tail(s, v, 0, min) <==> v >= min && !(0xd800 <= v <= 0xdfff) && v <= 0x10ffff && Utf8Valid(s)
  {
  }

  lemma TailSteps(s: string, v: nat, nb: nat, min: nat)
    requires nb > 0
    ensures Utf8Tail(s, v, nb, min) <==>
              s != "" && Continues(s[0]) && Utf8Tail(s[1..], v * 64 + ByteAt(s, 1) % 64, nb - 1, min)
  {
  }

  lemma TwoBytes(s: string)
    requires s != "" && 0xc0 as char <= s[0] < 0xe0 as char
    ensures Utf8Valid(s) <==> s[0] >= 0xc2 as char && |s| >= 2 && Continues(s[1]) && Utf8Valid(s[2..])
  {
    var b := s[0] as int;
    TailSteps(s[1..], b % 0x20, 1, 0x80);
    if |s| >= 2 {
      assert s[1..][1..] == s[2..];
      TailEnds(s[2..], b % 0x20 * 64 + ByteAt(s[1..], 1) % 64, 0x80);
    }
  }

  lemma ThreeBytes(s: string)
    requires s != "" && 0xe0 as char <= s[0] < 0xf0 as char
    ensures Utf8Valid(s) <==>
              |s| >= 3 && Continues(s[1]) && Continues(s[2]) && Allowed(s[0], s[2]) && Utf8Valid(s[3..])
  {
    var v := s[0] as int % 0x10;
    TailSteps(s[1..], v, 2, 0x800);
    if |s| >= 2 {
      assert s[1..][1..] == s[2..];
      TailSteps(s[2..], v * 64 + ByteAt(s, 2) % 64, 1, 0x800);
    }
    if |s| >= 3 {
      assert s[2..][1..] == s[3..];
      TailEnds(s[3..], (v * 64 + ByteAt(s, 2) % 64) * 64 + ByteAt(s, 3) % 64, 0x800);
    }
  }

  /** The code point of four bytes, `x`, `y` and `z` being the low bits of the bytes added. */
  lemma FourRange(v: nat, x: nat, y: nat, z: nat)
    requires v < 8 && x < 64 && y < 64 && z < 64
    ensures var w := ((v * 64 + x) * 64 + y) * 64 + z;
            (w >= 0x10000 && !(0xd800 <= w <= 0xdfff) && w <= 0x10ffff) <==>
              v <= 4 && (v == 0 ==> x >= 16) && (v == 4 ==> x < 16)
  {
  }

  lemma ContinuesAt(b: char)
    requires Continues(b)
    ensures b as int % 64 >= 16 <==> b >= 0x90 as char
    ensures b as int % 64 >= 32 <==> b >= 0xa0 as char
  {
  }

  lemma FourBytes(s: string)
    requires s != "" && 0xf0 as char <= s[0] < 0xf8 as char
    ensures Utf8Valid(s) <==>
              && s[0] < 0xf5 as char && |s| >= 4 && Continues(s[1]) && Continues(s[2]) && Continues(s[3])
              && Allowed(s[0], s[2]) && Utf8Valid(s[4..])
  {
    var v := s[0] as int % 0x08;
    assert Utf8Valid(s) <==> Utf8Tail(s[1..], v, 3, 0x10000);
    FourTail(s, v);
    if |s| >= 4 && Continues(s[2]) {
      ContinuesAt(s[2]);
      FourRange(v, ByteAt(s, 2) % 64, ByteAt(s, 3) % 64, ByteAt(s, 4) % 64);
    }
  }

  lemma FourTail(s: string, v: nat)
    requires s != ""
    ensures Utf8Tail(s[1..], v, 3, 0x10000) <==>
              && |s| >= 4 && Continues(s[1]) && Continues(s[2]) && Continues(s[3])
              && (var w := ((v * 64 + ByteAt(s, 2) % 64) * 64 + ByteAt(s, 3) % 64) * 64 + ByteAt(s, 4) % 64;
                  w >= 0x10000 && !(0xd800 <= w <= 0xdfff) && w <= 0x10ffff)
              && Utf8Valid(s[4..])
  {
    hide Utf8Tail, Utf8Valid, Continues;
    TailSteps(s[1..], v, 3, 0x10000);
    if |s| >= 2 {
      assert s[1..][1..] == s[2..];
      TailSteps(s[2..], v * 64 + ByteAt(s, 2) % 64, 2, 0x10000);
    }
    if |s| >= 3 {
      assert s[2..][1..] == s[3..];
      TailSteps(s[3..], (v * 64 + ByteAt(s, 2) % 64) * 64 + ByteAt(s, 3) % 64, 1, 0x10000);
    }
    if |s| >= 4 {
      assert s[3..][1..] == s[4..];
      TailEnds(s[4..], ((v * 64 + ByteAt(s, 2) % 64) * 64 + ByteAt(s, 3) % 64) * 64 + ByteAt(s, 4) % 64, 0x10000);
    }
  }

  lemma OneSequence(s: string)
    requires s != ""
    ensures Utf8Valid(s) <==> Starts(s) && Passes(s) && Utf8Valid(s[Length(s[0])..])
  {
    hide Utf8Tail;
    if 0xc0 as char <= s[0] < 0xe0 as char {
      TwoBytes(s);
    } else if 0xe0 as char <= s[0] < 0xf0 as char {
      ThreeBytes(s);
    } else if 0xf0 as char <= s[0] < 0xf8 as char {
      FourBytes(s);
    }
  }

  /** The lead bytes of the whole are the one in front and those of the rest. */
  lemma AllowsSplit(s: string, k: nat)
    requires Starts(s) && 1 <= k <= 2 && Shaped(s[Length(s[0])..])
    ensures EachAllows(s, k) <==> (Length(s[0]) >= 3 ==> Allowed(s[0], s[k])) && EachAllows(s[Length(s[0])..], k)
  {
    hide Shaped, Allowed;
    var n := Length(s[0]);
    var r := s[n..];
    if EachAllows(s, k) {
      forall i: nat | i + k < |r| ensures AllowsAt(r, i, k) { assert AllowsAt(s, n + i, k); }
      assert n >= 3 ==> AllowsAt(s, 0, k);
    }
    if (n >= 3 ==> Allowed(s[0], s[k])) && EachAllows(r, k) {
      forall i: nat | i + k < |s| ensures AllowsAt(s, i, k) {
        if i >= n { assert AllowsAt(r, i - n, k); }
      }
    }
  }

  /** The check accepts exactly the strings of well-shaped sequences whose lead bytes allow their THIRD byte. */
  lemma {:induction false} ChecksThirdByte(s: string)
    ensures Utf8Valid(s) <==> Shaped(s) && EachAllows(s, 2)
    decreases |s|
  {
    hide Utf8Valid, EachAllows;
    if s == "" {
      Nothing();
    } else {
      OneSequence(s);
      if Starts(s) {
        ChecksThirdByte(s[Length(s[0])..]);
        if Shaped(s[Length(s[0])..]) { AllowsSplit(s, 2); }
      }
    }
  }

  lemma Nothing()
    ensures Utf8Valid("") && Shaped("") && forall k: nat :: EachAllows("", k)
  {
  }

  /** A well-formed string is accepted exactly when its lead bytes also allow the third byte of their sequence. */
  lemma AcceptedIff(s: string)
    requires WellFormed(s)
    ensures Utf8Valid(s) <==> EachAllows(s, 2)
  {
    hide Shaped, EachAllows;
    ChecksThirdByte(s);
  }

  /** Without the four lead bytes that restrict what follows, the check is right; in particular on ASCII. */
  lemma RightWithoutEdges(s: string)
    requires forall i :: 0 <= i < |s| ==> s[i] as int !in {0xe0, 0xed, 0xf0, 0xf4}
    ensures Utf8Valid(s) <==> WellFormed(s)
  {
    hide Shaped;
    ChecksThirdByte(s);
  }

  lemma {:induction false} AsciiValid(s: string)
    requires forall i :: 0 <= i < |s| ==> s[i] < 0x80 as char
    ensures Utf8Valid(s)
  {
    if s != "" { AsciiValid(s[1..]); }
  }

  lemma OneShaped(s: string)
    requires Starts(s) && |s| == Length(s[0])
    ensures Shaped(s)
  {
    assert s[Length(s[0])..] == "";
  }

  /** U+0800, well-formed, is refused. */
  lemma RefusesU0800()
    ensures var s := [0xe0 as char, 0xa0 as char, 0x80 as char];
            WellFormed(s) && !Utf8Valid(s)
  {
    var s := [0xe0 as char, 0xa0 as char, 0x80 as char];
    hide Utf8Valid;
    OneShaped(s);
    ChecksThirdByte(s);
    assert !AllowsAt(s, 0, 2);
  }

  /** The overlong form of '/' is accepted, and survives canonicalisation. */
  lemma AcceptsOverlongSlash()
    ensures var s := [0xe0 as char, 0x80 as char, 0xaf as char];
            !WellFormed(s) && Utf8Valid(s) && Canon("/" + s) == Ok("/" + s)
  {
    hide Utf8Valid, Canon;
    var s := [0xe0 as char, 0x80 as char, 0xaf as char];
    var t := "/" + s;
    OneShaped(s);
    ChecksThirdByte(s);
    assert !AllowsAt(s, 0, 1);
    assert Starts(t) && Length(t[0]) == 1 && t[1..] == s;
    ChecksThirdByte(t);
    assert Canonical(t);
    CanonFixed(t);
  }
}
