/** nni_url_parse and nni_url_default_port (url.c) as written: cursors moved by scanning loops. */
module UrlReader {
  import opened Wrappers
  import opened UrlCanon
  import opened UrlBuffer
  import opened UrlParse

  lemma IndexOfIs(s: string, c: char, i: nat)
    requires i <= |s| && (i < |s| ==> s[i] == c) && forall j :: 0 <= j < i ==> s[j] != c
    ensures IndexOf(s, c) == i
  {
  }

  /** for (len = 0; s[len] != c; len++), stopping at the end of the string. */
  method FindChar(s: string, c: char) returns (len: nat)
    ensures len == IndexOf(s, c)
  {
    len := 0;
    while len < |s| && s[len] != c
      invariant len <= |s| && forall j :: 0 <= j < len ==> s[j] != c
    {
      len := len + 1;
    }
    IndexOfIs(s, c, len);
  }

  /** The copying loops that lower-case the scheme and the host. */
  method LowerCopy(s: string) returns (r: string)
    ensures r == Lower(s)
  {
    r := "";
    for i := 0 to |s|
      invariant r == Lower(s)[..i]
    {
      r := r + [ToLower(s[i])];
    }
  }

  /** The loop over the host part. */
  method FindHost(text: string) returns (r: Scan)
    ensures r == ScanHost(text, 0, None)
    ensures r.Scan? ==> r.len <= |r.s|
  {
    var s, len, user := text, 0, None;
    while true
      invariant ScanHost(text, 0, None) == ScanHost(s, len, user)
      decreases |s| + 1 - len
    {
      if len > |s| { return ScanOverrun; }
      if len == |s| || EndsHost(s[len]) { break; }
      if s[len] == '@' {
        if user.Some? { return ScanRefused; }
        user := Some(s[..len]);
        s := s[len + 1..];
        len := 0;
      }
      len := len + 1;
    }
    r := Scan(s, len, user);
  }

  /** nni_url_default_port: the first table entry that names the scheme. */
  method FindPort(scheme: string) returns (port: string)
    ensures port == DefaultPort(scheme)
  {
    var i := 0;
    while i < |PORTS|
      invariant i <= |PORTS| && PortFrom(PORTS, scheme) == PortFrom(PORTS[i..], scheme)
    {
      var (s, p) := PORTS[i];
      var l := |s|;
      assert PORTS[i..][1..] == PORTS[i + 1..];
      if s <= scheme {
        if |scheme| == l { return p; }
        if (scheme[l] == '4' || scheme[l] == '6') && |scheme| == l + 1 { return p; }
      }
      i := i + 1;
    }
    return "";
  }

  /** The end of the path: the first '?' or '#'. */
  method FindPathEnd(r: string) returns (len: nat)
    ensures len == PathEnd(r)
  {
    len := 0;
    assert r[0..] == r;
    while len < |r| && !EndsPath(r[len])
      invariant len <= |r| && PathEnd(r) == len + PathEnd(r[len..])
    {
      assert r[len..][1..] == r[len + 1..];
      len := len + 1;
    }
  }

  /** Path, query and fragment. */
  method ReadUri(r: string) returns (path: string, query: Option<string>, fragment: Option<string>)
    ensures (path, query, fragment) == SplitUri(r)
  {
    var len := FindPathEnd(r);
    path, query, fragment := r[..len], None, None;
    var s := r[len..];
    if s != "" && s[0] == '?' {
      s := s[1..];
      len := FindChar(s, '#');
      query := Some(s[..len]);
      s := s[len..];
    }
    if s != "" && s[0] == '#' { fragment := Some(s[1..]); }
  }

  /** Host name and port. */
  method ReadHost(scheme: string, host: string) returns (r: Option<(string, string)>)
    ensures r == SplitHost(scheme, host)
  {
    hide DefaultPort;
    var s, name := host, "";
    if s != "" && s[0] == '[' {
      s := s[1..];
      var len := FindChar(s, ']');
      if len == |s| { return None; }
      if len + 1 < |s| && s[len + 1] != ':' { return None; }
      name := s[..len];
      s := s[len..][1..];
    } else {
      var len := FindChar(s, ':');
      name := s[..len];
      s := s[len..];
    }
    if s != "" && s[0] == ':' {
      if |s| == 1 { return None; }
      return Some((name, s[1..]));
    }
    var port := FindPort(scheme);
    return Some((name, port));
  }

  /** nni_url_parse on the C string `raw`. */
  method ParseUrl(raw: string) returns (r: Parsed)
    requires '\0' !in raw
    ensures r == Parse(raw)
  {
    hide Lower, ScanHost, Canon, SplitHost, SplitUri, IndexOf;
    var n := FindChar(raw, ':');
    if |raw| < n + 3 || raw[n + 1] != '/' || raw[n + 2] != '/' { return Refused(EINVAL); }
    var scheme := LowerCopy(raw[..n]);
    if IsLocal(scheme) { return Parsed(Local(scheme, raw[n + 3..])); }
    var sc := FindHost(raw[n + 3..]);
    if sc.ScanOverrun? { return Overrun; }
    if sc.ScanRefused? { return Refused(EINVAL); }
    var s, len := sc.s, sc.len;
    ScanSuffix(raw[n + 3..]);
    assert '\0' !in raw[n + 3..];
    assert '\0' !in s;
    assert forall c :: c in s[len..] ==> c in s;
    var k := if StarHost(s, len) then 1 else 0;
    var host := LowerCopy(s[k..len]);
    var uri := Canonify(s[len..]);
    if uri.Err? { return Refused(uri.error); }
    var path, query, fragment := ReadUri(uri.value);
    var h := ReadHost(scheme, host);
    if h.None? { return Refused(EINVAL); }
    return Parsed(Net(scheme, sc.user, host, h.value.0, h.value.1, uri.value, path, query, fragment));
  }

  lemma ScanSuffix(s: string)
    ensures ScanHost(s, 0, None).Scan? ==> forall c :: c in ScanHost(s, 0, None).s ==> c in s
  {
    ScanSuffixFrom(s, 0, None);
  }

  lemma {:induction false} ScanSuffixFrom(s: string, len: nat, user: Option<string>)
    ensures ScanHost(s, len, user).Scan? ==> forall c :: c in ScanHost(s, len, user).s ==> c in s
    decreases |s| + 1 - len
  {
    if len >= |s| || EndsHost(s[len]) {
    } else if s[len] != '@' {
      ScanSuffixFrom(s, len + 1, user);
    } else if user.None? {
      ScanSuffixFrom(s[len + 1..], 1, Some(s[..len]));
    }
  }
}
