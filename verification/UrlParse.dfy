/** Parsing and printing of URLs (url.c), and when a printed URL parses back to the same parts. */
module UrlParse {
  import opened Wrappers
  import opened UrlCanon

  /** nni_url: schemes that name a path have only that; all others have a host. */
  datatype Url =
    | Local(scheme: string, path: string)
    | Net(scheme: string, userinfo: Option<string>, host: string, hostname: string, port: string,
          requri: string, path: string, query: Option<string>, fragment: Option<string>)

  /** The outcome of a parse; Overrun is a read past the end of the input. */
  datatype Parsed = Parsed(url: Url) | Refused(error: Error) | Overrun

  /** The first position of `c`, or the length. */
  function IndexOf(s: string, c: char): (i: nat)
    ensures i <= |s| && (i < |s| ==> s[i] == c)
    ensures forall j :: 0 <= j < i ==> s[j] != c
  {
    if s == "" || s[0] == c then 0 else 1 + IndexOf(s[1..], c)
  }

  function Lower(s: string): (r: string)
    ensures |r| == |s|
  {
    seq(|s|, i requires 0 <= i < |s| => ToLower(s[i]))
  }

  predicate IsLocal(scheme: string) {
    scheme == "ipc" || scheme == "unix" || scheme == "abstract" || scheme == "inproc"
  }

  // ---- default ports ----

  const PORTS: seq<(string, string)> :=
    [("git", "9418"), ("gopher", "70"), ("http", "80"), ("https", "443"),
     ("ssh", "22"), ("telnet", "23"), ("ws", "80"), ("wss", "443")]

  /** The scheme is the table entry, or the entry followed by a single "4" or "6". */
  predicate NamesScheme(entry: string, scheme: string) {
    && entry <= scheme
    && (|scheme| == |entry| || (|scheme| == |entry| + 1 && (scheme[|entry|] == '4' || scheme[|entry|] == '6')))
  }

  function PortFrom(table: seq<(string, string)>, scheme: string): string {
    if table == [] then ""
    else if NamesScheme(table[0].0, scheme) then table[0].1
    else PortFrom(table[1..], scheme)
  }

  /** nni_url_default_port */
  function DefaultPort(scheme: string): string {
    PortFrom(PORTS, scheme)
  }

  // ---- parsing ----

  predicate EndsHost(c: char) {
    c == '/' || c == '#' || c == '?'
  }

  datatype Scan = Scan(s: string, len: nat, user: Option<string>) | ScanRefused | ScanOverrun

  /**
   The scan for the end of the host part, at position `len` of `s`. After a user name it restarts at
   position 1 of what follows the '@'.
   */
  function ScanHost(s: string, len: nat, user: Option<string>): Scan
    decreases |s| + 1 - len
  {
    if len > |s| then ScanOverrun
    else if len == |s| || EndsHost(s[len]) then Scan(s, len, user)
    else if s[len] != '@' then ScanHost(s, len + 1, user)
    else if user.Some? then ScanRefused
    else ScanHost(s[len + 1..], 1, Some(s[..len]))
  }

  /** Is the host part a "*" standing for any host? */
  predicate StarHost(s: string, len: nat)
    requires len <= |s|
  {
    (len == 1 && s[0] == '*') || (len > 1 && s[0] == '*' && s[1] == ':')
  }

  /** The host name and port of a host part, or None if it is malformed. */
  function SplitHost(scheme: string, host: string): Option<(string, string)> {
    if host != "" && host[0] == '[' then
      var n := IndexOf(host[1..], ']');
      var after := host[1..][n..];
      if after == "" || (|after| > 1 && after[1] != ':') then None
      else PortOf(scheme, host[1..][..n], after[1..])
    else
      var n := IndexOf(host, ':');
      PortOf(scheme, host[..n], host[n..])
  }

  /** `tail` is empty, or the colon and port. */
  function PortOf(scheme: string, name: string, tail: string): Option<(string, string)> {
    if tail == "" then Some((name, DefaultPort(scheme)))
    else if |tail| == 1 then None
    else Some((name, tail[1..]))
  }

  /** Path, query and fragment of a canonical request URI. */
  function SplitUri(r: string): (string, Option<string>, Option<string>) {
    var n := PathEnd(r);
    var rest := r[n..];
    if rest != "" && rest[0] == '?' then
      var m := IndexOf(rest[1..], '#');
      (r[..n], Some(rest[1..][..m]), Fragment(rest[1..][m..]))
    else (r[..n], None, Fragment(rest))
  }

  function Fragment(rest: string): Option<string> {
    if rest != "" && rest[0] == '#' then Some(rest[1..]) else None
  }

  /** The part of nni_url_parse after the host has been delimited. */
  function ParseNet(scheme: string, user: Option<string>, host: string, rest: string): Parsed {
    var uri := Canon(rest);
    if uri.Err? then Refused(uri.error)
    else
      var (path, query, fragment) := SplitUri(uri.value);
      var h := SplitHost(scheme, host);
      if h.None? then Refused(EINVAL)
      else Parsed(Net(scheme, user, host, h.value.0, h.value.1, uri.value, path, query, fragment))
  }

  /** From the scan result on. */
  function ParseScanned(scheme: string, sc: Scan): Parsed
    requires sc.Scan? ==> sc.len <= |sc.s|
  {
    match sc
    case ScanOverrun => Overrun
    case ScanRefused => Refused(EINVAL)
    case Scan(s, len, user) =>
      var k := if StarHost(s, len) then 1 else 0;
      ParseNet(scheme, user, Lower(s[k..len]), s[len..])
  }

  lemma {:induction false} ScanInBounds(s: string, len: nat, user: Option<string>)
    ensures ScanHost(s, len, user).Scan? ==> ScanHost(s, len, user).len <= |ScanHost(s, len, user).s|
    decreases |s| + 1 - len
  {
    if len > |s| || len == |s| || EndsHost(s[len]) {
    } else if s[len] != '@' {
      ScanInBounds(s, len + 1, user);
    } else if user.None? {
      ScanInBounds(s[len + 1..], 1, Some(s[..len]));
    }
  }

  /** nni_url_parse */
  function Parse(raw: string): Parsed {
    var n := IndexOf(raw, ':');
    if |raw| < n + 3 || raw[n + 1] != '/' || raw[n + 2] != '/' then Refused(EINVAL)
    else
      var scheme := Lower(raw[..n]);
      if IsLocal(scheme) then Parsed(Local(scheme, raw[n + 3..]))
      else
        ScanInBounds(raw[n + 3..], 0, None);
        ParseScanned(scheme, ScanHost(raw[n + 3..], 0, None))
  }

  // ---- printing ----

  /** Schemes the printer writes as a bare path, whatever else the URL holds. */
  predicate PrintsPath(scheme: string) {
    || scheme == "ipc" || scheme == "inproc" || scheme == "unix"
    || scheme == "ipc+abstract" || scheme == "unix+abstract"
  }

  function HostText(hostname: string): string {
    if hostname == "*" then ""
    else if ':' in hostname then "[" + hostname + "]"
    else hostname
  }

  function PortText(scheme: string, port: string): string {
    if port == "" || port == DefaultPort(scheme) then "" else ":" + port
  }

  /** nni_url_asprintf; None where it would read a host name that is not there. */
  function Print(u: Url): Option<string> {
    if PrintsPath(u.scheme) then Some(u.scheme + "://" + u.path)
    else if u.Local? then None
    else Some(u.scheme + "://" + HostText(u.hostname) + PortText(u.scheme, u.port) + u.requri)
  }

  // ---- what a successful parse guarantees ----

  /** A character that would end the host part or start it over. */
  predicate Delimits(c: char) {
    EndsHost(c) || c == '@'
  }

  ghost predicate Clean(s: string, lo: nat, hi: nat) {
    forall j :: lo <= j < hi && j < |s| ==> !Delimits(s[j])
  }

  ghost function Start(user: Option<string>): nat {
    if user.Some? then 1 else 0
  }

  lemma {:induction false} ScanFacts(s: string, len: nat, user: Option<string>)
    requires Clean(s, Start(user), len) && ScanHost(s, len, user).Scan?
    ensures var r := ScanHost(s, len, user);
            && r.len <= |r.s| && (r.len == |r.s| || EndsHost(r.s[r.len]))
            && Clean(r.s, Start(r.user), r.len)
    decreases |s| + 1 - len
  {
    if len == |s| || EndsHost(s[len]) {
    } else if s[len] != '@' {
      ScanFacts(s, len + 1, user);
    } else {
      ScanFacts(s[len + 1..], 1, Some(s[..len]));
    }
  }

  ghost predicate WellParsed(u: Url)
    requires u.Net?
  {
    && ':' !in u.scheme && Lower(u.scheme) == u.scheme && !IsLocal(u.scheme)
    && Lower(u.host) == u.host && !StarHost(u.host, |u.host|)
    && Clean(u.host, Start(u.userinfo), |u.host|)
    && AtBoundary(u.requri) && Canon(u.requri) == Ok(u.requri)
    && SplitHost(u.scheme, u.host) == Some((u.hostname, u.port))
    && SplitUri(u.requri) == (u.path, u.query, u.fragment)
  }

  lemma LowerFacts(s: string)
    ensures Lower(Lower(s)) == Lower(s)
    ensures forall j :: 0 <= j < |s| ==> Delimits(Lower(s)[j]) == Delimits(s[j])
    ensures forall j :: 0 <= j < |s| ==> (Lower(s)[j] == ':' <==> s[j] == ':') && (Lower(s)[j] == '*' <==> s[j] == '*')
  {
  }

  lemma HostFacts(s: string, len: nat, user: Option<string>)
    requires len <= |s| && Clean(s, Start(user), len)
    ensures var k := if StarHost(s, len) then 1 else 0;
            var host := Lower(s[k..len]);
            && Lower(host) == host && !StarHost(host, |host|) && Clean(host, Start(user), |host|)
  {
    hide Lower;
    var k := if StarHost(s, len) then 1 else 0;
    LowerFacts(s[k..len]);
    forall j | 0 <= j < len - k ensures s[k..len][j] == s[j + k] {}
  }

  lemma ParsedWell(raw: string)
    requires Parse(raw).Parsed? && Parse(raw).url.Net?
    ensures WellParsed(Parse(raw).url)
  {
    hide Lower, Canon, SplitHost, SplitUri, StarHost, Clean, IsLocal;
    var n := IndexOf(raw, ':');
    var scheme := Lower(raw[..n]);
    SchemeFacts(raw, n);
    var sc := ScanHost(raw[n + 3..], 0, None);
    CleanNothing(raw[n + 3..]);
    ScanFacts(raw[n + 3..], 0, None);
    HostFacts(sc.s, sc.len, sc.user);
    RestBoundary(sc.s, sc.len);
    CanonStart(sc.s[sc.len..]);
    CanonIdempotent(sc.s[sc.len..]);
  }

  lemma CleanNothing(s: string)
    ensures Clean(s, Start(None), 0)
  {
  }

  lemma RestBoundary(s: string, len: nat)
    requires len <= |s| && (len == |s| || EndsHost(s[len]))
    ensures AtBoundary(s[len..])
  {
  }

  lemma SchemeFacts(raw: string, n: nat)
    requires n <= |raw| && forall j :: 0 <= j < n ==> raw[j] != ':'
    ensures ':' !in Lower(raw[..n]) && Lower(Lower(raw[..n])) == Lower(raw[..n])
  {
    hide Lower;
    LowerFacts(raw[..n]);
  }

  // ---- printing and parsing again ----

  lemma {:induction false} IndexOfAt(a: string, c: char, b: string)
    requires c !in a && (b == "" || b[0] == c)
    ensures IndexOf(a + b, c) == |a|
  {
    if a == "" {
      assert a + b == b;
    } else {
      assert (a + b)[1..] == a[1..] + b;
      IndexOfAt(a[1..], c, b);
    }
  }

  lemma {:induction false} ScanClean(a: string, b: string, len: nat)
    requires len <= |a| && Clean(a, 0, |a|) && (b == "" || EndsHost(b[0]))
    ensures ScanHost(a + b, len, None) == Scan(a + b, |a|, None)
    decreases |a| - len
  {
    if len < |a| {
      assert (a + b)[len] == a[len];
      ScanClean(a, b, len + 1);
    }
  }

  /** Parsing scheme://host rest, when the host part is in printable form. */
  lemma ParseText(scheme: string, host: string, rest: string)
    requires ':' !in scheme && Lower(scheme) == scheme && !IsLocal(scheme)
    requires Clean(host, 0, |host|) && Lower(host) == host && !StarHost(host, |host|)
    requires rest == "" || EndsHost(rest[0])
    ensures Parse(scheme + "://" + host + rest) == ParseNet(scheme, None, host, rest)
  {
    hide Lower, IsLocal, Clean, ParseNet, ScanHost;
    var s := host + rest;
    var raw := scheme + "://" + host + rest;
    assert raw == scheme + ("://" + s);
    IndexOfAt(scheme, ':', "://" + s);
    assert raw[..|scheme|] == scheme && raw[|scheme| + 3..] == s;
    ScanClean(host, rest, 0);
    assert s[..|host|] == host && s[|host|..] == rest;
    assert !StarHost(s, |host|);
  }

  /** The URL prints as more than a path, and its host name survives printing. */
  ghost predicate Stable(u: Url)
    requires u.Net?
  {
    if PrintsPath(u.scheme) then
      u.hostname == "" && u.port == DefaultPort(u.scheme) && u.query.None? && u.fragment.None?
    else
      || ':' in u.hostname || u.hostname == ""
      || (u.hostname[0] != '[' && !Delimits(u.hostname[0]) && u.hostname != "*")
  }

  /** The same scheme, host name, effective port, path, query and fragment. */
  ghost predicate SameParts(u: Url, v: Url) {
    && u.Net? && v.Net? && u.scheme == v.scheme && u.hostname == v.hostname && u.port == v.port
    && u.path == v.path && u.query == v.query && u.fragment == v.fragment
  }

  /** How the host part was put together. */
  ghost predicate Assembled(u: Url, bracketed: bool, tail: string)
    requires u.Net?
  {
    && u.host == (if bracketed then "[" + u.hostname + "]" + tail else u.hostname + tail)
    && (bracketed ==> ']' !in u.hostname)
    && (!bracketed ==> ':' !in u.hostname && (u.host != "" ==> u.host[0] != '['))
    && (if tail == "" then u.port == DefaultPort(u.scheme) else u.port != "" && tail == ":" + u.port)
  }

  lemma PortParts(scheme: string, name: string, tail: string)
    requires PortOf(scheme, name, tail).Some? && (tail == "" || tail[0] == ':')
    ensures var r := PortOf(scheme, name, tail).value;
            && r.0 == name
            && if tail == "" then r.1 == DefaultPort(scheme) else r.1 != "" && tail == ":" + r.1
  {
  }

  lemma BracketedParts(u: Url) returns (tail: string)
    requires u.Net? && SplitHost(u.scheme, u.host) == Some((u.hostname, u.port)) && u.host != "" && u.host[0] == '['
    ensures Assembled(u, true, tail)
  {
    hide DefaultPort, PortOf;
    var inner := u.host[1..];
    var n := IndexOf(inner, ']');
    var after := inner[n..];
    tail := after[1..];
    PortParts(u.scheme, inner[..n], tail);
    assert u.host == "[" + inner[..n] + "]" + tail;
  }

  lemma BareParts(u: Url) returns (tail: string)
    requires u.Net? && SplitHost(u.scheme, u.host) == Some((u.hostname, u.port)) && (u.host == "" || u.host[0] != '[')
    ensures Assembled(u, false, tail)
  {
    hide DefaultPort, PortOf;
    var n := IndexOf(u.host, ':');
    tail := u.host[n..];
    PortParts(u.scheme, u.host[..n], tail);
    assert u.host == u.host[..n] + tail;
  }

  lemma HostParts(u: Url) returns (bracketed: bool, tail: string)
    requires u.Net? && SplitHost(u.scheme, u.host) == Some((u.hostname, u.port))
    ensures Assembled(u, bracketed, tail)
  {
    hide SplitHost, Assembled;
    bracketed := u.host != "" && u.host[0] == '[';
    if bracketed {
      tail := BracketedParts(u);
    } else {
      tail := BareParts(u);
    }
  }

  /** Nothing in the string delimits a host part or would be lower-cased. */
  ghost predicate Plain(s: string) {
    forall j :: 0 <= j < |s| ==> !Delimits(s[j]) && ToLower(s[j]) == s[j]
  }

  lemma PlainIsLower(s: string)
    requires Plain(s)
    ensures Lower(s) == s && Clean(s, 0, |s|)
  {
  }

  lemma HostCharPlain(u: Url, j: nat)
    requires u.Net? && WellParsed(u) && j < |u.host| && (j > 0 || u.userinfo.None? || !Delimits(u.host[0]))
    ensures !Delimits(u.host[j]) && ToLower(u.host[j]) == u.host[j]
  {
    hide SplitHost, SplitUri, Canon, IsLocal, StarHost, DefaultPort, AtBoundary, ToLower;
    assert Lower(u.host)[j] == ToLower(u.host[j]);
  }

  lemma PartsPlain(u: Url, bracketed: bool, tail: string)
    requires u.Net? && WellParsed(u) && Assembled(u, bracketed, tail)
    ensures bracketed || u.hostname == "" || !Delimits(u.hostname[0]) ==> Plain(u.hostname)
    ensures Plain(tail)
    ensures u.userinfo.None? && u.hostname != "" ==> !Delimits(u.hostname[0])
  {
    hide WellParsed, DefaultPort;
    var h := u.hostname;
    forall j | 0 <= j < |h| && (j > 0 || bracketed || !Delimits(h[0]) || u.userinfo.None?)
      ensures !Delimits(h[j]) && ToLower(h[j]) == h[j]
    {
      var k := if bracketed then j + 1 else j;
      assert u.host[k] == h[j];
      HostCharPlain(u, k);
    }
    forall j | 0 <= j < |tail| ensures !Delimits(tail[j]) && ToLower(tail[j]) == tail[j] {
      var k := if bracketed then |h| + 2 + j else |h| + j;
      assert u.host[k] == tail[j];
      if k == 0 { assert tail[0] == ':'; } else { HostCharPlain(u, k); }
    }
  }

  lemma PortTextOf(u: Url, bracketed: bool, tail: string)
    requires u.Net? && Assembled(u, bracketed, tail) && Plain(tail)
    ensures var t := PortText(u.scheme, u.port);
            && Plain(t) && (t == "" ==> u.port == DefaultPort(u.scheme))
            && (t != "" ==> t == ":" + u.port && u.port != "")
  {
  }

  /** A stable host name prints as a host part that splits into the same name and port. */
  lemma PrintedHost(u: Url)
    requires u.Net? && WellParsed(u) && Stable(u) && !PrintsPath(u.scheme)
    ensures var h := HostText(u.hostname) + PortText(u.scheme, u.port);
            && Plain(h) && !StarHost(h, |h|) && SplitHost(u.scheme, h) == Some((u.hostname, u.port))
  {
    hide WellParsed, DefaultPort;
    WellSplit(u);
    var bracketed, tail := HostParts(u);
    PartsPlain(u, bracketed, tail);
    PortTextOf(u, bracketed, tail);
    var t := PortText(u.scheme, u.port);
    if ':' in u.hostname {
      PrintedBracketed(u.scheme, u.hostname, t, u.port);
    } else {
      PrintedBare(u.scheme, u.hostname, t, u.port);
    }
  }

  lemma WellSplit(u: Url)
    requires u.Net? && WellParsed(u)
    ensures SplitHost(u.scheme, u.host) == Some((u.hostname, u.port))
  {
  }

  ghost predicate TextOf(scheme: string, t: string, port: string) {
    if t == "" then port == DefaultPort(scheme) else t == ":" + port && port != ""
  }

  lemma PrintedBracketed(scheme: string, name: string, t: string, port: string)
    requires ']' !in name && Plain(name) && Plain(t) && TextOf(scheme, t, port)
    ensures var h := "[" + name + "]" + t;
            Plain(h) && !StarHost(h, |h|) && SplitHost(scheme, h) == Some((name, port))
  {
    hide DefaultPort, Plain;
    var h := "[" + name + "]" + t;
    assert h[1..] == name + ("]" + t);
    IndexOfAt(name, ']', "]" + t);
    assert h[1..][..|name|] == name && h[1..][|name|..] == "]" + t && ("]" + t)[1..] == t;
    assert t != "" ==> t[1..] == port;
    PlainBrackets();
    PlainConcat("[", name);
    PlainConcat("[" + name, "]");
    PlainConcat("[" + name + "]", t);
  }

  lemma PlainConcat(a: string, b: string)
    requires Plain(a) && Plain(b)
    ensures Plain(a + b)
  {
  }

  lemma PlainBrackets()
    ensures Plain("[") && Plain("]")
  {
  }

  lemma PrintedBare(scheme: string, name: string, t: string, port: string)
    requires ':' !in name && name != "*" && (name != "" ==> name[0] != '[')
    requires Plain(name) && Plain(t) && TextOf(scheme, t, port)
    ensures var h := name + t;
            Plain(h) && !StarHost(h, |h|) && SplitHost(scheme, h) == Some((name, port))
  {
    hide DefaultPort, Plain;
    var h := name + t;
    IndexOfAt(name, ':', t);
    assert h[..|name|] == name && h[|name|..] == t;
    assert t != "" ==> t[1..] == port;
    PlainConcat(name, t);
    if |h| >= 1 && h[0] == '*' {
      assert name != "" && name[0] == '*';
      assert |name| >= 2;
      assert h[1] == name[1];
    }
  }

  /** Parsing what a stable URL prints to gives back the same parts. */
  lemma StableRoundTrip(u: Url)
    requires u.Net? && WellParsed(u) && Stable(u) && !PrintsPath(u.scheme)
    ensures var r := Parse(Print(u).value);
            r.Parsed? && SameParts(r.url, u) && r.url.requri == u.requri
  {
    hide Canon, SplitHost, SplitUri, StarHost, Lower, IsLocal, DefaultPort, PrintsPath, Clean, Plain, AtBoundary,
      Parse, Print, HostText, PortText, Stable;
    PrintedHost(u);
    var h := HostText(u.hostname) + PortText(u.scheme, u.port);
    PlainIsLower(h);
    BoundaryEndsHost(u.requri);
    ParseText(u.scheme, h, u.requri);
    PrintedParts(u);
  }

  lemma PrintedParts(u: Url)
    requires u.Net? && !PrintsPath(u.scheme)
    ensures Print(u) == Some(u.scheme + "://" + (HostText(u.hostname) + PortText(u.scheme, u.port)) + u.requri)
  {
    hide HostText, PortText, PrintsPath;
    var a, b := HostText(u.hostname), PortText(u.scheme, u.port);
    assert u.scheme + "://" + a + b + u.requri == u.scheme + "://" + (a + b) + u.requri;
  }

  lemma BoundaryEndsHost(r: string)
    requires AtBoundary(r)
    ensures r == "" || EndsHost(r[0])
  {
  }

  // ---- and only a stable one does ----

  /** The printed URL parses, and to the same parts. */
  ghost predicate RoundTrips(u: Url)
    requires u.Net?
  {
    var r := Parse(Print(u).value);
    r.Parsed? && SameParts(r.url, u)
  }

  lemma PrintedText(u: Url)
    requires u.Net? && !PrintsPath(u.scheme)
    ensures Print(u) == Some(u.scheme + "://" + (HostText(u.hostname) + PortText(u.scheme, u.port) + u.requri))
  {
    assert u.scheme + "://" + HostText(u.hostname) + PortText(u.scheme, u.port) + u.requri
        == u.scheme + "://" + (HostText(u.hostname) + PortText(u.scheme, u.port) + u.requri);
  }

  /** If the host part parses as `host`, the host name comes from splitting it. */
  lemma NetName(scheme: string, host: string, rest: string, name: string)
    requires SplitHost(scheme, host).Some? ==> SplitHost(scheme, host).value.0 != name
    ensures var r := ParseNet(scheme, None, host, rest);
            r.Parsed? ==> r.url.Net? && r.url.hostname != name
  {
    hide Canon, SplitUri, SplitHost;
  }

  lemma EmptyHost(scheme: string)
    ensures SplitHost(scheme, "") == Some(("", DefaultPort(scheme)))
  {
  }

  lemma PrintedStar(u: Url)
    requires u.Net? && !PrintsPath(u.scheme) && u.hostname == "*"
    ensures Print(u) == Some(u.scheme + "://" + PortText(u.scheme, u.port) + u.requri)
  {
    hide PortText, DefaultPort, PrintsPath, Print;
    PrintedText(u);
    var t := PortText(u.scheme, u.port);
    assert u.scheme + "://" + ("" + t + u.requri) == u.scheme + "://" + t + u.requri;
  }

  lemma StarFails(u: Url)
    requires u.Net? && WellParsed(u) && !PrintsPath(u.scheme) && u.hostname == "*"
    ensures !RoundTrips(u)
  {
    hide DefaultPort, Canon, SplitUri, Parse, ParseNet, PrintsPath, Plain, Clean, Lower, IsLocal, Print;
    var bracketed, tail := HostParts(u);
    PartsPlain(u, bracketed, tail);
    PortTextOf(u, bracketed, tail);
    var t := PortText(u.scheme, u.port);
    PlainIsLower(t);
    BoundaryEndsHost(u.requri);
    ParseText(u.scheme, t, u.requri);
    PrintedStar(u);
    TailSplits(u.scheme, t);
    NetName(u.scheme, t, u.requri, "*");
  }

  lemma TailSplits(scheme: string, t: string)
    requires t == "" || t[0] == ':'
    ensures SplitHost(scheme, t).Some? ==> SplitHost(scheme, t).value.0 == ""
  {
    assert t[..0] == "";
  }

  lemma DelimiterFails(u: Url)
    requires u.Net? && WellParsed(u) && !PrintsPath(u.scheme)
    requires u.hostname != "" && ':' !in u.hostname && EndsHost(u.hostname[0])
    ensures !RoundTrips(u)
  {
    hide DefaultPort, Canon, SplitUri, Parse, ParseNet, PrintsPath, Clean, Lower, IsLocal, SplitHost;
    var rest := HostText(u.hostname) + PortText(u.scheme, u.port) + u.requri;
    assert rest[0] == u.hostname[0];
    LowerFacts("");
    CleanNothing("");
    EmptyLower();
    ParseText(u.scheme, "", rest);
    PrintedText(u);
    assert u.scheme + "://" + rest == u.scheme + "://" + "" + rest;
    EmptyHost(u.scheme);
    NetName(u.scheme, "", rest, u.hostname);
  }

  lemma EmptyLower()
    ensures Lower("") == "" && Clean("", 0, 0)
  {
  }

  lemma BracketSplits(scheme: string, name: string, t: string)
    requires name != "" && name[0] == '[' && ']' !in name && ':' !in name && (t == "" || t[0] == ':')
    ensures SplitHost(scheme, name + t).Some? ==> SplitHost(scheme, name + t).value.0 != name
  {
    hide DefaultPort;
    var h := name + t;
    var inner := h[1..];
    var n := IndexOf(inner, ']');
    if n < |inner| {
      assert forall j :: 0 <= j < |name| - 1 ==> inner[j] == name[j + 1];
      assert inner[|name| - 1] == ':';
      assert inner[..n][|name| - 1] == ':';
      assert ':' in inner[..n];
    }
  }

  lemma BracketFails(u: Url)
    requires u.Net? && WellParsed(u) && !PrintsPath(u.scheme)
    requires u.hostname != "" && ':' !in u.hostname && u.hostname[0] == '['
    ensures !RoundTrips(u)
  {
    hide DefaultPort, Canon, SplitUri, Parse, ParseNet, PrintsPath, Plain, Clean, Lower, IsLocal;
    var bracketed, tail := HostParts(u);
    PartsPlain(u, bracketed, tail);
    PortTextOf(u, bracketed, tail);
    var t := PortText(u.scheme, u.port);
    var h := u.hostname + t;
    PlainConcat(u.hostname, t);
    PlainIsLower(h);
    BoundaryEndsHost(u.requri);
    ParseText(u.scheme, h, u.requri);
    PrintedText(u);
    assert u.scheme + "://" + (h + u.requri) == u.scheme + "://" + h + u.requri;
    BracketSplits(u.scheme, u.hostname, t);
    NetName(u.scheme, h, u.requri, u.hostname);
  }

  /** With a user name already taken, the scan stays in the string it was given. */
  lemma {:induction false} ScanStays(s: string, len: nat, user: Option<string>)
    requires user.Some? && ScanHost(s, len, user).Scan?
    ensures ScanHost(s, len, user).s == s && ScanHost(s, len, user).user == user
    decreases |s| + 1 - len
  {
    if len < |s| && !EndsHost(s[len]) { ScanStays(s, len + 1, user); }
  }

  lemma ParseAt(scheme: string, s: string)
    requires ':' !in scheme && Lower(scheme) == scheme && !IsLocal(scheme)
    ensures var sc := ScanHost(s, 1, Some(""));
            (sc.Scan? ==> sc.len <= |sc.s|) && Parse(scheme + "://@" + s) == ParseScanned(scheme, sc)
  {
    hide Lower, IsLocal, ParseScanned;
    var raw := scheme + "://@" + s;
    assert raw == scheme + ("://@" + s);
    IndexOfAt(scheme, ':', "://@" + s);
    assert raw[..|scheme|] == scheme && raw[|scheme| + 3..] == "@" + s;
    assert ("@" + s)[1..] == s && ("@" + s)[..0] == "";
    assert ScanHost("@" + s, 0, None) == ScanHost(s, 1, Some(""));
    ScanInBounds(s, 1, Some(""));
  }

  /** A host part after an empty user name starts with '@' only if the text does. */
  lemma AtHost(scheme: string, s: string)
    requires ':' !in scheme && Lower(scheme) == scheme && !IsLocal(scheme)
    requires Parse(scheme + "://@" + s).Parsed? && (s == "" || s[0] != '@')
    ensures var u := Parse(scheme + "://@" + s).url;
            u.Net? && (u.host == "" || u.host[0] != '@')
  {
    hide Lower, IsLocal, Canon, SplitHost, SplitUri, Parse, ScanHost;
    ParseAt(scheme, s);
    var sc := ScanHost(s, 1, Some(""));
    ScanStays(s, 1, Some(""));
    ScanFacts(s, 1, Some(""));
    var k := if StarHost(s, sc.len) then 1 else 0;
    LowerAt(s[k..sc.len]);
  }

  lemma LowerAt(s: string)
    ensures forall j :: 0 <= j < |s| ==> (Lower(s)[j] == '@' <==> s[j] == '@')
  {
  }

  lemma AtFront(name: string, t: string, uri: string)
    requires name != ""
    ensures var s := name[1..] + t + uri;
            s != "" ==> s[0] == (if |name| > 1 then name[1] else if t != "" then t[0] else uri[0])
  {
  }

  /** The printed text, when the host name starts with '@'. */
  lemma PrintedAt(u: Url)
    requires u.Net? && !PrintsPath(u.scheme) && u.hostname != "" && ':' !in u.hostname && u.hostname[0] == '@'
    ensures Print(u) == Some(u.scheme + "://@" + (u.hostname[1..] + PortText(u.scheme, u.port) + u.requri))
  {
    hide PortText, DefaultPort, PrintsPath, Print;
    PrintedText(u);
    MoveAt(u.scheme, u.hostname, PortText(u.scheme, u.port), u.requri);
  }

  lemma MoveAt(scheme: string, name: string, t: string, uri: string)
    requires name != "" && name[0] == '@'
    ensures scheme + "://" + (name + t + uri) == scheme + "://@" + (name[1..] + t + uri)
  {
    assert name + t + uri == "@" + (name[1..] + t + uri);
    assert "://@" == "://" + "@";
  }

  lemma AtFails(u: Url)
    requires u.Net? && WellParsed(u) && !PrintsPath(u.scheme)
    requires u.hostname != "" && ':' !in u.hostname && u.hostname[0] == '@'
    ensures !RoundTrips(u)
  {
    hide DefaultPort, Canon, SplitUri, Parse, PrintsPath, Lower, IsLocal, SplitHost, Print;
    var bracketed, tail := HostParts(u);
    PartsPlain(u, bracketed, tail);
    PortTextOf(u, bracketed, tail);
    var t := PortText(u.scheme, u.port);
    var s := u.hostname[1..] + t + u.requri;
    assert |u.hostname| > 1 ==> u.host[1] == u.hostname[1];
    AtFront(u.hostname, t, u.requri);
    var text := u.scheme + "://@" + s;
    PrintedAt(u);
    if RoundTrips(u) {
      AtHost(u.scheme, s);
      ParsedWell(text);
      NameAtFront(Parse(text).url);
      assert false;
    }
  }

  lemma NameAtFront(v: Url)
    requires v.Net? && WellParsed(v) && v.hostname != "" && v.hostname[0] == '@'
    ensures v.host != "" && v.host[0] == '@'
  {
    hide DefaultPort, Canon, SplitUri, Lower, IsLocal, SplitHost;
    WellSplit(v);
    var bracketed, tail := HostParts(v);
    PartsPlain(v, bracketed, tail);
  }

  // ---- schemes printed as a path ----

  /** The path of a canonical request URI is canonical, if it passes the UTF-8 check on its own. */
  lemma PathCanon(r: string)
    requires Canonical(r)
    ensures var p := r[..PathEnd(r)];
            PathEnd(p) == |p| && Canon(p) == if Utf8Valid(p) then Ok(p) else Err(EINVAL)
  {
    hide Utf8Valid, Unescape, Collapse, Dots, Canonical, PathEnd, EscapesNormal, NoDoubleSlash, NoDotSegment;
    var p := r[..PathEnd(r)];
    PathAlone(p);
    PathEscapes(r);
    PathSlashes(r);
    PathDots(r);
    Fixed(p);
  }

  lemma PathEscapes(r: string)
    requires Canonical(r)
    ensures EscapesNormal(r[..PathEnd(r)])
  {
    hide PathEnd, NoDoubleSlash, NoDotSegment, Safe, Escaped;
    var p := r[..PathEnd(r)];
    forall i | 0 <= i < |p| && p[i] == '%' ensures NormalEscapeAt(p, i) { assert NormalEscapeAt(r, i); }
  }

  lemma PathSlashes(r: string)
    requires Canonical(r)
    ensures NoDoubleSlash(r[..PathEnd(r)])
  {
    hide PathEnd, EscapesNormal, NoDotSegment;
    var p := r[..PathEnd(r)];
    PathAlone(p);
    forall i | 0 <= i && i + 1 < PathEnd(p) ensures !(p[i] == '/' && p[i + 1] == '/') { NoDoubleAt(r, i); }
  }

  lemma PathDots(r: string)
    requires Canonical(r)
    ensures NoDotSegment(r[..PathEnd(r)])
  {
    hide PathEnd, EscapesNormal, NoDoubleSlash;
    var n := PathEnd(r);
    var p := r[..n];
    PathAlone(p);
    forall i | 0 <= i < PathEnd(p) && p[i] == '/' ensures !IsDot(p[i..]) && !IsDotDot(p[i..]) {
      assert r == p + r[n..] && p == p + "";
      DotLocal(p, r[n..], "", i);
    }
  }

  /** The three passes leave a canonical string alone; the check decides. */
  lemma Fixed(p: string)
    requires EscapesNormal(p) && NoDoubleSlash(p) && NoDotSegment(p)
    ensures Canon(p) == if Utf8Valid(p) then Ok(p) else Err(EINVAL)
  {
    hide Utf8Valid, Unescape, Collapse, Dots, EscapesNormal, NoDoubleSlash, NoDotSegment;
    UnescapeFixed(p);
    CollapseFixed(p);
    DotsFixed("", p);
    assert "" + p == p;
  }

  lemma {:induction false} PathAlone(p: string)
    requires forall i :: 0 <= i < |p| ==> !EndsPath(p[i])
    ensures PathEnd(p) == |p|
  {
    if p != "" { PathAlone(p[1..]); }
  }

  lemma PathReparsed(u: Url)
    requires u.Net? && WellParsed(u) && PrintsPath(u.scheme)
    ensures var r := Parse(Print(u).value);
            && (r.Parsed? <==> Utf8Valid(u.path))
            && (r.Parsed? ==> r.url == Net(u.scheme, None, "", "", DefaultPort(u.scheme), u.path, u.path, None, None))
  {
    hide Canon, Lower, IsLocal, Utf8Valid, DefaultPort, PrintsPath, Canonical, Parse, SplitHost;
    CanonIsCanonical(u.requri);
    PathCanon(u.requri);
    EmptyLower();
    ParseText(u.scheme, "", u.path);
    assert u.scheme + "://" + "" + u.path == u.scheme + "://" + u.path;
    EmptyHost(u.scheme);
    assert u.path[..|u.path|] == u.path && u.path[|u.path|..] == "";
  }

  lemma PathIff(u: Url)
    requires u.Net? && WellParsed(u) && PrintsPath(u.scheme)
    ensures RoundTrips(u) <==> Stable(u)
  {
    hide Lower, IsLocal, Utf8Valid, DefaultPort, PrintsPath, Parse, Print, SplitHost, Canonical;
    PathReparsed(u);
    CanonIsCanonical(u.requri);
    if u.query.None? && u.fragment.None? {
      var n := PathEnd(u.requri);
      assert u.requri[n..] == "";
      assert u.requri[..n] == u.requri;
    }
  }

  // ---- the theorem ----

  /**
   For every URL with a host that parses: its printed form parses back to the same scheme, host name, effective
   port, path, query and fragment exactly when it is stable.
   */
  lemma RoundTripIff(raw: string)
    requires Parse(raw).Parsed? && Parse(raw).url.Net?
    ensures RoundTrips(Parse(raw).url) <==> Stable(Parse(raw).url)
  {
    hide Parse, WellParsed, PrintsPath, RoundTrips;
    var u := Parse(raw).url;
    ParsedWell(raw);
    if PrintsPath(u.scheme) {
      PathIff(u);
    } else if Stable(u) {
      StableRoundTrip(u);
      RoundTripMeans(u);
    } else if u.hostname == "*" {
      StarFails(u);
    } else if u.hostname[0] == '[' {
      BracketFails(u);
    } else if u.hostname[0] == '@' {
      AtFails(u);
    } else {
      DelimiterFails(u);
    }
  }

  lemma RoundTripMeans(u: Url)
    requires u.Net? && Parse(Print(u).value).Parsed? && SameParts(Parse(Print(u).value).url, u)
    ensures RoundTrips(u)
  {
  }

  /** Without user information, a host that is unbracketed or a bracketed address with a colon always comes back. */
  lemma PlainHostsRoundTrip(raw: string)
    requires Parse(raw).Parsed? && Parse(raw).url.Net? && !PrintsPath(Parse(raw).url.scheme)
    requires var u := Parse(raw).url;
             u.userinfo.None? && ((u.host != "" && u.host[0] == '[') ==> ':' in u.hostname)
    ensures RoundTrips(Parse(raw).url)
  {
    hide Parse, RoundTrips, Lower, IsLocal, Canon, SplitUri, DefaultPort, PrintsPath, SplitHost;
    var u := Parse(raw).url;
    ParsedWell(raw);
    var bracketed, tail := HostParts(u);
    PartsPlain(u, bracketed, tail);
    if !bracketed && u.hostname == "*" {
      StarNames(u, tail);
      assert false;
    }
    RoundTripIff(raw);
  }

  lemma StarNames(u: Url, tail: string)
    requires u.Net? && Assembled(u, false, tail) && u.hostname == "*"
    ensures StarHost(u.host, |u.host|)
  {
    hide DefaultPort;
    assert u.host == "*" + tail;
  }

  lemma LocalMeans(raw: string)
    requires Parse(raw).Parsed? && Parse(raw).url.Local?
    ensures var n := IndexOf(raw, ':');
            |raw| >= n + 3 && IsLocal(Lower(raw[..n])) && Parse(raw).url == Local(Lower(raw[..n]), raw[n + 3..])
  {
    hide Lower, Canon, SplitHost, SplitUri, IsLocal;
  }

  /** Schemes that name a path come back unchanged, except the one the printer does not know. */
  lemma LocalRoundTrip(raw: string)
    requires Parse(raw).Parsed? && Parse(raw).url.Local?
    ensures var u := Parse(raw).url;
            if u.scheme == "abstract" then Print(u).None? else Print(u).Some? && Parse(Print(u).value) == Parsed(u)
  {
    hide Lower, ScanHost, ParseScanned;
    LocalMeans(raw);
    var u := Parse(raw).url;
    var n := IndexOf(raw, ':');
    SchemeFacts(raw, n);
    if u.scheme != "abstract" {
      var text := u.scheme + "://" + u.path;
      assert text == u.scheme + ("://" + u.path);
      IndexOfAt(u.scheme, ':', "://" + u.path);
      assert text[..|u.scheme|] == u.scheme && text[|u.scheme| + 3..] == u.path;
    }
  }

  /** The scan reads past the end exactly when the host part begins with a user name that ends the input. */
  lemma {:induction false} OverrunIff(s: string, len: nat)
    requires len <= |s| && Clean(s, 0, len)
    ensures ScanHost(s, len, None).ScanOverrun? <==> |s| > 0 && s[|s| - 1] == '@' && Clean(s, 0, |s| - 1)
    decreases |s| - len
  {
    if len == |s| || EndsHost(s[len]) {
    } else if s[len] != '@' {
      OverrunIff(s, len + 1);
    } else {
      SecondScan(s[len + 1..], 1, Some(s[..len]));
    }
  }

  lemma {:induction false} SecondScan(s: string, len: nat, user: Option<string>)
    requires user.Some?
    ensures ScanHost(s, len, user).ScanOverrun? <==> len > |s|
    decreases |s| + 1 - len
  {
    if len < |s| && !EndsHost(s[len]) && s[len] != '@' { SecondScan(s, len + 1, user); }
  }
}
