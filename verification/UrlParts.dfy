/** What the parts of a parsed URL are (url.c), said on the text they come from and not on the functions that cut it. */
module UrlParts {
  import opened Wrappers
  import opened UrlCanon
  import opened UrlParse

  ghost function Mark(mark: string, part: Option<string>): string {
    if part.Some? then mark + part.value else ""
  }

  /** A request URI is its path, then "?" and the query, then "#" and the fragment. */
  ghost predicate Divided(uri: string, path: string, query: Option<string>, fragment: Option<string>) {
    && uri == path + Mark("?", query) + Mark("#", fragment)
    && '?' !in path && '#' !in path && (query.Some? ==> '#' !in query.value)
  }

  /** There is one way to divide a request URI. */
  lemma DividedOnce(uri: string, p: string, q: Option<string>, f: Option<string>,
                    p': string, q': Option<string>, f': Option<string>)
    requires Divided(uri, p, q, f) && Divided(uri, p', q', f')
    ensures p == p' && q == q' && f == f'
  {
    hide Mark;
    var a, b := Mark("?", q) + Mark("#", f), Mark("?", q') + Mark("#", f');
    assert uri == p + a && uri == p' + b;
    MarksFirst(q, f);
    MarksFirst(q', f');
    FirstMark(p, a, p', b, {'?', '#'});
    SameQuery(q, f, q', f');
    SameFragment(f, f');
  }

  lemma SameQuery(q: Option<string>, f: Option<string>, q': Option<string>, f': Option<string>)
    requires Mark("?", q) + Mark("#", f) == Mark("?", q') + Mark("#", f')
    requires (q.Some? ==> '#' !in q.value) && (q'.Some? ==> '#' !in q'.value)
    ensures q == q' && Mark("#", f) == Mark("#", f')
  {
    hide Mark;
    MarksFirst(q, f);
    MarksFirst(q', f');
    if q.Some? && q'.Some? {
      MarksFirst(None, f);
      MarksFirst(None, f');
      FirstMark(q.value, Mark("#", f), q'.value, Mark("#", f'), {'#'});
    }
  }

  lemma MarksFirst(q: Option<string>, f: Option<string>)
    ensures var a := Mark("?", q) + Mark("#", f);
            && (q.Some? ==> a != "" && a[0] == '?' && a[1..] == q.value + Mark("#", f))
            && (q.None? ==> a == Mark("#", f) && (f.Some? ==> a != "" && a[0] == '#') && (f.None? ==> a == ""))
  {
  }

  lemma SameFragment(f: Option<string>, f': Option<string>)
    ensures Mark("#", f) == Mark("#", f') ==> f == f'
  {
    if f.Some? { assert Mark("#", f)[1..] == f.value; }
    if f'.Some? { assert Mark("#", f')[1..] == f'.value; }
  }

  /** Two ways to cut a string where a mark first stands are one. */
  lemma FirstMark(p: string, a: string, p': string, b: string, marks: set<char>)
    requires p + a == p' + b && (a == "" || a[0] in marks) && (b == "" || b[0] in marks)
    requires forall c :: c in marks ==> c !in p && c !in p'
    ensures p == p' && a == b
  {
    if |p| < |p'| {
      InBoth(p, a, p', b);
      assert false;
    } else if |p'| < |p| {
      InBoth(p', b, p, a);
      assert false;
    }
    var s := p + a;
    assert p == s[..|p|] && p' == s[..|p|] && a == s[|p|..] && b == s[|p|..];
  }

  lemma InBoth(p: string, a: string, p': string, b: string)
    requires p + a == p' + b && |p| < |p'|
    ensures a != "" && a[0] in p'
  {
    assert (p + a)[|p|] == a[0] && (p' + b)[|p|] == p'[|p|];
  }

  lemma SplitDivides(r: string)
    ensures var (p, q, f) := SplitUri(r);
            Divided(r, p, q, f)
  {
    hide PathEnd, Divided, Mark, Fragment;
    var n := PathEnd(r);
    var rest := r[n..];
    if rest != "" && rest[0] == '?' {
      WithQuery(r, n);
    } else {
      WithoutQuery(r, n);
    }
  }

  lemma WithQuery(r: string, n: nat)
    requires n < |r| && r[n] == '?' && forall i :: 0 <= i < n ==> !EndsPath(r[i])
    ensures var m := IndexOf(r[n..][1..], '#');
            Divided(r, r[..n], Some(r[n..][1..][..m]), Fragment(r[n..][1..][m..]))
  {
    hide IndexOf, Fragment;
    var t := r[n..][1..];
    var m := IndexOf(t, '#');
    HashFirst(t[m..]);
    Thirds(r, n, t[..m], t[m..]);
  }

  lemma Thirds(r: string, n: nat, q: string, h: string)
    requires n < |r| && r[n] == '?' && q + h == r[n + 1..]
    ensures r == r[..n] + ("?" + q) + h
  {
    assert r == r[..n] + ("?" + r[n + 1..]);
  }

  lemma WithoutQuery(r: string, n: nat)
    requires n <= |r| && (n < |r| ==> r[n] == '#') && forall i :: 0 <= i < n ==> !EndsPath(r[i])
    ensures Divided(r, r[..n], None, Fragment(r[n..]))
  {
    hide Fragment;
    HashFirst(r[n..]);
    assert r == r[..n] + "" + r[n..];
  }

  lemma HashFirst(h: string)
    requires h == "" || h[0] == '#'
    ensures h == Mark("#", Fragment(h))
  {
    if h != "" { assert h == "#" + h[1..]; }
  }

  /** For every URL with a host that parses: path, query and fragment are what the request URI is made of. */
  lemma UriParts(raw: string)
    requires Parse(raw).Parsed? && Parse(raw).url.Net?
    ensures var u := Parse(raw).url;
            Divided(u.requri, u.path, u.query, u.fragment)
  {
    hide Parse, SplitUri, SplitHost, Canon, Lower;
    ParsedWell(raw);
    SplitDivides(Parse(raw).url.requri);
  }

  /** The host part is the host name, in brackets if it was, then ":" and the port unless that is the default one. */
  lemma HostPart(raw: string) returns (bracketed: bool, given: bool)
    requires Parse(raw).Parsed? && Parse(raw).url.Net?
    ensures var u := Parse(raw).url;
            && u.host == (if bracketed then "[" + u.hostname + "]" else u.hostname)
                         + (if given then ":" + u.port else "")
            && (bracketed ==> ']' !in u.hostname) && (!bracketed ==> ':' !in u.hostname)
            && (given ==> u.port != "") && (!given ==> u.port == DefaultPort(u.scheme))
  {
    hide Parse, SplitUri, SplitHost, Canon, Lower, DefaultPort;
    ParsedWell(raw);
    var u := Parse(raw).url;
    var tail;
    bracketed, tail := HostParts(u);
    given := tail != "";
    assert u.hostname + "" == u.hostname && "[" + u.hostname + "]" + "" == "[" + u.hostname + "]";
  }

  /** `low` is `text` with its upper-case ASCII letters made lower-case. */
  ghost predicate Lowered(text: string, low: string) {
    && |text| == |low|
    && forall i :: 0 <= i < |text| ==>
         low[i] as int == text[i] as int + if 0x41 <= text[i] as int <= 0x5a then 0x20 else 0
  }

  lemma LowerIs(s: string)
    ensures Lowered(s, Lower(s))
  {
  }

  lemma {:induction false} ScanTakes(s: string, len: nat, user: Option<string>)
    requires ScanHost(s, len, user).Scan? && Clean(s, Start(user), len)
    ensures var r := ScanHost(s, len, user);
            if r.user == user then r.s == s else r.user.Some? && user.None? && s == r.user.value + "@" + r.s
    ensures var r := ScanHost(s, len, user);
            user.None? && r.user.Some? ==> '@' !in r.user.value
    decreases |s| + 1 - len
  {
    if len == |s| || EndsHost(s[len]) {
    } else if s[len] != '@' {
      ScanTakes(s, len + 1, user);
    } else {
      ScanStays(s[len + 1..], 1, Some(s[..len]));
      assert s == s[..len] + "@" + s[len + 1..];
    }
  }

  /**
   Every URL with a host that parses is scheme://[user@]host rest: scheme and host in lower case (the host without a
   star that stands for any), the rest canonicalised.
   */
  lemma Reassembled(raw: string) returns (scheme: string, host: string, rest: string)
    requires Parse(raw).Parsed? && Parse(raw).url.Net?
    ensures var u := Parse(raw).url;
            && raw == scheme + "://" + (if u.userinfo.Some? then u.userinfo.value + "@" else "") + host + rest
            && ':' !in scheme && Lowered(scheme, u.scheme)
            && Lowered(if StarHost(host, |host|) then host[1..] else host, u.host)
            && (rest == "" || EndsHost(rest[0])) && Canon(rest) == Ok(u.requri)
            && (u.userinfo.Some? ==> '@' !in u.userinfo.value)
  {
    hide Parse, ParseNet, Lower, Canon, SplitHost, SplitUri, ScanHost, Clean, Lowered, StarHost, EndsHost;
    var n := IndexOf(raw, ':');
    scheme := raw[..n];
    LowerIs(scheme);
    Stages(raw);
    var s := raw[n + 3..];
    var sc := ScanHost(s, 0, None);
    CleanNothing(s);
    ScanTakes(s, 0, None);
    ScanFacts(s, 0, None);
    host, rest := sc.s[..sc.len], sc.s[sc.len..];
    StarAlone(sc.s, sc.len);
    StarFirst(host);
    LowerIs(if StarHost(host, |host|) then host[1..] else host);
    Fields(Lower(scheme), sc.user, Lower(if StarHost(host, |host|) then host[1..] else host), rest);
    Pieces(raw, n, sc.user, host, rest);
  }

  /** The scheme, the scan, and the rest. */
  lemma Stages(raw: string)
    requires Parse(raw).Parsed? && Parse(raw).url.Net?
    ensures var n := IndexOf(raw, ':');
            && n + 3 <= |raw| && raw[n + 1] == '/' && raw[n + 2] == '/'
            && var sc := ScanHost(raw[n + 3..], 0, None);
               && sc.Scan? && sc.len <= |sc.s|
               && Parse(raw) == ParseNet(Lower(raw[..n]), sc.user,
                                         Lower(sc.s[if StarHost(sc.s, sc.len) then 1 else 0..sc.len]), sc.s[sc.len..])
  {
    hide Lower, IsLocal, ScanHost, ParseNet, StarHost;
    ScanInBounds(raw[IndexOf(raw, ':') + 3..], 0, None);
  }

  lemma Fields(scheme: string, user: Option<string>, host: string, rest: string)
    requires ParseNet(scheme, user, host, rest).Parsed?
    ensures var u := ParseNet(scheme, user, host, rest).url;
            u.Net? && u.scheme == scheme && u.userinfo == user && u.host == host && Canon(rest) == Ok(u.requri)
  {
    hide Canon, SplitHost, SplitUri;
  }

  lemma Pieces(raw: string, n: nat, user: Option<string>, host: string, rest: string)
    requires n + 3 <= |raw| && raw[n] == ':' && raw[n + 1] == '/' && raw[n + 2] == '/'
    requires raw[n + 3..] == (if user.Some? then user.value + "@" + (host + rest) else host + rest)
    ensures raw == raw[..n] + "://" + (if user.Some? then user.value + "@" else "") + host + rest
  {
    assert raw == raw[..n] + "://" + raw[n + 3..];
    var a := raw[..n] + "://";
    if user.Some? {
      assert a + (user.value + "@" + (host + rest)) == a + (user.value + "@") + host + rest;
    } else {
      assert a + (host + rest) == a + "" + host + rest;
    }
  }

  lemma StarFirst(host: string)
    ensures StarHost(host, |host|) ==> |host| >= 1
  {
  }

  lemma StarAlone(s: string, len: nat)
    requires len <= |s|
    ensures StarHost(s[..len], len) == StarHost(s, len)
    ensures s[0..len] == s[..len] && (StarHost(s, len) ==> s[1..len] == s[..len][1..])
    ensures s == s[..len] + s[len..]
  {
  }

  lemma {:induction false} PortAt(table: seq<(string, string)>, scheme: string, k: nat)
    requires k < |table| && NamesScheme(table[k].0, scheme)
    requires forall i :: 0 <= i < k ==> !NamesScheme(table[i].0, scheme)
    ensures PortFrom(table, scheme) == table[k].1
  {
    if k > 0 { PortAt(table[1..], scheme, k - 1); }
  }

  lemma {:induction false} NoPort(table: seq<(string, string)>, scheme: string)
    requires forall i :: 0 <= i < |table| ==> !NamesScheme(table[i].0, scheme)
    ensures PortFrom(table, scheme) == ""
  {
    if table != [] { NoPort(table[1..], scheme); }
  }

  /** The default ports; a scheme has a variant for each address family, and an unknown one has no port. */
  lemma WellKnownPorts()
    ensures DefaultPort("http") == "80" && DefaultPort("ws") == "80" && DefaultPort("ws6") == "80"
    ensures DefaultPort("https") == "443" && DefaultPort("wss") == "443" && DefaultPort("ssh") == "22"
    ensures DefaultPort("telnet") == "23" && DefaultPort("gopher") == "70" && DefaultPort("git") == "9418"
    ensures DefaultPort("tcp") == ""
  {
    hide PortFrom, NamesScheme;
    ListedPort("git", 0);
    ListedPort("gopher", 1);
    ListedPort("http", 2);
    ListedPort("https", 3);
    ListedPort("ssh", 4);
    ListedPort("telnet", 5);
    ListedPort("ws", 6);
    ListedPort("ws6", 6);
    ListedPort("wss", 7);
    forall i | 0 <= i < |PORTS| ensures !NamesScheme(PORTS[i].0, "tcp") { Unlike(PORTS[i].0, "tcp"); }
    NoPort(PORTS, "tcp");
  }

  /** The scheme is `name`, or that with a digit for the address family. */
  ghost predicate OfFamily(scheme: string, name: string) {
    scheme == name || scheme == name + "4" || scheme == name + "6"
  }

  lemma FamilyNames(name: string, scheme: string)
    ensures NamesScheme(name, scheme) <==> OfFamily(scheme, name)
  {
    if name <= scheme && |scheme| == |name| + 1 {
      assert scheme == name + [scheme[|name|]];
    }
  }

  /** A scheme has one name in the table. */
  lemma OneName(a: string, b: string, scheme: string)
    requires |a| <= |b| && b != "" && b[|b| - 1] != '4' && b[|b| - 1] != '6'
    ensures NamesScheme(a, scheme) && NamesScheme(b, scheme) ==> a == b
  {
    assert NamesScheme(a, scheme) ==> a == scheme[..|a|];
    assert NamesScheme(b, scheme) ==> b == scheme[..|b|];
  }

  /** For every scheme: the default port is the one listed for its name, and a scheme that is not listed has none. */
  lemma DefaultPorts(scheme: string)
    ensures forall k :: 0 <= k < |PORTS| && OfFamily(scheme, PORTS[k].0) ==> DefaultPort(scheme) == PORTS[k].1
    ensures (forall k :: 0 <= k < |PORTS| ==> !OfFamily(scheme, PORTS[k].0)) ==> DefaultPort(scheme) == ""
  {
    hide PortFrom, NamesScheme, OfFamily;
    forall k | 0 <= k < |PORTS| ensures NamesScheme(PORTS[k].0, scheme) <==> OfFamily(scheme, PORTS[k].0) {
      FamilyNames(PORTS[k].0, scheme);
    }
    forall k | 0 <= k < |PORTS| && OfFamily(scheme, PORTS[k].0) ensures DefaultPort(scheme) == PORTS[k].1 {
      forall i | 0 <= i < k ensures !NamesScheme(PORTS[i].0, scheme) {
        Different(i, k, scheme);
      }
      PortAt(PORTS, scheme, k);
    }
    if forall k :: 0 <= k < |PORTS| ==> !OfFamily(scheme, PORTS[k].0) { NoPort(PORTS, scheme); }
  }

  lemma Different(i: nat, k: nat, scheme: string)
    requires i < k < |PORTS|
    ensures !(NamesScheme(PORTS[i].0, scheme) && NamesScheme(PORTS[k].0, scheme))
  {
    hide NamesScheme;
    var a, b := PORTS[i].0, PORTS[k].0;
    assert a != b;
    if |a| <= |b| { OneName(a, b, scheme); } else { OneName(b, a, scheme); }
  }

  /** Two schemes that differ in the first letter, or in length by more than a family digit. */
  lemma Unlike(entry: string, scheme: string)
    requires entry != "" && scheme != ""
    ensures entry[0] != scheme[0] || |entry| > |scheme| ==> !NamesScheme(entry, scheme)
  {
  }

  lemma ListedPort(scheme: string, k: nat)
    requires k < 8 && scheme != "" && (scheme == PORTS[k].0 || (scheme == "ws6" && k == 6))
    ensures DefaultPort(scheme) == PORTS[k].1
  {
    hide PortFrom;
    forall i | 0 <= i < k ensures !NamesScheme(PORTS[i].0, scheme) { Unlike(PORTS[i].0, scheme); }
    PortAt(PORTS, scheme, k);
  }
}
