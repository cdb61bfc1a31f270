/** One URL for each way in which printing and parsing again loses something (url.c). */
module UrlExamples {
  import opened Wrappers
  import opened UrlCanon
  import opened UrlParse

  lemma NoUri()
    ensures Canon("") == Ok("") && SplitUri("") == ("", None, None)
  {
    assert Canonical("") && Utf8Valid("");
    CanonFixed("");
  }

  lemma Tcp()
    ensures ':' !in "tcp" && Lower("tcp") == "tcp" && !IsLocal("tcp") && !PrintsPath("tcp")
  {
  }

  /** A host part without a path, and what its URL parses to. */
  lemma HostOnly(scheme: string, host: string)
    requires ':' !in scheme && Lower(scheme) == scheme && !IsLocal(scheme)
    requires Clean(host, 0, |host|) && Lower(host) == host && !StarHost(host, |host|) && SplitHost(scheme, host).Some?
    ensures var r := Parse(scheme + "://" + host);
            r.Parsed? && r.url.Net? && r.url.scheme == scheme && r.url.hostname == SplitHost(scheme, host).value.0
  {
    hide Canon, SplitHost, Parse, Lower, IsLocal, Clean;
    NoUri();
    ParseText(scheme, host, "");
    assert scheme + "://" + host + "" == scheme + "://" + host;
  }

  /** A bracketed star parses, and is printed as no host at all. */
  lemma BracketedStar()
    ensures var r := Parse("tcp" + "://" + "[*]");
            r.Parsed? && r.url.Net? && r.url.hostname == "*" && !RoundTrips(r.url)
  {
    hide Parse, DefaultPort, Canon, RoundTrips;
    Tcp();
    assert Lower("[*]") == "[*]";
    assert "[*]"[1..] == "*]" && IndexOf("*]", ']') == 1;
    assert "*]"[1..] == "]" && "]"[1..] == "" && "*]"[..1] == "*";
    assert SplitHost("tcp", "[*]") == PortOf("tcp", "*", "");
    HostOnly("tcp", "[*]");
    RoundTripIff("tcp" + "://" + "[*]");
  }

  /** A host name that starts with a bracket parses, and is printed without the outer ones. */
  lemma DoubleBracket()
    ensures var r := Parse("tcp" + "://" + "[[x]");
            r.Parsed? && r.url.Net? && r.url.hostname == "[x" && !RoundTrips(r.url)
  {
    hide Parse, DefaultPort, Canon, RoundTrips;
    Tcp();
    assert Lower("[[x]") == "[[x]";
    assert "[[x]"[1..] == "[x]" && "[x]"[1..] == "x]" && IndexOf("x]", ']') == 1 && IndexOf("[x]", ']') == 2;
    assert "[x]"[2..] == "]" && "]"[1..] == "" && "[x]"[..2] == "[x";
    assert SplitHost("tcp", "[[x]") == PortOf("tcp", "[x", "");
    HostOnly("tcp", "[[x]");
    RoundTripIff("tcp" + "://" + "[[x]");
  }

  /** After a user name the first character of the host is not looked at, so the host can start with a slash. */
  lemma SlashHost()
    ensures var r := Parse("tcp" + "://@" + "/x");
            r.Parsed? && r.url.Net? && r.url.hostname == "/x" && !RoundTrips(r.url)
  {
    hide Parse, DefaultPort, Canon, RoundTrips;
    Tcp();
    NoUri();
    ParseAt("tcp", "/x");
    assert ScanHost("/x", 1, Some("")) == ScanHost("/x", 2, Some("")) == Scan("/x", 2, Some(""));
    assert "/x"[0..2] == "/x" && "/x"[2..] == "" && Lower("/x") == "/x";
    assert IndexOf("x", ':') == 1 && "/x"[1..] == "x" && IndexOf("/x", ':') == 2;
    assert SplitHost("tcp", "/x") == PortOf("tcp", "/x", "");
    RoundTripIff("tcp" + "://@" + "/x");
  }

  /** A scheme that is printed as a bare path loses its host. */
  lemma PathSchemeHost()
    ensures var r := Parse("ipc+abstract" + "://" + "h");
            r.Parsed? && r.url.Net? && r.url.hostname == "h" && !RoundTrips(r.url)
  {
    hide Parse, DefaultPort, Canon, RoundTrips;
    assert Lower("ipc+abstract") == "ipc+abstract" && Lower("h") == "h";
    assert IndexOf("h", ':') == 1 && "h"[..1] == "h" && "h"[1..] == "";
    assert SplitHost("ipc+abstract", "h") == PortOf("ipc+abstract", "h", "");
    HostOnly("ipc+abstract", "h");
    RoundTripIff("ipc+abstract" + "://" + "h");
  }

  /** A user name at the very end: the scan goes on behind the end of the input. */
  lemma TrailingAt()
    ensures Parse("tcp" + "://" + "u@") == Overrun
  {
    hide Lower, IsLocal, ParseNet;
    Tcp();
    var raw := "tcp" + "://" + "u@";
    IndexOfAt("tcp", ':', "://u@");
    assert raw == "tcp" + "://u@" && raw[..3] == "tcp" && raw[6..] == "u@";
    assert "u@"[2..] == "" && "u@"[..1] == "u";
    assert ScanHost("u@", 0, None) == ScanHost("u@", 1, None) == ScanHost("", 1, Some("u")) == ScanOverrun;
  }

  /** A scheme that names a path, and that the printer does not know. */
  lemma AbstractUnprintable()
    ensures Parse("abstract" + "://" + "x") == Parsed(Local("abstract", "x")) && Print(Local("abstract", "x")).None?
  {
    hide ScanHost, ParseScanned;
    var raw := "abstract" + "://" + "x";
    IndexOfAt("abstract", ':', "://x");
    assert raw == "abstract" + "://x" && raw[..8] == "abstract" && raw[11..] == "x";
    assert Lower("abstract") == "abstract";
  }
}
