/** Building the public URL `http[s]://host:port/` of a listening server. */
module Url {
  import opened Wrappers
  import opened JsValues
  import opened Decimal

  function Scheme(secure: bool): (scheme: string) {
    if secure then "https" else "http"
  }

  /** A host that contains a colon (an IPv6 literal) is written in brackets. */
  function HostPart(host: string): (h: string) {
    if ':' in host then "[" + host + "]" else host
  }

  /** `fmtURL`: absent when the host is absent or empty, or the port is
      absent, zero or NaN; otherwise `scheme://host:port/`. */
  function FmtURL(host: Option<string>, port: Option<Number>, secure: bool): (r: Option<string>)
    ensures r.None? <==> host.None? || host.value == "" || port.None? || FalsyNumber(port.value)
  {
    if host.None? || host.value == "" || port.None? || FalsyNumber(port.value) then None
    else Some(Scheme(secure) + "://" + HostPart(host.value) + ":" + DecimalString(port.value.value) + "/")
  }

  /** What a reader of the URL recovers from it. */
  datatype UrlParts = UrlParts(secure: bool, host: string, port: int)

  function LastIndexOf(s: string, c: char): (r: Option<nat>)
    ensures r.Some? ==> r.value < |s| && s[r.value] == c && c !in s[r.value + 1..]
    ensures r.None? ==> c !in s
  {
    if s == [] then None
    else if s[|s| - 1] == c then Some(|s| - 1)
    else
      var r := LastIndexOf(s[..|s| - 1], c);
      assert r.Some? ==> s[r.value + 1..] == s[..|s| - 1][r.value + 1..] + [s[|s| - 1]];
      assert r.None? ==> s == s[..|s| - 1] + [s[|s| - 1]];
      r
  }

  /** Removes the brackets around an IPv6 literal, and only around one. */
  function Unbracket(h: string): (host: string) {
    if |h| >= 2 && h[0] == '[' && h[|h| - 1] == ']' && ':' in h[1..|h| - 1] then h[1..|h| - 1] else h
  }

  /** Reads the scheme, host and port back out of `scheme://host:port/`. */
  function SplitURL(u: string): (parts: Option<UrlParts>) {
    var secure := "https://" <= u;
    if !secure && !("http://" <= u) then None
    else
      var rest := u[|Scheme(secure)| + 3..];
      if rest == [] || rest[|rest| - 1] != '/' then None
      else SplitAuthority(secure, rest[..|rest| - 1])
  }

  /** Splits `host:port` at the last colon (the port text never holds one). */
  function SplitAuthority(secure: bool, authority: string): (parts: Option<UrlParts>) {
    match LastIndexOf(authority, ':')
    case None => None
    case Some(i) =>
      match ParseInt(authority[i + 1..])
      case NaN => None
      case Num(n) => Some(UrlParts(secure, Unbracket(authority[..i]), n))
  }

  lemma {:induction false} LastIndexOfSplit(a: string, c: char, b: string)
    requires c !in b
    ensures LastIndexOf(a + [c] + b, c) == Some(|a|)
  {
    var s := a + [c] + b;
    if b != [] {
      assert s[..|s| - 1] == a + [c] + b[..|b| - 1];
      assert s[|s| - 1] == b[|b| - 1];
      LastIndexOfSplit(a, c, b[..|b| - 1]);
    }
  }

  lemma UnbracketHostPart(host: string)
    ensures Unbracket(HostPart(host)) == host
  {
  }

  lemma SplitAuthorityOfHostPort(secure: bool, host: string, port: int)
    ensures SplitAuthority(secure, HostPart(host) + ":" + DecimalString(port)) == Some(UrlParts(secure, host, port))
  {
    var h := HostPart(host);
    var d := DecimalString(port);
    var authority := h + ":" + d;
    assert authority == h + [':'] + d;
    LastIndexOfSplit(h, ':', d);
    assert authority[|h| + 1..] == d;
    assert authority[..|h|] == h;
    ParseIntOfDecimalString(port);
    UnbracketHostPart(host);
  }

  lemma SchemePrefix(secure: bool, tail: string)
    ensures var u := Scheme(secure) + "://" + tail;
      && ("https://" <= u) == secure
      && (secure || "http://" <= u)
      && Scheme(secure) + "://" <= u
      && u[|Scheme(secure)| + 3..] == tail
  {
    var u := Scheme(secure) + "://" + tail;
    assert u[..|Scheme(secure)| + 3] == Scheme(secure) + "://";
    if !secure {
      assert u[4] == ':';
    }
  }

  lemma SplitURLOfAuthority(secure: bool, h: string, d: string)
    ensures SplitURL(Scheme(secure) + "://" + h + ":" + d + "/") == SplitAuthority(secure, h + ":" + d)
  {
    var authority := h + ":" + d;
    var rest := authority + "/";
    assert Scheme(secure) + "://" + h + ":" + d + "/" == Scheme(secure) + "://" + rest;
    SchemePrefix(secure, rest);
    assert rest[..|rest| - 1] == authority;
  }

  /** The URL of a host and a nonzero port names that host and that port
      again, and says whether it is secure. */
  lemma FmtURLRoundTrip(host: string, port: int, secure: bool)
    requires host != "" && port != 0
    ensures FmtURL(Some(host), Some(Num(port)), secure).Some?
    ensures SplitURL(FmtURL(Some(host), Some(Num(port)), secure).value) == Some(UrlParts(secure, host, port))
  {
    var h := HostPart(host);
    var d := DecimalString(port);
    assert FmtURL(Some(host), Some(Num(port)), secure) == Some(Scheme(secure) + "://" + h + ":" + d + "/");
    SplitURLOfAuthority(secure, h, d);
    SplitAuthorityOfHostPort(secure, host, port);
  }

  lemma HostColonPrefix(sch: string, host: string, d: string)
    ensures var u := sch + HostPart(host) + ":" + d + "/";
      && (':' in host ==> sch + "[" + host + "]" + ":" <= u)
      && (':' !in host ==> sch + host + ":" <= u)
  {
    var h := HostPart(host);
    var u := sch + h + ":" + d + "/";
    assert u == (sch + h + ":") + (d + "/");
  }

  /** The shape of `scheme://host:port/` for any port text `d`. */
  lemma UrlTextShape(secure: bool, host: string, d: string)
    ensures var u := Scheme(secure) + "://" + HostPart(host) + ":" + d + "/";
      && (("https://" <= u) <==> secure)
      && (Scheme(secure) + "://" <= u)
      && (':' in host ==> Scheme(secure) + "://" + "[" + host + "]" + ":" <= u)
      && (':' !in host ==> Scheme(secure) + "://" + host + ":" <= u)
      && u[|u| - |d| - 2..] == ":" + d + "/"
  {
    var sch := Scheme(secure) + "://";
    var u := sch + HostPart(host) + ":" + d + "/";
    var tail := HostPart(host) + ":" + d + "/";
    assert u == Scheme(secure) + "://" + tail;
    SchemePrefix(secure, tail);
    assert u == (sch + HostPart(host)) + (":" + d + "/");
    HostColonPrefix(sch, host, d);
  }

  /** The scheme is `https` exactly when the server is secure, an IPv6 host
      stands in brackets, and the port follows the last colon. */
  lemma FmtURLShape(host: string, port: int, secure: bool)
    requires host != "" && port != 0
    ensures var u := FmtURL(Some(host), Some(Num(port)), secure);
      && u.Some?
      && (("https://" <= u.value) <==> secure)
      && (Scheme(secure) + "://" <= u.value)
      && (':' in host ==> Scheme(secure) + "://" + "[" + host + "]" + ":" <= u.value)
      && (':' !in host ==> Scheme(secure) + "://" + host + ":" <= u.value)
      && u.value[|u.value| - |DecimalString(port)| - 2..] == ":" + DecimalString(port) + "/"
  {
    UrlTextShape(secure, host, DecimalString(port));
  }
}
