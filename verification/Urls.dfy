/** The host and the port in a URL, as headers_recv of cntlm-0.92.3/http.c finds them, against URLs written out. */
module Urls {
  import opened Decimals
  import opened HeaderRoundTrip
  import opened HeaderText
  import opened Headers
  import opened Messages
  import opened Options

  predicate IsHostName(host: string) {
    |host| > 0 && ':' !in host && '/' !in host
  }

  /** What follows the host: nothing, or anything that begins with a slash. */
  predicate IsPath(path: string) {
    path == [] || path[0] == '/'
  }

  // ---------- where the host begins ----------

  lemma {:induction false} BehindScheme(scheme: string, rest: string, otherwise: string)
    requires ':' !in scheme
    ensures BehindOr(scheme + "://" + rest, "://", otherwise) == rest
    decreases |scheme|
  {
    var url := scheme + "://" + rest;
    if scheme == [] {
      assert url[..3] == "://" && url[0..3] == url[..3];
      assert url[3..] == rest;
    } else {
      assert url[0] == scheme[0] && url[0..3][0] == scheme[0];
      assert url[1..] == scheme[1..] + "://" + rest;
      BehindScheme(scheme[1..], rest, otherwise);
    }
  }

  /** In a text without scheme there is nothing to skip. */
  lemma {:induction false} NoScheme(s: string, otherwise: string)
    requires forall i :: 0 <= i < |s| - 1 && s[i] == ':' ==> s[i + 1] != '/'
    ensures BehindOr(s, "://", otherwise) == otherwise
    decreases |s|
  {
    if s != [] {
      if |s| >= 3 {
        assert s[0..0 + 3][0] == s[0] && s[0..0 + 3][1] == s[1] && "://"[0] == ':' && "://"[1] == '/';
        assert !MatchesAt("://", s, 0);
      }
      NoScheme(s[1..], otherwise);
    }
  }

  lemma {:induction false} IndexBefore(s: string, c: char, rest: string)
    requires c !in s && (rest == [] || rest[0] == c)
    ensures IndexOf(s + rest, c) == |s|
    decreases |s|
  {
    if s == [] {
      assert s + rest == rest;
    } else {
      assert (s + rest)[1..] == s[1..] + rest;
      IndexBefore(s[1..], c, rest);
    }
  }

  /** The host ends where the path begins. */
  lemma HostEnds(host: string, path: string)
    requires |host| > 0 && '/' !in host && IsPath(path)
    ensures var i := IndexOf(host + path, '/');
            (if i < |host + path| then Substr(host + path, i) else host + path) == host
  {
    IndexBefore(host, '/', path);
    assert (host + path)[..|host|] == host;
    assert path == [] ==> host + path == host;
  }

  lemma HostOfUrl(scheme: string, host: string, path: string)
    requires ':' !in scheme && |host| > 0 && '/' !in host && IsPath(path)
    ensures HostOf(scheme + "://" + host + path) == host
  {
    hide IndexOf, BehindOr, Substr;
    var url := scheme + "://" + host + path;
    assert url == scheme + "://" + (host + path);
    BehindScheme(scheme, host + path, url);
    HostEnds(host, path);
  }

  lemma NotHttps(url: string)
    requires |url| >= 5 && url[4] == ':'
    ensures !StartsWith(url, "https")
  {
    assert Lowercase(url[..5])[4] == Lower(url[4]) && Lowercase("https")[4] == 's';
  }

  lemma IsHttps(url: string)
    requires |url| >= 5 && url[..5] == "https"
    ensures StartsWith(url, "https")
  {
  }

  // ---------- the ways to name a host ----------

  /** Without a port, the port is that of the scheme. */
  lemma PortOfScheme(host: string, path: string)
    requires IsHostName(host) && IsPath(path)
    ensures HostOf("http://" + host + path) == HostOf("https://" + host + path) == host
    ensures TargetOf("http://" + host + path) == Some(Target(host, 80))
    ensures TargetOf("https://" + host + path) == Some(Target(host, 443))
  {
    hide HostOf, IndexOf, StartsWith;
    var plain, secure := "http://" + host + path, "https://" + host + path;
    assert "http" + "://" == "http://" && "https" + "://" == "https://";
    HostOfUrl("http", host, path);
    HostOfUrl("https", host, path);
    assert plain[4] == ':' && secure[..5] == "https";
    NotHttps(plain);
    IsHttps(secure);
    assert host + [] == host;
    IndexBefore(host, ':', []);
    assert host[..|host|] == host;
  }

  lemma HostWithPort(host: string, n: nat)
    requires IsHostName(host)
    ensures var all := host + ":" + Digits(n);
            && '/' !in all && IndexOf(all, ':') == |host| && all[..|host|] == host
            && Atoll(all[|host| + 1..]) == n
  {
    hide Digits, Atoll;
    var all := host + ":" + Digits(n);
    DigitsStand(n);
    DecimalIsRead(n);
    assert all == host + (":" + Digits(n));
    IndexBefore(host, ':', ":" + Digits(n));
    assert all[|host| + 1..] == Digits(n);
  }

  /** A port that is written is the port, whatever the scheme; 0 is none, and an error. */
  lemma PortIsWritten(scheme: string, host: string, n: nat, path: string)
    requires ':' !in scheme && IsHostName(host) && IsPath(path)
    ensures var url := scheme + "://" + (host + ":" + Digits(n)) + path;
            && HostOf(url) == host + ":" + Digits(n)
            && TargetOf(url) == if n == 0 then None else Some(Target(host, n))
  {
    hide HostOf, IndexOf, StartsWith, Digits, Atoll;
    HostWithPort(host, n);
    HostOfUrl(scheme, host + ":" + Digits(n), path);
  }

  /** The target of a CONNECT. */
  lemma TargetOfConnect(host: string, n: nat)
    requires IsHostName(host)
    ensures var url := host + ":" + Digits(n);
            && HostOf(url) == url
            && TargetOf(url) == if n == 0 then None else Some(Target(host, n))
  {
    hide IndexOf, StartsWith, Digits, Atoll, BehindOr, Substr;
    var url := host + ":" + Digits(n);
    HostWithPort(host, n);
    DigitsStand(n);
    NoScheme(url, url);
    HostEnds(url, []);
    assert url + [] == url;
  }

  /** Nothing, or a port, where the host should stand is an error. */
  lemma NamelessIsRefused(scheme: string, tail: string)
    requires ':' !in scheme && (tail == [] || tail[0] == ':')
    ensures TargetOf(scheme + "://" + tail) == None
  {
    var url := scheme + "://" + tail;
    BehindScheme(scheme, tail, url);
    var host := HostOf(url);
    assert host == [] || host[0] == ':';
    assert IndexOf(host, ':') == 0;
  }

  /**
   The host is what stands before the path, exactly if anything does, or if there is no path: a length of 0 means
   everything to substr.
   */
  lemma HostIsBeforePathWhen(scheme: string, host: string, path: string)
    requires ':' !in scheme && '/' !in host && IsPath(path)
    ensures HostOf(scheme + "://" + host + path) == host <==> host != [] || path == []
  {
    if host != [] {
      HostOfUrl(scheme, host, path);
    } else {
      EmptyHost(scheme, path);
    }
  }

  lemma EmptyHost(scheme: string, path: string)
    requires ':' !in scheme && IsPath(path)
    ensures HostOf(scheme + "://" + "" + path) == HostOf(scheme + "://" + path) == path
  {
    var url := scheme + "://" + path;
    assert scheme + "://" + "" + path == url;
    BehindScheme(scheme, path, url);
    assert IndexOf(path, '/') == 0;
  }

  /** Otherwise the path is the host, and the request is not refused. */
  lemma PathIsTakenForHost(path: string)
    requires path != [] && path[0] == '/' && ':' !in path
    ensures TargetOf("http://" + path) == Some(Target(path, 80))
  {
    hide StartsWith, HostOf;
    var url := "http" + "://" + path;
    assert url == "http://" + path;
    EmptyHost("http", path);
    NotHttps(url);
    assert path + [] == path;
    IndexBefore(path, ':', []);
    assert path[..|path|] == path;
  }

  // ---------- from the wire ----------

  /** The ways in which a request names the host it wants. */
  datatype Wanted =
    | Plain(host: string, path: string)
    | Secure(host: string, path: string)
    | WithPort(scheme: string, host: string, port: nat, path: string)
    | Tunnel(host: string, port: nat)

  predicate IsWanted(w: Wanted) {
    && IsHostName(w.host)
    && (!w.Tunnel? ==> IsPath(w.path))
    && (w.WithPort? ==> ':' !in w.scheme && w.port > 0)
    && (w.Tunnel? ==> w.port > 0)
  }

  function Url(w: Wanted): string {
    match w
    case Plain(host, path) => "http://" + host + path
    case Secure(host, path) => "https://" + host + path
    case WithPort(scheme, host, port, path) => scheme + "://" + (host + ":" + Digits(port)) + path
    case Tunnel(host, port) => host + ":" + Digits(port)
  }

  /** The host with its port, if one is written. */
  function Authority(w: Wanted): string {
    if w.Plain? || w.Secure? then w.host else w.host + ":" + Digits(w.port)
  }

  function PortOf(w: Wanted): nat {
    match w case Plain(_, _) => 80 case Secure(_, _) => 443 case _ => w.port
  }

  /**
   A request for a host, printed and read, whatever follows it: host and port are those that were meant, and the first
   Host header names the host as it was written in the URL if the request had none.
   */
  lemma HostIsUnderstood(m: Message, w: Wanted, rest: string)
    requires IsWanted(w) && m.url == Url(w)
    requires m.req && IsToken(m.verb) && IsToken(m.url) && IsToken(m.http) && !IsVersion(m.verb)
    requires MatchesAt("HTTP/", m.http, 0) && AreHeaders(m.headers)
    ensures var r := Received(Text(m) + rest);
            && r.Some? && r.value.1 == rest
            && r.value.0.hostname == Some(w.host) && r.value.0.port == PortOf(w)
            && r.value.0.verb == m.verb && r.value.0.url == m.url && r.value.0.http == m.http
            && Get(r.value.0.headers, "Host")
               == if Has(m.headers, "Host") then Get(m.headers, "Host") else Some(Authority(w))
  {
    hide Received, Text, TargetOf, HostOf, Digits, IsToken, AreHeaders, IsVersion, WithHost, Get, Has, MatchesAt,
         IsPath;
    match w {
      case Plain(host, path) => PortOfScheme(host, path);
      case Secure(host, path) => PortOfScheme(host, path);
      case WithPort(scheme, host, port, path) => PortIsWritten(scheme, host, port, path);
      case Tunnel(host, port) => TargetOfConnect(host, port);
    }
    RequestComesBack(m, rest);
    HostIsThere(m.headers, m.url);
  }
}
