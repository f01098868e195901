/**
 The text of requests and replies: what headers_send of cntlm-0.92.3/http.c prints and what headers_recv reads, as
 functions on strings.
 */
module HeaderText {
  import opened Chunks
  import opened Headers
  import opened Messages
  import opened Options
  import opened Sockets

  // ---------- string functions of the C library and of utils.c ----------

  /** strcspn with one character: its first position, or the length. */
  function IndexOf(s: string, c: char): (i: nat)
    ensures i <= |s| && (i < |s| ==> s[i] == c) && forall j :: 0 <= j < i ==> s[j] != c
  {
    if s == [] || s[0] == c then 0 else 1 + IndexOf(s[1..], c)
  }

  /** trimr: without the white space at the end. */
  function TrimR(s: string): (t: string)
    ensures t <= s
    ensures t == [] || !IsSpace(t[|t| - 1])
  {
    if s == [] || !IsSpace(s[|s| - 1]) then s else TrimR(s[..|s| - 1])
  }

  method Trimr(s: string) returns (t: string)
    ensures t == TrimR(s)
  {
    var i := |s| - 1;
    assert s[..|s|] == s;
    while i >= 0 && IsSpace(s[i])
      invariant -1 <= i < |s| && TrimR(s) == TrimR(s[..i + 1])
    {
      assert s[..i + 1][..i] == s[..i];
      i := i - 1;
    }
    t := s[..i + 1];
  }

  /** What goes is the blanks, tabs, line feeds, vertical tabs, form feeds and carriage returns at the end. */
  lemma {:induction false} TrimmedIs(s: string, tail: string)
    requires forall i :: 0 <= i < |tail| ==> tail[i] as int in {9, 10, 11, 12, 13, 32}
    requires s != [] ==> s[|s| - 1] as int !in {9, 10, 11, 12, 13, 32}
    ensures TrimR(s + tail) == s
  {
    if tail == [] {
      assert s + tail == s;
    } else {
      assert (s + tail)[..|s + tail| - 1] == s + tail[..|tail| - 1];
      TrimmedIs(s, tail[..|tail| - 1]);
    }
  }

  /** substr, for which a length of 0 means the whole string. */
  function Substr(s: string, len: nat): string
    requires len <= |s|
  {
    if len == 0 then s else s[..len]
  }

  function DropBlanks(s: string): string {
    if s != [] && s[0] == ' ' then DropBlanks(s[1..]) else s
  }

  /** strtok_r with a blank: the next word and what stands behind the blank that ends it. */
  function NextToken(s: string): Option<(string, string)> {
    var t := DropBlanks(s);
    var i := IndexOf(t, ' ');
    if t == [] then None else Some((t[..i], if i < |t| then t[i + 1..] else []))
  }

  /** strncasecmp with the length of the prefix finds no difference. */
  predicate StartsWith(s: string, prefix: string) {
    |s| >= |prefix| && SameName(s[..|prefix|], prefix)
  }

  /** What stands behind the first occurrence of a text, or everything. */
  function Behind(s: string, text: string): string {
    BehindOr(s, text, s)
  }

  function BehindOr(s: string, text: string, otherwise: string): string
    decreases |s|
  {
    if MatchesAt(text, s, 0) then s[|text|..] else if s == [] then otherwise else BehindOr(s[1..], text, otherwise)
  }

  // ---------- reading ----------

  datatype FirstLine =
    | Reply(version: string, code: int, msg: string)
    | Request(verb: string, url: string, version: string)

  /** The status line or request line, without the white space at its end; None if it is neither. */
  function ParseFirst(line: string): Option<FirstLine> {
    match NextToken(line)
    case None => None
    case Some((first, rest)) =>
      if (line[0] != ' ' && StartsWith(first, "HTTP/")) || StartsWith(first, "ICY") then
        match NextToken(rest)
        case None => None
        case Some((code, msg)) => if |code| != 3 || Atoll(code) == 0 then None else Some(Reply(first, Atoll(code), msg))
      else if Occurs(" HTTP/", line) then
        match NextToken(rest)
        case None => None
        case Some((url, rest')) =>
          match NextToken(rest')
          case None => None
          case Some((version, _)) => Some(Request(first, url, version))
      else None
  }

  /** A header line without the white space at its end; a line without a colon is none. */
  function ParseHeader(line: string): Option<Header> {
    var i := IndexOf(line, ':');
    if i < |line| then Some(Header(Substr(line, i), DropBlanks(line[i + 1..]))) else None
  }

  /** The line at the front of the input, as the code looks at it. */
  function LineText(s: string): string {
    TrimR(CString(s[..LineLength(s)]))
  }

  /** The headers up to an empty line, what is left behind it, and whether it came. */
  function ReadHeaders(s: string): (seq<Header>, string, bool) {
    var n := LineLength(s);
    if !HasLine(s) then ([], s[n..], false)
    else
      var line := LineText(s);
      if line == [] then ([], s[n..], true)
      else
        var (headers, rest, ok) := ReadHeaders(s[n..]);
        (match ParseHeader(line) case Some(h) => [h] + headers case None => headers, rest, ok)
  }

  /** The host in a URL, or in what takes its place. */
  function HostOf(url: string): string {
    var rest := Behind(url, "://");
    var i := IndexOf(rest, '/');
    if i < |rest| then Substr(rest, i) else rest
  }

  datatype Target = Target(hostname: string, port: int)

  /** Host name and port; None without a name or with port 0. */
  function TargetOf(url: string): Option<Target> {
    var host := HostOf(url);
    var i := IndexOf(host, ':');
    var port := if i < |host| then Atoll(host[i + 1..]) else if StartsWith(url, "https") then 443 else 80;
    if i == 0 || port == 0 then None else Some(Target(host[..i], port))
  }

  /** A request has a Host header in the end. */
  function WithHost(headers: seq<Header>, url: string): seq<Header> {
    if Has(headers, "Host") then headers else headers + [Header("Host", HostOf(url))]
  }

  /** What headers_recv makes of the input: a message and the rest, or an error. */
  function Received(s: string): Option<(Message, string)> {
    if !HasLine(s) then None
    else
      match ParseFirst(LineText(s))
      case None => None
      case Some(first) =>
        var (headers, rest, ok) := ReadHeaders(s[LineLength(s)..]);
        if !ok then None
        else
          match first
          case Reply(version, code, msg) =>
            Some((Message(false, [], [], version, None, 0, code, msg, false, headers), rest))
          case Request(verb, url, version) =>
            match TargetOf(url)
            case None => None
            case Some(t) =>
              Some((Message(true, verb, url, version, Some(t.hostname), t.port, 0, [], false,
                            WithHost(headers, url)), rest))
  }

  // ---------- printing ----------

  function Digit(n: nat): char
    requires n < 10
  {
    '0' + n as char
  }

  function Digits(n: nat): (s: string)
    ensures |s| > 0
  {
    if n < 10 then [Digit(n)] else Digits(n / 10) + [Digit(n % 10)]
  }

  function PadTo(s: string, width: nat): (t: string)
    ensures |t| == if |s| < width then width else |s|
    decreases width - |s|
  {
    if |s| < width then PadTo("0" + s, width) else s
  }

  /** An int printed with %03d. */
  function FormatCode(code: int): string {
    if code >= 0 then PadTo(Digits(code), 3) else "-" + PadTo(Digits(-code), 2)
  }

  function FirstText(m: Message): string {
    if m.req then m.verb + " " + m.url + " " + m.http + CRLF
    else if !m.skipHttp then m.http + " " + FormatCode(m.code) + " " + m.msg + CRLF
    else []
  }

  function HeaderLine(h: Header): string {
    h.key + ": " + h.value + CRLF
  }

  function HeadersText(headers: seq<Header>): string {
    if headers == [] then [] else HeaderLine(headers[0]) + HeadersText(headers[1..])
  }

  /** All that headers_send writes. */
  function Text(m: Message): string {
    FirstText(m) + HeadersText(m.headers) + CRLF
  }
}
