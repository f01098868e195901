/** headers_recv and headers_send of cntlm-0.92.3/http.c. */
module HeaderTransfer {
  import opened Chunks
  import opened Headers
  import opened HeaderText
  import opened Messages
  import opened Options
  import opened Sockets

  /** so_recvln and trimr: whether a line came, and its text. */
  method ReadLine(fd: Socket, buf: Buffer) returns (ok: bool, line: string)
    requires buf.bytes.Length >= 2
    modifies fd`incoming, buf, buf.bytes
    ensures buf.bytes.Length >= 2 && (fresh(buf.bytes) || buf.bytes == old(buf.bytes))
    ensures ok == HasLine(old(fd.incoming)) && line == LineText(old(fd.incoming))
    ensures fd.incoming == old(fd.incoming)[LineLength(old(fd.incoming))..]
  {
    hide CString, TrimR;
    var i, len := RecvLine(fd, buf);
    line := Trimr(CString(buf.bytes[..len]));
    ok := i > 0;
  }

  lemma ReadHeadersTurn(done: seq<Header>, s: string)
    ensures var n, line := LineLength(s), LineText(s);
            var (headers, rest, ok) := ReadHeaders(s);
            (done + headers, rest, ok) ==
            if !HasLine(s) then (done, s[n..], false)
            else if line == [] then (done, s[n..], true)
            else
              var (headers', rest', ok') := ReadHeaders(s[n..]);
              ((match ParseHeader(line) case Some(h) => done + [h] case None => done) + headers', rest', ok')
  {
    hide LineLength, HasLine, LineText, ParseHeader;
    assert done + [] == done;
    if HasLine(s) && LineText(s) != [] {
      var (headers, rest, ok) := ReadHeaders(s[LineLength(s)..]);
      match ParseHeader(LineText(s))
      case Some(h) => assert done + ([h] + headers) == done + [h] + headers;
      case None =>
    }
  }

  /** The loop of headers_recv over the header lines. */
  method HeaderLines(fd: Socket, buf: Buffer) returns (headers: seq<Header>, ok: bool)
    requires buf.bytes.Length >= 2
    modifies fd`incoming, buf, buf.bytes
    ensures (headers, fd.incoming, ok) == ReadHeaders(old(fd.incoming))
  {
    hide LineLength, HasLine, LineText, ParseHeader, ReadHeaders;
    headers := [];
    ghost var (all, rest, came) := ReadHeaders(fd.incoming);
    assert headers + all == all;
    while true
      invariant buf.bytes.Length >= 2 && (fresh(buf.bytes) || buf.bytes == old(buf.bytes))
      invariant (all, rest, came)
                == (headers + ReadHeaders(fd.incoming).0, ReadHeaders(fd.incoming).1, ReadHeaders(fd.incoming).2)
      decreases |fd.incoming|
    {
      LineGoesOn(fd.incoming);
      ReadHeadersTurn(headers, fd.incoming);
      var line;
      ok, line := ReadLine(fd, buf);
      if ok && line != [] {
        match ParseHeader(line) {
          case Some(h) => headers := headers + [h];
          case None =>
        }
      }
      if !(line != [] && ok) {
        break;
      }
    }
    assert came == ok;
  }

  /** headers_recv: the message, if one comes; nothing behind it is read. */
  method HeadersRecv(fd: Socket) returns (message: Option<Message>)
    modifies fd`incoming
    ensures match Received(old(fd.incoming))
            case Some((m, rest)) => message == Some(m) && fd.incoming == rest
            case None => message == None
  {
    hide LineLength, HasLine, LineText, ParseFirst, ReadHeaders, TargetOf, WithHost, HostOf;
    message := None;
    var buf := new Buffer(BUFSIZE);
    var ok, line := ReadLine(fd, buf);
    if !ok { return; }
    var first := ParseFirst(line);
    if first == None { return; }
    var headers;
    headers, ok := HeaderLines(fd, buf);
    if !ok { return; }
    match first.value {
      case Reply(version, code, msg) =>
        message := Some(Message(false, [], [], version, None, 0, code, msg, false, headers));
      case Request(verb, url, version) =>
        var target := TargetOf(url);
        if target == None { return; }
        var host := HostOf(url);
        HostAdded(headers, url);
        if Get(headers, "Host") == None {
          headers := headers + [Header("Host", host)];
        }
        message := Some(Message(true, verb, url, version, Some(target.value.hostname), target.value.port, 0, [], false,
                                headers));
    }
  }

  lemma HostAdded(headers: seq<Header>, url: string)
    ensures WithHost(headers, url)
            == if Get(headers, "Host") == None then headers + [Header("Host", HostOf(url))] else headers
  {
    hide HostOf, SameName;
  }

  // ---------- sending ----------

  /** The code is an int. */
  predicate Printable(m: Message) {
    -0x8000_0000 <= m.code <= 0x7fff_ffff
  }

  /** The room that headers_send reserves. */
  function Room(m: Message): nat {
    20 + (if m.req then |m.verb| + |m.url| + |m.http| else |m.http| + |m.msg|) + HeadersRoom(m.headers)
  }

  function HeadersRoom(headers: seq<Header>): nat {
    if headers == [] then 0 else 20 + |headers[0].key| + |headers[0].value| + HeadersRoom(headers[1..])
  }

  lemma {:induction false} DigitsLength(n: nat, digits: nat, bound: nat)
    requires n < bound && digits > 0 && bound == Power10(digits)
    ensures |Digits(n)| <= digits
  {
    if digits > 1 && n >= 10 {
      DigitsLength(n / 10, digits - 1, Power10(digits - 1));
    }
  }

  function Power10(digits: nat): nat {
    if digits == 0 then 1 else 10 * Power10(digits - 1)
  }

  lemma CodeLength(code: int)
    requires -0x8000_0000 <= code <= 0x7fff_ffff
    ensures |FormatCode(code)| <= 11
  {
    assert Power10(10) == 10_000_000_000 by {
      assert Power10(2) == 100;
      assert Power10(4) == 10_000;
      assert Power10(6) == 1_000_000;
      assert Power10(8) == 100_000_000;
    }
    DigitsLength(if code < 0 then -code else code, 10, 10_000_000_000);
  }

  lemma {:induction false} HeadersFit(headers: seq<Header>)
    ensures |HeadersText(headers)| <= HeadersRoom(headers)
  {
    if headers != [] {
      HeadersFit(headers[1..]);
    }
  }

  /** The room reserved beforehand covers all that is printed, and the terminator. */
  lemma TextFits(m: Message)
    requires Printable(m)
    ensures |Text(m)| + 1 <= Room(m)
  {
    HeadersFit(m.headers);
    CodeLength(m.code);
  }

  /** sprintf of a text at a position of a buffer. */
  method Sprintf(buf: array<char>, at: nat, text: string)
    requires at + |text| + 1 <= buf.Length
    modifies buf
    ensures buf[..at + |text|] == old(buf[..at]) + text && buf[at + |text|] == 0 as char
  {
    forall i | 0 <= i < |text| {
      buf[at + i] := text[i];
    }
    buf[at + |text|] := 0 as char;
    assert buf[..at + |text|] == old(buf[..at]) + text;
  }

  /** The text is printed into the buffer; its length without the last line end is returned. */
  method Print(m: Message, buf: array<char>) returns (len: nat)
    requires Printable(m) && buf.Length == Room(m)
    modifies buf
    ensures len + 2 < buf.Length && buf[..len + 2] == Text(m)
  {
    hide Room, HeadersRoom, FormatCode;
    TextFits(m);
    len := 0;
    assert FirstText(m) + HeadersText(m.headers) + CRLF == Text(m);
    if m.req || !m.skipHttp {
      Sprintf(buf, 0, FirstText(m));
      len := |FirstText(m)|;
    }
    assert buf[..len] == FirstText(m);
    var t := m.headers;
    while t != []
      invariant len + |HeadersText(t)| + 3 <= buf.Length
      invariant buf[..len] + HeadersText(t) == FirstText(m) + HeadersText(m.headers)
      decreases |t|
    {
      ghost var before := buf[..len];
      assert before + (HeaderLine(t[0]) + HeadersText(t[1..])) == before + HeaderLine(t[0]) + HeadersText(t[1..]);
      Sprintf(buf, len, HeaderLine(t[0]));
      len := len + |HeaderLine(t[0])|;
      t := t[1..];
    }
    assert buf[..len] + HeadersText([]) == buf[..len];
    Sprintf(buf, len, CRLF);
  }

  /** headers_send: everything is written at once, or else some of it and no success is reported. */
  method HeadersSend(fd: Socket, m: Message) returns (rc: bool)
    requires Printable(m)
    modifies fd`outgoing
    ensures fd.open ==> rc
    ensures rc <==> fd.outgoing == old(fd.outgoing) + Text(m)
    ensures exists k: nat | k <= |Text(m)| :: fd.outgoing == old(fd.outgoing) + Text(m)[..k]
  {
    hide FirstText, HeadersText;
    var buf := new char[Room(m)](_ => 0 as char);
    var len := Print(m, buf);
    var i := -999;
    var closed := fd.IsClosed();
    if !closed {
      i := fd.Write(buf[..len + 2]);
    }
    rc := !(i <= 0 || i != len + 2);
    assert fd.outgoing == old(fd.outgoing) + Text(m)[..if i < 0 then 0 else i];
    assert Text(m)[..|Text(m)|] == Text(m);
  }
}
