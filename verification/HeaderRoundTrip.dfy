/** What headers_send prints is what headers_recv reads. */
module HeaderRoundTrip {
  import opened Chunks
  import opened ChunkedBodies
  import opened Headers
  import opened HeaderText
  import opened Messages
  import opened Options
  import opened Sockets

  // ---------- well-formed messages ----------

  /** A word: no white space in it. */
  predicate IsToken(s: string) {
    |s| > 0 && forall i :: 0 <= i < |s| ==> !IsSpace(s[i]) && s[i] != 0 as char
  }

  predicate NoSpaceAtEnd(s: string) {
    s == [] || !IsSpace(s[|s| - 1])
  }

  predicate IsHeader(h: Header) {
    && InLine(h.key) && InLine(h.value)
    && |h.key| > 0 && ':' !in h.key
    && (h.value == [] || h.value[0] != ' ') && NoSpaceAtEnd(h.value)
  }

  predicate AreHeaders(headers: seq<Header>) {
    forall i :: 0 <= i < |headers| ==> IsHeader(headers[i])
  }

  predicate IsVersion(s: string) {
    IsToken(s) && (StartsWith(s, "HTTP/") || StartsWith(s, "ICY"))
  }

  predicate IsReply(m: Message) {
    !m.req && !m.skipHttp && IsVersion(m.http) && 1 <= m.code <= 999 && InLine(m.msg) && NoSpaceAtEnd(m.msg)
    && AreHeaders(m.headers)
  }

  predicate IsRequest(m: Message) {
    m.req && IsToken(m.verb) && IsToken(m.url) && IsToken(m.http) && !IsVersion(m.verb)
    && MatchesAt("HTTP/", m.http, 0) && TargetOf(m.url).Some? && AreHeaders(m.headers)
  }

  // ---------- white space and words ----------

  lemma {:induction false} TrimEnd(s: string, blank: string)
    requires NoSpaceAtEnd(s) && forall i :: 0 <= i < |blank| ==> IsSpace(blank[i])
    ensures TrimR(s + blank) == s
  {
    if blank == [] {
      assert s + blank == s;
    } else {
      var front := blank[..|blank| - 1];
      TrimEnd(s, front);
      assert (s + blank)[..|s + blank| - 1] == s + front;
    }
  }

  lemma TokenChars(s: string)
    requires IsToken(s)
    ensures InLine(s) && NoSpaceAtEnd(s) && s[0] != ' '
    ensures forall i :: 0 <= i < |s| ==> s[i] != ' '
  {
  }

  lemma {:induction false} IndexInFront(s: string, c: char, rest: string)
    requires c !in s
    ensures IndexOf(s + [c] + rest, c) == |s| && IndexOf(s, c) == |s|
  {
    if s == [] {
      assert (s + [c] + rest)[0] == c;
    } else {
      IndexInFront(s[1..], c, rest);
      assert (s + [c] + rest)[1..] == s[1..] + [c] + rest;
    }
  }

  /** The first of several words, and the only one. */
  lemma TokenInFront(s: string, rest: string)
    requires IsToken(s)
    ensures NextToken(s + " " + rest) == Some((s, rest))
    ensures NextToken(s) == Some((s, []))
  {
    hide IndexOf;
    TokenChars(s);
    IndexInFront(s, ' ', rest);
    var all := s + " " + rest;
    assert all[0] == s[0];
    assert all[..|s|] == s && all[|s| + 1..] == rest;
    assert s[..|s|] == s;
  }

  // ---------- one header ----------

  lemma BlankFirst(value: string)
    ensures DropBlanks(" " + value) == DropBlanks(value)
  {
    assert (" " + value)[1..] == value;
  }

  lemma {:induction false} DropBlanksShortens(value: string)
    ensures |DropBlanks(value)| <= |value|
    ensures DropBlanks(value) == value <==> value == [] || value[0] != ' '
  {
    if value != [] && value[0] == ' ' {
      DropBlanksShortens(value[1..]);
    }
  }

  /** The header line as it is read, without white space at its end. */
  function ReadBack(h: Header): Option<Header> {
    ParseHeader(TrimR(h.key + ": " + h.value))
  }

  lemma {:induction false} TrimBehind(front: string, s: string)
    requires |front| > 0 && !IsSpace(front[|front| - 1])
    ensures TrimR(front + s) == front + TrimR(s)
  {
    if s == [] {
      assert front + s == front;
    } else if IsSpace(s[|s| - 1]) {
      TrimBehind(front, s[..|s| - 1]);
      assert (front + s)[..|front + s| - 1] == front + s[..|s| - 1];
    } else {
      assert (front + s)[|front + s| - 1] == s[|s| - 1];
    }
  }

  /** The header line behind the key. */
  lemma HeaderParts(h: Header)
    requires ':' !in h.key
    ensures ReadBack(h)
            == Some(Header(if h.key == [] then ":" + TrimR(" " + h.value) else h.key, DropBlanks(TrimR(" " + h.value))))
  {
    hide IndexOf, TrimR, DropBlanks;
    var front, tail := h.key + ":", " " + h.value;
    assert h.key + ": " + h.value == front + tail;
    ColonIsNoSpace();
    TrimBehind(front, tail);
    var line := front + TrimR(tail);
    IndexInFront(h.key, ':', TrimR(tail));
    assert line == h.key + [':'] + TrimR(tail);
    assert line[..|h.key|] == h.key && line[|h.key| + 1..] == TrimR(tail);
    assert h.key == [] ==> line == ":" + TrimR(tail);
  }

  lemma ColonIsNoSpace()
    ensures !IsSpace(':') && IsSpace(' ') && IsSpace('\r') && IsSpace('\n')
  {
  }

  lemma TrimValue(value: string)
    ensures NoSpaceAtEnd(value) ==> TrimR(" " + value) == if value == [] then [] else " " + value
    ensures !NoSpaceAtEnd(value) ==> |TrimR(" " + value)| <= |value|
  {
    var s := " " + value;
    if value == [] {
      assert s[..|s| - 1] == [];
    } else {
      assert s[|s| - 1] == value[|value| - 1];
    }
  }

  /** One line at a time: name and value stay as they were when they hold no line feed. */
  lemma LineComesBackWhen(h: Header)
    ensures ReadBack(h) == Some(h)
            <==> |h.key| > 0 && ':' !in h.key && (h.value == [] || h.value[0] != ' ') && NoSpaceAtEnd(h.value)
  {
    hide TrimR, DropBlanks, IndexOf, ReadBack;
    if ':' in h.key {
      ColonInName(h);
    } else {
      HeaderParts(h);
      TrimValue(h.value);
      BlankFirst(h.value);
      DropBlanksShortens(h.value);
      DropBlanksShortens(TrimR(" " + h.value));
      EmptyValue(TrimR(" " + h.value), h.value);
    }
  }

  /** What is left of a value that ends with white space is shorter. */
  lemma EmptyValue(trimmed: string, value: string)
    requires trimmed == TrimR(" " + value)
    ensures !NoSpaceAtEnd(value) ==> DropBlanks(trimmed) != value
    ensures DropBlanks([]) == []
  {
    if !NoSpaceAtEnd(value) {
      TrimValue(value);
      DropKeepsEnd(trimmed);
    }
  }

  lemma {:induction false} DropKeepsEnd(s: string)
    requires NoSpaceAtEnd(s)
    ensures NoSpaceAtEnd(DropBlanks(s))
  {
    if s != [] && s[0] == ' ' {
      DropKeepsEnd(s[1..]);
    }
  }

  lemma ColonInName(h: Header)
    requires ':' in h.key
    ensures ReadBack(h) != Some(h)
  {
    hide TrimR, DropBlanks;
    var line := TrimR(h.key + ": " + h.value);
    var i := IndexOf(line, ':');
    if i < |line| && i > 0 {
      assert line[..i] == h.key ==> ':' !in h.key;
    } else if i == 0 && |line| > 0 {
      ColonKept(h.key, h.value);
    }
  }

  lemma ColonKept(key: string, value: string)
    ensures |TrimR(key + ": " + value)| > |key|
  {
    ColonIsNoSpace();
    TrimBehind(key + ":", " " + value);
    assert key + ": " + value == key + ":" + (" " + value);
  }

  // ---------- lines ----------

  /** A printed line is read as its text without white space at the end. */
  lemma LineIsRead(s: string, rest: string)
    requires InLine(s)
    ensures var all := s + CRLF + rest;
            HasLine(all) && LineText(all) == TrimR(s) && all[LineLength(all)..] == rest
  {
    hide LineLength, HasLine, CString;
    LineInFront(s, rest);
    TrimLineEnd(s);
  }

  lemma TrimLineEnd(s: string)
    ensures TrimR(s + CRLF) == TrimR(s)
  {
    ColonIsNoSpace();
    assert (s + CRLF)[..|s| + 1] == s + "\r";
    assert (s + "\r")[..|s|] == s;
  }

  lemma InLineConcat(s: string, t: string)
    ensures InLine(s + t) <==> InLine(s) && InLine(t)
  {
    if InLine(s + t) {
      assert forall i | 0 <= i < |s| :: s[i] == (s + t)[i];
      assert forall i | 0 <= i < |t| :: t[i] == (s + t)[|s| + i];
    }
  }

  // ---------- headers ----------

  lemma HeaderIsRead(h: Header, rest: string)
    requires IsHeader(h)
    ensures var all := HeaderLine(h) + rest;
            && HasLine(all) && all[LineLength(all)..] == rest
            && LineText(all) != [] && ParseHeader(LineText(all)) == Some(h)
  {
    hide LineLength, HasLine, LineText, ReadBack, TrimR, ParseHeader;
    var line := h.key + ": " + h.value;
    InLineConcat(h.key, ": ");
    InLineConcat(h.key + ": ", h.value);
    assert HeaderLine(h) + rest == line + CRLF + rest;
    LineIsRead(line, rest);
    LineComesBackWhen(h);
    ReadBackOf(h);
    NoHeaderInNothing();
  }

  lemma ReadBackOf(h: Header)
    ensures ReadBack(h) == ParseHeader(TrimR(h.key + ": " + h.value))
  {
  }

  lemma NoHeaderInNothing()
    ensures ParseHeader([]) == None
  {
  }

  lemma {:induction false} HeadersAreRead(headers: seq<Header>, rest: string)
    requires AreHeaders(headers)
    ensures ReadHeaders(HeadersText(headers) + CRLF + rest) == (headers, rest, true)
    decreases |headers|
  {
    hide LineLength, HasLine, LineText, ParseHeader, HeaderLine, IsHeader;
    if headers == [] {
      assert HeadersText(headers) + CRLF + rest == [] + CRLF + rest;
      LineIsRead([], rest);
      LineGoesOn([] + CRLF + rest);
    } else {
      var h, more := headers[0], HeadersText(headers[1..]) + CRLF + rest;
      assert HeadersText(headers) + CRLF + rest == HeaderLine(h) + more;
      HeaderIsRead(h, more);
      LineGoesOn(HeaderLine(h) + more);
      HeadersAreRead(headers[1..], rest);
      assert headers == [h] + headers[1..];
    }
  }

  // ---------- which headers come back ----------

  predicate HeaderInLine(h: Header) {
    InLine(h.key) && InLine(h.value)
  }

  predicate AreInLine(headers: seq<Header>) {
    forall i :: 0 <= i < |headers| ==> HeaderInLine(headers[i])
  }

  lemma {:induction false} NoZeroInside(s: string)
    ensures forall i :: 0 <= i < |CString(s)| ==> CString(s)[i] != 0 as char
  {
    if s != [] {
      NoZeroInside(s[1..]);
    }
  }

  /** A line feed ends the line, and is trimmed. */
  lemma LineTextInLine(s: string)
    ensures InLine(LineText(s))
  {
    hide CString, TrimR;
    var n := LineLength(s);
    var line := CString(s[..n]);
    NoZeroInside(s[..n]);
    ColonIsNoSpace();
    var text := TrimR(line);
    if |text| == n && n > 0 {
      assert !IsSpace(text[n - 1]);
    }
  }

  lemma ParsedInLine(line: string)
    requires InLine(line)
    ensures match ParseHeader(line) case Some(h) => HeaderInLine(h) case None => true
  {
    hide IndexOf;
    var i := IndexOf(line, ':');
    if i < |line| {
      SuffixInLine(line[i + 1..]);
    }
  }

  lemma {:induction false} SuffixInLine(s: string)
    requires InLine(s)
    ensures InLine(DropBlanks(s))
  {
    if s != [] && s[0] == ' ' {
      SuffixInLine(s[1..]);
    }
  }

  /** No header that has been read holds a line feed. */
  lemma {:induction false} ReadAreInLine(s: string)
    ensures AreInLine(ReadHeaders(s).0)
    decreases |s|
  {
    hide LineLength, HasLine, LineText, ParseHeader, HeaderInLine;
    LineGoesOn(s);
    if HasLine(s) && LineText(s) != [] {
      LineTextInLine(s);
      ParsedInLine(LineText(s));
      ReadAreInLine(s[LineLength(s)..]);
    }
  }

  /** The line of any header is taken for a header when it is read, because of the colon that was printed. */
  lemma LineIsHeader(h: Header)
    ensures ReadBack(h).Some? && TrimR(h.key + ": " + h.value) != []
  {
    hide TrimR, DropBlanks;
    ColonKept(h.key, h.value);
    var line := TrimR(h.key + ": " + h.value);
    assert line[|h.key|] == ':';
  }

  lemma InLineHeaderIsRead(h: Header, more: string)
    requires HeaderInLine(h)
    ensures var (headers, rest, ok) := ReadHeaders(more);
            ReadBack(h).Some? && ReadHeaders(HeaderLine(h) + more) == ([ReadBack(h).value] + headers, rest, ok)
  {
    hide LineLength, HasLine, LineText, TrimR, ParseHeader;
    var line := h.key + ": " + h.value;
    InLineConcat(h.key, ": ");
    InLineConcat(h.key + ": ", h.value);
    assert HeaderLine(h) + more == line + CRLF + more;
    LineIsRead(line, more);
    LineIsHeader(h);
    LineGoesOn(HeaderLine(h) + more);
  }

  lemma {:induction false} OnlyTheseComeBack(headers: seq<Header>, rest: string)
    requires AreInLine(headers) && ReadHeaders(HeadersText(headers) + CRLF + rest) == (headers, rest, true)
    ensures AreHeaders(headers)
    decreases |headers|
  {
    hide LineLength, HasLine, LineText, ReadHeaders, ReadBack, HeaderLine;
    if headers != [] {
      var h, more := headers[0], HeadersText(headers[1..]) + CRLF + rest;
      assert HeadersText(headers) + CRLF + rest == HeaderLine(h) + more;
      InLineHeaderIsRead(h, more);
      LineComesBackWhen(h);
      assert headers == [h] + headers[1..];
      assert headers[0] == ReadBack(h).value;
      assert ReadHeaders(more).0 == headers[1..];
      OnlyTheseComeBack(headers[1..], rest);
    }
  }

  /**
   Printed headers, followed by an empty line and anything, are read as the same headers, with what follows left
   unread, exactly if each has a name that is not empty and has no colon, a value that neither begins with a blank nor
   ends with white space, and no line feed in either.
   */
  lemma HeadersComeBackWhen(headers: seq<Header>, rest: string)
    ensures ReadHeaders(HeadersText(headers) + CRLF + rest) == (headers, rest, true) <==> AreHeaders(headers)
  {
    hide ReadHeaders, AreHeaders, AreInLine;
    var all := HeadersText(headers) + CRLF + rest;
    if AreHeaders(headers) {
      HeadersAreRead(headers, rest);
    } else if ReadHeaders(all) == (headers, rest, true) {
      ReadAreInLine(all);
      OnlyTheseComeBack(headers, rest);
    }
  }

  /** One header. */
  lemma HeaderComesBackWhen(h: Header, rest: string)
    ensures ReadHeaders(HeaderLine(h) + CRLF + rest) == ([h], rest, true) <==> IsHeader(h)
  {
    hide ReadHeaders, IsHeader, HeaderLine;
    HeadersComeBackWhen([h], rest);
    assert HeadersText([h]) == HeaderLine(h) + HeadersText([]) == HeaderLine(h);
    if IsHeader(h) {
      assert AreHeaders([h]);
    } else {
      assert !IsHeader([h][0]);
    }
  }

  /**
   A value with a line feed in it, as an option of cntlm may give one, comes out of its line unchanged, but not over a
   connection.
   */
  lemma LineFeedSplitsHeader(rest: string)
    ensures var h := Header("X", "a\nb");
            ReadBack(h) == Some(h) && ReadHeaders(HeaderLine(h) + CRLF + rest) != ([h], rest, true)
  {
    hide ReadHeaders, ReadBack, HeaderLine;
    var h := Header("X", "a\nb");
    LineComesBackWhen(h);
    HeaderComesBackWhen(h, rest);
    assert h.value[1] == '\n';
  }

  // ---------- first lines ----------

  /** Three digits are printed, and read. */
  lemma CodeIsRead(code: int)
    requires 1 <= code <= 999
    ensures |FormatCode(code)| == 3 && IsToken(FormatCode(code)) && Atoll(FormatCode(code)) == code
  {
    hide Digit, FormatCode, Atoll;
    var a, b, c := code / 100, code / 10 % 10, code % 10;
    ThreeDigits(code);
    DigitIsRead(a); DigitIsRead(b); DigitIsRead(c);
    DigitsAreRead(a, b, c);
  }

  lemma DigitsAreRead(a: nat, b: nat, c: nat)
    requires a < 10 && b < 10 && c < 10
    ensures Atoll([Digit(a), Digit(b), Digit(c)]) == 100 * a + 10 * b + c
  {
    hide Digit, IsSpace;
    var s := [Digit(a), Digit(b), Digit(c)];
    assert s[1..] == [Digit(b), Digit(c)] && [Digit(b), Digit(c)][1..] == [Digit(c)] && [Digit(c)][1..] == [];
    DigitIsRead(a); DigitIsRead(b); DigitIsRead(c);
    assert DigitsFrom([Digit(c)], 10 * a + b) == DigitsFrom([], 10 * (10 * a + b) + c);
    assert DigitsFrom([Digit(b), Digit(c)], a) == DigitsFrom([Digit(c)], 10 * a + b);
    assert DigitsFrom(s, 0) == DigitsFrom([Digit(b), Digit(c)], a);
  }

  lemma DigitIsRead(n: nat)
    requires n < 10
    ensures IsDigit(Digit(n)) && Digit(n) as int - '0' as int == n && !IsSpace(Digit(n)) && Digit(n) != '-'
            && Digit(n) != '+'
  {
  }

  lemma ThreeDigits(code: int)
    requires 0 <= code <= 999
    ensures FormatCode(code) == [Digit(code / 100), Digit(code / 10 % 10), Digit(code % 10)]
  {
    hide Digit;
    ZeroDigit();
    assert code / 10 / 10 == code / 100;
    if code < 10 {
      var d := Digits(code);
      assert d == [Digit(code)];
      assert "0" + d == [Digit(0), Digit(code)];
      assert "0" + ("0" + d) == [Digit(0), Digit(0), Digit(code)];
      assert PadTo(d, 3) == PadTo("0" + d, 3) == PadTo("0" + ("0" + d), 3);
    } else if code < 100 {
      var d := Digits(code);
      assert d == Digits(code / 10) + [Digit(code % 10)] && Digits(code / 10) == [Digit(code / 10)];
      assert "0" + d == [Digit(0), Digit(code / 10), Digit(code % 10)];
      assert PadTo(d, 3) == PadTo("0" + d, 3);
    } else {
      assert Digits(code / 100) == [Digit(code / 100)];
      assert Digits(code / 10) == Digits(code / 10 / 10) + [Digit(code / 10 % 10)];
      assert Digits(code) == Digits(code / 10) + [Digit(code % 10)];
    }
  }

  lemma ZeroDigit()
    ensures Digit(0) == '0'
  {
  }

  lemma ReplyLineIsRead(m: Message)
    requires IsReply(m)
    ensures ParseFirst(TrimR(m.http + " " + FormatCode(m.code) + " " + m.msg)) == Some(Reply(m.http, m.code, m.msg))
  {
    hide NextToken, FormatCode, Atoll, TrimR, StartsWith, DropBlanks;
    var code := FormatCode(m.code);
    CodeIsRead(m.code);
    TokenChars(m.http);
    TokenChars(code);
    var full := m.http + " " + code + " " + m.msg;
    if m.msg == [] {
      var line := m.http + " " + code;
      TrimBlankEnd(line);
      assert full == line + " ";
      TokenInFront(m.http, code);
      TokenInFront(code, []);
      assert line[0] == m.http[0];
    } else {
      TrimNothing(full);
      TokenInFront(m.http, code + " " + m.msg);
      assert full == m.http + " " + (code + " " + m.msg);
      TokenInFront(code, m.msg);
      assert full[0] == m.http[0];
    }
  }

  lemma TrimBlankEnd(s: string)
    requires NoSpaceAtEnd(s)
    ensures TrimR(s + " ") == s
  {
    ColonIsNoSpace();
    TrimEnd(s, " ");
  }

  lemma TrimNothing(s: string)
    requires NoSpaceAtEnd(s)
    ensures TrimR(s) == s
  {
  }

  lemma RequestLineIsRead(m: Message)
    requires IsRequest(m)
    ensures ParseFirst(TrimR(m.verb + " " + m.url + " " + m.http)) == Some(Request(m.verb, m.url, m.http))
  {
    hide NextToken, TrimR, StartsWith, MatchesAt, TargetOf;
    var line := m.verb + " " + m.url + " " + m.http;
    TokenChars(m.verb);
    TokenChars(m.url);
    TokenChars(m.http);
    TrimNothing(line);
    assert line == m.verb + " " + (m.url + " " + m.http);
    TokenInFront(m.verb, m.url + " " + m.http);
    TokenInFront(m.url, m.http);
    TokenInFront(m.http, []);
    VersionOccurs(m.verb + " " + m.url, m.http);
  }

  lemma VersionOccurs(front: string, version: string)
    requires MatchesAt("HTTP/", version, 0)
    ensures Occurs(" HTTP/", front + " " + version)
  {
    var line := front + " " + version;
    assert line[|front|..|front| + 6] == " " + version[0..5];
    assert MatchesAt(" HTTP/", line, |front|);
  }

  // ---------- the whole message ----------

  /**
   A reply that is printed and read again, whatever follows it and however the reads cut it: version, code, message and
   headers are the same, and what follows is left unread.
   */
  lemma ReplyComesBack(m: Message, rest: string)
    requires IsReply(m)
    ensures Received(Text(m) + rest)
            == Some((Message(false, [], [], m.http, None, 0, m.code, m.msg, false, m.headers), rest))
  {
    hide LineLength, HasLine, LineText, ReadHeaders, ParseFirst, HeadersText, FormatCode, TrimR, AreHeaders, IsVersion;
    var line := m.http + " " + FormatCode(m.code) + " " + m.msg;
    var more := HeadersText(m.headers) + CRLF + rest;
    assert Text(m) + rest == line + CRLF + more;
    ReplyLineInLine(m);
    LineIsRead(line, more);
    ReplyLineIsRead(m);
    HeadersAreRead(m.headers, rest);
  }

  lemma ReplyLineInLine(m: Message)
    requires IsReply(m)
    ensures InLine(m.http + " " + FormatCode(m.code) + " " + m.msg)
  {
    hide FormatCode, StartsWith, InLine, IsToken;
    CodeIsRead(m.code);
    TokenChars(m.http);
    TokenChars(FormatCode(m.code));
    BlankInLine();
    InLineConcat(m.http, " ");
    InLineConcat(m.http + " ", FormatCode(m.code));
    InLineConcat(m.http + " " + FormatCode(m.code), " ");
    InLineConcat(m.http + " " + FormatCode(m.code) + " ", m.msg);
  }

  lemma BlankInLine()
    ensures InLine(" ")
  {
  }

  /** The same for a request; it has got a Host header if it had none. */
  lemma RequestComesBack(m: Message, rest: string)
    requires IsRequest(m)
    ensures var target := TargetOf(m.url).value;
            Received(Text(m) + rest)
                == Some((Message(true, m.verb, m.url, m.http, Some(target.hostname), target.port, 0, [], false,
                                                      WithHost(m.headers, m.url)), rest))
  {
    hide LineLength, HasLine, LineText, ReadHeaders, ParseFirst, HeadersText, TrimR, AreHeaders, IsVersion, TargetOf,
         WithHost;
    var line := m.verb + " " + m.url + " " + m.http;
    var more := HeadersText(m.headers) + CRLF + rest;
    assert Text(m) + rest == line + CRLF + more;
    RequestLineInLine(m);
    LineIsRead(line, more);
    RequestLineIsRead(m);
    HeadersAreRead(m.headers, rest);
  }

  lemma RequestLineInLine(m: Message)
    requires IsRequest(m)
    ensures InLine(m.verb + " " + m.url + " " + m.http)
  {
    hide InLine, IsToken;
    TokenChars(m.verb);
    TokenChars(m.url);
    TokenChars(m.http);
    BlankInLine();
    InLineConcat(m.verb, " ");
    InLineConcat(m.verb + " ", m.url);
    InLineConcat(m.verb + " " + m.url, " ");
    InLineConcat(m.verb + " " + m.url + " ", m.http);
  }

  /** The first Host header names the host of the URL if the request had none, and is otherwise the one it had. */
  lemma HostIsThere(headers: seq<Header>, url: string)
    ensures Get(WithHost(headers, url), "Host")
            == if Has(headers, "Host") then Get(headers, "Host") else Some(HostOf(url))
  {
    hide HostOf, SameName;
    if !Has(headers, "Host") {
      AppendedIsFound(headers, Header("Host", HostOf(url)));
    }
  }

  lemma {:induction false} AppendedIsFound(headers: seq<Header>, last: Header)
    requires !Has(headers, last.key)
    ensures Get(headers + [last], last.key) == Some(last.value)
  {
    if headers == [] {
      assert headers + [last] == [last];
    } else {
      AppendedIsFound(headers[1..], last);
      GetCons(headers[0], headers[1..] + [last], last.key);
      assert headers + [last] == [headers[0]] + (headers[1..] + [last]);
    }
  }
}
