/**
 Which first lines headers_recv of cntlm-0.92.3/http.c takes for a reply, which for a request, and which for neither.
 */
module FirstLines {
  import opened Chunks
  import opened ChunkedBodies
  import opened HeaderRoundTrip
  import opened HeaderText
  import opened Headers
  import opened Messages
  import opened Names
  import opened Options
  import opened Sockets

  const VERSION := "HTTP/"

  /** The word begins with the name of the protocol, in capitals. */
  predicate BeginsWithVersion(word: string) {
    |word| >= 5 && word[..5] == VERSION
  }

  /** The first word of a status line: it begins with one of two names, whatever the case. */
  lemma VersionWhen(word: string)
    requires IsToken(word)
    ensures IsVersion(word) <==> (|word| >= 5 && SameLetters(word[..5], "HTTP/"))
                                 || (|word| >= 3 && SameLetters(word[..3], "ICY"))
  {
    hide SameName, SameLetters;
    if |word| >= 5 {
      SameNameWhen(word[..5], "HTTP/");
    }
    if |word| >= 3 {
      SameNameWhen(word[..3], "ICY");
    }
  }

  lemma NoBlank(word: string, i: nat)
    requires IsToken(word) && i < |word|
    ensures word[i] != ' '
  {
  }

  /** Reading at a place where a word begins. */
  lemma WordAt(front: string, word: string, rest: string)
    requires IsToken(word) && (rest == [] || rest[0] == ' ')
    ensures MatchesAt(" " + VERSION, front + " " + word + rest, |front|) <==> BeginsWithVersion(word)
  {
    var line := front + " " + word + rest;
    var n := |front|;
    if BeginsWithVersion(word) {
      assert line[n..n + 6] == " " + word[..5];
    }
    if |word| < 5 && n + 6 <= |line| {
      assert line[n + 1 + |word|] == ' ';
    }
    if n + 6 <= |line| && line[n..n + 6] == " " + VERSION {
      var k := if |word| < 5 then |word| else 4;
      VersionAt(line, n, k);
      forall i | 0 <= i < 5 ensures line[n + 1 + i] == VERSION[i] {
        VersionAt(line, n, i);
      }
      assert word[..5] == VERSION;
    }
  }

  lemma VersionAt(line: string, n: nat, i: nat)
    requires i < 5 && n + 6 <= |line| && line[n..n + 6] == " " + VERSION
    ensures line[n + 1 + i] == VERSION[i] && VERSION[i] != ' '
  {
    assert line[n..n + 6][1 + i] == line[n + 1 + i];
  }

  /** A place where no word begins. */
  lemma NotAt(line: string, i: nat)
    requires i < |line| && line[i] != ' '
    ensures !MatchesAt(" " + VERSION, line, i)
  {
    if i + 6 <= |line| {
      assert line[i..i + 6][0] == line[i];
    }
  }

  /** The protocol is found in a request line exactly if the second or the third word begins with it. */
  lemma VersionOccursWhen(verb: string, url: string, version: string)
    requires IsToken(verb) && IsToken(url) && IsToken(version)
    ensures Occurs(" HTTP/", verb + " " + url + " " + version)
            <==> BeginsWithVersion(url) || BeginsWithVersion(version)
  {
    hide IsToken, BeginsWithVersion, MatchesAt;
    var line := verb + " " + url + " " + version;
    assert line == verb + " " + url + (" " + version);
    assert line == (verb + " " + url) + " " + version + [];
    WordAt(verb, url, " " + version);
    WordAt(verb + " " + url, version, []);
    assert " " + VERSION == " HTTP/";
    forall i: nat | i <= |line| && i != |verb| && i != |verb| + 1 + |url|
      ensures !MatchesAt(" HTTP/", line, i)
    {
      Elsewhere(verb, url, version, i);
    }
  }

  lemma Elsewhere(verb: string, url: string, version: string, i: nat)
    requires IsToken(verb) && IsToken(url) && IsToken(version)
    requires i != |verb| && i != |verb| + 1 + |url| && i <= |verb| + |url| + |version| + 2
    ensures !MatchesAt(" HTTP/", verb + " " + url + " " + version, i)
  {
    var line := verb + " " + url + " " + version;
    if i < |line| {
      var inner := i - |verb| - 1;
      assert line[i] == if i < |verb| then verb[i] else if inner < |url| then url[inner]
             else version[inner - |url| - 1];
      NotAt(line, i);
      assert " " + VERSION == " HTTP/";
    }
  }

  /** A status line is one exactly if its second word has three characters and is a number other than 0. */
  lemma StatusLineWhen(version: string, code: string, msg: string)
    requires IsVersion(version) && IsToken(code)
    ensures ParseFirst(version + " " + code + " " + msg)
            == if |code| == 3 && Atoll(code) != 0 then Some(Reply(version, Atoll(code), msg)) else None
    ensures ParseFirst(version + " " + code)
            == if |code| == 3 && Atoll(code) != 0 then Some(Reply(version, Atoll(code), [])) else None
    ensures ParseFirst(version) == None
  {
    hide NextToken, Atoll, StartsWith, DropBlanks;
    TokenChars(version);
    TokenChars(code);
    TokenInFront(version, code + " " + msg);
    TokenInFront(version, code);
    TokenInFront(code, msg);
    assert version + " " + code + " " + msg == version + " " + (code + " " + msg);
    assert (version + " " + code)[0] == version[0] && (version + " " + code + " " + msg)[0] == version[0];
    NoWord();
  }

  lemma NoWord()
    ensures NextToken([]) == None
  {
  }

  /** A request line is one exactly if it has three words, of which the second or third begins with the protocol. */
  lemma RequestLineWhen(verb: string, url: string, version: string)
    requires IsToken(verb) && !IsVersion(verb) && IsToken(url) && IsToken(version)
    ensures ParseFirst(verb + " " + url + " " + version)
            == if BeginsWithVersion(url) || BeginsWithVersion(version) then Some(Request(verb, url, version)) else None
    ensures ParseFirst(verb + " " + url) == None && ParseFirst(verb) == None && ParseFirst([]) == None
  {
    hide NextToken, StartsWith, BeginsWithVersion, Occurs;
    TokenChars(verb);
    VersionOccursWhen(verb, url, version);
    TokenInFront(verb, url + " " + version);
    TokenInFront(verb, url);
    TokenInFront(url, version);
    TokenInFront(version, []);
    var line := verb + " " + url + " " + version;
    assert line == verb + " " + (url + " " + version);
    assert line[0] == verb[0] && (verb + " " + url)[0] == verb[0];
    NoWord();
  }

  /** What begins with a line that is neither is refused, whatever follows. */
  lemma OtherLinesAreRefused(line: string, rest: string)
    requires InLine(line) && NoSpaceAtEnd(line) && ParseFirst(line) == None
    ensures Received(line + CRLF + rest) == None
  {
    hide LineLength, HasLine, LineText, ParseFirst, TrimR;
    LineIsRead(line, rest);
    TrimNothing(line);
  }
}
