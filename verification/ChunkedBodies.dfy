/** Chunked bodies as section 4.1 of RFC 7230 writes them, and what chunked_data_send makes of them. */
module ChunkedBodies {
  import opened Chunks
  import opened Messages
  import opened Sockets

  /** A chunk: its size in hexadecimal digits as they are written, an extension, and the data. */
  datatype Chunk = Chunk(size: string, ext: string, data: string)

  predicate AllHex(s: string) {
    forall i :: 0 <= i < |s| ==> IsHex(s[i])
  }

  /** An extension begins with a semicolon, or with white space in front of it. */
  predicate IsExtension(ext: string) {
    InLine(ext) && (ext == [] || ext[0] == ';' || IsSpace(ext[0]))
  }

  predicate IsSize(size: string, n: nat) {
    |size| > 0 && AllHex(size) && HexValue(size) == n
  }

  predicate IsChunk(c: Chunk) {
    IsSize(c.size, |c.data|) && IsExtension(c.ext) && 0 < |c.data| <= 0x7fff_ffff - 2
  }

  /** A trailer line is not empty. */
  predicate IsTrailerLine(s: string) {
    InLine(s) && |s| > 0 && s[0] != '\r'
  }

  /** A chunked body: chunks, a size of zero, trailer lines. */
  datatype Body = Body(chunks: seq<Chunk>, zero: string, ext: string, trailer: seq<string>)

  predicate IsBody(b: Body) {
    && (forall i :: 0 <= i < |b.chunks| ==> IsChunk(b.chunks[i]))
    && IsSize(b.zero, 0) && IsExtension(b.ext)
    && (forall i :: 0 <= i < |b.trailer| ==> IsTrailerLine(b.trailer[i]))
  }

  function EncodeTrailer(lines: seq<string>): string {
    if lines == [] then CRLF else lines[0] + CRLF + EncodeTrailer(lines[1..])
  }

  function Encode(b: Body): string
    decreases |b.chunks|
  {
    if b.chunks == [] then (b.zero + b.ext) + CRLF + EncodeTrailer(b.trailer)
    else
      var c := b.chunks[0];
      (c.size + c.ext) + CRLF + (c.data + CRLF + Encode(b.(chunks := b.chunks[1..])))
  }

  // ---------- lines ----------

  lemma {:induction false} FirstLine(s: string, rest: string)
    requires InLine(s)
    ensures LineLength(s + CRLF + rest) == |s| + 2 && HasLine(s + CRLF + rest)
  {
    var all := s + CRLF + rest;
    if s == [] {
      assert all == CRLF + rest && all[1..][0] == '\n';
    } else {
      FirstLine(s[1..], rest);
      assert all[1..] == s[1..] + CRLF + rest;
    }
  }

  lemma {:induction false} NoZero(s: string)
    requires forall i :: 0 <= i < |s| ==> s[i] != 0 as char
    ensures CString(s) == s
  {
    if s != [] {
      NoZero(s[1..]);
    }
  }

  /** One line read in front of whatever follows. */
  lemma LineInFront(s: string, rest: string)
    requires InLine(s)
    ensures var all := s + CRLF + rest;
            && LineLength(all) == |s| + 2 && HasLine(all)
            && CString(all[..|s| + 2]) == s + CRLF && all[|s| + 2..] == rest
  {
    FirstLine(s, rest);
    var all := s + CRLF + rest;
    assert all[..|s| + 2] == s + CRLF;
    NoZero(s + CRLF);
  }

  // ---------- sizes ----------

  lemma {:induction false} HexInFront(digits: string, rest: string)
    requires AllHex(digits) && |rest| > 0 && !IsHex(rest[0])
    ensures HexCount(digits + rest) == |digits|
  {
    if digits == [] {
      assert digits + rest == rest;
    } else {
      HexInFront(digits[1..], rest);
      assert (digits + rest)[1..] == digits[1..] + rest;
    }
  }

  lemma HexIsNothingElse(c: char)
    ensures IsHex(c) ==> !IsSpace(c) && c != '-' && c != '+' && c != 'x' && c != 'X' && c != ';'
    ensures IsSpace(c) || c == ';' || c == '\r' ==> !IsHex(c) && c != 'x' && c != 'X'
  {
  }

  /** What becomes of a number on its way through a long to an int. */
  function ReadAs(n: nat): int {
    ToInt(if n > 0x7fff_ffff_ffff_ffff then 0x7fff_ffff_ffff_ffff else n)
  }

  /** The size is read from a chunk header, as far as an int can hold it. */
  lemma SizeIsReadAs(size: string, ext: string, n: nat)
    requires IsSize(size, n) && IsExtension(ext)
    ensures SizeOf((size + ext) + CRLF) == (true, ReadAs(n))
  {
    hide HexDigit, IsSpace, HexCount, HexValue, ToInt;
    var line, tail := (size + ext) + CRLF, ext + CRLF;
    assert line == size + tail;
    HexIsNothingElse(size[0]);
    HexIsNothingElse(tail[0]);
    if |size| > 1 {
      HexIsNothingElse(size[1]);
    }
    HexInFront(size, tail);
    assert line[0..] == line && line[..|size|] == size;
    SpaceIsSpace();
    NoPrefix(line, |size|);
  }

  /** A size that an int can hold. */
  lemma SizeIsRead(size: string, ext: string, n: nat)
    requires IsSize(size, n) && IsExtension(ext) && n <= 0x7fff_ffff
    ensures SizeOf((size + ext) + CRLF) == (true, n)
  {
    hide SizeOf, IsSize, IsExtension;
    SizeIsReadAs(size, ext, n);
  }

  lemma SpaceIsSpace()
    ensures IsSpace('\r') && !IsHex('\r')
  {
  }

  /** A number without blanks, sign and prefix. */
  lemma NoPrefix(line: string, digits: nat)
    requires |line| > 1 && IsHex(line[0]) && line[1] != 'x' && line[1] != 'X' && HexCount(line) == digits > 0
    ensures var value := HexValue(line[..digits]);
            Strtol(line) == (if value > 0x7fff_ffff_ffff_ffff then 0x7fff_ffff_ffff_ffff else value, digits)
  {
    hide HexCount, HexValue;
    HexIsNothingElse(line[0]);
    assert line[0..] == line;
  }

  // ---------- hexadecimal digits ----------

  const LOWER_DIGITS := "0123456789abcdef"
  const UPPER_DIGITS := "0123456789ABCDEF"

  /** The digits and what they stand for; there are no others. */
  lemma HexDigitIs(c: char)
    ensures forall k :: 0 <= k < 16 ==> HexDigit(LOWER_DIGITS[k]) == HexDigit(UPPER_DIGITS[k]) == k
    ensures IsHex(c) <==> c in LOWER_DIGITS || c in UPPER_DIGITS
  {
    forall k | 0 <= k < 16
      ensures HexDigit(LOWER_DIGITS[k]) == HexDigit(UPPER_DIGITS[k]) == k
    {
      DigitNumber(k);
    }
    if IsHex(c) {
      assert c == LOWER_DIGITS[HexDigit(c)] || c == UPPER_DIGITS[HexDigit(c)];
    } else {
      assert forall k | 0 <= k < 16 :: LOWER_DIGITS[k] != c && UPPER_DIGITS[k] != c;
    }
  }

  lemma DigitNumber(k: nat)
    requires k < 16
    ensures HexDigit(LOWER_DIGITS[k]) == HexDigit(UPPER_DIGITS[k]) == k
  {
  }

  function HexChar(k: nat): char
    requires k < 16
  {
    LOWER_DIGITS[k]
  }

  lemma HexCharIs(k: nat)
    requires k < 16
    ensures IsHex(HexChar(k)) && HexDigit(HexChar(k)) == k
  {
    DigitNumber(k);
  }

  /** A number written in hexadecimal digits. */
  function Hex(n: nat): (s: string)
    ensures |s| > 0
  {
    (if n < 16 then "" else Hex(n / 16)) + [HexChar(n % 16)]
  }

  lemma OneMoreHex(s: string, c: char)
    requires AllHex(s) && IsHex(c)
    ensures AllHex(s + [c]) && HexValue(s + [c]) == 16 * HexValue(s) + HexDigit(c)
  {
    hide HexDigit;
    assert (s + [c])[..|s|] == s;
  }

  /** Such a text is a size, and it is that number's. */
  lemma {:induction false} HexIsSize(n: nat)
    ensures IsSize(Hex(n), n)
  {
    hide HexDigit, HexChar, HexValue;
    HexCharIs(n % 16);
    if n < 16 {
      NoHexDigits();
      OneMoreHex("", HexChar(n));
    } else {
      HexIsSize(n / 16);
      OneMoreHex(Hex(n / 16), HexChar(n % 16));
    }
  }

  lemma NoHexDigits()
    ensures AllHex("") && HexValue("") == 0
  {
  }

  /** A chunk as it is usually written: its length in hexadecimal digits, a line end, the bytes, a line end. */
  function Written(data: string): Chunk {
    Chunk(Hex(|data|), "", data)
  }

  /** Pieces written as chunks one after the other are a body. */
  lemma WrittenIsBody(pieces: seq<string>)
    requires forall i :: 0 <= i < |pieces| ==> 0 < |pieces[i]| <= 0x7fff_ffff - 2
    ensures IsBody(Body(seq(|pieces|, i requires 0 <= i < |pieces| => Written(pieces[i])), "0", "", []))
  {
    hide IsSize, IsExtension, Hex;
    ZeroIsSize();
    forall i | 0 <= i < |pieces| ensures IsChunk(Written(pieces[i])) {
      HexIsSize(|pieces[i]|);
    }
  }

  // ---------- strtol ----------

  lemma {:induction false} BlanksInFront(blank: string, s: string)
    requires (forall i :: 0 <= i < |blank| ==> IsSpace(blank[i])) && (s == [] || !IsSpace(s[0]))
    ensures SpaceCount(blank + s) == |blank|
  {
    hide IsSpace;
    if blank == [] {
      assert blank + s == s;
    } else {
      assert (blank + s)[1..] == blank[1..] + s;
      BlanksInFront(blank[1..], s);
    }
  }

  predicate IsPrefix(prefix: string) {
    prefix == [] || (|prefix| == 2 && prefix[0] == '0' && prefix[1] in {'x', 'X'})
  }

  predicate IsSign(sign: string) {
    sign == [] || (|sign| == 1 && sign[0] in {'+', '-'})
  }

  predicate IsMinus(sign: string) {
    |sign| == 1 && sign[0] == '-'
  }

  /** Blanks, a sign, a prefix and digits: the value, as far as a long can hold it, and the place behind the digits. */
  lemma StrtolReads(blank: string, sign: string, prefix: string, digits: string, n: nat, tail: string)
    requires (forall i :: 0 <= i < |blank| ==> IsSpace(blank[i])) && IsSign(sign) && IsPrefix(prefix)
    requires IsSize(digits, n) && (tail != [] ==> !IsHex(tail[0]))
    requires prefix == [] ==> !(|digits| == 1 && digits[0] == '0' && tail != [] && tail[0] in {'x', 'X'})
    ensures var (value, end) := Strtol(blank + sign + prefix + digits + tail);
            && end == |blank| + |sign| + |prefix| + |digits|
            && value == if IsMinus(sign) then (if n > 0x8000_0000_0000_0000 then -0x8000_0000_0000_0000 else 0 - n)
                        else (if n > 0x7fff_ffff_ffff_ffff then 0x7fff_ffff_ffff_ffff else n)
  {
    hide HexDigit, IsSpace, HexCount, HexValue, Strtol, IsSize, IsPrefix, IsSign, IsMinus, IsHex, AllHex;
    NumberBegins(prefix, digits, n, tail);
    CountDigits(digits, n, tail);
    BehindPrefix(prefix, digits, tail);
    Regrouped(blank, sign, prefix, digits, tail);
    StrtolNumber(blank, sign, prefix + digits + tail, |prefix|, |digits|);
  }

  lemma StrtolNumber(blank: string, sign: string, number: string, prefix: nat, digits: nat)
    requires (forall i :: 0 <= i < |blank| ==> IsSpace(blank[i])) && IsSign(sign) && |number| > 0
    requires !IsSpace(number[0]) && number[0] != '+' && number[0] != '-'
    requires prefix
             == (if 2 < |number| && number[0] == '0' && number[1] in {'x', 'X'} && IsHex(number[2]) then 2 else 0)
    requires prefix <= |number| && digits > 0 && HexCount(number[prefix..]) == digits
    ensures var (value, end) := Strtol(blank + (sign + number));
            var n := HexValue(number[prefix..][..digits]);
            && end == |blank| + |sign| + prefix + digits
            && value == if IsMinus(sign) then (if n > 0x8000_0000_0000_0000 then -0x8000_0000_0000_0000 else 0 - n)
                        else (if n > 0x7fff_ffff_ffff_ffff then 0x7fff_ffff_ffff_ffff else n)
  {
    hide HexDigit, IsSpace, HexCount, HexValue, Strtol, SpaceCount, IsSign, IsMinus, IsHex;
    SignFirst(sign, number);
    BlanksInFront(blank, sign + number);
    TextBegins(blank, sign, number, prefix);
    StrtolBehind(blank + (sign + number), |blank|, sign, number, prefix, digits);
  }

  lemma SignFirst(sign: string, number: string)
    requires IsSign(sign) && |number| > 0 && !IsSpace(number[0])
    ensures !IsSpace((sign + number)[0])
  {
    hide IsSpace;
    SignIsNoSpace();
  }

  lemma BehindPrefix(prefix: string, digits: string, tail: string)
    ensures (prefix + digits + tail)[|prefix|..] == digits + tail
  {
  }

  lemma Regrouped(blank: string, sign: string, prefix: string, digits: string, tail: string)
    ensures blank + sign + prefix + digits + tail == blank + (sign + (prefix + digits + tail))
  {
    var front := blank + sign;
    assert front + prefix + digits == front + (prefix + digits);
    assert front + (prefix + digits) + tail == front + (prefix + digits + tail);
    assert blank + sign + (prefix + digits + tail) == blank + (sign + (prefix + digits + tail));
  }

  lemma CountDigits(digits: string, n: nat, tail: string)
    requires IsSize(digits, n) && (tail != [] ==> !IsHex(tail[0]))
    ensures |digits| > 0 && AllHex(digits) && HexValue(digits) == n
    ensures HexCount(digits + tail) == |digits| && (digits + tail)[..|digits|] == digits
  {
    hide HexDigit, HexCount, HexValue;
    if tail == [] {
      AllAreHex(digits);
      assert digits + tail == digits;
    } else {
      HexInFront(digits, tail);
    }
  }

  lemma TextBegins(blank: string, sign: string, number: string, prefix: nat)
    requires IsSign(sign) && |number| > 0 && prefix <= |number|
    ensures var text, at := blank + (sign + number), |blank| + |sign|;
            && |text| == at + |number| && text[at + prefix..] == number[prefix..]
            && text[|blank|] == (if sign == [] then number[0] else sign[0])
            && forall i :: 0 <= i < |number| ==> text[at + i] == number[i]
  {
  }

  /** With the blanks, the sign, the length of the prefix and the number of digits, the value. */
  lemma StrtolBehind(text: string, blank: nat, sign: string, number: string, prefix: nat, digits: nat)
    requires SpaceCount(text) == blank && IsSign(sign) && |number| > 0
    requires number[0] != '+' && number[0] != '-'
    requires prefix
             == (if 2 < |number| && number[0] == '0' && number[1] in {'x', 'X'} && IsHex(number[2]) then 2 else 0)
    requires prefix <= |number| && digits > 0 && HexCount(number[prefix..]) == digits
    requires |text| == blank + |sign| + |number| && text[blank + |sign| + prefix..] == number[prefix..]
    requires text[blank] == (if sign == [] then number[0] else sign[0])
    requires forall i :: 0 <= i < |number| ==> text[blank + |sign| + i] == number[i]
    ensures var (value, end) := Strtol(text);
            var n := HexValue(number[prefix..][..digits]);
            && end == blank + |sign| + prefix + digits
            && value == if IsMinus(sign) then (if n > 0x8000_0000_0000_0000 then -0x8000_0000_0000_0000 else 0 - n)
                        else (if n > 0x7fff_ffff_ffff_ffff then 0x7fff_ffff_ffff_ffff else n)
  {
    hide HexDigit, IsSpace, HexCount, HexValue, SpaceCount, IsHex;
    var at := blank + |sign|;
    assert text[at + 0] == number[0];
    if 2 < |number| {
      assert text[at + 1] == number[1] && text[at + 2] == number[2];
    }
    assert (if blank < |text| && text[blank] in {'-', '+'} then 1 else 0) == |sign|;
    assert (if at + 2 < |text| && text[at] == '0' && text[at + 1] in {'x', 'X'} && IsHex(text[at + 2]) then 2 else 0)
           == prefix;
  }

  /** A line begins with a size exactly if white space or a semicolon stands behind the number. */
  lemma SizeNeedsItsEnd(prefix: string, digits: string, n: nat, tail: string)
    requires IsPrefix(prefix) && IsSize(digits, n) && tail != [] && !IsHex(tail[0])
    requires prefix == [] ==> !(|digits| == 1 && digits[0] == '0' && tail[0] in {'x', 'X'})
    ensures SizeOf(prefix + digits + tail) == (IsSpace(tail[0]) || tail[0] == ';', ReadAs(n))
  {
    hide IsHex, IsSpace, IsSize, IsPrefix, Strtol, HexValue;
    StrtolReads("", "", prefix, digits, n, tail);
    var line := prefix + digits + tail;
    assert "" + "" + prefix + digits + tail == line && "" + "" + prefix + digits == prefix + digits;
    assert line[|prefix + digits|] == tail[0];
  }

  /** So what is no size ends a transfer without success, before the line is written. */
  lemma BadSizeIsRefused(line: string, rest: string, orderly: bool)
    requires InLine(line) && !SizeOf(line + CRLF).0
    ensures Chunked(line + CRLF + rest, orderly) == Transfer(false, [], rest)
  {
    hide LineLength, HasLine, CString, SizeOf;
    LineInFront(line, rest);
  }

  lemma SignIsNoSpace()
    ensures !IsSpace('+') && !IsSpace('-')
  {
  }

  lemma {:induction false} AllAreHex(digits: string)
    requires AllHex(digits)
    ensures HexCount(digits) == |digits|
  {
    if digits != [] {
      AllAreHex(digits[1..]);
    }
  }

  lemma NumberBegins(prefix: string, digits: string, n: nat, tail: string)
    requires IsPrefix(prefix) && IsSize(digits, n) && (tail != [] ==> !IsHex(tail[0]))
    requires prefix == [] ==> !(|digits| == 1 && digits[0] == '0' && tail != [] && tail[0] in {'x', 'X'})
    ensures var s := prefix + digits + tail;
            && |s| > 0 && !IsSpace(s[0]) && s[0] != '+' && s[0] != '-'
            && |prefix| == (if 2 < |s| && s[0] == '0' && s[1] in {'x', 'X'} && IsHex(s[2]) then 2 else 0)
  {
    hide HexDigit, IsSpace, HexValue;
    HexIsNothingElse(digits[0]);
    ZeroIsHex();
    if |digits| > 1 {
      HexIsNothingElse(digits[1]);
    }
  }

  lemma ZeroIsHex()
    ensures IsHex('0') && !IsSpace('0') && !IsHex('x') && !IsHex('X')
  {
  }

  // ---------- the whole body ----------

  lemma {:induction false} TrailerIsSent(lines: seq<string>, rest: string)
    requires forall i :: 0 <= i < |lines| ==> IsTrailerLine(lines[i])
    ensures Trailer(EncodeTrailer(lines) + rest) == Transfer(true, EncodeTrailer(lines), rest)
  {
    hide LineLength, HasLine, CString;
    if lines == [] {
      LineInFront([], rest);
      assert [] + CRLF + rest == CRLF + rest;
    } else {
      var line, more := lines[0], EncodeTrailer(lines[1..]);
      assert line + CRLF + more + rest == line + CRLF + (more + rest);
      LineInFront(line, more + rest);
      TrailerIsSent(lines[1..], rest);
      assert line + CRLF + more == (line + CRLF) + more;
    }
  }

  /** One chunk in front of whatever follows. */
  lemma ChunkIsSent(c: Chunk, more: string, orderly: bool)
    requires IsChunk(c)
    ensures var text := (c.size + c.ext) + CRLF + (c.data + CRLF);
            Chunked(text + more, orderly) == After(text, Chunked(more, orderly))
  {
    hide LineLength, HasLine, CString, SizeOf, IsExtension, IsSize, Trailer, After;
    var line, data := c.size + c.ext, c.data + CRLF;
    SizeLineInLine(c.size, c.ext, |c.data|);
    assert line + CRLF + data + more == line + CRLF + (data + more);
    LineInFront(line, data + more);
    SizeIsRead(c.size, c.ext, |c.data|);
    assert (data + more)[..|data|] == data && (data + more)[|data|..] == more;
    AfterAppends(line + CRLF, data, Chunked(more, orderly));
  }

  /** The last chunk and the trailer. */
  lemma EndIsSent(b: Body, rest: string, orderly: bool)
    requires IsBody(b) && b.chunks == []
    ensures Chunked(Encode(b) + rest, orderly) == Transfer(true, Encode(b), rest)
  {
    hide LineLength, HasLine, CString, SizeOf, IsExtension, IsSize, Trailer;
    var line, more := b.zero + b.ext, EncodeTrailer(b.trailer);
    SizeLineInLine(b.zero, b.ext, 0);
    assert line + CRLF + more + rest == line + CRLF + (more + rest);
    LineInFront(line, more + rest);
    SizeIsRead(b.zero, b.ext, 0);
    TrailerIsSent(b.trailer, rest);
  }

  /**
   A well-formed chunked body is forwarded whole, byte by byte as it is, and what follows it is left unread, wherever
   the reads happened to cut it.
   */
  lemma {:induction false} BodyIsSent(b: Body, rest: string, orderly: bool)
    requires IsBody(b)
    ensures Chunked(Encode(b) + rest, orderly) == Transfer(true, Encode(b), rest)
    decreases |b.chunks|
  {
    hide Chunked, IsChunk, IsExtension, IsSize;
    if b.chunks == [] {
      EndIsSent(b, rest, orderly);
    } else {
      var c, others := b.chunks[0], b.(chunks := b.chunks[1..]);
      var text, more := (c.size + c.ext) + CRLF + (c.data + CRLF), Encode(others);
      BodyIsSent(others, rest, orderly);
      ChunkIsSent(c, more + rest, orderly);
      assert Encode(b) == text + more;
      assert Encode(b) + rest == text + (more + rest);
    }
  }

  lemma SizeLineInLine(size: string, ext: string, n: nat)
    requires IsSize(size, n) && IsExtension(ext)
    ensures InLine(size + ext)
  {
    forall i | 0 <= i < |size|
      ensures size[i] != '\n' && size[i] != 0 as char
    {
      HexIsNothingElse(size[i]);
      assert IsHex(size[i]);
    }
  }

  // ---------- which sizes are forwarded ----------

  /** A body of one chunk. */
  function OneChunk(size: string, ext: string, data: string): string {
    (size + ext) + CRLF + (data + CRLF) + ("0" + CRLF + CRLF)
  }

  /** Such a body, whatever its bytes are, is forwarded as it is. */
  ghost predicate PassesWhole(size: string, ext: string, data: string, rest: string, orderly: bool) {
    Chunked(OneChunk(size, ext, data) + rest, orderly) == Transfer(true, OneChunk(size, ext, data), rest)
  }

  lemma SmallChunkPasses(size: string, ext: string, data: string, rest: string, orderly: bool)
    requires IsSize(size, |data|) && IsExtension(ext) && 0 < |data| <= 0x7fff_ffff - 2
    ensures PassesWhole(size, ext, data, rest, orderly)
  {
    hide Chunked, IsExtension, IsSize;
    ZeroIsSize();
    var b := Body([Chunk(size, ext, data)], "0", "", []);
    var last := b.(chunks := []);
    assert b.(chunks := b.chunks[1..]) == last;
    assert "0" + "" == "0";
    assert Encode(last) == "0" + CRLF + CRLF;
    assert Encode(b) == (size + ext) + CRLF + (data + CRLF + Encode(last));
    assert Encode(b) == OneChunk(size, ext, data);
    BodyIsSent(b, rest, orderly);
  }

  lemma ZeroIsSize()
    ensures IsSize("0", 0) && IsExtension("")
  {
    assert "0"[..0] == [];
  }

  function Zs(k: nat): (s: string)
    ensures |s| == k && forall i :: 0 <= i < k ==> s[i] == 'z'
  {
    seq(k, _ => 'z')
  }

  /** Bytes that are no chunk header stop it. */
  lemma NoHeader(k: nat, rest: string, orderly: bool)
    requires k > 0
    ensures Chunked(Zs(k) + CRLF + rest, orderly) == Transfer(false, [], rest)
  {
    hide LineLength, HasLine, CString;
    LineInFront(Zs(k), rest);
    var line := Zs(k) + CRLF;
    assert line[0] == 'z' && line[0..] == line;
  }

  /** The first line of a chunked body, with the size that is read from it. */
  lemma HeaderInFront(size: string, ext: string, n: nat, more: string, orderly: bool)
    requires IsSize(size, n) && IsExtension(ext)
    ensures var line, csize := (size + ext) + CRLF, ReadAs(n);
            Chunked(line + more, orderly) ==
            if csize == 0 then After(line, Trailer(more))
            else if !UsableSize(csize) then Undefined
            else
              var m := Moved(more, csize + 2, orderly);
              if m.ok then After(line, After(m.written, Chunked(m.rest, orderly))) else After(line, m)
  {
    hide LineLength, HasLine, CString, SizeOf, IsExtension, IsSize, Trailer, After, ReadAs, Moved;
    SizeLineInLine(size, ext, n);
    LineInFront(size + ext, more);
    SizeIsReadAs(size, ext, n);
  }

  /** The size read is too small by far, or useless. */
  lemma LargeSize(n: nat)
    requires n > 0x7fff_ffff - 2
    ensures ReadAs(n) == 0 || !UsableSize(ReadAs(n)) || ReadAs(n) + 2 < n
  {
  }

  /** A large chunk of zs is not forwarded as one, unless its size is read as 0: then it is forwarded as a trailer. */
  lemma LargeChunkFails(size: string, ext: string, n: nat)
    requires IsSize(size, n) && IsExtension(ext) && n > 0x7fff_ffff - 2 && ReadAs(n) != 0
    ensures !PassesWhole(size, ext, Zs(n), [], true)
  {
    hide LineLength, HasLine, CString, SizeOf, IsExtension, IsSize, Trailer, Chunked, ReadAs;
    var line, end, csize := (size + ext) + CRLF, "0" + CRLF + CRLF, ReadAs(n);
    var more := Zs(n) + CRLF + end;
    assert OneChunk(size, ext, Zs(n)) + [] == line + more;
    HeaderInFront(size, ext, n, more, true);
    LargeSize(n);
    if UsableSize(csize) {
      if csize == -3 {
        NothingToChunk();
      } else {
        assert more[..csize + 2] == Zs(csize + 2);
        assert more[csize + 2..] == Zs(n - csize - 2) + CRLF + end;
        NoHeader(n - csize - 2, end, true);
      }
    }
  }

  lemma NothingToChunk()
    ensures Chunked([], true) == Transfer(false, [], [])
  {
  }

  /** Another large chunk: with an empty line in front, it ends the trailer it is taken for. */
  lemma LargeZeroFails(size: string, ext: string, n: nat)
    requires IsSize(size, n) && IsExtension(ext) && n > 0x7fff_ffff - 2 && ReadAs(n) == 0
    ensures !PassesWhole(size, ext, CRLF + Zs(n - 2), [], true)
  {
    hide LineLength, HasLine, CString, SizeOf, IsExtension, IsSize, Chunked, ReadAs;
    var line, behind := (size + ext) + CRLF, Zs(n - 2) + CRLF + ("0" + CRLF + CRLF);
    assert OneChunk(size, ext, CRLF + Zs(n - 2)) + [] == line + ([] + CRLF + behind);
    HeaderInFront(size, ext, n, [] + CRLF + behind, true);
    LineInFront([], behind);
  }

  /**
   A chunk whose size is written in hexadecimal digits is forwarded whole, whatever its bytes and what follows,
   exactly up to 2^31 - 3 bytes.
   */
  lemma ChunkPassesWhen(size: string, ext: string, n: nat)
    requires IsSize(size, n) && IsExtension(ext) && n > 0
    ensures (forall data, rest, orderly | |data| == n :: PassesWhole(size, ext, data, rest, orderly))
            <==> n <= 0x7fff_ffff - 2
  {
    hide PassesWhole, IsExtension, IsSize, ReadAs;
    if n <= 0x7fff_ffff - 2 {
      forall data, rest, orderly | |data| == n
        ensures PassesWhole(size, ext, data, rest, orderly)
      {
        SmallChunkPasses(size, ext, data, rest, orderly);
      }
    } else if ReadAs(n) == 0 {
      LargeZeroFails(size, ext, n);
      assert |CRLF + Zs(n - 2)| == n;
    } else {
      LargeChunkFails(size, ext, n);
      assert |Zs(n)| == n;
    }
  }
}
